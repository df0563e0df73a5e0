/** From tables to routes: when a configuration captured and validated by the
    control plane is one the data plane can load. */
module Publication {
  import opened Prelude
  import opened Tables
  import opened SnapshotCompiler
  import opened SnapshotMeaning
  import opened ControlPlane
  import opened TableRules
  import opened Loading
  import opened Frames
  import ConfigurationLifecycle
  import PortLifecycle

  /** The listeners a configuration is meant to serve. */
  ghost predicate Routed(db: Database, environment: string, id: Id) {
    id in db.assignments.listeners && db.assignments.listeners[id].environment == environment
    && (db.assignments.listeners[id].status == ListenerStatus.Reserved || db.assignments.listeners[id].status == ListenerStatus.Active)
  }

  /** The flags ValidateConfiguration does not look at. */
  ghost predicate Serviceable(db: Database, l: ListenerRow) {
    var c := db.catalog;
    && l.versionId in c.versions && c.versions[l.versionId].enabled
    && c.versions[l.versionId].serviceId in c.services && c.services[c.versions[l.versionId].serviceId].enabled
  }

  /** The part of validation that matters for loading. */
  ghost predicate HasUpstream(db: Database, l: ListenerRow) {
    exists u | u in db.catalog.upstreams :: db.catalog.upstreams[u].versionId == l.versionId && db.catalog.upstreams[u].enabled
  }

  ghost predicate Ready(db: Database, l: ListenerRow) { Serviceable(db, l) && HasUpstream(db, l) }

  lemma CapturedVersionAvailable(db: Database, g: Settings, environment: string, v: RawVersion)
    requires RowsSound(db, g)
    ensures VersionAvailable(Capture(db, environment), v) <==>
      && VersionIn(db.catalog, environment, v.id) && v == RawVersionOf(v.id, db.catalog.versions[v.id])
      && db.catalog.versions[v.id].enabled && db.catalog.services[db.catalog.versions[v.id].serviceId].enabled
  {
    CapturedVersions(db, environment, v);
    var raw := Capture(db, environment);
    if v in raw.versions {
      var row := db.catalog.versions[v.id];
      assert VersionRowOk(db.catalog, row);
      var s := RawService(row.serviceId, db.catalog.services[row.serviceId].enabled);
      CapturedServices(db, environment, s);
      if ServiceEnabled(raw, v.serviceId) {
        var t :| t in raw.services && t.id == v.serviceId && t.enabled;
        CapturedServices(db, environment, t);
      }
    }
  }

  lemma CapturedVersionsHavePaths(db: Database, g: Settings, environment: string)
    requires RowsSound(db, g)
    ensures forall v | v in Capture(db, environment).versions :: VersionPathOk(v)
  {
    forall v | v in Capture(db, environment).versions ensures VersionPathOk(v) {
      CapturedVersions(db, environment, v);
      assert VersionRowOk(db.catalog, db.catalog.versions[v.id]);
    }
  }

  lemma CapturedUpstreamsAccepted(db: Database, g: Settings, environment: string)
    requires RowsSound(db, g)
    ensures var raw := Capture(db, environment);
      forall u | u in raw.upstreams :: UpstreamAccepted(raw, u, g.platform, g.allowlist)
  {
    hide Capture, RowsSound;
    var raw := Capture(db, environment);
    forall u | u in raw.upstreams ensures UpstreamAccepted(raw, u, g.platform, g.allowlist) {
      CapturedUpstreams(db, environment, u);
      CapturedUpstreamFits(db, g, environment, u.id);
      forall v, path | VersionAvailable(raw, v) && v.id == u.versionId && ProbedOn(u, v, path) ensures Absolute(path) {
        CapturedVersionFits(db, g, environment, v);
        AbsoluteMeans(v.healthPath);
        AbsoluteMeans(u.healthPath);
      }
    }
  }

  lemma CapturedUpstreamFits(db: Database, g: Settings, environment: string, id: Id)
    requires RowsSound(db, g) && id in db.catalog.upstreams
    ensures UpstreamRowOk(db.catalog, g, db.catalog.upstreams[id])
  {
  }

  lemma CapturedVersionFits(db: Database, g: Settings, environment: string, v: RawVersion)
    requires RowsSound(db, g) && v in Capture(db, environment).versions
    ensures HasPrefix(v.healthPath, "/")
  {
    CapturedVersions(db, environment, v);
    assert VersionRowOk(db.catalog, db.catalog.versions[v.id]);
  }

  lemma CapturedPoolExists(db: Database, g: Settings, environment: string, row: ListenerRow)
    requires RowsSound(db, g) && VersionIn(db.catalog, environment, row.versionId)
    ensures (exists u | u in Capture(db, environment).upstreams :: TakesPart(u) && u.versionId == row.versionId) <==> HasUpstream(db, row)
  {
    if u :| u in db.catalog.upstreams && db.catalog.upstreams[u].versionId == row.versionId && db.catalog.upstreams[u].enabled {
      assert UpstreamRowOk(db.catalog, g, db.catalog.upstreams[u]);
      var raw := RawUpstreamOf(u, db.catalog.upstreams[u]);
      CapturedUpstreams(db, environment, raw);
      assert TakesPart(raw) && raw.versionId == row.versionId;
    }
    if raw :| raw in Capture(db, environment).upstreams && TakesPart(raw) && raw.versionId == row.versionId {
      CapturedUpstreams(db, environment, raw);
      assert db.catalog.upstreams[raw.id].versionId == row.versionId && db.catalog.upstreams[raw.id].enabled;
    }
  }

  lemma CapturedVersionServes(db: Database, g: Settings, environment: string, row: ListenerRow)
    requires RowsSound(db, g) && VersionIn(db.catalog, environment, row.versionId)
    ensures (exists v :: VersionAvailable(Capture(db, environment), v) && v.id == row.versionId) <==> Serviceable(db, row)
  {
    var raw := Capture(db, environment);
    CapturedVersionAvailable(db, g, environment, RawVersionOf(row.versionId, db.catalog.versions[row.versionId]));
    if w :| VersionAvailable(raw, w) && w.id == row.versionId {
      CapturedVersionAvailable(db, g, environment, w);
    }
  }

  lemma PortsInRange(db: Database, g: Settings, id: Id)
    requires RowsSound(db, g) && id in db.assignments.listeners
    ensures 1 <= db.assignments.listeners[id].port <= 65535
  {
    var row := db.assignments.listeners[id];
    assert PortLifecycle.ListenerConsistent(db.assignments, id);
    assert (row.environment, row.port).1 == row.port;
  }

  lemma CapturedListenerAccepted(db: Database, g: Settings, environment: string, id: Id)
    requires RowsSound(db, g) && Routed(db, environment, id)
    ensures var l := db.assignments.listeners[id];
      ListenerAccepted(Capture(db, environment), RawListenerOf(id, l), g.platform) <==> Ready(db, l)
  {
    hide Capture, Serviceable, VersionAvailable, TakesPart, HasUpstream, RegexAccepted, RegexOk;
    RegexMeans(db.assignments.listeners[id].regex, g.platform);
    var row := db.assignments.listeners[id];
    assert ListenerRowOk(db.catalog, db.access, g, row);
    CapturedPoolExists(db, g, environment, row);
    CapturedVersionServes(db, g, environment, row);
    PortsInRange(db, g, id);
  }

  lemma CapturedPortsDistinct(db: Database, g: Settings, environment: string)
    requires RowsSound(db, g)
    ensures var ls := Capture(db, environment).listeners;
      forall a, b | a in ls && b in ls && a.port == b.port :: a == b
  {
    var ls := Capture(db, environment).listeners;
    PortLifecycle.ConsistentTablesMeetTheSchema(db.assignments);
    forall a, b | a in ls && b in ls && a.port == b.port ensures a == b {
      CapturedListeners(db, environment, a);
      CapturedListeners(db, environment, b);
    }
  }

  ghost predicate AllServiceable(db: Database, environment: string) {
    forall id | Routed(db, environment, id) :: Serviceable(db, db.assignments.listeners[id])
  }

  ghost predicate AllReady(db: Database, environment: string) {
    forall id | Routed(db, environment, id) :: Ready(db, db.assignments.listeners[id])
  }

  /** Validation sees to the upstreams and leaves the flags. */
  lemma ValidationLeavesTheFlags(db: Database, environment: string)
    requires TablesPublishable(db, environment)
    ensures AllReady(db, environment) <==> AllServiceable(db, environment)
  {
    hide Serviceable;
    forall id | Routed(db, environment, id) ensures HasUpstream(db, db.assignments.listeners[id]) {
      assert ListenerPublishable(db, db.assignments.listeners[id]);
    }
  }

  lemma LiveRowsAreRouted(db: Database, environment: string, l: RawListener)
    ensures l in Capture(db, environment).listeners && InService(l)
      <==> Routed(db, environment, l.id) && l == RawListenerOf(l.id, db.assignments.listeners[l.id])
  {
    CapturedListeners(db, environment, l);
  }

  lemma CapturedListenersAccepted(db: Database, g: Settings, environment: string)
    requires RowsSound(db, g)
    ensures ListenersAccepted(Capture(db, environment), g.platform) <==> AllReady(db, environment)
  {
    hide Ready, Capture, ListenerAccepted, RowsSound, InService;
    var raw := Capture(db, environment);
    CapturedPortsDistinct(db, g, environment);
    if AllReady(db, environment) {
      forall l | l in raw.listeners && InService(l) ensures ListenerAccepted(raw, l, g.platform) {
        LiveRowsAreRouted(db, environment, l);
        CapturedListenerAccepted(db, g, environment, l.id);
      }
    }
    if ListenersAccepted(raw, g.platform) {
      forall id | Routed(db, environment, id) ensures Ready(db, db.assignments.listeners[id]) {
        LiveRowsAreRouted(db, environment, RawListenerOf(id, db.assignments.listeners[id]));
        CapturedListenerAccepted(db, g, environment, id);
      }
    }
  }

  /** The port of some reserved or active listener. */
  ghost predicate PortRouted(db: Database, environment: string, port: int) {
    exists id :: Routed(db, environment, id) && db.assignments.listeners[id].port == port
  }

  ghost predicate ServesRoutedPorts(s: Snapshot, db: Database, environment: string) {
    forall p :: p in s.listeners <==> PortRouted(db, environment, p)
  }

  lemma CaptureNamesItsEnvironment(db: Database, environment: string)
    ensures Capture(db, environment).environment == environment
  {
  }

  lemma CaptureLoadable(db: Database, g: Settings, environment: string, records: seq<CredentialRecord>)
    requires RowsSound(db, g) && forall r | r in records :: CredentialOk(r)
    ensures Loadable(environment, Capture(db, environment), records, g.platform, g.allowlist) <==> AllReady(db, environment)
  {
    hide RowsSound, ListenersAccepted, AllReady, UpstreamAccepted, VersionPathOk, Absolute, Capture;
    CaptureNamesItsEnvironment(db, environment);
    forall v | v in Capture(db, environment).versions ensures v.healthPath == "" || Absolute(v.healthPath) {
      CapturedVersionsHavePaths(db, g, environment);
      VersionPathMeans(v);
    }
    CapturedVersionsHavePaths(db, g, environment);
    CapturedUpstreamsAccepted(db, g, environment);
    CapturedListenersAccepted(db, g, environment);
  }

  /** Any capture of reachable tables, validated or not, loads exactly when every reserved or active listener's version and
      service are enabled and its version has an enabled upstream; it then serves exactly those listeners' ports. */
  lemma CaptureLoadsIffReady(db: Database, g: Settings, environment: string, version: nat, credentials: Access, now: nat)
    requires RowsSound(db, g) && AccessSound(credentials)
    ensures var r := Build(version, environment, Capture(db, environment), Records(credentials, environment, now), g.platform, g.allowlist);
      && (r.Ok? <==> AllReady(db, environment))
      && (r.Ok? ==> ServesRoutedPorts(r.value, db, environment))
  {
    hide RowsSound, AccessSound, AllReady, Capture, Records, Loadable, ServesExactly, HoldsExactly, PortRouted;
    var raw, records := Capture(db, environment), Records(credentials, environment, now);
    CaptureHasUniqueRows(db, environment);
    RecordsAreSound(credentials, environment, now);
    BuildMeaning(version, environment, raw, records, g.platform, g.allowlist);
    CaptureLoadable(db, g, environment, records);
    var r := Build(version, environment, raw, records, g.platform, g.allowlist);
    if r.Ok? {
      forall p ensures p in r.value.listeners <==> PortRouted(db, environment, p) {
        ServedPorts(db, environment, r.value.listeners, g.platform, p);
      }
    }
  }

  /** Whenever the tables pass validation, a capture of them loads exactly when every reserved or active listener's version
      and service are enabled; what it then serves are exactly those listeners' ports. */
  lemma CaptureLoadsIffServiceable(db: Database, g: Settings, environment: string, version: nat, credentials: Access, now: nat)
    requires RowsSound(db, g) && TablesPublishable(db, environment) && AccessSound(credentials)
    ensures var r := Build(version, environment, Capture(db, environment), Records(credentials, environment, now), g.platform, g.allowlist);
      && (r.Ok? <==> AllServiceable(db, environment))
      && (r.Ok? ==> ServesRoutedPorts(r.value, db, environment))
  {
    hide *;
    CaptureLoadsIffReady(db, g, environment, version, credentials, now);
    ValidationLeavesTheFlags(db, environment);
  }

  lemma ServedPorts(db: Database, environment: string, listeners: map<int, Listener>, platform: Platform, p: int)
    requires ServesExactly(listeners, Capture(db, environment), platform)
    ensures p in listeners <==> PortRouted(db, environment, p)
  {
    if p in listeners {
      var l :| l in Capture(db, environment).listeners && InService(l) && l.port == p;
      LiveRowsAreRouted(db, environment, l);
    }
    if id :| Routed(db, environment, id) && db.assignments.listeners[id].port == p {
      LiveRowsAreRouted(db, environment, RawListenerOf(id, db.assignments.listeners[id]));
    }
  }

  /** Row id of stored is validated, and a replica loads it exactly when the tables of captured were serviceable,
      serving then the ports of their reserved and active listeners. */
  ghost predicate LoadsIffServiceable(
    stored: Configurations, id: nat, captured: Database, g: Settings, environment: string, credentials: Access, now: nat)
  {
    && id in stored.rows && stored.rows[id].status == Validated
    && var r := Build(id, environment, stored.rows[id].snapshot, Records(credentials, environment, now), g.platform, g.allowlist);
    && (r.Ok? <==> AllServiceable(captured, environment))
    && (r.Ok? ==> ServesRoutedPorts(r.value, captured, environment))
  }

  /** Publishing end to end: in any run, a draft created, then validated with no request in between, stores a snapshot that
      every replica (with the same allowlist, at any state of the credentials) can load if and only if each
      reserved or active listener's version and service were enabled. */
  lemma ValidatedDraftsLoadIffServiceable(
    history: seq<Database>, g: Settings, requests: seq<Request>, n: nat, later: nat, now: nat)
    requires Sane(g) && IsRun(history, g, requests) && n + 1 < |requests| && later < |history|
    requires CreatesThenValidates(history[n], g, requests[n], requests[n + 1])
    ensures LoadsIffServiceable(history[n + 2].configurations, history[n].configurations.nextId, history[n], g,
      requests[n].environment, history[later].access, now)
  {
    hide *;
    RunStarts(history, g, requests);
    RunStep(history, g, requests, n + 1);
    RunStep(history, g, requests, n + 2);
    AlwaysRowsSound(history, g, requests, n);
    AlwaysRowsSound(history, g, requests, later);
    RowsIncludeAccess(history[later], g);
    ValidatedDraftLoads(history[n], g, requests[n], requests[n + 1], history[later].access, now);
  }

  ghost predicate CreatesThenValidates(db: Database, g: Settings, create: Request, validate: Request) {
    && create.op.DoCreateConfiguration? && create.environment in db.environments
    && validate.op == DoValidateConfiguration(db.configurations.nextId) && validate.environment == create.environment
    && Apply(Next(db, g, create), g, validate.environment, validate.op, validate.now).Ok?
  }

  lemma ValidatedDraftLoads(
    db: Database, g: Settings, create: Request, validate: Request, credentials: Access, now: nat)
    requires CreatesThenValidates(db, g, create, validate) && RowsSound(db, g) && AccessSound(credentials)
    ensures LoadsIffServiceable(Next(Next(db, g, create), g, validate).configurations, db.configurations.nextId, db, g,
      create.environment, credentials, now)
  {
    hide Next, Build, Capture, Records, AllServiceable, ServesRoutedPorts, RowsSound, AccessSound;
    CreatedThenValidated(db, g, create, validate);
    CaptureLoadsIffServiceable(db, g, create.environment, db.configurations.nextId, credentials, now);
  }

  lemma RowsIncludeAccess(db: Database, g: Settings)
    requires RowsSound(db, g)
    ensures AccessSound(db.access)
  {
  }

  /** Validating straight after creating stores the capture of tables that were publishable when it was taken. */
  lemma CreatedThenValidated(db: Database, g: Settings, create: Request, validate: Request)
    requires CreatesThenValidates(db, g, create, validate)
    ensures var id, rows := db.configurations.nextId, Next(Next(db, g, create), g, validate).configurations.rows;
      id in rows && rows[id].status == Validated && rows[id].snapshot == Capture(db, create.environment)
    ensures TablesPublishable(db, create.environment)
  {
    hide Capture;
    var n := Next(db, g, create);
    forall l | l in db.assignments.listeners && db.assignments.listeners[l].environment == create.environment
      ensures ListenerPublishable(db, db.assignments.listeners[l])
    {
      assert ListenerPublishable(n, n.assignments.listeners[l]);
    }
  }

  /** One service switched off. */
  ghost predicate SwitchesOff(db: Database, n: Database, serviceId: Id) {
    && serviceId in db.catalog.services && serviceId in n.catalog.services && !n.catalog.services[serviceId].enabled
    && n == db.(catalog := db.catalog.(services := n.catalog.services))
  }

  lemma SwitchingOffASubmittedService(db: Database, environment: string, serviceId: Id)
    requires serviceId in db.catalog.services && db.catalog.services[serviceId].environment == environment
    requires db.catalog.services[serviceId].rowVersion >= 1
    ensures var s := db.catalog.services[serviceId];
      var r := UpdateService(db, environment, s.name, false, s.rowVersion);
      r.Ok? && SwitchesOff(db, r.value, serviceId)
  {
    var s := db.catalog.services[serviceId];
    assert serviceId in MatchingServices(db.catalog.services, environment, s.name, s.rowVersion);
  }

  lemma PublishabilityIgnoresServices(db: Database, n: Database, environment: string)
    requires TablesPublishable(db, environment) && n == db.(catalog := db.catalog.(services := n.catalog.services))
    ensures TablesPublishable(n, environment)
  {
    forall l | l in n.assignments.listeners && n.assignments.listeners[l].environment == environment
      ensures ListenerPublishable(n, n.assignments.listeners[l])
    {
      assert ListenerPublishable(db, db.assignments.listeners[l]);
    }
  }

  /** Validation does not imply loadability: switching off the service of a reserved or active listener keeps the tables
      publishable, and yet the configuration captured next is one no replica can load. */
  lemma SwitchingOffAServicePassesValidation(
    db: Database, g: Settings, environment: string, id: Id, serviceId: Id, version: nat, now: nat)
    requires Sane(g) && RowsSound(db, g) && TablesPublishable(db, environment) && Routed(db, environment, id)
    requires db.assignments.listeners[id].versionId in db.catalog.versions
    requires serviceId == db.catalog.versions[db.assignments.listeners[id].versionId].serviceId
    requires serviceId in db.catalog.services && db.catalog.services[serviceId].rowVersion >= 1
    ensures var s := db.catalog.services[serviceId];
      var r := UpdateService(db, environment, s.name, false, s.rowVersion);
      && r.Ok? && TablesPublishable(r.value, environment)
      && Build(version, environment, Capture(r.value, environment), Records(db.access, environment, now), g.platform, g.allowlist).Err?
  {
    hide Build, Capture, Records, TablesPublishable, CatalogSound, AccessSound, PortLifecycle.Consistent, MatchingServices;
    var s := db.catalog.services[serviceId];
    assert ListenerRowOk(db.catalog, db.access, g, db.assignments.listeners[id]);
    SwitchingOffASubmittedService(db, environment, serviceId);
    var n := UpdateService(db, environment, s.name, false, s.rowVersion).value;
    var request := Request(environment, DoUpdateService(s.name, false, s.rowVersion), now);
    assert n == Next(db, g, request);
    PublishabilityIgnoresServices(db, n, environment);
    CatalogKeeps(db, g, request);
    ListenersKeep(db, g, request);
    assert Routed(n, environment, id) && !Serviceable(n, n.assignments.listeners[id]);
    CaptureLoadsIffServiceable(n, g, environment, version, db.access, now);
  }

  // ---------------------------------------------- the active configuration

  /** Row id of state n holds the capture of state c, in which a draft was created. */
  ghost predicate CapturedAt(history: seq<Database>, requests: seq<Request>, n: nat, id: nat, c: nat)
    requires n < |history| && |history| == |requests| + 1 && id in history[n].configurations.rows
  {
    var row := history[n].configurations.rows[id];
    c < n && requests[c].op.DoCreateConfiguration? && requests[c].environment == row.environment
      && row.snapshot == Capture(history[c], row.environment)
  }

  /** A row that a request adds: a capture, or a copy of an older row's snapshot. */
  lemma NewRowsAreCapturesOrCopies(db: Database, g: Settings, r: Request, id: nat)
    requires id in Next(db, g, r).configurations.rows && id !in db.configurations.rows
    ensures var row := Next(db, g, r).configurations.rows[id];
      || (r.op.DoCreateConfiguration? && row.environment == r.environment && row.snapshot == Capture(db, r.environment))
      || (r.op.DoRollbackConfiguration? && r.op.configuration in db.configurations.rows
        && row.snapshot == db.configurations.rows[r.op.configuration].snapshot
        && row.environment == db.configurations.rows[r.op.configuration].environment)
  {
    hide Capture, UpdateService, CreateUpstream, UpdateUpstream;
    EveryRequestHasAKind(r.op);
    if CatalogRequest(r.op) { CatalogFrame(db, g, r); }
    else if AssignmentRequest(r.op) { AssignmentFrame(db, g, r); }
    else if AccessRequest(r.op) { AccessFrame(db, g, r); }
  }

  lemma KeptRowsKeepTheirCapture(history: seq<Database>, g: Settings, requests: seq<Request>, n: nat, id: nat, c: nat)
    requires IsRun(history, g, requests) && 0 < n < |history| && |history| == |requests| + 1
    requires id in history[n - 1].configurations.rows && CapturedAt(history, requests, n - 1, id, c)
    ensures id in history[n].configurations.rows && CapturedAt(history, requests, n, id, c)
  {
    hide Capture, IsRun, Next, FreshSchema;
    ConfigurationLifecycle.AlwaysForward(history, g, requests, n - 1, n);
  }

  /** Every stored snapshot of a run is the empty one of a bootstrap version or the capture of an earlier state of it. */
  lemma {:induction false} EverySnapshotWasCaptured(
    history: seq<Database>, g: Settings, requests: seq<Request>, n: nat, id: nat) returns (c: Option<nat>)
    requires IsRun(history, g, requests) && n < |history| && |history| == |requests| + 1 && id in history[n].configurations.rows
    ensures match c
      case Some(i) => CapturedAt(history, requests, n, id, i)
      case None => history[n].configurations.rows[id].snapshot == EmptySnapshot(history[n].configurations.rows[id].environment)
    decreases n
  {
    hide IsRun, Next, Capture, CapturedAt;
    RunStarts(history, g, requests);
    if n == 0 { return None; }
    var db, r := history[n - 1], requests[n - 1];
    RunStep(history, g, requests, n);
    ConfigurationLifecycle.AlwaysForward(history, g, requests, n - 1, n);
    if id in db.configurations.rows {
      c := EverySnapshotWasCaptured(history, g, requests, n - 1, id);
      if c.Some? { KeptRowsKeepTheirCapture(history, g, requests, n, id, c.value); }
    } else {
      NewRowsAreCapturesOrCopies(db, g, r, id);
      if r.op.DoCreateConfiguration? {
        FreshlyCaptured(history, requests, n, id);
        return Some(n - 1);
      }
      c := EverySnapshotWasCaptured(history, g, requests, n - 1, r.op.configuration);
      if c.Some? { CopiesShareTheCapture(history, requests, n, id, r.op.configuration, c.value); }
    }
  }

  lemma FreshlyCaptured(history: seq<Database>, requests: seq<Request>, n: nat, id: nat)
    requires 0 < n < |history| && |history| == |requests| + 1 && id in history[n].configurations.rows
    requires requests[n - 1].op.DoCreateConfiguration?
    requires history[n].configurations.rows[id].environment == requests[n - 1].environment
    requires history[n].configurations.rows[id].snapshot == Capture(history[n - 1], requests[n - 1].environment)
    ensures CapturedAt(history, requests, n, id, n - 1)
  {
  }

  lemma CopiesShareTheCapture(history: seq<Database>, requests: seq<Request>, n: nat, id: nat, source: nat, c: nat)
    requires 0 < n < |history| && |history| == |requests| + 1 && id in history[n].configurations.rows
    requires source in history[n - 1].configurations.rows && CapturedAt(history, requests, n - 1, source, c)
    requires history[n].configurations.rows[id].snapshot == history[n - 1].configurations.rows[source].snapshot
    requires history[n].configurations.rows[id].environment == history[n - 1].configurations.rows[source].environment
    ensures CapturedAt(history, requests, n, id, c)
  {
    hide Capture;
  }

  /** When the active configuration of a reachable state loads, validated or not: it is the bootstrap one, which serves
      nothing, or the tables it was captured from were ready, and then it serves the ports that were routed there. What has
      happened to the tables since does not matter. */
  lemma ActiveConfigurationLoadsIff(
    history: seq<Database>, g: Settings, requests: seq<Request>, n: nat, environment: string, now: nat) returns (c: Option<nat>)
    requires Sane(g) && IsRun(history, g, requests) && n < |history| && |history| == |requests| + 1
    requires ActiveId(history[n].configurations, environment).Some?
    ensures var id := ActiveId(history[n].configurations, environment).value;
      && id in history[n].configurations.rows
      && match c
         case Some(i) =>
           && CapturedAt(history, requests, n, id, i)
           && (LoadedSnapshot(history[n], g, environment, now).Some? <==> AllReady(history[i], environment))
           && (LoadedSnapshot(history[n], g, environment, now).Some? ==>
             ServesRoutedPorts(LoadedSnapshot(history[n], g, environment, now).value, history[i], environment))
         case None =>
           && LoadedSnapshot(history[n], g, environment, now).Some?
           && LoadedSnapshot(history[n], g, environment, now).value.listeners == map[]
  {
    hide IsRun, Capture, Build, AllReady, Records, ActiveId, ServesRoutedPorts, RowsSound, AccessSound;
    var db := history[n];
    var id := ActiveId(db.configurations, environment).value;
    ConfigurationLifecycle.ActiveIdIsCurrent(db.configurations, environment);
    AlwaysRowsSound(history, g, requests, n);
    RowsIncludeAccess(db, g);
    c := EverySnapshotWasCaptured(history, g, requests, n, id);
    match c {
      case Some(i) =>
        AlwaysRowsSound(history, g, requests, i);
        CaptureLoadsIffReady(history[i], g, environment, id, db.access, now);
      case None => EmptySnapshotsLoad(id, environment, db.access, g, now);
    }
  }

  lemma EmptySnapshotsLoad(version: nat, environment: string, credentials: Access, g: Settings, now: nat)
    requires AccessSound(credentials)
    ensures var r := Build(version, environment, EmptySnapshot(environment), Records(credentials, environment, now), g.platform, g.allowlist);
      r.Ok? && r.value.listeners == map[]
  {
    hide AccessSound, Records, CredentialsFrom, HoldsExactly;
    RecordsAreSound(credentials, environment, now);
    CredentialTable(Records(credentials, environment, now));
  }

  /** In every reachable state the ids within a stored snapshot are unique, and its listeners' ports are in the inventory. */
  lemma StoredSnapshotsAreSound(history: seq<Database>, g: Settings, requests: seq<Request>, n: nat, id: nat)
    requires IsRun(history, g, requests) && n < |history| && id in history[n].configurations.rows
    ensures RawRowsDistinct(history[n].configurations.rows[id].snapshot)
    ensures forall l | l in history[n].configurations.rows[id].snapshot.listeners ::
      (history[n].configurations.rows[id].environment, l.port) in history[n].assignments.ports
  {
    hide IsRun, Capture, CapturedAt, RawRowsDistinct;
    RunStarts(history, g, requests);
    var row := history[n].configurations.rows[id];
    var c := EverySnapshotWasCaptured(history, g, requests, n, id);
    PortLifecycle.AlwaysConsistent(history, g, requests, n);
    if c.Some? {
      CapturedAtMeans(history, requests, n, id, c.value);
      PortLifecycle.AlwaysConsistent(history, g, requests, c.value);
      CapturesAreSound(history[c.value], row.environment);
    } else {
      EmptyRowsDistinct(row.environment);
    }
  }

  lemma CapturedAtMeans(history: seq<Database>, requests: seq<Request>, n: nat, id: nat, c: nat)
    requires n < |history| && |history| == |requests| + 1 && id in history[n].configurations.rows && CapturedAt(history, requests, n, id, c)
    ensures c < n && history[n].configurations.rows[id].snapshot == Capture(history[c], history[n].configurations.rows[id].environment)
  {
    hide Capture;
  }

  ghost predicate RawRowsDistinct(raw: RawSnapshot) { UniqueRows(raw, []) }

  lemma EmptyRowsDistinct(environment: string)
    ensures RawRowsDistinct(EmptySnapshot(environment))
  {
  }

  lemma CapturesAreSound(db: Database, environment: string)
    requires PortLifecycle.Consistent(db.assignments)
    ensures RawRowsDistinct(Capture(db, environment))
    ensures forall l | l in Capture(db, environment).listeners :: (environment, l.port) in db.assignments.ports
  {
    hide Capture;
    CaptureHasUniqueRows(db, environment);
    forall l | l in Capture(db, environment).listeners ensures (environment, l.port) in db.assignments.ports {
      CapturedListeners(db, environment, l);
      assert PortLifecycle.ListenerConsistent(db.assignments, l.id);
    }
  }
}
