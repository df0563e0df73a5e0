/** Row versions: of all the updates of a run that expect the same version of a
    row at most one succeeds. */
module OptimisticLocking {
  import opened Prelude
  import opened Tables
  import opened ControlPlane
  import opened Frames
  import PortLifecycle

  /** Rows stay and their versions never fall. */
  ghost predicate VersionsGrow(a: Catalog, b: Catalog) {
    && (forall v | v in a.versions :: v in b.versions && a.versions[v].rowVersion <= b.versions[v].rowVersion)
    && (forall u | u in a.upstreams :: u in b.upstreams && a.upstreams[u].rowVersion <= b.upstreams[u].rowVersion)
  }

  lemma VersionRequestsGrow(db: Database, g: Settings, r: Request)
    requires r.op.DoCreateServiceVersion? || r.op.DoUpdateServiceVersion?
    ensures VersionsGrow(db.catalog, Next(db, g, r).catalog)
  {
    hide LabelTaken, VersionFieldsOk, FirstOf, VersionIn;
  }

  lemma UpstreamRequestsGrow(db: Database, g: Settings, r: Request)
    requires r.op.DoCreateUpstream? || r.op.DoUpdateUpstream?
    ensures VersionsGrow(db.catalog, Next(db, g, r).catalog)
  {
    hide EndpointTaken, UpstreamFieldsOk;
  }

  lemma EveryRequestGrows(db: Database, g: Settings, r: Request)
    ensures VersionsGrow(db.catalog, Next(db, g, r).catalog)
  {
    EveryRequestHasAKind(r.op);
    if r.op.DoCreateService? || r.op.DoUpdateService? {
      hide ServiceNameTaken, MatchingServices;
    } else if r.op.DoCreateServiceVersion? || r.op.DoUpdateServiceVersion? {
      VersionRequestsGrow(db, g, r);
    } else if r.op.DoCreateUpstream? || r.op.DoUpdateUpstream? {
      UpstreamRequestsGrow(db, g, r);
    } else if AssignmentRequest(r.op) {
      hide Next;
      AssignmentFrame(db, g, r);
    } else if AccessRequest(r.op) {
      hide Next;
      AccessFrame(db, g, r);
    } else {
      hide Next;
      ConfigurationFrame(db, g, r);
    }
  }

  lemma {:induction false} VersionsGrowOverRuns(history: seq<Database>, g: Settings, requests: seq<Request>, m: nat, n: nat)
    requires IsRun(history, g, requests) && m <= n < |history|
    ensures VersionsGrow(history[m].catalog, history[n].catalog)
    decreases n - m
  {
    hide Next, FreshSchema, IsRun;
    if m < n {
      RunStep(history, g, requests, n);
      VersionsGrowOverRuns(history, g, requests, m, n - 1);
      EveryRequestGrows(history[n - 1], g, requests[n - 1]);
    }
  }

  /** The row an update names, and the version it expects. */
  function Target(op: Operation): Option<(Id, int)> {
    match op
    case DoUpdateServiceVersion(id, _, _, _, _, _, expected) => Some((id, expected))
    case DoUpdateUpstream(id, _, _, _, _, _, _, expected) => Some((id, expected))
    case _ => None
  }

  function StoredVersion(c: Catalog, op: Operation): nat {
    if op.DoUpdateServiceVersion? && op.id in c.versions then c.versions[op.id].rowVersion
    else if op.DoUpdateUpstream? && op.id in c.upstreams then c.upstreams[op.id].rowVersion
    else 0
  }

  /** An update succeeds only on the version it expects and leaves a higher one. */
  lemma UpdatesRaiseTheVersion(db: Database, g: Settings, r: Request)
    requires Target(r.op).Some? && Apply(db, g, r.environment, r.op, r.now).Ok?
    ensures StoredVersion(db.catalog, r.op) == Target(r.op).value.1 > 0
    ensures StoredVersion(Next(db, g, r).catalog, r.op) == Target(r.op).value.1 + 1
  {
    hide LabelTaken, EndpointTaken, VersionFieldsOk, UpstreamFieldsOk;
  }

  /** No update is lost: once an update of a service version or an upstream has succeeded, every later one in the run that
      expects the version it replaced fails. */
  lemma NoUpdateIsLost(history: seq<Database>, g: Settings, requests: seq<Request>, i: nat, j: nat)
    requires IsRun(history, g, requests) && i < j < |requests|
    requires Target(requests[i].op).Some? && Target(requests[j].op) == Target(requests[i].op)
    requires requests[i].op.DoUpdateUpstream? <==> requests[j].op.DoUpdateUpstream?
    requires Apply(history[i], g, requests[i].environment, requests[i].op, requests[i].now).Ok?
    ensures Apply(history[j], g, requests[j].environment, requests[j].op, requests[j].now).Err?
  {
    hide Next, Apply, FreshSchema;
    RunStep(history, g, requests, i + 1);
    UpdatesRaiseTheVersion(history[i], g, requests[i]);
    VersionsGrowOverRuns(history, g, requests, i + 1, j);
    if Apply(history[j], g, requests[j].environment, requests[j].op, requests[j].now).Ok? {
      UpdatesRaiseTheVersion(history[j], g, requests[j]);
    }
  }

  // ---------------------------------------------------------------- services

  /** Service names are unique within an environment, as the table's UNIQUE constraint says. */
  ghost predicate ServicesUnique(c: Catalog) {
    forall s, t | s in c.services && t in c.services && c.services[s].environment == c.services[t].environment
      && c.services[s].name == c.services[t].name :: s == t
  }

  /** Services stay, keep their names, and their versions never fall. */
  ghost predicate ServicesGrow(a: Catalog, b: Catalog) {
    forall s | s in a.services ::
      && s in b.services && b.services[s].environment == a.services[s].environment && b.services[s].name == a.services[s].name
      && a.services[s].rowVersion <= b.services[s].rowVersion
  }

  lemma EveryRequestGrowsServices(db: Database, g: Settings, r: Request)
    requires ServicesUnique(db.catalog)
    ensures ServicesUnique(Next(db, g, r).catalog) && ServicesGrow(db.catalog, Next(db, g, r).catalog)
  {
    EveryRequestHasAKind(r.op);
    if r.op.DoCreateService? {
      CreationGrowsServices(db, g, r);
    } else if r.op.DoUpdateService? {
      UpdateGrowsServices(db, g, r);
    } else if CatalogRequest(r.op) {
      OtherCatalogRequestsLeaveServices(db, g, r);
    } else if AssignmentRequest(r.op) {
      hide Next;
      AssignmentFrame(db, g, r);
    } else if AccessRequest(r.op) {
      hide Next;
      AccessFrame(db, g, r);
    } else {
      hide Next;
      ConfigurationFrame(db, g, r);
    }
  }

  lemma CreationGrowsServices(db: Database, g: Settings, r: Request)
    requires ServicesUnique(db.catalog) && r.op.DoCreateService?
    ensures ServicesUnique(Next(db, g, r).catalog) && ServicesGrow(db.catalog, Next(db, g, r).catalog)
  {
  }

  lemma UpdateGrowsServices(db: Database, g: Settings, r: Request)
    requires ServicesUnique(db.catalog) && r.op.DoUpdateService?
    ensures ServicesUnique(Next(db, g, r).catalog) && ServicesGrow(db.catalog, Next(db, g, r).catalog)
  {
  }

  lemma OtherCatalogRequestsLeaveServices(db: Database, g: Settings, r: Request)
    requires CatalogRequest(r.op) && !r.op.DoCreateService? && !r.op.DoUpdateService?
    ensures Next(db, g, r).catalog.services == db.catalog.services
  {
    hide LabelTaken, VersionFieldsOk, FirstOf, VersionIn, EndpointTaken, UpstreamFieldsOk;
  }

  lemma {:induction false} ServicesGrowOverRuns(history: seq<Database>, g: Settings, requests: seq<Request>, m: nat, n: nat)
    requires IsRun(history, g, requests) && m <= n < |history|
    ensures ServicesUnique(history[m].catalog) && ServicesUnique(history[n].catalog)
    ensures ServicesGrow(history[m].catalog, history[n].catalog)
    decreases n
  {
    hide Next, IsRun, FreshSchema;
    if m < n {
      RunStep(history, g, requests, n);
      ServicesGrowOverRuns(history, g, requests, m, n - 1);
      EveryRequestGrowsServices(history[n - 1], g, requests[n - 1]);
    } else if n > 0 {
      RunStep(history, g, requests, n);
      ServicesGrowOverRuns(history, g, requests, n - 1, n - 1);
      EveryRequestGrowsServices(history[n - 1], g, requests[n - 1]);
    } else {
      RunStarts(history, g, requests);
      NoServicesAtFirst(history[0]);
    }
  }

  lemma NoServicesAtFirst(db: Database)
    requires FreshSchema(db)
    ensures ServicesUnique(db.catalog)
  {
  }

  /** An update of a service hits one row, the one with its name, at the version it expects, and leaves a higher one. */
  lemma ServiceUpdatesRaiseTheVersion(db: Database, g: Settings, r: Request) returns (s: Id)
    requires r.op.DoUpdateService? && Apply(db, g, r.environment, r.op, r.now).Ok?
    ensures s in db.catalog.services && db.catalog.services[s].environment == r.environment && db.catalog.services[s].name == r.op.name
    ensures db.catalog.services[s].rowVersion == r.op.expected
    ensures var after := Next(db, g, r).catalog.services;
      && s in after && after[s].environment == r.environment && after[s].name == r.op.name
      && after[s].rowVersion == r.op.expected + 1
  {
    var hits := MatchingServices(db.catalog.services, r.environment, r.op.name, r.op.expected);
    s :| s in hits;
  }

  /** Nor is an update of a service lost, though services are matched by name: names are unique and never change. */
  lemma NoServiceUpdateIsLost(history: seq<Database>, g: Settings, requests: seq<Request>, i: nat, j: nat)
    requires IsRun(history, g, requests) && i < j < |requests|
    requires requests[i].op.DoUpdateService? && requests[j].op.DoUpdateService? && requests[j].environment == requests[i].environment
    requires requests[j].op.name == requests[i].op.name && requests[j].op.expected == requests[i].op.expected
    requires Apply(history[i], g, requests[i].environment, requests[i].op, requests[i].now).Ok?
    ensures Apply(history[j], g, requests[j].environment, requests[j].op, requests[j].now).Err?
  {
    hide Next, Apply, FreshSchema;
    RunStep(history, g, requests, i + 1);
    var s := ServiceUpdatesRaiseTheVersion(history[i], g, requests[i]);
    ServicesGrowOverRuns(history, g, requests, i + 1, j);
    if Apply(history[j], g, requests[j].environment, requests[j].op, requests[j].now).Ok? {
      var t := ServiceUpdatesRaiseTheVersion(history[j], g, requests[j]);
    }
  }

  // --------------------------------------------------------------- consumers

  /** While a consumer exists its version never falls. */
  ghost predicate ConsumerVersionsGrow(x: Access, y: Access) {
    forall c | c in x.consumers && c in y.consumers :: x.consumers[c].rowVersion <= y.consumers[c].rowVersion
  }

  lemma EveryRequestGrowsConsumers(db: Database, g: Settings, r: Request)
    ensures ConsumerVersionsGrow(db.access, Next(db, g, r).access)
  {
    hide PrefixTaken, PermissionInUse, PermissionExists;
    EveryRequestHasAKind(r.op);
    if CatalogRequest(r.op) {
      hide Next;
      CatalogFrame(db, g, r);
    } else if AssignmentRequest(r.op) {
      hide Next;
      AssignmentFrame(db, g, r);
    } else if ConfigurationRequest(r.op) {
      hide Next;
      ConfigurationFrame(db, g, r);
    }
  }

  /** The consumer is there in every state from m to n. */
  ghost predicate ConsumerRemains(history: seq<Database>, m: nat, n: nat, id: Id)
    requires m <= n < |history|
  {
    forall i | m <= i <= n :: id in history[i].access.consumers
  }

  lemma {:induction false} ConsumerVersionsGrowOverRuns(
    history: seq<Database>, g: Settings, requests: seq<Request>, m: nat, n: nat, id: Id)
    requires IsRun(history, g, requests) && m <= n < |history| && ConsumerRemains(history, m, n, id)
    ensures history[m].access.consumers[id].rowVersion <= history[n].access.consumers[id].rowVersion
    decreases n - m
  {
    hide Next, FreshSchema, IsRun;
    if m < n {
      RunStep(history, g, requests, n);
      ConsumerVersionsGrowOverRuns(history, g, requests, m, n - 1, id);
      EveryRequestGrowsConsumers(history[n - 1], g, requests[n - 1]);
    }
  }

  lemma ConsumerUpdatesRaiseTheVersion(db: Database, g: Settings, r: Request)
    requires r.op.DoUpdateConsumer? && Apply(db, g, r.environment, r.op, r.now).Ok?
    ensures var id, a, b := r.op.id, db.access.consumers, Next(db, g, r).access.consumers;
      && id in a && a[id].rowVersion == r.op.expected
      && id in b && b[id].rowVersion == a[id].rowVersion + 1
  {
    hide PermissionExists;
  }

  /** Nor one of a consumer, as long as the consumer is not deleted in between. */
  lemma NoConsumerUpdateIsLost(history: seq<Database>, g: Settings, requests: seq<Request>, i: nat, j: nat)
    requires IsRun(history, g, requests) && i < j < |requests|
    requires requests[i].op.DoUpdateConsumer? && requests[j].op.DoUpdateConsumer?
    requires requests[j].op.id == requests[i].op.id && requests[j].op.expected == requests[i].op.expected
    requires Apply(history[i], g, requests[i].environment, requests[i].op, requests[i].now).Ok?
    requires ConsumerRemains(history, i + 1, j, requests[i].op.id)
    ensures Apply(history[j], g, requests[j].environment, requests[j].op, requests[j].now).Err?
  {
    hide Next, Apply, FreshSchema;
    RunStep(history, g, requests, i + 1);
    ConsumerUpdatesRaiseTheVersion(history[i], g, requests[i]);
    ConsumerVersionsGrowOverRuns(history, g, requests, i + 1, j, requests[i].op.id);
    if Apply(history[j], g, requests[j].environment, requests[j].op, requests[j].now).Ok? {
      ConsumerUpdatesRaiseTheVersion(history[j], g, requests[j]);
    }
  }

  // --------------------------------------------------------------- listeners

  /** While a listener exists its version never falls. */
  ghost predicate ListenerVersionsGrow(a: Assignments, b: Assignments) {
    forall l | l in a.listeners && l in b.listeners :: a.listeners[l].rowVersion <= b.listeners[l].rowVersion
  }

  lemma EveryRequestGrowsListeners(db: Database, g: Settings, r: Request)
    ensures ListenerVersionsGrow(db.assignments, Next(db, g, r).assignments)
  {
    hide Capture, EnabledVersions, PortOccupied, PolicyInRange, NormalizeMethods, FirstOf, Lowest, AvailablePorts, Supersede, Approvers;
    EveryRequestHasAKind(r.op);
    if CatalogRequest(r.op) {
      hide Next;
      CatalogFrame(db, g, r);
    } else if AccessRequest(r.op) {
      hide Next;
      AccessFrame(db, g, r);
    } else if ConfigurationRequest(r.op) {
      ConfigurationFrame(db, g, r);
    }
  }

  /** The listener is there in every state from m to n. */
  ghost predicate Remains(history: seq<Database>, m: nat, n: nat, id: Id)
    requires m <= n < |history|
  {
    forall i | m <= i <= n :: id in history[i].assignments.listeners
  }

  lemma {:induction false} ListenerVersionsGrowOverRuns(
    history: seq<Database>, g: Settings, requests: seq<Request>, m: nat, n: nat, id: Id)
    requires IsRun(history, g, requests) && m <= n < |history| && Remains(history, m, n, id)
    ensures history[m].assignments.listeners[id].rowVersion <= history[n].assignments.listeners[id].rowVersion
    decreases n - m
  {
    hide Next, FreshSchema, IsRun;
    if m < n {
      RunStep(history, g, requests, n);
      ListenerVersionsGrowOverRuns(history, g, requests, m, n - 1, id);
      EveryRequestGrowsListeners(history[n - 1], g, requests[n - 1]);
    }
  }

  /** The listener and version a listener update names. */
  function ListenerTarget(op: Operation): Option<(Id, int)> {
    match op
    case DoUpdateListener(id, _, expected) => Some((id, expected))
    case DoUpdateListenerPolicies(id, _, _, expected) => Some((id, expected))
    case _ => None
  }

  lemma ListenerUpdatesRaiseTheVersion(db: Database, g: Settings, r: Request)
    requires ListenerTarget(r.op).Some? && Apply(db, g, r.environment, r.op, r.now).Ok?
    ensures var id, a, b := r.op.id, db.assignments.listeners, Next(db, g, r).assignments.listeners;
      && id in a && a[id].rowVersion == ListenerTarget(r.op).value.1
      && id in b && b[id].rowVersion == a[id].rowVersion + 1
  {
    hide PortOccupied, PolicyInRange;
  }

  /** No listener update is lost either: as long as the listener is not deleted in between, a status or policy update that
      expects a version some other update has replaced fails. */
  lemma NoListenerUpdateIsLost(history: seq<Database>, g: Settings, requests: seq<Request>, i: nat, j: nat)
    requires IsRun(history, g, requests) && i < j < |requests|
    requires ListenerTarget(requests[i].op).Some? && ListenerTarget(requests[j].op) == ListenerTarget(requests[i].op)
    requires Apply(history[i], g, requests[i].environment, requests[i].op, requests[i].now).Ok?
    requires Remains(history, i + 1, j, requests[i].op.id)
    ensures Apply(history[j], g, requests[j].environment, requests[j].op, requests[j].now).Err?
  {
    hide Next, Apply, FreshSchema;
    RunStep(history, g, requests, i + 1);
    ListenerUpdatesRaiseTheVersion(history[i], g, requests[i]);
    ListenerVersionsGrowOverRuns(history, g, requests, i + 1, j, requests[i].op.id);
    if Apply(history[j], g, requests[j].environment, requests[j].op, requests[j].now).Ok? {
      ListenerUpdatesRaiseTheVersion(history[j], g, requests[j]);
    }
  }

  /** Activation is not versioned: it turns a reserved listener active without raising its version, so an update prepared
      before the activation still succeeds after it and takes the listener out of the state the activation gave it. */
  lemma ActivationKeepsRowVersions(
    db: Database, g: Settings, environment: string, version: nat, expectedActive: Option<nat>, id: Id, status: ListenerStatus)
    requires PortLifecycle.Consistent(db.assignments) && ActivateConfiguration(db, g, environment, version, expectedActive).Ok?
    requires id in db.assignments.listeners && db.assignments.listeners[id].environment == environment
    requires db.assignments.listeners[id].status == ListenerStatus.Reserved && db.assignments.listeners[id].rowVersion >= 1
    ensures var seen := db.assignments.listeners[id].rowVersion;
      var live := ActivateConfiguration(db, g, environment, version, expectedActive).value;
      && live.assignments.listeners[id].status == ListenerStatus.Active
      && live.assignments.listeners[id].rowVersion == seen
      && UpdateListener(live, environment, id, status, seen).Ok?
  {
    hide PortLifecycle.Consistent, Supersede, PortOccupied, ActiveId, Approvers;
    PortLifecycle.GoingLiveKeeps(db.assignments, environment, version);
    var live := ActivateConfiguration(db, g, environment, version, expectedActive).value;
    PortLifecycle.DatabaseNeverObjects(live, environment);
  }

  /** Step by step: whichever of the two listener updates comes first, the other is refused. */
  lemma StaleListenerUpdatesFail(
    db: Database, g: Settings, environment: string, id: Id, status: ListenerStatus, next: ListenerStatus, policy: Policy,
    regex: string, expected: int)
    ensures var r := UpdateListener(db, environment, id, status, expected);
      r.Ok? ==> UpdateListener(r.value, environment, id, next, expected) == Err(NotFound)
    ensures var r := UpdateListener(db, environment, id, status, expected);
      r.Ok? ==> UpdateListenerPolicies(r.value, g, environment, id, policy, regex, expected).Err?
    ensures var r := UpdateListenerPolicies(db, g, environment, id, policy, regex, expected);
      r.Ok? ==> UpdateListener(r.value, environment, id, next, expected) == Err(NotFound)
  {
    hide PortOccupied, PolicyInRange;
  }
}
