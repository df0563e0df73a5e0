/** Which requests succeed, in terms of what the administrator asked and what
    the tables hold. */
module Answers {
  import opened Prelude
  import opened Tables
  import opened SnapshotCompiler
  import opened SnapshotMeaning
  import opened ControlPlane
  import opened Frames
  import opened PortLifecycle
  import opened TableRules
  import opened LastWrites
  import opened StoreEffects
  import Configs = ConfigurationLifecycle
  import OptimisticLocking

  // ------------------------------------------------------------ the catalog

  ghost predicate OneLinePath(path: string) {
    Absolute(path) && |path| <= 256 && forall c | c in path :: c != '\r' && c != '\n'
  }

  ghost predicate Named(c: Catalog, environment: string, name: string, s: Id) {
    s in c.services && c.services[s].environment == environment && c.services[s].name == name
  }

  ghost predicate VersionFields(g: Settings, version: string, healthPath: string, timeoutMs: int, maxBytes: int) {
    g.versionLabel(version) && OneLinePath(healthPath) && 1 <= timeoutMs <= 300000 && 1 <= maxBytes <= 1024 * 1024 * 1024
  }

  ghost predicate UpstreamFields(g: Settings, scheme: string, address: string, port: int, weight: int, healthPath: string) {
    && (scheme == "http" || scheme == "https") && g.platform.parseAddress(address).Some?
    && (exists i :: 0 <= i < |g.allowlist| && g.allowlist[i](g.platform.parseAddress(address).value))
    && 1 <= port <= 65535 && 1 <= weight <= 10000 && (healthPath == "" || OneLinePath(healthPath))
  }

  /** The version belongs to a service of the environment. */
  ghost predicate VersionOf(c: Catalog, environment: string, v: Id) {
    && v in c.versions && c.versions[v].serviceId in c.services
    && c.services[c.versions[v].serviceId].environment == environment
  }

  ghost predicate SameEndpoint(u: UpstreamRow, versionId: Id, scheme: string, address: string, port: int) {
    u.versionId == versionId && u.scheme == scheme && u.address == address && u.port == port
  }

  /** The service of that name has no version with that label yet. */
  ghost predicate NamesNew(c: Catalog, environment: string, service: string, version: string, s: Id) {
    Named(c, environment, service, s) && forall v | v in c.versions && c.versions[v].serviceId == s :: c.versions[v].version != version
  }

  ghost predicate CatalogAccepts(db: Database, g: Settings, r: Request)
    requires CatalogRequest(r.op)
  {
    var c, e := db.catalog, r.environment;
    match r.op
    case DoCreateService(id, name) =>
      g.serviceName(name) && e in db.environments && id !in c.services && forall s :: !Named(c, e, name, s)
    case DoUpdateService(name, _, expected) =>
      expected >= 1 && exists s :: Named(c, e, name, s) && c.services[s].rowVersion == expected
    case DoCreateServiceVersion(id, service, version, healthPath, timeoutMs, maxBytes) =>
      && VersionFields(g, version, healthPath, timeoutMs, maxBytes) && id !in c.versions
      && exists s :: NamesNew(c, e, service, version, s)
    case DoUpdateServiceVersion(id, version, healthPath, timeoutMs, maxBytes, _, expected) =>
      && VersionFields(g, version, healthPath, timeoutMs, maxBytes)
      && expected >= 1 && VersionOf(c, e, id) && c.versions[id].rowVersion == expected
      && forall v | v in c.versions && v != id && c.versions[v].serviceId == c.versions[id].serviceId :: c.versions[v].version != version
    case DoCreateUpstream(id, versionId, scheme, address, port, weight, healthPath) =>
      && UpstreamFields(g, scheme, address, port, weight, healthPath) && g.unicast(address)
      && VersionOf(c, e, versionId) && id !in c.upstreams
      && forall u | u in c.upstreams :: !SameEndpoint(c.upstreams[u], versionId, scheme, g.platform.parseAddress(address).value, port)
    case DoUpdateUpstream(id, scheme, address, port, weight, healthPath, _, expected) =>
      && UpstreamFields(g, scheme, address, port, weight, healthPath) && expected >= 1
      && id in c.upstreams && VersionOf(c, e, c.upstreams[id].versionId) && c.upstreams[id].rowVersion == expected
      && forall u | u in c.upstreams && u != id ::
        !SameEndpoint(c.upstreams[u], c.upstreams[id].versionId, scheme, g.platform.parseAddress(address).value, port)
  }

  lemma OneLinePaths(path: string)
    ensures OneLinePath(path) <==> ValidPath(path)
  {
    AbsoluteMeans(path);
  }

  lemma ServiceAnswers(db: Database, g: Settings, r: Request)
    requires r.op.DoCreateService? || r.op.DoUpdateService?
    ensures Succeeds(db, g, r) <==> CatalogAccepts(db, g, r)
  {
    if r.op.DoUpdateService? {
      var hits := MatchingServices(db.catalog.services, r.environment, r.op.name, r.op.expected);
      if s :| Named(db.catalog, r.environment, r.op.name, s) && db.catalog.services[s].rowVersion == r.op.expected {
        assert s in hits;
      }
      if hits != {} {
        var s :| s in hits;
        assert Named(db.catalog, r.environment, r.op.name, s);
      }
    } else {
      if s :| Named(db.catalog, r.environment, r.op.name, s) { assert ServiceNameTaken(db.catalog, r.environment, r.op.name); }
      if s :| s in db.catalog.services && db.catalog.services[s].environment == r.environment && db.catalog.services[s].name == r.op.name {
        assert Named(db.catalog, r.environment, r.op.name, s);
      }
    }
  }

  lemma VersionAnswers(db: Database, g: Settings, r: Request)
    requires OptimisticLocking.ServicesUnique(db.catalog) && (r.op.DoCreateServiceVersion? || r.op.DoUpdateServiceVersion?)
    ensures Succeeds(db, g, r) <==> CatalogAccepts(db, g, r)
  {
    hide ValidPath, OneLinePath;
    OneLinePaths(r.op.healthPath);
    if r.op.DoCreateServiceVersion? {
      hide FirstOf;
      var c := db.catalog;
      var owners := set s | s in c.services && c.services[s].environment == r.environment && c.services[s].name == r.op.service;
      forall s ensures s in owners <==> Named(c, r.environment, r.op.service, s) {}
      if owners != {} {
        var owner := FirstOf(owners);
        assert Named(c, r.environment, r.op.service, owner);
        forall s | NamesNew(c, r.environment, r.op.service, r.op.version, s) ensures s == owner { assert s in owners; }
        assert LabelTaken(c, {}, owner, r.op.version) <==> !NamesNew(c, r.environment, r.op.service, r.op.version, owner);
      } else if s :| NamesNew(c, r.environment, r.op.service, r.op.version, s) {
        assert s in owners;
      }
    }
  }

  lemma UpstreamAnswers(db: Database, g: Settings, r: Request)
    requires r.op.DoCreateUpstream? || r.op.DoUpdateUpstream?
    ensures Succeeds(db, g, r) <==> CatalogAccepts(db, g, r)
  {
    hide ValidPath, OneLinePath;
    OneLinePaths(r.op.healthPath);
  }

  // ---------------------------------------------------- ports and listeners

  ghost predicate AssignmentAccepts(db: Database, g: Settings, r: Request)
    requires AssignmentRequest(r.op)
  {
    var a, e := db.assignments, r.environment;
    match r.op
    case DoUpdatePortStatus(port, status) => MayBecome(a, (e, port), status)
    case DoAllocateListener(id, input) => Admissible(db, g, e, id, input) && PortToBeHad(a, e, input)
    case DoUpdateListener(id, _, expected) => NamesListener(a, e, id, expected)
    case DoUpdateListenerPolicies(id, policy, regex, expected) =>
      && NamesListener(a, e, id, expected) && RegexAccepted(regex, g.platform)
      && 0 <= policy.rate <= 1000000 && 0 <= policy.burst <= 1000000 && 0 <= policy.quota <= 100000000
      && 0 <= policy.threshold <= 1000 && 1000 <= policy.openMs <= 3600000
  }

  lemma AssignmentAnswers(db: Database, g: Settings, r: Request)
    requires Consistent(db.assignments) && AssignmentRequest(r.op)
    ensures Succeeds(db, g, r) <==> AssignmentAccepts(db, g, r)
  {
    hide Consistent, RegexOk, RegexAccepted, AllocateListener, UpdateListener, UpdatePortStatus, Admissible, PortToBeHad, TakesLowest,
      ListenerChanged, MayBecome, RefusedWith;
    match r.op
    case DoUpdatePortStatus(port, status) => PortAnswers(db, r.environment, port, status);
    case DoAllocateListener(id, input) => AllocationMeans(db, g, r.environment, id, input);
    case DoUpdateListener(id, status, expected) => ListenerUpdateMeans(db, r.environment, id, status, expected);
    case DoUpdateListenerPolicies(_, _, regex, _) => RegexMeans(regex, g.platform);
  }

  // -------------------------------------------------------- access requests

  /** The permission names are well formed and exist. */
  ghost predicate Assignable(x: Access, g: Settings, names: seq<string>) {
    forall n | n in names :: g.permissionName(n) && exists p :: p in x.permissions && x.permissions[p] == n
  }

  ghost predicate ConsumerOf(x: Access, environment: string, c: Id) { c in x.consumers && x.consumers[c].environment == environment }

  ghost predicate AccessAccepts(db: Database, g: Settings, r: Request)
    requires AccessRequest(r.op)
  {
    var x, e := db.access, r.environment;
    match r.op
    case DoCreatePermission(id, name) =>
      g.permissionName(name) && e in db.environments && id !in x.permissions && forall p | p in x.permissions :: x.permissions[p] != name
    case DoDeletePermission(id) =>
      && e in db.environments && id in x.permissions && (forall c :: (c, id) !in x.grants)
      && forall l | l in db.assignments.listeners :: db.assignments.listeners[l].permission != x.permissions[id]
    case DoCreateConsumer(id, name, permissions) =>
      && g.serviceName(name) && e in db.environments && id !in x.consumers && Assignable(x, g, permissions)
      && forall c | ConsumerOf(x, e, c) :: x.consumers[c].name != name
    case DoUpdateConsumer(id, _, permissions, expected) =>
      expected >= 1 && ConsumerOf(x, e, id) && x.consumers[id].rowVersion == expected && Assignable(x, g, permissions)
    case DoDeleteConsumer(id) => ConsumerOf(x, e, id) && forall k | k in x.keys :: x.keys[k].consumer != id
    case DoIssueKey(id, consumer, secret, name, permissions, expiresAt) =>
      && name != "" && (expiresAt.Some? ==> r.now < expiresAt.value) && Assignable(x, g, permissions)
      && ConsumerOf(x, e, consumer) && x.consumers[consumer].enabled
      && id !in x.keys && forall k | k in x.keys :: x.keys[k].prefix != secret[..12]
    case DoRotateKey(id, newId, secret) =>
      && id in x.keys && ConsumerOf(x, e, x.keys[id].consumer) && x.keys[id].revokedAt == None
      && newId !in x.keys && forall k | k in x.keys :: x.keys[k].prefix != secret[..12]
    case DoRevokeKey(id) => id in x.keys && ConsumerOf(x, e, x.keys[id].consumer) && x.keys[id].revokedAt == None
  }

  lemma NamesAssignable(x: Access, g: Settings, c: Id, names: seq<string>)
    requires c in x.consumers
    ensures AssignPermissions(x, g, c, names).Ok? <==> Assignable(x, g, names)
  {
    forall n | n in names ensures PermissionExists(x, n) <==> exists p :: p in x.permissions && x.permissions[p] == n {}
  }

  /** The names are judged by the permissions alone, once the consumer exists. */
  lemma SamePermissionsAssignable(x: Access, y: Access, g: Settings, names: seq<string>)
    requires y.permissions == x.permissions
    ensures Assignable(y, g, names) <==> Assignable(x, g, names)
  {
  }

  lemma PermissionAnswers(db: Database, g: Settings, r: Request)
    requires r.op.DoCreatePermission? || r.op.DoDeletePermission?
    ensures Succeeds(db, g, r) <==> AccessAccepts(db, g, r)
  {
    if r.op.DoDeletePermission? {
      assert (exists q | q in db.access.grants :: q.1 == r.op.id) <==> exists c :: (c, r.op.id) in db.access.grants by {
        if q :| q in db.access.grants && q.1 == r.op.id { assert (q.0, r.op.id) in db.access.grants; }
        if c :| (c, r.op.id) in db.access.grants { assert (c, r.op.id).1 == r.op.id; }
      }
    }
  }

  lemma ConsumerAnswers(db: Database, g: Settings, r: Request)
    requires r.op.DoCreateConsumer? || r.op.DoUpdateConsumer? || r.op.DoDeleteConsumer?
    ensures Succeeds(db, g, r) <==> AccessAccepts(db, g, r)
  {
    hide AssignPermissions, Assignable;
    var x := db.access;
    match r.op
    case DoCreateConsumer(id, name, permissions) =>
      var y := x.(consumers := x.consumers[id := ConsumerRow(r.environment, name, true, 1, r.now)]);
      NamesAssignable(y, g, id, permissions);
      SamePermissionsAssignable(x, y, g, permissions);
    case DoUpdateConsumer(id, enabled, permissions, expected) =>
      if ConsumerOf(x, r.environment, id) {
        var row := x.consumers[id].(enabled := enabled, rowVersion := x.consumers[id].rowVersion + 1, updatedAt := r.now);
        var y := x.(consumers := x.consumers[id := row], grants := GrantsExcept(x.grants, id));
        NamesAssignable(y, g, id, permissions);
        SamePermissionsAssignable(x, y, g, permissions);
      }
    case DoDeleteConsumer(_) =>
  }

  lemma KeyAnswers(db: Database, g: Settings, r: Request)
    requires r.op.DoIssueKey? || r.op.DoRotateKey? || r.op.DoRevokeKey?
    ensures Succeeds(db, g, r) <==> AccessAccepts(db, g, r)
  {
    hide Assignable, RawKey;
    if r.op.DoIssueKey? {
      if r.op.consumer in db.access.consumers { NamesAssignable(db.access, g, r.op.consumer, r.op.permissions); }
    }
  }

  // --------------------------------------------------------- configurations

  /** Its permission exists and its version has an enabled upstream: all that validation looks at. */
  ghost predicate Publishable(db: Database, l: ListenerRow) {
    && (exists p :: p in db.access.permissions && db.access.permissions[p] == l.permission)
    && (exists u :: u in db.catalog.upstreams && db.catalog.upstreams[u].versionId == l.versionId && db.catalog.upstreams[u].enabled)
  }

  ghost predicate ConfigurationAccepts(db: Database, g: Settings, r: Request)
    requires ConfigurationRequest(r.op)
  {
    var k, e := db.configurations, r.environment;
    match r.op
    case DoCreateConfiguration(_) => e in db.environments
    case DoValidateConfiguration(id) =>
      && id in k.rows && k.rows[id].environment == e && k.rows[id].status == Draft
      && forall l | l in db.assignments.listeners && db.assignments.listeners[l].environment == e ::
        Publishable(db, db.assignments.listeners[l])
    case DoApproveConfiguration(id, actor) =>
      && 1 <= |actor| <= 128 && id in k.rows && k.rows[id].environment == e && k.rows[id].status == Validated
      && k.rows[id].createdBy != actor && (id, actor) !in k.approvals
    case DoActivateConfiguration(id, expected) => MayActivate(db, g.requiredApprovals, e, id, expected)
    case DoRollbackConfiguration(source, _) => MayReturnTo(db, e, source)
    case SkipVersionIds(_) => true
  }

  lemma ConfigurationAnswers(db: Database, g: Settings, boot: set<nat>, r: Request)
    requires Configs.Sound(db.configurations, db.environments, g.requiredApprovals, boot) && ConfigurationRequest(r.op)
    ensures Succeeds(db, g, r) <==> ConfigurationAccepts(db, g, r)
  {
    hide Configs.Sound, ActivateConfiguration, RollbackConfiguration, MayActivate, MayReturnTo, Capture, ActiveId, Approvers;
    match r.op
    case DoCreateConfiguration(_) =>
    case DoValidateConfiguration(_) => ListenersPublishable(db, r.environment);
    case DoApproveConfiguration(_, _) =>
    case DoActivateConfiguration(id, expected) => ActivationMeans(db, g, boot, r.environment, id, expected);
    case DoRollbackConfiguration(source, actor) => RollbackMeans(db, g, boot, r.environment, source, actor);
    case SkipVersionIds(_) =>
  }

  lemma ListenersPublishable(db: Database, environment: string)
    ensures TablesPublishable(db, environment)
      <==> forall l | l in db.assignments.listeners && db.assignments.listeners[l].environment == environment ::
        Publishable(db, db.assignments.listeners[l])
  {
    forall l | l in db.assignments.listeners
      ensures ListenerPublishable(db, db.assignments.listeners[l]) <==> Publishable(db, db.assignments.listeners[l]) {}
  }

  // ------------------------------------------------------------ any request

  ghost predicate Accepts(db: Database, g: Settings, r: Request) {
    && (CatalogRequest(r.op) ==> CatalogAccepts(db, g, r)) && (AssignmentRequest(r.op) ==> AssignmentAccepts(db, g, r))
    && (AccessRequest(r.op) ==> AccessAccepts(db, g, r)) && (ConfigurationRequest(r.op) ==> ConfigurationAccepts(db, g, r))
  }

  /** Whatever the tables of a run hold, a request succeeds exactly when it is acceptable. */
  lemma SucceedsIffAcceptable(db: Database, g: Settings, boot: set<nat>, r: Request)
    requires Invariant(db, g, boot)
    ensures Succeeds(db, g, r) <==> Accepts(db, g, r)
  {
    hide Invariant, Consistent, Fits, NumbersFresh, Configs.Sound, Succeeds, CatalogAccepts, AssignmentAccepts, AccessAccepts,
      ConfigurationAccepts, OptimisticLocking.ServicesUnique;
    InvariantMeans(db, g, boot);
    FitsMeans(db);
    EveryRequestHasAKind(r.op);
    if r.op.DoCreateService? || r.op.DoUpdateService? { ServiceAnswers(db, g, r); }
    else if r.op.DoCreateServiceVersion? || r.op.DoUpdateServiceVersion? { VersionAnswers(db, g, r); }
    else if r.op.DoCreateUpstream? || r.op.DoUpdateUpstream? { UpstreamAnswers(db, g, r); }
    else if AssignmentRequest(r.op) { AssignmentAnswers(db, g, r); }
    else if r.op.DoCreatePermission? || r.op.DoDeletePermission? { PermissionAnswers(db, g, r); }
    else if r.op.DoCreateConsumer? || r.op.DoUpdateConsumer? || r.op.DoDeleteConsumer? { ConsumerAnswers(db, g, r); }
    else if AccessRequest(r.op) { KeyAnswers(db, g, r); }
    else { ConfigurationAnswers(db, g, boot, r); }
  }

  lemma FitsMeans(db: Database)
    requires Fits(db)
    ensures OptimisticLocking.ServicesUnique(db.catalog)
  {
    hide Consistent, AccessSound, OptimisticLocking.ServicesUnique;
  }
}
