/** Every row of a reachable state is there because some request of the run put
    it there, and says what the last request on it said. */
module LastWrites {
  import opened Prelude
  import opened Tables
  import opened SnapshotCompiler
  import opened SnapshotMeaning
  import opened ControlPlane
  import opened Frames
  import opened PortLifecycle
  import opened TableRules
  import opened Loading
  import opened OptimisticLocking
  import ConfigurationLifecycle

  /** What a request can write: a row, or the columns of one that change on their own. */
  datatype Place =
    | AService(service: Id)
    | AVersion(version: Id)
    | AnUpstream(upstream: Id)
    | APermission(permission: Id)
    | AConsumer(consumer: Id)
    | AGrant(grantee: Id, name: string)
    | AKey(key: Id)
    | ARevocation(revoked: Id)
    /** What a listener is from its allocation on. */
    | AListener(listener: Id)
    | APolicy(limited: Id)
    | AStatus(listed: Id)
    /** The configuration version a listener is stamped with. */
    | AStamp(stamped: Id)
    /** A configuration version but for its status. */
    | AConfiguration(configuration: nat)
    | AStage(staged: nat)
    | AnApproval(approved: nat, approver: string)

  ghost predicate Present(db: Database, p: Place) {
    match p
    case AService(s) => s in db.catalog.services
    case AVersion(v) => v in db.catalog.versions
    case AnUpstream(u) => u in db.catalog.upstreams
    case APermission(q) => q in db.access.permissions
    case AConsumer(c) => c in db.access.consumers
    case AGrant(c, name) => Granted(db.access, c, name)
    case AKey(k) => k in db.access.keys
    case ARevocation(k) => k in db.access.keys && db.access.keys[k].revokedAt.Some?
    case AListener(l) => l in db.assignments.listeners
    case APolicy(l) => l in db.assignments.listeners
    case AStatus(l) => l in db.assignments.listeners
    case AStamp(l) => l in db.assignments.listeners
    case AConfiguration(c) => c in db.configurations.rows
    case AStage(c) => c in db.configurations.rows
    case AnApproval(c, actor) => (c, actor) in db.configurations.approvals
  }

  ghost predicate Succeeds(db: Database, g: Settings, r: Request) { Apply(db, g, r.environment, r.op, r.now).Ok? }

  /** The listener stands on the port that the request names. */
  ghost predicate OnItsPort(db: Database, r: Request, l: Id)
    requires r.op.DoUpdatePortStatus?
  {
    && l in db.assignments.listeners
    && db.assignments.listeners[l].environment == r.environment && db.assignments.listeners[l].port == r.op.port
  }

  /** The request, if it succeeds, writes this place. */
  ghost predicate Addresses(db: Database, r: Request, p: Place) {
    match p
    case AService(s) =>
      || (r.op.DoCreateService? && r.op.id == s)
      || (r.op.DoUpdateService? && s in db.catalog.services && db.catalog.services[s].environment == r.environment
          && db.catalog.services[s].name == r.op.name)
    case AVersion(v) => (r.op.DoCreateServiceVersion? || r.op.DoUpdateServiceVersion?) && r.op.id == v
    case AnUpstream(u) => (r.op.DoCreateUpstream? || r.op.DoUpdateUpstream?) && r.op.id == u
    case APermission(q) => r.op.DoCreatePermission? && r.op.id == q
    case AConsumer(c) => (r.op.DoCreateConsumer? || r.op.DoUpdateConsumer?) && r.op.id == c
    case AGrant(c, name) =>
      || ((r.op.DoCreateConsumer? || r.op.DoUpdateConsumer?) && r.op.id == c && name in r.op.permissions)
      || (r.op.DoIssueKey? && r.op.consumer == c && name in r.op.permissions)
    case AKey(k) => (r.op.DoIssueKey? && r.op.id == k) || (r.op.DoRotateKey? && r.op.newId == k)
    case ARevocation(k) => (r.op.DoRotateKey? || r.op.DoRevokeKey?) && r.op.id == k
    case AListener(l) => r.op.DoAllocateListener? && r.op.id == l
    case APolicy(l) => (r.op.DoAllocateListener? || r.op.DoUpdateListenerPolicies?) && r.op.id == l
    case AStatus(l) =>
      || ((r.op.DoAllocateListener? || r.op.DoUpdateListener?) && r.op.id == l)
      || (r.op.DoUpdatePortStatus? && r.op.portStatus == Blocked && OnItsPort(db, r, l))
      || (r.op.DoActivateConfiguration? && l in db.assignments.listeners
          && db.assignments.listeners[l].environment == r.environment
          && db.assignments.listeners[l].status == ListenerStatus.Reserved)
    case AStamp(l) =>
      || (r.op.DoAllocateListener? && r.op.id == l)
      || (r.op.DoActivateConfiguration? && l in db.assignments.listeners
          && db.assignments.listeners[l].environment == r.environment)
    case AConfiguration(c) =>
      (r.op.DoCreateConfiguration? || r.op.DoRollbackConfiguration?) && db.configurations.nextId == c
    case AStage(c) =>
      || ((r.op.DoCreateConfiguration? || r.op.DoRollbackConfiguration?) && db.configurations.nextId == c)
      || ((r.op.DoValidateConfiguration? || r.op.DoActivateConfiguration?) && r.op.configuration == c)
      || ((r.op.DoActivateConfiguration? || r.op.DoRollbackConfiguration?) && WasInForce(db, r.environment, c))
    case AnApproval(c, actor) => r.op.DoApproveConfiguration? && r.op.configuration == c && r.op.actor == actor
  }

  ghost predicate WasInForce(db: Database, environment: string, c: nat) {
    && c in db.configurations.rows && db.configurations.rows[c].environment == environment
    && db.configurations.rows[c].status == Current
  }

  ghost predicate Writes(db: Database, g: Settings, r: Request, p: Place) { Addresses(db, r, p) && Succeeds(db, g, r) }

  /** The request removes what is there. */
  ghost predicate Erases(db: Database, g: Settings, r: Request, p: Place) {
    && Succeeds(db, g, r)
    && match p
       case APermission(q) => r.op.DoDeletePermission? && r.op.id == q
       case AConsumer(c) => r.op.DoDeleteConsumer? && r.op.id == c
       case AGrant(c, name) => (r.op.DoUpdateConsumer? || r.op.DoDeleteConsumer?) && r.op.id == c
       case AListener(l) => r.op.DoUpdatePortStatus? && r.op.portStatus == Available && OnItsPort(db, r, l)
       case APolicy(l) => r.op.DoUpdatePortStatus? && r.op.portStatus == Available && OnItsPort(db, r, l)
       case AStatus(l) => r.op.DoUpdatePortStatus? && r.op.portStatus == Available && OnItsPort(db, r, l)
       case AStamp(l) => r.op.DoUpdatePortStatus? && r.op.portStatus == Available && OnItsPort(db, r, l)
       case _ => false
  }

  // ------------------------------------------------- what the writes say

  ghost predicate ServiceSays(r: Request, row: ServiceRow) {
    match r.op
    case DoCreateService(_, name) => row == ServiceRow(r.environment, name, true, 1)
    case DoUpdateService(name, enabled, expected) =>
      row.environment == r.environment && row.name == name && row.enabled == enabled && row.rowVersion == expected + 1
    case _ => false
  }

  /** A version belongs to the service it was created for, whatever is updated later. */
  ghost predicate VersionSays(db: Database, r: Request, row: VersionRow) {
    match r.op
    case DoCreateServiceVersion(_, service, version, healthPath, timeoutMs, maxBytes) =>
      && row.serviceId in db.catalog.services && db.catalog.services[row.serviceId].environment == r.environment
      && db.catalog.services[row.serviceId].name == service
      && row.version == version && row.healthPath == healthPath && row.timeoutMs == timeoutMs && row.maxBytes == maxBytes
      && row.enabled && row.rowVersion == 1
    case DoUpdateServiceVersion(id, version, healthPath, timeoutMs, maxBytes, enabled, expected) =>
      && id in db.catalog.versions && row.serviceId == db.catalog.versions[id].serviceId
      && row.version == version && row.healthPath == healthPath && row.timeoutMs == timeoutMs && row.maxBytes == maxBytes
      && row.enabled == enabled && row.rowVersion == expected + 1
    case _ => false
  }

  ghost predicate UpstreamSays(db: Database, g: Settings, r: Request, row: UpstreamRow) {
    match r.op
    case DoCreateUpstream(_, versionId, scheme, address, port, weight, healthPath) =>
      && row.versionId == versionId && row.scheme == scheme && g.platform.parseAddress(address) == Some(row.address)
      && row.port == port && row.weight == weight && row.healthPath == healthPath && row.enabled && row.rowVersion == 1
    case DoUpdateUpstream(id, scheme, address, port, weight, healthPath, enabled, expected) =>
      && id in db.catalog.upstreams && row.versionId == db.catalog.upstreams[id].versionId
      && row.scheme == scheme && g.platform.parseAddress(address) == Some(row.address)
      && row.port == port && row.weight == weight && row.healthPath == healthPath && row.enabled == enabled
      && row.rowVersion == expected + 1
    case _ => false
  }

  ghost predicate ConsumerSays(db: Database, r: Request, row: ConsumerRow) {
    match r.op
    case DoCreateConsumer(_, name, _) => row == ConsumerRow(r.environment, name, true, 1, r.now)
    case DoUpdateConsumer(id, enabled, _, expected) =>
      && id in db.access.consumers && row.name == db.access.consumers[id].name
      && row.environment == r.environment && row.enabled == enabled && row.rowVersion == expected + 1 && row.updatedAt == r.now
    case _ => false
  }

  /** An issued key is its consumer's, with the expiry asked for and no predecessor; a rotated one succeeds the old key and
      has its consumer and its expiry. */
  ghost predicate KeySays(db: Database, g: Settings, r: Request, row: KeyRow) {
    match r.op
    case DoIssueKey(_, consumer, secret, name, _, expiresAt) =>
      && row.consumer == consumer && row.name == name && row.expiresAt == expiresAt && row.rotatedFrom == None
      && row.prefix == secret[..12] && row.verifier == g.mac(RawKey(secret)) && row.createdAt == r.now
    case DoRotateKey(id, _, secret) =>
      && row.rotatedFrom == Some(id) && id in db.access.keys && row.consumer == db.access.keys[id].consumer
      && row.expiresAt == db.access.keys[id].expiresAt && row.name == db.access.keys[id].name + " rotation"
      && row.prefix == secret[..12] && row.verifier == g.mac(RawKey(secret)) && row.createdAt == r.now
    case _ => false
  }

  /** The version is enabled, carries the label asked for, and belongs to the enabled service of that name. */
  ghost predicate Offers(c: Catalog, environment: string, service: string, version: string, v: Id) {
    && v in c.versions && c.versions[v].version == version && c.versions[v].enabled
    && c.versions[v].serviceId in c.services
    && c.services[c.versions[v].serviceId].environment == environment && c.services[c.versions[v].serviceId].name == service
    && c.services[c.versions[v].serviceId].enabled
  }

  /** Each method once, in alphabetical order. */
  ghost predicate MethodsSay(wanted: seq<string>, stored: seq<string>) {
    && (wanted == [] ==> stored == ["GET"])
    && (wanted != [] ==> forall m :: m in stored <==> m in wanted)
    && forall i, j | 0 <= i < j < |stored| :: TextBefore(stored[i], stored[j])
  }

  ghost predicate ListenerSays(db: Database, r: Request, row: ListenerRow) {
    && r.op.DoAllocateListener?
    && var input := r.op.input;
    && row.environment == r.environment && row.permission == input.permission
    && Offers(db.catalog, r.environment, input.service, input.version, row.versionId)
    && (row.environment, row.port) in db.assignments.ports
    && db.assignments.ports[(row.environment, row.port)].status == Available
    && (input.preferredPort.Some? ==> row.port == input.preferredPort.value)
    && MethodsSay(input.methods, row.methods) && input.contentTypes == Some(row.contentTypes)
  }

  ghost predicate PolicySays(r: Request, row: ListenerRow) {
    match r.op
    case DoAllocateListener(_, input) =>
      && row.regex == input.regex && row.policy.rate == input.policy.rate && row.policy.burst == input.policy.burst
      && row.policy.quota == input.policy.quota
      && row.policy.threshold == (if input.policy.threshold == 0 then 5 else input.policy.threshold)
      && row.policy.openMs == (if input.policy.openMs == 0 then 30000 else input.policy.openMs)
    case DoUpdateListenerPolicies(_, policy, regex, _) => row.regex == regex && row.policy == policy
    case _ => false
  }

  ghost predicate StatusSays(r: Request, row: ListenerRow) {
    match r.op
    case DoAllocateListener(_, _) => row.status == ListenerStatus.Reserved
    case DoUpdateListener(_, status, _) => row.status == status
    case DoUpdatePortStatus(_, _) => row.status == Disabled
    case DoActivateConfiguration(_, _) => row.status == ListenerStatus.Active
    case _ => false
  }

  /** A draft is its author's and holds what was captured; a rollback is its author's and holds what its source holds. */
  ghost predicate ConfigurationSays(db: Database, r: Request, row: ConfigurationRow) {
    match r.op
    case DoCreateConfiguration(actor) =>
      row.environment == r.environment && row.createdBy == actor && row.source == None && row.snapshot == Capture(db, r.environment)
    case DoRollbackConfiguration(source, actor) =>
      && row.environment == r.environment && row.createdBy == actor && row.source == Some(source)
      && source in db.configurations.rows && row.snapshot == db.configurations.rows[source].snapshot
    case _ => false
  }

  /** A draft is new, a validated version validated; the one activated or rolled back to is in force, the one before no longer. */
  ghost predicate StageSays(db: Database, r: Request, c: nat, status: ConfigurationStatus) {
    match r.op
    case DoCreateConfiguration(_) => status == Draft
    case DoValidateConfiguration(_) => status == Validated
    case DoActivateConfiguration(id, _) => status == if c == id then Current else Superseded
    case DoRollbackConfiguration(_, _) => status == if c == db.configurations.nextId then Current else Superseded
    case _ => false
  }

  ghost predicate StampSays(r: Request, row: ListenerRow) {
    match r.op
    case DoAllocateListener(_, _) => row.configuration == None
    case DoActivateConfiguration(id, _) => row.configuration == Some(id)
    case _ => false
  }

  /** What stands at the place in n is what request r, answered on tables db, said. */
  ghost predicate Says(db: Database, g: Settings, r: Request, n: Database, p: Place) {
    && Present(n, p)
    && match p
       case AService(s) => ServiceSays(r, n.catalog.services[s])
       case AVersion(v) => VersionSays(db, r, n.catalog.versions[v])
       case AnUpstream(u) => UpstreamSays(db, g, r, n.catalog.upstreams[u])
       case APermission(q) => r.op.DoCreatePermission? && n.access.permissions[q] == r.op.name
       case AConsumer(c) => ConsumerSays(db, r, n.access.consumers[c])
       case AGrant(_, _) => true
       case AKey(k) => KeySays(db, g, r, n.access.keys[k])
       case ARevocation(k) => n.access.keys[k].revokedAt == Some(r.now)
       case AListener(l) => ListenerSays(db, r, n.assignments.listeners[l])
       case APolicy(l) => PolicySays(r, n.assignments.listeners[l])
       case AStatus(l) => StatusSays(r, n.assignments.listeners[l])
       case AStamp(l) => StampSays(r, n.assignments.listeners[l])
       case AConfiguration(c) => ConfigurationSays(db, r, n.configurations.rows[c])
       case AStage(c) => StageSays(db, r, c, n.configurations.rows[c].status)
       case AnApproval(_, _) => true
  }

  /** What stands at the place is the same in both. */
  ghost predicate Same(a: Database, b: Database, p: Place)
    requires Present(a, p) && Present(b, p)
  {
    match p
    case AService(s) => b.catalog.services[s] == a.catalog.services[s]
    case AVersion(v) => b.catalog.versions[v] == a.catalog.versions[v]
    case AnUpstream(u) => b.catalog.upstreams[u] == a.catalog.upstreams[u]
    case APermission(q) => b.access.permissions[q] == a.access.permissions[q]
    case AConsumer(c) => b.access.consumers[c] == a.access.consumers[c]
    case AGrant(_, _) => true
    case AKey(k) => b.access.keys[k] == a.access.keys[k].(revokedAt := b.access.keys[k].revokedAt)
    case ARevocation(k) => b.access.keys[k].revokedAt == a.access.keys[k].revokedAt
    case AListener(l) =>
      var x, y := a.assignments.listeners[l], b.assignments.listeners[l];
      y == x.(regex := y.regex, policy := y.policy, status := y.status, configuration := y.configuration, rowVersion := y.rowVersion)
    case APolicy(l) =>
      var x, y := a.assignments.listeners[l], b.assignments.listeners[l];
      y.regex == x.regex && y.policy == x.policy
    case AStatus(l) => b.assignments.listeners[l].status == a.assignments.listeners[l].status
    case AStamp(l) => b.assignments.listeners[l].configuration == a.assignments.listeners[l].configuration
    case AConfiguration(c) =>
      b.configurations.rows[c] == a.configurations.rows[c].(status := b.configurations.rows[c].status)
    case AStage(c) => b.configurations.rows[c].status == a.configurations.rows[c].status
    case AnApproval(_, _) => true
  }

  // ------------------------------------------------------------ one request

  ghost predicate Fits(db: Database) {
    Consistent(db.assignments) && AccessSound(db.access) && ServicesUnique(db.catalog)
  }

  /** A place is filled after a request exactly when the request writes it, or it was filled and is not erased; it then says
      what the request says, or what it said. */
  ghost predicate StepMeans(db: Database, g: Settings, r: Request, n: Database, p: Place) {
    && (Writes(db, g, r, p) ==> Says(db, g, r, n, p))
    && (!Writes(db, g, r, p) && !Erases(db, g, r, p) ==> (Present(n, p) <==> Present(db, p)))
    && (!Writes(db, g, r, p) && Erases(db, g, r, p) ==> !Present(n, p))
    && (!Writes(db, g, r, p) && Present(db, p) && Present(n, p) ==> Same(db, n, p))
  }

  lemma FailuresWriteNothing(db: Database, g: Settings, r: Request, p: Place)
    requires !Succeeds(db, g, r)
    ensures StepMeans(db, g, r, Next(db, g, r), p)
  {
    hide Addresses, Apply;
  }

  ghost predicate CatalogPlace(p: Place) { p.AService? || p.AVersion? || p.AnUpstream? }
  ghost predicate AccessPlace(p: Place) {
    p.APermission? || p.AConsumer? || p.AGrant? || p.AKey? || p.ARevocation?
  }
  ghost predicate AssignmentPlace(p: Place) { p.AListener? || p.APolicy? || p.AStatus? || p.AStamp? }
  ghost predicate ConfigurationPlace(p: Place) { p.AConfiguration? || p.AStage? || p.AnApproval? }

  /** A request of another kind neither addresses nor changes the place. */
  lemma OtherTablesStay(db: Database, g: Settings, r: Request, p: Place)
    requires CatalogPlace(p) ==> !CatalogRequest(r.op)
    requires AccessPlace(p) ==> !AccessRequest(r.op)
    requires AssignmentPlace(p) ==> !AssignmentRequest(r.op) && !r.op.DoActivateConfiguration?
    requires ConfigurationPlace(p) ==> !ConfigurationRequest(r.op)
    ensures StepMeans(db, g, r, Next(db, g, r), p)
  {
    hide Next, Apply, Granted;
    EveryRequestHasAKind(r.op);
    if CatalogRequest(r.op) { CatalogFrame(db, g, r); }
    else if AssignmentRequest(r.op) { AssignmentFrame(db, g, r); }
    else if AccessRequest(r.op) { AccessFrame(db, g, r); }
    else { ConfigurationFrame(db, g, r); }
  }

  lemma ServiceStep(db: Database, g: Settings, r: Request, s: Id)
    requires ServicesUnique(db.catalog) && (r.op.DoCreateService? || r.op.DoUpdateService?)
    ensures StepMeans(db, g, r, Next(db, g, r), AService(s))
  {
    if r.op.DoUpdateService? && Succeeds(db, g, r) {
      var t := ServiceUpdatesRaiseTheVersion(db, g, r);
    }
  }

  lemma VersionStep(db: Database, g: Settings, r: Request, v: Id)
    requires r.op.DoCreateServiceVersion? || r.op.DoUpdateServiceVersion?
    ensures StepMeans(db, g, r, Next(db, g, r), AVersion(v))
  {
    hide LabelTaken, VersionFieldsOk, FirstOf;
  }

  lemma UpstreamStep(db: Database, g: Settings, r: Request, u: Id)
    requires r.op.DoCreateUpstream? || r.op.DoUpdateUpstream?
    ensures StepMeans(db, g, r, Next(db, g, r), AnUpstream(u))
  {
    hide EndpointTaken, AddressAllowed, ValidOptionalPath;
  }

  lemma CatalogStep(db: Database, g: Settings, r: Request, p: Place)
    requires Fits(db) && CatalogPlace(p)
    ensures StepMeans(db, g, r, Next(db, g, r), p)
  {
    hide Next, StepMeans, Consistent, AccessSound, ServicesUnique;
    match p {
      case AService(s) =>
        if r.op.DoCreateService? || r.op.DoUpdateService? { ServiceStep(db, g, r, s); } else { OthersLeaveServices(db, g, r, s); }
      case AVersion(v) =>
        if r.op.DoCreateServiceVersion? || r.op.DoUpdateServiceVersion? { VersionStep(db, g, r, v); } else { OthersLeaveVersions(db, g, r, v); }
      case AnUpstream(u) =>
        if r.op.DoCreateUpstream? || r.op.DoUpdateUpstream? { UpstreamStep(db, g, r, u); } else { OthersLeaveUpstreams(db, g, r, u); }
    }
  }

  lemma OthersLeaveServices(db: Database, g: Settings, r: Request, s: Id)
    requires !r.op.DoCreateService? && !r.op.DoUpdateService?
    ensures StepMeans(db, g, r, Next(db, g, r), AService(s))
  {
    hide Granted, ListenerSays, PolicySays, StatusSays, StampSays, ConfigurationSays, ConsumerSays, KeySays, OnItsPort,
      WasInForce, StageSays;
    if CatalogRequest(r.op) {
      hide LabelTaken, VersionFieldsOk, FirstOf, VersionIn, EndpointTaken, UpstreamFieldsOk;
      OtherCatalogRequestsLeaveServices(db, g, r);
    } else {
      hide Next;
      OtherTablesStay(db, g, r, AService(s));
    }
  }

  lemma OthersLeaveVersions(db: Database, g: Settings, r: Request, v: Id)
    requires !r.op.DoCreateServiceVersion? && !r.op.DoUpdateServiceVersion?
    ensures StepMeans(db, g, r, Next(db, g, r), AVersion(v))
  {
    hide Granted, ListenerSays, PolicySays, StatusSays, StampSays, ConfigurationSays, ConsumerSays, KeySays, OnItsPort,
      WasInForce, StageSays;
    if CatalogRequest(r.op) {
      hide VersionIn, EndpointTaken, UpstreamFieldsOk, MatchingServices, ServiceNameTaken;
    } else {
      hide Next;
      OtherTablesStay(db, g, r, AVersion(v));
    }
  }

  lemma OthersLeaveUpstreams(db: Database, g: Settings, r: Request, u: Id)
    requires !r.op.DoCreateUpstream? && !r.op.DoUpdateUpstream?
    ensures StepMeans(db, g, r, Next(db, g, r), AnUpstream(u))
  {
    hide Granted, ListenerSays, PolicySays, StatusSays, StampSays, ConfigurationSays, ConsumerSays, KeySays, OnItsPort,
      WasInForce, StageSays;
    if CatalogRequest(r.op) {
      hide LabelTaken, VersionFieldsOk, FirstOf, VersionIn, MatchingServices, ServiceNameTaken;
    } else {
      hide Next;
      OtherTablesStay(db, g, r, AnUpstream(u));
    }
  }

  // ------------------------------------------------------------ access rows

  ghost predicate KeyRequest(op: Operation) { op.DoIssueKey? || op.DoRotateKey? || op.DoRevokeKey? }

  lemma KeyRequestsKeepTheRest(db: Database, g: Settings, r: Request)
    requires KeyRequest(r.op)
    ensures Next(db, g, r).access.permissions == db.access.permissions && Next(db, g, r).access.consumers == db.access.consumers
  {
    hide PrefixTaken, PermissionExists, RawKey;
  }

  lemma OthersKeepTheKeys(db: Database, g: Settings, r: Request)
    requires AccessRequest(r.op) && !KeyRequest(r.op)
    ensures Next(db, g, r).access.keys == db.access.keys
  {
    hide PermissionInUse, PermissionExists, GrantsExcept;
  }

  lemma ConsumerRequestsKeepPermissions(db: Database, g: Settings, r: Request)
    requires r.op.DoCreateConsumer? || r.op.DoUpdateConsumer? || r.op.DoDeleteConsumer?
    ensures Next(db, g, r).access.permissions == db.access.permissions
  {
    hide PermissionExists, GrantsExcept;
  }

  lemma PermissionStep(db: Database, g: Settings, r: Request, q: Id)
    requires AccessRequest(r.op)
    ensures StepMeans(db, g, r, Next(db, g, r), APermission(q))
  {
    hide Granted, ListenerSays, PolicySays, StatusSays, ConfigurationSays, UpstreamSays, VersionSays, ServiceSays, OnItsPort, ConsumerSays, KeySays;
    if KeyRequest(r.op) {
      hide Next, Apply;
      KeyRequestsKeepTheRest(db, g, r);
    } else if r.op.DoCreatePermission? || r.op.DoDeletePermission? {
      hide PermissionInUse, PermissionExists;
    } else {
      hide Next, Apply;
      ConsumerRequestsKeepPermissions(db, g, r);
    }
  }

  lemma CreatedConsumerStep(db: Database, g: Settings, r: Request, c: Id)
    requires r.op.DoCreateConsumer?
    ensures StepMeans(db, g, r, Next(db, g, r), AConsumer(c))
  {
    hide Granted, ListenerSays, PolicySays, StatusSays, ConfigurationSays, UpstreamSays, VersionSays, ServiceSays, OnItsPort, KeySays, PermissionInUse, PermissionExists, GrantsExcept, PrefixTaken, RawKey;
  }

  lemma UpdatedConsumerStep(db: Database, g: Settings, r: Request, c: Id)
    requires r.op.DoUpdateConsumer?
    ensures StepMeans(db, g, r, Next(db, g, r), AConsumer(c))
  {
    hide Granted, ListenerSays, PolicySays, StatusSays, ConfigurationSays, UpstreamSays, VersionSays, ServiceSays, OnItsPort, KeySays, PermissionInUse, PermissionExists, GrantsExcept, PrefixTaken, RawKey;
  }

  lemma DeletedConsumerStep(db: Database, g: Settings, r: Request, c: Id)
    requires r.op.DoDeleteConsumer?
    ensures StepMeans(db, g, r, Next(db, g, r), AConsumer(c))
  {
    hide Granted, ListenerSays, PolicySays, StatusSays, ConfigurationSays, UpstreamSays, VersionSays, ServiceSays, OnItsPort, KeySays, PermissionInUse, PermissionExists, GrantsExcept, PrefixTaken, RawKey;
  }

  lemma PermissionsLeaveConsumers(db: Database, g: Settings, r: Request, c: Id)
    requires r.op.DoCreatePermission? || r.op.DoDeletePermission?
    ensures StepMeans(db, g, r, Next(db, g, r), AConsumer(c))
  {
    hide Granted, ListenerSays, PolicySays, StatusSays, ConfigurationSays, UpstreamSays, VersionSays, ServiceSays, OnItsPort, KeySays, PermissionInUse, PermissionExists, GrantsExcept, PrefixTaken, RawKey;
  }

  lemma KeysLeaveConsumers(db: Database, g: Settings, r: Request, c: Id)
    requires KeyRequest(r.op)
    ensures StepMeans(db, g, r, Next(db, g, r), AConsumer(c))
  {
    hide Granted, ListenerSays, PolicySays, StatusSays, ConfigurationSays, UpstreamSays, VersionSays, ServiceSays, OnItsPort, KeySays, PermissionInUse, PermissionExists, GrantsExcept, PrefixTaken, RawKey;
  }

  lemma ConsumerStep(db: Database, g: Settings, r: Request, c: Id)
    requires AccessRequest(r.op)
    ensures StepMeans(db, g, r, Next(db, g, r), AConsumer(c))
  {
    hide StepMeans, Next;
    if r.op.DoCreateConsumer? { CreatedConsumerStep(db, g, r, c); }
    else if r.op.DoUpdateConsumer? { UpdatedConsumerStep(db, g, r, c); }
    else if r.op.DoDeleteConsumer? { DeletedConsumerStep(db, g, r, c); }
    else if r.op.DoCreatePermission? || r.op.DoDeletePermission? { PermissionsLeaveConsumers(db, g, r, c); }
    else if KeyRequest(r.op) { KeysLeaveConsumers(db, g, r, c); }
  }

  lemma IssuedKeyStep(db: Database, g: Settings, r: Request, k: Id)
    requires r.op.DoIssueKey?
    ensures StepMeans(db, g, r, Next(db, g, r), AKey(k))
  {
    hide Granted, ListenerSays, PolicySays, StatusSays, ConfigurationSays, UpstreamSays, VersionSays, ServiceSays, OnItsPort, ConsumerSays, PrefixTaken, PermissionExists, RawKey, GrantsExcept;
  }

  lemma RotatedKeyStep(db: Database, g: Settings, r: Request, k: Id)
    requires r.op.DoRotateKey?
    ensures StepMeans(db, g, r, Next(db, g, r), AKey(k))
  {
    hide Granted, ListenerSays, PolicySays, StatusSays, ConfigurationSays, UpstreamSays, VersionSays, ServiceSays, OnItsPort, ConsumerSays, PrefixTaken, PermissionExists, RawKey, GrantsExcept;
  }

  lemma RevokedKeyStep(db: Database, g: Settings, r: Request, k: Id)
    requires r.op.DoRevokeKey?
    ensures StepMeans(db, g, r, Next(db, g, r), AKey(k))
  {
    hide Granted, ListenerSays, PolicySays, StatusSays, ConfigurationSays, UpstreamSays, VersionSays, ServiceSays, OnItsPort, ConsumerSays, PrefixTaken, PermissionExists, RawKey, GrantsExcept;
  }

  lemma OtherKeyStep(db: Database, g: Settings, r: Request, k: Id)
    requires AccessRequest(r.op) && !KeyRequest(r.op)
    ensures StepMeans(db, g, r, Next(db, g, r), AKey(k))
  {
    hide Granted, ListenerSays, PolicySays, StatusSays, ConfigurationSays, UpstreamSays, VersionSays, ServiceSays, OnItsPort, ConsumerSays, PrefixTaken, PermissionExists, RawKey, GrantsExcept;
  }

  lemma KeyStep(db: Database, g: Settings, r: Request, k: Id)
    requires AccessRequest(r.op)
    ensures StepMeans(db, g, r, Next(db, g, r), AKey(k))
  {
    hide StepMeans, Next;
    if r.op.DoIssueKey? { IssuedKeyStep(db, g, r, k); }
    else if r.op.DoRotateKey? { RotatedKeyStep(db, g, r, k); }
    else if r.op.DoRevokeKey? { RevokedKeyStep(db, g, r, k); }
    else if AccessRequest(r.op) && !KeyRequest(r.op) { OtherKeyStep(db, g, r, k); }
  }

  lemma IssueRevokesNothing(db: Database, g: Settings, r: Request, k: Id)
    requires r.op.DoIssueKey?
    ensures StepMeans(db, g, r, Next(db, g, r), ARevocation(k))
  {
    hide Granted, ListenerSays, PolicySays, StatusSays, ConfigurationSays, UpstreamSays, VersionSays, ServiceSays, OnItsPort, ConsumerSays, KeySays, PrefixTaken, PermissionExists, RawKey, GrantsExcept;
  }

  lemma RotationRevokes(db: Database, g: Settings, r: Request, k: Id)
    requires r.op.DoRotateKey?
    ensures StepMeans(db, g, r, Next(db, g, r), ARevocation(k))
  {
    hide Granted, ListenerSays, PolicySays, StatusSays, ConfigurationSays, UpstreamSays, VersionSays, ServiceSays, OnItsPort, ConsumerSays, KeySays, PrefixTaken, PermissionExists, RawKey, GrantsExcept;
  }

  lemma RevocationRevokes(db: Database, g: Settings, r: Request, k: Id)
    requires r.op.DoRevokeKey?
    ensures StepMeans(db, g, r, Next(db, g, r), ARevocation(k))
  {
    hide Granted, ListenerSays, PolicySays, StatusSays, ConfigurationSays, UpstreamSays, VersionSays, ServiceSays, OnItsPort, ConsumerSays, KeySays, PrefixTaken, PermissionExists, RawKey, GrantsExcept;
  }

  lemma OtherRevocationStep(db: Database, g: Settings, r: Request, k: Id)
    requires AccessRequest(r.op) && !KeyRequest(r.op)
    ensures StepMeans(db, g, r, Next(db, g, r), ARevocation(k))
  {
    hide Granted, ListenerSays, PolicySays, StatusSays, ConfigurationSays, UpstreamSays, VersionSays, ServiceSays, OnItsPort, ConsumerSays, KeySays, PrefixTaken, PermissionExists, RawKey, GrantsExcept;
  }

  lemma RevocationStep(db: Database, g: Settings, r: Request, k: Id)
    requires AccessRequest(r.op)
    ensures StepMeans(db, g, r, Next(db, g, r), ARevocation(k))
  {
    hide StepMeans, Next;
    if r.op.DoIssueKey? { IssueRevokesNothing(db, g, r, k); }
    else if r.op.DoRotateKey? { RotationRevokes(db, g, r, k); }
    else if r.op.DoRevokeKey? { RevocationRevokes(db, g, r, k); }
    else if AccessRequest(r.op) && !KeyRequest(r.op) { OtherRevocationStep(db, g, r, k); }
  }

  /** Assigning grants the consumer exactly the named permissions more. */
  lemma AssigningGrants(x: Access, g: Settings, c: Id, names: seq<string>, d: Id, name: string)
    requires AssignPermissions(x, g, c, names).Ok?
    ensures var y := AssignPermissions(x, g, c, names).value;
      Granted(y, d, name) <==> Granted(x, d, name) || (d == c && name in names)
  {
    var y := AssignPermissions(x, g, c, names).value;
    if d == c && name in names {
      assert PermissionExists(x, name);
      var p :| p in x.permissions && x.permissions[p] == name;
      assert (c, p) in y.grants;
    }
    if p :| (d, p) in x.grants && p in x.permissions && x.permissions[p] == name { assert (d, p) in y.grants; }
  }

  lemma GrantStep(db: Database, g: Settings, r: Request, c: Id, name: string)
    requires AccessSound(db.access) && AccessRequest(r.op)
    ensures StepMeans(db, g, r, Next(db, g, r), AGrant(c, name))
  {
    hide Granted, PrefixTaken, PermissionInUse, PermissionExists, RawKey, GrantsExcept, AssignPermissions, UniqueNames, UniquePrefixes;
    var x, y := db.access, Next(db, g, r).access;
    if !Succeeds(db, g, r) {
      FailuresWriteNothing(db, g, r, AGrant(c, name));
    } else {
      match r.op
      case DoCreatePermission(id, _) => NewPermissionGrantsNothing(x, y, id, c, name);
      case DoDeletePermission(id) => DeletionTakesNoGrant(db, y, id, c, name);
      case DoCreateConsumer(id, called, permissions) =>
        var z := x.(consumers := x.consumers[id := ConsumerRow(r.environment, called, true, 1, r.now)]);
        AssigningGrants(z, g, id, permissions, c, name);
        SameGrantsSameNames(x, z, c, name);
        NothingGrantedToStrangers(x, id, name);
      case DoUpdateConsumer(id, enabled, permissions, expected) =>
        var row := x.consumers[id].(enabled := enabled, rowVersion := x.consumers[id].rowVersion + 1, updatedAt := r.now);
        var z := x.(consumers := x.consumers[id := row], grants := GrantsExcept(x.grants, id));
        AssigningGrants(z, g, id, permissions, c, name);
        ClearedGrants(x, z, id, c, name);
      case DoDeleteConsumer(id) => ClearedGrants(x, y, id, c, name);
      case DoIssueKey(id, consumer, _, _, permissions, _) =>
        AssigningGrants(x, g, consumer, permissions, c, name);
        SameGrantsSameNames(AssignPermissions(x, g, consumer, permissions).value, y, c, name);
      case DoRotateKey(_, _, _) => SameGrantsSameNames(x, y, c, name);
      case DoRevokeKey(_) => SameGrantsSameNames(x, y, c, name);
    }
  }

  lemma SameGrantsSameNames(x: Access, y: Access, c: Id, name: string)
    requires y.grants == x.grants && y.permissions == x.permissions
    ensures Granted(y, c, name) <==> Granted(x, c, name)
  {
  }

  lemma NewPermissionGrantsNothing(x: Access, y: Access, id: Id, c: Id, name: string)
    requires AccessSound(x) && id !in x.permissions && id in y.permissions
    requires y == x.(permissions := x.permissions[id := y.permissions[id]])
    ensures Granted(y, c, name) <==> Granted(x, c, name)
  {
    forall p | (c, p) in x.grants ensures p != id { assert (c, p).1 == p; }
  }

  lemma DeletionTakesNoGrant(db: Database, y: Access, id: Id, c: Id, name: string)
    requires !PermissionInUse(db, id) && y == db.access.(permissions := db.access.permissions - {id})
    ensures Granted(y, c, name) <==> Granted(db.access, c, name)
  {
    forall p | (c, p) in db.access.grants ensures p != id { assert (c, p).1 == p; }
  }

  lemma NothingGrantedToStrangers(x: Access, id: Id, name: string)
    requires AccessSound(x) && id !in x.consumers
    ensures !Granted(x, id, name)
  {
    forall p ensures (id, p) !in x.grants { assert (id, p).0 == id; }
  }

  lemma ClearedGrants(x: Access, y: Access, id: Id, c: Id, name: string)
    requires y.grants == GrantsExcept(x.grants, id) && y.permissions == x.permissions
    ensures Granted(y, c, name) <==> c != id && Granted(x, c, name)
  {
    forall p ensures (c, p) in y.grants <==> c != id && (c, p) in x.grants { assert (c, p).0 == c; }
  }

  lemma AccessStep(db: Database, g: Settings, r: Request, p: Place)
    requires Fits(db) && AccessPlace(p)
    ensures StepMeans(db, g, r, Next(db, g, r), p)
  {
    hide Next, StepMeans, Consistent, AccessSound, ServicesUnique;
    if !AccessRequest(r.op) {
      OtherTablesStay(db, g, r, p);
    } else {
      match p
      case APermission(q) => PermissionStep(db, g, r, q);
      case AConsumer(c) => ConsumerStep(db, g, r, c);
      case AGrant(c, name) => GrantStep(db, g, r, c, name);
      case AKey(k) => KeyStep(db, g, r, k);
      case ARevocation(k) => RevocationStep(db, g, r, k);
    }
  }

  // ---------------------------------------------------------- listener rows

  lemma {:induction false} KeptMembers(known: seq<string>, wanted: seq<string>, m: string)
    ensures m in Kept(known, wanted) <==> m in known && m in wanted
  {
    if known != [] {
      KeptMembers(known[1..], wanted, m);
      assert m in known <==> m == known[0] || m in known[1..];
    }
  }

  ghost predicate InOrder(names: seq<string>) { forall i, j | 0 <= i < j < |names| :: TextBefore(names[i], names[j]) }

  lemma {:induction false} KeptInOrder(known: seq<string>, wanted: seq<string>)
    requires InOrder(known)
    ensures InOrder(Kept(known, wanted))
  {
    if known != [] {
      KeptInOrder(known[1..], wanted);
      var rest := Kept(known[1..], wanted);
      forall j | 0 <= j < |rest| ensures TextBefore(known[0], rest[j]) {
        KeptMembers(known[1..], wanted, rest[j]);
        var i :| 0 <= i < |known[1..]| && known[1..][i] == rest[j];
        assert known[i + 1] == rest[j];
      }
      var r := Kept(known, wanted);
      forall i, j | 0 <= i < j < |r| ensures TextBefore(r[i], r[j]) {
        if known[0] in wanted {
          assert r[j] == rest[j - 1];
          if i > 0 { assert r[i] == rest[i - 1]; }
        }
      }
    }
  }

  lemma KnownMethodsInOrder()
    ensures InOrder(KnownMethods)
  {
    var k := KnownMethods;
    assert k[0][0] == 'D' && k[1][0] == 'G' && k[2][0] == 'H' && k[3][0] == 'O';
    assert k[4] == "PATCH" && k[5] == "POST" && k[6] == "PUT";
    assert TextBefore(k[4], k[5]) && TextBefore(k[4], k[6]) && TextBefore(k[5], k[6]);
  }

  lemma NormalizedMethodsSay(wanted: seq<string>)
    requires NormalizeMethods(wanted).Some?
    ensures MethodsSay(wanted, NormalizeMethods(wanted).value)
  {
    KnownMethodsInOrder();
    var methods := if wanted == [] then ["GET"] else wanted;
    var stored := Kept(KnownMethods, methods);
    KeptInOrder(KnownMethods, methods);
    forall m ensures m in stored <==> m in methods { KeptMembers(KnownMethods, methods, m); }
    if wanted == [] { OnlyMember(stored, "GET"); }
  }

  lemma OnlyMember(names: seq<string>, m: string)
    requires InOrder(names) && forall n :: n in names <==> n == m
    ensures names == [m]
  {
    assert m in names;
    if |names| > 1 {
      assert names[0] in names && names[1] in names;
      TextOrderIsTotal(m, m);
    }
  }

  lemma OfferedVersions(c: Catalog, environment: string, service: string, version: string, v: Id)
    ensures v in EnabledVersions(c, environment, service, version) <==> Offers(c, environment, service, version, v)
  {
  }

  lemma AllocationSays(db: Database, g: Settings, environment: string, id: Id, input: ListenerInput, now: nat)
    requires Consistent(db.assignments) && AllocateListener(db, g, environment, id, input).Ok?
    ensures var n, r := AllocateListener(db, g, environment, id, input).value, Request(environment, DoAllocateListener(id, input), now);
      && id !in db.assignments.listeners && id in n.assignments.listeners
      && n.assignments.listeners - {id} == db.assignments.listeners
      && ListenerSays(db, r, n.assignments.listeners[id]) && PolicySays(r, n.assignments.listeners[id])
      && StatusSays(r, n.assignments.listeners[id]) && StampSays(r, n.assignments.listeners[id])
  {
    hide Consistent, EnabledVersions, AvailablePorts, NormalizeMethods, MethodsSay, Offers, RegexOk, PolicyInRange, PermissionExists, Lowest;
    NormalizedMethodsSay(input.methods);
    var free := AvailablePorts(db.assignments, environment);
    var versions := EnabledVersions(db.catalog, environment, input.service, input.version);
    OfferedVersions(db.catalog, environment, input.service, input.version, FirstOf(versions));
    var port := if input.preferredPort.Some? then input.preferredPort.value else Lowest(free);
    FreePorts(db.assignments, environment, port);
  }

  lemma AllocationStep(db: Database, g: Settings, r: Request, p: Place)
    requires Consistent(db.assignments) && AssignmentPlace(p) && r.op.DoAllocateListener?
    ensures StepMeans(db, g, r, Next(db, g, r), p)
  {
    hide Consistent, ListenerSays, PolicySays, StatusSays, StampSays, AllocateListener;
    if Succeeds(db, g, r) { AllocationSays(db, g, r.environment, r.op.id, r.op.input, r.now); }
  }

  lemma ListenerUpdateStep(db: Database, g: Settings, r: Request, p: Place)
    requires AssignmentPlace(p) && (r.op.DoUpdateListener? || r.op.DoUpdateListenerPolicies?)
    ensures StepMeans(db, g, r, Next(db, g, r), p)
  {
    hide Granted, ConfigurationSays, ConsumerSays, KeySays, ListenerSays, UpstreamSays, VersionSays, OnItsPort, StageSays;
    hide PortOccupied, RegexOk, PolicyInRange;
  }

  /** Blocking disables the listener on the port and releasing removes it; no other listener changes. */
  lemma PortRequestMeans(db: Database, g: Settings, r: Request, l: Id)
    requires Consistent(db.assignments) && r.op.DoUpdatePortStatus? && Succeeds(db, g, r)
    ensures var a, b := db.assignments.listeners, Next(db, g, r).assignments.listeners;
      && (l in b <==> l in a && !(r.op.portStatus == Available && OnItsPort(db, r, l)))
      && (l in b ==> b[l] == a[l].(status := b[l].status, rowVersion := b[l].rowVersion))
      && (l in b ==> b[l].status == if r.op.portStatus == Blocked && OnItsPort(db, r, l) then Disabled else a[l].status)
  {
    var a, slot := db.assignments, (r.environment, r.op.port);
    assert PortConsistent(a, slot);
    if l in a.listeners { assert ListenerConsistent(a, l); }
  }

  ghost function ListenerOf(p: Place): Id
    requires AssignmentPlace(p)
  {
    match p
    case AListener(l) => l
    case APolicy(l) => l
    case AStatus(l) => l
    case AStamp(l) => l
  }

  lemma PortStep(db: Database, g: Settings, r: Request, p: Place)
    requires Consistent(db.assignments) && AssignmentPlace(p) && r.op.DoUpdatePortStatus?
    ensures StepMeans(db, g, r, Next(db, g, r), p)
  {
    hide Consistent, Next, Succeeds, OnItsPort, ListenerSays, PolicySays;
    if Succeeds(db, g, r) {
      PortRequestMeans(db, g, r, ListenerOf(p));
      PortsAddressed(db, r);
    } else {
      FailuresWriteNothing(db, g, r, p);
    }
  }

  lemma PortsAddressed(db: Database, r: Request)
    requires r.op.DoUpdatePortStatus?
    ensures forall l :: OnItsPort(db, r, l) ==> l in db.assignments.listeners
  {
  }

  lemma ActivationStep(db: Database, g: Settings, r: Request, p: Place)
    requires AssignmentPlace(p) && r.op.DoActivateConfiguration?
    ensures StepMeans(db, g, r, Next(db, g, r), p)
  {
    hide Granted, ConfigurationSays, ConsumerSays, KeySays, ListenerSays, PolicySays, UpstreamSays, VersionSays, OnItsPort, StageSays;
    hide ActiveId, Supersede, Approvers;
  }

  lemma AssignmentStep(db: Database, g: Settings, r: Request, p: Place)
    requires Fits(db) && AssignmentPlace(p)
    ensures StepMeans(db, g, r, Next(db, g, r), p)
  {
    hide Next, StepMeans, Consistent, AccessSound, ServicesUnique;
    if r.op.DoAllocateListener? { AllocationStep(db, g, r, p); }
    else if r.op.DoUpdateListener? || r.op.DoUpdateListenerPolicies? { ListenerUpdateStep(db, g, r, p); }
    else if r.op.DoUpdatePortStatus? { PortStep(db, g, r, p); }
    else if r.op.DoActivateConfiguration? { ActivationStep(db, g, r, p); }
    else { OtherTablesStay(db, g, r, p); }
  }

  // ------------------------------------------------------ configuration rows

  ghost predicate NumbersFresh(db: Database) { forall id | id in db.configurations.rows :: id < db.configurations.nextId }

  lemma DraftRowStep(db: Database, g: Settings, r: Request, c: nat)
    requires NumbersFresh(db) && (r.op.DoCreateConfiguration?)
    ensures StepMeans(db, g, r, Next(db, g, r), AConfiguration(c))
  {
    hide Granted, ListenerSays, PolicySays, StatusSays, UpstreamSays, VersionSays, ServiceSays, OnItsPort, ConsumerSays, KeySays, ActiveId,
      Approvers, GoLive, Capture, TablesPublishable;
  }

  lemma RollbackRowStep(db: Database, g: Settings, r: Request, c: nat)
    requires NumbersFresh(db) && (r.op.DoRollbackConfiguration?)
    ensures StepMeans(db, g, r, Next(db, g, r), AConfiguration(c))
  {
    hide Granted, ListenerSays, PolicySays, StatusSays, UpstreamSays, VersionSays, ServiceSays, OnItsPort, ConsumerSays, KeySays, ActiveId,
      Approvers, GoLive, Capture, TablesPublishable;
  }

  lemma ActivatedRowStep(db: Database, g: Settings, r: Request, c: nat)
    requires NumbersFresh(db) && (r.op.DoActivateConfiguration?)
    ensures StepMeans(db, g, r, Next(db, g, r), AConfiguration(c))
  {
    hide Granted, ListenerSays, PolicySays, StatusSays, UpstreamSays, VersionSays, ServiceSays, OnItsPort, ConsumerSays, KeySays, ActiveId,
      Approvers, GoLive, Capture, TablesPublishable;
  }

  lemma OtherRowStep(db: Database, g: Settings, r: Request, c: nat)
    requires NumbersFresh(db) && (r.op.DoValidateConfiguration? || r.op.DoApproveConfiguration? || r.op.SkipVersionIds?)
    ensures StepMeans(db, g, r, Next(db, g, r), AConfiguration(c))
  {
    hide Granted, ListenerSays, PolicySays, StatusSays, UpstreamSays, VersionSays, ServiceSays, OnItsPort, ConsumerSays, KeySays, ActiveId,
      Approvers, GoLive, Capture, TablesPublishable;
  }

  lemma VersionRowStep(db: Database, g: Settings, r: Request, c: nat)
    requires NumbersFresh(db) && ConfigurationRequest(r.op)
    ensures StepMeans(db, g, r, Next(db, g, r), AConfiguration(c))
  {
    hide StepMeans, Next;
    if r.op.DoCreateConfiguration? { DraftRowStep(db, g, r, c); }
    else if r.op.DoRollbackConfiguration? { RollbackRowStep(db, g, r, c); }
    else if r.op.DoActivateConfiguration? { ActivatedRowStep(db, g, r, c); }
    else if r.op.DoValidateConfiguration? || r.op.DoApproveConfiguration? || r.op.SkipVersionIds? { OtherRowStep(db, g, r, c); }
  }

  lemma DraftStageStep(db: Database, g: Settings, r: Request, c: nat)
    requires NumbersFresh(db) && (r.op.DoCreateConfiguration?)
    ensures StepMeans(db, g, r, Next(db, g, r), AStage(c))
  {
    hide Granted, ListenerSays, PolicySays, StatusSays, UpstreamSays, VersionSays, ServiceSays, OnItsPort, ConsumerSays, KeySays, ActiveId,
      Approvers, GoLive, Capture, TablesPublishable;
  }

  lemma RollbackStageStep(db: Database, g: Settings, r: Request, c: nat)
    requires NumbersFresh(db) && (r.op.DoRollbackConfiguration?)
    ensures StepMeans(db, g, r, Next(db, g, r), AStage(c))
  {
    hide Granted, ListenerSays, PolicySays, StatusSays, UpstreamSays, VersionSays, ServiceSays, OnItsPort, ConsumerSays, KeySays, ActiveId,
      Approvers, GoLive, Capture, TablesPublishable;
  }

  lemma ActivatedStageStep(db: Database, g: Settings, r: Request, c: nat)
    requires NumbersFresh(db) && (r.op.DoActivateConfiguration?)
    ensures StepMeans(db, g, r, Next(db, g, r), AStage(c))
  {
    hide Granted, ListenerSays, PolicySays, StatusSays, UpstreamSays, VersionSays, ServiceSays, OnItsPort, ConsumerSays, KeySays, ActiveId,
      Approvers, GoLive, Capture, TablesPublishable;
  }

  lemma OtherStageStep(db: Database, g: Settings, r: Request, c: nat)
    requires NumbersFresh(db) && (r.op.DoValidateConfiguration? || r.op.DoApproveConfiguration? || r.op.SkipVersionIds?)
    ensures StepMeans(db, g, r, Next(db, g, r), AStage(c))
  {
    hide Granted, ListenerSays, PolicySays, StatusSays, UpstreamSays, VersionSays, ServiceSays, OnItsPort, ConsumerSays, KeySays, ActiveId,
      Approvers, GoLive, Capture, TablesPublishable;
  }

  lemma StageStep(db: Database, g: Settings, r: Request, c: nat)
    requires NumbersFresh(db) && ConfigurationRequest(r.op)
    ensures StepMeans(db, g, r, Next(db, g, r), AStage(c))
  {
    hide StepMeans, Next;
    if r.op.DoCreateConfiguration? { DraftStageStep(db, g, r, c); }
    else if r.op.DoRollbackConfiguration? { RollbackStageStep(db, g, r, c); }
    else if r.op.DoActivateConfiguration? { ActivatedStageStep(db, g, r, c); }
    else if r.op.DoValidateConfiguration? || r.op.DoApproveConfiguration? || r.op.SkipVersionIds? { OtherStageStep(db, g, r, c); }
  }

  lemma ApprovalStep(db: Database, g: Settings, r: Request, c: nat, actor: string)
    requires ConfigurationRequest(r.op)
    ensures StepMeans(db, g, r, Next(db, g, r), AnApproval(c, actor))
  {
    hide ActiveId, Approvers, GoLive, Capture, TablesPublishable, Supersede;
  }

  lemma ConfigurationStep(db: Database, g: Settings, r: Request, p: Place)
    requires NumbersFresh(db) && ConfigurationPlace(p)
    ensures StepMeans(db, g, r, Next(db, g, r), p)
  {
    hide Next, StepMeans;
    if !ConfigurationRequest(r.op) {
      OtherTablesStay(db, g, r, p);
    } else {
      match p
      case AConfiguration(c) => VersionRowStep(db, g, r, c);
      case AStage(c) => StageStep(db, g, r, c);
      case AnApproval(c, actor) => ApprovalStep(db, g, r, c, actor);
    }
  }

  lemma EveryStepMeans(db: Database, g: Settings, r: Request, p: Place)
    requires Fits(db) && NumbersFresh(db)
    ensures StepMeans(db, g, r, Next(db, g, r), p)
  {
    hide Next, StepMeans, Fits, NumbersFresh;
    if CatalogPlace(p) { CatalogStep(db, g, r, p); }
    else if AccessPlace(p) { AccessStep(db, g, r, p); }
    else if AssignmentPlace(p) { AssignmentStep(db, g, r, p); }
    else { ConfigurationStep(db, g, r, p); }
  }

  // ----------------------------------------------------------- over all runs

  ghost predicate WritesAt(history: seq<Database>, g: Settings, requests: seq<Request>, i: nat, p: Place)
    requires |history| == |requests| + 1 && i < |requests|
  {
    Writes(history[i], g, requests[i], p)
  }

  /** No request from state i on, before state n, writes or erases the place. */
  ghost predicate Untouched(history: seq<Database>, g: Settings, requests: seq<Request>, i: nat, n: nat, p: Place)
    requires |history| == |requests| + 1 && n <= |requests|
  {
    forall j | i <= j < n :: !Writes(history[j], g, requests[j], p) && !Erases(history[j], g, requests[j], p)
  }

  /** Request i was the last to write the place before state n, nothing erased it since, and what stands there is what i said. */
  ghost predicate LastWrite(history: seq<Database>, g: Settings, requests: seq<Request>, i: nat, n: nat, p: Place)
    requires |history| == |requests| + 1 && n < |history|
  {
    && i < n && WritesAt(history, g, requests, i, p) && Untouched(history, g, requests, i + 1, n, p)
    && Says(history[i], g, requests[i], history[n], p)
  }

  lemma RunFits(history: seq<Database>, g: Settings, requests: seq<Request>, n: nat)
    requires Sane(g) && IsRun(history, g, requests) && n < |history|
    ensures Fits(history[n]) && NumbersFresh(history[n])
  {
    hide IsRun, Sane, Consistent, AccessSound, ServicesUnique;
    AlwaysConsistent(history, g, requests, n);
    AlwaysRowsSound(history, g, requests, n);
    ServicesGrowOverRuns(history, g, requests, n, n);
    ConfigurationLifecycle.AlwaysSound(history, g, requests, n);
  }

  /** What request said survives while nothing writes the place. */
  lemma SayingStays(db: Database, g: Settings, r: Request, a: Database, b: Database, p: Place)
    requires Says(db, g, r, a, p) && Present(b, p) && Same(a, b, p)
    ensures Says(db, g, r, b, p)
  {
    hide Granted, MethodsSay, Offers;
  }

  /** Something stands at the place exactly when it was written and not erased since, or was there from the start and untouched. */
  ghost predicate IsAccountedFor(history: seq<Database>, g: Settings, requests: seq<Request>, n: nat, p: Place)
    requires |history| == |requests| + 1 && n < |history|
  {
    && (Present(history[n], p)
        <==> (Present(history[0], p) && Untouched(history, g, requests, 0, n, p)) || exists i :: LastWrite(history, g, requests, i, n, p))
    && (Present(history[n], p) && Untouched(history, g, requests, 0, n, p) ==>
        Present(history[0], p) && Same(history[0], history[n], p))
  }

  /** In every reachable state: something stands at a place if and only if some request of the run wrote it there and none has
      erased it since, or it was there from the start; and it says what the last request that wrote it said. */
  lemma {:induction false} EverythingIsAsLastWritten(
    history: seq<Database>, g: Settings, requests: seq<Request>, n: nat, p: Place)
    requires Sane(g) && IsRun(history, g, requests) && |history| == |requests| + 1 && n < |history|
    ensures IsAccountedFor(history, g, requests, n, p)
  {
    hide IsRun, Sane, Present, Writes, Erases, Says, Same, Next;
    if n == 0 {
      SameAsItself(history[0], p);
    } else {
      EverythingIsAsLastWritten(history, g, requests, n - 1, p);
      RunStep(history, g, requests, n);
      RunFits(history, g, requests, n - 1);
      EveryStepMeans(history[n - 1], g, requests[n - 1], p);
      LastStep(history, g, requests, n, p);
    }
  }

  lemma SameAsItself(db: Database, p: Place)
    ensures Present(db, p) ==> Same(db, db, p)
  {
    hide Granted;
  }

  lemma SameIsTransitive(a: Database, b: Database, c: Database, p: Place)
    requires Present(a, p) && Present(b, p) && Present(c, p) && Same(a, b, p) && Same(b, c, p)
    ensures Same(a, c, p)
  {
    hide Granted;
  }

  lemma SaidIsPresent(db: Database, g: Settings, r: Request, n: Database, p: Place)
    requires Says(db, g, r, n, p)
    ensures Present(n, p)
  {
    hide Present;
  }

  lemma LastStep(history: seq<Database>, g: Settings, requests: seq<Request>, n: nat, p: Place)
    requires |history| == |requests| + 1 && 0 < n < |history| && IsAccountedFor(history, g, requests, n - 1, p)
    requires StepMeans(history[n - 1], g, requests[n - 1], history[n], p)
    ensures IsAccountedFor(history, g, requests, n, p)
  {
    hide Present, Writes, Erases, Says, Same;
    var m := n - 1;
    var db, r := history[m], requests[m];
    if Writes(db, g, r, p) {
      assert LastWrite(history, g, requests, m, n, p);
      SaidIsPresent(db, g, r, history[n], p);
    } else if Erases(db, g, r, p) {
      if i: nat :| LastWrite(history, g, requests, i, n, p) { assert false; }
    } else {
      if Present(db, p) {
        if i: nat :| LastWrite(history, g, requests, i, m, p) {
          SayingStays(history[i], g, requests[i], db, history[n], p);
          assert LastWrite(history, g, requests, i, n, p);
        }
        if Untouched(history, g, requests, 0, n, p) { SameIsTransitive(history[0], db, history[n], p); }
      }
      if i: nat :| LastWrite(history, g, requests, i, n, p) {
        SaidIsPresent(history[i], g, requests[i], history[n], p);
      }
    }
  }
}
