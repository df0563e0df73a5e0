/** internal/controlplane/store.go: what each committed transaction of the
    admin API does to the tables, as a function of the tables it saw. */
module ControlPlane {
  import opened Prelude
  import opened Tables
  import opened SnapshotCompiler

  datatype Error = NotFound | Conflict | Invalid | Failure
  type Outcome = Result<Database, Error>

  /** The process configuration, and the library functions the store calls. */
  datatype Settings = Settings(
    platform: Platform, allowlist: seq<Prefix>, requiredApprovals: int,
    serviceName: string -> bool, versionLabel: string -> bool, permissionName: string -> bool,
    unicast: string -> bool, mac: string -> seq<bv8>)

  /** 32 random bytes in lower-case hexadecimal. */
  predicate IsHex(text: string) { forall c | c in text :: '0' <= c <= '9' || 'a' <= c <= 'f' }
  const SampleSecret: string := seq(64, _ => '0')
  type Secret = s: string | |s| == 64 && IsHex(s) witness SampleSecret

  function RawKey(secret: Secret): string { "shn_" + secret[..12] + "." + secret[12..] }

  predicate ValidPath(path: string) { HasPrefix(path, "/") && '\r' !in path && '\n' !in path && |path| <= 256 }
  predicate ValidOptionalPath(path: string) { path == "" || ValidPath(path) }

  // ------------------------------------------------------------- the catalog

  predicate ServiceNameTaken(c: Catalog, environment: string, name: string) {
    exists id | id in c.services :: c.services[id].environment == environment && c.services[id].name == name
  }

  function CreateService(db: Database, g: Settings, environment: string, id: Id, name: string): Outcome {
    if !g.serviceName(name) then Err(Invalid)
    else if environment !in db.environments then Err(NotFound)
    else if id in db.catalog.services || ServiceNameTaken(db.catalog, environment, name) then Err(Conflict)
    else Ok(db.(catalog := db.catalog.(services := db.catalog.services[id := ServiceRow(environment, name, true, 1)])))
  }

  /** The rows UPDATE ... WHERE name and row_version matches. */
  function MatchingServices(services: map<Id, ServiceRow>, environment: string, name: string, expected: int): set<Id> {
    set id | id in services && services[id].environment == environment && services[id].name == name
      && services[id].rowVersion == expected
  }

  function UpdateService(db: Database, environment: string, name: string, enabled: bool, expected: int): Outcome {
    var services := db.catalog.services;
    var hits := MatchingServices(services, environment, name, expected);
    if expected < 1 then Err(Invalid)
    else if hits == {} then Err(NotFound)
    else Ok(db.(catalog := db.catalog.(services := map id | id in services ::
      if id in hits then services[id].(enabled := enabled, rowVersion := services[id].rowVersion + 1) else services[id])))
  }

  predicate VersionFieldsOk(g: Settings, version: string, healthPath: string, timeoutMs: int, maxBytes: int) {
    g.versionLabel(version) && ValidPath(healthPath) && 1 <= timeoutMs <= 300000 && 1 <= maxBytes <= 0x4000_0000
  }

  predicate LabelTaken(c: Catalog, except: set<Id>, serviceId: Id, version: string) {
    exists id | id in c.versions :: id !in except && c.versions[id].serviceId == serviceId && c.versions[id].version == version
  }

  function CreateServiceVersion(
    db: Database, g: Settings, environment: string, id: Id, serviceName: string, version: string, healthPath: string,
    timeoutMs: int, maxBytes: int): Outcome
  {
    var c := db.catalog;
    var owners := set s | s in c.services && c.services[s].environment == environment && c.services[s].name == serviceName;
    if !VersionFieldsOk(g, version, healthPath, timeoutMs, maxBytes) then Err(Invalid)
    else if owners == {} then Err(NotFound)
    else
      var owner := FirstOf(owners);
      if id in c.versions || LabelTaken(c, {}, owner, version) then Err(Conflict)
      else Ok(db.(catalog := c.(versions := c.versions[id := VersionRow(owner, version, healthPath, timeoutMs, maxBytes, true, 1)])))
  }

  predicate VersionIn(c: Catalog, environment: string, id: Id) {
    id in c.versions && c.versions[id].serviceId in c.services && c.services[c.versions[id].serviceId].environment == environment
  }

  function UpdateServiceVersion(
    db: Database, g: Settings, environment: string, id: Id, version: string, healthPath: string, timeoutMs: int, maxBytes: int,
    enabled: bool, expected: int): Outcome
  {
    var c := db.catalog;
    if !VersionFieldsOk(g, version, healthPath, timeoutMs, maxBytes) || expected < 1 then Err(Invalid)
    else if !VersionIn(c, environment, id) || c.versions[id].rowVersion != expected then Err(NotFound)
    else if LabelTaken(c, {id}, c.versions[id].serviceId, version) then Err(Conflict)
    else Ok(db.(catalog := c.(versions := c.versions[id := VersionRow(
      c.versions[id].serviceId, version, healthPath, timeoutMs, maxBytes, enabled, c.versions[id].rowVersion + 1)])))
  }

  predicate UpstreamFieldsOk(g: Settings, scheme: string, address: string, port: int, weight: int, healthPath: string) {
    && g.platform.parseAddress(address).Some? && AddressAllowed(g.platform.parseAddress(address).value, g.allowlist)
    && scheme in {"http", "https"} && 1 <= port <= 65535 && 1 <= weight <= 10000 && ValidOptionalPath(healthPath)
  }

  predicate EndpointTaken(c: Catalog, except: set<Id>, versionId: Id, address: string, port: int, scheme: string) {
    exists id | id in c.upstreams :: id !in except && c.upstreams[id].versionId == versionId
      && c.upstreams[id].address == address && c.upstreams[id].port == port && c.upstreams[id].scheme == scheme
  }

  function CreateUpstream(
    db: Database, g: Settings, environment: string, id: Id, versionId: Id, scheme: string, address: string, port: int,
    weight: int, healthPath: string): Outcome
  {
    var c := db.catalog;
    if !UpstreamFieldsOk(g, scheme, address, port, weight, healthPath) || !g.unicast(address) then Err(Invalid)
    else if !VersionIn(c, environment, versionId) then Err(NotFound)
    else
      var parsed := g.platform.parseAddress(address).value;
      if id in c.upstreams || EndpointTaken(c, {}, versionId, parsed, port, scheme) then Err(Conflict)
      else Ok(db.(catalog := c.(upstreams := c.upstreams[id :=
        UpstreamRow(versionId, scheme, parsed, port, weight, healthPath, true, 1)])))
  }

  function UpdateUpstream(
    db: Database, g: Settings, environment: string, id: Id, scheme: string, address: string, port: int, weight: int,
    healthPath: string, enabled: bool, expected: int): Outcome
  {
    var c := db.catalog;
    if !UpstreamFieldsOk(g, scheme, address, port, weight, healthPath) || expected < 1 then Err(Invalid)
    else if id !in c.upstreams || !VersionIn(c, environment, c.upstreams[id].versionId) || c.upstreams[id].rowVersion != expected
    then Err(NotFound)
    else
      var row, parsed := c.upstreams[id], g.platform.parseAddress(address).value;
      if EndpointTaken(c, {id}, row.versionId, parsed, port, scheme) then Err(Conflict)
      else Ok(db.(catalog := c.(upstreams := c.upstreams[id :=
        UpstreamRow(row.versionId, scheme, parsed, port, weight, healthPath, enabled, row.rowVersion + 1)])))
  }

  // ---------------------------------------------------- ports and listeners

  predicate Assigned(status: PortStatus) {
    status == PortStatus.Reserved || status == PortStatus.Active || status == PortStatus.Draining
  }

  function UpdatePortStatus(db: Database, environment: string, port: int, status: PortStatus): Outcome {
    var a, slot := db.assignments, (environment, port);
    if Assigned(status) then Err(Invalid)
    else if slot !in a.ports then Err(NotFound)
    else
      var row := a.ports[slot];
      if status == Blocked then
        Ok(db.(assignments := Assignments(
          a.ports[slot := row.(status := Blocked)],
          map id | id in a.listeners :: if row.listener == Some(id) then Disable(a.listeners[id]) else a.listeners[id])))
      else if status == Cooldown then
        if Assigned(row.status) then Err(NotFound)
        else Ok(db.(assignments := a.(ports := a.ports[slot := row.(status := Cooldown)])))
      else if row.listener == None then
        if Assigned(row.status) then Err(NotFound)
        else Ok(db.(assignments := a.(ports := a.ports[slot := PortRow(Available, None)])))
      else
        var id := row.listener.value;
        if id !in a.listeners then Err(Failure)
        else if a.listeners[id].status != Disabled then Err(Conflict)
        else if exists s | s in a.ports :: s != slot && a.ports[s].listener == Some(id) then Err(Invalid)
        else Ok(db.(assignments := Assignments(a.ports[slot := PortRow(Available, None)], a.listeners - {id})))
  }

  function Disable(l: ListenerRow): ListenerRow {
    if l.status == Disabled then l else l.(status := Disabled, rowVersion := l.rowVersion + 1)
  }

  datatype ListenerInput = ListenerInput(
    service: string, version: string, preferredPort: Option<int>, permission: string, methods: seq<string>,
    contentTypes: Option<seq<string>>, regex: string, policy: Policy)

  /** The methods a listener may allow, in the order sort.Strings gives them. */
  const KnownMethods: seq<string> := ["DELETE", "GET", "HEAD", "OPTIONS", "PATCH", "POST", "PUT"]

  function Kept(known: seq<string>, wanted: seq<string>): seq<string> {
    if known == [] then []
    else (if known[0] in wanted then [known[0]] else []) + Kept(known[1..], wanted)
  }

  /** normalizeMethods, on methods already trimmed and upper-cased. */
  function NormalizeMethods(input: seq<string>): Option<seq<string>> {
    var methods := if input == [] then ["GET"] else input;
    if exists m | m in methods :: m !in KnownMethods then None else Some(Kept(KnownMethods, methods))
  }

  function WithPolicyDefaults(p: Policy): Policy {
    p.(threshold := if p.threshold == 0 then 5 else p.threshold, openMs := if p.openMs == 0 then 30000 else p.openMs)
  }

  predicate PolicyInRange(p: Policy, minimumThreshold: int) {
    && 0 <= p.rate <= 1000000 && 0 <= p.burst <= 1000000 && 0 <= p.quota <= 100000000
    && minimumThreshold <= p.threshold <= 1000 && 1000 <= p.openMs <= 3600000
  }

  predicate ListenerInputOk(g: Settings, input: ListenerInput) {
    && NormalizeMethods(input.methods).Some? && input.contentTypes.Some? && RegexOk(input.regex, g.platform)
    && g.permissionName(input.permission) && PolicyInRange(WithPolicyDefaults(input.policy), 1)
  }

  /** The versions an allocation may name: service and version both enabled. */
  function EnabledVersions(c: Catalog, environment: string, service: string, version: string): set<Id> {
    set v | v in c.versions && c.versions[v].version == version && c.versions[v].enabled
      && c.versions[v].serviceId in c.services && c.services[c.versions[v].serviceId].enabled
      && c.services[c.versions[v].serviceId].environment == environment && c.services[c.versions[v].serviceId].name == service
  }

  function AvailablePorts(a: Assignments, environment: string): set<int> {
    set s: Slot | s in a.ports && s.0 == environment && a.ports[s].status == Available :: s.1
  }

  predicate PermissionExists(x: Access, name: string) { exists p | p in x.permissions :: x.permissions[p] == name }

  function AllocateListener(db: Database, g: Settings, environment: string, id: Id, input: ListenerInput): Outcome {
    if !ListenerInputOk(g, input) then Err(Invalid)
    else if environment !in db.environments then Err(NotFound)
    else
      var versions := EnabledVersions(db.catalog, environment, input.service, input.version);
      var free := AvailablePorts(db.assignments, environment);
      if versions == {} then Err(NotFound)
      else if !PermissionExists(db.access, input.permission) then Err(Invalid)
      else if free == {} || (input.preferredPort.Some? && input.preferredPort.value !in free) then Err(NotFound)
      else Occupy(db, environment, id, if input.preferredPort.Some? then input.preferredPort.value else Lowest(free),
                  FirstOf(versions), input)
  }

  /** The partial unique index: at most one listener that is not disabled per environment and port. */
  predicate PortOccupied(a: Assignments, except: set<Id>, environment: string, port: int) {
    exists l | l in a.listeners :: l !in except && a.listeners[l].environment == environment && a.listeners[l].port == port
      && a.listeners[l].status != Disabled
  }

  function NewListener(environment: string, port: int, versionId: Id, input: ListenerInput): ListenerRow
    requires NormalizeMethods(input.methods).Some? && input.contentTypes.Some?
  {
    ListenerRow(environment, versionId, port, input.permission, NormalizeMethods(input.methods).value, input.contentTypes.value,
      input.regex, ListenerStatus.Reserved, None, 1, WithPolicyDefaults(input.policy))
  }

  function Occupy(db: Database, environment: string, id: Id, port: int, versionId: Id, input: ListenerInput): Outcome
    requires NormalizeMethods(input.methods).Some? && input.contentTypes.Some?
  {
    var a := db.assignments;
    if id in a.listeners || PortOccupied(a, {}, environment, port) then Err(Conflict)
    else Ok(db.(assignments := Assignments(
      a.ports[(environment, port) := PortRow(PortStatus.Reserved, Some(id))],
      a.listeners[id := NewListener(environment, port, versionId, input)])))
  }

  function PortStatusOf(status: ListenerStatus): PortStatus {
    match status
    case Reserved => PortStatus.Reserved
    case Active => PortStatus.Active
    case Draining => PortStatus.Draining
    case Disabled => Cooldown
  }

  function UpdateListener(db: Database, environment: string, id: Id, status: ListenerStatus, expected: int): Outcome {
    var a := db.assignments;
    if expected < 1 then Err(Invalid)
    else if id !in a.listeners || a.listeners[id].environment != environment || a.listeners[id].rowVersion != expected
    then Err(NotFound)
    else
      var row := a.listeners[id];
      if status != Disabled && PortOccupied(a, {id}, environment, row.port) then Err(Conflict)
      else Ok(db.(assignments := Assignments(
        map s | s in a.ports ::
          if a.ports[s].listener == Some(id) then a.ports[s].(status := PortStatusOf(status)) else a.ports[s],
        a.listeners[id := row.(status := status, rowVersion := row.rowVersion + 1)])))
  }

  function UpdateListenerPolicies(
    db: Database, g: Settings, environment: string, id: Id, policy: Policy, regex: string, expected: int): Outcome
  {
    var a := db.assignments;
    if !RegexOk(regex, g.platform) || expected < 1 || !PolicyInRange(policy, 0) then Err(Invalid)
    else if id !in a.listeners || a.listeners[id].environment != environment || a.listeners[id].rowVersion != expected
    then Err(NotFound)
    else Ok(db.(assignments := a.(listeners := a.listeners[id :=
      a.listeners[id].(policy := policy, regex := regex, rowVersion := a.listeners[id].rowVersion + 1)])))
  }

  // ---------------------------------------------- permissions and consumers

  function CreatePermission(db: Database, g: Settings, environment: string, id: Id, name: string): Outcome {
    if !g.permissionName(name) then Err(Invalid)
    else if id in db.access.permissions || PermissionExists(db.access, name) then Err(Conflict)
    else if environment !in db.environments then Err(NotFound)
    else Ok(db.(access := db.access.(permissions := db.access.permissions[id := name])))
  }

  predicate PermissionInUse(db: Database, id: Id) {
    || (exists g | g in db.access.grants :: g.1 == id)
    || (id in db.access.permissions
        && exists l | l in db.assignments.listeners :: db.assignments.listeners[l].permission == db.access.permissions[id])
  }

  function DeletePermission(db: Database, environment: string, id: Id): Outcome {
    if id !in db.access.permissions then Err(NotFound)
    else if PermissionInUse(db, id) then Err(Conflict)
    else if environment !in db.environments then Err(NotFound)
    else Ok(db.(access := db.access.(permissions := db.access.permissions - {id})))
  }

  /** assignPermissions: the grants afterwards, or the first rejection. */
  function AssignPermissions(x: Access, g: Settings, consumer: Id, names: seq<string>): Result<Access, Error> {
    if forall n | n in names :: g.permissionName(n) && PermissionExists(x, n) && consumer in x.consumers
    then Ok(x.(grants := x.grants + set p | p in x.permissions && x.permissions[p] in names :: (consumer, p)))
    else Err(Invalid)
  }

  function CreateConsumer(
    db: Database, g: Settings, environment: string, id: Id, name: string, permissions: seq<string>, now: nat): Outcome
  {
    var x := db.access;
    if !g.serviceName(name) then Err(Invalid)
    else if environment !in db.environments then Err(NotFound)
    else if id in x.consumers
      || exists c | c in x.consumers :: x.consumers[c].environment == environment && x.consumers[c].name == name
    then Err(Conflict)
    else
      match AssignPermissions(x.(consumers := x.consumers[id := ConsumerRow(environment, name, true, 1, now)]), g, id, permissions)
      case Err(e) => Err(e)
      case Ok(granted) => Ok(db.(access := granted))
  }

  predicate ConsumerIn(x: Access, environment: string, id: Id) {
    id in x.consumers && x.consumers[id].environment == environment
  }

  function GrantsExcept(grants: set<(Id, Id)>, consumer: Id): set<(Id, Id)> { set g | g in grants && g.0 != consumer }

  function UpdateConsumer(
    db: Database, g: Settings, environment: string, id: Id, enabled: bool, permissions: seq<string>, expected: int, now: nat): Outcome
  {
    var x := db.access;
    if expected < 1 then Err(Invalid)
    else if !ConsumerIn(x, environment, id) || x.consumers[id].rowVersion != expected then Err(NotFound)
    else
      var row := x.consumers[id].(enabled := enabled, rowVersion := x.consumers[id].rowVersion + 1, updatedAt := now);
      match AssignPermissions(
          x.(consumers := x.consumers[id := row], grants := GrantsExcept(x.grants, id)), g, id, permissions)
      case Err(e) => Err(e)
      case Ok(granted) => Ok(db.(access := granted))
  }

  function DeleteConsumer(db: Database, environment: string, id: Id): Outcome {
    var x := db.access;
    if !ConsumerIn(x, environment, id) then Err(NotFound)
    else if exists k | k in x.keys :: x.keys[k].consumer == id then Err(Conflict)
    else Ok(db.(access := x.(consumers := x.consumers - {id}, grants := GrantsExcept(x.grants, id))))
  }

  // -------------------------------------------------------------------- keys

  predicate PrefixTaken(x: Access, prefix: string) { exists k | k in x.keys :: x.keys[k].prefix == prefix }

  function NewKey(
    g: Settings, consumer: Id, name: string, secret: Secret, expiresAt: Option<nat>, rotatedFrom: Option<Id>, now: nat): KeyRow
  {
    KeyRow(consumer, name, secret[..12], g.mac(RawKey(secret)), expiresAt, None, rotatedFrom, now)
  }

  function IssueKey(
    db: Database, g: Settings, environment: string, consumer: Id, id: Id, secret: Secret, name: string,
    permissions: seq<string>, expiresAt: Option<nat>, rotatedFrom: Option<Id>, now: nat): Outcome
  {
    if name == "" || (expiresAt.Some? && expiresAt.value <= now) then Err(Invalid)
    else
      match AssignPermissions(db.access, g, consumer, permissions)
      case Err(e) => Err(e)
      case Ok(x) =>
        if !ConsumerIn(x, environment, consumer) || !x.consumers[consumer].enabled then Err(NotFound)
        else if id in x.keys || PrefixTaken(x, secret[..12]) then Err(Conflict)
        else if rotatedFrom.Some? && rotatedFrom.value !in x.keys then Err(Invalid)
        else Ok(db.(access := x.(keys := x.keys[id := NewKey(g, consumer, name, secret, expiresAt, rotatedFrom, now)])))
  }

  predicate KeyIn(x: Access, environment: string, id: Id) {
    id in x.keys && ConsumerIn(x, environment, x.keys[id].consumer)
  }

  function RotateKey(
    db: Database, g: Settings, environment: string, id: Id, newId: Id, secret: Secret, now: nat): Outcome {
    var x := db.access;
    if !KeyIn(x, environment, id) then Err(NotFound)
    else if x.keys[id].revokedAt.Some? then Err(Conflict)
    else if newId in x.keys || PrefixTaken(x, secret[..12]) then Err(Conflict)
    else
      var row := x.keys[id];
      Ok(db.(access := x.(keys := x.keys
        [newId := NewKey(g, row.consumer, row.name + " rotation", secret, row.expiresAt, Some(id), now)]
        [id := row.(revokedAt := Some(now))])))
  }

  function RevokeKey(db: Database, environment: string, id: Id, now: nat): Outcome {
    var x := db.access;
    if !KeyIn(x, environment, id) || x.keys[id].revokedAt.Some? then Err(NotFound)
    else Ok(db.(access := x.(keys := x.keys[id := x.keys[id].(revokedAt := Some(now))])))
  }

  // ---------------------------------------------------------- configurations

  /** ORDER BY a text column, ids breaking ties. */
  function ByText(key: map<Id, string>): (Id, Id) -> bool {
    (m: Id, n: Id) => m in key && n in key && (TextBefore(key[m], key[n]) || (key[m] == key[n] && TextBefore(m, n)))
  }

  function ByNumber(key: map<Id, int>): (Id, Id) -> bool {
    (m: Id, n: Id) => m in key && n in key && (key[m] < key[n] || (key[m] == key[n] && TextBefore(m, n)))
  }

  lemma ByTextOrders(key: map<Id, string>)
    ensures OrdersSet(ByText(key), key.Keys)
  {
    forall m, n | m in key && n in key
      ensures m != n ==> ByText(key)(m, n) != ByText(key)(n, m)
      ensures m == n ==> !ByText(key)(m, n)
    {
      TextOrderIsTotal(m, n);
      TextOrderIsTotal(key[m], key[n]);
    }
    forall m, n, o | m in key && n in key && o in key && ByText(key)(m, n) && ByText(key)(n, o) ensures ByText(key)(m, o) {
      if TextBefore(key[m], key[n]) && TextBefore(key[n], key[o]) { TextOrderIsTransitive(key[m], key[n], key[o]); }
      if TextBefore(m, n) && TextBefore(n, o) { TextOrderIsTransitive(m, n, o); }
    }
  }

  lemma ByNumberOrders(key: map<Id, int>)
    ensures OrdersSet(ByNumber(key), key.Keys)
  {
    forall m, n | m in key && n in key
      ensures m != n ==> ByNumber(key)(m, n) != ByNumber(key)(n, m)
      ensures m == n ==> !ByNumber(key)(m, n)
    {
      TextOrderIsTotal(m, n);
    }
    forall m, n, o | m in key && n in key && o in key && ByNumber(key)(m, n) && ByNumber(key)(n, o) ensures ByNumber(key)(m, o) {
      if TextBefore(m, n) && TextBefore(n, o) { TextOrderIsTransitive(m, n, o); }
    }
  }

  function ListedByText(key: map<Id, string>): (r: seq<Id>)
    ensures Ascending(ByText(key), r) && (forall id :: id in r <==> id in key) && |r| == |key|
  {
    ByTextOrders(key);
    Listed(ByText(key), key.Keys)
  }

  function ListedByNumber(key: map<Id, int>): (r: seq<Id>)
    ensures Ascending(ByNumber(key), r) && (forall id :: id in r <==> id in key) && |r| == |key|
  {
    ByNumberOrders(key);
    Listed(ByNumber(key), key.Keys)
  }

  function FirstOf(ids: set<Id>): (id: Id)
    requires ids != {}
    ensures id in ids
  {
    var key := map i | i in ids :: i;
    var r := ListedByText(key);
    SomeListed(ids, r);
    r[0]
  }

  lemma SomeListed(ids: set<Id>, r: seq<Id>)
    requires ids != {} && forall id :: id in r <==> id in ids
    ensures |r| > 0 && r[0] in ids
  {
    var id :| id in ids;
    assert id in r;
    assert r[0] in r;
  }

  function Lowest(ports: set<int>): (port: int)
    requires ports != {}
    ensures port in ports && forall p | p in ports :: port <= p
  {
    var less := (m: int, n: int) => m < n;
    LeastExists(less, ports);
    var port :| port in ports && forall p | p in ports :: p == port || less(port, p);
    port
  }

  function RawServices(ids: seq<Id>, t: map<Id, ServiceRow>): (r: seq<RawService>)
    requires forall id | id in ids :: id in t
    ensures |r| == |ids| && forall i | 0 <= i < |r| :: r[i] == RawService(ids[i], t[ids[i]].enabled)
  {
    seq(|ids|, i requires 0 <= i < |ids| => RawService(ids[i], t[ids[i]].enabled))
  }

  function RawVersionOf(id: Id, v: VersionRow): RawVersion {
    RawVersion(id, v.serviceId, v.healthPath, v.timeoutMs, v.maxBytes, v.enabled)
  }

  function RawVersions(ids: seq<Id>, t: map<Id, VersionRow>): (r: seq<RawVersion>)
    requires forall id | id in ids :: id in t
    ensures |r| == |ids| && forall i | 0 <= i < |r| :: r[i] == RawVersionOf(ids[i], t[ids[i]])
  {
    seq(|ids|, i requires 0 <= i < |ids| => RawVersionOf(ids[i], t[ids[i]]))
  }

  function RawUpstreamOf(id: Id, u: UpstreamRow): RawUpstream {
    RawUpstream(id, u.versionId, u.scheme, u.address, u.port, u.weight, u.healthPath, u.enabled)
  }

  function RawUpstreams(ids: seq<Id>, t: map<Id, UpstreamRow>): (r: seq<RawUpstream>)
    requires forall id | id in ids :: id in t
    ensures |r| == |ids| && forall i | 0 <= i < |r| :: r[i] == RawUpstreamOf(ids[i], t[ids[i]])
  {
    seq(|ids|, i requires 0 <= i < |ids| => RawUpstreamOf(ids[i], t[ids[i]]))
  }

  function RawListenerOf(id: Id, l: ListenerRow): RawListener {
    RawListener(id, l.port, l.versionId, l.permission, l.methods, l.contentTypes, l.regex, l.status, l.policy)
  }

  function RawListeners(ids: seq<Id>, t: map<Id, ListenerRow>): (r: seq<RawListener>)
    requires forall id | id in ids :: id in t
    ensures |r| == |ids| && forall i | 0 <= i < |r| :: r[i] == RawListenerOf(ids[i], t[ids[i]])
  {
    seq(|ids|, i requires 0 <= i < |ids| => RawListenerOf(ids[i], t[ids[i]]))
  }

  predicate UpstreamIn(c: Catalog, environment: string, id: Id) {
    id in c.upstreams && VersionIn(c, environment, c.upstreams[id].versionId)
  }

  /** The JSON document a new draft stores: the environment's rows at this moment. */
  function Capture(db: Database, environment: string): RawSnapshot {
    var c, a := db.catalog, db.assignments;
    RawSnapshot(
      environment,
      RawServices(ListedByText(map s | s in c.services && c.services[s].environment == environment :: c.services[s].name), c.services),
      RawVersions(ListedByText(map v | v in c.versions && VersionIn(c, environment, v) :: v), c.versions),
      RawUpstreams(ListedByText(map u | u in c.upstreams && UpstreamIn(c, environment, u) :: u), c.upstreams),
      RawListeners(ListedByNumber(map l | l in a.listeners && a.listeners[l].environment == environment
        && a.listeners[l].status != Disabled :: a.listeners[l].port), a.listeners))
  }

  function CreateConfiguration(db: Database, environment: string, actor: string): Outcome {
    var k := db.configurations;
    if environment !in db.environments then Err(NotFound)
    else Ok(db.(configurations := k.(
      rows := k.rows[k.nextId := ConfigurationRow(environment, Draft, Capture(db, environment), None, actor)],
      nextId := k.nextId + 1)))
  }

  predicate ListenerPublishable(db: Database, l: ListenerRow) {
    && PermissionExists(db.access, l.permission)
    && exists u | u in db.catalog.upstreams :: db.catalog.upstreams[u].versionId == l.versionId && db.catalog.upstreams[u].enabled
  }

  predicate TablesPublishable(db: Database, environment: string) {
    forall l | l in db.assignments.listeners && db.assignments.listeners[l].environment == environment ::
      ListenerPublishable(db, db.assignments.listeners[l])
  }

  predicate ConfigurationIn(k: Configurations, environment: string, id: nat, status: ConfigurationStatus) {
    id in k.rows && k.rows[id].environment == environment && k.rows[id].status == status
  }

  function ValidateConfiguration(db: Database, environment: string, id: nat): Outcome {
    var k := db.configurations;
    if !TablesPublishable(db, environment) then Err(Invalid)
    else if !ConfigurationIn(k, environment, id, Draft) then Err(NotFound)
    else Ok(db.(configurations := k.(rows := k.rows[id := k.rows[id].(status := Validated)])))
  }

  function ApproveConfiguration(db: Database, environment: string, id: nat, actor: string): Outcome {
    var k := db.configurations;
    if actor == "" || |actor| > 128 then Err(Invalid)
    else if !ConfigurationIn(k, environment, id, Validated) || k.rows[id].createdBy == actor then Err(NotFound)
    else if (id, actor) in k.approvals then Err(Conflict)
    else Ok(db.(configurations := k.(approvals := k.approvals + {(id, actor)})))
  }

  function Approvers(k: Configurations, id: nat): set<string> {
    set p: (nat, string) | p in k.approvals && p.0 == id :: p.1
  }

  function CurrentIds(k: Configurations, environment: string): set<nat> {
    set id | id in k.rows && k.rows[id].environment == environment && k.rows[id].status == Current
  }

  /** MAX(id) FILTER (WHERE status='active'). */
  function ActiveId(k: Configurations, environment: string): Option<nat> {
    var ids := CurrentIds(k, environment);
    if ids == {} then None
    else
      var less := (m: nat, n: nat) => n < m;
      LeastExists(less, ids);
      var id :| id in ids && forall j | j in ids :: j == id || less(id, j);
      Some(id)
  }

  function Supersede(rows: map<nat, ConfigurationRow>, environment: string): map<nat, ConfigurationRow> {
    map id | id in rows ::
      if rows[id].environment == environment && rows[id].status == Current then rows[id].(status := Superseded) else rows[id]
  }

  /** Activation stamps every listener of the environment and turns every reserved listener and port active. */
  function GoLive(a: Assignments, environment: string, id: nat): Assignments {
    Assignments(
      map s: Slot | s in a.ports :: if s.0 == environment && a.ports[s].status == PortStatus.Reserved
        then a.ports[s].(status := PortStatus.Active) else a.ports[s],
      map l | l in a.listeners :: if a.listeners[l].environment == environment
        then a.listeners[l].(configuration := Some(id),
          status := if a.listeners[l].status == ListenerStatus.Reserved then ListenerStatus.Active else a.listeners[l].status)
        else a.listeners[l])
  }

  function ActivateConfiguration(
    db: Database, g: Settings, environment: string, id: nat, expectedActive: Option<nat>): Outcome {
    var k := db.configurations;
    if environment !in db.environments then Err(NotFound)
    else if expectedActive.Some? && ActiveId(k, environment) != expectedActive then Err(Conflict)
    else if g.requiredApprovals > 0
      && (!ConfigurationIn(k, environment, id, Validated) || |Approvers(k, id)| < g.requiredApprovals)
    then Err(Conflict)
    else if !ConfigurationIn(k, environment, id, Validated) then Err(NotFound)
    else Ok(db.(
      configurations := k.(rows := Supersede(k.rows, environment)[id := k.rows[id].(status := Current)]),
      assignments := GoLive(db.assignments, environment, id)))
  }

  function RollbackConfiguration(db: Database, environment: string, source: nat, actor: string): Outcome {
    var k := db.configurations;
    if environment !in db.environments then Err(NotFound)
    else if !ConfigurationIn(k, environment, source, Current) && !ConfigurationIn(k, environment, source, Superseded)
    then Err(NotFound)
    else Ok(db.(configurations := k.(
      rows := Supersede(k.rows, environment)[k.nextId :=
        ConfigurationRow(environment, Current, k.rows[source].snapshot, Some(source), actor)],
      nextId := k.nextId + 1)))
  }

  // ------------------------------------------------------------- every step

  datatype Operation =
    | DoCreateService(id: Id, name: string)
    | DoUpdateService(name: string, enabled: bool, expected: int)
    | DoCreateServiceVersion(id: Id, service: string, version: string, healthPath: string, timeoutMs: int, maxBytes: int)
    | DoUpdateServiceVersion(id: Id, version: string, healthPath: string, timeoutMs: int, maxBytes: int, enabled: bool, expected: int)
    | DoCreateUpstream(id: Id, versionId: Id, scheme: string, address: string, port: int, weight: int, healthPath: string)
    | DoUpdateUpstream(id: Id, scheme: string, address: string, port: int, weight: int, healthPath: string, enabled: bool, expected: int)
    | DoUpdatePortStatus(port: int, portStatus: PortStatus)
    | DoAllocateListener(id: Id, input: ListenerInput)
    | DoUpdateListener(id: Id, status: ListenerStatus, expected: int)
    | DoUpdateListenerPolicies(id: Id, policy: Policy, regex: string, expected: int)
    | DoCreatePermission(id: Id, name: string)
    | DoDeletePermission(id: Id)
    | DoCreateConsumer(id: Id, name: string, permissions: seq<string>)
    | DoUpdateConsumer(id: Id, enabled: bool, permissions: seq<string>, expected: int)
    | DoDeleteConsumer(id: Id)
    | DoIssueKey(id: Id, consumer: Id, secret: Secret, name: string, permissions: seq<string>, expiresAt: Option<nat>)
    | DoRotateKey(id: Id, newId: Id, secret: Secret)
    | DoRevokeKey(id: Id)
    | DoCreateConfiguration(actor: string)
    | DoValidateConfiguration(configuration: nat)
    | DoApproveConfiguration(configuration: nat, actor: string)
    | DoActivateConfiguration(configuration: nat, expectedActive: Option<nat>)
    | DoRollbackConfiguration(configuration: nat, actor: string)
    /** A transaction that drew sequence values and did not commit. */
    | SkipVersionIds(skipped: nat)

  /** One request of the admin handler, which always issues keys without a predecessor. */
  function Apply(db: Database, g: Settings, environment: string, op: Operation, now: nat): Outcome {
    match op
    case DoCreateService(id, name) => CreateService(db, g, environment, id, name)
    case DoUpdateService(name, enabled, expected) => UpdateService(db, environment, name, enabled, expected)
    case DoCreateServiceVersion(id, service, version, path, timeoutMs, maxBytes) =>
      CreateServiceVersion(db, g, environment, id, service, version, path, timeoutMs, maxBytes)
    case DoUpdateServiceVersion(id, version, path, timeoutMs, maxBytes, enabled, expected) =>
      UpdateServiceVersion(db, g, environment, id, version, path, timeoutMs, maxBytes, enabled, expected)
    case DoCreateUpstream(id, versionId, scheme, address, port, weight, path) =>
      CreateUpstream(db, g, environment, id, versionId, scheme, address, port, weight, path)
    case DoUpdateUpstream(id, scheme, address, port, weight, path, enabled, expected) =>
      UpdateUpstream(db, g, environment, id, scheme, address, port, weight, path, enabled, expected)
    case DoUpdatePortStatus(port, status) => UpdatePortStatus(db, environment, port, status)
    case DoAllocateListener(id, input) => AllocateListener(db, g, environment, id, input)
    case DoUpdateListener(id, status, expected) => UpdateListener(db, environment, id, status, expected)
    case DoUpdateListenerPolicies(id, policy, regex, expected) =>
      UpdateListenerPolicies(db, g, environment, id, policy, regex, expected)
    case DoCreatePermission(id, name) => CreatePermission(db, g, environment, id, name)
    case DoDeletePermission(id) => DeletePermission(db, environment, id)
    case DoCreateConsumer(id, name, permissions) => CreateConsumer(db, g, environment, id, name, permissions, now)
    case DoUpdateConsumer(id, enabled, permissions, expected) =>
      UpdateConsumer(db, g, environment, id, enabled, permissions, expected, now)
    case DoDeleteConsumer(id) => DeleteConsumer(db, environment, id)
    case DoIssueKey(id, consumer, secret, name, permissions, expiresAt) =>
      IssueKey(db, g, environment, consumer, id, secret, name, permissions, expiresAt, None, now)
    case DoRotateKey(id, newId, secret) => RotateKey(db, g, environment, id, newId, secret, now)
    case DoRevokeKey(id) => RevokeKey(db, environment, id, now)
    case DoCreateConfiguration(actor) => CreateConfiguration(db, environment, actor)
    case DoValidateConfiguration(version) => ValidateConfiguration(db, environment, version)
    case DoApproveConfiguration(version, actor) => ApproveConfiguration(db, environment, version, actor)
    case DoActivateConfiguration(version, expectedActive) => ActivateConfiguration(db, g, environment, version, expectedActive)
    case DoRollbackConfiguration(version, actor) => RollbackConfiguration(db, environment, version, actor)
    case SkipVersionIds(skipped) =>
      Ok(db.(configurations := db.configurations.(nextId := db.configurations.nextId + skipped)))
  }

  datatype Request = Request(environment: string, op: Operation, now: nat)

  /** withTx: the committed tables are the transaction's, or, when it fails, the old ones. */
  function Next(db: Database, g: Settings, r: Request): Database {
    match Apply(db, g, r.environment, r.op, r.now)
    case Ok(committed) => committed
    case Err(_) => db
  }

  // -------------------------------------------------------- runs from birth

  ghost predicate FreshRow(row: ConfigurationRow) {
    row.status == Current && row.source == None && row.createdBy == "system-bootstrap" && row.snapshot == EmptySnapshot(row.environment)
  }

  /** The tables after the migrations on an empty database: a free inventory and one bootstrap configuration per environment. */
  ghost predicate FreshSchema(db: Database) {
    && db.catalog == Catalog(map[], map[], map[])
    && db.assignments.listeners == map[]
    && (forall s: Slot | s in db.assignments.ports ::
        s.0 in db.environments && 1 <= s.1 <= 65535 && db.assignments.ports[s] == PortRow(Available, None))
    && (forall id | id in db.configurations.rows ::
        1 <= id < db.configurations.nextId && db.configurations.rows[id].environment in db.environments
        && FreshRow(db.configurations.rows[id]))
    && (forall e | e in db.environments :: exists id :: id in db.configurations.rows && db.configurations.rows[id].environment == e)
    && (forall i, j | i in db.configurations.rows && j in db.configurations.rows
        && db.configurations.rows[i].environment == db.configurations.rows[j].environment :: i == j)
    && db.configurations.nextId >= 1
    && db.configurations.approvals == {}
    && db.access == Access(map[], map[], {}, map[])
  }

  /** The successive committed states of a run of requests. */
  ghost predicate IsRun(history: seq<Database>, g: Settings, requests: seq<Request>) {
    && |history| == |requests| + 1
    && FreshSchema(history[0])
    && forall i | 0 <= i < |requests| :: StepsAt(history, g, requests, i)
  }

  ghost predicate StepsAt(history: seq<Database>, g: Settings, requests: seq<Request>, i: nat)
    requires i < |requests| < |history|
  {
    history[i + 1] == Next(history[i], g, requests[i])
  }

  lemma RunStarts(history: seq<Database>, g: Settings, requests: seq<Request>)
    requires IsRun(history, g, requests)
    ensures |history| == |requests| + 1 && FreshSchema(history[0])
  {
  }

  lemma RunStep(history: seq<Database>, g: Settings, requests: seq<Request>, n: nat)
    requires IsRun(history, g, requests) && 0 < n < |history|
    ensures |history| == |requests| + 1 && history[n] == Next(history[n - 1], g, requests[n - 1])
  {
    assert StepsAt(history, g, requests, n - 1);
  }
}
