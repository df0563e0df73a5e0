/** Facts about catalog, listener and access rows that hold in every reachable
    state: references resolve and every value is one the snapshot compiler takes. */
module TableRules {
  import opened Prelude
  import opened Tables
  import opened SnapshotCompiler
  import opened ControlPlane
  import opened Frames
  import PortLifecycle

  /** What is asked of the libraries: printing an address and parsing it again changes nothing, and a MAC is 32 bytes. */
  ghost predicate Sane(g: Settings) {
    && (forall t :: g.platform.parseAddress(t).Some? ==>
        g.platform.parseAddress(g.platform.parseAddress(t).value) == g.platform.parseAddress(t))
    && (forall t :: |g.mac(t)| == 32)
  }

  // ------------------------------------------------------------- the catalog

  ghost predicate VersionRowOk(c: Catalog, v: VersionRow) {
    v.serviceId in c.services && HasPrefix(v.healthPath, "/") && v.timeoutMs > 0 && v.maxBytes > 0
  }

  ghost predicate UpstreamRowOk(c: Catalog, g: Settings, u: UpstreamRow) {
    && u.versionId in c.versions && u.scheme in {"http", "https"} && 1 <= u.port <= 65535 && u.weight >= 1
    && g.platform.parseAddress(u.address) == Some(u.address) && AddressAllowed(u.address, g.allowlist)
    && (u.healthPath == "" || HasPrefix(u.healthPath, "/"))
  }

  ghost predicate CatalogSound(c: Catalog, g: Settings) {
    && (forall v | v in c.versions :: VersionRowOk(c, c.versions[v]))
    && (forall u | u in c.upstreams :: UpstreamRowOk(c, g, c.upstreams[u]))
  }

  /** Rows of the catalog are never removed and never move to another parent. */
  ghost predicate CatalogGrows(a: Catalog, b: Catalog) {
    && (forall s | s in a.services :: s in b.services && b.services[s].environment == a.services[s].environment)
    && (forall v | v in a.versions :: v in b.versions && b.versions[v].serviceId == a.versions[v].serviceId)
  }

  lemma ServiceRequestKeeps(db: Database, g: Settings, r: Request)
    requires CatalogSound(db.catalog, g) && (r.op.DoCreateService? || r.op.DoUpdateService?)
    ensures CatalogSound(Next(db, g, r).catalog, g) && CatalogGrows(db.catalog, Next(db, g, r).catalog)
  {
    var c := Next(db, g, r).catalog;
    assert c == db.catalog.(services := c.services);
    assert forall s | s in db.catalog.services :: s in c.services;
    forall v | v in c.versions ensures VersionRowOk(c, c.versions[v]) { assert VersionRowOk(db.catalog, c.versions[v]); }
    forall u | u in c.upstreams ensures UpstreamRowOk(c, g, c.upstreams[u]) { assert UpstreamRowOk(db.catalog, g, c.upstreams[u]); }
  }

  lemma AddingAVersionKeeps(c: Catalog, d: Catalog, g: Settings, id: Id)
    requires CatalogSound(c, g) && id in d.versions && d == c.(versions := c.versions[id := d.versions[id]])
    requires VersionRowOk(c, d.versions[id])
    requires id in c.versions ==> d.versions[id].serviceId == c.versions[id].serviceId
    ensures CatalogSound(d, g) && CatalogGrows(c, d)
  {
    forall v | v in d.versions ensures VersionRowOk(d, d.versions[v]) {
      if v != id { assert VersionRowOk(c, c.versions[v]); }
    }
    forall u | u in d.upstreams ensures UpstreamRowOk(d, g, d.upstreams[u]) { assert UpstreamRowOk(c, g, c.upstreams[u]); }
  }

  lemma VersionRequestKeeps(db: Database, g: Settings, r: Request)
    requires CatalogSound(db.catalog, g) && (r.op.DoCreateServiceVersion? || r.op.DoUpdateServiceVersion?)
    ensures CatalogSound(Next(db, g, r).catalog, g) && CatalogGrows(db.catalog, Next(db, g, r).catalog)
  {
    hide LabelTaken, UpstreamRowOk;
    var c, d := db.catalog, Next(db, g, r).catalog;
    if d != c {
      if r.op.DoUpdateServiceVersion? { assert VersionRowOk(c, c.versions[r.op.id]); }
      AddingAVersionKeeps(c, d, g, r.op.id);
    }
  }

  lemma AddingAnUpstreamKeeps(c: Catalog, d: Catalog, g: Settings, id: Id)
    requires CatalogSound(c, g) && id in d.upstreams && d == c.(upstreams := c.upstreams[id := d.upstreams[id]])
    requires UpstreamRowOk(c, g, d.upstreams[id])
    ensures CatalogSound(d, g) && CatalogGrows(c, d)
  {
    forall v | v in d.versions ensures VersionRowOk(d, d.versions[v]) { assert VersionRowOk(c, c.versions[v]); }
    forall u | u in d.upstreams ensures UpstreamRowOk(d, g, d.upstreams[u]) {
      if u != id { assert UpstreamRowOk(c, g, c.upstreams[u]); }
    }
  }

  lemma UpstreamRequestKeeps(db: Database, g: Settings, r: Request)
    requires Sane(g) && CatalogSound(db.catalog, g) && (r.op.DoCreateUpstream? || r.op.DoUpdateUpstream?)
    ensures CatalogSound(Next(db, g, r).catalog, g) && CatalogGrows(db.catalog, Next(db, g, r).catalog)
  {
    hide EndpointTaken, VersionRowOk;
    var c, d := db.catalog, Next(db, g, r).catalog;
    if d != c {
      if r.op.DoUpdateUpstream? { assert UpstreamRowOk(c, g, c.upstreams[r.op.id]); }
      AddingAnUpstreamKeeps(c, d, g, r.op.id);
    }
  }

  lemma CatalogKeeps(db: Database, g: Settings, r: Request)
    requires Sane(g) && CatalogSound(db.catalog, g)
    ensures CatalogSound(Next(db, g, r).catalog, g) && CatalogGrows(db.catalog, Next(db, g, r).catalog)
  {
    EveryRequestHasAKind(r.op);
    if r.op.DoCreateService? || r.op.DoUpdateService? { ServiceRequestKeeps(db, g, r); }
    else if r.op.DoCreateServiceVersion? || r.op.DoUpdateServiceVersion? { VersionRequestKeeps(db, g, r); }
    else if r.op.DoCreateUpstream? || r.op.DoUpdateUpstream? { UpstreamRequestKeeps(db, g, r); }
    else if AssignmentRequest(r.op) { AssignmentFrame(db, g, r); }
    else if AccessRequest(r.op) { AccessFrame(db, g, r); }
    else { ConfigurationFrame(db, g, r); }
  }

  // ----------------------------------------------------------------- access

  ghost predicate KeyRowOk(x: Access, k: KeyRow) { k.consumer in x.consumers && |k.prefix| == 12 && |k.verifier| == 32 }

  ghost predicate UniqueNames(x: Access) {
    forall p, q | p in x.permissions && q in x.permissions && x.permissions[p] == x.permissions[q] :: p == q
  }

  ghost predicate UniquePrefixes(x: Access) {
    forall j, k | j in x.keys && k in x.keys && x.keys[j].prefix == x.keys[k].prefix :: j == k
  }

  /** UNIQUE(permissions.name), UNIQUE(api_keys.key_prefix) and the foreign keys of grants and keys. */
  ghost predicate AccessSound(x: Access) {
    && UniqueNames(x) && UniquePrefixes(x)
    && (forall g | g in x.grants :: g.0 in x.consumers && g.1 in x.permissions)
    && (forall k | k in x.keys :: KeyRowOk(x, x.keys[k]))
  }

  lemma AssigningKeeps(x: Access, g: Settings, consumer: Id, names: seq<string>)
    requires AccessSound(x)
    ensures var r := AssignPermissions(x, g, consumer, names); r.Ok? ==> AccessSound(r.value)
  {
    var r := AssignPermissions(x, g, consumer, names);
    if r.Ok? {
      if p :| p in x.permissions && x.permissions[p] in names {
        assert consumer in x.consumers;
      }
      forall k | k in r.value.keys ensures KeyRowOk(r.value, r.value.keys[k]) { assert KeyRowOk(x, x.keys[k]); }
    }
  }

  lemma PermissionRequestKeeps(db: Database, g: Settings, r: Request)
    requires AccessSound(db.access) && (r.op.DoCreatePermission? || r.op.DoDeletePermission?)
    ensures AccessSound(Next(db, g, r).access)
  {
    var x := Next(db, g, r).access;
    forall k | k in x.keys ensures KeyRowOk(x, x.keys[k]) { assert KeyRowOk(db.access, db.access.keys[k]); }
  }

  /** Keys and permissions as before, no key's consumer gone, and no grant whose consumer is. */
  lemma ConsumersChange(x: Access, y: Access)
    requires AccessSound(x) && y.permissions == x.permissions && y.keys == x.keys && y.grants <= x.grants
    requires forall k | k in x.keys :: x.keys[k].consumer in y.consumers
    requires forall p | p in y.grants :: p.0 in y.consumers
    ensures AccessSound(y)
  {
    forall k | k in y.keys ensures KeyRowOk(y, y.keys[k]) { assert KeyRowOk(x, x.keys[k]); }
  }

  lemma KeysHaveConsumers(x: Access)
    requires AccessSound(x)
    ensures forall k | k in x.keys :: x.keys[k].consumer in x.consumers
  {
    forall k | k in x.keys ensures x.keys[k].consumer in x.consumers { assert KeyRowOk(x, x.keys[k]); }
  }

  lemma ConsumerCreationKeeps(
    db: Database, g: Settings, environment: string, id: Id, name: string, permissions: seq<string>, now: nat)
    requires AccessSound(db.access)
    ensures var r := CreateConsumer(db, g, environment, id, name, permissions, now); r.Ok? ==> AccessSound(r.value.access)
  {
    hide AssignPermissions, UniqueNames, UniquePrefixes, KeyRowOk;
    var x := db.access;
    if id !in x.consumers {
      KeysHaveConsumers(x);
      var y := x.(consumers := x.consumers[id := ConsumerRow(environment, name, true, 1, now)]);
      ConsumersChange(x, y);
      AssigningKeeps(y, g, id, permissions);
    }
  }

  lemma ConsumerUpdateKeeps(
    db: Database, g: Settings, environment: string, id: Id, enabled: bool, permissions: seq<string>, expected: int, now: nat)
    requires AccessSound(db.access)
    ensures var r := UpdateConsumer(db, g, environment, id, enabled, permissions, expected, now); r.Ok? ==> AccessSound(r.value.access)
  {
    hide AssignPermissions, UniqueNames, UniquePrefixes, KeyRowOk;
    var x := db.access;
    if id in x.consumers {
      KeysHaveConsumers(x);
      var row := x.consumers[id].(enabled := enabled, rowVersion := x.consumers[id].rowVersion + 1, updatedAt := now);
      var y := x.(consumers := x.consumers[id := row], grants := GrantsExcept(x.grants, id));
      ConsumersChange(x, y);
      AssigningKeeps(y, g, id, permissions);
    }
  }

  lemma ConsumerDeletionKeeps(db: Database, environment: string, id: Id)
    requires AccessSound(db.access)
    ensures var r := DeleteConsumer(db, environment, id); r.Ok? ==> AccessSound(r.value.access)
  {
    hide UniqueNames, UniquePrefixes, KeyRowOk;
    var r := DeleteConsumer(db, environment, id);
    if r.Ok? {
      KeysHaveConsumers(db.access);
      ConsumersChange(db.access, r.value.access);
    }
  }

  lemma ConsumerRequestKeeps(db: Database, g: Settings, r: Request)
    requires AccessSound(db.access) && (r.op.DoCreateConsumer? || r.op.DoUpdateConsumer? || r.op.DoDeleteConsumer?)
    ensures AccessSound(Next(db, g, r).access)
  {
    hide AccessSound, CreateConsumer, UpdateConsumer, DeleteConsumer;
    match r.op
    case DoCreateConsumer(id, name, permissions) => ConsumerCreationKeeps(db, g, r.environment, id, name, permissions, r.now);
    case DoUpdateConsumer(id, enabled, permissions, expected) =>
      ConsumerUpdateKeeps(db, g, r.environment, id, enabled, permissions, expected, r.now);
    case DoDeleteConsumer(id) => ConsumerDeletionKeeps(db, r.environment, id);
  }

  lemma IssuingKeeps(db: Database, g: Settings, r: Request)
    requires Sane(g) && AccessSound(db.access) && r.op.DoIssueKey?
    ensures AccessSound(Next(db, g, r).access)
  {
    AssigningKeeps(db.access, g, r.op.consumer, r.op.permissions);
    var granted := AssignPermissions(db.access, g, r.op.consumer, r.op.permissions);
    var y := Next(db, g, r).access;
    if granted.Ok? && y != db.access {
      AddingAKeyKeeps(granted.value, y, r.op.id);
    }
  }

  lemma RotatingKeeps(db: Database, g: Settings, r: Request)
    requires Sane(g) && AccessSound(db.access) && r.op.DoRotateKey?
    ensures AccessSound(Next(db, g, r).access)
  {
    hide UniqueNames, UniquePrefixes;
    var x, y := db.access, Next(db, g, r).access;
    if y != x {
      assert KeyRowOk(x, x.keys[r.op.id]);
      var z := x.(keys := x.keys[r.op.newId := y.keys[r.op.newId]]);
      AddingAKeyKeeps(x, z, r.op.newId);
      RevokingOneKeeps(z, r.op.id, r.now);
    }
  }

  lemma RevokingOneKeeps(x: Access, id: Id, now: nat)
    requires AccessSound(x) && id in x.keys
    ensures AccessSound(x.(keys := x.keys[id := x.keys[id].(revokedAt := Some(now))]))
  {
    var y := x.(keys := x.keys[id := x.keys[id].(revokedAt := Some(now))]);
    forall k | k in y.keys ensures KeyRowOk(y, y.keys[k]) { assert KeyRowOk(x, x.keys[k]); }
  }

  lemma RevokingKeeps(db: Database, g: Settings, r: Request)
    requires AccessSound(db.access) && r.op.DoRevokeKey?
    ensures AccessSound(Next(db, g, r).access)
  {
    hide AccessSound;
    if r.op.id in db.access.keys { RevokingOneKeeps(db.access, r.op.id, r.now); }
  }

  lemma AddingAKeyKeeps(x: Access, y: Access, id: Id)
    requires AccessSound(x) && id in y.keys && id !in x.keys
    requires y == x.(keys := x.keys[id := y.keys[id]])
    requires KeyRowOk(x, y.keys[id]) && !PrefixTaken(x, y.keys[id].prefix)
    ensures AccessSound(y)
  {
    forall k | k in y.keys ensures KeyRowOk(y, y.keys[k]) {
      if k != id { assert KeyRowOk(x, x.keys[k]); }
    }
  }

  lemma KeyRequestKeeps(db: Database, g: Settings, r: Request)
    requires Sane(g) && AccessSound(db.access) && (r.op.DoIssueKey? || r.op.DoRotateKey? || r.op.DoRevokeKey?)
    ensures AccessSound(Next(db, g, r).access)
  {
    if r.op.DoIssueKey? { IssuingKeeps(db, g, r); }
    else if r.op.DoRotateKey? { RotatingKeeps(db, g, r); }
    else { RevokingKeeps(db, g, r); }
  }

  lemma AccessKeeps(db: Database, g: Settings, r: Request)
    requires Sane(g) && AccessSound(db.access)
    ensures AccessSound(Next(db, g, r).access)
  {
    EveryRequestHasAKind(r.op);
    if r.op.DoCreatePermission? || r.op.DoDeletePermission? { PermissionRequestKeeps(db, g, r); }
    else if r.op.DoCreateConsumer? || r.op.DoUpdateConsumer? || r.op.DoDeleteConsumer? { ConsumerRequestKeeps(db, g, r); }
    else if r.op.DoIssueKey? || r.op.DoRotateKey? || r.op.DoRevokeKey? { KeyRequestKeeps(db, g, r); }
    else if CatalogRequest(r.op) { CatalogFrame(db, g, r); }
    else if AssignmentRequest(r.op) { AssignmentFrame(db, g, r); }
    else { ConfigurationFrame(db, g, r); }
  }

  // --------------------------------------------------------------- listeners

  ghost predicate ListenerRowOk(c: Catalog, x: Access, g: Settings, l: ListenerRow) {
    && VersionIn(c, l.environment, l.versionId) && PermissionExists(x, l.permission)
    && l.methods != [] && RegexOk(l.regex, g.platform) && PolicyOk(l.policy)
  }

  ghost predicate ListenersSound(db: Database, g: Settings) {
    forall l | l in db.assignments.listeners :: ListenerRowOk(db.catalog, db.access, g, db.assignments.listeners[l])
  }

  lemma {:induction false} KeptMethods(known: seq<string>, wanted: seq<string>, m: string)
    requires m in known && m in wanted
    ensures m in Kept(known, wanted)
  {
    if known[0] != m { KeptMethods(known[1..], wanted, m); }
  }

  lemma NormalizedMethodsExist(input: seq<string>)
    requires NormalizeMethods(input).Some?
    ensures NormalizeMethods(input).value != []
  {
    var m := if input == [] then "GET" else input[0];
    KeptMethods(KnownMethods, if input == [] then ["GET"] else input, m);
  }

  lemma NewListenerIsSound(db: Database, g: Settings, environment: string, id: Id, input: ListenerInput)
    requires ListenersSound(db, g)
    ensures var r := AllocateListener(db, g, environment, id, input); r.Ok? ==> ListenersSound(r.value, g)
  {
    var r := AllocateListener(db, g, environment, id, input);
    if r.Ok? {
      NormalizedMethodsExist(input.methods);
      var versions := EnabledVersions(db.catalog, environment, input.service, input.version);
      assert FirstOf(versions) in versions;
      var row := r.value.assignments.listeners[id];
      assert ListenerRowOk(db.catalog, db.access, g, row);
    }
  }

  lemma PortStatusKeepsListeners(db: Database, g: Settings, environment: string, port: int, status: PortStatus)
    requires ListenersSound(db, g)
    ensures var r := UpdatePortStatus(db, environment, port, status); r.Ok? ==> ListenersSound(r.value, g)
  {
    var r := UpdatePortStatus(db, environment, port, status);
    if r.Ok? {
      forall l | l in r.value.assignments.listeners
        ensures ListenerRowOk(db.catalog, db.access, g, r.value.assignments.listeners[l])
      {
        assert ListenerRowOk(db.catalog, db.access, g, db.assignments.listeners[l]);
      }
    }
  }

  lemma GoLiveKeepsListeners(db: Database, g: Settings, r: Request)
    requires ListenersSound(db, g) && r.op.DoActivateConfiguration?
    ensures ListenersSound(Next(db, g, r), g)
  {
    ConfigurationFrame(db, g, r);
    var b := Next(db, g, r).assignments.listeners;
    forall l | l in b ensures ListenerRowOk(db.catalog, db.access, g, b[l]) {
      assert ListenerRowOk(db.catalog, db.access, g, db.assignments.listeners[l]);
    }
  }

  lemma ListenerUpdatesKeep(db: Database, g: Settings, r: Request)
    requires ListenersSound(db, g) && (r.op.DoUpdateListener? || r.op.DoUpdateListenerPolicies?)
    ensures ListenersSound(Next(db, g, r), g)
  {
    hide PortOccupied, VersionIn, PermissionExists, RegexOk;
    var id := r.op.id;
    if id in db.assignments.listeners { assert ListenerRowOk(db.catalog, db.access, g, db.assignments.listeners[id]); }
  }

  lemma AssignmentRequestKeepsRows(db: Database, g: Settings, r: Request)
    requires ListenersSound(db, g) && AssignmentRequest(r.op)
    ensures ListenersSound(Next(db, g, r), g)
  {
    hide ListenersSound, UpdatePortStatus, AllocateListener;
    match r.op
    case DoUpdatePortStatus(port, status) => PortStatusKeepsListeners(db, g, r.environment, port, status);
    case DoAllocateListener(id, input) => NewListenerIsSound(db, g, r.environment, id, input);
    case DoUpdateListener(_, _, _) => ListenerUpdatesKeep(db, g, r);
    case DoUpdateListenerPolicies(_, _, _, _) => ListenerUpdatesKeep(db, g, r);
  }

  lemma PermissionsOutliveListeners(db: Database, g: Settings, r: Request, l: ListenerRow)
    requires AccessRequest(r.op) && PermissionExists(db.access, l.permission)
    requires exists id :: id in db.assignments.listeners && db.assignments.listeners[id] == l
    ensures PermissionExists(Next(db, g, r).access, l.permission)
  {
    var p :| p in db.access.permissions && db.access.permissions[p] == l.permission;
    assert p in Next(db, g, r).access.permissions && Next(db, g, r).access.permissions[p] == l.permission;
  }

  lemma ListenersKeep(db: Database, g: Settings, r: Request)
    requires Sane(g) && CatalogSound(db.catalog, g) && ListenersSound(db, g)
    ensures ListenersSound(Next(db, g, r), g)
  {
    EveryRequestHasAKind(r.op);
    var n := Next(db, g, r);
    var a, b := db.assignments.listeners, n.assignments.listeners;
    if AssignmentRequest(r.op) {
      AssignmentRequestKeepsRows(db, g, r);
    } else if CatalogRequest(r.op) {
      CatalogFrame(db, g, r);
      CatalogKeeps(db, g, r);
      forall l | l in b ensures ListenerRowOk(n.catalog, n.access, g, b[l]) { assert ListenerRowOk(db.catalog, db.access, g, a[l]); }
    } else if AccessRequest(r.op) {
      AccessFrame(db, g, r);
      forall l | l in b ensures ListenerRowOk(n.catalog, n.access, g, b[l]) {
        assert ListenerRowOk(db.catalog, db.access, g, a[l]);
        PermissionsOutliveListeners(db, g, r, a[l]);
      }
    } else if r.op.DoActivateConfiguration? {
      GoLiveKeepsListeners(db, g, r);
    } else {
      ConfigurationFrame(db, g, r);
    }
  }

  // --------------------------------------------------------------- over runs

  ghost predicate RowsSound(db: Database, g: Settings) {
    && CatalogSound(db.catalog, g) && AccessSound(db.access) && ListenersSound(db, g)
    && PortLifecycle.Consistent(db.assignments)
    && PortsInRange(db.assignments.ports.Keys)
  }

  lemma FreshRowsAreSound(db: Database, g: Settings)
    requires FreshSchema(db)
    ensures RowsSound(db, g)
  {
  }

  ghost predicate PortsInRange(ports: set<Slot>) { forall s | s in ports :: 1 <= s.1 <= 65535 }

  lemma RowsFromParts(db: Database, g: Settings)
    ensures RowsSound(db, g) <==>
      && CatalogSound(db.catalog, g) && AccessSound(db.access) && ListenersSound(db, g)
      && PortLifecycle.Consistent(db.assignments) && PortsInRange(db.assignments.ports.Keys)
  {
  }

  lemma EveryRequestKeepsRows(db: Database, g: Settings, r: Request)
    requires Sane(g) && RowsSound(db, g)
    ensures RowsSound(Next(db, g, r), g)
  {
    hide *;
    RowsFromParts(db, g);
    CatalogKeeps(db, g, r);
    AccessKeeps(db, g, r);
    ListenersKeep(db, g, r);
    PortLifecycle.EveryRequestKeeps(db, g, r);
    RowsFromParts(Next(db, g, r), g);
  }

  lemma {:induction false} AlwaysRowsSound(history: seq<Database>, g: Settings, requests: seq<Request>, n: nat)
    requires Sane(g) && IsRun(history, g, requests) && n < |history|
    ensures RowsSound(history[n], g)
  {
    hide *;
    RunStarts(history, g, requests);
    if n == 0 {
      FreshRowsAreSound(history[0], g);
    } else {
      RunStep(history, g, requests, n);
      AlwaysRowsSound(history, g, requests, n - 1);
      EveryRequestKeepsRows(history[n - 1], g, requests[n - 1]);
    }
  }
}
