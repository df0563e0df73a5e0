/** internal/dataplane/runtime.go, Load: the rows one repeatable-read transaction
    reads for a replica, and the snapshot built from them. */
module Loading {
  import opened Prelude
  import opened Tables
  import opened SnapshotCompiler
  import opened SnapshotMeaning
  import opened ControlPlane
  import opened TableRules

  predicate Unexpired(expiresAt: Option<nat>, now: nat) { expiresAt == None || now < expiresAt.value }

  /** The keys Load selects: of an enabled consumer of the environment, not revoked, not expired. */
  predicate Selected(x: Access, environment: string, now: nat, k: Id) {
    KeyIn(x, environment, k) && x.consumers[x.keys[k].consumer].enabled && x.keys[k].revokedAt == None
    && Unexpired(x.keys[k].expiresAt, now)
  }

  /** In the schema's own columns: the consumer's row is of the environment and enabled, the key was never revoked, and it has no
      expiry or one still to come. */
  ghost predicate InForce(x: Access, environment: string, k: Id, now: nat) {
    && k in x.keys && x.keys[k].consumer in x.consumers
    && x.consumers[x.keys[k].consumer].environment == environment && x.consumers[x.keys[k].consumer].enabled
    && x.keys[k].revokedAt == None
    && (x.keys[k].expiresAt.Some? ==> now < x.keys[k].expiresAt.value)
  }

  /** The name is granted to the consumer. */
  ghost predicate Granted(x: Access, consumer: Id, name: string) {
    exists p :: (consumer, p) in x.grants && p in x.permissions && x.permissions[p] == name
  }

  function NamesOf(ids: seq<Id>, permissions: map<Id, string>): (r: seq<string>)
    requires forall id | id in ids :: id in permissions
    ensures |r| == |ids| && forall i | 0 <= i < |r| :: r[i] == permissions[ids[i]]
  {
    seq(|ids|, i requires 0 <= i < |ids| => permissions[ids[i]])
  }

  function GrantedIds(x: Access, consumer: Id): seq<Id> {
    ListedByText(map p | p in x.permissions && (consumer, p) in x.grants :: p)
  }

  /** array_agg of the permission names of a consumer. */
  function GrantedNames(x: Access, consumer: Id): seq<string> { NamesOf(GrantedIds(x, consumer), x.permissions) }

  function RecordOf(x: Access, k: Id): CredentialRecord
    requires k in x.keys
  {
    var row := x.keys[k];
    CredentialRecord(k, row.consumer, row.prefix, row.verifier, row.expiresAt, GrantedNames(x, row.consumer))
  }

  function SelectedIds(x: Access, environment: string, now: nat): seq<Id> {
    ListedByText(map k | k in x.keys && Selected(x, environment, now, k) :: k)
  }

  function Records(x: Access, environment: string, now: nat): (r: seq<CredentialRecord>)
    ensures |r| == |SelectedIds(x, environment, now)|
    ensures forall i | 0 <= i < |r| ::
      SelectedIds(x, environment, now)[i] in x.keys && r[i] == RecordOf(x, SelectedIds(x, environment, now)[i])
  {
    var ids := SelectedIds(x, environment, now);
    seq(|ids|, i requires 0 <= i < |ids| => assert ids[i] in ids; RecordOf(x, ids[i]))
  }

  /** Load against one committed state at time now. */
  function LoadedSnapshot(db: Database, g: Settings, environment: string, now: nat): Option<Snapshot> {
    match ActiveId(db.configurations, environment)
    case None => None
    case Some(id) =>
      match Build(id, environment, db.configurations.rows[id].snapshot, Records(db.access, environment, now), g.platform, g.allowlist)
      case Err(_) => None
      case Ok(s) => Some(s)
  }

  // ------------------------------------------------------- what is selected

  lemma AscendingIsDistinct(less: (Id, Id) -> bool, s: set<Id>, r: seq<Id>)
    requires OrdersSet(less, s) && Ascending(less, r) && forall id | id in r :: id in s
    ensures forall i, j | 0 <= i < j < |r| :: r[i] != r[j]
  {
    forall i, j | 0 <= i < j < |r| ensures r[i] != r[j] { assert r[i] in s; }
  }

  lemma ListedTextIsDistinct(key: map<Id, string>)
    ensures var r := ListedByText(key); forall i, j | 0 <= i < j < |r| :: r[i] != r[j]
  {
    ByTextOrders(key);
    AscendingIsDistinct(ByText(key), key.Keys, ListedByText(key));
  }

  lemma ListedNumberIsDistinct(key: map<Id, int>)
    ensures var r := ListedByNumber(key); forall i, j | 0 <= i < j < |r| :: r[i] != r[j]
  {
    ByNumberOrders(key);
    AscendingIsDistinct(ByNumber(key), key.Keys, ListedByNumber(key));
  }

  lemma SelectedAreInForce(x: Access, environment: string, now: nat)
    ensures forall k :: Selected(x, environment, now, k) <==> InForce(x, environment, k, now)
  {
  }

  lemma RecordsAreSelectedKeys(x: Access, environment: string, now: nat, c: CredentialRecord)
    ensures c in Records(x, environment, now) <==> c.id in x.keys && Selected(x, environment, now, c.id) && c == RecordOf(x, c.id)
  {
    var r, ids := Records(x, environment, now), SelectedIds(x, environment, now);
    if c in r {
      var i :| 0 <= i < |r| && r[i] == c;
      assert ids[i] in ids;
    }
    if c.id in x.keys && Selected(x, environment, now, c.id) && c == RecordOf(x, c.id) {
      assert c.id in ids;
      var i :| 0 <= i < |ids| && ids[i] == c.id;
      assert r[i] == c;
    }
  }

  lemma RecordsAreSound(x: Access, environment: string, now: nat)
    requires AccessSound(x)
    ensures var r := Records(x, environment, now);
      DistinctIds(r, (c: CredentialRecord) => c.prefix) && forall c | c in r :: CredentialOk(c)
  {
    var r, ids := Records(x, environment, now), SelectedIds(x, environment, now);
    ListedTextIsDistinct(map k | k in x.keys && Selected(x, environment, now, k) :: k);
    forall i, j | 0 <= i < j < |r| ensures r[i].prefix != r[j].prefix {
      assert ids[i] != ids[j];
    }
    forall c | c in r ensures CredentialOk(c) {
      RecordsAreSelectedKeys(x, environment, now, c);
      assert KeyRowOk(x, x.keys[c.id]);
    }
  }

  lemma GrantedNamesMean(x: Access, consumer: Id, name: string)
    ensures name in GrantedNames(x, consumer) <==> exists p :: (consumer, p) in x.grants && p in x.permissions && x.permissions[p] == name
  {
    var ids, names := GrantedIds(x, consumer), GrantedNames(x, consumer);
    if name in names {
      var i :| 0 <= i < |names| && names[i] == name;
      assert ids[i] in ids;
    }
    if p :| (consumer, p) in x.grants && p in x.permissions && x.permissions[p] == name {
      assert p in ids;
      var i :| 0 <= i < |ids| && ids[i] == p;
      assert names[i] == name;
    }
  }

  /** The record of key k says what its row says, and names what its consumer is granted. */
  ghost predicate RecordSays(x: Access, k: Id, c: CredentialRecord) {
    && k in x.keys && c.id == k && c.consumer == x.keys[k].consumer && c.prefix == x.keys[k].prefix
    && c.verifier == x.keys[k].verifier && c.expiresAt == x.keys[k].expiresAt
    && forall name :: name in c.permissions <==> Granted(x, x.keys[k].consumer, name)
  }

  lemma KeysInForceExist(x: Access, environment: string, now: nat)
    ensures forall k :: InForce(x, environment, k, now) ==> k in x.keys
  {
  }

  /** Load reads one record for each key in force and nothing else, and the record says what the tables say. */
  lemma LoadReads(x: Access, environment: string, now: nat)
    ensures forall c | c in Records(x, environment, now) :: InForce(x, environment, c.id, now) && RecordSays(x, c.id, c)
    ensures forall k | InForce(x, environment, k, now) :: exists c :: c in Records(x, environment, now) && c.id == k
    ensures forall c, d | c in Records(x, environment, now) && d in Records(x, environment, now) && c.id == d.id :: c == d
  {
    hide Records, GrantedNames, Selected, InForce, KeyIn;
    SelectedAreInForce(x, environment, now);
    KeysInForceExist(x, environment, now);
    forall c | c in Records(x, environment, now)
      ensures InForce(x, environment, c.id, now) && c.id in x.keys && c == RecordOf(x, c.id) && RecordSays(x, c.id, c)
    {
      RecordsAreSelectedKeys(x, environment, now, c);
      forall name ensures name in c.permissions <==> Granted(x, c.consumer, name) { GrantedNamesMean(x, c.consumer, name); }
    }
    forall k | InForce(x, environment, k, now) ensures exists c :: c in Records(x, environment, now) && c.id == k {
      RecordsAreSelectedKeys(x, environment, now, RecordOf(x, k));
    }
  }

  // ---------------------------------------------------- what a draft captures

  lemma CapturedServices(db: Database, environment: string, s: RawService)
    ensures var c := db.catalog.services;
      s in Capture(db, environment).services
      <==> s.id in c && c[s.id].environment == environment && s == RawService(s.id, c[s.id].enabled)
  {
    var c := db.catalog.services;
    var ids := ListedByText(map s | s in c && c[s].environment == environment :: c[s].name);
    var rows := Capture(db, environment).services;
    if s in rows {
      var i :| 0 <= i < |rows| && rows[i] == s;
      assert ids[i] in ids;
    }
    if s.id in c && c[s.id].environment == environment && s == RawService(s.id, c[s.id].enabled) {
      assert s.id in ids;
      var i :| 0 <= i < |ids| && ids[i] == s.id;
      assert rows[i] == s;
    }
  }

  lemma CapturedVersions(db: Database, environment: string, v: RawVersion)
    ensures v in Capture(db, environment).versions
      <==> VersionIn(db.catalog, environment, v.id) && v == RawVersionOf(v.id, db.catalog.versions[v.id])
  {
    var c := db.catalog;
    var ids := ListedByText(map v | v in c.versions && VersionIn(c, environment, v) :: v);
    var rows := Capture(db, environment).versions;
    if v in rows {
      var i :| 0 <= i < |rows| && rows[i] == v;
      assert ids[i] in ids;
    }
    if VersionIn(c, environment, v.id) && v == RawVersionOf(v.id, c.versions[v.id]) {
      assert v.id in ids;
      var i :| 0 <= i < |ids| && ids[i] == v.id;
      assert rows[i] == v;
    }
  }

  lemma CapturedUpstreams(db: Database, environment: string, u: RawUpstream)
    ensures u in Capture(db, environment).upstreams
      <==> UpstreamIn(db.catalog, environment, u.id) && u == RawUpstreamOf(u.id, db.catalog.upstreams[u.id])
  {
    var c := db.catalog;
    var ids := ListedByText(map u | u in c.upstreams && UpstreamIn(c, environment, u) :: u);
    var rows := Capture(db, environment).upstreams;
    if u in rows {
      var i :| 0 <= i < |rows| && rows[i] == u;
      assert ids[i] in ids;
    }
    if UpstreamIn(c, environment, u.id) && u == RawUpstreamOf(u.id, c.upstreams[u.id]) {
      assert u.id in ids;
      var i :| 0 <= i < |ids| && ids[i] == u.id;
      assert rows[i] == u;
    }
  }

  ghost predicate Published(db: Database, environment: string, id: Id) {
    id in db.assignments.listeners && db.assignments.listeners[id].environment == environment
    && db.assignments.listeners[id].status != Disabled
  }

  lemma CapturedListeners(db: Database, environment: string, l: RawListener)
    ensures l in Capture(db, environment).listeners
      <==> Published(db, environment, l.id) && l == RawListenerOf(l.id, db.assignments.listeners[l.id])
  {
    var a := db.assignments;
    var ids := ListedByNumber(map l | l in a.listeners && a.listeners[l].environment == environment
      && a.listeners[l].status != Disabled :: a.listeners[l].port);
    var rows := Capture(db, environment).listeners;
    if l in rows {
      var i :| 0 <= i < |rows| && rows[i] == l;
      assert ids[i] in ids;
    }
    if Published(db, environment, l.id) && l == RawListenerOf(l.id, a.listeners[l.id]) {
      assert l.id in ids;
      var i :| 0 <= i < |ids| && ids[i] == l.id;
      assert rows[i] == l;
    }
  }

  /** Column by column: what the JSON of a draft says of a row of its environment is what the row says. */
  ghost predicate ServiceCaptured(db: Database, environment: string, s: RawService) {
    && s.id in db.catalog.services && db.catalog.services[s.id].environment == environment
    && s.enabled == db.catalog.services[s.id].enabled
  }

  ghost predicate VersionCaptured(db: Database, environment: string, v: RawVersion) {
    && v.id in db.catalog.versions
    && var row := db.catalog.versions[v.id];
    && row.serviceId in db.catalog.services && db.catalog.services[row.serviceId].environment == environment
    && v.serviceId == row.serviceId && v.healthPath == row.healthPath && v.timeoutMs == row.timeoutMs
    && v.maxBytes == row.maxBytes && v.enabled == row.enabled
  }

  ghost predicate UpstreamCaptured(db: Database, environment: string, u: RawUpstream) {
    && u.id in db.catalog.upstreams
    && var row := db.catalog.upstreams[u.id];
    && row.versionId in db.catalog.versions && db.catalog.versions[row.versionId].serviceId in db.catalog.services
    && db.catalog.services[db.catalog.versions[row.versionId].serviceId].environment == environment
    && u.versionId == row.versionId && u.scheme == row.scheme && u.address == row.address && u.port == row.port
    && u.weight == row.weight && u.healthPath == row.healthPath && u.enabled == row.enabled
  }

  ghost predicate ListenerCaptured(db: Database, environment: string, l: RawListener) {
    && l.id in db.assignments.listeners
    && var row := db.assignments.listeners[l.id];
    && row.environment == environment && row.status != Disabled
    && l.port == row.port && l.versionId == row.versionId && l.permission == row.permission && l.methods == row.methods
    && l.contentTypes == row.contentTypes && l.regex == row.regex && l.status == row.status && l.policy == row.policy
  }

  /** A draft holds exactly the services, versions and upstreams of the environment and its listeners that are not disabled,
      each as its row says. */
  lemma CaptureSays(db: Database, environment: string)
    ensures var raw := Capture(db, environment);
      && raw.environment == environment
      && (forall s :: s in raw.services <==> ServiceCaptured(db, environment, s))
      && (forall v :: v in raw.versions <==> VersionCaptured(db, environment, v))
      && (forall u :: u in raw.upstreams <==> UpstreamCaptured(db, environment, u))
      && (forall l :: l in raw.listeners <==> ListenerCaptured(db, environment, l))
  {
    var raw := Capture(db, environment);
    forall s ensures s in raw.services <==> ServiceCaptured(db, environment, s) { CapturedServices(db, environment, s); }
    forall v ensures v in raw.versions <==> VersionCaptured(db, environment, v) { CapturedVersions(db, environment, v); }
    forall u ensures u in raw.upstreams <==> UpstreamCaptured(db, environment, u) { CapturedUpstreams(db, environment, u); }
    forall l ensures l in raw.listeners <==> ListenerCaptured(db, environment, l) { CapturedListeners(db, environment, l); }
  }

  lemma CaptureHasUniqueRows(db: Database, environment: string)
    ensures var raw := Capture(db, environment);
      && DistinctIds(raw.services, (s: RawService) => s.id) && DistinctIds(raw.versions, (v: RawVersion) => v.id)
      && DistinctIds(raw.upstreams, (u: RawUpstream) => u.id) && DistinctIds(raw.listeners, (l: RawListener) => l.id)
  {
    var c, a := db.catalog, db.assignments;
    ListedTextIsDistinct(map s | s in c.services && c.services[s].environment == environment :: c.services[s].name);
    ListedTextIsDistinct(map v | v in c.versions && VersionIn(c, environment, v) :: v);
    ListedTextIsDistinct(map u | u in c.upstreams && UpstreamIn(c, environment, u) :: u);
    ListedNumberIsDistinct(map l | l in a.listeners && a.listeners[l].environment == environment
      && a.listeners[l].status != Disabled :: a.listeners[l].port);
  }

  lemma NoKeysNoRecords(x: Access, environment: string, now: nat)
    requires x.keys == map[]
    ensures Records(x, environment, now) == []
  {
    assert (map k | k in x.keys && Selected(x, environment, now, k) :: k) == map[];
  }

  lemma FreshActiveRow(db: Database, environment: string)
    requires FreshSchema(db) && environment in db.environments
    ensures ActiveId(db.configurations, environment).Some?
    ensures db.configurations.rows[ActiveId(db.configurations, environment).value].snapshot == EmptySnapshot(environment)
  {
    var id :| id in db.configurations.rows && db.configurations.rows[id].environment == environment;
    assert id in CurrentIds(db.configurations, environment);
    var active := ActiveId(db.configurations, environment).value;
    assert active in CurrentIds(db.configurations, environment);
  }

  /** A gateway can start on a freshly migrated schema: the bootstrap version loads and serves nothing. */
  lemma BootstrapLoads(db: Database, g: Settings, environment: string, now: nat)
    requires FreshSchema(db) && environment in db.environments
    ensures exists id :: LoadedSnapshot(db, g, environment, now) == Some(Snapshot(id, environment, map[], map[]))
  {
    hide FreshSchema, ActiveId, Records;
    FreshAccess(db);
    FreshActiveRow(db, environment);
    NoKeysNoRecords(db.access, environment, now);
    var id := ActiveId(db.configurations, environment).value;
    assert LoadedSnapshot(db, g, environment, now) == Some(Snapshot(id, environment, map[], map[]));
  }

  lemma FreshAccess(db: Database)
    requires FreshSchema(db)
    ensures db.access.keys == map[]
  {
  }
}
