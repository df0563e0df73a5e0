/** What a compiled snapshot means, stated without the compiler's loops: when a
    raw snapshot loads, what the routing tables then contain, and that the order
    of the JSON arrays does not matter. */
module SnapshotMeaning {
  import opened Prelude
  import opened Tables
  import opened SnapshotCompiler

  // --------------------------------------------------------- unique row ids

  ghost predicate DistinctIds<T(!new)>(rows: seq<T>, id: T -> string) {
    forall i, j | 0 <= i < j < |rows| :: id(rows[i]) != id(rows[j])
  }

  ghost predicate UniqueRows(raw: RawSnapshot, records: seq<CredentialRecord>) {
    && DistinctIds(raw.services, (s: RawService) => s.id)
    && DistinctIds(raw.versions, (v: RawVersion) => v.id)
    && DistinctIds(raw.upstreams, (u: RawUpstream) => u.id)
    && DistinctIds(raw.listeners, (l: RawListener) => l.id)
    && DistinctIds(records, (r: CredentialRecord) => r.prefix)
  }

  lemma DistinctTail<T(!new)>(rows: seq<T>, id: T -> string)
    requires rows != [] && DistinctIds(rows, id)
    ensures DistinctIds(rows[1..], id)
    ensures forall x | x in rows[1..] :: id(x) != id(rows[0])
  {
    forall i, j | 0 <= i < j < |rows[1..]| ensures id(rows[1..][i]) != id(rows[1..][j]) {
      assert rows[1..][i] == rows[i + 1] && rows[1..][j] == rows[j + 1];
    }
    forall x | x in rows[1..] ensures id(x) != id(rows[0]) {
      var i :| 0 <= i < |rows[1..]| && rows[1..][i] == x;
      assert rows[i + 1] == x;
    }
  }

  lemma {:induction false} DistinctIsPermutable<T(!new)>(a: seq<T>, b: seq<T>, id: T -> string)
    requires multiset(a) == multiset(b) && DistinctIds(a, id)
    ensures DistinctIds(b, id)
  {
    forall i, j | 0 <= i < j < |b| ensures id(b[i]) != id(b[j]) {
      assert b == b[..i] + [b[i]] + b[i + 1..j] + [b[j]] + b[j + 1..];
      assert multiset(b)[b[i]] >= 1 && multiset(b)[b[j]] >= 1;
      if b[i] == b[j] {
        assert multiset(b)[b[i]] >= 2;
        OccursOnce(a, id, b[i]);
      } else {
        var m :| 0 <= m < |a| && a[m] == b[i];
        var n :| 0 <= n < |a| && a[n] == b[j];
      }
    }
  }

  lemma {:induction false} OccursOnce<T(!new)>(a: seq<T>, id: T -> string, x: T)
    requires DistinctIds(a, id)
    ensures multiset(a)[x] <= 1
  {
    if a != [] {
      DistinctTail(a, id);
      assert a == [a[0]] + a[1..];
      OccursOnce(a[1..], id, x);
      if x == a[0] { assert x !in a[1..]; }
    }
  }

  // --------------------------------------------------- the declarative view

  ghost predicate ServiceEnabled(raw: RawSnapshot, id: Id) {
    exists s | s in raw.services :: s.id == id && s.enabled
  }

  ghost predicate VersionAvailable(raw: RawSnapshot, v: RawVersion) {
    v in raw.versions && v.enabled && ServiceEnabled(raw, v.serviceId) && v.timeoutMs > 0 && v.maxBytes > 0
  }

  /** The row takes part at all: enabled, a port that exists, and some weight. */
  ghost predicate TakesPart(u: RawUpstream) { u.enabled && 1 <= u.port <= 65535 && u.weight >= 1 }

  /** The path its health is probed on: its own, else its version's, else /health. */
  ghost predicate ProbedOn(u: RawUpstream, v: RawVersion, path: string) {
    && (u.healthPath != "" ==> path == u.healthPath)
    && (u.healthPath == "" && v.healthPath != "" ==> path == v.healthPath)
    && (u.healthPath == "" && v.healthPath == "" ==> path == "/health")
  }

  ghost predicate Absolute(path: string) { |path| > 0 && path[0] == '/' }

  /** Its scheme is http or https, or left out; if it takes part, its address is one and allowed, and its health path absolute. */
  ghost predicate UpstreamAccepted(raw: RawSnapshot, u: RawUpstream, platform: Platform, allowlist: seq<Prefix>) {
    && (u.scheme == "" || u.scheme == "http" || u.scheme == "https")
    && (TakesPart(u) ==>
      && platform.parseAddress(u.address).Some?
      && (exists i :: 0 <= i < |allowlist| && allowlist[i](platform.parseAddress(u.address).value))
      && forall v, path | VersionAvailable(raw, v) && v.id == u.versionId && ProbedOn(u, v, path) :: Absolute(path))
  }

  /** A regular expression the listener may have: none, or a short one on one line that compiles. */
  ghost predicate RegexAccepted(regex: string, platform: Platform) {
    regex != "" ==>
      |regex| <= 2048 && platform.regexCompiles(regex) && forall c | c in regex :: c != '\0' && c != '\r' && c != '\n'
  }

  ghost predicate ListenerAccepted(raw: RawSnapshot, l: RawListener, platform: Platform) {
    && (exists v :: VersionAvailable(raw, v) && v.id == l.versionId)
    && (exists u | u in raw.upstreams :: TakesPart(u) && u.versionId == l.versionId)
    && 1 <= l.port <= 65535 && |l.methods| > 0 && RegexAccepted(l.regex, platform)
    && l.policy.rate >= 0 && l.policy.burst >= 0 && l.policy.quota >= 0 && l.policy.threshold >= 0 && l.policy.openMs >= 0
  }

  /** Exactly the configurations a replica can load. */
  ghost predicate Loadable(
    environment: string, raw: RawSnapshot, records: seq<CredentialRecord>, platform: Platform, allowlist: seq<Prefix>)
  {
    && raw.environment == environment
    && (forall v | v in raw.versions :: v.healthPath == "" || Absolute(v.healthPath))
    && (forall u | u in raw.upstreams :: UpstreamAccepted(raw, u, platform, allowlist))
    && ListenersAccepted(raw, platform)
    && (forall r | r in records :: |r.verifier| == 32 && r.prefix != "")
  }

  /** The row of u, as the replica holds it when its version is v. */
  ghost predicate Compiles(u: RawUpstream, v: RawVersion, platform: Platform, x: Upstream) {
    && platform.parseAddress(u.address) == Some(x.address)
    && x.id == u.id && x.port == u.port && x.weight == u.weight && ProbedOn(u, v, x.healthPath)
    && (u.scheme != "" ==> x.scheme == u.scheme) && (u.scheme == "" ==> x.scheme == "http")
  }

  ghost predicate StrictlyById(pool: seq<Upstream>) {
    forall i, j | 0 <= i < j < |pool| :: TextBefore(pool[i].id, pool[j].id)
  }

  /** The pool of version v: its enabled, in-range upstreams, each once, by id. */
  ghost predicate IsPoolOf(pool: seq<Upstream>, raw: RawSnapshot, v: RawVersion, platform: Platform) {
    && StrictlyById(pool)
    && forall x :: x in pool <==> IsCompiledRow(raw, v, platform, x)
  }

  ghost predicate IsCompiledRow(raw: RawSnapshot, v: RawVersion, platform: Platform, x: Upstream) {
    exists u | u in raw.upstreams :: TakesPart(u) && u.versionId == v.id && Compiles(u, v, platform, x)
  }

  /** The listener table serves row l: its version is available and its pool is that version's. */
  ghost predicate Routes(listeners: map<int, Listener>, raw: RawSnapshot, l: RawListener, platform: Platform) {
    && l.port in listeners
    && var served := listeners[l.port];
    exists v :: RoutesTo(served, raw, l, v, platform)
  }

  ghost predicate RoutesTo(served: Listener, raw: RawSnapshot, l: RawListener, v: RawVersion, platform: Platform) {
    && VersionAvailable(raw, v) && v.id == l.versionId
    && IsPoolOf(served.upstreams, raw, v, platform)
    && ServedAs(served, l, v, platform)
  }

  /** The media types of a listener that names none. */
  ghost predicate IsDefaultType(c: string, platform: Platform) {
    || c == platform.lower("application/json") || c == platform.lower("application/xml") || c == platform.lower("text/xml")
    || c == platform.lower("application/x-www-form-urlencoded")
  }

  /** Field by field: the listener's own permission, methods, types, expression and policy, and its version's limits. */
  ghost predicate ServedAs(x: Listener, l: RawListener, v: RawVersion, platform: Platform) {
    && x.id == l.id && x.port == l.port && x.permission == l.permission && x.policy == l.policy
    && x.timeoutMs == v.timeoutMs && x.maxBytes == v.maxBytes
    && (l.regex == "" ==> x.regex == None) && (l.regex != "" ==> x.regex == Some(l.regex))
    && (forall m :: m in x.methods <==> exists w | w in l.methods :: platform.upper(w) == m)
    && (l.contentTypes != [] ==> forall c :: c in x.contentTypes <==> exists w | w in l.contentTypes :: platform.lower(w) == c)
    && (l.contentTypes == [] ==> forall c :: c in x.contentTypes <==> IsDefaultType(c, platform))
  }

  ghost predicate ServesExactly(listeners: map<int, Listener>, raw: RawSnapshot, platform: Platform) {
    && (forall p :: p in listeners <==> exists l | l in raw.listeners :: InService(l) && l.port == p)
    && (forall l | l in raw.listeners && InService(l) :: Routes(listeners, raw, l, platform))
  }

  /** Listeners that are disabled or draining are not served. */
  ghost predicate InService(l: RawListener) { l.status == ListenerStatus.Reserved || l.status == ListenerStatus.Active }

  /** The credential of a key, as the replica holds it. */
  ghost predicate CredentialOf(c: Credential, r: CredentialRecord) {
    && c.id == r.id && c.consumer == r.consumer && c.prefix == r.prefix && c.verifier == r.verifier && c.expiresAt == r.expiresAt
    && forall p :: p in c.permissions <==> p in r.permissions
  }

  ghost predicate HoldsExactly(credentials: map<string, Credential>, records: seq<CredentialRecord>) {
    && (forall p :: p in credentials <==> exists r | r in records :: r.prefix == p)
    && (forall r | r in records :: r.prefix in credentials && CredentialOf(credentials[r.prefix], r))
  }

  ghost predicate ListenersAccepted(raw: RawSnapshot, platform: Platform) {
    && (forall l | l in raw.listeners && InService(l) :: ListenerAccepted(raw, l, platform))
    && (forall a, b | a in raw.listeners && b in raw.listeners && InService(a) && InService(b) && a.port == b.port :: a == b)
  }

  /** What a loaded snapshot contains: one listener per live row and one credential per record, nothing else. */
  ghost predicate Describes(
    s: Snapshot, version: nat, environment: string, raw: RawSnapshot, records: seq<CredentialRecord>, platform: Platform)
  {
    && s.version == version && s.environment == environment
    && ServesExactly(s.listeners, raw, platform)
    && HoldsExactly(s.credentials, records)
  }

  // ------------------------------------------------------- loop by loop

  lemma {:induction false} ServicesMean(services: seq<RawService>, acc: map<Id, bool>, id: Id)
    requires DistinctIds(services, (s: RawService) => s.id)
    requires forall s | s in services :: s.id !in acc
    ensures var r := ServicesFrom(services, acc);
      (id in r && r[id]) <==> (id in acc && acc[id]) || exists s | s in services :: s.id == id && s.enabled
  {
    if services != [] {
      DistinctTail(services, (s: RawService) => s.id);
      var next := acc[services[0].id := services[0].enabled];
      ServicesMean(services[1..], next, id);
      MembersSplit(services);
    }
  }

  lemma {:induction false} VersionsMean(versions: seq<RawVersion>, enabled: map<Id, bool>, acc: map<Id, RawVersion>)
    requires DistinctIds(versions, (v: RawVersion) => v.id)
    requires forall v | v in versions :: v.id !in acc
    ensures var r := VersionsFrom(versions, enabled, acc);
      && (r.Ok? <==> forall v | v in versions :: VersionPathOk(v))
      && (r.Ok? ==>
        && (forall id | id in acc :: id in r.value && r.value[id] == acc[id])
        && (forall v | v in versions && Usable(v, enabled) :: v.id in r.value && r.value[v.id] == WithDefaultPath(v))
        && (forall id | id in r.value :: id in acc || exists v | v in versions :: Usable(v, enabled) && v.id == id))
  {
    if versions != [] {
      DistinctTail(versions, (v: RawVersion) => v.id);
      MembersSplit(versions);
      var v := WithDefaultPath(versions[0]);
      if HasPrefix(v.healthPath, "/") {
        VersionsMean(versions[1..], enabled, if Usable(v, enabled) then acc[v.id := v] else acc);
      } else {
        assert !VersionPathOk(versions[0]);
      }
    }
  }

  /** The compiled upstreams of one version, in the order of the list. */
  ghost function PoolOf(
    us: seq<RawUpstream>, id: Id, versions: map<Id, RawVersion>, platform: Platform, allowlist: seq<Prefix>)
    : seq<Upstream>
  {
    if us == [] then []
    else
      var c := CompileUpstream(us[0], versions, platform, allowlist);
      (if c.Ok? && c.value.Some? && us[0].versionId == id then [c.value.value] else [])
      + PoolOf(us[1..], id, versions, platform, allowlist)
  }

  ghost function At(pools: map<Id, seq<Upstream>>, id: Id): seq<Upstream> { if id in pools then pools[id] else [] }

  lemma {:induction false} PoolsSucceed(
    us: seq<RawUpstream>, versions: map<Id, RawVersion>, platform: Platform, allowlist: seq<Prefix>, acc: map<Id, seq<Upstream>>)
    ensures PoolsFrom(us, versions, platform, allowlist, acc).Ok?
       <==> forall u | u in us :: CompileUpstream(u, versions, platform, allowlist).Ok?
  {
    if us != [] {
      var c := CompileUpstream(us[0], versions, platform, allowlist);
      assert us[0] in us;
      if c.Ok? {
        MembersSplit(us);
        PoolsSucceed(us[1..], versions, platform, allowlist, if c.value.None? then acc else AddTo(acc, us[0].versionId, c.value.value));
      }
    }
  }

  lemma AddedAt(pools: map<Id, seq<Upstream>>, versionId: Id, u: Upstream, id: Id)
    ensures At(AddTo(pools, versionId, u), id) == At(pools, id) + if versionId == id then [u] else []
  {
  }

  lemma {:induction false} PoolsMean(
    us: seq<RawUpstream>, versions: map<Id, RawVersion>, platform: Platform, allowlist: seq<Prefix>, acc: map<Id, seq<Upstream>>,
    id: Id)
    requires PoolsFrom(us, versions, platform, allowlist, acc).Ok?
    ensures At(PoolsFrom(us, versions, platform, allowlist, acc).value, id)
         == At(acc, id) + PoolOf(us, id, versions, platform, allowlist)
  {
    hide CompileUpstream, AddTo, At;
    if us != [] {
      var c, rest := CompileUpstream(us[0], versions, platform, allowlist), PoolOf(us[1..], id, versions, platform, allowlist);
      if c.value.None? {
        PoolsMean(us[1..], versions, platform, allowlist, acc, id);
      } else {
        AddedAt(acc, us[0].versionId, c.value.value, id);
        PoolsMean(us[1..], versions, platform, allowlist, AddTo(acc, us[0].versionId, c.value.value), id);
        Regrouped(At(acc, id), if us[0].versionId == id then [c.value.value] else [], rest);
      }
    }
  }

  lemma Regrouped(a: seq<Upstream>, b: seq<Upstream>, c: seq<Upstream>)
    ensures (a + b) + c == a + (b + c)
  {
  }

  lemma {:induction false} PoolMembers(
    us: seq<RawUpstream>, id: Id, versions: map<Id, RawVersion>, platform: Platform, allowlist: seq<Prefix>, x: Upstream)
    ensures x in PoolOf(us, id, versions, platform, allowlist) <==>
      exists u | u in us :: u.versionId == id && CompileUpstream(u, versions, platform, allowlist) == Ok(Some(x))
  {
    if us != [] {
      MembersSplit(us);
      PoolMembers(us[1..], id, versions, platform, allowlist, x);
    }
  }

  lemma {:induction false} PoolIdsDistinct(
    us: seq<RawUpstream>, id: Id, versions: map<Id, RawVersion>, platform: Platform, allowlist: seq<Prefix>)
    requires DistinctIds(us, (u: RawUpstream) => u.id)
    ensures DistinctIds(PoolOf(us, id, versions, platform, allowlist), (x: Upstream) => x.id)
  {
    if us != [] {
      DistinctTail(us, (u: RawUpstream) => u.id);
      PoolIdsDistinct(us[1..], id, versions, platform, allowlist);
      var rest := PoolOf(us[1..], id, versions, platform, allowlist);
      var c := CompileUpstream(us[0], versions, platform, allowlist);
      if c.Ok? && c.value.Some? && us[0].versionId == id {
        forall x | x in rest ensures x.id != us[0].id {
          PoolMembers(us[1..], id, versions, platform, allowlist, x);
        }
        DistinctPush(c.value.value, rest);
      } else {
        assert PoolOf(us, id, versions, platform, allowlist) == rest;
      }
    }
  }

  lemma DistinctPush(x: Upstream, rest: seq<Upstream>)
    requires DistinctIds(rest, (y: Upstream) => y.id)
    requires forall y | y in rest :: y.id != x.id
    ensures DistinctIds([x] + rest, (y: Upstream) => y.id)
  {
    var pool := [x] + rest;
    forall i, j | 0 <= i < j < |pool| ensures pool[i].id != pool[j].id {
      assert pool[j] == rest[j - 1];
      if i > 0 { assert pool[i] == rest[i - 1]; }
    }
  }

  lemma MembersSplit<T>(rows: seq<T>)
    requires rows != []
    ensures forall x :: x in rows <==> x == rows[0] || x in rows[1..]
  {
    assert rows == [rows[0]] + rows[1..];
  }

  lemma SortedPoolIsStrict(pool: seq<Upstream>)
    requires DistinctIds(pool, (x: Upstream) => x.id)
    ensures StrictlyById(SortPool(pool))
    ensures forall x :: x in SortPool(pool) <==> x in pool
  {
    var r := SortPool(pool);
    PermutedMembers(r, pool);
    DistinctIsPermutable(pool, r, (x: Upstream) => x.id);
    forall i, j | 0 <= i < j < |r| ensures TextBefore(r[i].id, r[j].id) {
      TextOrderIsTotal(r[i].id, r[j].id);
    }
  }

  ghost predicate ListenerCompiles(
    l: RawListener, versions: map<Id, RawVersion>, pools: map<Id, seq<Upstream>>, platform: Platform)
  {
    CompileListener(l, versions, pools, {}, platform).Ok?
  }

  lemma TakenPorts(
    l: RawListener, versions: map<Id, RawVersion>, pools: map<Id, seq<Upstream>>, taken: set<int>, platform: Platform)
    ensures var c := CompileListener(l, versions, pools, taken, platform);
      && (c.Ok? <==> ListenerCompiles(l, versions, pools, platform) && l.port !in taken)
      && (c.Ok? ==> c == CompileListener(l, versions, pools, {}, platform) && c.value.port == l.port)
  {
  }

  ghost predicate PortsFree(ls: seq<RawListener>, acc: map<int, Listener>) {
    && (forall l | l in ls && Live(l) :: l.port !in acc)
    && (forall a, b | a in ls && b in ls && Live(a) && Live(b) && a.port == b.port :: a == b)
  }

  ghost predicate AllCompile(
    ls: seq<RawListener>, versions: map<Id, RawVersion>, pools: map<Id, seq<Upstream>>, platform: Platform)
  {
    forall l | l in ls && Live(l) :: ListenerCompiles(l, versions, pools, platform)
  }

  lemma PortsFreeStep(ls: seq<RawListener>, acc: map<int, Listener>, x: Listener)
    requires ls != [] && Live(ls[0]) && DistinctIds(ls, (l: RawListener) => l.id)
    ensures PortsFree(ls, acc) <==> ls[0].port !in acc && PortsFree(ls[1..], acc[ls[0].port := x])
  {
    DistinctTail(ls, (l: RawListener) => l.id);
    MembersSplit(ls);
    assert ls[0] in ls;
  }

  lemma {:induction false} ListenersSucceed(
    ls: seq<RawListener>, versions: map<Id, RawVersion>, pools: map<Id, seq<Upstream>>, platform: Platform, acc: map<int, Listener>)
    requires DistinctIds(ls, (l: RawListener) => l.id)
    ensures ListenersFrom(ls, versions, pools, platform, acc).Ok?
       <==> AllCompile(ls, versions, pools, platform) && PortsFree(ls, acc)
  {
    if ls != [] {
      DistinctTail(ls, (l: RawListener) => l.id);
      MembersSplit(ls);
      if !Live(ls[0]) {
        ListenersSucceed(ls[1..], versions, pools, platform, acc);
      } else {
        assert ls[0] in ls;
        TakenPorts(ls[0], versions, pools, acc.Keys, platform);
        var c := CompileListener(ls[0], versions, pools, acc.Keys, platform);
        if c.Ok? {
          PortsFreeStep(ls, acc, c.value);
          ListenersSucceed(ls[1..], versions, pools, platform, acc[ls[0].port := c.value]);
        }
      }
    }
  }

  lemma {:induction false} ListenersMean(
    ls: seq<RawListener>, versions: map<Id, RawVersion>, pools: map<Id, seq<Upstream>>, platform: Platform, acc: map<int, Listener>)
    requires ListenersFrom(ls, versions, pools, platform, acc).Ok?
    ensures var r := ListenersFrom(ls, versions, pools, platform, acc).value;
      && (forall p :: p in r <==> p in acc || exists l | l in ls :: Live(l) && l.port == p)
      && (forall p | p in acc :: r[p] == acc[p])
      && (forall l | l in ls && Live(l) ::
          ListenerCompiles(l, versions, pools, platform) && r[l.port] == CompileListener(l, versions, pools, {}, platform).value)
  {
    if ls != [] {
      MembersSplit(ls);
      if !Live(ls[0]) {
        ListenersMean(ls[1..], versions, pools, platform, acc);
      } else {
        TakenPorts(ls[0], versions, pools, acc.Keys, platform);
        var c := CompileListener(ls[0], versions, pools, acc.Keys, platform);
        ListenersMean(ls[1..], versions, pools, platform, acc[ls[0].port := c.value]);
      }
    }
  }

  lemma {:induction false} CredentialsMean(records: seq<CredentialRecord>, acc: map<string, Credential>)
    requires DistinctIds(records, (r: CredentialRecord) => r.prefix)
    requires forall r | r in records :: r.prefix !in acc
    ensures var r := CredentialsFrom(records, acc);
      && (r.Ok? <==> forall c | c in records :: CredentialOk(c))
      && (r.Ok? ==>
        && (forall p :: p in r.value <==> p in acc || exists c | c in records :: c.prefix == p)
        && (forall p | p in acc :: r.value[p] == acc[p])
        && (forall c | c in records :: r.value[c.prefix] == CredentialValue(c)))
  {
    hide CredentialOk, CredentialValue;
    if records != [] {
      DistinctTail(records, (r: CredentialRecord) => r.prefix);
      MembersSplit(records);
      if CredentialOk(records[0]) {
        CredentialsMean(records[1..], acc[records[0].prefix := CredentialValue(records[0])]);
      }
    }
  }

  // ------------------------------------------------------- main theorems

  /** The intermediate tables the loops build. */
  ghost predicate Intermediate(
    raw: RawSnapshot, versions: map<Id, RawVersion>, platform: Platform, allowlist: seq<Prefix>, pools: map<Id, seq<Upstream>>)
  {
    && (forall v | VersionAvailable(raw, v) :: v.id in versions && versions[v.id] == WithDefaultPath(v))
    && (forall id | id in versions :: exists v :: VersionAvailable(raw, v) && v.id == id)
    && (forall id :: At(pools, id) == PoolOf(raw.upstreams, id, versions, platform, allowlist))
  }

  // --------------------------------------- the compiler's words and these

  lemma AbsoluteMeans(path: string)
    ensures Absolute(path) <==> HasPrefix(path, "/")
  {
    if |path| > 0 { assert path[..1] == [path[0]]; }
  }

  lemma ProbedPath(u: RawUpstream, v: RawVersion, path: string)
    ensures ProbedOn(u, v, path) <==> path == PathOf(u, WithDefaultPath(v).healthPath)
  {
  }

  lemma RegexMeans(regex: string, platform: Platform)
    ensures RegexAccepted(regex, platform) <==> RegexOk(regex, platform)
  {
  }

  lemma DefaultTypes(platform: Platform, c: string)
    ensures (exists w | w in DefaultContentTypes :: platform.lower(w) == c) <==> IsDefaultType(c, platform)
  {
    var d := DefaultContentTypes;
    assert d[0] in d && d[1] in d && d[2] in d && d[3] in d;
  }

  lemma ValueMeans(l: RawListener, v: RawVersion, pool: seq<Upstream>, platform: Platform)
    ensures ServedAs(ListenerValue(l, WithDefaultPath(v), pool, platform), l, v, platform)
    ensures ListenerValue(l, WithDefaultPath(v), pool, platform).upstreams == pool
  {
    hide IsDefaultType;
    if l.contentTypes == [] {
      forall c ensures c in ListenerValue(l, WithDefaultPath(v), pool, platform).contentTypes <==> IsDefaultType(c, platform) {
        DefaultTypes(platform, c);
      }
    }
  }

  lemma CredentialMeans(r: CredentialRecord, c: Credential)
    ensures CredentialOf(c, r) <==> c == CredentialValue(r)
  {
    if CredentialOf(c, r) { assert c.permissions == CredentialValue(r).permissions; }
  }

  lemma HeldCredentials(credentials: map<string, Credential>, records: seq<CredentialRecord>)
    requires HoldsExactly(credentials, records)
    ensures forall p :: p in credentials <==> exists r | r in records :: r.prefix == p
    ensures forall r | r in records :: r.prefix in credentials && credentials[r.prefix] == CredentialValue(r)
  {
    hide CredentialOf, CredentialValue;
    forall r | r in records ensures r.prefix in credentials && credentials[r.prefix] == CredentialValue(r) {
      CredentialMeans(r, credentials[r.prefix]);
    }
  }

  lemma VersionTable(raw: RawSnapshot)
    requires DistinctIds(raw.services, (s: RawService) => s.id) && DistinctIds(raw.versions, (v: RawVersion) => v.id)
    ensures var r := VersionsFrom(raw.versions, ServicesFrom(raw.services, map[]), map[]);
      && (r.Ok? <==> forall v | v in raw.versions :: VersionPathOk(v))
      && (r.Ok? ==>
        && (forall v | VersionAvailable(raw, v) :: v.id in r.value && r.value[v.id] == WithDefaultPath(v))
        && (forall id | id in r.value :: exists v :: VersionAvailable(raw, v) && v.id == id))
  {
    var enabled := ServicesFrom(raw.services, map[]);
    VersionsMean(raw.versions, enabled, map[]);
    forall v | v in raw.versions ensures Usable(v, enabled) <==> VersionAvailable(raw, v) {
      ServicesMean(raw.services, map[], v.serviceId);
    }
  }

  lemma UpstreamAcceptance(
    raw: RawSnapshot, u: RawUpstream, versions: map<Id, RawVersion>, platform: Platform, allowlist: seq<Prefix>)
    requires DistinctIds(raw.versions, (v: RawVersion) => v.id)
    requires forall v | VersionAvailable(raw, v) :: v.id in versions && versions[v.id] == WithDefaultPath(v)
    requires forall id | id in versions :: exists v :: VersionAvailable(raw, v) && v.id == id
    ensures CompileUpstream(u, versions, platform, allowlist).Ok? <==> UpstreamAccepted(raw, u, platform, allowlist)
  {
    hide VersionAvailable, ProbedOn, PathOf, Absolute, HasPrefix, DistinctIds, WithDefaultPath;
    if u.versionId in versions {
      var v :| VersionAvailable(raw, v) && v.id == u.versionId;
      OnlyVersion(raw, v);
      var path := PathOf(u, WithDefaultPath(v).healthPath);
      ProbedPath(u, v, path);
      AbsoluteMeans(path);
      forall other | ProbedOn(u, v, other) ensures other == path { ProbedPath(u, v, other); }
    }
  }

  lemma OnlyVersion(raw: RawSnapshot, v: RawVersion)
    requires DistinctIds(raw.versions, (x: RawVersion) => x.id) && VersionAvailable(raw, v)
    ensures forall w | VersionAvailable(raw, w) && w.id == v.id :: w == v
  {
    forall w | VersionAvailable(raw, w) && w.id == v.id ensures w == v {
      SameIdSameRow(raw.versions, v, w, (x: RawVersion) => x.id);
    }
  }

  lemma SameIdSameRow<T(!new)>(rows: seq<T>, a: T, b: T, id: T -> string)
    requires DistinctIds(rows, id) && a in rows && b in rows && id(a) == id(b)
    ensures a == b
  {
    var i :| 0 <= i < |rows| && rows[i] == a;
    var j :| 0 <= j < |rows| && rows[j] == b;
  }

  lemma PoolRow(
    raw: RawSnapshot, v: RawVersion, versions: map<Id, RawVersion>, platform: Platform, allowlist: seq<Prefix>, x: Upstream)
    requires v.id in versions && versions[v.id] == WithDefaultPath(v)
    requires forall u | u in raw.upstreams :: CompileUpstream(u, versions, platform, allowlist).Ok?
    ensures x in PoolOf(raw.upstreams, v.id, versions, platform, allowlist) <==> IsCompiledRow(raw, v, platform, x)
  {
    hide PoolOf, Compiles, CompileUpstream;
    PoolMembers(raw.upstreams, v.id, versions, platform, allowlist, x);
    forall u | u in raw.upstreams && u.versionId == v.id
      ensures CompileUpstream(u, versions, platform, allowlist) == Ok(Some(x)) <==> TakesPart(u) && Compiles(u, v, platform, x)
    {
      CompiledRow(u, v, versions, platform, allowlist, x);
    }
  }

  lemma CompiledRow(
    u: RawUpstream, v: RawVersion, versions: map<Id, RawVersion>, platform: Platform, allowlist: seq<Prefix>, x: Upstream)
    requires u.versionId == v.id && v.id in versions && versions[v.id] == WithDefaultPath(v)
    requires CompileUpstream(u, versions, platform, allowlist).Ok?
    ensures CompileUpstream(u, versions, platform, allowlist) == Ok(Some(x)) <==> TakesPart(u) && Compiles(u, v, platform, x)
  {
    hide AddressAllowed, HasPrefix, ProbedOn, PathOf, WithDefaultPath;
    ProbedPath(u, v, x.healthPath);
  }

  lemma PoolMeaning(
    raw: RawSnapshot, v: RawVersion, versions: map<Id, RawVersion>, platform: Platform, allowlist: seq<Prefix>,
    pools: map<Id, seq<Upstream>>)
    requires DistinctIds(raw.upstreams, (u: RawUpstream) => u.id)
    requires Intermediate(raw, versions, platform, allowlist, pools)
    requires VersionAvailable(raw, v)
    requires forall u | u in raw.upstreams :: CompileUpstream(u, versions, platform, allowlist).Ok?
    ensures IsPoolOf(SortPool(At(pools, v.id)), raw, v, platform)
    ensures At(pools, v.id) != [] <==> exists u | u in raw.upstreams :: TakesPart(u) && u.versionId == v.id
  {
    hide VersionAvailable, SortPool, PoolOf, CompileUpstream, Compiles, DistinctIds;
    var pool := At(pools, v.id);
    PoolIdsDistinct(raw.upstreams, v.id, versions, platform, allowlist);
    SortedPoolIsStrict(pool);
    forall x ensures x in pool <==> IsCompiledRow(raw, v, platform, x) {
      PoolRow(raw, v, versions, platform, allowlist, x);
    }
    if u :| u in raw.upstreams && TakesPart(u) && u.versionId == v.id {
      var x := PartsCompile(u, v, versions, platform, allowlist);
      assert IsCompiledRow(raw, v, platform, x);
    }
    if pool != [] {
      assert IsCompiledRow(raw, v, platform, pool[0]);
    }
  }

  lemma PartsCompile(u: RawUpstream, v: RawVersion, versions: map<Id, RawVersion>, platform: Platform, allowlist: seq<Prefix>)
    returns (x: Upstream)
    requires u.versionId == v.id && v.id in versions && versions[v.id] == WithDefaultPath(v) && TakesPart(u)
    requires CompileUpstream(u, versions, platform, allowlist).Ok?
    ensures Compiles(u, v, platform, x)
  {
    hide AddressAllowed, HasPrefix, WithDefaultPath;
    x := CompileUpstream(u, versions, platform, allowlist).value.value;
    ProbedPath(u, v, x.healthPath);
  }

  lemma CredentialTable(records: seq<CredentialRecord>)
    requires DistinctIds(records, (r: CredentialRecord) => r.prefix)
    ensures var r := CredentialsFrom(records, map[]);
      (r.Ok? <==> forall c | c in records :: CredentialOk(c)) && (r.Ok? ==> HoldsExactly(r.value, records))
  {
    CredentialsMean(records, map[]);
    forall r, c ensures CredentialOf(c, r) <==> c == CredentialValue(r) { CredentialMeans(r, c); }
  }

  /** buildSnapshot succeeds exactly on the loadable inputs, and what it returns is described by them. */
  lemma BuildMeaning(
    version: nat, environment: string, raw: RawSnapshot, records: seq<CredentialRecord>, platform: Platform, allowlist: seq<Prefix>)
    requires UniqueRows(raw, records)
    ensures var r := Build(version, environment, raw, records, platform, allowlist);
      && (r.Ok? <==> Loadable(environment, raw, records, platform, allowlist))
      && (r.Ok? ==> Describes(r.value, version, environment, raw, records, platform))
  {
    hide VersionsFrom, PoolsFrom, ListenersFrom, CredentialsFrom, ServicesFrom, ListenersAccepted, ServesExactly, UpstreamAccepted,
      HoldsExactly, VersionAvailable, HasPrefix, Absolute, DistinctIds;
    forall v | v in raw.versions ensures VersionPathOk(v) <==> v.healthPath == "" || Absolute(v.healthPath) { VersionPathMeans(v); }
    VersionTable(raw);
    CredentialTable(records);
    var vs := VersionsFrom(raw.versions, ServicesFrom(raw.services, map[]), map[]);
    if vs.Ok? {
      TablesFromVersions(raw, vs.value, platform, allowlist);
    }
  }

  lemma VersionPathMeans(v: RawVersion)
    ensures VersionPathOk(v) <==> v.healthPath == "" || Absolute(v.healthPath)
  {
    AbsoluteMeans(WithDefaultPath(v).healthPath);
  }

  /** Once the version table stands, the two remaining loops mean what they should. */
  lemma TablesFromVersions(raw: RawSnapshot, versions: map<Id, RawVersion>, platform: Platform, allowlist: seq<Prefix>)
    requires DistinctIds(raw.versions, (v: RawVersion) => v.id)
    requires DistinctIds(raw.listeners, (l: RawListener) => l.id) && DistinctIds(raw.upstreams, (u: RawUpstream) => u.id)
    requires forall v | VersionAvailable(raw, v) :: v.id in versions && versions[v.id] == WithDefaultPath(v)
    requires forall id | id in versions :: exists v :: VersionAvailable(raw, v) && v.id == id
    ensures var ps := PoolsFrom(raw.upstreams, versions, platform, allowlist, map[]);
      && (ps.Ok? <==> forall u | u in raw.upstreams :: UpstreamAccepted(raw, u, platform, allowlist))
      && (ps.Ok? ==>
        var ls := ListenersFrom(raw.listeners, versions, ps.value, platform, map[]);
        && (ls.Ok? <==> ListenersAccepted(raw, platform))
        && (ls.Ok? ==> ServesExactly(ls.value, raw, platform)))
  {
    hide CompileUpstream, UpstreamAccepted, ListenersFrom, PoolsFrom, ServesExactly, ListenersAccepted, PoolOf, DistinctIds, VersionAvailable;
    forall u ensures CompileUpstream(u, versions, platform, allowlist).Ok? <==> UpstreamAccepted(raw, u, platform, allowlist) {
      UpstreamAcceptance(raw, u, versions, platform, allowlist);
    }
    PoolsSucceed(raw.upstreams, versions, platform, allowlist, map[]);
    var ps := PoolsFrom(raw.upstreams, versions, platform, allowlist, map[]);
    if ps.Ok? {
      forall id ensures At(ps.value, id) == PoolOf(raw.upstreams, id, versions, platform, allowlist) {
        PoolsMean(raw.upstreams, versions, platform, allowlist, map[], id);
      }
      ListenerTable(raw, versions, platform, allowlist, ps.value);
    }
  }

  lemma ListenerTable(
    raw: RawSnapshot, versions: map<Id, RawVersion>, platform: Platform, allowlist: seq<Prefix>, pools: map<Id, seq<Upstream>>)
    requires DistinctIds(raw.listeners, (l: RawListener) => l.id) && DistinctIds(raw.upstreams, (u: RawUpstream) => u.id)
    requires Intermediate(raw, versions, platform, allowlist, pools)
    requires forall u | u in raw.upstreams :: CompileUpstream(u, versions, platform, allowlist).Ok?
    ensures var r := ListenersFrom(raw.listeners, versions, pools, platform, map[]);
      && (r.Ok? <==> ListenersAccepted(raw, platform))
      && (r.Ok? ==> ServesExactly(r.value, raw, platform))
  {
    hide ListenerCompiles, ListenerAccepted, ListenersFrom, CompileListener, CompileUpstream, Intermediate, Routes, DistinctIds;
    ListenersSucceed(raw.listeners, versions, pools, platform, map[]);
    forall l ensures ListenerCompiles(l, versions, pools, platform) <==> ListenerAccepted(raw, l, platform) {
      ListenerAcceptance(raw, l, versions, platform, allowlist, pools);
    }
    var r := ListenersFrom(raw.listeners, versions, pools, platform, map[]);
    if r.Ok? {
      ListenersMean(raw.listeners, versions, pools, platform, map[]);
      forall l | l in raw.listeners && InService(l) ensures Routes(r.value, raw, l, platform) {
        RowIsRouted(raw, versions, platform, allowlist, pools, r.value, l);
      }
    }
  }

  lemma RowIsRouted(
    raw: RawSnapshot, versions: map<Id, RawVersion>, platform: Platform, allowlist: seq<Prefix>, pools: map<Id, seq<Upstream>>,
    listeners: map<int, Listener>, l: RawListener)
    requires DistinctIds(raw.upstreams, (u: RawUpstream) => u.id) && Intermediate(raw, versions, platform, allowlist, pools)
    requires forall u | u in raw.upstreams :: CompileUpstream(u, versions, platform, allowlist).Ok?
    requires ListenerCompiles(l, versions, pools, platform) && ListenerAccepted(raw, l, platform)
    requires l.port in listeners && listeners[l.port] == CompileListener(l, versions, pools, {}, platform).value
    ensures Routes(listeners, raw, l, platform)
  {
    hide IsPoolOf, CompileUpstream, RegexOk, PolicyOk, PoolOf, ListenerValue, ServedAs, VersionAvailable, RegexAccepted, DistinctIds;
    var v :| VersionAvailable(raw, v) && v.id == l.versionId;
    PoolMeaning(raw, v, versions, platform, allowlist, pools);
    ValueMeans(l, v, SortPool(At(pools, v.id)), platform);
    assert RoutesTo(listeners[l.port], raw, l, v, platform);
  }

  lemma ListenerAcceptance(
    raw: RawSnapshot, l: RawListener, versions: map<Id, RawVersion>, platform: Platform, allowlist: seq<Prefix>,
    pools: map<Id, seq<Upstream>>)
    requires DistinctIds(raw.upstreams, (u: RawUpstream) => u.id)
    requires Intermediate(raw, versions, platform, allowlist, pools)
    requires forall u | u in raw.upstreams :: CompileUpstream(u, versions, platform, allowlist).Ok?
    ensures ListenerCompiles(l, versions, pools, platform) <==> ListenerAccepted(raw, l, platform)
  {
    hide IsPoolOf, SortPool, CompileUpstream, RegexOk, RegexAccepted, TakesPart, PoolOf, ListenerValue;
    RegexMeans(l.regex, platform);
    if l.versionId in versions {
      var v :| VersionAvailable(raw, v) && v.id == l.versionId;
      PoolMeaning(raw, v, versions, platform, allowlist, pools);
    }
  }

  /** The same rows in another order. */
  ghost predicate Reordered(a: RawSnapshot, b: RawSnapshot) {
    && a.environment == b.environment
    && multiset(a.services) == multiset(b.services) && multiset(a.versions) == multiset(b.versions)
    && multiset(a.upstreams) == multiset(b.upstreams) && multiset(a.listeners) == multiset(b.listeners)
  }

  /** Whether a snapshot loads, and what it then holds, does not depend on the order of its arrays. */
  lemma OrderDoesNotMatter(
    version: nat, environment: string, a: RawSnapshot, b: RawSnapshot, ra: seq<CredentialRecord>, rb: seq<CredentialRecord>,
    platform: Platform, allowlist: seq<Prefix>)
    requires UniqueRows(a, ra) && Reordered(a, b) && multiset(ra) == multiset(rb)
    ensures var x := Build(version, environment, a, ra, platform, allowlist);
      var y := Build(version, environment, b, rb, platform, allowlist);
      (x.Ok? <==> y.Ok?) && (x.Ok? ==> x == y)
  {
    PermutedMembers(a.services, b.services);
    PermutedMembers(a.versions, b.versions);
    PermutedMembers(a.upstreams, b.upstreams);
    PermutedMembers(a.listeners, b.listeners);
    PermutedMembers(ra, rb);
    DistinctIsPermutable(a.services, b.services, (s: RawService) => s.id);
    DistinctIsPermutable(a.versions, b.versions, (v: RawVersion) => v.id);
    DistinctIsPermutable(a.upstreams, b.upstreams, (u: RawUpstream) => u.id);
    DistinctIsPermutable(a.listeners, b.listeners, (l: RawListener) => l.id);
    DistinctIsPermutable(ra, rb, (r: CredentialRecord) => r.prefix);
    SameRowsSameMeaning(version, environment, a, b, ra, rb, platform, allowlist);
  }

  ghost predicate SameRows(a: RawSnapshot, b: RawSnapshot, ra: seq<CredentialRecord>, rb: seq<CredentialRecord>) {
    && a.environment == b.environment
    && (forall x :: x in a.services <==> x in b.services) && (forall x :: x in a.versions <==> x in b.versions)
    && (forall x :: x in a.upstreams <==> x in b.upstreams) && (forall x :: x in a.listeners <==> x in b.listeners)
    && (forall x :: x in ra <==> x in rb)
  }

  lemma SameRowsSameMeaning(
    version: nat, environment: string, a: RawSnapshot, b: RawSnapshot, ra: seq<CredentialRecord>, rb: seq<CredentialRecord>,
    platform: Platform, allowlist: seq<Prefix>)
    requires UniqueRows(a, ra) && UniqueRows(b, rb) && SameRows(a, b, ra, rb)
    ensures var x := Build(version, environment, a, ra, platform, allowlist);
      var y := Build(version, environment, b, rb, platform, allowlist);
      (x.Ok? <==> y.Ok?) && (x.Ok? ==> x == y)
  {
    BuildMeaning(version, environment, a, ra, platform, allowlist);
    BuildMeaning(version, environment, b, rb, platform, allowlist);
    LoadableByRows(environment, a, b, ra, rb, platform, allowlist);
    LoadableByRows(environment, b, a, rb, ra, platform, allowlist);
    var x := Build(version, environment, a, ra, platform, allowlist);
    var y := Build(version, environment, b, rb, platform, allowlist);
    if x.Ok? {
      DescriptionIsUnique(x.value, y.value, version, environment, a, b, ra, rb, platform);
    }
  }

  lemma AvailabilityByRows(
    a: RawSnapshot, b: RawSnapshot, ra: seq<CredentialRecord>, rb: seq<CredentialRecord>, v: RawVersion)
    requires SameRows(a, b, ra, rb)
    ensures VersionAvailable(a, v) <==> VersionAvailable(b, v)
  {
  }

  lemma LoadableByRows(
    environment: string, a: RawSnapshot, b: RawSnapshot, ra: seq<CredentialRecord>, rb: seq<CredentialRecord>,
    platform: Platform, allowlist: seq<Prefix>)
    requires SameRows(a, b, ra, rb)
    ensures Loadable(environment, a, ra, platform, allowlist) ==> Loadable(environment, b, rb, platform, allowlist)
  {
    forall v ensures VersionAvailable(a, v) <==> VersionAvailable(b, v) { AvailabilityByRows(a, b, ra, rb, v); }
    if Loadable(environment, a, ra, platform, allowlist) {
      forall u | u in b.upstreams ensures UpstreamAccepted(b, u, platform, allowlist) {
        assert UpstreamAccepted(a, u, platform, allowlist);
      }
      forall l | l in b.listeners && InService(l) ensures ListenerAccepted(b, l, platform) {
        assert ListenerAccepted(a, l, platform);
      }
    }
  }

  /** Two snapshots described by the same rows are equal. */
  lemma DescriptionIsUnique(
    x: Snapshot, y: Snapshot, version: nat, environment: string, a: RawSnapshot, b: RawSnapshot,
    ra: seq<CredentialRecord>, rb: seq<CredentialRecord>, platform: Platform)
    requires UniqueRows(a, ra) && SameRows(a, b, ra, rb)
    requires Describes(x, version, environment, a, ra, platform) && Describes(y, version, environment, b, rb, platform)
    ensures x == y
  {
    SameListeners(x.listeners, y.listeners, a, b, ra, rb, platform);
    SameCredentials(x.credentials, y.credentials, ra, rb);
  }

  lemma SameListeners(
    x: map<int, Listener>, y: map<int, Listener>, a: RawSnapshot, b: RawSnapshot, ra: seq<CredentialRecord>,
    rb: seq<CredentialRecord>, platform: Platform)
    requires UniqueRows(a, ra) && SameRows(a, b, ra, rb) && ServesExactly(x, a, platform) && ServesExactly(y, b, platform)
    ensures x == y
  {
    hide UniqueRows, RoutesTo;
    forall p ensures p in x <==> p in y {}
    forall p | p in x ensures x[p] == y[p] {
      var l :| l in a.listeners && InService(l) && l.port == p;
      assert Routes(x, a, l, platform) && Routes(y, b, l, platform);
      SameRoute(x[p], y[p], a, b, ra, rb, l, platform);
    }
  }

  lemma SameCredentials(
    x: map<string, Credential>, y: map<string, Credential>, ra: seq<CredentialRecord>, rb: seq<CredentialRecord>)
    requires (forall r :: r in ra <==> r in rb) && HoldsExactly(x, ra) && HoldsExactly(y, rb)
    ensures x == y
  {
    hide CredentialOf;
    forall p | p in x ensures p in y && x[p] == y[p] {
      var r :| r in ra && r.prefix == p;
      CredentialMeans(r, x[p]);
      CredentialMeans(r, y[p]);
    }
    assert x.Keys == y.Keys;
  }

  lemma SameRoute(
    x: Listener, y: Listener, a: RawSnapshot, b: RawSnapshot, ra: seq<CredentialRecord>, rb: seq<CredentialRecord>,
    l: RawListener, platform: Platform)
    requires UniqueRows(a, ra) && SameRows(a, b, ra, rb)
    requires exists v :: RoutesTo(x, a, l, v, platform)
    requires exists w :: RoutesTo(y, b, l, w, platform)
    ensures x == y
  {
    hide ServedAs, Compiles, TakesPart;
    var v :| RoutesTo(x, a, l, v, platform);
    var w :| RoutesTo(y, b, l, w, platform);
    SameIdSameRow(a.versions, v, w, (r: RawVersion) => r.id);
    forall u ensures u in x.upstreams <==> u in y.upstreams {}
    StrictPoolsAgree(x.upstreams, y.upstreams);
    SameService(x, y, l, v, platform);
  }

  lemma SameService(x: Listener, y: Listener, l: RawListener, v: RawVersion, platform: Platform)
    requires ServedAs(x, l, v, platform) && ServedAs(y, l, v, platform) && x.upstreams == y.upstreams
    ensures x == y
  {
    hide IsDefaultType;
    assert x.methods == y.methods;
    assert x.contentTypes == y.contentTypes;
  }

  lemma StrictPoolsAgree(p: seq<Upstream>, q: seq<Upstream>)
    requires StrictlyById(p) && StrictlyById(q)
    requires forall u :: u in p <==> u in q
    ensures p == q
  {
    var less := (m: Upstream, n: Upstream) => TextBefore(m.id, n.id);
    var s := set u | u in p;
    forall m, n | m in s && n in s && m != n ensures less(m, n) != less(n, m) {
      TextOrderIsTotal(m.id, n.id);
      var i :| 0 <= i < |p| && p[i] == m;
      var j :| 0 <= j < |p| && p[j] == n;
      TextOrderIsTotal(p[i].id, p[j].id);
    }
    forall m | m in s ensures !less(m, m) { TextOrderIsTotal(m.id, m.id); }
    forall m, n, o | m in s && n in s && o in s && less(m, n) && less(n, o) ensures less(m, o) {
      TextOrderIsTransitive(m.id, n.id, o.id);
    }
    AscendingIsUnique(less, s, p, q);
  }
}
