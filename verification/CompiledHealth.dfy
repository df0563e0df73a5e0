/** The objects whose health is carried over are those of the compiled snapshot:
    the same ports, and on each port the same upstreams. */
module CompiledHealth {
  import opened Prelude
  import opened Tables
  import opened SnapshotCompiler
  import opened SnapshotMeaning
  import opened HealthCarry

  /** The upstream rows that a compiled pool can hold. */
  function RowsOf(us: seq<RawUpstream>): seq<Row> {
    if us == [] then []
    else (if InRange(us[0]) then [Row(us[0].id, us[0].versionId)] else []) + RowsOf(us[1..])
  }

  /** The listener rows that are served. */
  function RoutesOf(ls: seq<RawListener>): seq<Route> {
    if ls == [] then []
    else (if Live(ls[0]) then [Route(ls[0].port, ls[0].versionId)] else []) + RoutesOf(ls[1..])
  }

  lemma {:induction false} RowsAre(us: seq<RawUpstream>, id: Id, version: Id)
    ensures Row(id, version) in RowsOf(us) <==> exists u | u in us :: InRange(u) && u.id == id && u.versionId == version
  {
    if us != [] {
      MembersSplit(us);
      RowsAre(us[1..], id, version);
    }
  }

  lemma {:induction false} RoutesAre(ls: seq<RawListener>, port: int, version: Id)
    ensures Route(port, version) in RoutesOf(ls) <==> exists l | l in ls :: Live(l) && l.port == port && l.versionId == version
  {
    if ls != [] {
      MembersSplit(ls);
      RoutesAre(ls[1..], port, version);
    }
  }

  lemma {:induction false} RowsAreDistinct(us: seq<RawUpstream>)
    requires DistinctIds(us, (u: RawUpstream) => u.id)
    ensures DistinctRows(RowsOf(us))
  {
    if us != [] {
      DistinctTail(us, (u: RawUpstream) => u.id);
      RowsAreDistinct(us[1..]);
      forall r | r in RowsOf(us[1..]) ensures r.id != us[0].id { RowsAre(us[1..], r.id, r.version); }
    }
  }

  lemma {:induction false} RoutesAreDistinct(ls: seq<RawListener>)
    requires DistinctIds(ls, (l: RawListener) => l.id)
    requires forall a, b | a in ls && b in ls && Live(a) && Live(b) && a.port == b.port :: a == b
    ensures DistinctPorts(RoutesOf(ls))
  {
    if ls != [] {
      DistinctTail(ls, (l: RawListener) => l.id);
      MembersSplit(ls);
      RoutesAreDistinct(ls[1..]);
      forall r | r in RoutesOf(ls[1..]) && Live(ls[0]) ensures r.port != ls[0].port { RoutesAre(ls[1..], r.port, r.version); }
    }
  }

  /** The pool has the ids of the compiled upstreams. */
  ghost predicate SameIds(pool: seq<Instance>, upstreams: seq<Upstream>) {
    forall id :: (exists u :: u in pool && u.id == id) <==> HasId(upstreams, id)
  }

  ghost predicate HasId(upstreams: seq<Upstream>, id: Id) { exists x :: x in upstreams && x.id == id }

  /** The route's port is served from exactly the rows of its version. */
  ghost predicate CompiledFrom(s: Snapshot, rows: seq<Row>, t: Route) {
    t.port in s.listeners && forall id :: HasId(s.listeners[t.port].upstreams, id) <==> Row(id, t.version) in rows
  }

  /** The upstreams of a snapshot, by id. */
  ghost function IdsIn(s: Snapshot): set<Id> {
    set p, x | p in s.listeners && x in s.listeners[p].upstreams :: x.id
  }

  /** A served port's compiled pool holds exactly the rows of its version. */
  lemma CompiledPool(
    s: Snapshot, version: nat, environment: string, raw: RawSnapshot, records: seq<CredentialRecord>, platform: Platform,
    allowlist: seq<Prefix>, l: RawListener, id: Id)
    requires UniqueRows(raw, records) && Build(version, environment, raw, records, platform, allowlist) == Ok(s)
    requires l in raw.listeners && Live(l)
    ensures l.port in s.listeners && (HasId(s.listeners[l.port].upstreams, id) <==> Row(id, l.versionId) in RowsOf(raw.upstreams))
  {
    hide Build, UniqueRows, ListenersAccepted, HoldsExactly, VersionAvailable, AddressAllowed, SchemeOf, PathOf;
    BuildMeaning(version, environment, raw, records, platform, allowlist);
    RowsAre(raw.upstreams, id, l.versionId);
    assert Routes(s.listeners, raw, l, platform);
    var served := s.listeners[l.port];
    var v :| RoutesTo(served, raw, l, v, platform);
    PoolIds(served.upstreams, raw, v, platform, allowlist, id);
  }

  lemma PoolIds(pool: seq<Upstream>, raw: RawSnapshot, v: RawVersion, platform: Platform, allowlist: seq<Prefix>, id: Id)
    requires IsPoolOf(pool, raw, v, platform)
    requires forall u | u in raw.upstreams :: UpstreamAccepted(raw, u, platform, allowlist)
    ensures HasId(pool, id) <==> exists u | u in raw.upstreams :: InRange(u) && u.id == id && u.versionId == v.id
  {
    hide StrictlyById, VersionAvailable, AddressAllowed;
    if x :| x in pool && x.id == id {
      assert IsCompiledRow(raw, v, platform, x);
    }
    if u :| u in raw.upstreams && InRange(u) && u.id == id && u.versionId == v.id {
      assert UpstreamAccepted(raw, u, platform, allowlist);
      var x := Upstream(
        u.id, SchemeOf(u), platform.parseAddress(u.address).value, u.port, u.weight, PathOf(u, WithDefaultPath(v).healthPath));
      assert Compiles(u, v, platform, x);
      assert IsCompiledRow(raw, v, platform, x);
    }
  }

  /** Whatever loads has rows and routes that BuildPools takes, and they describe the compiled pools. */
  lemma RowsDescribeThePools(
    s: Snapshot, version: nat, environment: string, raw: RawSnapshot, records: seq<CredentialRecord>, platform: Platform,
    allowlist: seq<Prefix>)
    requires UniqueRows(raw, records) && Build(version, environment, raw, records, platform, allowlist) == Ok(s)
    ensures DistinctRows(RowsOf(raw.upstreams)) && DistinctPorts(RoutesOf(raw.listeners))
    ensures forall p :: p in s.listeners <==> exists t :: t in RoutesOf(raw.listeners) && t.port == p
    ensures forall t | t in RoutesOf(raw.listeners) :: CompiledFrom(s, RowsOf(raw.upstreams), t)
    ensures IdsIn(s) == Routed(RowsOf(raw.upstreams), RoutesOf(raw.listeners))
  {
    hide Build, HoldsExactly, HasId;
    BuildMeaning(version, environment, raw, records, platform, allowlist);
    RowsAreDistinct(raw.upstreams);
    RoutesAreDistinct(raw.listeners);
    ServedPortsAreRoutes(s, raw, platform);
    forall t | t in RoutesOf(raw.listeners) ensures CompiledFrom(s, RowsOf(raw.upstreams), t) {
      RoutesAre(raw.listeners, t.port, t.version);
      var l :| l in raw.listeners && Live(l) && l.port == t.port && l.versionId == t.version;
      forall id ensures t.port in s.listeners
        && (HasId(s.listeners[t.port].upstreams, id) <==> Row(id, t.version) in RowsOf(raw.upstreams))
      {
        CompiledPool(s, version, environment, raw, records, platform, allowlist, l, id);
      }
    }
    IdsAreRouted(s, RowsOf(raw.upstreams), RoutesOf(raw.listeners));
  }

  lemma ServedPortsAreRoutes(s: Snapshot, raw: RawSnapshot, platform: Platform)
    requires ServesExactly(s.listeners, raw, platform)
    ensures forall p :: p in s.listeners <==> exists t :: t in RoutesOf(raw.listeners) && t.port == p
  {
    hide Routes;
    forall p ensures p in s.listeners <==> exists t :: t in RoutesOf(raw.listeners) && t.port == p {
      if p in s.listeners {
        var l :| l in raw.listeners && Live(l) && l.port == p;
        RoutesAre(raw.listeners, p, l.versionId);
      }
      if t :| t in RoutesOf(raw.listeners) && t.port == p { RoutesAre(raw.listeners, t.port, t.version); }
    }
  }

  lemma IdsAreRouted(s: Snapshot, rows: seq<Row>, routes: seq<Route>)
    requires forall p :: p in s.listeners <==> exists t :: t in routes && t.port == p
    requires forall t | t in routes :: CompiledFrom(s, rows, t)
    ensures IdsIn(s) == Routed(rows, routes)
  {
    forall id ensures id in IdsIn(s) <==> id in Routed(rows, routes) {
      if id in IdsIn(s) {
        var p, x :| p in s.listeners && x in s.listeners[p].upstreams && x.id == id;
        var t :| t in routes && t.port == p;
        assert CompiledFrom(s, rows, t) && HasId(s.listeners[t.port].upstreams, id);
      }
      if id in Routed(rows, routes) {
        var r, t :| r in rows && t in routes && r.version == t.version && r.id == id;
        assert CompiledFrom(s, rows, t) && r == Row(id, t.version);
        assert HasId(s.listeners[t.port].upstreams, id);
      }
    }
  }

  /** Loading a stored configuration that compiles: the objects stand on exactly the compiled ports, each port's pool has
      exactly the compiled upstreams, and health is carried over to exactly the upstreams of the compiled snapshot. */
  method LoadCompiled(
    fleet: Fleet, ghost health: map<Id, bool>, ghost s: Snapshot, ghost version: nat, ghost environment: string, raw: RawSnapshot,
    ghost records: seq<CredentialRecord>, ghost platform: Platform, ghost allowlist: seq<Prefix>)
    requires fleet.Valid() && Shows(Members(fleet.current), health)
    requires UniqueRows(raw, records) && Build(version, environment, raw, records, platform, allowlist) == Ok(s)
    modifies fleet
    ensures fleet.Valid() && fleet.current.Keys == s.listeners.Keys
    ensures forall p | p in s.listeners :: p in fleet.current && SameIds(fleet.current[p], s.listeners[p].upstreams)
    ensures Shows(Members(fleet.current), Carried(health, IdsIn(s)))
    ensures forall u | u in Members(fleet.current) :: fresh(u)
  {
    hide Build, UniqueRows, HasId, IdsIn, Routed, RowsOf, RoutesOf, DistinctRows, DistinctPorts;
    RowsDescribeThePools(s, version, environment, raw, records, platform, allowlist);
    var rows, routes := RowsOf(raw.upstreams), RoutesOf(raw.listeners);
    fleet.Load(rows, routes, health);
    assert forall p :: p in fleet.current <==> p in s.listeners;
    forall p | p in s.listeners ensures p in fleet.current && SameIds(fleet.current[p], s.listeners[p].upstreams) {
      var t :| t in routes && t.port == p;
      assert CompiledFrom(s, rows, t) && PoolIs(fleet.current[t.port], rows, t.version);
    }
  }
}
