/** Instance health across snapshot swaps: the objects buildSnapshot makes and
    shares between listeners, copyHealth and probe of internal/dataplane/runtime.go. */
module HealthCarry {
  import opened Tables

  /** One upstream of a built snapshot as an object with its health; it starts out healthy. */
  class Instance {
    const id: Id
    var healthy: bool

    constructor (id: Id)
      ensures this.id == id && healthy
    {
      this.id, healthy := id, true;
    }
  }

  /** The pools of a snapshot, by port. */
  type Pools = map<int, seq<Instance>>

  ghost function Members(pools: Pools): set<Instance> { set p, u | p in pools && u in pools[p] :: u }

  /** An id names one object, however many listeners share it. */
  ghost predicate OneObjectPerId(us: set<Instance>) { forall u, v | u in us && v in us && u.id == v.id :: u == v }

  /** The objects' health, by id. */
  ghost predicate Shows(us: set<Instance>, health: map<Id, bool>)
    reads us
  {
    && (forall u | u in us :: u.id in health && health[u.id] == u.healthy)
    && (forall id | id in health :: exists u :: u in us && u.id == id)
  }

  // ------------------------------------------------------------ in the heap

  /** An upstream row: its id and its service version; a listener row: its port and its service version. */
  datatype Row = Row(id: Id, version: Id)
  datatype Route = Route(port: int, version: Id)

  ghost predicate DistinctRows(rows: seq<Row>) { forall i, j | 0 <= i < j < |rows| :: rows[i].id != rows[j].id }
  ghost predicate DistinctPorts(routes: seq<Route>) { forall i, j | 0 <= i < j < |routes| :: routes[i].port != routes[j].port }

  /** The ids of the upstreams some listener uses. */
  ghost function Routed(rows: seq<Row>, routes: seq<Route>): set<Id> {
    set r, t | r in rows && t in routes && r.version == t.version :: r.id
  }

  function PoolFor(byVersion: map<Id, seq<Instance>>, version: Id): seq<Instance> {
    if version in byVersion then byVersion[version] else []
  }

  /** made[i] is the object of row i, and pools groups the objects by version. */
  ghost predicate Grouped(rows: seq<Row>, made: seq<Instance>, byVersion: map<Id, seq<Instance>>) {
    && |made| == |rows| && (forall i | 0 <= i < |rows| :: made[i].id == rows[i].id)
    && (forall v, u | v in byVersion && u in byVersion[v] :: exists i :: 0 <= i < |rows| && made[i] == u && rows[i].version == v)
    && (forall i | 0 <= i < |rows| :: rows[i].version in byVersion && made[i] in byVersion[rows[i].version])
  }

  lemma GroupedOneMore(rows: seq<Row>, i: nat, made: seq<Instance>, byVersion: map<Id, seq<Instance>>, u: Instance)
    requires i < |rows| && Grouped(rows[..i], made, byVersion) && u.id == rows[i].id
    ensures var v := rows[i].version;
      Grouped(rows[..i + 1], made + [u], byVersion[v := PoolFor(byVersion, v) + [u]])
  {
    var v, more := rows[i].version, made + [u];
    var next := byVersion[v := PoolFor(byVersion, v) + [u]];
    forall w, x | w in next && x in next[w] ensures exists k :: 0 <= k < i + 1 && more[k] == x && rows[..i + 1][k].version == w {
      if x == u && w == v {
        assert more[i] == x;
      } else {
        assert w in byVersion && x in byVersion[w];
        var k :| 0 <= k < i && made[k] == x && rows[..i][k].version == w;
        assert more[k] == x && rows[..i + 1][k] == rows[..i][k];
      }
    }
    forall k | 0 <= k < i + 1 ensures rows[..i + 1][k].version in next && more[k] in next[rows[..i + 1][k].version] {
      if k < i { assert rows[..i][k] == rows[k]; }
    }
  }

  /** Every row in use is an object of the snapshot and nothing else is. */
  lemma GroupedMembers(
    rows: seq<Row>, routes: seq<Route>, made: seq<Instance>, byVersion: map<Id, seq<Instance>>, pools: Pools)
    requires Grouped(rows, made, byVersion) && DistinctRows(rows)
    requires forall t | t in routes :: t.port in pools && pools[t.port] == PoolFor(byVersion, t.version)
    requires forall p | p in pools :: exists t :: t in routes && t.port == p
    ensures OneObjectPerId(Members(pools)) && (forall u | u in Members(pools) :: u in made && u.id in Routed(rows, routes))
    ensures forall id | id in Routed(rows, routes) :: exists u :: u in Members(pools) && u.id == id
  {
    forall u | u in Members(pools) ensures exists i :: 0 <= i < |rows| && made[i] == u && u.id in Routed(rows, routes) {
      var p :| p in pools && u in pools[p];
      var t :| t in routes && t.port == p;
      var i :| 0 <= i < |rows| && made[i] == u && rows[i].version == t.version;
      assert rows[i] in rows;
    }
    forall id | id in Routed(rows, routes) ensures exists u :: u in Members(pools) && u.id == id {
      var r, t :| r in rows && t in routes && r.version == t.version && r.id == id;
      var i :| 0 <= i < |rows| && rows[i] == r;
      assert made[i] in pools[t.port];
      assert made[i] in Members(pools);
    }
  }

  /** The pool holds exactly the objects of the rows of one version. */
  ghost predicate PoolIs(pool: seq<Instance>, rows: seq<Row>, version: Id) {
    forall id :: (exists u :: u in pool && u.id == id) <==> Row(id, version) in rows
  }

  lemma GroupedPool(rows: seq<Row>, made: seq<Instance>, byVersion: map<Id, seq<Instance>>, version: Id)
    requires Grouped(rows, made, byVersion)
    ensures PoolIs(PoolFor(byVersion, version), rows, version)
  {
    var pool := PoolFor(byVersion, version);
    forall id ensures (exists u :: u in pool && u.id == id) <==> Row(id, version) in rows {
      if u :| u in pool && u.id == id {
        var i :| 0 <= i < |rows| && made[i] == u && rows[i].version == version;
        assert rows[i] == Row(id, version);
      }
      if Row(id, version) in rows {
        var i :| 0 <= i < |rows| && rows[i] == Row(id, version);
        assert made[i] in pool && made[i].id == id;
      }
    }
  }

  /** buildSnapshot's objects: one per row, all healthy, one pool per version shared by every listener of that version. */
  method BuildPools(rows: seq<Row>, routes: seq<Route>) returns (pools: Pools)
    requires DistinctRows(rows) && DistinctPorts(routes)
    ensures forall u | u in Members(pools) :: fresh(u) && u.healthy && u.id in Routed(rows, routes)
    ensures forall id | id in Routed(rows, routes) :: exists u :: u in Members(pools) && u.id == id
    ensures OneObjectPerId(Members(pools))
    ensures forall p :: p in pools <==> exists t :: t in routes && t.port == p
    ensures forall t | t in routes :: t.port in pools && PoolIs(pools[t.port], rows, t.version)
    ensures forall s, t | s in routes && t in routes && s.version == t.version ::
      s.port in pools && t.port in pools && pools[s.port] == pools[t.port]
  {
    var byVersion: map<Id, seq<Instance>> := map[];
    ghost var made: seq<Instance> := [];
    for i := 0 to |rows|
      invariant Grouped(rows[..i], made, byVersion)
      invariant forall u | u in made :: fresh(u) && u.healthy
    {
      var u := new Instance(rows[i].id);
      GroupedOneMore(rows, i, made, byVersion, u);
      var v := rows[i].version;
      byVersion := byVersion[v := PoolFor(byVersion, v) + [u]];
      made := made + [u];
    }
    assert rows[..|rows|] == rows;
    pools := map[];
    for i := 0 to |routes|
      invariant forall k | 0 <= k < i :: routes[k].port in pools && pools[routes[k].port] == PoolFor(byVersion, routes[k].version)
      invariant forall p :: p in pools <==> exists t :: t in routes[..i] && t.port == p
    {
      pools := pools[routes[i].port := PoolFor(byVersion, routes[i].version)];
      assert routes[..i + 1] == routes[..i] + [routes[i]];
    }
    assert routes[..|routes|] == routes;
    GroupedMembers(rows, routes, made, byVersion, pools);
    forall t | t in routes ensures t.port in pools && PoolIs(pools[t.port], rows, t.version) {
      GroupedPool(rows, made, byVersion, t.version);
    }
  }

  lemma SomePort(ports: set<int>)
    ensures ports == {} || exists p :: p in ports
  {
    if forall p :: p !in ports { assert ports == {}; }
  }

  /** The first loop of copyHealth. */
  method StatesOf(pools: Pools) returns (states: map<Id, bool>)
    requires OneObjectPerId(Members(pools))
    ensures Shows(Members(pools), states)
  {
    states := map[];
    var ports := pools.Keys;
    while ports != {}
      invariant ports <= pools.Keys
      invariant forall p, u | p in pools && p !in ports && u in pools[p] :: u.id in states && states[u.id] == u.healthy
      invariant forall id | id in states :: exists u :: u in Members(pools) && u.id == id && states[id] == u.healthy
      decreases ports
    {
      SomePort(ports);
      var p :| p in ports;
      for i := 0 to |pools[p]|
        invariant forall q, u | q in pools && q !in ports && u in pools[q] :: u.id in states && states[u.id] == u.healthy
        invariant forall k | 0 <= k < i :: pools[p][k].id in states && states[pools[p][k].id] == pools[p][k].healthy
        invariant forall id | id in states :: exists u :: u in Members(pools) && u.id == id && states[id] == u.healthy
      {
        assert p in pools && pools[p][i] in pools[p];
        states := states[pools[p][i].id := pools[p][i].healthy];
      }
      ports := ports - {p};
    }
  }

  /** The second loop of copyHealth, and the loop of probe: every object whose id has a new state gets it. */
  method SetStates(pools: Pools, states: map<Id, bool>)
    modifies Members(pools)
    ensures forall u | u in Members(pools) :: u.healthy == if u.id in states then states[u.id] else old(u.healthy)
  {
    var ports := pools.Keys;
    while ports != {}
      invariant ports <= pools.Keys
      invariant forall p, u | p in pools && p !in ports && u in pools[p] ::
        u.healthy == if u.id in states then states[u.id] else old(u.healthy)
      invariant forall u | u in Members(pools) :: u.healthy == old(u.healthy) || (u.id in states && u.healthy == states[u.id])
      decreases ports
    {
      SomePort(ports);
      var p :| p in ports;
      for i := 0 to |pools[p]|
        invariant forall q, u | q in pools && q !in ports && u in pools[q] ::
          u.healthy == if u.id in states then states[u.id] else old(u.healthy)
        invariant forall k | 0 <= k < i :: var u := pools[p][k];
          u.healthy == if u.id in states then states[u.id] else old(u.healthy)
        invariant forall u | u in Members(pools) :: u.healthy == old(u.healthy) || (u.id in states && u.healthy == states[u.id])
      {
        var u := pools[p][i];
        assert p in pools && u in pools[p];
        if u.id in states { u.healthy := states[u.id]; }
      }
      ports := ports - {p};
    }
  }

  /** Carrying health over to a snapshot with the given ids. */
  function Carried(health: map<Id, bool>, ids: set<Id>): map<Id, bool> {
    map id | id in ids :: if id in health then health[id] else true
  }

  /** A probe's outcomes; an upstream whose probe was cancelled keeps its state. */
  function Probed(health: map<Id, bool>, outcomes: map<Id, bool>): map<Id, bool> {
    map id | id in health :: if id in outcomes then outcomes[id] else health[id]
  }

  /** The current snapshot of a runtime. */
  class Fleet {
    var current: Pools

    ghost predicate Valid()
      reads this
    {
      OneObjectPerId(Members(current))
    }

    constructor ()
      ensures Valid() && current == map[]
    {
      current := map[];
    }

    /** A successful load: fresh objects, copyHealth, and the swap. */
    method Load(rows: seq<Row>, routes: seq<Route>, ghost health: map<Id, bool>)
      requires Valid() && Shows(Members(current), health) && DistinctRows(rows) && DistinctPorts(routes)
      modifies this
      ensures Valid() && Shows(Members(current), Carried(health, Routed(rows, routes)))
      ensures forall u | u in Members(current) :: fresh(u)
      ensures forall p :: p in current <==> exists t :: t in routes && t.port == p
      ensures forall t | t in routes :: t.port in current && PoolIs(current[t.port], rows, t.version)
      ensures forall s, t | s in routes && t in routes && s.version == t.version ::
        s.port in current && t.port in current && current[s.port] == current[t.port]
    {
      var next := BuildPools(rows, routes);
      var states := StatesOf(current);
      assert forall id :: id in states <==> id in health;
      SetStates(next, states);
      current := next;
    }

    /** probe, with the outcomes it had. */
    method Probe(outcomes: map<Id, bool>, ghost health: map<Id, bool>)
      requires Valid() && Shows(Members(current), health)
      modifies Members(current)
      ensures Valid() && Shows(Members(current), Probed(health, outcomes))
    {
      SetStates(current, outcomes);
    }
  }

  // ------------------------------------------------------------- over history

  datatype Event = Loaded(ids: set<Id>) | Probes(outcomes: map<Id, bool>)

  /** The health shown after the first n events. */
  function HealthAfter(events: seq<Event>, n: nat): map<Id, bool>
    requires n <= |events|
  {
    if n == 0 then map[]
    else
      match events[n - 1]
      case Loaded(ids) => Carried(HealthAfter(events, n - 1), ids)
      case Probes(outcomes) => Probed(HealthAfter(events, n - 1), outcomes)
  }

  /** Every load from event i on, before event n, kept the upstream. */
  ghost predicate KeptSince(events: seq<Event>, i: nat, n: nat, id: Id)
    requires n <= |events|
  {
    forall l | i <= l < n && events[l].Loaded? :: id in events[l].ids
  }

  ghost predicate NotProbedSince(events: seq<Event>, i: nat, n: nat, id: Id)
    requires n <= |events|
  {
    forall p | i <= p < n && events[p].Probes? :: id !in events[p].outcomes
  }

  /** The upstream entered the chain of snapshots with load e. */
  ghost predicate Enters(events: seq<Event>, e: nat, id: Id)
    requires e < |events|
  {
    events[e].Loaded? && id in events[e].ids && id !in HealthAfter(events, e)
  }

  /** Since it entered with load e the upstream has stayed, and v is the outcome of its last probe, or true without one. */
  ghost predicate WordSince(events: seq<Event>, e: nat, n: nat, id: Id, v: bool)
    requires n <= |events|
  {
    && e < n && Enters(events, e, id) && KeptSince(events, e, n, id)
    && ((v && NotProbedSince(events, e, n, id)) || exists p: nat :: e < p && SaysSo(events, p, n, id, v))
  }

  /** Probe p, the last of the upstream before event n, said v. */
  ghost predicate SaysSo(events: seq<Event>, p: nat, n: nat, id: Id, v: bool)
    requires n <= |events|
  {
    && p < n && events[p].Probes? && id in events[p].outcomes && events[p].outcomes[id] == v
    && NotProbedSince(events, p + 1, n, id)
  }

  ghost predicate LastWord(events: seq<Event>, n: nat, id: Id, v: bool)
    requires n <= |events|
  {
    exists e: nat :: WordSince(events, e, n, id, v)
  }

  /** An upstream is in the snapshot exactly when the last load has it. */
  lemma {:induction false} PresentMeansLoaded(events: seq<Event>, n: nat, id: Id)
    requires n <= |events|
    ensures id in HealthAfter(events, n) ==> exists e: nat :: e < n && Enters(events, e, id) && KeptSince(events, e, n, id)
  {
    if n > 0 && id in HealthAfter(events, n) {
      PresentMeansLoaded(events, n - 1, id);
      if id in HealthAfter(events, n - 1) {
        var e: nat :| e < n - 1 && Enters(events, e, id) && KeptSince(events, e, n - 1, id);
        assert Enters(events, e, id) && KeptSince(events, e, n, id);
      } else {
        assert Enters(events, n - 1, id) && KeptSince(events, n - 1, n, id);
      }
    }
  }

  /** Over any interleaving of loads and probes, an upstream's health is the outcome of its last probe since it most recently
      entered the snapshot, or healthy if it was not probed since. */
  lemma {:induction false} HealthIsTheLastWord(events: seq<Event>, n: nat, id: Id)
    requires n <= |events| && id in HealthAfter(events, n)
    ensures LastWord(events, n, id, HealthAfter(events, n)[id])
  {
    var before, v := HealthAfter(events, n - 1), HealthAfter(events, n)[id];
    if id !in before {
      assert Enters(events, n - 1, id);
      assert WordSince(events, n - 1, n, id, v);
    } else {
      HealthIsTheLastWord(events, n - 1, id);
      var e: nat :| WordSince(events, e, n - 1, id, before[id]);
      assert KeptSince(events, e, n, id);
      if events[n - 1].Probes? && id in events[n - 1].outcomes {
        assert SaysSo(events, n - 1, n, id, v);
      } else {
        assert v == before[id];
        UnprobedWordStays(events, e, n, id, v);
      }
      assert WordSince(events, e, n, id, v);
    }
  }

  lemma UnprobedWordStays(events: seq<Event>, e: nat, n: nat, id: Id, v: bool)
    requires 0 < n <= |events| && WordSince(events, e, n - 1, id, v) && KeptSince(events, e, n, id)
    requires events[n - 1].Probes? ==> id !in events[n - 1].outcomes
    ensures WordSince(events, e, n, id, v)
  {
    if !(v && NotProbedSince(events, e, n, id)) {
      var p: nat :| e < p && SaysSo(events, p, n - 1, id, v);
      assert SaysSo(events, p, n, id, v);
    }
  }

  /** The last word is never both good and bad. */
  lemma LastWordIsOne(events: seq<Event>, n: nat, id: Id)
    requires n <= |events| && LastWord(events, n, id, true)
    ensures !LastWord(events, n, id, false)
  {
    if LastWord(events, n, id, false) {
      var e: nat :| WordSince(events, e, n, id, true);
      var f: nat :| WordSince(events, f, n, id, false);
      EntryIsUnique(events, e, f, n, id);
      var p: nat :| f < p && SaysSo(events, p, n, id, false);
      if q: nat :| e < q && SaysSo(events, q, n, id, true) {
        assert false;
      }
    }
  }

  lemma {:induction false} KeptMeansPresent(events: seq<Event>, e: nat, n: nat, id: Id)
    requires e < n <= |events| && events[e].Loaded? && id in events[e].ids && KeptSince(events, e, n, id)
    ensures id in HealthAfter(events, n)
  {
    if e + 1 < n { KeptMeansPresent(events, e, n - 1, id); }
  }

  lemma EntryIsUnique(events: seq<Event>, e: nat, f: nat, n: nat, id: Id)
    requires e < n <= |events| && f < n && Enters(events, e, id) && Enters(events, f, id)
    requires KeptSince(events, e, n, id) && KeptSince(events, f, n, id)
    ensures e == f
  {
    if e < f { KeptMeansPresent(events, e, f, id); }
    if f < e { KeptMeansPresent(events, f, e, id); }
  }

  // ------------------------------------------------------------ whole replays

  /** What the event loop does to the snapshot: a load of these rows, or a round of probes. */
  datatype Happening = Loads(rows: seq<Row>, routes: seq<Route>) | ProbeRound(outcomes: map<Id, bool>)

  ghost function EventOf(h: Happening): Event {
    match h
    case Loads(rows, routes) => Loaded(Routed(rows, routes))
    case ProbeRound(outcomes) => Probes(outcomes)
  }

  ghost function EventsOf(hs: seq<Happening>): (r: seq<Event>)
    ensures |r| == |hs| && forall i | 0 <= i < |hs| :: r[i] == EventOf(hs[i])
  {
    if hs == [] then [] else EventsOf(hs[..|hs| - 1]) + [EventOf(hs[|hs| - 1])]
  }

  /** Any loads and probe rounds, from an empty runtime on: every upstream of the current snapshot shows the outcome of its
      last probe since it most recently entered, or healthy without one. */
  method Replay(happenings: seq<Happening>) returns (fleet: Fleet)
    requires forall h | h in happenings && h.Loads? :: DistinctRows(h.rows) && DistinctPorts(h.routes)
    ensures fresh(fleet) && fleet.Valid()
    ensures Shows(Members(fleet.current), HealthAfter(EventsOf(happenings), |happenings|))
    ensures forall u | u in Members(fleet.current) :: LastWord(EventsOf(happenings), |happenings|, u.id, u.healthy)
  {
    hide LastWord, OneObjectPerId;
    fleet := new Fleet();
    NothingShown(fleet.current);
    ghost var events := EventsOf(happenings);
    for i := 0 to |happenings|
      invariant fresh(fleet) && fleet.Valid() && Shows(Members(fleet.current), HealthAfter(events, i))
      invariant forall u | u in Members(fleet.current) :: fresh(u)
    {
      assert happenings[i] in happenings && events[i] == EventOf(happenings[i]);
      match happenings[i] {
        case Loads(rows, routes) => fleet.Load(rows, routes, HealthAfter(events, i));
        case ProbeRound(outcomes) => fleet.Probe(outcomes, HealthAfter(events, i));
      }
    }
    forall u | u in Members(fleet.current) ensures LastWord(events, |happenings|, u.id, u.healthy) {
      HealthIsTheLastWord(events, |happenings|, u.id);
    }
  }

  lemma NothingShown(pools: Pools)
    requires pools == map[]
    ensures Shows(Members(pools), map[]) && Members(pools) == {} && OneObjectPerId(Members(pools))
  {
  }
}
