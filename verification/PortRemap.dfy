/** internal/database/migrations/006_remap_default_ports.sql: six statements that
    move an installation from the first default port ranges to the later ones. */
module PortRemap {
  import opened Prelude
  import opened Tables
  import opened SnapshotCompiler
  import opened SnapshotMeaning
  import opened PortLifecycle

  datatype Range = Range(first: int, last: int)

  /** The tables the migration touches. */
  datatype Installation = Installation(ranges: map<string, Range>, assignments: Assignments, rows: map<nat, ConfigurationRow>)

  /** The check constraint on environments.name. */
  predicate Named(environment: string) { environment in {"development", "staging", "production"} }

  function OldFirst(environment: string): int {
    if environment == "development" then 18000 else if environment == "staging" then 19000 else 20000
  }

  function Shift(environment: string): int {
    if environment == "development" then 13900 else if environment == "staging" then 14800 else 15700
  }

  predicate InOldWindow(environment: string, port: int) { OldFirst(environment) <= port <= OldFirst(environment) + 99 }

  /** The environment still has its first default range. */
  predicate Remapped(ranges: map<string, Range>, environment: string) {
    environment in ranges && Named(environment) && ranges[environment] == Range(OldFirst(environment), OldFirst(environment) + 99)
  }

  function Move(ranges: map<string, Range>, environment: string): int {
    if Remapped(ranges, environment) then Shift(environment) else 0
  }

  /** What the DELETE takes: it looks at port_min alone. */
  predicate Deleted(ranges: map<string, Range>, s: Slot) {
    s.0 in ranges && Named(s.0) && ranges[s.0].first == OldFirst(s.0) && InOldWindow(s.0, s.1)
  }

  function Series(first: int, last: int): (r: set<int>)
    ensures forall p :: p in r <==> first <= p <= last
    decreases last - first + 1
  {
    if last < first then {} else Series(first, last - 1) + {last}
  }

  function OldWindow(environment: string): set<int> { Series(OldFirst(environment), OldFirst(environment) + 99) }

  /** The new slots of generate_series(port_min, port_max). */
  function Targets(ranges: map<string, Range>): (r: set<Slot>)
    ensures forall s: Slot :: s in r <==> Remapped(ranges, s.0) && InOldWindow(s.0, s.1 + Shift(s.0))
  {
    var r := set e, p | e in ranges.Keys && Remapped(ranges, e) && p in OldWindow(e) :: (e, p - Shift(e));
    assert forall s: Slot | Remapped(ranges, s.0) && InOldWindow(s.0, s.1 + Shift(s.0)) :: s in r by {
      hide OldFirst, Shift;
      forall s: Slot | Remapped(ranges, s.0) && InOldWindow(s.0, s.1 + Shift(s.0)) ensures s in r {
        var p := s.1 + Shift(s.0);
        assert p in OldWindow(s.0) && (s.0, p - Shift(s.0)) == s;
      }
    }
    r
  }

  /** The old and the new window of an environment have no port in common. */
  lemma WindowsApart(environment: string)
    ensures forall p :: InOldWindow(environment, p) ==> !InOldWindow(environment, p + Shift(environment))
    ensures forall p :: InOldWindow(environment, p) ==> !InOldWindow(environment, p - Shift(environment))
    ensures forall p :: InOldWindow(environment, p - Shift(environment)) ==> !InOldWindow(environment, p) && !InNewWindow(environment, p)
    ensures forall p :: InNewWindow(environment, p - Shift(environment)) <==> InOldWindow(environment, p)
    ensures forall p :: InOldWindow(environment, p) ==> 1 <= p <= 65535 && 1 <= p - Shift(environment) <= 65535
  {
  }

  // ------------------------------------------------------ snapshots by port

  predicate ByPort(ls: seq<RawListener>) { forall i, j | 0 <= i < j < |ls| :: ls[i].port <= ls[j].port }

  function InsertByPort(l: RawListener, ls: seq<RawListener>): (r: seq<RawListener>)
    requires ByPort(ls)
    ensures ByPort(r) && multiset(r) == multiset([l]) + multiset(ls)
  {
    if ls == [] || l.port < ls[0].port then
      assert [l] + ls == [l] + ls;
      [l] + ls
    else
      var rest := InsertByPort(l, ls[1..]);
      LaterByPort(l, ls, rest);
      assert ls == [ls[0]] + ls[1..];
      [ls[0]] + rest
  }

  lemma LaterByPort(l: RawListener, ls: seq<RawListener>, rest: seq<RawListener>)
    requires ls != [] && ByPort(ls) && ls[0].port <= l.port && ByPort(rest) && multiset(rest) == multiset([l]) + multiset(ls[1..])
    ensures ByPort([ls[0]] + rest)
  {
    forall x | x in rest ensures ls[0].port <= x.port {
      assert x in multiset(rest);
      if x != l {
        assert x in multiset(ls[1..]);
        var k :| 0 <= k < |ls[1..]| && ls[1..][k] == x;
        assert ls[k + 1] == x;
      }
    }
  }

  /** jsonb_agg(... ORDER BY listenPort) over the listeners, each moved down by k. */
  function MovedListeners(ls: seq<RawListener>, k: int): (r: seq<RawListener>)
    ensures ByPort(r) && multiset(r) == multiset(Lowered(ls, k))
  {
    if ls == [] then []
    else
      assert Lowered(ls, k) == [ls[0].(port := ls[0].port - k)] + Lowered(ls[1..], k);
      InsertByPort(ls[0].(port := ls[0].port - k), MovedListeners(ls[1..], k))
  }

  function Lowered(ls: seq<RawListener>, k: int): (r: seq<RawListener>)
    ensures |r| == |ls| && forall i | 0 <= i < |ls| :: r[i] == ls[i].(port := ls[i].port - k)
  {
    seq(|ls|, i requires 0 <= i < |ls| => ls[i].(port := ls[i].port - k))
  }

  function MovedSnapshot(raw: RawSnapshot, k: int): RawSnapshot { raw.(listeners := MovedListeners(raw.listeners, k)) }

  // ------------------------------------------------------------ the outcome

  predicate InNewWindow(environment: string, port: int) { InOldWindow(environment, port + Shift(environment)) }

  /** The inventory of an environment with a default range is that range, as it was seeded, and any rows of the range it
      moves to, which ON CONFLICT DO NOTHING admits. */
  ghost predicate Seeded(ranges: map<string, Range>, ports: set<Slot>) { forall s: Slot :: SeededAt(ranges, ports, s) }

  ghost predicate SeededAt(ranges: map<string, Range>, ports: set<Slot>, s: Slot) {
    Remapped(ranges, s.0) ==>
      (InOldWindow(s.0, s.1) ==> s in ports) && (s in ports ==> InOldWindow(s.0, s.1) || InNewWindow(s.0, s.1))
  }

  function Moved(l: ListenerRow, ranges: map<string, Range>): ListenerRow {
    l.(port := l.port - Move(ranges, l.environment))
  }

  ghost predicate MovesListeners(a: map<Id, ListenerRow>, b: map<Id, ListenerRow>, ranges: map<string, Range>) {
    b.Keys == a.Keys && forall l | l in a :: b[l] == Moved(a[l], ranges)
  }

  /** A port of a moved window and its row move together, over whatever row the target had; of the other environments'
      rows only those the DELETE takes are lost. */
  ghost predicate MovesPorts(a: map<Slot, PortRow>, b: map<Slot, PortRow>, ranges: map<string, Range>) {
    forall s: Slot :: PortMoved(a, b, ranges, s)
  }

  ghost predicate PortMoved(a: map<Slot, PortRow>, b: map<Slot, PortRow>, ranges: map<string, Range>, s: Slot) {
    var o := (s.0, s.1 + Move(ranges, s.0));
    && (s in b <==> o in a && if Remapped(ranges, s.0) then InOldWindow(o.0, o.1) else !Deleted(ranges, o))
    && (s in b && o in a ==> b[s] == a[o])
  }

  ghost predicate MovesSnapshots(
    a: map<nat, ConfigurationRow>, b: map<nat, ConfigurationRow>, ranges: map<string, Range>) {
    b.Keys == a.Keys && forall c | c in a ::
      b[c] == if Remapped(ranges, a[c].environment) then a[c].(snapshot := MovedSnapshot(a[c].snapshot, Shift(a[c].environment))) else a[c]
  }

  ghost predicate MovesRanges(a: map<string, Range>, b: map<string, Range>) {
    b.Keys == a.Keys && forall e | e in a :: b[e] == Range(a[e].first - Move(a, e), a[e].last - Move(a, e))
  }

  /** b is a under the port shift of each default environment. */
  ghost predicate IsRemapOf(a: Installation, b: Installation) {
    && MovesRanges(a.ranges, b.ranges)
    && MovesPorts(a.assignments.ports, b.assignments.ports, a.ranges)
    && MovesListeners(a.assignments.listeners, b.assignments.listeners, a.ranges)
    && MovesSnapshots(a.rows, b.rows, a.ranges)
  }

  /** The listener can move with its window, or, where nothing moves, is not on a row that the DELETE takes. */
  ghost predicate OutOfTheWay(ranges: map<string, Range>, l: ListenerRow) {
    if Remapped(ranges, l.environment) then InOldWindow(l.environment, l.port) else !Deleted(ranges, (l.environment, l.port))
  }

  ghost predicate NothingInTheWay(a: Installation) {
    forall l | l in a.assignments.listeners :: OutOfTheWay(a.ranges, a.assignments.listeners[l])
  }

  ghost predicate AllInOldWindow(listeners: map<Id, ListenerRow>, ranges: map<string, Range>) {
    forall l | l in listeners && Remapped(ranges, listeners[l].environment) ::
      InOldWindow(listeners[l].environment, listeners[l].port)
  }

  // --------------------------------------------------------- the statements

  ghost predicate Inserted(a: map<Slot, PortRow>, b: map<Slot, PortRow>, ranges: map<string, Range>, s: Slot) {
    && (s in b <==> s in a || (Remapped(ranges, s.0) && InOldWindow(s.0, s.1 + Shift(s.0))))
    && (s in b ==> b[s] == if s in a then a[s] else PortRow(Available, None))
  }

  ghost predicate Copied(a: map<Slot, PortRow>, b: map<Slot, PortRow>, ranges: map<string, Range>, s: Slot) {
    var source := (s.0, s.1 + Shift(s.0));
    (s in b <==> s in a) && (s in a && s in b ==> b[s] == if Remapped(ranges, s.0) && source in a then a[source] else a[s])
  }

  ghost predicate Kept(a: map<Slot, PortRow>, b: map<Slot, PortRow>, ranges: map<string, Range>, s: Slot) {
    (s in b <==> s in a && !Deleted(ranges, s)) && (s in a && s in b ==> b[s] == a[s])
  }

  /** Free inventory rows keep the constraints. */
  lemma InsertingKeeps(
    a: map<Slot, PortRow>, b: map<Slot, PortRow>, ranges: map<string, Range>, listeners: map<Id, ListenerRow>)
    requires SchemaHolds(Assignments(a, listeners)) && forall s: Slot :: Inserted(a, b, ranges, s)
    ensures SchemaHolds(Assignments(b, listeners))
  {
    hide OldFirst, Shift, Remapped, InOldWindow;
    forall l | l in listeners ensures (listeners[l].environment, listeners[l].port) in b {
      assert Inserted(a, b, ranges, (listeners[l].environment, listeners[l].port));
    }
    forall s: Slot | s in b && b[s].listener.Some? ensures b[s].listener.value in listeners { assert Inserted(a, b, ranges, s); }
  }

  /** Overwriting inventory rows with other inventory rows keeps the constraints. */
  lemma CopyingKeeps(
    a: map<Slot, PortRow>, b: map<Slot, PortRow>, ranges: map<string, Range>, listeners: map<Id, ListenerRow>)
    requires SchemaHolds(Assignments(a, listeners)) && forall s: Slot :: Copied(a, b, ranges, s)
    ensures SchemaHolds(Assignments(b, listeners))
  {
    hide OldFirst, Shift, Remapped;
    forall l | l in listeners ensures (listeners[l].environment, listeners[l].port) in b {
      assert Copied(a, b, ranges, (listeners[l].environment, listeners[l].port));
    }
    forall s: Slot | s in b && b[s].listener.Some? ensures b[s].listener.value in listeners { assert Copied(a, b, ranges, s); }
  }

  /** So does replacing one listener by one on an existing port that is free of other current listeners. */
  lemma ReplacingKeeps(ports: map<Slot, PortRow>, now: map<Id, ListenerRow>, l: Id, row: ListenerRow)
    requires SchemaHolds(Assignments(ports, now)) && l in now && (row.environment, row.port) in ports
    requires !Collides(now, l, row)
    ensures SchemaHolds(Assignments(ports, now[l := row]))
  {
  }

  class Migration {
    var ranges: map<string, Range>
    var ports: map<Slot, PortRow>
    var listeners: map<Id, ListenerRow>
    var rows: map<nat, ConfigurationRow>

    constructor (i: Installation)
      ensures State() == i
    {
      ranges, ports, listeners, rows := i.ranges, i.assignments.ports, i.assignments.listeners, i.rows;
    }

    function State(): Installation
      reads this
    {
      Installation(ranges, Assignments(ports, listeners), rows)
    }

    ghost predicate ConstraintsHold()
      reads this
    {
      SchemaHolds(Assignments(ports, listeners))
    }

    /** INSERT INTO port_inventory ... ON CONFLICT DO NOTHING. */
    method InsertTargets()
      requires ConstraintsHold()
      modifies this`ports
      ensures forall s: Slot :: Inserted(old(ports), ports, ranges, s)
      ensures ConstraintsHold()
    {
      hide OldFirst, Shift, SchemaHolds;
      ghost var before := ports;
      var targets := Targets(ranges);
      ports := map s | s in ports.Keys + targets :: if s in ports then ports[s] else PortRow(Available, None);
      forall s: Slot ensures Inserted(before, ports, ranges, s) {}
      InsertingKeeps(before, ports, ranges, listeners);
    }

    /** UPDATE port_inventory target ... FROM port_inventory source. */
    method CopyAssignments()
      requires ConstraintsHold()
      modifies this`ports
      ensures forall s: Slot :: Copied(old(ports), ports, ranges, s)
      ensures ConstraintsHold()
    {
      hide OldFirst, Shift, Remapped, SchemaHolds;
      ghost var before := ports;
      ports := map s: Slot | s in ports ::
        if Remapped(ranges, s.0) && (s.0, s.1 + Shift(s.0)) in ports then ports[(s.0, s.1 + Shift(s.0))] else ports[s];
      forall s: Slot ensures Copied(before, ports, ranges, s) {}
      CopyingKeeps(before, ports, ranges, listeners);
    }

    /** UPDATE listeners, row by row in any order, each row under the foreign key and the unique index: it fails exactly when
        a listener of a moved environment stands outside the old window, and the constraints hold after every row. */
    method MoveListeners() returns (ok: bool)
      requires ConstraintsHold() && Seeded(ranges, ports.Keys)
      requires forall s: Slot | Remapped(ranges, s.0) && InNewWindow(s.0, s.1) :: s in ports
      modifies this`listeners
      ensures ok <==> AllInOldWindow(old(listeners), ranges)
      ensures ok ==> MovesListeners(old(listeners), listeners, ranges)
      ensures ConstraintsHold()
    {
      hide SchemaHolds, InNewWindow, AllInOldWindow, Seeded, Collides, Moved, HalfMoved, Remapped, MovesListeners, InOldWindow;
      ghost var before := listeners;
      var todo := set l | l in listeners && Remapped(ranges, listeners[l].environment);
      NoneMoved(before, ranges);
      while todo != {}
        invariant HalfMoved(before, listeners, ranges, todo)
        invariant ConstraintsHold() && SchemaHolds(Assignments(ports, before))
        decreases todo
      {
        var l :| l in todo;
        TodoExists(before, listeners, ranges, todo, l);
        var row := Moved(listeners[l], ranges);
        ForeignKeyMeans(before, listeners, ranges, ports, todo, l);
        if AllInOldWindow(before, ranges) {
          MeansOutOfTheWay(before, ranges, todo, listeners, l);
          NothingCollides(before, listeners, ranges, ports, todo, l);
        }
        if (row.environment, row.port) !in ports || Collides(listeners, l, row) { return false; }
        ReplacingKeeps(ports, listeners, l, row);
        OneMoreMoved(before, listeners, ranges, todo, l);
        listeners := listeners[l := row];
        todo := todo - {l};
      }
      AllMoved(before, listeners, ranges);
      return true;
    }

    /** UPDATE configuration_versions ... jsonb_set. */
    method MoveSnapshots()
      modifies this`rows
      ensures MovesSnapshots(old(rows), rows, ranges)
    {
      rows := map c | c in rows :: if Remapped(ranges, rows[c].environment)
        then rows[c].(snapshot := MovedSnapshot(rows[c].snapshot, Shift(rows[c].environment))) else rows[c];
    }

    /** DELETE FROM port_inventory: the foreign key of listeners rejects it while one of them stands on such a row. */
    method DeleteSources() returns (ok: bool)
      requires ConstraintsHold()
      modifies this`ports
      ensures ok <==> forall l | l in listeners :: !Deleted(ranges, (listeners[l].environment, listeners[l].port))
      ensures ok ==> forall s: Slot :: Kept(old(ports), ports, ranges, s)
      ensures !ok ==> ports == old(ports)
      ensures ConstraintsHold()
    {
      if exists l | l in listeners :: Deleted(ranges, (listeners[l].environment, listeners[l].port)) { return false; }
      ports := map s | s in ports && !Deleted(ranges, s) :: ports[s];
      return true;
    }

    /** The three UPDATEs of environments. */
    method MoveRanges()
      modifies this`ranges
      ensures MovesRanges(old(ranges), ranges)
    {
      ghost var before := ranges;
      if Remapped(ranges, "development") { ranges := ranges["development" := Range(4100, 4199)]; }
      if Remapped(ranges, "staging") { ranges := ranges["staging" := Range(4200, 4299)]; }
      if Remapped(ranges, "production") { ranges := ranges["production" := Range(4300, 4399)]; }
      forall e | e in before ensures ranges[e] == Range(before[e].first - Move(before, e), before[e].last - Move(before, e)) {}
    }

    /** The migration, in one transaction. It commits exactly when every listener can move with its window or is on no row
        that the DELETE takes; then the tables are the old ones under the shift, and if not they are the old ones. */
    method Run() returns (ok: bool)
      requires ConstraintsHold() && Seeded(ranges, ports.Keys)
      modifies this
      ensures ok <==> NothingInTheWay(old(State()))
      ensures if ok then IsRemapOf(old(State()), State()) else State() == old(State())
      ensures ConstraintsHold()
    {
      hide SchemaHolds, MovedSnapshot, OldFirst, Shift, Remapped, Deleted, MovesPorts, MovesListeners, MovesSnapshots, MovesRanges,
        Seeded, NothingInTheWay, AllInOldWindow, InNewWindow;
      var before := State();
      InsertTargets();
      ghost var first := ports;
      CopyAssignments();
      ghost var second := ports;
      StillSeeded(before.assignments.ports, first, second, ranges);
      ok := MoveListeners();
      DeletionMeans(before, listeners);
      if ok {
        MoveSnapshots();
        ok := DeleteSources();
      }
      if !ok {
        ranges, ports, listeners, rows := before.ranges, before.assignments.ports, before.assignments.listeners, before.rows;
        return;
      }
      PortsMoved(before.assignments.ports, first, second, ports, ranges);
      MoveRanges();
    }
  }

  /** The listeners of moved environments but those still to do have moved, each out of the old window. */
  ghost predicate HalfMoved(
    before: map<Id, ListenerRow>, now: map<Id, ListenerRow>, ranges: map<string, Range>, todo: set<Id>)
  {
    && todo <= now.Keys == before.Keys
    && (forall m | m in before :: now[m] == if m in todo then before[m] else Moved(before[m], ranges))
    && (forall m | m in todo :: Remapped(ranges, before[m].environment))
    && forall m | m in before && Remapped(ranges, before[m].environment) ::
      m in todo || InOldWindow(before[m].environment, before[m].port)
  }

  lemma NoneMoved(before: map<Id, ListenerRow>, ranges: map<string, Range>)
    ensures HalfMoved(before, before, ranges, set l | l in before && Remapped(ranges, before[l].environment))
  {
    hide Remapped, OldFirst, Shift;
  }

  lemma TodoExists(before: map<Id, ListenerRow>, now: map<Id, ListenerRow>, ranges: map<string, Range>, todo: set<Id>, l: Id)
    requires HalfMoved(before, now, ranges, todo) && l in todo
    ensures l in now && l in before
  {
    hide Remapped, OldFirst, Shift;
  }

  lemma OneMoreMoved(before: map<Id, ListenerRow>, now: map<Id, ListenerRow>, ranges: map<string, Range>, todo: set<Id>, l: Id)
    requires HalfMoved(before, now, ranges, todo) && l in todo && l in now && l in before
    requires InOldWindow(before[l].environment, before[l].port)
    ensures HalfMoved(before, now[l := Moved(now[l], ranges)], ranges, todo - {l})
  {
    hide Remapped, OldFirst, Shift, Moved, InOldWindow;
  }

  lemma StillSeeded(a: map<Slot, PortRow>, first: map<Slot, PortRow>, second: map<Slot, PortRow>, ranges: map<string, Range>)
    requires Seeded(ranges, a.Keys)
    requires forall s: Slot :: Inserted(a, first, ranges, s) && Copied(first, second, ranges, s)
    ensures Seeded(ranges, second.Keys)
    ensures forall s: Slot | Remapped(ranges, s.0) && InNewWindow(s.0, s.1) :: s in second
  {
    hide OldFirst, Shift, Remapped, InOldWindow;
    forall s: Slot
      ensures SeededAt(ranges, second.Keys, s)
      ensures Remapped(ranges, s.0) && InNewWindow(s.0, s.1) ==> s in second
    {
      assert Inserted(a, first, ranges, s) && Copied(first, second, ranges, s) && SeededAt(ranges, a.Keys, s);
    }
  }

  /** Another current listener stands where this one is to move. */
  predicate Collides(now: map<Id, ListenerRow>, l: Id, row: ListenerRow) {
    row.status != Disabled && exists m | m in now :: m != l && Blocks(now[m], row)
  }

  predicate Blocks(other: ListenerRow, row: ListenerRow) {
    other.environment == row.environment && other.port == row.port && other.status != Disabled
  }

  /** The foreign key lets a listener move exactly when it stands in the old window. */
  lemma ForeignKeyMeans(
    before: map<Id, ListenerRow>, now: map<Id, ListenerRow>, ranges: map<string, Range>, ports: map<Slot, PortRow>,
    todo: set<Id>, l: Id)
    requires HalfMoved(before, now, ranges, todo) && l in todo && l in now && l in before
    requires SchemaHolds(Assignments(ports, now)) && Seeded(ranges, ports.Keys)
    requires forall s: Slot | Remapped(ranges, s.0) && InNewWindow(s.0, s.1) :: s in ports
    ensures var row := Moved(now[l], ranges);
      (row.environment, row.port) in ports <==> InOldWindow(before[l].environment, before[l].port)
  {
    hide OldFirst, Shift, Remapped, InOldWindow, InNewWindow, SchemaHolds, Seeded;
    var row := Moved(now[l], ranges);
    WindowsApart(row.environment);
    StandsInASeededPort(ports, now, ranges, l);
    SeededEverywhere(ports, ranges, (row.environment, row.port));
  }

  lemma SeededEverywhere(ports: map<Slot, PortRow>, ranges: map<string, Range>, s: Slot)
    requires Seeded(ranges, ports.Keys)
    ensures SeededAt(ranges, ports.Keys, s)
  {
  }

  /** The unique index never rejects the move of listeners that all stand in the old window. */
  lemma NothingCollides(
    before: map<Id, ListenerRow>, now: map<Id, ListenerRow>, ranges: map<string, Range>, ports: map<Slot, PortRow>,
    todo: set<Id>, l: Id)
    requires HalfMoved(before, now, ranges, todo) && l in todo && l in now && l in before
    requires SchemaHolds(Assignments(ports, before)) && AllInOldWindow(before, ranges)
    ensures !Collides(now, l, Moved(now[l], ranges))
  {
    hide OldFirst, Shift, Remapped, InOldWindow, InNewWindow;
    var row := Moved(now[l], ranges);
    var e := row.environment;
    WindowsApart(e);
    assert InOldWindow(before[l].environment, before[l].port);
    forall m | m in todo && before[m].environment == e ensures before[m].port != row.port {
      assert InOldWindow(e, before[m].port) && !InOldWindow(e, row.port);
    }
    forall m | m in now && m != l && now[m].environment == e && now[m].port == row.port
      ensures now[m].status == Disabled || row.status == Disabled
    {
      assert m !in todo && before[m].port == before[l].port;
    }
  }

  lemma MeansOutOfTheWay(before: map<Id, ListenerRow>, ranges: map<string, Range>, todo: set<Id>, now: map<Id, ListenerRow>, l: Id)
    requires HalfMoved(before, now, ranges, todo) && l in todo && l in before && AllInOldWindow(before, ranges)
    ensures InOldWindow(before[l].environment, before[l].port)
  {
    hide OldFirst, Shift, Remapped, InOldWindow;
  }

  lemma StandsInASeededPort(ports: map<Slot, PortRow>, now: map<Id, ListenerRow>, ranges: map<string, Range>, l: Id)
    requires SchemaHolds(Assignments(ports, now)) && Seeded(ranges, ports.Keys) && l in now && Remapped(ranges, now[l].environment)
    ensures InOldWindow(now[l].environment, now[l].port) || InNewWindow(now[l].environment, now[l].port)
  {
    hide OldFirst, Shift, Remapped, InOldWindow, InNewWindow;
    assert SeededAt(ranges, ports.Keys, (now[l].environment, now[l].port));
  }

  lemma AllMoved(before: map<Id, ListenerRow>, now: map<Id, ListenerRow>, ranges: map<string, Range>)
    requires HalfMoved(before, now, ranges, {})
    ensures AllInOldWindow(before, ranges) && MovesListeners(before, now, ranges)
  {
    hide Remapped, OldFirst, Shift, InOldWindow;
  }

  /** After the move the DELETE meets a listener exactly when one was in the way. */
  lemma DeletionMeans(a: Installation, moved: map<Id, ListenerRow>)
    ensures NothingInTheWay(a) ==> AllInOldWindow(a.assignments.listeners, a.ranges)
    ensures MovesListeners(a.assignments.listeners, moved, a.ranges) && AllInOldWindow(a.assignments.listeners, a.ranges) ==>
      (NothingInTheWay(a) <==> forall l | l in moved :: !Deleted(a.ranges, (moved[l].environment, moved[l].port)))
  {
    hide OldFirst, Shift, Named;
    if MovesListeners(a.assignments.listeners, moved, a.ranges) && AllInOldWindow(a.assignments.listeners, a.ranges) {
      forall l | l in moved
        ensures !Deleted(a.ranges, (moved[l].environment, moved[l].port)) <==> OutOfTheWay(a.ranges, a.assignments.listeners[l])
      {
        WindowsApart(moved[l].environment);
      }
    }
  }

  lemma PortsMoved(
    a: map<Slot, PortRow>, first: map<Slot, PortRow>, second: map<Slot, PortRow>, b: map<Slot, PortRow>, ranges: map<string, Range>)
    requires Seeded(ranges, a.Keys)
    requires forall s: Slot :: Inserted(a, first, ranges, s) && Copied(first, second, ranges, s) && Kept(second, b, ranges, s)
    ensures MovesPorts(a, b, ranges)
  {
    hide OldFirst, Shift;
    forall s: Slot ensures PortMoved(a, b, ranges, s) {
      var source: Slot := (s.0, s.1 + Shift(s.0));
      assert Inserted(a, first, ranges, source);
      assert SeededAt(ranges, a.Keys, s) && SeededAt(ranges, a.Keys, source);
      WindowsApart(s.0);
      OnePortMoved(a, first, second, b, ranges, s);
    }
  }

  lemma OnePortMoved(
    a: map<Slot, PortRow>, first: map<Slot, PortRow>, second: map<Slot, PortRow>, b: map<Slot, PortRow>, ranges: map<string, Range>, s: Slot)
    requires Inserted(a, first, ranges, s) && Copied(first, second, ranges, s) && Kept(second, b, ranges, s)
    requires var source: Slot := (s.0, s.1 + Shift(s.0));
      && Inserted(a, first, ranges, source)
      && SeededAt(ranges, a.Keys, s) && SeededAt(ranges, a.Keys, source)
      && !(InOldWindow(s.0, s.1) && InOldWindow(s.0, source.1))
    ensures PortMoved(a, b, ranges, s)
  {
    hide OldFirst, Shift;
    if !Remapped(ranges, s.0) { assert (s.0, s.1 + 0) == s; }
  }

  // ------------------------------------------------------ what it preserves

  /** The assignment of listeners to ports survives the move. */
  lemma RemapKeepsConsistency(a: Installation, b: Installation)
    requires IsRemapOf(a, b) && NothingInTheWay(a) && Consistent(a.assignments)
    ensures Consistent(b.assignments)
  {
    hide OldFirst, Shift, Remapped, StatusesAgree, Named;
    var x, y := a.assignments, b.assignments;
    forall s | s in y.ports ensures PortConsistent(y, s) {
      assert PortMoved(x.ports, y.ports, a.ranges, s);
      assert PortConsistent(x, (s.0, s.1 + Move(a.ranges, s.0)));
    }
    forall l | l in y.listeners ensures ListenerConsistent(y, l) {
      assert ListenerConsistent(x, l);
      var s: Slot := (y.listeners[l].environment, y.listeners[l].port);
      assert (s.0, s.1 + Move(a.ranges, s.0)) == (x.listeners[l].environment, x.listeners[l].port);
      assert PortMoved(x.ports, y.ports, a.ranges, s);
    }
  }

  /** After a run that committed, a second one commits too, for its requirements hold and nothing is in its way, and finds
      nothing to do, even where the first one deleted rows. */
  lemma SecondRunChangesNothing(a: Installation, b: Installation)
    requires forall s | s in a.assignments.ports :: s.0 in a.ranges
    requires NothingInTheWay(a) && IsRemapOf(a, b)
    ensures Seeded(b.ranges, b.assignments.ports.Keys) && NothingInTheWay(b)
    ensures forall c :: IsRemapOf(b, c) <==> c == b
  {
    hide OldFirst, Shift, InOldWindow;
    forall e ensures !Remapped(b.ranges, e) { NothingLeftToRemap(a.ranges, b.ranges, e); }
    NothingIsInTheWayAgain(a, b);
    forall c ensures IsRemapOf(b, c) <==> c == b {
      if IsRemapOf(b, c) { SecondRunIsTheIdentity(a, b, c); }
      NothingToMove(a, b);
    }
  }

  lemma NothingIsInTheWayAgain(a: Installation, b: Installation)
    requires NothingInTheWay(a) && IsRemapOf(a, b) && forall e :: !Remapped(b.ranges, e)
    ensures NothingInTheWay(b)
  {
    hide OldFirst, Shift, InOldWindow, Named;
    forall l | l in b.assignments.listeners ensures OutOfTheWay(b.ranges, b.assignments.listeners[l]) {
      assert OutOfTheWay(a.ranges, a.assignments.listeners[l]);
      NothingLeftToRemap(a.ranges, b.ranges, b.assignments.listeners[l].environment);
    }
  }

  lemma SecondRunIsTheIdentity(a: Installation, b: Installation, c: Installation)
    requires forall s | s in a.assignments.ports :: s.0 in a.ranges
    requires IsRemapOf(a, b) && IsRemapOf(b, c) && forall e :: !Remapped(b.ranges, e)
    ensures c == b
  {
    hide OldFirst, Shift, InOldWindow, Remapped;
    assert c.ranges == b.ranges;
    assert c.assignments.listeners == b.assignments.listeners;
    assert c.rows == b.rows;
    PortsStay(a, b, c);
  }

  lemma NothingToMove(a: Installation, b: Installation)
    requires forall s | s in a.assignments.ports :: s.0 in a.ranges
    requires IsRemapOf(a, b) && forall e :: !Remapped(b.ranges, e)
    ensures IsRemapOf(b, b)
  {
    hide OldFirst, Shift, InOldWindow, Named;
    var x, y := a.assignments.ports, b.assignments.ports;
    forall s: Slot ensures PortMoved(y, y, b.ranges, s) {
      assert PortMoved(x, y, a.ranges, s);
      assert (s.0, s.1 + Move(b.ranges, s.0)) == s;
      if s in y {
        NothingLeftToRemap(a.ranges, b.ranges, s.0);
        if !Remapped(a.ranges, s.0) { assert (s.0, s.1 + Move(a.ranges, s.0)) == s; }
      }
    }
  }

  lemma NothingLeftToRemap(a: map<string, Range>, b: map<string, Range>, e: string)
    requires MovesRanges(a, b)
    ensures !Remapped(b, e)
    ensures Remapped(a, e) ==> b[e].first != OldFirst(e)
  {
  }

  lemma PortsStay(a: Installation, b: Installation, c: Installation)
    requires MovesRanges(a.ranges, b.ranges) && MovesPorts(a.assignments.ports, b.assignments.ports, a.ranges)
    requires MovesPorts(b.assignments.ports, c.assignments.ports, b.ranges) && forall e :: !Remapped(b.ranges, e)
    requires forall s | s in a.assignments.ports :: s.0 in a.ranges
    ensures c.assignments.ports == b.assignments.ports
  {
    hide OldFirst, Shift, InOldWindow;
    var x, y, z := a.assignments.ports, b.assignments.ports, c.assignments.ports;
    forall s: Slot ensures (s in z <==> s in y) && (s in z && s in y ==> z[s] == y[s]) {
      assert PortMoved(x, y, a.ranges, s) && PortMoved(y, z, b.ranges, s);
      assert (s.0, s.1 + Move(b.ranges, s.0)) == s;
      if s in y {
        NothingLeftToRemap(a.ranges, b.ranges, s.0);
        if !Remapped(a.ranges, s.0) { assert (s.0, s.1 + Move(a.ranges, s.0)) == s; }
      }
    }
  }

  /** The environment's inventory is the same in both. */
  ghost predicate SameInventory(a: Installation, b: Installation, environment: string) {
    forall p {:trigger (environment, p)} :: ((environment, p) in a.assignments.ports <==> (environment, p) in b.assignments.ports)
      && ((environment, p) in a.assignments.ports && (environment, p) in b.assignments.ports ==>
        a.assignments.ports[(environment, p)] == b.assignments.ports[(environment, p)])
  }

  /** An environment with a custom range, its inventory seeded from it, keeps its ports if and only if the range does not
      begin where the default one began. */
  lemma CustomRangeIsKeptIff(a: Installation, b: Installation, environment: string)
    requires IsRemapOf(a, b) && environment in a.ranges && Named(environment) && !Remapped(a.ranges, environment)
    requires var r := a.ranges[environment];
      r.first <= r.last && forall p {:trigger (environment, p)} :: (environment, p) in a.assignments.ports <==> r.first <= p <= r.last
    ensures SameInventory(a, b, environment) <==> a.ranges[environment].first != OldFirst(environment)
    ensures b.ranges[environment] == a.ranges[environment]
  {
    hide OldFirst, Shift;
    var r := a.ranges[environment];
    forall p ensures PortMoved(a.assignments.ports, b.assignments.ports, a.ranges, (environment, p)) {}
    forall p ensures (environment, p) in b.assignments.ports <==> (environment, p) in a.assignments.ports && !Deleted(a.ranges, (environment, p)) {
      assert (environment, p + 0) == (environment, p);
    }
    if r.first == OldFirst(environment) {
      assert (environment, r.first) in a.assignments.ports && Deleted(a.ranges, (environment, r.first));
    }
  }

  ghost predicate RangeMoves(a: Range, b: Range, first: int, target: int) {
    b == if a == Range(first, first + 99) then Range(target, target + 99) else a
  }

  /** The row of port p is the one that stood k ports higher. */
  ghost predicate FollowsFrom(a: map<Slot, PortRow>, b: map<Slot, PortRow>, e: string, p: int, k: int) {
    var s: Slot, t: Slot := (e, p), (e, p + k);
    (s in b <==> t in a) && (s in b && t in a ==> b[s] == a[t])
  }

  ghost predicate RowsMove(a: Installation, b: Installation, e: string, first: int, k: int)
    requires e in a.ranges
  {
    a.ranges[e] == Range(first, first + 99) ==>
      forall p | first <= p + k <= first + 99 :: FollowsFrom(a.assignments.ports, b.assignments.ports, e, p, k)
  }

  /** The range that began at first, if the environment still has it, begins at target, and its rows moved along. */
  ghost predicate EnvironmentMoves(a: Installation, b: Installation, e: string, first: int, target: int) {
    e in a.ranges ==> e in b.ranges && RangeMoves(a.ranges[e], b.ranges[e], first, target) && RowsMove(a, b, e, first, first - target)
  }

  /** The migration in numbers. */
  lemma TheRangesMove(a: Installation, b: Installation)
    requires IsRemapOf(a, b)
    ensures EnvironmentMoves(a, b, "development", 18000, 4100)
    ensures EnvironmentMoves(a, b, "staging", 19000, 4200)
    ensures EnvironmentMoves(a, b, "production", 20000, 4300)
    ensures forall e | e in a.ranges && e != "development" && e != "staging" && e != "production" ::
      e in b.ranges && b.ranges[e] == a.ranges[e]
  {
    hide RowsMove;
    assert "staging"[0] != "production"[0] && "staging"[0] != "development"[0] && "production"[0] != "development"[0];
    RowsOfRangeMove(a, b, "development", 18000, 13900);
    RowsOfRangeMove(a, b, "staging", 19000, 14800);
    RowsOfRangeMove(a, b, "production", 20000, 15700);
  }

  lemma RowsOfRangeMove(a: Installation, b: Installation, e: string, first: int, k: int)
    requires MovesPorts(a.assignments.ports, b.assignments.ports, a.ranges) && Named(e) && OldFirst(e) == first && Shift(e) == k
    ensures e in a.ranges ==> RowsMove(a, b, e, first, k)
  {
    hide OldFirst, Shift, Named;
    if e in a.ranges && a.ranges[e] == Range(first, first + 99) {
      forall p | first <= p + k <= first + 99 ensures FollowsFrom(a.assignments.ports, b.assignments.ports, e, p, k) {
        assert PortMoved(a.assignments.ports, b.assignments.ports, a.ranges, (e, p));
      }
    }
  }

  /** Three environments, development with fifty ports from 18000 on, none in use: the migration commits, and development is
      left without a single port while the others keep theirs. */
  lemma AHalfRangeLosesItsPorts(b: Installation)
    requires IsRemapOf(HalfRange(), b)
    ensures NothingInTheWay(HalfRange()) && Seeded(HalfRange().ranges, HalfRange().assignments.ports.Keys)
    ensures forall p :: ("development", p) in HalfRange().assignments.ports <==> 18000 <= p <= 18049
    ensures forall p :: ("development", p) !in b.assignments.ports
    ensures SameInventory(HalfRange(), b, "staging") && SameInventory(HalfRange(), b, "production")
    ensures b.ranges == HalfRange().ranges
  {
    var a := HalfRange();
    HalfRangeHasNoDefaults();
    InventoryOfHalfRange("development");
    InventoryOfHalfRange("staging");
    InventoryOfHalfRange("production");
    assert b.ranges == a.ranges;
    CustomRangeIsKeptIff(a, b, "staging");
    CustomRangeIsKeptIff(a, b, "production");
    forall p ensures ("development", p) !in b.assignments.ports {
      assert PortMoved(a.assignments.ports, b.assignments.ports, a.ranges, ("development", p));
      assert ("development", p + 0) == ("development", p);
    }
  }

  lemma HalfRangeHasNoDefaults()
    ensures forall e :: !Remapped(HalfRange().ranges, e)
  {
  }

  lemma InventoryOfHalfRange(e: string)
    requires e in HalfRange().ranges
    ensures var r := HalfRange().ranges[e];
      forall p {:trigger (e, p)} :: (e, p) in HalfRange().assignments.ports <==> r.first <= p <= r.last
  {
    hide Series;
    var ranges, r := HalfRanges(), HalfRanges()[e];
    forall p ensures (e, p) in Inventory(ranges) <==> p in Series(r.first, r.last) {}
  }

  function HalfRanges(): map<string, Range> {
    map["development" := Range(18000, 18049), "staging" := Range(4200, 4299), "production" := Range(4300, 4399)]
  }

  /** The rows generate_series seeds. */
  function Inventory(ranges: map<string, Range>): set<Slot> {
    set e, p | e in ranges.Keys && p in Span(ranges, e) :: (e, p)
  }

  function Span(ranges: map<string, Range>, e: string): set<int>
    requires e in ranges
  {
    Series(ranges[e].first, ranges[e].last)
  }

  function HalfRange(): Installation {
    Installation(HalfRanges(), Assignments(map s | s in Inventory(HalfRanges()) :: PortRow(Available, None), map[]), map[])
  }

  // -------------------------------------------------- the routes are the same

  /** n is m with every key lowered by k. */
  ghost predicate LoweredBy(m: map<int, Listener>, n: map<int, Listener>, k: int) {
    forall p :: LoweredAt(m, n, k, p)
  }

  ghost predicate LoweredAt(m: map<int, Listener>, n: map<int, Listener>, k: int, p: int) {
    (p in m <==> p - k in n) && (p in m && p - k in n ==> n[p - k] == m[p].(port := p - k))
  }

  lemma LoweredWithOneMore(m: map<int, Listener>, n: map<int, Listener>, k: int, l: Listener)
    requires LoweredBy(m, n, k)
    ensures LoweredBy(m[l.port := l], n[l.port - k := l.(port := l.port - k)], k)
  {
    var x, y := m[l.port := l], n[l.port - k := l.(port := l.port - k)];
    forall p ensures LoweredAt(x, y, k, p) { assert LoweredAt(m, n, k, p); }
  }

  lemma LoweredCompiles(
    l: RawListener, versions: map<Id, RawVersion>, pools: map<Id, seq<SnapshotCompiler.Upstream>>, platform: Platform, k: int,
    taken: set<int>, lowered: set<int>)
    requires 1 <= l.port <= 65535 && 1 <= l.port - k <= 65535 && (l.port in taken <==> l.port - k in lowered)
    ensures var c, d := CompileListener(l, versions, pools, taken, platform),
        CompileListener(l.(port := l.port - k), versions, pools, lowered, platform);
      (c.Ok? <==> d.Ok?) && (c.Ok? ==> c.value.port == l.port && d.value == c.value.(port := l.port - k))
  {
    hide RegexOk, PolicyOk, SortPool;
  }

  lemma SamePort(m: map<int, Listener>, n: map<int, Listener>, k: int, p: int)
    requires LoweredBy(m, n, k)
    ensures p in m <==> p - k in n
  {
    assert LoweredAt(m, n, k, p);
  }

  ghost predicate PortsFit(ls: seq<RawListener>, k: int) {
    forall l | l in ls :: 1 <= l.port <= 65535 && 1 <= l.port - k <= 65535
  }

  lemma LoweredNothing(k: int)
    ensures Lowered([], k) == []
  {
  }

  lemma LoweredTail(ls: seq<RawListener>, k: int)
    requires ls != []
    ensures var r := Lowered(ls, k); |r| > 0 && r[0] == ls[0].(port := ls[0].port - k) && r[1..] == Lowered(ls[1..], k)
  {
  }

  lemma FitTail(ls: seq<RawListener>, k: int)
    requires ls != [] && PortsFit(ls, k)
    ensures 1 <= ls[0].port <= 65535 && 1 <= ls[0].port - k <= 65535 && PortsFit(ls[1..], k)
  {
    assert ls[0] in ls && forall x | x in ls[1..] :: x in ls;
  }

  lemma {:induction false} LoweredListeners(
    ls: seq<RawListener>, versions: map<Id, RawVersion>, pools: map<Id, seq<SnapshotCompiler.Upstream>>, platform: Platform, k: int,
    acc: map<int, Listener>, lowered: map<int, Listener>)
    requires PortsFit(ls, k) && LoweredBy(acc, lowered, k)
    ensures var r, t := ListenersFrom(ls, versions, pools, platform, acc), ListenersFrom(Lowered(ls, k), versions, pools, platform, lowered);
      (r.Ok? <==> t.Ok?) && (r.Ok? ==> LoweredBy(r.value, t.value, k))
  {
    hide CompileListener, LoweredAt, LoweredBy, Lowered, PortsFit;
    if ls == [] {
      LoweredNothing(k);
    } else {
      var l := ls[0];
      LoweredTail(ls, k);
      FitTail(ls, k);
      if Live(l) {
        assert l.port in acc <==> l.port - k in lowered by { SamePort(acc, lowered, k, l.port); }
        LoweredCompiles(l, versions, pools, platform, k, acc.Keys, lowered.Keys);
        var c := CompileListener(l, versions, pools, acc.Keys, platform);
        if c.Ok? {
          LoweredWithOneMore(acc, lowered, k, c.value);
          LoweredListeners(ls[1..], versions, pools, platform, k, acc[c.value.port := c.value],
            lowered[c.value.port - k := c.value.(port := c.value.port - k)]);
        }
      } else {
        LoweredListeners(ls[1..], versions, pools, platform, k, acc, lowered);
      }
    }
  }

  /** Whether a moved snapshot loads is whether the original did, and it then serves the same routes on the moved ports. */
  lemma MovedSnapshotServesTheSame(
    version: nat, environment: string, raw: RawSnapshot, records: seq<CredentialRecord>, platform: Platform, allowlist: seq<Prefix>, k: int)
    requires UniqueRows(raw, records) && PortsFit(raw.listeners, k)
    ensures var x, y := Build(version, environment, raw, records, platform, allowlist),
        Build(version, environment, MovedSnapshot(raw, k), records, platform, allowlist);
      && (x.Ok? <==> y.Ok?)
      && (x.Ok? ==> LoweredBy(x.value.listeners, y.value.listeners, k) && y.value == x.value.(listeners := y.value.listeners))
  {
    var unsorted := raw.(listeners := Lowered(raw.listeners, k));
    LoweredBuild(version, environment, raw, records, platform, allowlist, k);
    assert DistinctIds(unsorted.listeners, (l: RawListener) => l.id);
    OrderDoesNotMatter(version, environment, unsorted, MovedSnapshot(raw, k), records, records, platform, allowlist);
  }

  lemma NothingLowered(k: int)
    ensures LoweredBy(map[], map[], k)
  {
  }

  lemma LoweredBuild(
    version: nat, environment: string, raw: RawSnapshot, records: seq<CredentialRecord>, platform: Platform, allowlist: seq<Prefix>, k: int)
    requires PortsFit(raw.listeners, k)
    ensures var x, y := Build(version, environment, raw, records, platform, allowlist),
        Build(version, environment, raw.(listeners := Lowered(raw.listeners, k)), records, platform, allowlist);
      && (x.Ok? <==> y.Ok?)
      && (x.Ok? ==> LoweredBy(x.value.listeners, y.value.listeners, k) && y.value == x.value.(listeners := y.value.listeners))
  {
    hide VersionsFrom, PoolsFrom, ListenersFrom, CredentialsFrom, LoweredAt, PortsFit;
    var versions := VersionsFrom(raw.versions, ServicesFrom(raw.services, map[]), map[]);
    if versions.Ok? {
      NothingLowered(k);
      var pools := PoolsFrom(raw.upstreams, versions.value, platform, allowlist, map[]);
      if pools.Ok? {
        LoweredListeners(raw.listeners, versions.value, pools.value, platform, k, map[], map[]);
      }
    }
  }

  /** After the migration every stored configuration whose ports lay in its environment's window loads if and only if it did
      before, with the same routes on the shifted ports. */
  lemma StoredConfigurationsServeTheSame(
    a: Installation, b: Installation, id: nat, environment: string, records: seq<CredentialRecord>, platform: Platform, allowlist: seq<Prefix>)
    requires IsRemapOf(a, b) && id in a.rows && UniqueRows(a.rows[id].snapshot, records)
    requires Remapped(a.ranges, a.rows[id].environment)
    requires forall l | l in a.rows[id].snapshot.listeners :: InOldWindow(a.rows[id].environment, l.port)
    ensures id in b.rows && b.rows[id] == a.rows[id].(snapshot := b.rows[id].snapshot)
    ensures var x, y := Build(id, environment, a.rows[id].snapshot, records, platform, allowlist),
        Build(id, environment, b.rows[id].snapshot, records, platform, allowlist);
      && (x.Ok? <==> y.Ok?)
      && (x.Ok? ==> LoweredBy(x.value.listeners, y.value.listeners, Shift(a.rows[id].environment)))
      && (x.Ok? ==> y.value.credentials == x.value.credentials)
  {
    hide Build, UniqueRows, LoweredBy;
    WindowsApart(a.rows[id].environment);
    MovedSnapshotServesTheSame(id, environment, a.rows[id].snapshot, records, platform, allowlist, Shift(a.rows[id].environment));
  }
}
