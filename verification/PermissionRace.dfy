/** A run and a schedule after it that end with a listener whose permission does
    not exist: the permission is deleted while the allocation is about to commit. */
module PermissionRace {
  import opened Prelude
  import opened Tables
  import opened SnapshotCompiler
  import opened ControlPlane
  import opened PortLifecycle
  import opened ConcurrentAllocation
  import opened FreshInstallation

  // ------------------------------------------------------------- in general

  /** Permission p is the one with this name, and nothing committed uses it. */
  ghost predicate OnlyFor(db: Database, p: Id, name: string) {
    && p in db.access.permissions && db.access.permissions[p] == name && !PermissionInUse(db, p)
    && forall q | q in db.access.permissions && q != p :: db.access.permissions[q] != name
  }

  function Steps(environment: string, id: Id, input: ListenerInput, p: Id, now: nat): seq<Action> {
    [Begin(0, environment, id, input), LockPort(0), InsertListener(0), UpdatePort(0),
     Administer(Request(environment, DoDeletePermission(p), now)), CommitAll(0)]
  }

  /** A world in which transaction 0 is the only one. */
  function Alone0(db: Database, run: Allocation): World { World(db, map[0 := run]) }

  lemma LockStep(db: Database, run: Allocation, g: Settings)
    requires run.stage == Checked
    ensures CanStep(Alone0(db, run), LockPort(0), g)
    ensures Step(Alone0(db, run), LockPort(0), g) == Alone0(db, AfterLock(Alone0(db, run), run))
  {
    hide AfterLock;
  }

  lemma InsertStep(db: Database, run: Allocation, before: Allocation, g: Settings)
    requires run.stage == Locked
    ensures CanStep(Alone0(db, run), InsertListener(0), g)
    ensures Step(Alone0(db, run), InsertListener(0), g) == Alone0(db, AfterInsert(Alone0(db, before), run))
  {
    hide PortOccupied, NewListener, NormalizeMethods;
  }

  lemma UpdateStep(db: Database, run: Allocation, g: Settings) returns (last: Allocation)
    requires run.stage == Inserted
    ensures CanStep(Alone0(db, run), UpdatePort(0), g) && Step(Alone0(db, run), UpdatePort(0), g) == Alone0(db, last)
    ensures last.stage == Updated && last.input == run.input && last.id == run.id
  {
    last := run.(stage := Updated, entry := Some(PortRow(PortStatus.Reserved, Some(run.id))));
  }

  lemma BeginStep(db: Database, g: Settings, environment: string, id: Id, input: ListenerInput)
    requires AllocateListener(db, g, environment, id, input).Ok?
    ensures ListenerInputOk(g, input) && environment in db.environments && id !in db.assignments.listeners
    ensures var w := World(db, map[]);
      && CanStep(w, Begin(0, environment, id, input), g) && Started(w, environment, id, input).Some?
      && var run := Started(w, environment, id, input).value;
      && run.stage == Checked && run.input == input && run.id == id
      && Step(w, Begin(0, environment, id, input), g) == Alone0(db, run)
  {
    hide EnabledVersions, PermissionExists, NewListener, NormalizeMethods, AvailablePorts, PortOccupied, Lowest, RegexOk, PolicyInRange;
    var w := World(db, map[]);
    assert w.runs[0 := Started(w, environment, id, input).value] == map[0 := Started(w, environment, id, input).value];
  }

  /** Alone, the allocation passes the lock and the insert. */
  lemma NothingStopsIt(db: Database, g: Settings, environment: string, id: Id, input: ListenerInput)
    requires Consistent(db.assignments) && AllocateListener(db, g, environment, id, input).Ok?
    ensures var run := Started(World(db, map[]), environment, id, input);
      && run.Some?
      && var locked := AfterLock(Alone0(db, run.value), run.value);
      && locked.stage == Locked && locked.input == input && locked.id == id
      && var inserted := AfterInsert(Alone0(db, run.value), locked);
      && inserted.stage == Inserted && inserted.input == input && inserted.id == id
  {
    hide Consistent, AllocateListener, Started, PortOccupied, NewListener, NormalizeMethods, Unlocked, AvailablePorts, ListenerInputOk;
    BeginStep(db, g, environment, id, input);
    AloneItIsAllocateListener(db, g, environment, id, input, 0);
  }

  /** The first four statements of the allocation, on tables on which it can succeed. */
  lemma FourStatements(db: Database, g: Settings, environment: string, id: Id, input: ListenerInput, p: Id, now: nat)
    returns (worlds: seq<World>)
    requires Consistent(db.assignments) && AllocateListener(db, g, environment, id, input).Ok?
    ensures |worlds| == 5 && worlds[0] == World(db, map[])
    ensures IsSchedule(worlds, Steps(environment, id, input, p, now)[..4], g)
    ensures worlds[4].db == db && 0 in worlds[4].runs
    ensures var run := worlds[4].runs[0]; run.stage == Updated && run.input == input && run.id == id
  {
    hide Consistent, AllocateListener, Started, AfterLock, AfterInsert, Step, CanStep, ListenerInputOk;
    BeginStep(db, g, environment, id, input);
    NothingStopsIt(db, g, environment, id, input);
    var run := Started(World(db, map[]), environment, id, input).value;
    var locked := AfterLock(Alone0(db, run), run);
    var inserted := AfterInsert(Alone0(db, run), locked);
    LockStep(db, run, g);
    InsertStep(db, locked, run, g);
    var last := UpdateStep(db, inserted, g);
    worlds := [World(db, map[]), Alone0(db, run), Alone0(db, locked), Alone0(db, inserted), Alone0(db, last)];
    var actions := Steps(environment, id, input, p, now)[..4];
    forall i | 0 <= i < 4 ensures ConcurrentAllocation.StepsAt(worlds, actions, g, i) {}
  }

  /** Whenever an allocation can succeed and nothing committed uses its permission, there is a schedule in which both the
      allocation and the deletion of the permission succeed, and the listener is left without it. */
  lemma ADeletionOvertakes(db: Database, g: Settings, environment: string, id: Id, input: ListenerInput, p: Id, now: nat)
    returns (worlds: seq<World>)
    requires Consistent(db.assignments) && AllocateListener(db, g, environment, id, input).Ok?
    requires OnlyFor(db, p, input.permission)
    ensures IsSchedule(worlds, Steps(environment, id, input, p, now), g) && worlds[0] == World(db, map[])
    ensures |worlds| == 7 && id in worlds[6].db.assignments.listeners && !CommittedPermissionsExist(worlds[6].db)
  {
    hide Consistent, Step, CanStep, AllocateListener, PermissionInUse, CommittedPermissionsExist;
    var actions := Steps(environment, id, input, p, now);
    var four := FourStatements(db, g, environment, id, input, p, now);
    SchedulesStayGood(four, actions[..4], g, 4);
    AllocationIsInTheEnvironment(db, g, environment, id, input);
    APermissionCanVanish(four[4], 0, p, environment, now, g);
    var v := Step(four[4], actions[4], g);
    worlds := four + [v, Step(v, actions[5], g)];
    forall i | 0 <= i < 6 ensures ConcurrentAllocation.StepsAt(worlds, actions, g, i) {
      if i < 4 { assert ConcurrentAllocation.StepsAt(four, actions[..4], g, i); }
    }
  }

  lemma AllocationIsInTheEnvironment(db: Database, g: Settings, environment: string, id: Id, input: ListenerInput)
    requires AllocateListener(db, g, environment, id, input).Ok?
    ensures environment in db.environments
  {
  }

  // ------------------------------------------------------------ an example

  const Reading := "shinmon:orders:read"

  /** A service, its version and a permission are created, in this order. */
  function Requests(): seq<Request> {
    [Request(Development, DoCreateService("s", "orders"), 1),
     Request(Development, DoCreateServiceVersion("v", "orders", "v1", "/health", 1000, 1000), 2),
     Request(Development, DoCreatePermission("p", Reading), 3)]
  }

  function Wanted(): ListenerInput {
    ListenerInput("orders", "v1", None, Reading, ["GET"], Some([]), "", Policy(0, 0, 0, 0, 0))
  }

  function WithService(): Database {
    Fresh().(catalog := Catalog(map["s" := ServiceRow(Development, "orders", true, 1)], map[], map[]))
  }

  function WithVersion(): Database {
    Fresh().(catalog := Catalog(
      map["s" := ServiceRow(Development, "orders", true, 1)],
      map["v" := VersionRow("s", "v1", "/health", 1000, 1000, true, 1)], map[]))
  }

  function Ready(): Database { WithVersion().(access := Access(map["p" := Reading], map[], {}, map[])) }

  lemma ServiceIsCreated(g: Settings)
    requires g.serviceName("orders")
    ensures Next(Fresh(), g, Requests()[0]) == WithService()
  {
    assert map[]["s" := ServiceRow(Development, "orders", true, 1)] == WithService().catalog.services;
  }

  lemma VersionIsCreated(g: Settings)
    requires g.versionLabel("v1")
    ensures Next(WithService(), g, Requests()[1]) == WithVersion()
  {
    hide Fresh, VersionFieldsOk, FirstOf;
    var c := WithService().catalog;
    var owners := set s | s in c.services && c.services[s].environment == Development && c.services[s].name == "orders";
    assert owners == {"s"};
    OnlyChoice(owners, "s");
    TheFieldsAreFine(g);
    assert map[]["v" := VersionRow("s", "v1", "/health", 1000, 1000, true, 1)] == WithVersion().catalog.versions;
  }

  lemma TheFieldsAreFine(g: Settings)
    requires g.versionLabel("v1")
    ensures VersionFieldsOk(g, "v1", "/health", 1000, 1000)
  {
    assert "/health"[..1] == "/";
  }

  lemma OnlyChoice(ids: set<Id>, id: Id)
    requires ids == {id}
    ensures FirstOf(ids) == id
  {
  }

  lemma PermissionIsCreated(g: Settings)
    requires g.permissionName(Reading)
    ensures Next(WithVersion(), g, Requests()[2]) == Ready()
  {
  }

  lemma ItIsARun(g: Settings)
    requires g.serviceName("orders") && g.versionLabel("v1") && g.permissionName(Reading)
    ensures IsRun([Fresh(), WithService(), WithVersion(), Ready()], g, Requests())
  {
    hide Next, WithService, WithVersion, Ready, Fresh, FreshSchema;
    ServiceIsCreated(g);
    VersionIsCreated(g);
    PermissionIsCreated(g);
    FreshIsFresh();
    var h, requests := [Fresh(), WithService(), WithVersion(), Ready()], Requests();
    assert ControlPlane.StepsAt(h, g, requests, 0) && ControlPlane.StepsAt(h, g, requests, 1) && ControlPlane.StepsAt(h, g, requests, 2);
    forall i | 0 <= i < 3 ensures ControlPlane.StepsAt(h, g, requests, i) {}
  }

  lemma AllocationWouldSucceed(g: Settings)
    requires g.permissionName(Reading)
    ensures AllocateListener(Ready(), g, Development, "l", Wanted()).Ok?
    ensures OnlyFor(Ready(), "p", Reading)
  {
    hide ListenerInputOk, EnabledVersions, AvailablePorts, PortOccupied, NewListener, OnlyFor, PermissionExists, Lowest;
    TheInputIsFine(g);
    TheServiceIsThere();
    ThePermissionIsThere();
    ThePortIsFree();
  }

  lemma TheInputIsFine(g: Settings)
    requires g.permissionName(Reading)
    ensures ListenerInputOk(g, Wanted())
  {
    hide Kept;
    assert "GET" in KnownMethods by { assert KnownMethods[1] == "GET"; }
  }

  lemma TheServiceIsThere()
    ensures EnabledVersions(Ready().catalog, Development, "orders", "v1") != {} && Development in Ready().environments
  {
    assert "v" in EnabledVersions(Ready().catalog, Development, "orders", "v1");
  }

  lemma ThePermissionIsThere()
    ensures PermissionExists(Ready().access, Reading) && OnlyFor(Ready(), "p", Reading)
  {
    assert "p" in Ready().access.permissions;
  }

  lemma ThePortIsFree()
    ensures AvailablePorts(Ready().assignments, Development) != {} && "l" !in Ready().assignments.listeners
    ensures forall p :: !PortOccupied(Ready().assignments, {}, Development, p)
  {
    assert (Development, 4100) in Ready().assignments.ports;
    assert 4100 in AvailablePorts(Ready().assignments, Development);
  }

  /** A run from a fresh schema after which a schedule leaves a listener without its permission. */
  lemma APermissionVanishes(g: Settings) returns (history: seq<Database>, worlds: seq<World>)
    requires g.serviceName("orders") && g.versionLabel("v1") && g.permissionName(Reading)
    ensures IsRun(history, g, Requests()) && |history| == 4 && |worlds| == 7 && worlds[0] == World(history[3], map[])
    ensures IsSchedule(worlds, Steps(Development, "l", Wanted(), "p", 4), g)
    ensures "l" in worlds[6].db.assignments.listeners && !CommittedPermissionsExist(worlds[6].db)
  {
    hide IsRun, AllocateListener, OnlyFor, Consistent, CommittedPermissionsExist, IsSchedule, Ready;
    history := [Fresh(), WithService(), WithVersion(), Ready()];
    ItIsARun(g);
    AlwaysConsistent(history, g, Requests(), 3);
    AllocationWouldSucceed(g);
    worlds := ADeletionOvertakes(Ready(), g, Development, "l", Wanted(), "p", 4);
  }
}
