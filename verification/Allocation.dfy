/** AllocateListener beside other transactions, one statement at a time: the
    port row it locks, the listener it inserts, the commit or the abort. */
module ConcurrentAllocation {
  import opened Prelude
  import opened Tables
  import opened ControlPlane
  import opened Frames
  import opened PortLifecycle

  datatype Stage = Checked | Locked | Inserted | Updated | Committed | Aborted

  /** One transaction: what it was asked, the port row it holds, and the rows only it can see until it commits. */
  datatype Allocation = Allocation(
    environment: string, id: Id, versionId: Id, input: ListenerInput, stage: Stage, port: int,
    row: Option<ListenerRow>, entry: Option<PortRow>)
  {
    predicate Holding() { stage == Locked || stage == Inserted || stage == Updated }
    function Slot(): Slot { (environment, port) }
  }

  /** The committed tables and every allocation begun so far. */
  datatype World = World(db: Database, runs: map<nat, Allocation>)

  datatype Action =
    | Begin(t: nat, environment: string, id: Id, input: ListenerInput)
    | LockPort(t: nat)
    | InsertListener(t: nat)
    | UpdatePort(t: nat)
    | CommitAll(t: nat)
    | Abort(t: nat)
    /** Another administrator's whole transaction. */
    | Administer(request: Request)

  predicate RowLocked(w: World, s: Slot) { exists t | t in w.runs :: w.runs[t].Holding() && w.runs[t].Slot() == s }

  /** What SKIP LOCKED leaves to choose from. */
  function Unlocked(w: World, environment: string): set<int> {
    set p | p in AvailablePorts(w.db.assignments, environment) && !RowLocked(w, (environment, p))
  }

  /** An uncommitted index entry of another transaction for the same environment and port. */
  predicate EntryPending(w: World, t: nat)
    requires t in w.runs
  {
    exists u | u in w.runs :: u != t && w.runs[u].Slot() == w.runs[t].Slot() && (w.runs[u].stage == Inserted || w.runs[u].stage == Updated)
  }

  /** Identifiers are random: no row and no other allocation has this one. */
  predicate FreshId(w: World, id: Id) {
    id !in w.db.assignments.listeners && forall t | t in w.runs :: w.runs[t].id != id
  }

  /** A statement that needs a row another transaction has locked, or an index entry it has pending, waits. */
  predicate CanStep(w: World, a: Action, g: Settings) {
    match a
    case Begin(t, environment, id, input) =>
      t !in w.runs && FreshId(w, id) && ListenerInputOk(g, input) && environment in w.db.environments
    case LockPort(t) =>
      && t in w.runs && w.runs[t].stage == Checked
      && (w.runs[t].input.preferredPort.Some? ==> !RowLocked(w, (w.runs[t].environment, w.runs[t].input.preferredPort.value)))
    case InsertListener(t) => t in w.runs && w.runs[t].stage == Locked && !EntryPending(w, t)
    case UpdatePort(t) => t in w.runs && w.runs[t].stage == Inserted
    case CommitAll(t) => t in w.runs && w.runs[t].stage == Updated
    case Abort(t) => t in w.runs && (w.runs[t].stage == Checked || w.runs[t].Holding())
    case Administer(r) => !r.op.DoAllocateListener? && LeavesLockedRows(w, Next(w.db, g, r))
  }

  predicate LeavesLockedRows(w: World, n: Database) {
    forall t | t in w.runs && w.runs[t].Holding() ::
      && (w.runs[t].Slot() in w.db.assignments.ports <==> w.runs[t].Slot() in n.assignments.ports)
      && (w.runs[t].Slot() in n.assignments.ports ==> n.assignments.ports[w.runs[t].Slot()] == w.db.assignments.ports[w.runs[t].Slot()])
  }

  function Started(w: World, environment: string, id: Id, input: ListenerInput): Option<Allocation> {
    var versions := EnabledVersions(w.db.catalog, environment, input.service, input.version);
    if versions == {} || !PermissionExists(w.db.access, input.permission) then None
    else Some(Allocation(environment, id, FirstOf(versions), input, Checked, 0, None, None))
  }

  function AfterLock(w: World, run: Allocation): Allocation {
    if run.input.preferredPort.Some? then
      if run.input.preferredPort.value in AvailablePorts(w.db.assignments, run.environment)
      then run.(stage := Locked, port := run.input.preferredPort.value) else run.(stage := Aborted)
    else if Unlocked(w, run.environment) == {} then run.(stage := Aborted)
    else run.(stage := Locked, port := Lowest(Unlocked(w, run.environment)))
  }

  function AfterInsert(w: World, run: Allocation): Allocation {
    if run.id in w.db.assignments.listeners || PortOccupied(w.db.assignments, {}, run.environment, run.port)
      || !ListenerInputShaped(run.input)
    then run.(stage := Aborted)
    else run.(stage := Inserted, row := Some(NewListener(run.environment, run.port, run.versionId, run.input)))
  }

  /** The committed tables with this transaction's rows written. */
  function Published(db: Database, run: Allocation): Database {
    var a := db.assignments;
    db.(assignments := Assignments(
      if run.entry.Some? then a.ports[run.Slot() := run.entry.value] else a.ports,
      if run.row.Some? then a.listeners[run.id := run.row.value] else a.listeners))
  }

  function Step(w: World, a: Action, g: Settings): World
    requires CanStep(w, a, g)
  {
    match a
    case Begin(t, environment, id, input) =>
      (match Started(w, environment, id, input)
       case None => w
       case Some(run) => w.(runs := w.runs[t := run]))
    case LockPort(t) => w.(runs := w.runs[t := AfterLock(w, w.runs[t])])
    case InsertListener(t) => w.(runs := w.runs[t := AfterInsert(w, w.runs[t])])
    case UpdatePort(t) =>
      w.(runs := w.runs[t := w.runs[t].(stage := Updated, entry := Some(PortRow(PortStatus.Reserved, Some(w.runs[t].id))))])
    case CommitAll(t) => World(Published(w.db, w.runs[t]), w.runs[t := w.runs[t].(stage := Committed)])
    case Abort(t) => w.(runs := w.runs[t := w.runs[t].(stage := Aborted)])
    case Administer(r) => w.(db := Next(w.db, g, r))
  }

  // --------------------------------------------------------------- invariant

  /** What one transaction has in hand fits the committed tables. */
  ghost predicate RunOk(a: Assignments, run: Allocation) {
    && ListenerInputShaped(run.input)
    && (run.Holding() ==> Free(a, run.environment, run.port) && Acceptable(run.input, run.port))
    && (run.stage != Committed ==> run.id !in a.listeners)
    && (run.stage == Inserted || run.stage == Updated ==>
        run.row == Some(NewListener(run.environment, run.port, run.versionId, run.input)))
    && (run.stage == Updated ==> run.entry == Some(PortRow(PortStatus.Reserved, Some(run.id))))
    && (run.stage == Committed && run.id in a.listeners ==>
        a.listeners[run.id].environment == run.environment && a.listeners[run.id].port == run.port)
  }

  ghost predicate RunsApart(a: Allocation, b: Allocation) {
    a.id != b.id && (a.Holding() && b.Holding() ==> a.Slot() != b.Slot())
  }

  ghost predicate Good(w: World) {
    && Consistent(w.db.assignments)
    && (forall t | t in w.runs :: RunOk(w.db.assignments, w.runs[t]))
    && (forall t, u | t in w.runs && u in w.runs && t != u :: RunsApart(w.runs[t], w.runs[u]))
  }

  /** A run replaced by one that fits keeps the world good. */
  lemma ReplacingKeeps(w: World, t: nat, run: Allocation)
    requires Good(w) && t in w.runs && RunOk(w.db.assignments, run) && run.id == w.runs[t].id
    requires run.Holding() ==> forall u | u in w.runs && u != t :: w.runs[u].Holding() ==> w.runs[u].Slot() != run.Slot()
    ensures Good(w.(runs := w.runs[t := run]))
  {
    hide Consistent, RunOk;
  }

  lemma BeginKeeps(w: World, t: nat, environment: string, id: Id, input: ListenerInput, g: Settings)
    requires Good(w) && CanStep(w, Begin(t, environment, id, input), g)
    ensures Good(Step(w, Begin(t, environment, id, input), g))
  {
    hide Consistent, RunOk, Started, ListenerInputOk;
    var begun := Started(w, environment, id, input);
    if begun.Some? {
      StartedFits(w, environment, id, input, g);
      AddingKeeps(w, t, begun.value);
    }
  }

  lemma StartedFits(w: World, environment: string, id: Id, input: ListenerInput, g: Settings)
    requires ListenerInputOk(g, input) && FreshId(w, id) && Started(w, environment, id, input).Some?
    ensures var run := Started(w, environment, id, input).value;
      RunOk(w.db.assignments, run) && run.id == id && run.stage == Checked
  {
    hide EnabledVersions, PermissionExists, NormalizeMethods, PolicyInRange;
  }

  lemma AddingKeeps(w: World, t: nat, run: Allocation)
    requires Good(w) && t !in w.runs && RunOk(w.db.assignments, run) && run.stage == Checked && FreshId(w, run.id)
    ensures Good(w.(runs := w.runs[t := run]))
  {
    hide Consistent, RunOk;
  }

  lemma LockedRowsDiffer(w: World, environment: string, port: int)
    requires !RowLocked(w, (environment, port))
    ensures forall u | u in w.runs && w.runs[u].Holding() :: w.runs[u].Slot() != (environment, port)
  {
  }

  lemma LockKeeps(w: World, t: nat, g: Settings)
    requires Good(w) && CanStep(w, LockPort(t), g)
    ensures Good(Step(w, LockPort(t), g))
  {
    hide Consistent, RowLocked, NewListener;
    var run, next := w.runs[t], AfterLock(w, w.runs[t]);
    assert RunOk(w.db.assignments, run);
    if next.stage == Locked {
      FreePorts(w.db.assignments, run.environment, next.port);
      LockedRowsDiffer(w, run.environment, next.port);
    }
    ReplacingKeeps(w, t, next);
  }

  /** The partial unique index never rejects the insert and the insert never waits for it. */
  lemma InsertsNeverCollide(w: World, t: nat)
    requires Good(w) && t in w.runs && w.runs[t].stage == Locked
    ensures !PortOccupied(w.db.assignments, {}, w.runs[t].environment, w.runs[t].port) && !EntryPending(w, t)
    ensures AfterInsert(w, w.runs[t]).stage == Inserted
  {
    hide NewListener, NormalizeMethods;
    assert RunOk(w.db.assignments, w.runs[t]);
    DatabaseNeverObjects(w.db, w.runs[t].environment);
  }

  lemma InsertKeeps(w: World, t: nat, g: Settings)
    requires Good(w) && CanStep(w, InsertListener(t), g)
    ensures Good(Step(w, InsertListener(t), g))
  {
    hide Consistent, NewListener;
    InsertsNeverCollide(w, t);
    assert RunOk(w.db.assignments, w.runs[t]);
    ReplacingKeeps(w, t, AfterInsert(w, w.runs[t]));
  }

  lemma UpdateKeeps(w: World, t: nat, g: Settings)
    requires Good(w) && CanStep(w, UpdatePort(t), g)
    ensures Good(Step(w, UpdatePort(t), g))
  {
    hide Consistent, NewListener;
    assert RunOk(w.db.assignments, w.runs[t]);
    ReplacingKeeps(w, t, w.runs[t].(stage := Updated, entry := Some(PortRow(PortStatus.Reserved, Some(w.runs[t].id)))));
  }

  lemma AbortKeeps(w: World, t: nat, g: Settings)
    requires Good(w) && CanStep(w, Abort(t), g)
    ensures Good(Step(w, Abort(t), g))
  {
    hide Consistent, NewListener;
    assert RunOk(w.db.assignments, w.runs[t]);
    ReplacingKeeps(w, t, w.runs[t].(stage := Aborted));
  }

  /** Committing is, at that moment, one atomic allocation of the port. */
  lemma CommitIsOneAllocation(w: World, t: nat, g: Settings)
    requires Good(w) && CanStep(w, CommitAll(t), g)
    ensures var run := w.runs[t];
      && ListenerInputShaped(run.input)
      && Occupy(w.db, run.environment, run.id, run.port, run.versionId, run.input) == Ok(Step(w, CommitAll(t), g).db)
  {
    var run := w.runs[t];
    assert RunOk(w.db.assignments, run);
    hide NewListener, NormalizeMethods;
    DatabaseNeverObjects(w.db, run.environment);
  }

  lemma CommitKeeps(w: World, t: nat, g: Settings)
    requires Good(w) && CanStep(w, CommitAll(t), g)
    ensures Good(Step(w, CommitAll(t), g))
  {
    var run, v := w.runs[t], Step(w, CommitAll(t), g);
    assert RunOk(w.db.assignments, run);
    CommitIsOneAllocation(w, t, g);
    AllocationKeeps(w.db, run.environment, run.id, run.port, run.versionId, run.input);
    OthersUnaffected(w, v, t);
  }

  lemma OthersUnaffected(w: World, v: World, t: nat)
    requires Good(w) && t in w.runs && w.runs[t].stage == Updated
    requires v == World(Published(w.db, w.runs[t]), w.runs[t := w.runs[t].(stage := Committed)])
    ensures forall u | u in v.runs :: RunOk(v.db.assignments, v.runs[u])
    ensures forall u, s | u in v.runs && s in v.runs && u != s :: RunsApart(v.runs[u], v.runs[s])
  {
    hide Consistent, NormalizeMethods;
    var run := w.runs[t];
    assert RunOk(w.db.assignments, run);
    forall u | u in v.runs ensures RunOk(v.db.assignments, v.runs[u]) {
      assert RunOk(w.db.assignments, w.runs[u]);
      if u != t { assert RunsApart(w.runs[u], run); }
    }
    forall u, s | u in v.runs && s in v.runs && u != s ensures RunsApart(v.runs[u], v.runs[s]) {
      assert RunsApart(w.runs[u], w.runs[s]);
    }
  }

  /** Only allocation adds listeners, and no request moves one to another port. */
  ghost predicate ListenersStay(a: Assignments, b: Assignments) {
    forall l | l in b.listeners :: l in a.listeners
      && b.listeners[l].environment == a.listeners[l].environment && b.listeners[l].port == a.listeners[l].port
  }

  lemma OtherRequestsMoveNoListener(db: Database, g: Settings, r: Request)
    requires !r.op.DoAllocateListener?
    ensures ListenersStay(db.assignments, Next(db, g, r).assignments)
  {
    hide Capture, UpdateService, CreateUpstream, UpdateUpstream;
    EveryRequestHasAKind(r.op);
    if CatalogRequest(r.op) { CatalogFrame(db, g, r); }
    else if AccessRequest(r.op) { AccessFrame(db, g, r); }
    else if ConfigurationRequest(r.op) { ConfigurationFrame(db, g, r); }
  }

  lemma AdministrationKeeps(w: World, r: Request, g: Settings)
    requires Good(w) && CanStep(w, Administer(r), g)
    ensures Good(Step(w, Administer(r), g))
  {
    hide Next, Consistent, NewListener, NormalizeMethods;
    var n := Next(w.db, g, r);
    EveryRequestKeeps(w.db, g, r);
    OtherRequestsMoveNoListener(w.db, g, r);
    forall t | t in w.runs ensures RunOk(n.assignments, w.runs[t]) { assert RunOk(w.db.assignments, w.runs[t]); }
  }

  lemma EveryStepKeeps(w: World, a: Action, g: Settings)
    requires Good(w) && CanStep(w, a, g)
    ensures Good(Step(w, a, g))
  {
    hide Good, Step, CanStep;
    match a
    case Begin(t, environment, id, input) => BeginKeeps(w, t, environment, id, input, g);
    case LockPort(t) => LockKeeps(w, t, g);
    case InsertListener(t) => InsertKeeps(w, t, g);
    case UpdatePort(t) => UpdateKeeps(w, t, g);
    case CommitAll(t) => CommitKeeps(w, t, g);
    case Abort(t) => AbortKeeps(w, t, g);
    case Administer(r) => AdministrationKeeps(w, r, g);
  }

  // ------------------------------------------------------------ over all runs

  ghost predicate IsSchedule(worlds: seq<World>, actions: seq<Action>, g: Settings) {
    && |worlds| == |actions| + 1
    && Consistent(worlds[0].db.assignments) && worlds[0].runs == map[]
    && forall i | 0 <= i < |actions| :: StepsAt(worlds, actions, g, i)
  }

  ghost predicate StepsAt(worlds: seq<World>, actions: seq<Action>, g: Settings, i: nat)
    requires i < |actions| < |worlds|
  {
    CanStep(worlds[i], actions[i], g) && worlds[i + 1] == Step(worlds[i], actions[i], g)
  }

  /** In every interleaving each allocation fits the committed tables, and they meet the constraints of the schema. */
  lemma {:induction false} SchedulesStayGood(worlds: seq<World>, actions: seq<Action>, g: Settings, n: nat)
    requires IsSchedule(worlds, actions, g) && n < |worlds|
    ensures Good(worlds[n]) && SchemaHolds(worlds[n].db.assignments)
  {
    hide Step, CanStep, Consistent, RunOk, SchemaHolds;
    ScheduledWorldsAreGood(worlds, actions, g, n);
    ConsistentTablesMeetTheSchema(worlds[n].db.assignments);
  }

  lemma {:induction false} ScheduledWorldsAreGood(worlds: seq<World>, actions: seq<Action>, g: Settings, n: nat)
    requires IsSchedule(worlds, actions, g) && n < |worlds|
    ensures Good(worlds[n])
  {
    hide Step, CanStep, Consistent, RunOk;
    if n > 0 {
      ScheduledWorldsAreGood(worlds, actions, g, n - 1);
      assert StepsAt(worlds, actions, g, n - 1);
      EveryStepKeeps(worlds[n - 1], actions[n - 1], g);
    }
  }

  /** In no interleaving does the insert wait for the partial unique index or fail on it. */
  lemma TheIndexNeverObjects(worlds: seq<World>, actions: seq<Action>, g: Settings, n: nat, t: nat)
    requires IsSchedule(worlds, actions, g) && n < |worlds|
    requires t in worlds[n].runs && worlds[n].runs[t].stage == Locked
    ensures CanStep(worlds[n], InsertListener(t), g)
    ensures Step(worlds[n], InsertListener(t), g).runs[t].stage == Inserted
  {
    hide Good, AfterInsert, EntryPending;
    SchedulesStayGood(worlds, actions, g, n);
    InsertsNeverCollide(worlds[n], t);
  }

  /** The allocation is under way, or it committed and its listener still exists. */
  ghost predicate Claims(w: World, t: nat) {
    t in w.runs && (w.runs[t].Holding() || (w.runs[t].stage == Committed && w.runs[t].id in w.db.assignments.listeners))
  }

  lemma ClaimedSlot(a: Assignments, run: Allocation)
    requires Consistent(a) && RunOk(a, run) && run.stage == Committed && run.id in a.listeners
    ensures run.Slot() in a.ports && a.ports[run.Slot()].listener == Some(run.id)
    ensures !Free(a, run.environment, run.port)
  {
    hide NormalizeMethods;
    assert ListenerConsistent(a, run.id);
    assert PortConsistent(a, run.Slot());
  }

  /** In every interleaving two live or committed allocations never hold the same port, and the constraints of the schema
      hold in every committed state. */
  lemma NoPortIsGivenTwice(worlds: seq<World>, actions: seq<Action>, g: Settings, n: nat, t: nat, u: nat)
    requires IsSchedule(worlds, actions, g) && n < |worlds| && t != u
    requires Claims(worlds[n], t) && Claims(worlds[n], u)
    ensures worlds[n].runs[t].Slot() != worlds[n].runs[u].Slot()
    ensures SchemaHolds(worlds[n].db.assignments)
  {
    hide RunOk, Consistent, IsSchedule, SchemaHolds;
    SchedulesStayGood(worlds, actions, g, n);
    var w := worlds[n];
    var a, b := w.runs[t], w.runs[u];
    ConsistentTablesMeetTheSchema(w.db.assignments);
    assert RunsApart(a, b);
    if !a.Holding() { ClaimedSlot(w.db.assignments, a); }
    if !b.Holding() { ClaimedSlot(w.db.assignments, b); }
    HoldingMeansFree(w.db.assignments, a);
    HoldingMeansFree(w.db.assignments, b);
  }

  lemma HoldingMeansFree(a: Assignments, run: Allocation)
    requires RunOk(a, run)
    ensures run.Holding() ==> Free(a, run.environment, run.port)
  {
  }

  /** Aborting at any point leaves the committed tables alone, and the port it held free and unlocked. */
  lemma AbortReturnsThePort(worlds: seq<World>, actions: seq<Action>, g: Settings, n: nat, t: nat)
    requires IsSchedule(worlds, actions, g) && n < |actions| && actions[n] == Abort(t)
    ensures worlds[n + 1].db == worlds[n].db
    ensures t in worlds[n].runs && (worlds[n].runs[t].Holding() ==>
      && Free(worlds[n + 1].db.assignments, worlds[n].runs[t].environment, worlds[n].runs[t].port)
      && !RowLocked(worlds[n + 1], worlds[n].runs[t].Slot()))
  {
    hide RunOk, Consistent;
    SchedulesStayGood(worlds, actions, g, n);
    assert StepsAt(worlds, actions, g, n);
    var w, v := worlds[n], worlds[n + 1];
    var run := w.runs[t];
    HoldingMeansFree(w.db.assignments, run);
    forall u | u in v.runs && v.runs[u].Holding() && run.Holding() ensures v.runs[u].Slot() != run.Slot() {
      assert u != t && RunsApart(w.runs[u], run);
    }
  }

  // ------------------------------------------------- permissions under races

  /** The allocation has been asked for and has neither committed nor aborted. */
  ghost predicate InFlight(run: Allocation) { run.stage == Checked || run.Holding() }

  ghost predicate CommittedPermissionsExist(db: Database) {
    forall l | l in db.assignments.listeners :: PermissionExists(db.access, db.assignments.listeners[l].permission)
  }

  /** The permission is read without a lock and has no foreign key: deleting one that no committed row names succeeds while
      an allocation that requires it is about to commit, and the commit then leaves a listener without its permission. */
  lemma APermissionCanVanish(w: World, t: nat, p: Id, environment: string, now: nat, g: Settings)
    requires Good(w) && t in w.runs && w.runs[t].stage == Updated && environment in w.db.environments
    requires p in w.db.access.permissions && w.db.access.permissions[p] == w.runs[t].input.permission
    requires !PermissionInUse(w.db, p)
    requires forall q | q in w.db.access.permissions && q != p :: w.db.access.permissions[q] != w.runs[t].input.permission
    ensures var deletion := Administer(Request(environment, DoDeletePermission(p), now));
      && CanStep(w, deletion, g) && CanStep(Step(w, deletion, g), CommitAll(t), g)
      && var end := Step(Step(w, deletion, g), CommitAll(t), g).db;
      && w.runs[t].id in end.assignments.listeners && !CommittedPermissionsExist(end)
  {
    hide Consistent, NormalizeMethods, PermissionInUse;
    var deletion := Administer(Request(environment, DoDeletePermission(p), now));
    assert RunOk(w.db.assignments, w.runs[t]);
    assert CanStep(w, deletion, g);
    var v := Step(w, deletion, g);
    assert v.db.access.permissions == w.db.access.permissions - {p} && v.db.assignments == w.db.assignments;
    var end := Step(v, CommitAll(t), g).db;
    assert end.assignments.listeners[w.runs[t].id].permission == w.runs[t].input.permission;
  }

  /** A commit keeps every listener's permission existing if and only if its own still exists. */
  lemma CommitKeepsPermissionsIff(w: World, t: nat, g: Settings)
    requires Good(w) && CanStep(w, CommitAll(t), g) && CommittedPermissionsExist(w.db)
    ensures CommittedPermissionsExist(Step(w, CommitAll(t), g).db) <==> PermissionExists(w.db.access, w.runs[t].input.permission)
  {
    hide Consistent, NormalizeMethods, PermissionExists;
    var run, db := w.runs[t], Step(w, CommitAll(t), g).db;
    assert RunOk(w.db.assignments, run);
    assert db.access == w.db.access && db.assignments.listeners == w.db.assignments.listeners[run.id := run.row.value];
    assert db.assignments.listeners[run.id].permission == run.input.permission;
  }

  /** The step deletes no permission that an allocation in flight requires. */
  ghost predicate SparesPermissions(w: World, a: Action) {
    a.Administer? && a.request.op.DoDeletePermission? && a.request.op.id in w.db.access.permissions ==>
      forall t | t in w.runs && InFlight(w.runs[t]) :: w.runs[t].input.permission != w.db.access.permissions[a.request.op.id]
  }

  ghost predicate PermissionsSafe(w: World) {
    && CommittedPermissionsExist(w.db)
    && forall t | t in w.runs && InFlight(w.runs[t]) :: PermissionExists(w.db.access, w.runs[t].input.permission)
  }

  lemma RequestsKeepOtherPermissions(db: Database, g: Settings, r: Request, name: string)
    requires PermissionExists(db.access, name)
    requires r.op.DoDeletePermission? && r.op.id in db.access.permissions ==> db.access.permissions[r.op.id] != name
    ensures PermissionExists(Next(db, g, r).access, name)
  {
    hide UpdatePortStatus, AllocateListener, Capture, UpdateService, CreateUpstream, UpdateUpstream, PrefixTaken;
    var p :| p in db.access.permissions && db.access.permissions[p] == name;
    EveryRequestHasAKind(r.op);
    if CatalogRequest(r.op) { CatalogFrame(db, g, r); }
    else if AssignmentRequest(r.op) { AssignmentFrame(db, g, r); }
    else if ConfigurationRequest(r.op) { ConfigurationFrame(db, g, r); }
    assert p in Next(db, g, r).access.permissions && Next(db, g, r).access.permissions[p] == name;
  }

  /** No listener is added and none asks for another permission. */
  ghost predicate KeepsRequirements(a: Assignments, b: Assignments) {
    forall l | l in b.listeners :: l in a.listeners && b.listeners[l].permission == a.listeners[l].permission
  }

  lemma OtherRequestsKeepRequirements(db: Database, g: Settings, r: Request)
    requires !r.op.DoAllocateListener?
    ensures KeepsRequirements(db.assignments, Next(db, g, r).assignments)
  {
    hide Capture, UpdateService, CreateUpstream, UpdateUpstream;
    EveryRequestHasAKind(r.op);
    if CatalogRequest(r.op) { CatalogFrame(db, g, r); }
    else if AccessRequest(r.op) { AccessFrame(db, g, r); }
    else if ConfigurationRequest(r.op) { ConfigurationFrame(db, g, r); }
  }

  lemma DeletionSparesListeners(db: Database, g: Settings, r: Request, l: Id)
    requires l in db.assignments.listeners && PermissionExists(db.access, db.assignments.listeners[l].permission)
    ensures PermissionExists(Next(db, g, r).access, db.assignments.listeners[l].permission)
  {
    hide Next;
    if r.op.DoDeletePermission? && r.op.id in db.access.permissions
      && db.access.permissions[r.op.id] == db.assignments.listeners[l].permission
    {
      InUseMeansKept(db, g, r);
    } else {
      RequestsKeepOtherPermissions(db, g, r, db.assignments.listeners[l].permission);
    }
  }

  lemma InUseMeansKept(db: Database, g: Settings, r: Request)
    requires r.op.DoDeletePermission? && r.op.id in db.access.permissions
    requires exists l | l in db.assignments.listeners :: db.assignments.listeners[l].permission == db.access.permissions[r.op.id]
    ensures Next(db, g, r) == db
  {
  }

  lemma AdministrationKeepsPermissions(w: World, r: Request, g: Settings)
    requires PermissionsSafe(w) && CanStep(w, Administer(r), g) && SparesPermissions(w, Administer(r))
    ensures PermissionsSafe(Step(w, Administer(r), g))
  {
    hide Next, PermissionExists;
    var n := Next(w.db, g, r);
    OtherRequestsKeepRequirements(w.db, g, r);
    forall l | l in n.assignments.listeners ensures PermissionExists(n.access, n.assignments.listeners[l].permission) {
      DeletionSparesListeners(w.db, g, r, l);
    }
    forall t | t in w.runs && InFlight(w.runs[t]) ensures PermissionExists(n.access, w.runs[t].input.permission) {
      RequestsKeepOtherPermissions(w.db, g, r, w.runs[t].input.permission);
    }
  }

  lemma StepsKeepPermissions(w: World, a: Action, g: Settings)
    requires Good(w) && PermissionsSafe(w) && CanStep(w, a, g) && SparesPermissions(w, a)
    ensures PermissionsSafe(Step(w, a, g))
  {
    hide PermissionExists, Consistent, NormalizeMethods, EnabledVersions, Next, AvailablePorts, RowLocked, PortOccupied, Free;
    match a
    case Administer(r) => AdministrationKeepsPermissions(w, r, g);
    case CommitAll(t) => CommitKeepsPermissionsIff(w, t, g);
    case Begin(_, _, _, _) =>
    case LockPort(_) =>
    case InsertListener(_) =>
    case UpdatePort(_) =>
    case Abort(_) =>
  }

  /** Over every interleaving in which no deletion hits a permission that an allocation in flight requires, every committed
      listener's permission exists. */
  lemma {:induction false} PermissionsSurviveIfSpared(worlds: seq<World>, actions: seq<Action>, g: Settings, n: nat)
    requires IsSchedule(worlds, actions, g) && n < |worlds| && CommittedPermissionsExist(worlds[0].db)
    requires forall i | 0 <= i < n :: SparesPermissions(worlds[i], actions[i])
    ensures PermissionsSafe(worlds[n])
  {
    hide Step, CanStep, Good, CommittedPermissionsExist, SparesPermissions;
    if n > 0 {
      PermissionsSurviveIfSpared(worlds, actions, g, n - 1);
      assert StepsAt(worlds, actions, g, n - 1);
      ScheduledWorldsAreGood(worlds, actions, g, n - 1);
      StepsKeepPermissions(worlds[n - 1], actions[n - 1], g);
    }
  }

  /** A step that commits an allocation finds the permission it requires. */
  ghost predicate FindsItsPermission(w: World, a: Action) {
    a.CommitAll? && a.t in w.runs ==> PermissionExists(w.db.access, w.runs[a.t].input.permission)
  }

  lemma OtherStepsKeepCommittedPermissions(w: World, a: Action, g: Settings)
    requires CanStep(w, a, g) && !a.CommitAll? && CommittedPermissionsExist(w.db)
    ensures CommittedPermissionsExist(Step(w, a, g).db)
  {
    hide PermissionExists, NormalizeMethods, EnabledVersions, Next, AvailablePorts, RowLocked, PortOccupied;
    if a.Administer? {
      var n := Next(w.db, g, a.request);
      OtherRequestsKeepRequirements(w.db, g, a.request);
      forall l | l in n.assignments.listeners ensures PermissionExists(n.access, n.assignments.listeners[l].permission) {
        DeletionSparesListeners(w.db, g, a.request, l);
      }
    }
  }

  /** Over every interleaving: every committed listener's permission exists in every state if and only if every commit finds
      the permission of its allocation still there. */
  lemma {:induction false} PermissionsSurviveIff(worlds: seq<World>, actions: seq<Action>, g: Settings, n: nat)
    requires IsSchedule(worlds, actions, g) && |worlds| == |actions| + 1 && n < |worlds| && CommittedPermissionsExist(worlds[0].db)
    ensures (forall k | 0 <= k <= n :: CommittedPermissionsExist(worlds[k].db))
       <==> (forall i | 0 <= i < n :: FindsItsPermission(worlds[i], actions[i]))
  {
    hide Step, CanStep, Good, CommittedPermissionsExist, FindsItsPermission;
    if n > 0 {
      PermissionsSurviveIff(worlds, actions, g, n - 1);
      if forall k | 0 <= k < n :: CommittedPermissionsExist(worlds[k].db) {
        assert StepsAt(worlds, actions, g, n - 1);
        ScheduledWorldsAreGood(worlds, actions, g, n - 1);
        StepKeepsCommittedPermissionsIff(worlds[n - 1], actions[n - 1], g);
      }
    }
  }

  lemma StepKeepsCommittedPermissionsIff(w: World, a: Action, g: Settings)
    requires Good(w) && CanStep(w, a, g) && CommittedPermissionsExist(w.db)
    ensures CommittedPermissionsExist(Step(w, a, g).db) <==> FindsItsPermission(w, a)
  {
    hide Good, CommittedPermissionsExist, Step, PermissionExists;
    if a.CommitAll? { CommitKeepsPermissionsIff(w, a.t, g); } else { OtherStepsKeepCommittedPermissions(w, a, g); }
  }

  // --------------------------------------------------------------- run alone

  /** The statements of one allocation with nothing in between: the tables afterwards, and whether it committed. */
  function Alone(db: Database, w: World, run: Allocation): (Database, bool) {
    var locked := AfterLock(w, run);
    if locked.stage != Locked then (db, false)
    else
      var inserted := AfterInsert(w, locked);
      if inserted.stage != Inserted then (db, false)
      else (Published(db, inserted.(stage := Updated, entry := Some(PortRow(PortStatus.Reserved, Some(inserted.id))))), true)
  }

  ghost predicate Amounts(end: (Database, bool), db: Database, spec: Outcome) {
    match spec
    case Ok(committed) => end == (committed, true)
    case Err(_) => end == (db, false)
  }

  /** With no other allocation under way the statements amount to AllocateListener on the tables it began with. */
  lemma AloneItIsAllocateListener(db: Database, g: Settings, environment: string, id: Id, input: ListenerInput, t: nat)
    requires Consistent(db.assignments) && ListenerInputOk(g, input) && environment in db.environments
    requires id !in db.assignments.listeners
    ensures var w := World(db, map[]);
      var begun := Started(w, environment, id, input);
      var spec := AllocateListener(db, g, environment, id, input);
      if begun == None then spec.Err? else Amounts(Alone(db, w.(runs := map[t := begun.value]), begun.value), db, spec)
  {
    hide Consistent, EnabledVersions, PermissionExists, NewListener, NormalizeMethods, Unlocked, AvailablePorts, PortOccupied;
    var w := World(db, map[]);
    var begun := Started(w, environment, id, input);
    if begun.Some? {
      NobodyElse(db, t, begun.value);
      forall p | p in AvailablePorts(db.assignments, environment) ensures !PortOccupied(db.assignments, {}, environment, p) {
        FreePorts(db.assignments, environment, p);
        DatabaseNeverObjects(db, environment);
      }
    }
  }

  lemma NobodyElse(db: Database, t: nat, run: Allocation)
    requires run.stage == Checked
    ensures Unlocked(World(db, map[t := run]), run.environment) == AvailablePorts(db.assignments, run.environment)
  {
    assert forall p :: !RowLocked(World(db, map[t := run]), (run.environment, p));
  }
}
