/** Ports and listeners: the two tables agree after every request. */
module PortLifecycle {
  import opened Prelude
  import opened Tables
  import opened ControlPlane
  import opened Frames

  /** A listener row and the port row that names it. */
  ghost predicate StatusesAgree(port: PortStatus, listener: ListenerStatus) {
    match port
    case Available => false
    case Reserved => listener == ListenerStatus.Reserved
    case Active => listener == ListenerStatus.Active
    case Draining => listener == ListenerStatus.Draining
    case Cooldown => listener == Disabled
    case Blocked => listener == Disabled
  }

  ghost predicate PortConsistent(a: Assignments, s: Slot)
    requires s in a.ports
  {
    match a.ports[s].listener
    case None => !Assigned(a.ports[s].status)
    case Some(id) =>
      && id in a.listeners
      && (a.listeners[id].environment, a.listeners[id].port) == s
      && StatusesAgree(a.ports[s].status, a.listeners[id].status)
  }

  ghost predicate ListenerConsistent(a: Assignments, id: Id)
    requires id in a.listeners
  {
    var s := (a.listeners[id].environment, a.listeners[id].port);
    s in a.ports && a.ports[s].listener == Some(id)
  }

  /** port_inventory.listener_id and listeners(environment_id, listen_port) are inverse to each other,
      and both sides agree on the status. */
  ghost predicate Consistent(a: Assignments) {
    && (forall s | s in a.ports :: PortConsistent(a, s))
    && (forall id | id in a.listeners :: ListenerConsistent(a, id))
  }

  /** The constraints of the schema: the partial unique index and both foreign keys. */
  ghost predicate SchemaHolds(a: Assignments) {
    && (forall l, m | l in a.listeners && m in a.listeners && l != m
        && a.listeners[l].environment == a.listeners[m].environment && a.listeners[l].port == a.listeners[m].port ::
        a.listeners[l].status == Disabled || a.listeners[m].status == Disabled)
    && (forall l | l in a.listeners :: (a.listeners[l].environment, a.listeners[l].port) in a.ports)
    && (forall s | s in a.ports && a.ports[s].listener.Some? :: a.ports[s].listener.value in a.listeners)
  }

  /** More than the schema asks: two listeners never share a port, not even disabled ones. */
  lemma ConsistentTablesMeetTheSchema(a: Assignments)
    requires Consistent(a)
    ensures SchemaHolds(a)
    ensures forall l, m | l in a.listeners && m in a.listeners
      && a.listeners[l].environment == a.listeners[m].environment && a.listeners[l].port == a.listeners[m].port :: l == m
    ensures forall s | s in a.ports && a.ports[s].status == Available :: a.ports[s].listener == None
  {
    forall l | l in a.listeners ensures ListenerConsistent(a, l) {}
    forall s | s in a.ports ensures PortConsistent(a, s) {}
  }

  lemma PortStatusKeeps(db: Database, environment: string, port: int, status: PortStatus)
    requires Consistent(db.assignments)
    ensures var r := UpdatePortStatus(db, environment, port, status);
      r.Ok? ==> Consistent(r.value.assignments) && r.value.assignments.ports.Keys == db.assignments.ports.Keys
  {
    var a, r, slot := db.assignments, UpdatePortStatus(db, environment, port, status), (environment, port);
    if r.Ok? {
      var b := r.value.assignments;
      assert PortConsistent(a, slot);
      assert MovesOnePort(a, b, slot);
      OnePortKeeps(a, b, slot);
    }
  }

  /** b is a with one port, and the listener it names in a, changed; a listener that goes leaves its port free. */
  ghost predicate MovesOnePort(a: Assignments, b: Assignments, s: Slot) {
    && s in a.ports && s in b.ports && b.ports == a.ports[s := b.ports[s]]
    && (forall id | id in b.listeners :: id in a.listeners)
    && (forall id | id in a.listeners && a.ports[s].listener != Some(id) :: id in b.listeners && b.listeners[id] == a.listeners[id])
    && (match a.ports[s].listener
        case None => b.ports[s].listener == None && !Assigned(b.ports[s].status)
        case Some(id) =>
          if id in b.listeners then
            && id in a.listeners && b.listeners[id] == a.listeners[id].(status := b.listeners[id].status, rowVersion := b.listeners[id].rowVersion)
            && b.ports[s].listener == Some(id) && StatusesAgree(b.ports[s].status, b.listeners[id].status)
          else b.ports[s] == PortRow(Available, None))
  }

  lemma OnePortKeeps(a: Assignments, b: Assignments, slot: Slot)
    requires Consistent(a) && slot in b.ports && MovesOnePort(a, b, slot)
    ensures Consistent(b) && b.ports.Keys == a.ports.Keys
  {
    assert PortConsistent(a, slot);
    forall s | s in b.ports ensures PortConsistent(b, s) { assert PortConsistent(a, s); }
    forall id | id in b.listeners ensures ListenerConsistent(b, id) { assert ListenerConsistent(a, id); }
  }

  lemma AllocationKeeps(db: Database, environment: string, id: Id, port: int, versionId: Id, input: ListenerInput)
    requires Consistent(db.assignments) && ListenerInputShaped(input)
    requires (environment, port) in db.assignments.ports && db.assignments.ports[(environment, port)].status == Available
    ensures var r := Occupy(db, environment, id, port, versionId, input);
      r.Ok? ==> Consistent(r.value.assignments) && r.value.assignments.ports.Keys == db.assignments.ports.Keys
  {
    var a, r := db.assignments, Occupy(db, environment, id, port, versionId, input);
    if r.Ok? {
      var b := r.value.assignments;
      forall s | s in b.ports ensures PortConsistent(b, s) { assert PortConsistent(a, s); }
      forall l | l in b.listeners ensures ListenerConsistent(b, l) {
        if l != id { assert ListenerConsistent(a, l); assert PortConsistent(a, (environment, port)); }
      }
    }
  }

  predicate ListenerInputShaped(input: ListenerInput) {
    NormalizeMethods(input.methods).Some? && input.contentTypes.Some?
  }

  lemma ListenerStatusKeeps(db: Database, environment: string, id: Id, status: ListenerStatus, expected: int)
    requires Consistent(db.assignments)
    ensures var r := UpdateListener(db, environment, id, status, expected);
      r.Ok? ==> Consistent(r.value.assignments) && r.value.assignments.ports.Keys == db.assignments.ports.Keys
  {
    var a, r := db.assignments, UpdateListener(db, environment, id, status, expected);
    if r.Ok? {
      var b := r.value.assignments;
      forall s | s in b.ports ensures PortConsistent(b, s) { assert PortConsistent(a, s); }
      forall l | l in b.listeners ensures ListenerConsistent(b, l) { assert ListenerConsistent(a, l); }
    }
  }

  lemma GoingLiveKeeps(a: Assignments, environment: string, version: nat)
    requires Consistent(a)
    ensures Consistent(GoLive(a, environment, version)) && GoLive(a, environment, version).ports.Keys == a.ports.Keys
  {
    var b := GoLive(a, environment, version);
    forall s | s in b.ports ensures PortConsistent(b, s) { assert PortConsistent(a, s); }
    forall l | l in b.listeners ensures ListenerConsistent(b, l) { assert ListenerConsistent(a, l); }
  }

  lemma AllocationRequestKeeps(db: Database, g: Settings, environment: string, id: Id, input: ListenerInput)
    requires Consistent(db.assignments)
    ensures var r := AllocateListener(db, g, environment, id, input);
      r.Ok? ==> Consistent(r.value.assignments) && r.value.assignments.ports.Keys == db.assignments.ports.Keys
  {
    if AllocateListener(db, g, environment, id, input).Ok? {
      var free := AvailablePorts(db.assignments, environment);
      var versions := EnabledVersions(db.catalog, environment, input.service, input.version);
      AllocationKeeps(db, environment, id, if input.preferredPort.Some? then input.preferredPort.value else Lowest(free),
        FirstOf(versions), input);
    }
  }

  lemma PoliciesKeep(
    db: Database, g: Settings, environment: string, id: Id, policy: Policy, regex: string, expected: int)
    requires Consistent(db.assignments)
    ensures var r := UpdateListenerPolicies(db, g, environment, id, policy, regex, expected);
      r.Ok? ==> Consistent(r.value.assignments) && r.value.assignments.ports.Keys == db.assignments.ports.Keys
  {
    var a, r := db.assignments, UpdateListenerPolicies(db, g, environment, id, policy, regex, expected);
    if r.Ok? {
      var b := r.value.assignments;
      forall s | s in b.ports ensures PortConsistent(b, s) { assert PortConsistent(a, s); }
      forall l | l in b.listeners ensures ListenerConsistent(b, l) { assert ListenerConsistent(a, l); }
    }
  }

  lemma AssignmentRequestKeeps(db: Database, g: Settings, r: Request)
    requires Consistent(db.assignments) && AssignmentRequest(r.op)
    ensures Consistent(Next(db, g, r).assignments)
    ensures Next(db, g, r).assignments.ports.Keys == db.assignments.ports.Keys
  {
    match r.op
    case DoUpdatePortStatus(port, status) => PortStatusKeeps(db, r.environment, port, status);
    case DoAllocateListener(id, input) => AllocationRequestKeeps(db, g, r.environment, id, input);
    case DoUpdateListener(id, status, expected) => ListenerStatusKeeps(db, r.environment, id, status, expected);
    case DoUpdateListenerPolicies(id, policy, regex, expected) => PoliciesKeep(db, g, r.environment, id, policy, regex, expected);
  }

  /** Every request keeps the two tables consistent and the inventory's set of ports. */
  lemma EveryRequestKeeps(db: Database, g: Settings, r: Request)
    requires Consistent(db.assignments)
    ensures Consistent(Next(db, g, r).assignments)
    ensures Next(db, g, r).assignments.ports.Keys == db.assignments.ports.Keys
  {
    EveryRequestHasAKind(r.op);
    if CatalogRequest(r.op) { CatalogFrame(db, g, r); }
    else if AccessRequest(r.op) { AccessFrame(db, g, r); }
    else if AssignmentRequest(r.op) { AssignmentRequestKeeps(db, g, r); }
    else {
      ConfigurationFrame(db, g, r);
      if r.op.DoActivateConfiguration? { GoingLiveKeeps(db.assignments, r.environment, r.op.configuration); }
    }
  }

  lemma FreshIsConsistent(db: Database)
    requires FreshSchema(db)
    ensures Consistent(db.assignments)
  {
  }

  lemma {:induction false} AlwaysConsistent(history: seq<Database>, g: Settings, requests: seq<Request>, n: nat)
    requires IsRun(history, g, requests) && n < |history|
    ensures Consistent(history[n].assignments)
    ensures history[n].assignments.ports.Keys == history[0].assignments.ports.Keys
  {
    hide *;
    RunStarts(history, g, requests);
    if n == 0 {
      FreshIsConsistent(history[0]);
    } else {
      RunStep(history, g, requests, n);
      AlwaysConsistent(history, g, requests, n - 1);
      EveryRequestKeeps(history[n - 1], g, requests[n - 1]);
    }
  }

  // ---------------------------------------- the database never has to object

  /** With consistent tables no request is rejected by the partial unique index, by the foreign key of a
      released listener, or by a dangling listener id: the only rejections are the code's own. */
  lemma DatabaseNeverObjects(db: Database, environment: string)
    requires Consistent(db.assignments)
    ensures forall port | (environment, port) in db.assignments.ports
        && db.assignments.ports[(environment, port)].status == Available :: !PortOccupied(db.assignments, {}, environment, port)
    ensures forall id | id in db.assignments.listeners && db.assignments.listeners[id].environment == environment ::
        !PortOccupied(db.assignments, {id}, environment, db.assignments.listeners[id].port)
    ensures forall port, status :: UpdatePortStatus(db, environment, port, status) != Err(Failure)
    ensures forall port :: UpdatePortStatus(db, environment, port, Available) != Err(Invalid)
  {
    var a := db.assignments;
    forall l | l in a.listeners ensures ListenerConsistent(a, l) {}
    forall s | s in a.ports ensures PortConsistent(a, s) {}
  }

  ghost predicate Free(a: Assignments, environment: string, port: int) {
    (environment, port) in a.ports && a.ports[(environment, port)].status == Available
  }

  lemma FreePorts(a: Assignments, environment: string, port: int)
    ensures port in AvailablePorts(a, environment) <==> Free(a, environment, port)
  {
    if Free(a, environment, port) { assert (environment, port).1 in AvailablePorts(a, environment); }
  }

  /** Allocation alone: a well-formed request for a live version and an existing permission succeeds exactly when a port
      is free (the preferred one, when named), and without a preference it takes the lowest free port. */
  lemma AllocationTakesLowest(db: Database, g: Settings, environment: string, id: Id, input: ListenerInput)
    requires Consistent(db.assignments) && ListenerInputOk(g, input) && environment in db.environments
    requires EnabledVersions(db.catalog, environment, input.service, input.version) != {}
    requires PermissionExists(db.access, input.permission) && id !in db.assignments.listeners
    ensures var r := AllocateListener(db, g, environment, id, input);
      && (r.Ok? <==> exists p :: Free(db.assignments, environment, p) && Acceptable(input, p))
      && (r.Err? ==> r == Err(NotFound))
      && (r.Ok? ==> TakesLowest(db.assignments, r.value.assignments, environment, id, input))
  {
    hide Consistent, EnabledVersions, AvailablePorts, PermissionExists, NormalizeMethods, NewListener;
    var a, free := db.assignments, AvailablePorts(db.assignments, environment);
    forall p ensures p in free <==> Free(a, environment, p) { FreePorts(a, environment, p); }
    if free != {} && (input.preferredPort.Some? ==> input.preferredPort.value in free) {
      var port := if input.preferredPort.Some? then input.preferredPort.value else Lowest(free);
      assert Free(a, environment, port);
      OccupationSucceeds(db, environment, id, port, FirstOf(EnabledVersions(db.catalog, environment, input.service, input.version)), input);
    }
  }

  ghost predicate Acceptable(input: ListenerInput, port: int) {
    input.preferredPort == None || input.preferredPort == Some(port)
  }

  ghost predicate TakesLowest(a: Assignments, b: Assignments, environment: string, id: Id, input: ListenerInput) {
    && id in b.listeners
    && var port := b.listeners[id].port;
    && Free(a, environment, port) && Acceptable(input, port)
    && (forall p | Free(a, environment, p) && Acceptable(input, p) :: port <= p)
    && Hands(a, b, environment, port, id)
  }

  /** b is a with one free port handed to a new listener. */
  ghost predicate Hands(a: Assignments, b: Assignments, environment: string, port: int, id: Id) {
    && id in b.listeners && b.listeners[id].environment == environment && b.listeners[id].port == port
    && b.listeners[id].status == ListenerStatus.Reserved
    && b.ports == a.ports[(environment, port) := PortRow(PortStatus.Reserved, Some(id))]
    && b.listeners - {id} == a.listeners
  }

  lemma OccupationSucceeds(db: Database, environment: string, id: Id, port: int, versionId: Id, input: ListenerInput)
    requires Consistent(db.assignments) && ListenerInputShaped(input) && id !in db.assignments.listeners
    requires Free(db.assignments, environment, port)
    ensures var r := Occupy(db, environment, id, port, versionId, input);
      r.Ok? && Hands(db.assignments, r.value.assignments, environment, port, id)
  {
    DatabaseNeverObjects(db, environment);
  }

  /** Releasing a port undoes an allocation: disable the new listener, free its port, and the tables are as before. */
  lemma ReleaseUndoesAllocation(
    db: Database, environment: string, id: Id, port: int, versionId: Id, input: ListenerInput)
    requires Consistent(db.assignments) && ListenerInputShaped(input) && id !in db.assignments.listeners
    requires (environment, port) in db.assignments.ports && db.assignments.ports[(environment, port)].status == Available
    ensures var taken := Occupy(db, environment, id, port, versionId, input);
      && taken.Ok?
      && var disabled := UpdateListener(taken.value, environment, id, Disabled, 1);
      && disabled.Ok?
      && UpdatePortStatus(disabled.value, environment, port, Available) == Ok(db)
  {
    var a := db.assignments;
    DatabaseNeverObjects(db, environment);
    var taken := Occupy(db, environment, id, port, versionId, input);
    var disabled := UpdateListener(taken.value, environment, id, Disabled, 1);
    forall s | s in a.ports ensures PortConsistent(a, s) {}
    var b := disabled.value.assignments;
    forall s | s in b.ports && s != (environment, port) ensures b.ports[s] == a.ports[s] { assert PortConsistent(a, s); }
    var released := UpdatePortStatus(disabled.value, environment, port, Available);
    assert released.Ok?;
    assert released.value.assignments.ports == a.ports;
    assert released.value.assignments.listeners == a.listeners;
  }
}
