/** internal/controlplane/store.go, statement by statement: the statements of a
    transaction write the tables in place, and an error takes them all back. */
module StoreMethods {
  import opened Prelude
  import opened Tables
  import opened SnapshotCompiler
  import opened ControlPlane
  import opened PortLifecycle
  import opened Loading
  import opened KeyChains
  import opened LastWrites
  import opened StoreEffects
  import opened Answers
  import Authentication
  import Configs = ConfigurationLifecycle
  import TableRules

  /** The method answered and left the tables as the request does in a run: on an error they are the old ones. */
  ghost predicate Handled<T>(before: Database, after: Database, g: Settings, request: Request, r: Result<T, Error>) {
    && after == Next(before, g, request)
    && match Apply(before, g, request.environment, request.op, request.now)
       case Ok(_) => r.Ok?
       case Err(e) => r == Err(e)
  }

  /** A gateway finds the key by its raw form: the prefix it reads and the MAC it computes are the stored ones. */
  ghost predicate KeyStored(x: Access, g: Settings, id: Id, raw: string) {
    id in x.keys && Authentication.KeyPrefix(raw) == Some(x.keys[id].prefix) && x.keys[id].verifier == g.mac(raw)
  }

  /** Every key but these is as it was, and no consumer changes. */
  ghost predicate KeysBut(x: Access, y: Access, but: set<Id>) {
    && y.consumers == x.consumers && y.permissions == x.permissions
    && (forall k | k !in but :: k in y.keys <==> k in x.keys)
    && (forall k | k !in but && k in y.keys && k in x.keys :: y.keys[k] == x.keys[k])
  }

  /** The consumer is granted these names too, and nobody is granted anything else. */
  ghost predicate GrantsMore(x: Access, y: Access, consumer: Id, names: seq<string>) {
    forall c, name :: Granted(y, c, name) <==> Granted(x, c, name) || (c == consumer && name in names)
  }

  lemma GrantingMeans(x: Access, g: Settings, consumer: Id, names: seq<string>)
    ensures var r := ControlPlane.AssignPermissions(x, g, consumer, names);
      r.Ok? ==> forall z: Access | z.grants == r.value.grants && z.permissions == r.value.permissions :: GrantsMore(x, z, consumer, names)
  {
    hide Granted, ControlPlane.AssignPermissions;
    var r := ControlPlane.AssignPermissions(x, g, consumer, names);
    if r.Ok? {
      forall z: Access | z.grants == r.value.grants && z.permissions == r.value.permissions ensures GrantsMore(x, z, consumer, names) {
        forall c, name ensures Granted(z, c, name) <==> Granted(x, c, name) || (c == consumer && name in names) {
          AssigningGrants(x, g, consumer, names, c, name);
          SameGrantsSameNames(r.value, z, c, name);
        }
      }
    }
  }

  lemma PortRequest(db: Database, g: Settings, environment: string, port: int, status: PortStatus, now: nat)
    ensures var request, outcome := Request(environment, DoUpdatePortStatus(port, status), now), UpdatePortStatus(db, environment, port, status);
      && Apply(db, g, environment, request.op, now) == outcome
      && Next(db, g, request) == if outcome.Ok? then outcome.value else db
  {
    hide UpdatePortStatus;
  }

  lemma RollbackRequest(db: Database, g: Settings, environment: string, source: nat, actor: string, now: nat)
    ensures var request, outcome := Request(environment, DoRollbackConfiguration(source, actor), now), RollbackConfiguration(db, environment, source, actor);
      && Apply(db, g, environment, request.op, now) == outcome
      && Next(db, g, request) == if outcome.Ok? then outcome.value else db
  {
    hide RollbackConfiguration;
  }

  lemma ActivationRequest(db: Database, g: Settings, environment: string, id: nat, expectedActive: Option<nat>, now: nat)
    ensures var request := Request(environment, DoActivateConfiguration(id, expectedActive), now);
      var outcome := ActivateConfiguration(db, g, environment, id, expectedActive);
      && Apply(db, g, environment, request.op, now) == outcome
      && Next(db, g, request) == if outcome.Ok? then outcome.value else db
  {
    hide ActivateConfiguration;
  }

  lemma IssueRequest(
    db: Database, g: Settings, environment: string, id: Id, consumer: Id, secret: Secret, name: string, permissions: seq<string>,
    expiresAt: Option<nat>, now: nat)
    ensures var request := Request(environment, DoIssueKey(id, consumer, secret, name, permissions, expiresAt), now);
      var outcome := IssueKey(db, g, environment, consumer, id, secret, name, permissions, expiresAt, None, now);
      && Apply(db, g, environment, request.op, now) == outcome
      && Next(db, g, request) == if outcome.Ok? then outcome.value else db
  {
    hide IssueKey;
  }

  lemma RotationRequest(db: Database, g: Settings, environment: string, id: Id, newId: Id, secret: Secret, now: nat)
    ensures var request := Request(environment, DoRotateKey(id, newId, secret), now);
      var outcome := RotateKey(db, g, environment, id, newId, secret, now);
      && Apply(db, g, environment, request.op, now) == outcome
      && Next(db, g, request) == if outcome.Ok? then outcome.value else db
  {
    hide RotateKey;
  }

  lemma AllocationRequest(db: Database, g: Settings, environment: string, id: Id, input: ListenerInput, now: nat)
    requires Consistent(db.assignments)
    ensures var request, outcome := Request(environment, DoAllocateListener(id, input), now), AllocateListener(db, g, environment, id, input);
      && Apply(db, g, environment, request.op, now) == outcome
      && Next(db, g, request) == (if outcome.Ok? then outcome.value else db)
      && (outcome.Ok? ==>
        && id in outcome.value.assignments.listeners
        && ListenerSays(db, request, outcome.value.assignments.listeners[id])
        && PolicySays(request, outcome.value.assignments.listeners[id]))
  {
    hide AllocateListener, ListenerSays, PolicySays, Consistent;
    if AllocateListener(db, g, environment, id, input).Ok? { AllocationSays(db, g, environment, id, input, now); }
  }

  /** The rows that a foreign key to the listener would protect. */
  function PortsOf(a: Assignments, id: Id): set<Slot> {
    set s | s in a.ports && a.ports[s].listener == Some(id)
  }

  lemma RefusedStatus(db: Database, environment: string, port: int, status: PortStatus)
    ensures var a, slot, r := db.assignments, (environment, port), UpdatePortStatus(db, environment, port, status);
      && (Assigned(status) ==> r == Err(Invalid))
      && (!Assigned(status) && slot !in a.ports ==> r == Err(NotFound))
      && (slot in a.ports && !Assigned(status) && status != Blocked ==>
        var row := a.ports[slot];
        && (Assigned(row.status) && (status == Cooldown || row.listener == None) ==> r == Err(NotFound))
        && (status == Available && row.listener.Some? ==>
          var id, written := row.listener.value, a.(ports := a.ports[slot := PortRow(Available, None)]);
          && (id !in a.listeners ==> r == Err(Failure))
          && (id in a.listeners && a.listeners[id].status != Disabled ==> r == Err(Conflict))
          && (id in a.listeners && a.listeners[id].status == Disabled && PortsOf(written, id) != {} ==> r == Err(Invalid))))
  {
    var a, slot := db.assignments, (environment, port);
    if slot in a.ports && a.ports[slot].listener.Some? {
      var id, written := a.ports[slot].listener.value, a.(ports := a.ports[slot := PortRow(Available, None)]);
      if s :| s in PortsOf(written, id) { assert s != slot && a.ports[s].listener == Some(id); }
    }
  }

  lemma ReleasedStatus(db: Database, environment: string, port: int, n: Database)
    requires var a, slot := db.assignments, (environment, port);
      slot in a.ports && a.ports[slot].listener.Some?
    requires var a, slot, id := db.assignments, (environment, port), db.assignments.ports[(environment, port)].listener.value;
      && id in a.listeners && a.listeners[id].status == Disabled
      && n == db.(assignments := Assignments(a.ports[slot := PortRow(Available, None)], a.listeners - {id}))
      && PortsOf(a.(ports := a.ports[slot := PortRow(Available, None)]), id) == {}
    ensures UpdatePortStatus(db, environment, port, Available) == Ok(n)
  {
    var a, slot, id := db.assignments, (environment, port), db.assignments.ports[(environment, port)].listener.value;
    var written := a.(ports := a.ports[slot := PortRow(Available, None)]);
    assert forall s | s in a.ports && s != slot :: a.ports[s].listener == Some(id) ==> s in PortsOf(written, id);
  }

  lemma WrittenStatus(db: Database, environment: string, port: int, status: PortStatus, n: Database)
    requires !Assigned(status) && (environment, port) in db.assignments.ports
    requires var row := db.assignments.ports[(environment, port)];
      && (status == Blocked || !Assigned(row.status)) && (status == Available ==> row.listener == None)
      && n.assignments.ports == db.assignments.ports[(environment, port) := PortRow(status, row.listener)]
      && n.assignments.listeners.Keys == db.assignments.listeners.Keys
      && n == db.(assignments := n.assignments)
      && forall l | l in db.assignments.listeners :: n.assignments.listeners[l] ==
          if status == Blocked && row.listener == Some(l) then Disable(db.assignments.listeners[l]) else db.assignments.listeners[l]
    ensures UpdatePortStatus(db, environment, port, status) == Ok(n)
  {
    var a, row := db.assignments, db.assignments.ports[(environment, port)];
    if status == Blocked {
      assert n.assignments.listeners == map id | id in a.listeners :: if row.listener == Some(id) then Disable(a.listeners[id]) else a.listeners[id];
    } else {
      assert n.assignments.listeners == a.listeners;
    }
  }

  /** Every row of every table is what the request says, or what it was. */
  ghost predicate EveryPlaceMeans(before: Database, g: Settings, request: Request, after: Database) {
    forall p :: StepMeans(before, g, request, after, p)
  }

  class Store {
    const settings: Settings
    /** The bootstrap versions. */
    ghost const boot: set<nat>
    /** The tables, as the statements of the open transaction have left them. */
    var db: Database
    /** What a rollback restores; none while no transaction is open. */
    var undo: Option<Database>

    ghost predicate Valid()
      reads this
    {
      undo == None && Invariant(db, settings, boot)
    }

    constructor (settings: Settings, db: Database)
      requires TableRules.Sane(settings) && FreshSchema(db)
      ensures Valid() && this.settings == settings && this.db == db
    {
      this.settings, this.db, undo, boot := settings, db, None, db.configurations.rows.Keys;
      new;
      FreshIsInvariant(db, settings);
    }

    // -------------------------------------------------------- transactions

    method Begin()
      requires undo == None
      modifies this`undo
      ensures undo == Some(db)
    {
      undo := Some(db);
    }

    method Commit()
      modifies this`undo
      ensures undo == None
    {
      undo := None;
    }

    /** The error of a statement or of the code ends the transaction: whatever was written is undone. */
    method Fail<T>(e: Error) returns (r: Result<T, Error>)
      requires undo.Some?
      modifies this`db, this`undo
      ensures r == Err(e) && undo == None && db == old(undo).value
    {
      db, undo := undo.value, None;
      r := Err(e);
    }

    lemma Restored(before: Database, request: Request)
      requires Invariant(before, settings, boot) && db == Next(before, settings, request) && undo == None
      ensures Valid()
    {
      hide Invariant;
      InvariantKept(before, settings, boot, request);
    }

    lemma RequestMeans(request: Request)
      requires Valid()
      ensures EveryPlaceMeans(db, settings, request, Next(db, settings, request))
    {
      hide Invariant, Fits, NumbersFresh, StepMeans, Next, Consistent;
      InvariantMeans(db, settings, boot);
      forall p ensures StepMeans(db, settings, request, Next(db, settings, request), p) {
        EveryStepMeans(db, settings, request, p);
      }
    }

    // ------------------------------------------------- ports and listeners

    /** Nothing but the port and its listener changes; a released port is free and has lost its listener, a blocked one has
        at most a disabled listener. */
    method UpdatePortStatus(environment: string, port: int, status: PortStatus, now: nat) returns (r: Result<PortRow, Error>)
      requires Valid()
      modifies this`db, this`undo
      ensures Valid() && Handled(old(db), db, settings, Request(environment, DoUpdatePortStatus(port, status), now), r)
      ensures r.Ok? <==> MayBecome(old(db).assignments, (environment, port), status)
      ensures r.Ok? ==> (environment, port) in db.assignments.ports && r.value == db.assignments.ports[(environment, port)]
      ensures r.Ok? ==> OnlyAt(old(db).assignments, db.assignments, (environment, port)) && PortIs(db.assignments, (environment, port), status)
    {
      hide Invariant, OnlyAt, PortIs, Consistent, Next, Apply, ControlPlane.UpdatePortStatus, MayBecome, Fits, NumbersFresh;
      ghost var before := db;
      InvariantMeans(db, settings, boot);
      PortAnswers(db, environment, port, status);
      PortRequest(db, settings, environment, port, status, now);
      PortStatusMeans(db, environment, port, status);
      RefusedStatus(db, environment, port, status);
      if status != Available && status != Blocked && status != Cooldown { return Err(Invalid); }
      Begin();
      var slot := (environment, port);
      if status == Blocked {
        if slot !in db.assignments.ports { r := Fail(NotFound); return; }
        if db.assignments.ports[slot].listener.Some? { DisableListener(db.assignments.ports[slot].listener.value); }
      }
      if status == Available {
        if slot !in db.assignments.ports { r := Fail(NotFound); return; }
        if db.assignments.ports[slot].listener.Some? {
          var id := db.assignments.ports[slot].listener.value;
          if id !in db.assignments.listeners { r := Fail(Failure); return; }
          if db.assignments.listeners[id].status != Disabled { r := Fail(Conflict); return; }
          WritePort(slot, PortRow(Available, None));
          if PortsOf(db.assignments, id) != {} { r := Fail(Invalid); return; }
          db := db.(assignments := db.assignments.(listeners := db.assignments.listeners - {id}));
          Commit();
          ReleasedStatus(before, environment, port, db);
          Restored(before, Request(environment, DoUpdatePortStatus(port, status), now));
          return Ok(db.assignments.ports[slot]);
        }
      }
      if slot !in db.assignments.ports || (status != Blocked && Assigned(db.assignments.ports[slot].status)) { r := Fail(NotFound); return; }
      WritePort(slot, PortRow(status, if status == Available then None else db.assignments.ports[slot].listener));
      Commit();
      WrittenStatus(before, environment, port, status, db);
      Restored(before, Request(environment, DoUpdatePortStatus(port, status), now));
      return Ok(db.assignments.ports[slot]);
    }

    /** UPDATE port_inventory ... WHERE listen_port. */
    method WritePort(slot: Slot, row: PortRow)
      modifies this`db
      ensures db == old(db).(assignments := old(db).assignments.(ports := old(db).assignments.ports[slot := row]))
    {
      db := db.(assignments := db.assignments.(ports := db.assignments.ports[slot := row]));
    }

    /** UPDATE listeners SET status='disabled' ... WHERE id AND status<>'disabled'. */
    method DisableListener(id: Id)
      modifies this`db
      ensures var a := old(db).assignments;
        db == old(db).(assignments := Assignments(a.ports, map l | l in a.listeners :: if l == id then Disable(a.listeners[l]) else a.listeners[l]))
    {
      var listeners := db.assignments.listeners;
      if id in listeners && listeners[id].status != Disabled {
        listeners := listeners[id := listeners[id].(status := Disabled, rowVersion := listeners[id].rowVersion + 1)];
      }
      assert listeners == map l | l in db.assignments.listeners ::
        if l == id then Disable(db.assignments.listeners[l]) else db.assignments.listeners[l];
      db := db.(assignments := db.assignments.(listeners := listeners));
    }

    /** Succeeds exactly for an admissible request with an acceptable free port, and then takes the lowest one. */
    method AllocateListener(environment: string, id: Id, input: ListenerInput, now: nat) returns (r: Result<ListenerRow, Error>)
      requires Valid()
      modifies this`db, this`undo
      ensures Valid() && Handled(old(db), db, settings, Request(environment, DoAllocateListener(id, input), now), r)
      ensures r.Ok? ==> ListenerSays(old(db), Request(environment, DoAllocateListener(id, input), now), r.value)
      ensures r.Ok? ==> PolicySays(Request(environment, DoAllocateListener(id, input), now), r.value)
      ensures r.Err? ==> RefusedWith(old(db), settings, environment, id, input, r.error)
      ensures r.Ok? <==>
        Admissible(old(db), settings, environment, id, input) && PortToBeHad(old(db).assignments, environment, input)
      ensures r.Ok? ==> TakesLowest(old(db).assignments, db.assignments, environment, id, input) && r.value == db.assignments.listeners[id]
    {
      hide Invariant, TakesLowest, Admissible, PortToBeHad, RegexOk, PermissionExists, EnabledVersions, PortOccupied, NormalizeMethods,
        PolicyInRange, Consistent, Fits, NumbersFresh, RefusedWith, ListenerSays, PolicySays, StatusSays, StampSays, Next, Apply;
      ghost var before := db;
      InvariantMeans(db, settings, boot);
      AllocationRequest(db, settings, environment, id, input, now);
      AllocationMeans(db, settings, environment, id, input);
      var methods := NormalizeMethods(input.methods);
      var policy := input.policy;
      if policy.threshold == 0 { policy := policy.(threshold := 5); }
      if policy.openMs == 0 { policy := policy.(openMs := 30000); }
      if methods == None || input.contentTypes == None || !RegexOk(input.regex, settings.platform)
        || !settings.permissionName(input.permission) || !PolicyInRange(policy, 1)
      {
        return Err(Invalid);
      }
      Begin();
      if environment !in db.environments { r := Fail(NotFound); return; }
      var versions := EnabledVersions(db.catalog, environment, input.service, input.version);
      if versions == {} { r := Fail(NotFound); return; }
      var versionId := FirstOf(versions);
      if !PermissionExists(db.access, input.permission) { r := Fail(Invalid); return; }
      var free, port := AvailablePorts(db.assignments, environment), 0;
      if input.preferredPort.Some? {
        if input.preferredPort.value !in free { r := Fail(NotFound); return; }
        port := input.preferredPort.value;
      } else {
        if free == {} { r := Fail(NotFound); return; }
        port := Lowest(free);
      }
      if id in db.assignments.listeners || PortOccupied(db.assignments, {}, environment, port) { r := Fail(Conflict); return; }
      WriteListener(id, ListenerRow(environment, versionId, port, input.permission, methods.value,
        input.contentTypes.value, input.regex, ListenerStatus.Reserved, None, 1, policy));
      WritePort((environment, port), PortRow(PortStatus.Reserved, Some(id)));
      Commit();
      Restored(before, Request(environment, DoAllocateListener(id, input), now));
      return Ok(db.assignments.listeners[id]);
    }

    method WriteListener(id: Id, row: ListenerRow)
      modifies this`db
      ensures db == old(db).(assignments := old(db).assignments.(listeners := old(db).assignments.listeners[id := row]))
    {
      db := db.(assignments := db.assignments.(listeners := db.assignments.listeners[id := row]));
    }

    /** Succeeds exactly on the listener's current version; the listener and the one port that is its own change together,
        and no second update can expect the same version. */
    method UpdateListener(environment: string, id: Id, status: ListenerStatus, expected: int, now: nat) returns (r: Result<ListenerRow, Error>)
      requires Valid()
      modifies this`db, this`undo
      ensures Valid() && Handled(old(db), db, settings, Request(environment, DoUpdateListener(id, status, expected), now), r)
      ensures r.Ok? <==> NamesListener(old(db).assignments, environment, id, expected)
      ensures r.Err? ==> r.error == if expected < 1 then Invalid else NotFound
      ensures r.Ok? ==> ListenerChanged(old(db).assignments, db.assignments, id, status) && r.value == db.assignments.listeners[id]
      ensures r.Ok? ==> forall next :: ControlPlane.UpdateListener(db, environment, id, next, expected) == Err(NotFound)
    {
      hide Invariant, PortOccupied, Consistent;
      ghost var before := db;
      InvariantMeans(db, settings, boot);
      ListenerUpdateMeans(db, environment, id, status, expected);
      if expected < 1 { return Err(Invalid); }
      Begin();
      var listeners := db.assignments.listeners;
      if id !in listeners || listeners[id].environment != environment || listeners[id].rowVersion != expected {
        r := Fail(NotFound);
        return;
      }
      // The partial unique index has nothing to object to: no other listener that is not disabled stands on the port.
      assert status == Disabled || !PortOccupied(db.assignments, {id}, environment, listeners[id].port);
      WriteListener(id, listeners[id].(status := status, rowVersion := listeners[id].rowVersion + 1));
      var ports := db.assignments.ports;
      db := db.(assignments := db.assignments.(ports := map s | s in ports ::
        if ports[s].listener == Some(id) then ports[s].(status := PortStatusOf(status)) else ports[s]));
      Commit();
      Restored(before, Request(environment, DoUpdateListener(id, status, expected), now));
      return Ok(db.assignments.listeners[id]);
    }

    // -------------------------------------------- permissions and consumers

    /** Succeeds exactly for a permission that no grant and no listener uses; then its name is gone, every other name stays,
        and every consumer is granted what it was. */
    method DeletePermission(environment: string, id: Id, now: nat) returns (r: Result<string, Error>)
      requires Valid()
      modifies this`db, this`undo
      ensures Valid() && Handled(old(db), db, settings, Request(environment, DoDeletePermission(id), now), r)
      ensures r.Ok? <==> AccessAccepts(old(db), settings, Request(environment, DoDeletePermission(id), now))
      ensures r.Ok? <==> id in old(db).access.permissions && !PermissionInUse(old(db), id) && environment in old(db).environments
      ensures r.Ok? ==> r.value == old(db).access.permissions[id] && SameGrants(old(db).access, db.access)
      ensures r.Ok? ==> forall name :: PermissionExists(db.access, name) <==> PermissionExists(old(db).access, name) && name != r.value
    {
      hide Invariant, SameGrants, AccessAccepts, Fits, NumbersFresh;
      ghost var before := db;
      PermissionAnswers(db, settings, Request(environment, DoDeletePermission(id), now));
      InvariantMeans(db, settings, boot);
      PermissionDeletionMeans(db, environment, id);
      Begin();
      if id !in db.access.permissions { r := Fail(NotFound); return; }
      var name := db.access.permissions[id];
      if exists g | g in db.access.grants :: g.1 == id { r := Fail(Conflict); return; }
      if exists l | l in db.assignments.listeners :: db.assignments.listeners[l].permission == name { r := Fail(Conflict); return; }
      db := db.(access := db.access.(permissions := db.access.permissions - {id}));
      if environment !in db.environments { r := Fail(NotFound); return; }
      Commit();
      Restored(before, Request(environment, DoDeletePermission(id), now));
      return Ok(name);
    }

    /** assignPermissions: one INSERT ... SELECT ... ON CONFLICT DO NOTHING per name. On an error some grants may have been
        written; the caller's transaction takes them back. */
    method AssignPermissions(consumer: Id, names: seq<string>) returns (error: Option<Error>)
      modifies this`db
      ensures match ControlPlane.AssignPermissions(old(db).access, settings, consumer, names)
        case Ok(x) => error == None && db == old(db).(access := x)
        case Err(e) => error == Some(e) && db == old(db).(access := db.access)
    {
      ghost var x := db.access;
      for i := 0 to |names|
        invariant db == old(db).(access := db.access) && db.access == x.(grants := db.access.grants)
        invariant forall k | 0 <= k < i :: settings.permissionName(names[k]) && PermissionExists(x, names[k]) && consumer in x.consumers
        invariant db.access.grants == x.grants + set p | p in x.permissions && x.permissions[p] in names[..i] :: (consumer, p)
      {
        var name, permissions := names[i], db.access.permissions;
        if !settings.permissionName(name) { return Some(Invalid); }
        var inserted := set p | p in permissions && permissions[p] == name :: (consumer, p);
        if inserted != {} && consumer !in db.access.consumers {
          assert name in names;
          return Some(Invalid);
        }
        assert PermissionExists(x, name) <==> inserted != {} by {
          if p :| p in x.permissions && x.permissions[p] == name { assert (consumer, p) in inserted; }
        }
        if inserted == {} { return Some(Invalid); }
        db := db.(access := db.access.(grants := db.access.grants + inserted));
        assert names[..i + 1] == names[..i] + [name];
      }
      assert names[..|names|] == names;
      return None;
    }

    /** The consumer appears with exactly these grants, or neither does. */
    method CreateConsumer(environment: string, id: Id, name: string, permissions: seq<string>, now: nat)
      returns (r: Result<ConsumerRow, Error>)
      requires Valid()
      modifies this`db, this`undo
      ensures Valid() && Handled(old(db), db, settings, Request(environment, DoCreateConsumer(id, name, permissions), now), r)
      ensures r.Ok? <==> AccessAccepts(old(db), settings, Request(environment, DoCreateConsumer(id, name, permissions), now))
      ensures r.Ok? ==> id in db.access.consumers && r.value == db.access.consumers[id]
      ensures r.Ok? ==> ConsumerSays(old(db), Request(environment, DoCreateConsumer(id, name, permissions), now), r.value)
      ensures r.Ok? ==> GrantedExactly(old(db).access, db.access, id, permissions)
    {
      hide Invariant, GrantedExactly, Fits, NumbersFresh, AccessAccepts;
      ghost var before := db;
      ConsumerAnswers(db, settings, Request(environment, DoCreateConsumer(id, name, permissions), now));
      InvariantMeans(db, settings, boot);
      ConsumerCreationMeans(db, settings, environment, id, name, permissions, now);
      if !settings.serviceName(name) { return Err(Invalid); }
      Begin();
      if environment !in db.environments { r := Fail(NotFound); return; }
      if id in db.access.consumers { r := Fail(Conflict); return; }
      if exists c | c in db.access.consumers :: db.access.consumers[c].environment == environment && db.access.consumers[c].name == name {
        r := Fail(Conflict);
        return;
      }
      db := db.(access := db.access.(consumers := db.access.consumers[id := ConsumerRow(environment, name, true, 1, now)]));
      var error := AssignPermissions(id, permissions);
      if error.Some? { r := Fail(error.value); return; }
      Commit();
      Restored(before, Request(environment, DoCreateConsumer(id, name, permissions), now));
      return Ok(db.access.consumers[id]);
    }

    /** Grants are replaced, not merged; if one of them is rejected the consumer row keeps its old state too. */
    method UpdateConsumer(environment: string, id: Id, enabled: bool, permissions: seq<string>, expected: int, now: nat)
      returns (r: Result<ConsumerRow, Error>)
      requires Valid()
      modifies this`db, this`undo
      ensures Valid() && Handled(old(db), db, settings, Request(environment, DoUpdateConsumer(id, enabled, permissions, expected), now), r)
      ensures r.Ok? <==> AccessAccepts(old(db), settings, Request(environment, DoUpdateConsumer(id, enabled, permissions, expected), now))
      ensures r.Ok? ==> id in db.access.consumers && r.value == db.access.consumers[id]
      ensures r.Ok? ==>
        ConsumerSays(old(db), Request(environment, DoUpdateConsumer(id, enabled, permissions, expected), now), r.value)
      ensures r.Ok? ==> GrantedExactly(old(db).access, db.access, id, permissions)
    {
      hide Invariant, GrantedExactly, AccessAccepts;
      ghost var before := db;
      ConsumerAnswers(db, settings, Request(environment, DoUpdateConsumer(id, enabled, permissions, expected), now));
      ConsumerUpdateMeans(db, settings, environment, id, enabled, permissions, expected, now);
      if expected < 1 { return Err(Invalid); }
      Begin();
      var consumers := db.access.consumers;
      if !ConsumerIn(db.access, environment, id) || consumers[id].rowVersion != expected { r := Fail(NotFound); return; }
      db := db.(access := db.access.(consumers := consumers[id :=
        consumers[id].(enabled := enabled, rowVersion := consumers[id].rowVersion + 1, updatedAt := now)]));
      db := db.(access := db.access.(grants := set g | g in db.access.grants && g.0 != id));
      var error := AssignPermissions(id, permissions);
      if error.Some? { r := Fail(error.value); return; }
      Commit();
      Restored(before, Request(environment, DoUpdateConsumer(id, enabled, permissions, expected), now));
      return Ok(db.access.consumers[id]);
    }

    /** Succeeds exactly for a consumer of the environment that owns no key, revoked or not; nothing is granted to it any
        more, and no replica reads anything else than before. */
    method DeleteConsumer(environment: string, id: Id, now: nat) returns (r: Result<string, Error>)
      requires Valid()
      modifies this`db, this`undo
      ensures Valid() && Handled(old(db), db, settings, Request(environment, DoDeleteConsumer(id), now), r)
      ensures r.Ok? <==>
        ConsumerIn(old(db).access, environment, id) && forall k | k in old(db).access.keys :: old(db).access.keys[k].consumer != id
      ensures r.Ok? ==> r.value == old(db).access.consumers[id].name && id !in db.access.consumers && GrantedNames(db.access, id) == []
      ensures r.Ok? ==> SameRecords(old(db).access, db.access)
    {
      hide Invariant, SameRecords, GrantedNames;
      ghost var before := db;
      InvariantMeans(db, settings, boot);
      ConsumerDeletionMeans(db, environment, id);
      Begin();
      if !ConsumerIn(db.access, environment, id) { r := Fail(NotFound); return; }
      var name := db.access.consumers[id].name;
      if exists k | k in db.access.keys :: db.access.keys[k].consumer == id { r := Fail(Conflict); return; }
      db := db.(access := db.access.(
        consumers := db.access.consumers - {id}, grants := set g | g in db.access.grants && g.0 != id));
      Commit();
      Restored(before, Request(environment, DoDeleteConsumer(id), now));
      return Ok(name);
    }

    // ------------------------------------------------------------------ keys

    /** The raw key is handed out only if it was stored: the prefix that the gateway will read from it and its MAC are there. */
    method IssueKey(
      environment: string, consumer: Id, id: Id, secret: Secret, name: string, permissions: seq<string>,
      expiresAt: Option<nat>, now: nat) returns (r: Result<string, Error>)
      requires Valid()
      modifies this`db, this`undo
      ensures Valid() && Handled(old(db), db, settings, Request(environment, DoIssueKey(id, consumer, secret, name, permissions, expiresAt), now), r)
      ensures r.Ok? <==> AccessAccepts(old(db), settings, Request(environment, DoIssueKey(id, consumer, secret, name, permissions, expiresAt), now))
      ensures r.Ok? ==> KeyStored(db.access, settings, id, r.value)
      ensures r.Ok? ==> KeySays(
        old(db), settings, Request(environment, DoIssueKey(id, consumer, secret, name, permissions, expiresAt), now), db.access.keys[id])
      ensures r.Ok? ==> KeysBut(old(db).access, db.access, {id}) && GrantsMore(old(db).access, db.access, consumer, permissions)
      ensures r.Ok? ==> Unrevoked(db.access) == Unrevoked(old(db).access) + {id}
    {
      hide Invariant, PrefixTaken, RawKey, Authentication.KeyPrefix, Next, Apply, GrantsMore, AccessAccepts;
      ghost var before := db;
      KeyAnswers(db, settings, Request(environment, DoIssueKey(id, consumer, secret, name, permissions, expiresAt), now));
      Authentication.PrefixRoundTrip(secret);
      GrantingMeans(db.access, settings, consumer, permissions);
      IssueRequest(db, settings, environment, id, consumer, secret, name, permissions, expiresAt, now);
      if name == "" || (expiresAt.Some? && expiresAt.value <= now) { return Err(Invalid); }
      var raw, prefix := RawKey(secret), secret[..12];
      var verifier := settings.mac(raw);
      Begin();
      var error := AssignPermissions(consumer, permissions);
      if error.Some? { r := Fail(error.value); return; }
      if !ConsumerIn(db.access, environment, consumer) || !db.access.consumers[consumer].enabled { r := Fail(NotFound); return; }
      if id in db.access.keys || PrefixTaken(db.access, prefix) { r := Fail(Conflict); return; }
      WriteKey(id, KeyRow(consumer, name, prefix, verifier, expiresAt, None, None, now));
      Commit();
      Restored(before, Request(environment, DoIssueKey(id, consumer, secret, name, permissions, expiresAt), now));
      return Ok(raw);
    }

    method WriteKey(id: Id, row: KeyRow)
      modifies this`db
      ensures db == old(db).(access := old(db).access.(keys := old(db).access.keys[id := row]))
    {
      db := db.(access := db.access.(keys := db.access.keys[id := row]));
    }

    /** The new key takes the old one's place among the unrevoked: its row and the revocation are written together, or neither. */
    method RotateKey(environment: string, id: Id, newId: Id, secret: Secret, now: nat) returns (r: Result<string, Error>)
      requires Valid()
      modifies this`db, this`undo
      ensures Valid() && Handled(old(db), db, settings, Request(environment, DoRotateKey(id, newId, secret), now), r)
      ensures r.Ok? <==> AccessAccepts(old(db), settings, Request(environment, DoRotateKey(id, newId, secret), now))
      ensures r.Ok? ==> KeyStored(db.access, settings, newId, r.value)
      ensures r.Ok? ==>
        KeySays(old(db), settings, Request(environment, DoRotateKey(id, newId, secret), now), db.access.keys[newId])
      ensures r.Ok? ==> id in old(db).access.keys && id in db.access.keys
      ensures r.Ok? ==> db.access.keys[id] == old(db).access.keys[id].(revokedAt := Some(now))
      ensures r.Ok? ==> KeysBut(old(db).access, db.access, {id, newId}) && db.access.grants == old(db).access.grants
      ensures r.Ok? ==> id in Unrevoked(old(db).access) && Unrevoked(db.access) == Unrevoked(old(db).access) - {id} + {newId}
    {
      hide Invariant, AccessAccepts, PrefixTaken, RawKey, Authentication.KeyPrefix, Next, Apply;
      ghost var before := db;
      RotationRequest(db, settings, environment, id, newId, secret, now);
      KeyAnswers(db, settings, Request(environment, DoRotateKey(id, newId, secret), now));
      Authentication.PrefixRoundTrip(secret);
      var raw, prefix := RawKey(secret), secret[..12];
      Begin();
      if !KeyIn(db.access, environment, id) { r := Fail(NotFound); return; }
      var row := db.access.keys[id];
      if row.revokedAt.Some? { r := Fail(Conflict); return; }
      if newId in db.access.keys || PrefixTaken(db.access, prefix) { r := Fail(Conflict); return; }
      WriteKey(newId, KeyRow(row.consumer, row.name + " rotation", prefix, settings.mac(raw), row.expiresAt, None, Some(id), now));
      assert id in db.access.keys && db.access.keys[id].revokedAt == None;
      WriteKey(id, db.access.keys[id].(revokedAt := Some(now)));
      Commit();
      Restored(before, Request(environment, DoRotateKey(id, newId, secret), now));
      return Ok(raw);
    }

    /** Succeeds exactly on an unrevoked key of the environment; from then on it is in no snapshot at any moment, and every
        other key is in the snapshots it was in. */
    method RevokeKey(environment: string, id: Id, now: nat) returns (r: Result<KeyRow, Error>)
      requires Valid()
      modifies this`db, this`undo
      ensures Valid() && Handled(old(db), db, settings, Request(environment, DoRevokeKey(id), now), r)
      ensures r.Ok? <==> KeyIn(old(db).access, environment, id) && old(db).access.keys[id].revokedAt == None
      ensures r.Err? ==> r == Err(NotFound)
      ensures r.Ok? ==> id in old(db).access.keys && r.value == old(db).access.keys[id].(revokedAt := Some(now))
      ensures r.Ok? ==> OutForGood(old(db).access, db.access, id) && Unrevoked(db.access) == Unrevoked(old(db).access) - {id}
    {
      hide Invariant, OutForGood, Unrevoked;
      ghost var before := db;
      RevocationMeans(db, environment, id, now);
      Begin();
      if !KeyIn(db.access, environment, id) || db.access.keys[id].revokedAt.Some? { r := Fail(NotFound); return; }
      WriteKey(id, db.access.keys[id].(revokedAt := Some(now)));
      Commit();
      Restored(before, Request(environment, DoRevokeKey(id), now));
      return Ok(db.access.keys[id]);
    }

    // -------------------------------------------------------- configurations

    /** A new draft with exactly the listeners that are not disabled, which no replica notices. */
    method CreateConfiguration(environment: string, actor: string, now: nat) returns (r: Result<nat, Error>)
      requires Valid()
      modifies this`db, this`undo
      ensures Valid() && Handled(old(db), db, settings, Request(environment, DoCreateConfiguration(actor), now), r)
      ensures r.Ok? <==> environment in old(db).environments
      ensures r.Ok? ==> r.value in db.configurations.rows && db.configurations.rows[r.value].createdBy == actor
      ensures r.Ok? ==>
        ConfigurationSays(old(db), Request(environment, DoCreateConfiguration(actor), now), db.configurations.rows[r.value])
      ensures r.Ok? ==> NewDraft(old(db), db.configurations, environment, r.value) && NothingToLoad(old(db), db, settings)
    {
      hide Capture, Invariant, NewDraft, NothingToLoad;
      ghost var before := db;
      InvariantMeans(db, settings, boot);
      CreationMeans(db, settings, boot, environment, actor);
      Begin();
      if environment !in db.environments { r := Fail(NotFound); return; }
      var snapshot := Capture(db, environment);
      var id := db.configurations.nextId;
      db := db.(configurations := db.configurations.(nextId := id + 1));
      WriteConfiguration(id, ConfigurationRow(environment, Draft, snapshot, None, actor));
      Commit();
      Restored(before, Request(environment, DoCreateConfiguration(actor), now));
      return Ok(id);
    }

    method WriteConfiguration(id: nat, row: ConfigurationRow)
      modifies this`db
      ensures db == old(db).(configurations := old(db).configurations.(rows := old(db).configurations.rows[id := row]))
    {
      db := db.(configurations := db.configurations.(rows := db.configurations.rows[id := row]));
    }

    /** UPDATE configuration_versions SET status='superseded' ... WHERE status='active'. */
    method SupersedeActive(environment: string)
      modifies this`db
      ensures db == old(db).(configurations := old(db).configurations.(rows := Supersede(old(db).configurations.rows, environment)))
    {
      var rows := db.configurations.rows;
      db := db.(configurations := db.configurations.(rows := map c | c in rows ::
        if rows[c].environment == environment && rows[c].status == Current then rows[c].(status := Superseded) else rows[c]));
    }

    /** Looks at the live tables, not at the stored snapshot; no replica notices. */
    method ValidateConfiguration(environment: string, id: nat, now: nat) returns (r: Result<nat, Error>)
      requires Valid()
      modifies this`db, this`undo
      ensures Valid() && Handled(old(db), db, settings, Request(environment, DoValidateConfiguration(id), now), r)
      ensures r.Ok? <==> ConfigurationAccepts(old(db), settings, Request(environment, DoValidateConfiguration(id), now))
      ensures r.Ok? ==> r.value == id && ConfigurationIn(db.configurations, environment, id, Validated)
      ensures r.Ok? ==> NothingToLoad(old(db), db, settings)
    {
      hide Invariant, NothingToLoad;
      ghost var before := db;
      ValidationMeans(db, settings, environment, id);
      ListenersPublishable(db, environment);
      Begin();
      var invalid := set l | l in db.assignments.listeners && db.assignments.listeners[l].environment == environment
        && !ListenerPublishable(db, db.assignments.listeners[l]);
      assert invalid == {} <==> TablesPublishable(db, environment) by {
        if !TablesPublishable(db, environment) {
          var l :| l in db.assignments.listeners && db.assignments.listeners[l].environment == environment
            && !ListenerPublishable(db, db.assignments.listeners[l]);
          assert l in invalid;
        }
      }
      if |invalid| > 0 { r := Fail(Invalid); return; }
      var rows := db.configurations.rows;
      if id !in rows || rows[id].environment != environment || rows[id].status != Draft { r := Fail(NotFound); return; }
      WriteConfiguration(id, rows[id].(status := Validated));
      Commit();
      Restored(before, Request(environment, DoValidateConfiguration(id), now));
      return Ok(id);
    }

    /** One more approver, who neither wrote nor approved the version before; no other version's approvals change. */
    method ApproveConfiguration(environment: string, id: nat, actor: string, now: nat) returns (r: Result<nat, Error>)
      requires Valid()
      modifies this`db, this`undo
      ensures Valid() && Handled(old(db), db, settings, Request(environment, DoApproveConfiguration(id, actor), now), r)
      ensures r.Ok? <==> 1 <= |actor| <= 128 && MayApprove(old(db).configurations, environment, id, actor)
      ensures r.Ok? ==> r.value == id && Approvers(db.configurations, id) == Approvers(old(db).configurations, id) + {actor}
      ensures r.Ok? ==> |Approvers(db.configurations, id)| == |Approvers(old(db).configurations, id)| + 1
      ensures r.Ok? ==> forall v | v != id :: Approvers(db.configurations, v) == Approvers(old(db).configurations, v)
      ensures r.Ok? ==> NothingToLoad(old(db), db, settings)
    {
      hide Invariant, NothingToLoad, Approvers, MayApprove;
      ghost var before := db;
      ApprovalMeans(db, settings, environment, id, actor);
      if actor == "" || |actor| > 128 { return Err(Invalid); }
      Begin();
      var k := db.configurations;
      if id !in k.rows || k.rows[id].environment != environment || k.rows[id].status != Validated || k.rows[id].createdBy == actor {
        r := Fail(NotFound);
        return;
      }
      if (id, actor) in k.approvals { r := Fail(Conflict); return; }
      db := db.(configurations := k.(approvals := k.approvals + {(id, actor)}));
      Commit();
      Restored(before, Request(environment, DoApproveConfiguration(id, actor), now));
      return Ok(id);
    }

    /** The version is the active one of its environment and was reviewed as required; every other environment keeps its own.
        The row superseded before the activation failed is restored. */
    method ActivateConfiguration(environment: string, id: nat, expectedActive: Option<nat>, now: nat) returns (r: Result<nat, Error>)
      requires Valid()
      modifies this`db, this`undo
      ensures Valid() && Handled(old(db), db, settings, Request(environment, DoActivateConfiguration(id, expectedActive), now), r)
      ensures r.Ok? <==> MayActivate(old(db), settings.requiredApprovals, environment, id, expectedActive)
      ensures r.Ok? ==> r.value == id && ActiveId(db.configurations, environment) == Some(id)
      ensures r.Ok? ==> SameActiveElsewhere(old(db).configurations, db.configurations, environment)
      ensures r.Ok? ==> id in old(db).configurations.rows && Configs.Reviewed(old(db).configurations, settings.requiredApprovals, id)
    {
      hide Invariant, Approvers, ActiveId, SameActiveElsewhere, Configs.Reviewed, Configs.Sound, Next, Apply, MayActivate, Fits, NumbersFresh;
      ghost var before := db;
      InvariantMeans(db, settings, boot);
      ActivationRequest(db, settings, environment, id, expectedActive, now);
      ActivationMeans(db, settings, boot, environment, id, expectedActive);
      Begin();
      if environment !in db.environments { r := Fail(NotFound); return; }
      var activeId := ActiveId(db.configurations, environment);
      if expectedActive.Some? && (activeId == None || activeId.value != expectedActive.value) { r := Fail(Conflict); return; }
      if settings.requiredApprovals > 0 {
        var approvals := if ConfigurationIn(db.configurations, environment, id, Validated) then |Approvers(db.configurations, id)| else 0;
        if approvals < settings.requiredApprovals { r := Fail(Conflict); return; }
      }
      SupersedeActive(environment);
      var rows := db.configurations.rows;
      if id !in rows || rows[id].environment != environment || rows[id].status != Validated { r := Fail(NotFound); return; }
      WriteConfiguration(id, rows[id].(status := Current));
      StampListeners(environment, id);
      TakePortsLive(environment);
      Commit();
      LiveTables(before.assignments, db.assignments, environment, id);
      Restored(before, Request(environment, DoActivateConfiguration(id, expectedActive), now));
      return Ok(id);
    }

    /** UPDATE listeners SET configuration_version, and reserved to active. */
    method StampListeners(environment: string, id: nat)
      modifies this`db
      ensures db == old(db).(assignments := old(db).assignments.(listeners := GoLive(old(db).assignments, environment, id).listeners))
    {
      var listeners := db.assignments.listeners;
      db := db.(assignments := db.assignments.(listeners := map l | l in listeners ::
        if listeners[l].environment != environment then listeners[l]
        else listeners[l].(configuration := Some(id),
          status := if listeners[l].status == ListenerStatus.Reserved then ListenerStatus.Active else listeners[l].status)));
    }

    /** UPDATE port_inventory SET status='active' ... WHERE status='reserved'. */
    method TakePortsLive(environment: string)
      modifies this`db
      ensures db == old(db).(assignments := old(db).assignments.(ports := GoLive(old(db).assignments, environment, 0).ports))
    {
      var ports := db.assignments.ports;
      db := db.(assignments := db.assignments.(ports := map s: Slot | s in ports ::
        if s.0 == environment && ports[s].status == PortStatus.Reserved then ports[s].(status := PortStatus.Active) else ports[s]));
    }

    static lemma LiveTables(a: Assignments, b: Assignments, environment: string, id: nat)
      requires b.listeners == GoLive(a, environment, id).listeners
      requires b.ports == GoLive(Assignments(a.ports, b.listeners), environment, 0).ports
      ensures b == GoLive(a, environment, id)
    {
    }

    /** The new version is active and carries the source's snapshot; every other environment keeps its own. */
    method RollbackConfiguration(environment: string, source: nat, actor: string, now: nat) returns (r: Result<nat, Error>)
      requires Valid()
      modifies this`db, this`undo
      ensures Valid() && Handled(old(db), db, settings, Request(environment, DoRollbackConfiguration(source, actor), now), r)
      ensures r.Ok? <==> MayReturnTo(old(db), environment, source)
      ensures r.Ok? ==> r.value in db.configurations.rows && db.configurations.rows[r.value].createdBy == actor
      ensures r.Ok? ==>
        ConfigurationSays(old(db), Request(environment, DoRollbackConfiguration(source, actor), now), db.configurations.rows[r.value])
      ensures r.Ok? ==> r.value !in old(db).configurations.rows && ActiveId(db.configurations, environment) == Some(r.value)
      ensures r.Ok? ==> r.value in db.configurations.rows && source in old(db).configurations.rows
      ensures r.Ok? ==> db.configurations.rows[r.value].snapshot == old(db).configurations.rows[source].snapshot
      ensures r.Ok? ==> SameActiveElsewhere(old(db).configurations, db.configurations, environment)
    {
      hide Invariant, ActiveId, SameActiveElsewhere, Next, Apply, Configs.OneCurrentEach, Configs.Provenance, MayReturnTo, Fits;
      ghost var before := db;
      InvariantMeans(db, settings, boot);
      RollbackRequest(db, settings, environment, source, actor, now);
      RollbackMeans(db, settings, boot, environment, source, actor);
      Begin();
      if environment !in db.environments { r := Fail(NotFound); return; }
      SupersedeActive(environment);
      var rows := db.configurations.rows;
      if source !in rows || rows[source].environment != environment
        || (rows[source].status != Current && rows[source].status != Superseded)
      {
        r := Fail(NotFound);
        return;
      }
      var id := db.configurations.nextId;
      db := db.(configurations := db.configurations.(nextId := id + 1));
      WriteConfiguration(id, ConfigurationRow(environment, Current, rows[source].snapshot, Some(source), actor));
      Commit();
      Restored(before, Request(environment, DoRollbackConfiguration(source, actor), now));
      return Ok(id);
    }

    // ------------------------------------------------------------- requests

    /** The operations of a single statement, by what that statement does. */
    method SingleStatement(request: Request) returns (r: Result<(), Error>)
      requires Valid()
      modifies this`db, this`undo
      ensures Valid() && Handled(old(db), db, settings, request, r)
    {
      hide Apply, Invariant;
      ghost var before := db;
      Begin();
      var outcome := Apply(db, settings, request.environment, request.op, request.now);
      if outcome.Err? { r := Fail(outcome.error); return; }
      db := outcome.value;
      Commit();
      Restored(before, request);
      return Ok(());
    }

    /** A request about permissions, consumers or keys. */
    method ServeAccess(request: Request) returns (ok: bool)
      requires Valid()
      modifies this`db, this`undo
      ensures Valid() && db == Next(old(db), settings, request)
      ensures ok <==> Apply(old(db), settings, request.environment, request.op, request.now).Ok?
    {
      hide Next, Apply, Invariant, AccessAccepts, ConsumerSays, KeySays, KeysBut, GrantsMore, Granted, OutForGood, SameGrants, GrantedExactly, SameRecords,
        PermissionInUse, KeyStored, PermissionExists;
      var e, now := request.environment, request.now;
      match request.op {
        case DoDeletePermission(id) => var r := DeletePermission(e, id, now); ok := r.Ok?;
        case DoCreateConsumer(id, name, permissions) => var r := CreateConsumer(e, id, name, permissions, now); ok := r.Ok?;
        case DoUpdateConsumer(id, enabled, permissions, expected) =>
          var r := UpdateConsumer(e, id, enabled, permissions, expected, now);
          ok := r.Ok?;
        case DoDeleteConsumer(id) => var r := DeleteConsumer(e, id, now); ok := r.Ok?;
        case DoIssueKey(id, consumer, secret, name, permissions, expiresAt) =>
          var r := IssueKey(e, consumer, id, secret, name, permissions, expiresAt, now);
          ok := r.Ok?;
        case DoRotateKey(id, newId, secret) => var r := RotateKey(e, id, newId, secret, now); ok := r.Ok?;
        case DoRevokeKey(id) => var r := RevokeKey(e, id, now); ok := r.Ok?;
        case _ => var r := SingleStatement(request); ok := r.Ok?;
      }
    }

    /** One request of the admin handler. */
    method Serve(request: Request) returns (ok: bool)
      requires Valid()
      modifies this`db, this`undo
      ensures Valid() && db == Next(old(db), settings, request)
      ensures ok <==> Apply(old(db), settings, request.environment, request.op, request.now).Ok?
      ensures ok <==> Accepts(old(db), settings, request)
      ensures EveryPlaceMeans(old(db), settings, request, db)
    {
      hide Next, Apply, Invariant, EveryPlaceMeans, Accepts, MayBecome, ConfigurationAccepts, ListenerSays, PolicySays, ConfigurationSays, MayActivate, MayReturnTo, RefusedWith, OnlyAt,
        PortIs, TakesLowest, Admissible, PortToBeHad, ListenerChanged, NamesListener, NewDraft, NothingToLoad, MayApprove,
        SameActiveElsewhere, ActiveId;
      RequestMeans(request);
      SucceedsIffAcceptable(db, settings, boot, request);
      var e, now := request.environment, request.now;
      match request.op {
        case DoUpdatePortStatus(port, status) => var r := UpdatePortStatus(e, port, status, now); ok := r.Ok?;
        case DoAllocateListener(id, input) => var r := AllocateListener(e, id, input, now); ok := r.Ok?;
        case DoUpdateListener(id, status, expected) => var r := UpdateListener(e, id, status, expected, now); ok := r.Ok?;
        case DoCreateConfiguration(actor) => var r := CreateConfiguration(e, actor, now); ok := r.Ok?;
        case DoValidateConfiguration(id) => var r := ValidateConfiguration(e, id, now); ok := r.Ok?;
        case DoApproveConfiguration(id, actor) => var r := ApproveConfiguration(e, id, actor, now); ok := r.Ok?;
        case DoActivateConfiguration(id, expected) => var r := ActivateConfiguration(e, id, expected, now); ok := r.Ok?;
        case DoRollbackConfiguration(id, actor) => var r := RollbackConfiguration(e, id, actor, now); ok := r.Ok?;
        case _ => ok := ServeAccess(request);
      }
    }
  }

  /** Serving requests one after the other from a fresh schema goes through the states of a run: what is proved of runs is
      true of the store. */
  method ServeAll(settings: Settings, db: Database, requests: seq<Request>) returns (store: Store, ghost history: seq<Database>)
    requires TableRules.Sane(settings) && FreshSchema(db)
    ensures fresh(store) && store.Valid() && store.settings == settings
    ensures IsRun(history, settings, requests) && history[0] == db && store.db == history[|requests|]
  {
    hide FreshSchema, Next, TableRules.Sane, Invariant;
    store := new Store(settings, db);
    history := [db];
    for i := 0 to |requests|
      invariant fresh(store) && store.Valid() && store.settings == settings
      invariant |history| == i + 1 && history[0] == db && store.db == history[i]
      invariant forall k | 0 <= k < i :: history[k + 1] == Next(history[k], settings, requests[k])
    {
      var ok := store.Serve(requests[i]);
      history := history + [store.db];
    }
    forall i | 0 <= i < |requests| ensures StepsAt(history, settings, requests, i) {}
  }
}
