/** What the admin operations mean for those who look at the tables afterwards:
    other administrators, and the replicas that load them. */
module StoreEffects {
  import opened Prelude
  import opened Tables
  import opened SnapshotCompiler
  import opened ControlPlane
  import opened Frames
  import opened PortLifecycle
  import opened TableRules
  import opened Loading
  import opened Generations
  import opened KeyChains
  import opened SnapshotMeaning
  import opened OptimisticLocking
  import opened LastWrites
  import Configs = ConfigurationLifecycle

  // ------------------------------------------------------------ the invariant

  /** What holds of the tables between transactions. */
  ghost predicate Invariant(db: Database, g: Settings, boot: set<nat>) {
    && Sane(g) && RowsSound(db, g) && ServicesUnique(db.catalog)
    && Configs.Sound(db.configurations, db.environments, g.requiredApprovals, boot)
  }

  lemma InvariantMeans(db: Database, g: Settings, boot: set<nat>)
    requires Invariant(db, g, boot)
    ensures Sane(g) && Consistent(db.assignments) && AccessSound(db.access) && Fits(db) && NumbersFresh(db)
    ensures Configs.Sound(db.configurations, db.environments, g.requiredApprovals, boot)
  {
    hide Consistent, AccessSound, Configs.OneCurrentEach, Configs.Provenance, Sane, CatalogSound, ListenersSound, ServicesUnique;
  }

  /** What a request writes is there afterwards and says what the request says. */
  lemma WrittenNow(db: Database, g: Settings, boot: set<nat>, r: Request, p: Place)
    requires Invariant(db, g, boot) && Writes(db, g, r, p)
    ensures Says(db, g, r, Next(db, g, r), p)
  {
    hide Invariant, Fits, NumbersFresh, Writes, Says, Next, Erases, Present, Same;
    InvariantMeans(db, g, boot);
    EveryStepMeans(db, g, r, p);
  }

  lemma InvariantKept(db: Database, g: Settings, boot: set<nat>, r: Request)
    requires Invariant(db, g, boot)
    ensures Invariant(Next(db, g, r), g, boot)
  {
    hide Next, Sane, RowsSound, Configs.Sound, ServicesUnique;
    EveryRequestKeepsRows(db, g, r);
    EveryRequestGrowsServices(db, g, r);
    Configs.EveryRequestKeeps(db, g, r, boot);
  }

  lemma FreshIsInvariant(db: Database, g: Settings)
    requires FreshSchema(db) && Sane(g)
    ensures Invariant(db, g, db.configurations.rows.Keys)
  {
    hide FreshSchema, Sane, RowsSound, Configs.Sound, ServicesUnique;
    NoServicesAtFirst(db);
    FreshRowsAreSound(db, g);
    Configs.FreshIsSound(db, g.requiredApprovals);
  }

  // ---------------------------------------------------- ports and listeners

  ghost predicate StandsAt(l: ListenerRow, s: Slot) { (l.environment, l.port) == s }

  /** Nothing but the port and the listener on it differs. */
  ghost predicate OnlyAt(a: Assignments, b: Assignments, s: Slot) {
    && b.ports.Keys == a.ports.Keys && (forall t | t in a.ports && t != s :: b.ports[t] == a.ports[t])
    && (forall l | l in a.listeners && !StandsAt(a.listeners[l], s) :: l in b.listeners && b.listeners[l] == a.listeners[l])
    && (forall l | l in b.listeners :: l in a.listeners)
  }

  /** A released port is free and has no listener, a blocked or cooling one at most a disabled one. */
  ghost predicate PortIs(b: Assignments, s: Slot, status: PortStatus) {
    && s in b.ports && b.ports[s].status == status
    && (status == Available ==> b.ports[s].listener == None && forall l | l in b.listeners :: !StandsAt(b.listeners[l], s))
    && forall l | l in b.listeners && StandsAt(b.listeners[l], s) :: b.listeners[l].status == Disabled
  }

  /** When an administrator may set a port's status: blocking always; a port that has a listener is released only once the
      listener is disabled, and neither released nor cooled down while it is assigned. */
  ghost predicate MayBecome(a: Assignments, s: Slot, status: PortStatus) {
    && s in a.ports
    && match status
       case Blocked => true
       case Cooldown =>
         a.ports[s].status == Available || a.ports[s].status == Cooldown || a.ports[s].status == Blocked
       case Available =>
         (match a.ports[s].listener
          case None => true
          case Some(l) => l in a.listeners && a.listeners[l].status == Disabled)
       case _ => false
  }

  lemma PortAnswers(db: Database, environment: string, port: int, status: PortStatus)
    requires Consistent(db.assignments)
    ensures UpdatePortStatus(db, environment, port, status).Ok? <==> MayBecome(db.assignments, (environment, port), status)
  {
    var a, slot := db.assignments, (environment, port);
    if slot in a.ports {
      assert PortConsistent(a, slot);
      forall s | s in a.ports && s != slot && a.ports[slot].listener.Some? ensures a.ports[s].listener != a.ports[slot].listener {
        assert PortConsistent(a, s);
      }
    }
  }

  lemma PortStatusMeans(db: Database, environment: string, port: int, status: PortStatus)
    requires Consistent(db.assignments)
    ensures var r := UpdatePortStatus(db, environment, port, status);
      r.Ok? ==> OnlyAt(db.assignments, r.value.assignments, (environment, port)) && PortIs(r.value.assignments, (environment, port), status)
  {
    var a, slot := db.assignments, (environment, port);
    var r := UpdatePortStatus(db, environment, port, status);
    if r.Ok? {
      assert PortConsistent(a, slot);
      forall l | l in a.listeners && StandsAt(a.listeners[l], slot) ensures a.ports[slot].listener == Some(l) {
        assert ListenerConsistent(a, l);
      }
      forall l | l in a.listeners && a.ports[slot].listener == Some(l) ensures StandsAt(a.listeners[l], slot) {}
    }
  }

  ghost predicate IsMethod(m: string) {
    m == "GET" || m == "POST" || m == "PUT" || m == "PATCH" || m == "DELETE" || m == "HEAD" || m == "OPTIONS"
  }

  /** The fields of a listener that can be judged without the tables; a threshold or open time of zero stands for the default. */
  ghost predicate WellFormed(g: Settings, input: ListenerInput) {
    && (forall m | m in input.methods :: IsMethod(m)) && input.contentTypes.Some?
    && RegexAccepted(input.regex, g.platform) && g.permissionName(input.permission)
    && 0 <= input.policy.rate <= 1000000 && 0 <= input.policy.burst <= 1000000 && 0 <= input.policy.quota <= 100000000
    && (input.policy.threshold == 0 || 1 <= input.policy.threshold <= 1000)
    && (input.policy.openMs == 0 || 1000 <= input.policy.openMs <= 3600000)
  }

  lemma KnownMethodsAre(m: string)
    ensures m in KnownMethods <==> IsMethod(m)
  {
    var k := KnownMethods;
    assert k[0] in k && k[1] in k && k[2] in k && k[3] in k && k[4] in k && k[5] in k && k[6] in k;
  }

  lemma WellFormedMeans(g: Settings, input: ListenerInput)
    ensures WellFormed(g, input) <==> ListenerInputOk(g, input)
  {
    hide Kept, IsMethod, RegexAccepted, RegexOk;
    RegexMeans(input.regex, g.platform);
    forall m ensures m in KnownMethods <==> IsMethod(m) { KnownMethodsAre(m); }
    KnownMethodsAre("GET");
    assert IsMethod("GET") by { ItIsAMethod(); }
  }

  lemma ItIsAMethod()
    ensures IsMethod("GET")
  {
  }

  /** What an allocation may ask for: a live service and version by name, and a permission that exists. */
  ghost predicate Admissible(db: Database, g: Settings, environment: string, id: Id, input: ListenerInput) {
    && WellFormed(g, input) && environment in db.environments && id !in db.assignments.listeners
    && (exists v :: Offers(db.catalog, environment, input.service, input.version, v))
    && (exists p :: p in db.access.permissions && db.access.permissions[p] == input.permission)
  }

  /** Which error an allocation is refused with: the first thing that is wrong with it. */
  ghost predicate RefusedWith(db: Database, g: Settings, environment: string, id: Id, input: ListenerInput, e: Error) {
    if !WellFormed(g, input) then e == Invalid
    else if environment !in db.environments then e == NotFound
    else if forall v :: !Offers(db.catalog, environment, input.service, input.version, v) then e == NotFound
    else if forall p | p in db.access.permissions :: db.access.permissions[p] != input.permission then e == Invalid
    else if !PortToBeHad(db.assignments, environment, input) then e == NotFound
    else e == Conflict
  }

  ghost predicate PortToBeHad(a: Assignments, environment: string, input: ListenerInput) {
    exists p :: Free(a, environment, p) && Acceptable(input, p)
  }

  lemma AllocationMeans(db: Database, g: Settings, environment: string, id: Id, input: ListenerInput)
    requires Consistent(db.assignments)
    ensures var r := AllocateListener(db, g, environment, id, input);
      && (r.Ok? <==> Admissible(db, g, environment, id, input) && PortToBeHad(db.assignments, environment, input))
      && (r.Ok? ==> TakesLowest(db.assignments, r.value.assignments, environment, id, input))
      && (r.Err? ==> RefusedWith(db, g, environment, id, input, r.error))
  {
    hide Consistent, TakesLowest, EnabledVersions, AvailablePorts, Free, PortOccupied, ListenerInputOk, WellFormed, Offers, Acceptable;
    WellFormedMeans(g, input);
    VersionsOffered(db.catalog, environment, input);
    if ListenerInputOk(g, input) && environment in db.environments && id !in db.assignments.listeners
      && EnabledVersions(db.catalog, environment, input.service, input.version) != {} && PermissionExists(db.access, input.permission)
    {
      AllocationTakesLowest(db, g, environment, id, input);
    } else {
      RefusalsMean(db, g, environment, id, input);
    }
  }

  lemma VersionsOffered(c: Catalog, environment: string, input: ListenerInput)
    ensures EnabledVersions(c, environment, input.service, input.version) != {}
      <==> exists v :: Offers(c, environment, input.service, input.version, v)
  {
    hide Offers, EnabledVersions;
    forall v ensures v in EnabledVersions(c, environment, input.service, input.version)
      <==> Offers(c, environment, input.service, input.version, v)
    {
      OfferedVersions(c, environment, input.service, input.version, v);
    }
    var versions := EnabledVersions(c, environment, input.service, input.version);
    if versions != {} { var v :| v in versions; }
  }

  lemma RefusalsMean(db: Database, g: Settings, environment: string, id: Id, input: ListenerInput)
    requires !(ListenerInputOk(g, input) && environment in db.environments && id !in db.assignments.listeners
      && EnabledVersions(db.catalog, environment, input.service, input.version) != {} && PermissionExists(db.access, input.permission))
    ensures AllocateListener(db, g, environment, id, input).Err?
    ensures RefusedWith(db, g, environment, id, input, AllocateListener(db, g, environment, id, input).error)
  {
    hide EnabledVersions, AvailablePorts, PortOccupied, RegexOk, PolicyInRange, WellFormed, Offers, NormalizeMethods;
    WellFormedMeans(g, input);
    VersionsOffered(db.catalog, environment, input);
    PortsToBeHad(db.assignments, environment, input);
  }

  lemma PortsToBeHad(a: Assignments, environment: string, input: ListenerInput)
    ensures var free := AvailablePorts(a, environment);
      PortToBeHad(a, environment, input) <==> free != {} && (input.preferredPort.Some? ==> input.preferredPort.value in free)
  {
    hide Free;
    var free := AvailablePorts(a, environment);
    forall p ensures p in free <==> Free(a, environment, p) { FreePorts(a, environment, p); }
    if free != {} && (input.preferredPort.Some? ==> input.preferredPort.value in free) {
      var p := if input.preferredPort.Some? then input.preferredPort.value else Lowest(free);
      assert Free(a, environment, p) && Acceptable(input, p);
    }
    if p :| Free(a, environment, p) && Acceptable(input, p) { assert p in free; }
  }

  /** The update names the listener and its current version. */
  ghost predicate NamesListener(a: Assignments, environment: string, id: Id, expected: int) {
    expected >= 1 && id in a.listeners && a.listeners[id].environment == environment && a.listeners[id].rowVersion == expected
  }

  /** One listener and the one port that is its own change together. */
  ghost predicate ListenerChanged(a: Assignments, b: Assignments, id: Id, status: ListenerStatus) {
    && id in a.listeners
    && var row := a.listeners[id];
    && b.listeners == a.listeners[id := row.(status := status, rowVersion := row.rowVersion + 1)]
    && (row.environment, row.port) in b.ports
    && b.ports == a.ports[(row.environment, row.port) := PortRow(b.ports[(row.environment, row.port)].status, Some(id))]
    && match status
       case Reserved => b.ports[(row.environment, row.port)].status == PortStatus.Reserved
       case Active => b.ports[(row.environment, row.port)].status == PortStatus.Active
       case Draining => b.ports[(row.environment, row.port)].status == PortStatus.Draining
       case Disabled => b.ports[(row.environment, row.port)].status == Cooldown
  }

  lemma ListenerUpdateMeans(db: Database, environment: string, id: Id, status: ListenerStatus, expected: int)
    requires Consistent(db.assignments)
    ensures var r := UpdateListener(db, environment, id, status, expected);
      && (r.Ok? <==> NamesListener(db.assignments, environment, id, expected))
      && (r.Err? ==> r.error == if expected < 1 then Invalid else NotFound)
      && (r.Ok? ==> ListenerChanged(db.assignments, r.value.assignments, id, status))
      && (r.Ok? ==> forall next :: UpdateListener(r.value, environment, id, next, expected) == Err(NotFound))
  {
    hide PortOccupied;
    DatabaseNeverObjects(db, environment);
    var r := UpdateListener(db, environment, id, status, expected);
    if r.Ok? {
      var a, b := db.assignments, r.value.assignments;
      var slot := (a.listeners[id].environment, a.listeners[id].port);
      assert ListenerConsistent(a, id);
      forall s | s in a.ports ensures a.ports[s].listener == Some(id) <==> s == slot { assert PortConsistent(a, s); }
      assert b.ports == a.ports[slot := PortRow(PortStatusOf(status), Some(id))];
    }
  }

  // ---------------------------------------------- permissions and consumers

  /** Every consumer is granted what it was. */
  ghost predicate SameGrants(x: Access, y: Access) { forall c :: GrantedNames(y, c) == GrantedNames(x, c) }

  lemma PermissionDeletionMeans(db: Database, environment: string, id: Id)
    requires AccessSound(db.access)
    ensures var r := DeletePermission(db, environment, id);
      && (r.Ok? <==> id in db.access.permissions && !PermissionInUse(db, id) && environment in db.environments)
      && (r.Ok? ==>
        && (forall name :: PermissionExists(r.value.access, name) <==>
            PermissionExists(db.access, name) && name != db.access.permissions[id])
        && SameGrants(db.access, r.value.access))
  {
    var r := DeletePermission(db, environment, id);
    if r.Ok? {
      var x, y := db.access, r.value.access;
      forall name
        ensures PermissionExists(y, name) <==> PermissionExists(x, name) && name != x.permissions[id]
      {
        if p :| p in x.permissions && x.permissions[p] == name && name != x.permissions[id] { assert p in y.permissions; }
      }
      forall c ensures GrantedNames(y, c) == GrantedNames(x, c) { UngrantedMakesNoDifference(x, y, id, c); }
    }
  }

  lemma UngrantedMakesNoDifference(x: Access, y: Access, id: Id, c: Id)
    requires y == x.(permissions := x.permissions - {id}) && forall g | g in x.grants :: g.1 != id
    ensures GrantedNames(y, c) == GrantedNames(x, c)
  {
    var a := map p | p in x.permissions && (c, p) in x.grants :: p;
    var b := map p | p in y.permissions && (c, p) in y.grants :: p;
    forall p | (c, p) in x.grants ensures p != id { assert (c, p).1 == p; }
    assert a == b;
  }

  /** The consumer is granted exactly these names, and every other consumer what it was. */
  ghost predicate GrantedExactly(x: Access, y: Access, consumer: Id, names: seq<string>) {
    && (forall name :: name in GrantedNames(y, consumer) <==> name in names)
    && forall c | c != consumer :: GrantedNames(y, c) == GrantedNames(x, c)
  }

  lemma AssignmentMeans(x: Access, y: Access, g: Settings, consumer: Id, names: seq<string>)
    requires AssignPermissions(y, g, consumer, names).Ok? && y.permissions == x.permissions
    requires forall p :: (consumer, p) !in y.grants
    requires forall c, p | c != consumer :: (c, p) in y.grants <==> (c, p) in x.grants
    ensures GrantedExactly(x, AssignPermissions(y, g, consumer, names).value, consumer, names)
  {
    var z := AssignPermissions(y, g, consumer, names).value;
    forall name ensures name in GrantedNames(z, consumer) <==> name in names {
      GrantedNamesMean(z, consumer, name);
      if name in names {
        assert PermissionExists(y, name);
        var p :| p in y.permissions && y.permissions[p] == name;
        assert (consumer, p) in z.grants;
      }
    }
    forall c | c != consumer ensures GrantedNames(z, c) == GrantedNames(x, c) { OthersGrants(x, z, c); }
  }

  lemma OthersGrants(x: Access, z: Access, c: Id)
    requires z.permissions == x.permissions && forall p :: (c, p) in z.grants <==> (c, p) in x.grants
    ensures GrantedNames(z, c) == GrantedNames(x, c)
  {
    var a := map p | p in x.permissions && (c, p) in x.grants :: p;
    var b := map p | p in z.permissions && (c, p) in z.grants :: p;
    assert a == b;
  }

  lemma ConsumerCreationMeans(
    db: Database, g: Settings, environment: string, id: Id, name: string, permissions: seq<string>, now: nat)
    requires AccessSound(db.access)
    ensures var r := CreateConsumer(db, g, environment, id, name, permissions, now);
      r.Ok? ==> GrantedExactly(db.access, r.value.access, id, permissions)
  {
    hide GrantedExactly, AssignPermissions, UniqueNames, UniquePrefixes;
    var x := db.access;
    var y := x.(consumers := x.consumers[id := ConsumerRow(environment, name, true, 1, now)]);
    if CreateConsumer(db, g, environment, id, name, permissions, now).Ok? {
      forall p ensures (id, p) !in y.grants { assert (id, p).0 == id; }
      AssignmentMeans(x, y, g, id, permissions);
    }
  }

  lemma ConsumerUpdateMeans(
    db: Database, g: Settings, environment: string, id: Id, enabled: bool, permissions: seq<string>, expected: int, now: nat)
    ensures var r := UpdateConsumer(db, g, environment, id, enabled, permissions, expected, now);
      r.Ok? ==> GrantedExactly(db.access, r.value.access, id, permissions)
  {
    hide GrantedExactly, AssignPermissions;
    var x := db.access;
    if UpdateConsumer(db, g, environment, id, enabled, permissions, expected, now).Ok? {
      var row := x.consumers[id].(enabled := enabled, rowVersion := x.consumers[id].rowVersion + 1, updatedAt := now);
      var y := x.(consumers := x.consumers[id := row], grants := GrantsExcept(x.grants, id));
      forall p ensures (id, p) !in y.grants { assert (id, p).0 == id; }
      forall c, p | c != id ensures (c, p) in y.grants <==> (c, p) in x.grants { assert (c, p).0 == c; }
      AssignmentMeans(x, y, g, id, permissions);
    }
  }

  /** No replica reads anything else than before. */
  ghost predicate SameRecords(x: Access, y: Access) {
    forall e, t: nat :: Records(y, e, t) == Records(x, e, t)
  }

  lemma ConsumerDeletionMeans(db: Database, environment: string, id: Id)
    requires AccessSound(db.access)
    ensures var r := DeleteConsumer(db, environment, id);
      && (r.Ok? <==> ConsumerIn(db.access, environment, id) && forall k | k in db.access.keys :: db.access.keys[k].consumer != id)
      && (r.Ok? ==> id !in r.value.access.consumers && GrantedNames(r.value.access, id) == [] && SameRecords(db.access, r.value.access))
  {
    hide Records, UniqueNames, UniquePrefixes;
    var r := DeleteConsumer(db, environment, id);
    if r.Ok? {
      var x, y := db.access, r.value.access;
      KeysHaveConsumers(x);
      forall e, t: nat ensures Records(y, e, t) == Records(x, e, t) {
        KeylessConsumersDoNotShow(x, y, id, e);
        SameViewSameRecords(x, y, e, t);
      }
      NothingGranted(y, id);
    }
  }

  lemma NothingGranted(y: Access, id: Id)
    requires forall g | g in y.grants :: g.0 != id
    ensures GrantedNames(y, id) == []
  {
    forall p ensures (id, p) !in y.grants { assert (id, p).0 == id; }
    assert (map p | p in y.permissions && (id, p) in y.grants :: p) == map[];
  }

  lemma KeylessConsumersDoNotShow(x: Access, y: Access, id: Id, environment: string)
    requires AccessSound(x) && forall k | k in x.keys :: x.keys[k].consumer != id && x.keys[k].consumer in x.consumers
    requires y == x.(consumers := x.consumers - {id}, grants := GrantsExcept(x.grants, id))
    ensures SameView(x, y, environment)
  {
    hide UniqueNames, UniquePrefixes, KeyRowOk;
    forall c | c in x.consumers && c != id ensures SameConsumer(x, y, c) {
      forall p ensures (c, p) in x.grants <==> (c, p) in y.grants { assert (c, p).0 == c; }
      forall p | (c, p) in x.grants ensures p in x.permissions { assert (c, p).1 == p; }
    }
  }

  // ------------------------------------------------------------------ keys

  /** Key id is out of every snapshot at every moment, and any other key in the same ones as before. */
  ghost predicate OutForGood(x: Access, y: Access, id: Id) {
    && (forall e, t: nat :: !InForce(y, e, id, t))
    && forall k, e, t: nat | k != id :: InForce(y, e, k, t) <==> InForce(x, e, k, t)
  }

  lemma RevocationMeans(db: Database, environment: string, id: Id, now: nat)
    ensures var r := RevokeKey(db, environment, id, now);
      && (r.Ok? <==> KeyIn(db.access, environment, id) && db.access.keys[id].revokedAt == None)
      && (r.Err? ==> r == Err(NotFound))
      && (r.Ok? ==> OutForGood(db.access, r.value.access, id) && Unrevoked(r.value.access) == Unrevoked(db.access) - {id})
  {
    var r := RevokeKey(db, environment, id, now);
    if r.Ok? { assert Unrevoked(r.value.access) == Unrevoked(db.access) - {id}; }
  }

  // --------------------------------------------------------- configurations

  /** The same version is active in every environment but one. */
  ghost predicate SameActiveElsewhere(j: Configurations, k: Configurations, environment: string) {
    forall e | e != environment :: ActiveId(k, e) == ActiveId(j, e)
  }

  /** No replica of any environment loads anything else than before. */
  ghost predicate NothingToLoad(db: Database, n: Database, g: Settings) {
    forall e, t: nat :: LoadedSnapshot(n, g, e, t) == LoadedSnapshot(db, g, e, t)
  }

  lemma SameActiveRows(j: Configurations, k: Configurations, e: string)
    requires forall id | id in j.rows && j.rows[id].status == Current :: id in k.rows && k.rows[id] == j.rows[id]
    requires forall id | id in k.rows && k.rows[id].status == Current :: id in j.rows && j.rows[id].status == Current
    ensures ActiveId(k, e) == ActiveId(j, e)
  {
    assert CurrentIds(k, e) == CurrentIds(j, e);
  }

  lemma ReplicasSeeOnlyTheActive(db: Database, n: Database, g: Settings)
    requires n == db.(configurations := n.configurations)
    requires forall id | id in db.configurations.rows && db.configurations.rows[id].status == Current ::
      id in n.configurations.rows && n.configurations.rows[id] == db.configurations.rows[id]
    requires forall id | id in n.configurations.rows && n.configurations.rows[id].status == Current ::
      id in db.configurations.rows && db.configurations.rows[id].status == Current
    ensures NothingToLoad(db, n, g)
  {
    hide Build, Records, ActiveId;
    forall e, t: nat ensures LoadedSnapshot(n, g, e, t) == LoadedSnapshot(db, g, e, t) {
      SameActiveRows(db.configurations, n.configurations, e);
      Configs.ActiveIdIsCurrent(db.configurations, e);
    }
  }

  /** The draft holds exactly the listeners of the environment that are not disabled. */
  ghost predicate HoldsListeners(raw: RawSnapshot, db: Database, environment: string) {
    forall l :: l in raw.listeners <==> ListenerCaptured(db, environment, l)
  }

  ghost predicate NewDraft(db: Database, k: Configurations, environment: string, id: nat) {
    && id !in db.configurations.rows && ConfigurationIn(k, environment, id, Draft)
    && HoldsListeners(k.rows[id].snapshot, db, environment)
  }

  lemma CreationMeans(db: Database, g: Settings, boot: set<nat>, environment: string, actor: string)
    requires Configs.Sound(db.configurations, db.environments, g.requiredApprovals, boot)
    ensures var r, id := CreateConfiguration(db, environment, actor), db.configurations.nextId;
      && (r.Ok? <==> environment in db.environments)
      && (r.Ok? ==> NewDraft(db, r.value.configurations, environment, id) && NothingToLoad(db, r.value, g))
  {
    hide Capture, NothingToLoad;
    var r := CreateConfiguration(db, environment, actor);
    if r.Ok? {
      CaptureSays(db, environment);
      ReplicasSeeOnlyTheActive(db, r.value, g);
    }
  }

  lemma ValidationMeans(db: Database, g: Settings, environment: string, id: nat)
    ensures var r := ValidateConfiguration(db, environment, id);
      && (r.Ok? <==> TablesPublishable(db, environment) && ConfigurationIn(db.configurations, environment, id, Draft))
      && (r.Ok? ==> ConfigurationIn(r.value.configurations, environment, id, Validated) && NothingToLoad(db, r.value, g))
  {
    hide NothingToLoad, TablesPublishable;
    var r := ValidateConfiguration(db, environment, id);
    if r.Ok? { ReplicasSeeOnlyTheActive(db, r.value, g); }
  }

  /** The version awaits approval, and the actor neither wrote nor approved it. */
  ghost predicate MayApprove(k: Configurations, environment: string, id: nat, actor: string) {
    ConfigurationIn(k, environment, id, Validated) && k.rows[id].createdBy != actor && actor !in Approvers(k, id)
  }

  lemma ApprovalMeans(db: Database, g: Settings, environment: string, id: nat, actor: string)
    ensures var r := ApproveConfiguration(db, environment, id, actor);
      && (r.Ok? <==> 1 <= |actor| <= 128 && MayApprove(db.configurations, environment, id, actor))
      && (r.Ok? ==>
        && Approvers(r.value.configurations, id) == Approvers(db.configurations, id) + {actor}
        && |Approvers(r.value.configurations, id)| == |Approvers(db.configurations, id)| + 1
        && (forall v | v != id :: Approvers(r.value.configurations, v) == Approvers(db.configurations, v))
        && NothingToLoad(db, r.value, g))
  {
    hide NothingToLoad;
    var r, k := ApproveConfiguration(db, environment, id, actor), db.configurations;
    assert actor in Approvers(k, id) <==> (id, actor) in k.approvals by {
      if (id, actor) in k.approvals { assert (id, actor).1 in Approvers(k, id); }
    }
    if r.Ok? {
      forall v: nat ensures Approvers(r.value.configurations, v) == Approvers(k, v) + if v == id then {actor} else {} {
        OneMoreApproval(k, r.value.configurations, id, actor, v);
      }
      ReplicasSeeOnlyTheActive(db, r.value, g);
    }
  }

  lemma OneMoreApproval(j: Configurations, k: Configurations, id: nat, actor: string, v: nat)
    requires k.approvals == j.approvals + {(id, actor)}
    ensures Approvers(k, v) == Approvers(j, v) + if v == id then {actor} else {}
  {
    if v == id { assert (id, actor) in k.approvals && (id, actor).1 in Approvers(k, v); }
    forall a | a in Approvers(j, v) ensures a in Approvers(k, v) {
      assert (v, a) in k.approvals && (v, a).1 in Approvers(k, v);
    }
    forall a | a in Approvers(k, v) ensures a in Approvers(j, v) || (v == id && a == actor) {
      assert (v, a) in k.approvals;
      if (v, a) in j.approvals { assert (v, a).1 in Approvers(j, v); }
    }
  }

  lemma InstalledIsActive(k: Configurations, environments: set<string>, required: int, boot: set<nat>, environment: string, id: nat)
    requires Configs.Sound(k, environments, required, boot) && environment in environments && Configs.IsCurrent(k, environment, id)
    ensures ActiveId(k, environment) == Some(id)
  {
    Configs.ActiveIdIsTheCurrentOne(k, environment, id);
  }

  lemma InstallingLeavesOthers(j: Configurations, k: Configurations, environment: string, id: nat, e: string)
    requires e != environment && id in k.rows && k.rows == Supersede(j.rows, environment)[id := k.rows[id]]
    requires k.rows[id].environment == environment && (id in j.rows ==> j.rows[id].environment == environment)
    ensures ActiveId(k, e) == ActiveId(j, e)
  {
    assert CurrentIds(k, e) == CurrentIds(j, e);
  }

  /** The version awaits activation with its approvals, and the one expected to be active is. */
  ghost predicate MayActivate(db: Database, required: int, environment: string, id: nat, expectedActive: Option<nat>) {
    && environment in db.environments
    && (expectedActive.Some? ==> WasInForce(db, environment, expectedActive.value))
    && id in db.configurations.rows && db.configurations.rows[id].environment == environment
    && db.configurations.rows[id].status == Validated
    && (required > 0 ==> |Approvers(db.configurations, id)| >= required)
  }

  lemma ActivationMeans(db: Database, g: Settings, boot: set<nat>, environment: string, id: nat, expectedActive: Option<nat>)
    requires Configs.Sound(db.configurations, db.environments, g.requiredApprovals, boot)
    ensures ActivateConfiguration(db, g, environment, id, expectedActive).Ok?
      <==> MayActivate(db, g.requiredApprovals, environment, id, expectedActive)
    ensures var r := ActivateConfiguration(db, g, environment, id, expectedActive);
      r.Ok? ==>
        && ActiveId(r.value.configurations, environment) == Some(id)
        && SameActiveElsewhere(db.configurations, r.value.configurations, environment)
        && Configs.Reviewed(db.configurations, g.requiredApprovals, id)
  {
    hide Configs.Sound, ActiveId, GoLive;
    ActiveIsInForce(db, g, boot, environment, expectedActive);
    var r, j := ActivateConfiguration(db, g, environment, id, expectedActive), db.configurations;
    if r.Ok? {
      Configs.ActivationKeeps(db, g, environment, id, expectedActive, boot);
      InstalledIsActive(r.value.configurations, db.environments, g.requiredApprovals, boot, environment, id);
      forall e | e != environment ensures ActiveId(r.value.configurations, e) == ActiveId(j, e) {
        InstallingLeavesOthers(j, r.value.configurations, environment, id, e);
      }
      AuthorsDoNotApprove(j, db.environments, g.requiredApprovals, boot, id);
    }
  }

  lemma ActiveIsInForce(db: Database, g: Settings, boot: set<nat>, environment: string, expected: Option<nat>)
    requires Configs.Sound(db.configurations, db.environments, g.requiredApprovals, boot)
    ensures environment in db.environments && expected.Some? ==>
      (ActiveId(db.configurations, environment) == expected <==> WasInForce(db, environment, expected.value))
  {
    hide ActiveId, Configs.Provenance;
    Configs.ActiveIdIsCurrent(db.configurations, environment);
    if environment in db.environments && expected.Some? && WasInForce(db, environment, expected.value) {
      Configs.ActiveIdIsTheCurrentOne(db.configurations, environment, expected.value);
    }
  }

  lemma AuthorsDoNotApprove(j: Configurations, environments: set<string>, required: int, boot: set<nat>, id: nat)
    requires Configs.Sound(j, environments, required, boot) && id in j.rows
    ensures j.rows[id].createdBy !in Approvers(j, id)
  {
    forall a | a in Approvers(j, id) ensures a != j.rows[id].createdBy { assert (id, a) in j.approvals; }
  }

  /** The version is or was the active one of the environment. */
  ghost predicate MayReturnTo(db: Database, environment: string, source: nat) {
    && environment in db.environments && source in db.configurations.rows
    && db.configurations.rows[source].environment == environment
    && (db.configurations.rows[source].status == Current || db.configurations.rows[source].status == Superseded)
  }

  lemma RollbackMeans(db: Database, g: Settings, boot: set<nat>, environment: string, source: nat, actor: string)
    requires Configs.Sound(db.configurations, db.environments, g.requiredApprovals, boot)
    ensures RollbackConfiguration(db, environment, source, actor).Ok? <==> MayReturnTo(db, environment, source)
    ensures var r := RollbackConfiguration(db, environment, source, actor);
      r.Ok? ==>
        && var id := db.configurations.nextId;
        && ActiveId(r.value.configurations, environment) == Some(id) && id in r.value.configurations.rows
        && source in db.configurations.rows
        && r.value.configurations.rows[id].snapshot == db.configurations.rows[source].snapshot
        && SameActiveElsewhere(db.configurations, r.value.configurations, environment)
  {
    hide ActiveId, Configs.OneCurrentEach, Configs.Provenance;
    var r, j := RollbackConfiguration(db, environment, source, actor), db.configurations;
    if r.Ok? {
      Configs.RollbackKeeps(db, environment, source, actor, g.requiredApprovals, boot);
      InstalledIsActive(r.value.configurations, db.environments, g.requiredApprovals, boot, environment, j.nextId);
      forall e | e != environment ensures ActiveId(r.value.configurations, e) == ActiveId(j, e) {
        InstallingLeavesOthers(j, r.value.configurations, environment, j.nextId, e);
      }
    }
  }
}
