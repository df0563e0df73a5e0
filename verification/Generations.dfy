/** The two numbers a replica compares before it reloads, and why equal numbers
    mean that nothing it serves has changed. */
module Generations {
  import opened Prelude
  import opened Tables
  import opened SnapshotCompiler
  import opened SnapshotMeaning
  import opened ControlPlane
  import opened Frames
  import opened TableRules
  import opened Loading
  import opened Authentication
  import ConfigurationLifecycle

  function ConsumerStamps(x: Access, environment: string): set<nat> {
    set c | c in x.consumers && ConsumerIn(x, environment, c) :: x.consumers[c].updatedAt
  }

  function CreationStamps(x: Access, environment: string): set<nat> {
    set k | k in x.keys && KeyIn(x, environment, k) :: x.keys[k].createdAt
  }

  function RevocationStamps(x: Access, environment: string): set<nat> {
    set k | k in x.keys && KeyIn(x, environment, k) && x.keys[k].revokedAt.Some? :: x.keys[k].revokedAt.value
  }

  /** Every timestamp credentialGenerationQuery looks at. */
  function Stamps(x: Access, environment: string): set<nat> {
    ConsumerStamps(x, environment) + CreationStamps(x, environment) + RevocationStamps(x, environment)
  }

  function Greatest(s: set<nat>): (m: nat)
    requires s != {}
    ensures m in s && forall n | n in s :: n <= m
  {
    var less := (m: nat, n: nat) => n < m;
    LeastExists(less, s);
    var m :| m in s && forall n | n in s :: n == m || less(m, n);
    m
  }

  /** GREATEST of the three MAXes, 0 when a table is empty. */
  function Generation(x: Access, environment: string): (m: nat)
    ensures m == 0 || m in Stamps(x, environment)
    ensures forall t | t in Stamps(x, environment) :: t <= m
  {
    if Stamps(x, environment) == {} then 0 else Greatest(Stamps(x, environment))
  }

  /** t is the time of the last change of a consumer of the environment, or of an issue or revocation of a key of one. */
  ghost predicate IsStamp(x: Access, environment: string, t: nat) {
    || (exists c :: c in x.consumers && x.consumers[c].environment == environment && x.consumers[c].updatedAt == t)
    || (exists k :: OwnedIn(x, environment, k) && x.keys[k].createdAt == t)
    || (exists k :: OwnedIn(x, environment, k) && x.keys[k].revokedAt == Some(t))
  }

  ghost predicate OwnedIn(x: Access, environment: string, k: Id) {
    && k in x.keys && x.keys[k].consumer in x.consumers
    && x.consumers[x.keys[k].consumer].environment == environment
  }

  lemma StampsAre(x: Access, environment: string, t: nat)
    ensures t in Stamps(x, environment) <==> IsStamp(x, environment, t)
  {
    if c :| c in x.consumers && x.consumers[c].environment == environment && x.consumers[c].updatedAt == t {
      assert ConsumerIn(x, environment, c);
    }
    if k :| OwnedIn(x, environment, k) && (x.keys[k].createdAt == t || x.keys[k].revokedAt == Some(t)) {
      assert KeyIn(x, environment, k);
    }
    if k :| k in x.keys && KeyIn(x, environment, k) && (x.keys[k].createdAt == t || x.keys[k].revokedAt == Some(t)) {
      assert OwnedIn(x, environment, k);
    }
  }

  /** The generation is the greatest such time of the environment, and zero when there is none. */
  lemma GenerationIsTheGreatestStamp(x: Access, environment: string)
    ensures forall t: nat | IsStamp(x, environment, t) :: t <= Generation(x, environment)
    ensures IsStamp(x, environment, Generation(x, environment)) || Generation(x, environment) == 0
  {
    hide IsStamp, Stamps;
    forall t: nat ensures t in Stamps(x, environment) <==> IsStamp(x, environment, t) { StampsAre(x, environment, t); }
  }

  // ---------------------------------------------------- stamps and commits

  ghost predicate Commits(history: seq<Database>, g: Settings, requests: seq<Request>, i: nat)
    requires |history| == |requests| + 1 && i < |requests|
  {
    Apply(history[i], g, requests[i].environment, requests[i].op, requests[i].now).Ok?
  }

  /** NOW() of committed transactions is positive and strictly increases in commit order. */
  ghost predicate StampsIncrease(history: seq<Database>, g: Settings, requests: seq<Request>)
    requires |history| == |requests| + 1
  {
    && (forall i | 0 <= i < |requests| && Commits(history, g, requests, i) :: requests[i].now > 0)
    && (forall i, j | 0 <= i < j < |requests| && Commits(history, g, requests, i) && Commits(history, g, requests, j) ::
        requests[i].now < requests[j].now)
  }

  /** Every stamp in the tables, of any environment, is below t. */
  ghost predicate StampedBefore(x: Access, t: nat) {
    && (forall c | c in x.consumers :: x.consumers[c].updatedAt < t)
    && (forall k | k in x.keys :: x.keys[k].createdAt < t && (x.keys[k].revokedAt.Some? ==> x.keys[k].revokedAt.value < t))
  }

  lemma RequestStampsItsTime(db: Database, g: Settings, r: Request, t: nat)
    requires StampedBefore(db.access, t) && r.now < t
    ensures StampedBefore(Next(db, g, r).access, t)
  {
    hide Next, StampedBefore;
    EveryRequestHasAKind(r.op);
    if CatalogRequest(r.op) { CatalogFrame(db, g, r); }
    else if AssignmentRequest(r.op) { AssignmentFrame(db, g, r); }
    else if ConfigurationRequest(r.op) { ConfigurationFrame(db, g, r); }
    else if r.op.DoIssueKey? || r.op.DoRotateKey? || r.op.DoRevokeKey? { KeyRequestStampsItsTime(db, g, r, t); }
    else { ConsumerRequestStampsItsTime(db, g, r, t); }
  }

  lemma KeyRequestStampsItsTime(db: Database, g: Settings, r: Request, t: nat)
    requires r.op.DoIssueKey? || r.op.DoRotateKey? || r.op.DoRevokeKey?
    requires StampedBefore(db.access, t) && r.now < t
    ensures StampedBefore(Next(db, g, r).access, t)
  {
    hide PrefixTaken, PermissionExists, RawKey;
  }

  lemma ConsumerRequestStampsItsTime(db: Database, g: Settings, r: Request, t: nat)
    requires AccessRequest(r.op) && !r.op.DoIssueKey? && !r.op.DoRotateKey? && !r.op.DoRevokeKey?
    requires StampedBefore(db.access, t) && r.now < t
    ensures StampedBefore(Next(db, g, r).access, t)
  {
    hide PermissionExists, PermissionInUse, GrantsExcept;
  }

  lemma {:induction false} StampsArePast(history: seq<Database>, g: Settings, requests: seq<Request>, n: nat, j: nat)
    requires IsRun(history, g, requests) && StampsIncrease(history, g, requests)
    requires n <= j < |requests| && Commits(history, g, requests, j)
    ensures StampedBefore(history[n].access, requests[j].now)
  {
    hide StepsAt, Next, Apply, StampedBefore;
    if n == 0 {
      NoStampsAtFirst(history[0], requests[j].now);
    } else {
      RunStep(history, g, requests, n);
      StampsArePast(history, g, requests, n - 1, j);
      if Commits(history, g, requests, n - 1) {
        RequestStampsItsTime(history[n - 1], g, requests[n - 1], requests[j].now);
      } else {
        FailuresChangeNothing(history[n - 1], g, requests[n - 1]);
      }
    }
  }

  lemma NoStampsAtFirst(db: Database, t: nat)
    requires FreshSchema(db)
    ensures StampedBefore(db.access, t)
  {
  }

  lemma FailuresChangeNothing(db: Database, g: Settings, r: Request)
    requires Apply(db, g, r.environment, r.op, r.now).Err?
    ensures Next(db, g, r) == db
  {
  }

  // ------------------------------------------------------- quiet consumers

  /** Nothing about consumer c carries a stamp above m. */
  ghost predicate Quiet(y: Access, c: Id, m: nat)
    requires c in y.consumers
  {
    && y.consumers[c].updatedAt <= m
    && forall k | k in y.keys && y.keys[k].consumer == c ::
        y.keys[k].createdAt <= m && (y.keys[k].revokedAt.Some? ==> y.keys[k].revokedAt.value <= m)
  }

  ghost predicate HasKey(y: Access, c: Id) { exists k :: k in y.keys && y.keys[k].consumer == c }

  /** Consumer c looks the same in both states: row, keys, grants and their names. */
  ghost predicate SameConsumer(x: Access, y: Access, c: Id) {
    && c in x.consumers && c in y.consumers
    && x.consumers[c] == y.consumers[c]
    && (forall k :: (k in x.keys && x.keys[k].consumer == c) <==> (k in y.keys && y.keys[k].consumer == c))
    && (forall k | k in x.keys && x.keys[k].consumer == c :: y.keys[k] == x.keys[k])
    && (forall p :: (c, p) in x.grants <==> (c, p) in y.grants)
    && (forall p | (c, p) in x.grants :: p in x.permissions && p in y.permissions && x.permissions[p] == y.permissions[p])
  }

  /** Since state x, every consumer that owns a key is either untouched or stamped above m; keys stay where they were. */
  ghost predicate Tracked(x: Access, y: Access, m: nat) {
    && (forall c | c in y.consumers && HasKey(y, c) && Quiet(y, c, m) :: SameConsumer(x, y, c))
    && (forall k | k in x.keys :: StaysPut(x, y, k))
  }

  /** Key k keeps its consumer, and that consumer its environment. */
  ghost predicate StaysPut(x: Access, y: Access, k: Id)
    requires k in x.keys
  {
    var c := x.keys[k].consumer;
    && k in y.keys && y.keys[k].consumer == c && c in x.consumers && c in y.consumers
    && x.consumers[c].environment == y.consumers[c].environment
  }

  lemma TrackedAtFirst(x: Access, m: nat)
    requires AccessSound(x)
    ensures Tracked(x, x, m)
  {
    forall k | k in x.keys ensures x.keys[k].consumer in x.consumers { assert KeyRowOk(x, x.keys[k]); }
  }

  /** The consumer a request stamps, or none. */
  ghost predicate Touches(db: Database, r: Request, c: Id) {
    match r.op
    case DoCreateConsumer(id, _, _) => id == c
    case DoUpdateConsumer(id, _, _, _) => id == c
    case DoDeleteConsumer(id) => id == c
    case DoIssueKey(_, consumer, _, _, _, _) => consumer == c
    case DoRotateKey(id, _, _) => id in db.access.keys && db.access.keys[id].consumer == c
    case DoRevokeKey(id) => id in db.access.keys && db.access.keys[id].consumer == c
    case _ => false
  }

  lemma AssigningTouchesOne(x: Access, g: Settings, consumer: Id, names: seq<string>, c: Id, p: Id)
    requires AssignPermissions(x, g, consumer, names).Ok? && c != consumer
    ensures (c, p) in AssignPermissions(x, g, consumer, names).value.grants <==> (c, p) in x.grants
  {
  }

  lemma UntouchedByConsumerRequests(db: Database, g: Settings, r: Request, c: Id)
    requires AccessSound(db.access) && c in db.access.consumers && !Touches(db, r, c)
    requires r.op.DoCreateConsumer? || r.op.DoUpdateConsumer? || r.op.DoDeleteConsumer?
    ensures SameConsumer(db.access, Next(db, g, r).access, c)
  {
    hide UniqueNames, UniquePrefixes, KeyRowOk;
    var x, y := db.access, Next(db, g, r).access;
    forall p ensures (c, p) in x.grants <==> (c, p) in y.grants {}
  }

  lemma UntouchedByIssuing(db: Database, g: Settings, r: Request, c: Id)
    requires c in db.access.consumers && r.op.DoIssueKey? && r.op.consumer != c
    requires AccessSound(db.access)
    ensures SameConsumer(db.access, Next(db, g, r).access, c)
  {
    hide UniqueNames, UniquePrefixes, KeyRowOk, PrefixTaken, AssignPermissions;
    var granted := AssignPermissions(db.access, g, r.op.consumer, r.op.permissions);
    if granted.Ok? { AssigningIsLocal(db.access, g, r.op.consumer, r.op.permissions, c); }
  }

  lemma AssigningIsLocal(x: Access, g: Settings, consumer: Id, names: seq<string>, c: Id)
    requires AssignPermissions(x, g, consumer, names).Ok? && c != consumer
    ensures var y := AssignPermissions(x, g, consumer, names).value;
      && y == x.(grants := y.grants) && forall p :: (c, p) in y.grants <==> (c, p) in x.grants
  {
    forall p { AssigningTouchesOne(x, g, consumer, names, c, p); }
  }

  lemma UntouchedByReplacing(db: Database, g: Settings, r: Request, c: Id)
    requires AccessSound(db.access) && c in db.access.consumers && !Touches(db, r, c)
    requires r.op.DoRotateKey? || r.op.DoRevokeKey?
    ensures SameConsumer(db.access, Next(db, g, r).access, c)
  {
    hide UniqueNames, UniquePrefixes, KeyRowOk, PrefixTaken;
  }

  lemma UntouchedByPermissionRequests(db: Database, g: Settings, r: Request, c: Id)
    requires AccessSound(db.access) && c in db.access.consumers && (r.op.DoCreatePermission? || r.op.DoDeletePermission?)
    ensures SameConsumer(db.access, Next(db, g, r).access, c)
  {
    hide UniqueNames, UniquePrefixes, KeyRowOk;
  }

  lemma SameConsumerInOneState(x: Access, c: Id)
    requires AccessSound(x) && c in x.consumers
    ensures SameConsumer(x, x, c)
  {
  }

  lemma UntouchedConsumersStay(db: Database, g: Settings, r: Request, c: Id)
    requires AccessSound(db.access) && c in db.access.consumers && !Touches(db, r, c)
    ensures SameConsumer(db.access, Next(db, g, r).access, c)
  {
    hide Next, SameConsumer;
    SameConsumerInOneState(db.access, c);
    EveryRequestHasAKind(r.op);
    if r.op.DoCreateConsumer? || r.op.DoUpdateConsumer? || r.op.DoDeleteConsumer? { UntouchedByConsumerRequests(db, g, r, c); }
    else if r.op.DoIssueKey? { UntouchedByIssuing(db, g, r, c); }
    else if r.op.DoRotateKey? || r.op.DoRevokeKey? { UntouchedByReplacing(db, g, r, c); }
    else if r.op.DoCreatePermission? || r.op.DoDeletePermission? { UntouchedByPermissionRequests(db, g, r, c); }
    else if CatalogRequest(r.op) { CatalogFrame(db, g, r); }
    else if AssignmentRequest(r.op) { AssignmentFrame(db, g, r); }
    else if ConfigurationRequest(r.op) { ConfigurationFrame(db, g, r); }
  }

  lemma TouchedConsumersAreLoud(db: Database, g: Settings, r: Request, c: Id, m: nat)
    requires Apply(db, g, r.environment, r.op, r.now).Ok? && Touches(db, r, c) && r.now > m
    ensures var y := Next(db, g, r).access; c in y.consumers ==> !Quiet(y, c, m)
  {
    var y := Next(db, g, r).access;
    if r.op.DoIssueKey? { assert y.keys[r.op.id].consumer == c; }
    if r.op.DoRotateKey? { assert y.keys[r.op.id].consumer == c && y.keys[r.op.id].revokedAt == Some(r.now); }
    if r.op.DoRevokeKey? { assert y.keys[r.op.id].consumer == c && y.keys[r.op.id].revokedAt == Some(r.now); }
  }

  lemma KeysStayPut(db: Database, g: Settings, r: Request, k: Id)
    requires AccessSound(db.access) && k in db.access.keys
    ensures StaysPut(db.access, Next(db, g, r).access, k)
  {
    hide UpdatePortStatus, AllocateListener, Capture, UpdateService, CreateUpstream, UpdateUpstream, UniqueNames, UniquePrefixes;
    assert KeyRowOk(db.access, db.access.keys[k]);
    EveryRequestHasAKind(r.op);
    if CatalogRequest(r.op) { CatalogFrame(db, g, r); }
    else if AssignmentRequest(r.op) { AssignmentFrame(db, g, r); }
    else if ConfigurationRequest(r.op) { ConfigurationFrame(db, g, r); }
  }

  lemma SameConsumerChains(x: Access, y: Access, z: Access, c: Id)
    requires SameConsumer(x, y, c) && SameConsumer(y, z, c)
    ensures SameConsumer(x, z, c)
  {
  }

  lemma TrackedConsumer(x: Access, db: Database, g: Settings, r: Request, m: nat, c: Id)
    requires Tracked(x, db.access, m) && AccessSound(db.access)
    requires Apply(db, g, r.environment, r.op, r.now).Ok? && r.now > m
    requires var z := Next(db, g, r).access; c in z.consumers && HasKey(z, c) && Quiet(z, c, m)
    ensures SameConsumer(x, Next(db, g, r).access, c)
  {
    var y, z := db.access, Next(db, g, r).access;
    if Touches(db, r, c) {
      TouchedConsumersAreLoud(db, g, r, c, m);
    } else {
      ConsumersAppearLoudly(db, g, r, c);
      UntouchedConsumersStay(db, g, r, c);
      var k :| k in z.keys && z.keys[k].consumer == c;
      assert k in y.keys && y.keys[k].consumer == c;
      SameConsumerChains(x, y, z, c);
    }
  }

  lemma ConsumersAppearLoudly(db: Database, g: Settings, r: Request, c: Id)
    requires c in Next(db, g, r).access.consumers && !Touches(db, r, c)
    ensures c in db.access.consumers
  {
    EveryRequestHasAKind(r.op);
    if CatalogRequest(r.op) { CatalogFrame(db, g, r); }
    else if AssignmentRequest(r.op) { AssignmentFrame(db, g, r); }
    else if ConfigurationRequest(r.op) { ConfigurationFrame(db, g, r); }
  }

  lemma TrackingContinues(x: Access, db: Database, g: Settings, r: Request, m: nat)
    requires Tracked(x, db.access, m) && AccessSound(db.access)
    requires Apply(db, g, r.environment, r.op, r.now).Ok? ==> r.now > m
    ensures Tracked(x, Next(db, g, r).access, m)
  {
    if Apply(db, g, r.environment, r.op, r.now).Ok? {
      var y, z := db.access, Next(db, g, r).access;
      forall c | c in z.consumers && HasKey(z, c) && Quiet(z, c, m) ensures SameConsumer(x, z, c) {
        TrackedConsumer(x, db, g, r, m, c);
      }
      forall k | k in x.keys ensures StaysPut(x, z, k) {
        assert StaysPut(x, y, k);
        KeysStayPut(db, g, r, k);
      }
    }
  }

  lemma ExceedingIsLocal(history: seq<Database>, g: Settings, requests: seq<Request>, i: nat, j: nat, m: nat)
    requires |history| == |requests| + 1 && i < j <= |requests| && CommitsExceed(history, g, requests, i, j, m)
    ensures CommitsExceed(history, g, requests, i, j - 1, m)
    ensures var r := requests[j - 1]; Apply(history[j - 1], g, r.environment, r.op, r.now).Ok? ==> r.now > m
  {
    hide Apply;
    assert Commits(history, g, requests, j - 1) ==> requests[j - 1].now > m;
  }

  lemma AccessAlwaysSound(history: seq<Database>, g: Settings, requests: seq<Request>, n: nat)
    requires Sane(g) && IsRun(history, g, requests) && n < |history|
    ensures AccessSound(history[n].access)
  {
    hide IsRun, Sane, AccessSound, CatalogSound, ListenersSound;
    AlwaysRowsSound(history, g, requests, n);
  }

  lemma {:induction false} TrackedOverRuns(
    history: seq<Database>, g: Settings, requests: seq<Request>, i: nat, j: nat, m: nat)
    requires Sane(g) && IsRun(history, g, requests) && i <= j < |history|
    requires CommitsExceed(history, g, requests, i, j, m)
    ensures Tracked(history[i].access, history[j].access, m)
  {
    hide *;
    RunStarts(history, g, requests);
    AccessAlwaysSound(history, g, requests, i);
    if i == j {
      TrackedAtFirst(history[i].access, m);
    } else {
      RunStep(history, g, requests, j);
      ExceedingIsLocal(history, g, requests, i, j, m);
      TrackedOverRuns(history, g, requests, i, j - 1, m);
      AccessAlwaysSound(history, g, requests, j - 1);
      TrackingContinues(history[i].access, history[j - 1], g, requests[j - 1], m);
    }
  }

  /** Every request committed between the two states is stamped above m. */
  ghost predicate CommitsExceed(history: seq<Database>, g: Settings, requests: seq<Request>, i: nat, j: nat, m: nat)
    requires |history| == |requests| + 1 && i <= j <= |requests|
  {
    forall l | i <= l < j && Commits(history, g, requests, l) :: requests[l].now > m
  }

  /** Stamps that increase in commit order are enough for that, from any state on. */
  lemma IncreasingStampsExceed(
    history: seq<Database>, g: Settings, requests: seq<Request>, i: nat, j: nat, environment: string)
    requires IsRun(history, g, requests) && StampsIncrease(history, g, requests) && i <= j < |history|
    ensures CommitsExceed(history, g, requests, i, j, Generation(history[i].access, environment))
  {
    forall l | i <= l < j && Commits(history, g, requests, l) ensures requests[l].now > Generation(history[i].access, environment) {
      LaterCommitsExceedTheGeneration(history, g, requests, i, l, environment);
    }
  }

  lemma LaterCommitsExceedTheGeneration(
    history: seq<Database>, g: Settings, requests: seq<Request>, i: nat, l: nat, environment: string)
    requires IsRun(history, g, requests) && StampsIncrease(history, g, requests)
    requires i <= l < |requests| && Commits(history, g, requests, l)
    ensures requests[l].now > Generation(history[i].access, environment)
  {
    StampsArePast(history, g, requests, i, l);
  }

  // ----------------------------------------------------------- main theorems

  lemma EqualGenerationMeansQuiet(y: Access, environment: string, c: Id, m: nat)
    requires Generation(y, environment) == m && ConsumerIn(y, environment, c)
    ensures Quiet(y, c, m)
  {
    assert y.consumers[c].updatedAt in Stamps(y, environment);
    forall k | k in y.keys && y.keys[k].consumer == c
      ensures y.keys[k].createdAt <= m && (y.keys[k].revokedAt.Some? ==> y.keys[k].revokedAt.value <= m)
    {
      assert KeyIn(y, environment, k);
      assert y.keys[k].createdAt in Stamps(y, environment);
      if y.keys[k].revokedAt.Some? { assert y.keys[k].revokedAt.value in Stamps(y, environment); }
    }
  }

  /** The owner of a key of this environment is unchanged when the generations agree. */
  lemma OwnersUnchanged(x: Access, y: Access, environment: string, k: Id)
    requires AccessSound(y) && Tracked(x, y, Generation(x, environment))
    requires Generation(x, environment) == Generation(y, environment)
    requires KeyIn(x, environment, k) || KeyIn(y, environment, k)
    ensures KeyIn(x, environment, k) && KeyIn(y, environment, k) && x.keys[k] == y.keys[k]
    ensures SameConsumer(x, y, x.keys[k].consumer)
  {
    var c := if KeyIn(y, environment, k) then y.keys[k].consumer else x.keys[k].consumer;
    assert k in y.keys && y.keys[k].consumer == c && ConsumerIn(y, environment, c);
    assert HasKey(y, c);
    EqualGenerationMeansQuiet(y, environment, c, Generation(x, environment));
  }

  lemma SameNames(x: Access, y: Access, c: Id)
    requires SameConsumer(x, y, c)
    ensures GrantedNames(x, c) == GrantedNames(y, c)
  {
    var a := map p | p in x.permissions && (c, p) in x.grants :: p;
    var b := map p | p in y.permissions && (c, p) in y.grants :: p;
    assert a == b;
  }

  /** x and y agree on everything Load reads for this environment. */
  ghost predicate SameView(x: Access, y: Access, environment: string) {
    forall k | KeyIn(x, environment, k) || KeyIn(y, environment, k) ::
      && KeyIn(x, environment, k) && KeyIn(y, environment, k) && x.keys[k] == y.keys[k]
      && SameConsumer(x, y, x.keys[k].consumer)
  }

  lemma EqualGenerationMeansSameView(x: Access, y: Access, environment: string)
    requires AccessSound(y) && Tracked(x, y, Generation(x, environment))
    requires Generation(x, environment) == Generation(y, environment)
    ensures SameView(x, y, environment)
  {
    forall k | KeyIn(x, environment, k) || KeyIn(y, environment, k)
      ensures KeyIn(x, environment, k) && KeyIn(y, environment, k) && x.keys[k] == y.keys[k]
      ensures SameConsumer(x, y, x.keys[k].consumer)
    {
      OwnersUnchanged(x, y, environment, k);
    }
  }

  lemma SameSelection(x: Access, y: Access, environment: string, now: nat)
    requires SameView(x, y, environment)
    ensures SelectedIds(x, environment, now) == SelectedIds(y, environment, now)
  {
    var a := map k | k in x.keys && Selected(x, environment, now, k) :: k;
    var b := map k | k in y.keys && Selected(y, environment, now, k) :: k;
    forall k ensures k in a <==> k in b {
      assert Selected(x, environment, now, k) <==> Selected(y, environment, now, k);
    }
    assert a == b;
  }

  lemma SameViewSameRecords(x: Access, y: Access, environment: string, now: nat)
    requires SameView(x, y, environment)
    ensures Records(x, environment, now) == Records(y, environment, now)
  {
    hide GrantedNames, SameConsumer;
    SameSelection(x, y, environment, now);
    var ids := SelectedIds(x, environment, now);
    forall i | 0 <= i < |ids| ensures ids[i] in x.keys && ids[i] in y.keys && RecordOf(x, ids[i]) == RecordOf(y, ids[i]) {
      assert ids[i] in ids;
      SameNames(x, y, x.keys[ids[i]].consumer);
    }
  }

  /** Equal generations mean equal credential records, whatever the consumers without keys went through, as long as what
      was committed in between is stamped above the first generation. */
  lemma EqualGenerationsMeanEqualRecords(
    history: seq<Database>, g: Settings, requests: seq<Request>, i: nat, j: nat, environment: string, now: nat)
    requires Sane(g) && IsRun(history, g, requests) && i <= j < |history|
    requires CommitsExceed(history, g, requests, i, j, Generation(history[i].access, environment))
    requires Generation(history[i].access, environment) == Generation(history[j].access, environment)
    ensures Records(history[i].access, environment, now) == Records(history[j].access, environment, now)
  {
    hide IsRun, CommitsExceed, Generation, Records, SameView, Tracked, Sane;
    var m := Generation(history[i].access, environment);
    TrackedOverRuns(history, g, requests, i, j, m);
    AccessAlwaysSound(history, g, requests, j);
    EqualGenerationMeansSameView(history[i].access, history[j].access, environment);
    SameViewSameRecords(history[i].access, history[j].access, environment, now);
  }

  /** Skipping a refresh is sound: when the active id and the credential generation of two states of one run agree, and
      what was committed in between is stamped above that generation, the two states give every replica the same snapshot
      at every moment. */
  lemma EqualGenerationsMeanEqualSnapshots(
    history: seq<Database>, g: Settings, requests: seq<Request>, i: nat, j: nat, environment: string, now: nat)
    requires Sane(g) && IsRun(history, g, requests) && i <= j < |history|
    requires CommitsExceed(history, g, requests, i, j, Generation(history[i].access, environment))
    requires ActiveId(history[i].configurations, environment) == ActiveId(history[j].configurations, environment)
    requires Generation(history[i].access, environment) == Generation(history[j].access, environment)
    ensures LoadedSnapshot(history[i], g, environment, now) == LoadedSnapshot(history[j], g, environment, now)
  {
    hide IsRun, CommitsExceed, Build, Records, Generation, ActiveId;
    EqualGenerationsMeanEqualRecords(history, g, requests, i, j, environment, now);
    ConfigurationLifecycle.AlwaysForward(history, g, requests, i, j);
    ActiveIdsExist(history[i].configurations, environment);
  }

  lemma ActiveIdsExist(k: Configurations, environment: string)
    ensures ActiveId(k, environment).Some? ==> ActiveId(k, environment).value in k.rows
  {
  }

  lemma RecordsSurvive(x: Access, environment: string, first: nat, second: nat, r: CredentialRecord, now: nat)
    requires r in Records(x, environment, first) && Unexpired(r.expiresAt, now) && second <= now
    ensures r in Records(x, environment, second)
  {
    RecordsAreSelectedKeys(x, environment, first, r);
    RecordsAreSelectedKeys(x, environment, second, r);
  }

  lemma AcceptedByBoth(
    s: Snapshot, t: Snapshot, rs: seq<CredentialRecord>, rt: seq<CredentialRecord>, g: Settings, raw: string, now: nat)
    requires HoldsExactly(s.credentials, rs) && HoldsExactly(t.credentials, rt)
    requires forall r | r in rs && Unexpired(r.expiresAt, now) :: r in rt
    ensures Authenticate(s, g, raw, now).Some? ==> Authenticate(t, g, raw, now) == Authenticate(s, g, raw, now)
  {
    hide HoldsExactly;
    HeldCredentials(s.credentials, rs);
    HeldCredentials(t.credentials, rt);
    if Authenticate(s, g, raw, now).Some? {
      var r :| r in rs && r.prefix == KeyPrefix(raw).value;
      assert s.credentials[r.prefix] == CredentialValue(r);
    }
  }

  /** The credentials of two loads of the same tables decide alike: expiry is checked again on every request. */
  lemma LoadTimeDoesNotMatter(
    x: Access, g: Settings, environment: string, s: Snapshot, t: Snapshot, first: nat, second: nat, raw: string, now: nat)
    requires first <= now && second <= now
    requires HoldsExactly(s.credentials, Records(x, environment, first))
    requires HoldsExactly(t.credentials, Records(x, environment, second))
    ensures Authenticate(s, g, raw, now) == Authenticate(t, g, raw, now)
  {
    var rs, rt := Records(x, environment, first), Records(x, environment, second);
    forall r | r in rs && Unexpired(r.expiresAt, now) ensures r in rt { RecordsSurvive(x, environment, first, second, r, now); }
    forall r | r in rt && Unexpired(r.expiresAt, now) ensures r in rs { RecordsSurvive(x, environment, second, first, r, now); }
    AcceptedByBoth(s, t, rs, rt, g, raw, now);
    AcceptedByBoth(t, s, rt, rs, g, raw, now);
  }

  // ------------------------------------------- which changes are noticed

  /** Adding one stamp changes the generation exactly when it exceeds every earlier one. */
  lemma OneMoreStamp(x: Access, y: Access, environment: string, now: nat)
    requires Stamps(y, environment) == Stamps(x, environment) + {now}
    ensures Generation(y, environment) != Generation(x, environment) <==> now > Generation(x, environment)
  {
    hide Stamps;
    assert now in Stamps(y, environment);
    assert forall t :: t in Stamps(y, environment) <==> t in Stamps(x, environment) || t == now;
  }

  /** A revocation changes the generation exactly when its stamp exceeds every earlier one. */
  lemma RevocationIsNoticedIffStampedLate(db: Database, environment: string, id: Id, now: nat)
    requires RevokeKey(db, environment, id, now).Ok?
    ensures Generation(RevokeKey(db, environment, id, now).value.access, environment) != Generation(db.access, environment)
       <==> now > Generation(db.access, environment)
  {
    hide Generation;
    StampsAfterRevocation(db, environment, id, now);
    OneMoreStamp(db.access, RevokeKey(db, environment, id, now).value.access, environment, now);
  }

  /** So does issuing a key. */
  lemma IssueIsNoticedIffStampedLate(
    db: Database, g: Settings, environment: string, consumer: Id, id: Id, secret: Secret, name: string,
    permissions: seq<string>, expiresAt: Option<nat>, rotatedFrom: Option<Id>, now: nat)
    requires IssueKey(db, g, environment, consumer, id, secret, name, permissions, expiresAt, rotatedFrom, now).Ok?
    ensures var y := IssueKey(db, g, environment, consumer, id, secret, name, permissions, expiresAt, rotatedFrom, now).value.access;
      Generation(y, environment) != Generation(db.access, environment) <==> now > Generation(db.access, environment)
  {
    hide Generation, PrefixTaken;
    var x := db.access;
    var y := IssueKey(db, g, environment, consumer, id, secret, name, permissions, expiresAt, rotatedFrom, now).value.access;
    AddedKeyStamps(x, y, environment, id, now);
    OneMoreStamp(x, y, environment, now);
  }

  /** And rotating one. */
  lemma RotationIsNoticedIffStampedLate(
    db: Database, g: Settings, environment: string, id: Id, newId: Id, secret: Secret, now: nat)
    requires RotateKey(db, g, environment, id, newId, secret, now).Ok?
    ensures var y := RotateKey(db, g, environment, id, newId, secret, now).value.access;
      Generation(y, environment) != Generation(db.access, environment) <==> now > Generation(db.access, environment)
  {
    hide Generation, PrefixTaken;
    var x, y := db.access, RotateKey(db, g, environment, id, newId, secret, now).value.access;
    var z := x.(keys := x.keys[newId := y.keys[newId]]);
    AddedKeyStamps(x, z, environment, newId, now);
    OtherStampsStay(z, y, environment, id, now);
    assert ConsumerStamps(y, environment) == ConsumerStamps(z, environment);
    assert Stamps(y, environment) == Stamps(x, environment) + {now};
    OneMoreStamp(x, y, environment, now);
  }

  lemma AddedKeyStamps(x: Access, y: Access, environment: string, id: Id, now: nat)
    requires id !in x.keys && id in y.keys && y.keys == x.keys[id := y.keys[id]] && y.consumers == x.consumers
    requires KeyIn(y, environment, id) && y.keys[id].createdAt == now && y.keys[id].revokedAt == None
    ensures Stamps(y, environment) == Stamps(x, environment) + {now}
  {
    forall k | k != id ensures KeyIn(y, environment, k) <==> KeyIn(x, environment, k) {}
    assert ConsumerStamps(y, environment) == ConsumerStamps(x, environment);
    assert RevocationStamps(y, environment) == RevocationStamps(x, environment);
    assert CreationStamps(y, environment) == CreationStamps(x, environment) + {now} by {
      assert y.keys[id].createdAt in CreationStamps(y, environment);
      forall t | t in CreationStamps(x, environment) ensures t in CreationStamps(y, environment) {
        var k :| k in x.keys && KeyIn(x, environment, k) && x.keys[k].createdAt == t;
        assert y.keys[k] == x.keys[k];
      }
    }
  }

  /** The stamps that are not consumer c's own. */
  function StampsBut(x: Access, environment: string, c: Id): set<nat> {
    (set d | d in x.consumers && d != c && ConsumerIn(x, environment, d) :: x.consumers[d].updatedAt)
    + CreationStamps(x, environment) + RevocationStamps(x, environment)
  }

  /** Replacing one stamp by another: noticed when the new one exceeds all, or when the greatest was the one replaced. */
  lemma ReplacedStamp(x: Access, y: Access, environment: string, rest: set<nat>, before: nat, now: nat)
    requires Stamps(x, environment) == rest + {before} && Stamps(y, environment) == rest + {now}
    ensures var m := Generation(x, environment);
      Generation(y, environment) != m <==> now > m || (now < m && m !in rest)
  {
    hide Stamps;
    assert before in Stamps(x, environment) && now in Stamps(y, environment);
    assert forall t :: t in Stamps(x, environment) <==> t in rest || t == before;
    assert forall t :: t in Stamps(y, environment) <==> t in rest || t == now;
  }

  /** An update of a consumer replaces its stamp, so it is noticed when it exceeds every stamp, and also when it is below
      the greatest and that was this consumer's own alone. */
  lemma ConsumerUpdateIsNoticedIff(
    db: Database, g: Settings, environment: string, id: Id, enabled: bool, permissions: seq<string>, expected: int, now: nat)
    requires UpdateConsumer(db, g, environment, id, enabled, permissions, expected, now).Ok?
    ensures var y, m := UpdateConsumer(db, g, environment, id, enabled, permissions, expected, now).value.access,
        Generation(db.access, environment);
      Generation(y, environment) != m <==> now > m || (now < m && m !in StampsBut(db.access, environment, id))
  {
    hide Generation, PermissionExists;
    var x, y := db.access, UpdateConsumer(db, g, environment, id, enabled, permissions, expected, now).value.access;
    TouchedConsumerStamps(x, y, environment, id);
    OwnStampAndTheRest(x, environment, id);
    OwnStampAndTheRest(y, environment, id);
    ReplacedStamp(x, y, environment, StampsBut(x, environment, id), x.consumers[id].updatedAt, now);
  }

  lemma TouchedConsumerStamps(x: Access, y: Access, environment: string, id: Id)
    requires y.keys == x.keys && id in x.consumers && id in y.consumers
    requires y.consumers == x.consumers[id := y.consumers[id]] && y.consumers[id].environment == x.consumers[id].environment
    ensures StampsBut(y, environment, id) == StampsBut(x, environment, id)
  {
    forall c ensures ConsumerIn(y, environment, c) <==> ConsumerIn(x, environment, c) {}
    forall k ensures KeyIn(y, environment, k) <==> KeyIn(x, environment, k) {}
    assert CreationStamps(y, environment) == CreationStamps(x, environment);
    assert RevocationStamps(y, environment) == RevocationStamps(x, environment);
  }

  lemma OwnStampAndTheRest(x: Access, environment: string, id: Id)
    requires ConsumerIn(x, environment, id)
    ensures Stamps(x, environment) == StampsBut(x, environment, id) + {x.consumers[id].updatedAt}
  {
    var others := set d | d in x.consumers && d != id && ConsumerIn(x, environment, d) :: x.consumers[d].updatedAt;
    assert ConsumerStamps(x, environment) == others + {x.consumers[id].updatedAt};
  }

  /** A new consumer is noticed like a new key; deleting one, which has no keys, only if its stamp alone was the greatest. */
  lemma ConsumerCreationIsNoticedIffStampedLate(
    db: Database, g: Settings, environment: string, id: Id, name: string, permissions: seq<string>, now: nat)
    requires AccessSound(db.access) && CreateConsumer(db, g, environment, id, name, permissions, now).Ok?
    ensures var y := CreateConsumer(db, g, environment, id, name, permissions, now).value.access;
      Generation(y, environment) != Generation(db.access, environment) <==> now > Generation(db.access, environment)
  {
    hide Generation, PermissionExists, UniqueNames, UniquePrefixes;
    var x, y := db.access, CreateConsumer(db, g, environment, id, name, permissions, now).value.access;
    KeysHaveConsumers(x);
    AddedConsumerStamps(x, y, environment, id);
    OwnStampAndTheRest(y, environment, id);
    OneMoreStamp(x, y, environment, now);
  }

  lemma AddedConsumerStamps(x: Access, y: Access, environment: string, id: Id)
    requires id !in x.consumers && id in y.consumers && y.consumers == x.consumers[id := y.consumers[id]] && y.keys == x.keys
    requires forall k | k in x.keys :: x.keys[k].consumer in x.consumers
    ensures StampsBut(y, environment, id) == Stamps(x, environment)
  {
    forall k ensures KeyIn(y, environment, k) <==> KeyIn(x, environment, k) {}
    forall c | c != id ensures ConsumerIn(y, environment, c) <==> ConsumerIn(x, environment, c) {}
    assert CreationStamps(y, environment) == CreationStamps(x, environment);
    assert RevocationStamps(y, environment) == RevocationStamps(x, environment);
    assert (set d | d in y.consumers && d != id && ConsumerIn(y, environment, d) :: y.consumers[d].updatedAt)
      == ConsumerStamps(x, environment);
  }

  lemma ConsumerDeletionIsNoticedIff(db: Database, environment: string, id: Id)
    requires AccessSound(db.access) && DeleteConsumer(db, environment, id).Ok?
    ensures var y, m := DeleteConsumer(db, environment, id).value.access, Generation(db.access, environment);
      Generation(y, environment) != m <==> m > 0 && m !in StampsBut(db.access, environment, id)
  {
    hide Generation, UniqueNames, UniquePrefixes;
    var x, y := db.access, DeleteConsumer(db, environment, id).value.access;
    AddedConsumerStamps(y, x, environment, id) by {
      KeysHaveConsumers(x);
      assert x.consumers == y.consumers[id := x.consumers[id]];
    }
    OwnStampAndTheRest(x, environment, id);
    RemovedStamp(x, y, environment, x.consumers[id].updatedAt);
  }

  lemma RemovedStamp(x: Access, y: Access, environment: string, gone: nat)
    requires Stamps(x, environment) == Stamps(y, environment) + {gone}
    ensures var m := Generation(x, environment); Generation(y, environment) != m <==> m > 0 && m !in Stamps(y, environment)
  {
    hide Stamps;
    assert gone in Stamps(x, environment);
    assert forall t :: t in Stamps(x, environment) <==> t in Stamps(y, environment) || t == gone;
  }

  // ---------------------------------------- without increasing stamps: the gap

  lemma StampsAfterRevocation(db: Database, environment: string, id: Id, now: nat)
    requires RevokeKey(db, environment, id, now).Ok?
    ensures Stamps(RevokeKey(db, environment, id, now).value.access, environment) == Stamps(db.access, environment) + {now}
  {
    var x, y := db.access, RevokeKey(db, environment, id, now).value.access;
    assert ConsumerStamps(y, environment) == ConsumerStamps(x, environment);
    OtherStampsStay(x, y, environment, id, now);
  }

  lemma OtherStampsStay(x: Access, y: Access, environment: string, id: Id, now: nat)
    requires KeyIn(x, environment, id) && x.keys[id].revokedAt == None
    requires y == x.(keys := x.keys[id := x.keys[id].(revokedAt := Some(now))])
    ensures CreationStamps(y, environment) == CreationStamps(x, environment)
    ensures RevocationStamps(y, environment) == RevocationStamps(x, environment) + {now}
  {
    forall k ensures KeyIn(y, environment, k) <==> KeyIn(x, environment, k) {}
    assert CreationStamps(y, environment) == CreationStamps(x, environment);
    assert y.keys[id].revokedAt.value in RevocationStamps(y, environment);
    forall t | t in RevocationStamps(x, environment) ensures t in RevocationStamps(y, environment) {
      var k :| k in x.keys && KeyIn(x, environment, k) && x.keys[k].revokedAt == Some(t);
      assert y.keys[k] == x.keys[k];
    }
  }

  /** With a transaction that started earlier and commits later the comparison misses a revocation: the generation and the
      active id stay, and the key is gone from the records. */
  lemma LateCommitIsMissed(db: Database, environment: string, id: Id, now: nat, at: nat)
    requires RevokeKey(db, environment, id, now).Ok? && now <= Generation(db.access, environment)
    requires Selected(db.access, environment, at, id)
    ensures var n := RevokeKey(db, environment, id, now).value;
      && Generation(n.access, environment) == Generation(db.access, environment)
      && ActiveId(n.configurations, environment) == ActiveId(db.configurations, environment)
      && Records(n.access, environment, at) != Records(db.access, environment, at)
  {
    RevocationIsNoticedIffStampedLate(db, environment, id, now);
    var n := RevokeKey(db, environment, id, now).value;
    RecordsAreSelectedKeys(db.access, environment, at, RecordOf(db.access, id));
    RecordsAreSelectedKeys(n.access, environment, at, RecordOf(db.access, id));
  }
}
