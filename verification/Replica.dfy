/** internal/dataplane/runtime.go: one replica's cache of the active snapshot,
    refreshed by polling and by notifications that may be lost. */
module ReplicaRefresh {
  import opened Prelude
  import opened Tables
  import opened SnapshotCompiler
  import opened ControlPlane
  import opened TableRules
  import opened Loading
  import opened Generations
  import ConfigurationLifecycle

  /** The three atomic fields of a Runtime. */
  datatype Replica = Replica(current: Option<Snapshot>, configuration: nat, credential: nat)

  /** Load, when its transaction saw view (None: some statement failed). */
  function AfterLoad(r: Replica, view: Option<Database>, g: Settings, environment: string, now: nat): Replica {
    if view == None then r
    else
      match LoadedSnapshot(view.value, g, environment, now)
      case None => r
      case Some(s) => Replica(Some(s), s.version, Generation(view.value.access, environment))
  }

  predicate LoadSucceeds(view: Option<Database>, g: Settings, environment: string, now: nat) {
    view.Some? && LoadedSnapshot(view.value, g, environment, now).Some?
  }

  /** The poll's test: the active id read in one state and the generation read in another are the recorded ones. */
  predicate LooksUnchanged(r: Replica, first: Database, second: Database, environment: string) {
    ActiveId(first.configurations, environment) == Some(r.configuration)
    && Generation(second.access, environment) == r.credential
  }

  datatype PollResult = Skipped | Reloaded | Failed

  class Runtime {
    const settings: Settings
    const environment: string
    var current: Option<Snapshot>
    var configGeneration: nat
    var credentialGeneration: nat

    constructor (settings: Settings, environment: string)
      ensures this.settings == settings && this.environment == environment && State() == Replica(None, 0, 0)
    {
      this.settings, this.environment := settings, environment;
      current, configGeneration, credentialGeneration := None, 0, 0;
    }

    function State(): Replica
      reads this
    {
      Replica(current, configGeneration, credentialGeneration)
    }

    /** A failed load leaves every field alone. */
    method Load(view: Option<Database>, now: nat) returns (ok: bool)
      modifies this
      ensures ok == LoadSucceeds(view, settings, environment, now)
      ensures State() == AfterLoad(old(State()), view, settings, environment, now)
      ensures !ok ==> State() == old(State())
    {
      hide Generation, Records, ActiveId, VersionsFrom, PoolsFrom, ListenersFrom, CredentialsFrom, ServicesFrom;
      if view == None { return false; }
      var db := view.value;
      ConfigurationLifecycle.ActiveIdIsCurrent(db.configurations, environment);
      var version := ActiveId(db.configurations, environment);
      if version == None { return false; }
      var generation := Generation(db.access, environment);
      var built := BuildSnapshot(version.value, environment, db.configurations.rows[version.value].snapshot,
        Records(db.access, environment, now), settings.platform, settings.allowlist);
      if built.Err? { return false; }
      current := Some(built.value);
      configGeneration := version.value;
      credentialGeneration := generation;
      return true;
    }

    /** refreshIfChanged: first and second are what its two queries saw, None when a query failed. */
    method RefreshIfChanged(first: Option<Database>, second: Option<Database>, view: Option<Database>, now: nat)
      returns (result: PollResult)
      modifies this
      ensures result == Skipped <==>
        first.Some? && second.Some? && LooksUnchanged(old(State()), first.value, second.value, environment)
      ensures result == Reloaded <==>
        && first.Some? && ActiveId(first.value.configurations, environment).Some? && second.Some?
        && !LooksUnchanged(old(State()), first.value, second.value, environment)
        && LoadSucceeds(view, settings, environment, now)
      ensures State() == if result == Reloaded then AfterLoad(old(State()), view, settings, environment, now) else old(State())
    {
      if first == None { return Failed; }
      var configuration := ActiveId(first.value.configurations, environment);
      if configuration == None || second == None { return Failed; }
      var credential := Generation(second.value.access, environment);
      if configuration.value == configGeneration && credential == credentialGeneration { return Skipped; }
      var ok := Load(view, now);
      return if ok then Reloaded else Failed;
    }
  }

  // ------------------------------------- the event loop beside the admin API

  /** Where the replica's loop stands. Reading(c): the poll has read active id c; Loading(i): a load has begun on state i. */
  datatype Phase = Idle | Reading(configuration: nat, readAt: nat) | Due | Loading(begunAt: nat)

  /** The committed states, the replica, and, for the record, the state and time its snapshot was loaded from. */
  datatype World = World(
    history: seq<Database>, requests: seq<Request>, replica: Replica, phase: Phase, loadedFrom: nat, loadedAt: nat)

  datatype Action =
    | Commit(request: Request)
    | NotificationDropped
    | NotificationArrives
    | PollReadsActiveId
    | PollReadsGeneration
    | LoadBegins
    | LoadFinishes(now: nat)
    | DatabaseFails

  function Latest(w: World): nat
    requires w.history != []
  {
    |w.history| - 1
  }

  predicate Enabled(w: World, a: Action) {
    match a
    case Commit(_) => true
    case NotificationDropped => true
    case NotificationArrives => w.phase == Idle
    case PollReadsActiveId => w.phase == Idle
    case PollReadsGeneration => w.phase.Reading?
    case LoadBegins => w.phase == Due
    case LoadFinishes(_) => w.phase.Loading?
    case DatabaseFails => w.phase != Idle
  }

  predicate CanStep(w: World, a: Action) {
    w.history != [] && Enabled(w, a) && (w.phase.Loading? ==> w.phase.begunAt < |w.history|)
  }

  function Step(w: World, a: Action, g: Settings, environment: string): World
    requires CanStep(w, a)
  {
    match a
    case Commit(r) => w.(history := w.history + [Next(w.history[Latest(w)], g, r)], requests := w.requests + [r])
    case NotificationDropped => w
    case NotificationArrives => w.(phase := Due)
    case PollReadsActiveId =>
      (match ActiveId(w.history[Latest(w)].configurations, environment)
       case None => w
       case Some(c) => w.(phase := Reading(c, Latest(w))))
    case PollReadsGeneration =>
      if w.phase.configuration == w.replica.configuration
        && Generation(w.history[Latest(w)].access, environment) == w.replica.credential
      then w.(phase := Idle) else w.(phase := Due)
    case LoadBegins => w.(phase := Loading(Latest(w)))
    case LoadFinishes(now) =>
      var view := Some(w.history[w.phase.begunAt]);
      if LoadSucceeds(view, g, environment, now)
      then w.(replica := AfterLoad(w.replica, view, g, environment, now), phase := Idle, loadedFrom := w.phase.begunAt, loadedAt := now)
      else w.(phase := Idle)
    case DatabaseFails => w.(phase := Idle)
  }

  /** The replica holds exactly what a load of state from at time at produced. */
  ghost predicate HoldsLoad(history: seq<Database>, r: Replica, from: nat, at: nat, g: Settings, environment: string)
    requires from < |history|
  {
    match r.current
    case None => r == Replica(None, 0, 0) && from == 0
    case Some(s) =>
      && LoadedSnapshot(history[from], g, environment, at) == Some(s)
      && r.configuration == s.version && r.credential == Generation(history[from].access, environment)
  }

  ghost predicate Good(w: World, g: Settings, environment: string) {
    && IsRun(w.history, g, w.requests) && w.loadedFrom < |w.history|
    && HoldsLoad(w.history, w.replica, w.loadedFrom, w.loadedAt, g, environment)
    && match w.phase
       case Idle => true
       case Due => true
       case Reading(c, i) =>
         w.loadedFrom <= i < |w.history| && ActiveId(w.history[i].configurations, environment) == Some(c)
       case Loading(i) => w.loadedFrom <= i < |w.history|
  }

  lemma RunExtends(history: seq<Database>, g: Settings, requests: seq<Request>, r: Request)
    requires IsRun(history, g, requests)
    ensures IsRun(history + [Next(history[|history| - 1], g, r)], g, requests + [r])
  {
    var longer, more := history + [Next(history[|history| - 1], g, r)], requests + [r];
    forall i | 0 <= i < |more| ensures StepsAt(longer, g, more, i) {
      if i < |requests| { assert StepsAt(history, g, requests, i); }
    }
  }

  lemma CommitsKeep(w: World, r: Request, g: Settings, environment: string)
    requires Good(w, g, environment)
    requires CanStep(w, Commit(r))
    ensures var v := Step(w, Commit(r), g, environment);
      Good(v, g, environment) && w.loadedFrom <= v.loadedFrom && w.history <= v.history && v.replica == w.replica
  {
    hide LoadedSnapshot, IsRun, Next;
    RunExtends(w.history, g, w.requests, r);
    var v := Step(w, Commit(r), g, environment);
    forall i | 0 <= i < |w.history| ensures v.history[i] == w.history[i] {}
  }

  lemma LoadsKeep(w: World, now: nat, g: Settings, environment: string)
    requires CanStep(w, LoadFinishes(now)) && w.phase.Loading? && Good(w, g, environment)
    ensures var v := Step(w, LoadFinishes(now), g, environment);
      && Good(v, g, environment) && w.loadedFrom <= v.loadedFrom && w.history == v.history
      && (v.replica != w.replica ==> v.loadedFrom == w.phase.begunAt)
  {
    hide LoadedSnapshot, IsRun;
    if LoadSucceeds(Some(w.history[w.phase.begunAt]), g, environment, now) {
      LoadedVersion(w.history[w.phase.begunAt], g, environment, now);
    }
  }

  /** Each step keeps the cache equal to one load; that load's state never goes back; only a finished load changes it. */
  lemma EveryStepKeeps(w: World, a: Action, g: Settings, environment: string)
    requires CanStep(w, a) && Good(w, g, environment)
    ensures var v := Step(w, a, g, environment);
      && Good(v, g, environment) && w.loadedFrom <= v.loadedFrom && w.history <= v.history
      && (v.replica != w.replica ==> a.LoadFinishes? && w.phase.Loading? && v.loadedFrom == w.phase.begunAt)
  {
    hide LoadedSnapshot, IsRun, HoldsLoad, Next, ActiveId, Generation;
    match a
    case Commit(r) => CommitsKeep(w, r, g, environment);
    case LoadFinishes(now) => LoadsKeep(w, now, g, environment);
    case NotificationDropped =>
    case NotificationArrives =>
    case PollReadsActiveId =>
    case PollReadsGeneration =>
    case LoadBegins =>
    case DatabaseFails =>
  }

  /** What a step leaves true of the worlds after it. */
  ghost predicate Later(w: World, v: World) {
    w.loadedFrom <= v.loadedFrom && w.history <= v.history && (w.replica.current.Some? ==> v.replica.current.Some?)
  }

  lemma FollowersAreGoodAndLater(w: World, v: World, a: Action, g: Settings, environment: string)
    requires Good(w, g, environment) && Follows(w, v, a, g, environment)
    ensures Good(v, g, environment) && Later(w, v)
  {
    hide Good;
    SnapshotsAreKept(w, a, g, environment);
    EveryStepKeeps(w, a, g, environment);
  }

  lemma SnapshotsAreKept(w: World, a: Action, g: Settings, environment: string)
    requires CanStep(w, a)
    ensures w.replica.current.Some? ==> Step(w, a, g, environment).replica.current.Some?
  {
    hide LoadedSnapshot, Next;
  }

  ghost predicate IsTrace(worlds: seq<World>, actions: seq<Action>, g: Settings, environment: string) {
    && |worlds| == |actions| + 1
    && Good(worlds[0], g, environment) && worlds[0].replica == Replica(None, 0, 0)
    && forall i | 0 <= i < |actions| :: FollowsAt(worlds, actions, g, environment, i)
  }

  ghost predicate FollowsAt(worlds: seq<World>, actions: seq<Action>, g: Settings, environment: string, i: nat)
    requires i < |actions| < |worlds|
  {
    Follows(worlds[i], worlds[i + 1], actions[i], g, environment)
  }

  ghost predicate Follows(w: World, v: World, a: Action, g: Settings, environment: string) {
    CanStep(w, a) && v == Step(w, a, g, environment)
  }

  lemma {:induction false} WorldsStayGood(
    worlds: seq<World>, actions: seq<Action>, g: Settings, environment: string, n: nat)
    requires IsTrace(worlds, actions, g, environment) && n < |worlds|
    ensures Good(worlds[n], g, environment)
  {
    hide Good, Follows;
    if n > 0 {
      WorldsStayGood(worlds, actions, g, environment, n - 1);
      TraceStep(worlds, actions, g, environment, n);
      FollowersAreGoodAndLater(worlds[n - 1], worlds[n], actions[n - 1], g, environment);
    }
  }

  /** Over every interleaving of polls, delivered and dropped notifications, failures and commits: the current snapshot is
      what buildSnapshot makes of one committed state, and that state's index never goes backwards. */
  lemma {:induction false} SnapshotIsAlwaysOfOneState(
    worlds: seq<World>, actions: seq<Action>, g: Settings, environment: string, m: nat, n: nat)
    requires IsTrace(worlds, actions, g, environment) && m <= n < |worlds|
    ensures Later(worlds[m], worlds[n])
    ensures var w := worlds[n];
      && w.loadedFrom < |w.history|
      && (w.replica.current.Some? ==> w.replica.current == LoadedSnapshot(w.history[w.loadedFrom], g, environment, w.loadedAt))
    decreases n - m
  {
    hide LoadedSnapshot, IsTrace, Follows, IsRun;
    WorldsStayGood(worlds, actions, g, environment, n);
    if m < n {
      SnapshotIsAlwaysOfOneState(worlds, actions, g, environment, m, n - 1);
      WorldsStayGood(worlds, actions, g, environment, n - 1);
      TraceStep(worlds, actions, g, environment, n);
      FollowersAreGoodAndLater(worlds[n - 1], worlds[n], actions[n - 1], g, environment);
    }
  }

  lemma TraceStep(worlds: seq<World>, actions: seq<Action>, g: Settings, environment: string, n: nat)
    requires IsTrace(worlds, actions, g, environment) && 0 < n < |worlds|
    ensures |worlds| == |actions| + 1 && Follows(worlds[n - 1], worlds[n], actions[n - 1], g, environment)
  {
    hide Good, Follows;
    assert FollowsAt(worlds, actions, g, environment, n - 1);
  }

  // ---------------------------------------------------------- skipping polls

  lemma ActiveIdsArePositive(history: seq<Database>, g: Settings, requests: seq<Request>, n: nat, environment: string)
    requires IsRun(history, g, requests) && n < |history|
    ensures var a := ActiveId(history[n].configurations, environment); a.Some? ==> a.value >= 1
  {
    ConfigurationLifecycle.AlwaysSound(history, g, requests, n);
  }

  lemma LoadedVersion(db: Database, g: Settings, environment: string, now: nat)
    requires LoadedSnapshot(db, g, environment, now).Some?
    ensures ActiveId(db.configurations, environment) == Some(LoadedSnapshot(db, g, environment, now).value.version)
  {
  }

  lemma RecordedIdIsTheLoadedOne(w: World, g: Settings, environment: string)
    requires Good(w, g, environment) && w.replica.current.Some?
    ensures ActiveId(w.history[w.loadedFrom].configurations, environment) == Some(w.replica.configuration)
    ensures Generation(w.history[w.loadedFrom].access, environment) == w.replica.credential
  {
    LoadedVersion(w.history[w.loadedFrom], g, environment, w.loadedAt);
  }

  lemma SkippingMeansLoaded(w: World, g: Settings, environment: string)
    requires Good(w, g, environment) && w.phase.Reading? && w.phase.configuration == w.replica.configuration
    ensures w.replica.current.Some?
  {
    ActiveIdsArePositive(w.history, g, w.requests, w.phase.readAt, environment);
  }

  /** Whatever was committed since the state the replica loaded is stamped above that state's generation: the hypothesis under
      which skipping is sound. Stamps that increase in commit order provide it. */
  ghost predicate StampedAfterLoad(w: World, g: Settings, environment: string) {
    && |w.history| == |w.requests| + 1 && w.loadedFrom < |w.history|
    && CommitsExceed(w.history, g, w.requests, w.loadedFrom, Latest(w), Generation(w.history[w.loadedFrom].access, environment))
  }

  lemma IncreasingStampsSuffice(w: World, g: Settings, environment: string)
    requires Good(w, g, environment) && StampsIncrease(w.history, g, w.requests)
    ensures StampedAfterLoad(w, g, environment)
  {
    hide LoadedSnapshot, StampsIncrease, CommitsExceed, Generation;
    RunStarts(w.history, g, w.requests);
    IncreasingStampsExceed(w.history, g, w.requests, w.loadedFrom, Latest(w), environment);
  }

  /** The loaded and the latest state agree on all a replica takes from them. */
  ghost predicate NothingMissed(
    loaded: Database, read: Database, latest: Database, id: nat, environment: string)
  {
    && id in loaded.configurations.rows && id in read.configurations.rows
    && loaded.configurations.rows[id].snapshot == read.configurations.rows[id].snapshot
    && forall now :: Records(latest.access, environment, now) == Records(loaded.access, environment, now)
  }

  /** A poll that skips after reading the id in state i and the generation in the latest state: the replica still serves the
      configuration active in i with the latest credentials; with no commit between the reads, it holds what a load of the
      latest state would give it. */
  lemma SkippedPollsMissNothing(w: World, g: Settings, environment: string)
    requires CanStep(w, PollReadsGeneration) && w.phase.Reading?
    requires Sane(g) && Good(w, g, environment) && StampedAfterLoad(w, g, environment)
    requires Step(w, PollReadsGeneration, g, environment).phase == Idle
    ensures w.replica.current.Some? && w.replica.configuration == w.phase.configuration
    ensures w.loadedFrom < |w.history| && w.phase.readAt < |w.history|
      && NothingMissed(w.history[w.loadedFrom], w.history[w.phase.readAt], w.history[Latest(w)], w.phase.configuration, environment)
    ensures w.phase.readAt == Latest(w) ==>
      w.replica.current == LoadedSnapshot(w.history[Latest(w)], g, environment, w.loadedAt)
  {
    hide LoadedSnapshot, Records, Generation, IsRun, CommitsExceed, Next;
    var i, j := w.loadedFrom, Latest(w);
    SkippingMeansLoaded(w, g, environment);
    RecordedIdIsTheLoadedOne(w, g, environment);
    ConfigurationLifecycle.AlwaysForward(w.history, g, w.requests, i, w.phase.readAt);
    forall now ensures Records(w.history[j].access, environment, now) == Records(w.history[i].access, environment, now) {
      EqualGenerationsMeanEqualRecords(w.history, g, w.requests, i, j, environment, now);
    }
    if w.phase.readAt == j {
      EqualGenerationsMeanEqualSnapshots(w.history, g, w.requests, i, j, environment, w.loadedAt);
    }
  }

  ghost predicate StampedInOrder(w: World, g: Settings) {
    |w.history| == |w.requests| + 1 && StampsIncrease(w.history, g, w.requests)
  }

  /** So over every trace whose commits are stamped in order no poll that skips misses anything. */
  lemma SkipsInATraceMissNothing(worlds: seq<World>, actions: seq<Action>, g: Settings, environment: string, n: nat)
    requires Sane(g) && IsTrace(worlds, actions, g, environment) && |worlds| == |actions| + 1 && n < |actions|
    requires actions[n] == PollReadsGeneration && worlds[n].phase.Reading? && worlds[n + 1].phase == Idle
    requires StampedInOrder(worlds[n], g)
    ensures var w := worlds[n];
      && w.replica.current.Some? && w.replica.configuration == w.phase.configuration
      && w.loadedFrom < |w.history| && w.phase.readAt < |w.history|
      && NothingMissed(w.history[w.loadedFrom], w.history[w.phase.readAt], w.history[Latest(w)], w.phase.configuration, environment)
      && (w.phase.readAt == Latest(w) ==> w.replica.current == LoadedSnapshot(w.history[Latest(w)], g, environment, w.loadedAt))
  {
    hide Good, IsTrace, Step, LoadedSnapshot, NothingMissed, StampsIncrease, StampedAfterLoad;
    WorldsStayGood(worlds, actions, g, environment, n);
    TraceStep(worlds, actions, g, environment, n + 1);
    IncreasingStampsSuffice(worlds[n], g, environment);
    SkippedPollsMissNothing(worlds[n], g, environment);
  }

  // ------------------------------------------------------------- converging

  /** Two polls' worth of steps with no commit in between. */
  function Poll(w: World, g: Settings, environment: string, now: nat): World
    requires w.history != [] && w.phase == Idle
  {
    var first := Step(w, PollReadsActiveId, g, environment);
    if first.phase == Idle then first
    else
      var second := Step(first, PollReadsGeneration, g, environment);
      if second.phase == Idle then second
      else Step(Step(second, LoadBegins, g, environment), LoadFinishes(now), g, environment)
  }

  /** A notification that gets through, and the load it causes. */
  function Notified(w: World, g: Settings, environment: string, now: nat): World
    requires w.history != [] && w.phase == Idle
  {
    Step(Step(Step(w, NotificationArrives, g, environment), LoadBegins, g, environment), LoadFinishes(now), g, environment)
  }

  /** It does not look at the recorded numbers: also where a poll would skip, the replica ends with what a load of the latest
      state gives, unless that state does not build; then it keeps what it has. */
  lemma ANotificationReloads(w: World, g: Settings, environment: string, now: nat)
    requires w.history != [] && w.phase == Idle
    ensures var v, last := Notified(w, g, environment, now), w.history[Latest(w)];
      && v.phase == Idle && v.history == w.history
      && (LoadedSnapshot(last, g, environment, now).Some? ==>
        && v.replica.current == LoadedSnapshot(last, g, environment, now)
        && v.loadedFrom == Latest(w) && LooksUnchanged(v.replica, last, last, environment))
      && (LoadedSnapshot(last, g, environment, now) == None ==> v == w)
  {
    hide LoadedSnapshot, Generation, ActiveId;
    var last := w.history[Latest(w)];
    if LoadedSnapshot(last, g, environment, now).Some? { LoadingMakesUnchanged(w.replica, last, g, environment, now); }
  }

  lemma UnchangedMeansCurrent(w: World, g: Settings, environment: string)
    requires Sane(g) && Good(w, g, environment) && StampedAfterLoad(w, g, environment)
    requires LooksUnchanged(w.replica, w.history[Latest(w)], w.history[Latest(w)], environment)
    ensures w.replica.current == LoadedSnapshot(w.history[Latest(w)], g, environment, w.loadedAt)
  {
    var i, j := w.loadedFrom, Latest(w);
    ActiveIdsArePositive(w.history, g, w.requests, j, environment);
    RecordedIdIsTheLoadedOne(w, g, environment);
    EqualGenerationsMeanEqualSnapshots(w.history, g, w.requests, i, j, environment, w.loadedAt);
  }

  lemma LoadingMakesUnchanged(r: Replica, db: Database, g: Settings, environment: string, now: nat)
    requires LoadedSnapshot(db, g, environment, now).Some?
    ensures LooksUnchanged(AfterLoad(r, Some(db), g, environment, now), db, db, environment)
  {
    LoadedVersion(db, g, environment, now);
  }

  lemma PollSkips(w: World, g: Settings, environment: string, now: nat)
    requires w.history != [] && w.phase == Idle
    requires LooksUnchanged(w.replica, w.history[Latest(w)], w.history[Latest(w)], environment)
    ensures Poll(w, g, environment, now) == w
  {
    hide ActiveId, Generation, LoadSucceeds, AfterLoad, Next;
    var reading := w.(phase := Reading(w.replica.configuration, Latest(w)));
    assert Step(w, PollReadsActiveId, g, environment) == reading;
    assert Step(reading, PollReadsGeneration, g, environment) == w;
  }

  lemma PollLoads(w: World, g: Settings, environment: string, now: nat)
    requires w.history != [] && w.phase == Idle && ActiveId(w.history[Latest(w)].configurations, environment).Some?
    requires !LooksUnchanged(w.replica, w.history[Latest(w)], w.history[Latest(w)], environment)
    ensures var view := Some(w.history[Latest(w)]);
      Poll(w, g, environment, now) ==
        if LoadSucceeds(view, g, environment, now)
        then w.(replica := AfterLoad(w.replica, view, g, environment, now), loadedFrom := Latest(w), loadedAt := now)
        else w
  {
    hide ActiveId, Generation, LoadSucceeds, AfterLoad, Next;
  }

  /** Once commits stop, one poll is enough: it ends with the replica equal to a load of the latest state, unless that state
      does not build. Then nothing changes and the next poll tries again instead of skipping. */
  lemma OnePollConverges(w: World, g: Settings, environment: string, now: nat)
    requires Sane(g) && Good(w, g, environment) && StampedAfterLoad(w, g, environment)
    requires w.phase == Idle && ActiveId(w.history[Latest(w)].configurations, environment).Some?
    ensures var v, last := Poll(w, g, environment, now), w.history[Latest(w)];
      && v.phase == Idle && v.history == w.history
      && (LooksUnchanged(w.replica, last, last, environment) ==>
        v.replica == w.replica && v.replica.current == LoadedSnapshot(last, g, environment, w.loadedAt))
      && (!LooksUnchanged(w.replica, last, last, environment) && LoadedSnapshot(last, g, environment, now).Some? ==>
        v.replica.current == LoadedSnapshot(last, g, environment, now) && LooksUnchanged(v.replica, last, last, environment))
      && (!LooksUnchanged(w.replica, last, last, environment) && LoadedSnapshot(last, g, environment, now) == None ==> v == w)
  {
    hide LoadedSnapshot, Poll, ActiveId, Generation, Good;
    var last := w.history[Latest(w)];
    if LooksUnchanged(w.replica, last, last, environment) {
      PollSkips(w, g, environment, now);
      UnchangedMeansCurrent(w, g, environment);
    } else {
      PollLoads(w, g, environment, now);
      if LoadedSnapshot(last, g, environment, now).Some? { LoadingMakesUnchanged(w.replica, last, g, environment, now); }
    }
  }

  /** Whatever the loop was doing when the database failed, it drops it without a trace in the replica, and the next poll makes
      the latest state current if that state builds. */
  lemma AFailureIsRetried(w: World, g: Settings, environment: string, now: nat)
    requires CanStep(w, DatabaseFails)
    requires Sane(g) && Good(w, g, environment) && StampedAfterLoad(w, g, environment)
    requires ActiveId(w.history[Latest(w)].configurations, environment).Some?
    requires LoadedSnapshot(w.history[Latest(w)], g, environment, now).Some?
    ensures var failed, last := Step(w, DatabaseFails, g, environment), w.history[Latest(w)];
      && failed == w.(phase := Idle)
      && var v := Poll(failed, g, environment, now);
      && (v.replica.current == LoadedSnapshot(last, g, environment, now)
          || v.replica.current == LoadedSnapshot(last, g, environment, w.loadedAt))
  {
    hide LoadedSnapshot, Poll, Generation, HoldsLoad, IsRun, CommitsExceed;
    var failed := w.(phase := Idle);
    assert Good(failed, g, environment) && StampedAfterLoad(failed, g, environment);
    OnePollConverges(failed, g, environment, now);
  }
}
