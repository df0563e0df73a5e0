/** What an unchanged row version says of a listener: the row is the one it was,
    but for what activations of its environment did to it. */
module UnchangedListeners {
  import opened Prelude
  import opened Tables
  import opened ControlPlane
  import opened Frames
  import opened OptimisticLocking
  import opened ConfigurationLifecycle

  /** The request activates a version of the environment. */
  ghost predicate Activates(db: Database, g: Settings, r: Request, environment: string) {
    r.op.DoActivateConfiguration? && r.environment == environment && Apply(db, g, r.environment, r.op, r.now).Ok?
  }

  /** The listener as an activation leaves it. */
  function WentLive(l: ListenerRow, version: nat): ListenerRow {
    l.(configuration := Some(version),
       status := if l.status == ListenerStatus.Reserved then ListenerStatus.Active else l.status)
  }

  // ---------------------------------------------------------------- one step

  /** A request that leaves a listener's row version leaves the listener, unless it activates a version of its environment. */
  lemma EqualVersionsStep(db: Database, g: Settings, r: Request, id: Id)
    requires id in db.assignments.listeners && id in Next(db, g, r).assignments.listeners
    requires Next(db, g, r).assignments.listeners[id].rowVersion == db.assignments.listeners[id].rowVersion
    ensures var x, y := db.assignments.listeners[id], Next(db, g, r).assignments.listeners[id];
      y == if Activates(db, g, r, x.environment) then WentLive(x, r.op.configuration) else x
  {
    hide Capture, EnabledVersions, PortOccupied, PolicyInRange, NormalizeMethods, FirstOf, Lowest, AvailablePorts, Supersede, Approvers;
    EveryRequestHasAKind(r.op);
    if CatalogRequest(r.op) {
      hide Next;
      CatalogFrame(db, g, r);
    } else if AccessRequest(r.op) {
      hide Next;
      AccessFrame(db, g, r);
    } else if ConfigurationRequest(r.op) {
      ConfigurationFrame(db, g, r);
    }
  }

  /** So its status changes if and only if the request activates a version of its environment and meets it reserved. */
  lemma StatusChangesIff(db: Database, g: Settings, r: Request, id: Id)
    requires id in db.assignments.listeners && id in Next(db, g, r).assignments.listeners
    requires Next(db, g, r).assignments.listeners[id].rowVersion == db.assignments.listeners[id].rowVersion
    ensures var x, y := db.assignments.listeners[id], Next(db, g, r).assignments.listeners[id];
      y.status != x.status <==> Activates(db, g, r, x.environment) && x.status == ListenerStatus.Reserved
  {
    hide Next, Activates;
    EqualVersionsStep(db, g, r, id);
  }

  lemma ActivationInstalls(db: Database, g: Settings, r: Request, environment: string)
    requires Activates(db, g, r, environment)
    ensures ConfigurationIn(db.configurations, environment, r.op.configuration, Validated)
    ensures ConfigurationIn(Next(db, g, r).configurations, environment, r.op.configuration, Current)
  {
    hide ActiveId, Approvers, GoLive;
  }

  // ------------------------------------------------- stamps of active versions

  /** The version a listener is stamped with was activated. */
  ghost predicate StampedWithActive(db: Database) {
    forall l | l in db.assignments.listeners && db.assignments.listeners[l].configuration.Some? ::
      EverActive(db.configurations, db.assignments.listeners[l].configuration.value)
  }

  ghost predicate EverActive(k: Configurations, id: nat) { id in k.rows && WasActive(k.rows[id]) }

  /** A new stamp is that of an activation. */
  lemma OnlyActivationsStamp(db: Database, g: Settings, r: Request, id: Id)
    requires id in Next(db, g, r).assignments.listeners
    ensures var x, y := db.assignments.listeners, Next(db, g, r).assignments.listeners[id];
      || y.configuration == None
      || (id in x && y.configuration == x[id].configuration)
      || (Activates(db, g, r, y.environment) && y.configuration == Some(r.op.configuration))
  {
    hide Capture, EnabledVersions, PortOccupied, PolicyInRange, NormalizeMethods, FirstOf, Lowest, AvailablePorts, Supersede, Approvers;
    EveryRequestHasAKind(r.op);
    if CatalogRequest(r.op) {
      hide Next;
      CatalogFrame(db, g, r);
    } else if AccessRequest(r.op) {
      hide Next;
      AccessFrame(db, g, r);
    } else if ConfigurationRequest(r.op) {
      ConfigurationFrame(db, g, r);
    }
  }

  lemma {:induction false} AlwaysStampedWithActive(history: seq<Database>, g: Settings, requests: seq<Request>, n: nat)
    requires IsRun(history, g, requests) && n < |history|
    ensures StampedWithActive(history[n])
  {
    hide IsRun, Next, Activates, FreshSchema;
    RunStarts(history, g, requests);
    if n == 0 {
      NothingStampedAtFirst(history[0]);
    } else {
      RunStep(history, g, requests, n);
      AlwaysStampedWithActive(history, g, requests, n - 1);
      AlwaysForward(history, g, requests, n - 1, n);
      var db, r := history[n - 1], requests[n - 1];
      forall l | l in history[n].assignments.listeners && history[n].assignments.listeners[l].configuration.Some?
        ensures EverActive(history[n].configurations, history[n].assignments.listeners[l].configuration.value)
      {
        OnlyActivationsStamp(db, g, r, l);
        if Activates(db, g, r, history[n].assignments.listeners[l].environment) {
          ActivationInstalls(db, g, r, history[n].assignments.listeners[l].environment);
        }
      }
    }
  }

  lemma NothingStampedAtFirst(db: Database)
    requires FreshSchema(db)
    ensures StampedWithActive(db)
  {
  }

  // ---------------------------------------------------------------- over runs

  ghost predicate ActivatesAt(history: seq<Database>, g: Settings, requests: seq<Request>, i: nat, environment: string)
    requires |history| == |requests| + 1 && i < |requests|
  {
    Activates(history[i], g, requests[i], environment)
  }

  /** An activation of the listener's environment meets it reserved. */
  ghost predicate TakesLiveAt(history: seq<Database>, g: Settings, requests: seq<Request>, i: nat, id: Id)
    requires |history| == |requests| + 1 && i < |requests| && id in history[i].assignments.listeners
  {
    && ActivatesAt(history, g, requests, i, history[i].assignments.listeners[id].environment)
    && history[i].assignments.listeners[id].status == ListenerStatus.Reserved
  }

  /** What the listener can have gone through from state m to state n without a change of its version. */
  ghost predicate Went(history: seq<Database>, g: Settings, requests: seq<Request>, m: nat, n: nat, id: Id)
    requires |history| == |requests| + 1 && m <= n < |history| && Remains(history, m, n, id)
  {
    var x, y := history[m].assignments.listeners[id], history[n].assignments.listeners[id];
    && y == x.(status := y.status, configuration := y.configuration)
    && (y.status != x.status ==> x.status == ListenerStatus.Reserved && y.status == ListenerStatus.Active)
    && (y.status != x.status <==> exists i :: m <= i < n && TakesLiveAt(history, g, requests, i, id))
    && (if exists i :: m <= i < n && ActivatesAt(history, g, requests, i, x.environment)
        then y.configuration.Some? && !EverActive(history[m].configurations, y.configuration.value)
        else y == x)
  }

  lemma {:induction false} EqualVersionsOverRuns(
    history: seq<Database>, g: Settings, requests: seq<Request>, m: nat, n: nat, id: Id)
    requires IsRun(history, g, requests) && |history| == |requests| + 1 && m <= n < |history| && Remains(history, m, n, id)
    requires history[m].assignments.listeners[id].rowVersion == history[n].assignments.listeners[id].rowVersion
    ensures Went(history, g, requests, m, n, id)
    decreases n - m
  {
    hide IsRun, Next, Activates;
    if m < n {
      RunStep(history, g, requests, n);
      ListenerVersionsGrowOverRuns(history, g, requests, m, n - 1, id);
      EveryRequestGrowsListeners(history[n - 1], g, requests[n - 1]);
      EqualVersionsOverRuns(history, g, requests, m, n - 1, id);
      OneMoreStep(history, g, requests, m, n, id);
    }
  }

  lemma OneMoreStep(history: seq<Database>, g: Settings, requests: seq<Request>, m: nat, n: nat, id: Id)
    requires IsRun(history, g, requests) && |history| == |requests| + 1 && m < n < |history| && Remains(history, m, n, id)
    requires history[n - 1].assignments.listeners[id].rowVersion == history[n].assignments.listeners[id].rowVersion
    requires Went(history, g, requests, m, n - 1, id)
    ensures Went(history, g, requests, m, n, id)
  {
    hide IsRun, Next, Activates;
    RunStep(history, g, requests, n);
    EqualVersionsStep(history[n - 1], g, requests[n - 1], id);
    var x, w := history[m].assignments.listeners[id], history[n - 1].assignments.listeners[id];
    if Activates(history[n - 1], g, requests[n - 1], w.environment) {
      assert ActivatesAt(history, g, requests, n - 1, x.environment);
      ActivationInstalls(history[n - 1], g, requests[n - 1], w.environment);
      AlwaysForward(history, g, requests, m, n - 1);
      if w.status == ListenerStatus.Reserved { assert TakesLiveAt(history, g, requests, n - 1, id); }
    }
  }

  /** Exactly what an unchanged row version guarantees, over any part of a run in which the listener stays: its status is the
      old one unless an activation of its environment met it reserved in between, the whole row is the old one if and only if
      no version of its environment was activated in between, and nothing but status and stamp ever differs. */
  lemma UnchangedVersionMeans(history: seq<Database>, g: Settings, requests: seq<Request>, m: nat, n: nat, id: Id)
    requires IsRun(history, g, requests) && |history| == |requests| + 1 && m <= n < |history| && Remains(history, m, n, id)
    requires history[m].assignments.listeners[id].rowVersion == history[n].assignments.listeners[id].rowVersion
    ensures var x, y := history[m].assignments.listeners[id], history[n].assignments.listeners[id];
      && y == x.(status := y.status, configuration := y.configuration)
      && (y.status != x.status <==> exists i :: m <= i < n && TakesLiveAt(history, g, requests, i, id))
      && (y == x <==> forall i | m <= i < n :: !ActivatesAt(history, g, requests, i, x.environment))
  {
    hide IsRun, ActivatesAt, TakesLiveAt;
    EqualVersionsOverRuns(history, g, requests, m, n, id);
    AlwaysStampedWithActive(history, g, requests, m);
  }
}
