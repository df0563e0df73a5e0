/** What issuing, rotating, revoking a key and switching off a consumer mean for
    the rest of a run. */
module AccessOverRuns {
  import opened Prelude
  import opened Tables
  import opened SnapshotCompiler
  import opened ControlPlane
  import opened TableRules
  import opened Loading
  import opened KeyChains
  import opened Authentication
  import opened LastWrites

  // -------------------------------------------------------------- consumers

  /** The request switches the consumer off. */
  ghost predicate SwitchesOff(r: Request, consumer: Id) { r.op.DoUpdateConsumer? && r.op.id == consumer && !r.op.enabled }

  /** The request writes the consumer's row otherwise: enables it, or creates it anew. */
  ghost predicate SwitchesOn(db: Database, g: Settings, r: Request, consumer: Id) {
    Succeeds(db, g, r) && (r.op.DoCreateConsumer? || (r.op.DoUpdateConsumer? && r.op.enabled)) && r.op.id == consumer
  }

  ghost predicate SwitchedOnAt(history: seq<Database>, g: Settings, requests: seq<Request>, j: nat, consumer: Id)
    requires |history| == |requests| + 1 && j < |requests|
  {
    SwitchesOn(history[j], g, requests[j], consumer)
  }

  lemma NoConsumersAtFirst(db: Database, consumer: Id)
    requires FreshSchema(db)
    ensures !Present(db, AConsumer(consumer))
  {
  }

  lemma LastWriteSwitches(db: Database, g: Settings, r: Request, n: Database, consumer: Id)
    requires Writes(db, g, r, AConsumer(consumer)) && Says(db, g, r, n, AConsumer(consumer))
    ensures consumer in n.access.consumers
    ensures n.access.consumers[consumer].enabled <==> SwitchesOn(db, g, r, consumer)
  {
    hide Succeeds;
  }

  lemma SwitchingOffWrites(db: Database, g: Settings, r: Request, consumer: Id)
    requires SwitchesOff(r, consumer) && Succeeds(db, g, r)
    ensures Writes(db, g, r, AConsumer(consumer)) && !SwitchesOn(db, g, r, consumer)
  {
    hide Succeeds;
  }

  /** A consumer that was switched off stays off until a later request switches it on. */
  lemma SwitchedOffStaysOff(history: seq<Database>, g: Settings, requests: seq<Request>, m: nat, n: nat, consumer: Id)
    requires Sane(g) && IsRun(history, g, requests) && |history| == |requests| + 1 && m < n < |history|
    requires SwitchesOff(requests[m], consumer) && Succeeds(history[m], g, requests[m])
    requires forall j | m < j < n :: !SwitchedOnAt(history, g, requests, j, consumer)
    ensures consumer in history[n].access.consumers ==> !history[n].access.consumers[consumer].enabled
  {
    hide IsRun, Sane, FreshSchema, Succeeds, Writes, Says, Erases, SwitchesOff, SwitchesOn;
    var p := AConsumer(consumer);
    RunStarts(history, g, requests);
    NoConsumersAtFirst(history[0], consumer);
    EverythingIsAsLastWritten(history, g, requests, n, p);
    SwitchingOffWrites(history[m], g, requests[m], consumer);
    if consumer in history[n].access.consumers {
      assert Present(history[n], p);
      var i: nat :| LastWrite(history, g, requests, i, n, p);
      LastWriteSwitches(history[i], g, requests[i], history[n], consumer);
      assert i >= m;
      if i > m { assert !SwitchedOnAt(history, g, requests, i, consumer); }
    }
  }

  /** So from then on no replica, whichever of the later states it has loaded, accepts a key of that consumer. */
  lemma DisabledConsumersStayOut(
    history: seq<Database>, g: Settings, requests: seq<Request>, m: nat, n: nat, environment: string, raw: string, k: Id,
    loaded: nat, now: nat)
    requires Sane(g) && IsRun(history, g, requests) && |history| == |requests| + 1 && m < n < |history| && loaded <= now
    requires k in history[n].access.keys && IsRawFormOf(Ledger(history, g, requests, n), raw, k)
    requires SwitchesOff(requests[m], history[n].access.keys[k].consumer) && Succeeds(history[m], g, requests[m])
    requires forall j | m < j < n :: !SwitchedOnAt(history, g, requests, j, history[n].access.keys[k].consumer)
    requires NoCollision(g, Ledger(history, g, requests, n), raw)
    requires LoadedSnapshot(history[n], g, environment, loaded).Some?
    ensures Authenticate(LoadedSnapshot(history[n], g, environment, loaded).value, g, raw, now) == None
  {
    hide IsRun, Sane, Succeeds, SwitchesOff, SwitchedOnAt, LoadedSnapshot, Authenticate, Ledger, NoCollision, LedgerSound, AccessSound,
      CredentialSays, CatalogSound, ListenersSound, IsRawFormOf;
    var x := history[n].access;
    SwitchedOffStaysOff(history, g, requests, m, n, x.keys[k].consumer);
    IssueToAuthenticate(history, g, requests, n, environment, raw, loaded, now);
    LoadedCredentials(history, g, requests, n, environment, loaded);
    LedgerAlwaysSound(history, g, requests, n);
    var accepted := Authenticate(LoadedSnapshot(history[n], g, environment, loaded).value, g, raw, now);
    if accepted.Some? {
      RawFormsAreUnique(x, g, Ledger(history, g, requests, n), raw, accepted.value.id, k);
    }
  }

  // ------------------------------------------------------------------- keys

  /** What a request wrote of a key stays for good, but for its revocation. */
  lemma KeysStayAsWritten(history: seq<Database>, g: Settings, requests: seq<Request>, i: nat, n: nat, k: Id)
    requires Sane(g) && IsRun(history, g, requests) && |history| == |requests| + 1 && i < n < |history|
    requires Writes(history[i], g, requests[i], AKey(k))
    ensures k in history[n].access.keys && KeySays(history[i], g, requests[i], history[n].access.keys[k])
  {
    hide IsRun, Sane, Writes, StepMeans, Fits, NumbersFresh;
    RunStep(history, g, requests, i + 1);
    RunFits(history, g, requests, i);
    EveryStepMeans(history[i], g, requests[i], AKey(k));
    KeyWritten(history[i], g, requests[i], history[i + 1], k);
    KeysAreKept(history, g, requests, i + 1, n);
    KeySayingStays(history[i], g, requests[i], history[i + 1].access.keys[k], history[n].access.keys[k]);
  }

  lemma KeyWritten(db: Database, g: Settings, r: Request, n: Database, k: Id)
    requires Writes(db, g, r, AKey(k)) && StepMeans(db, g, r, n, AKey(k))
    ensures k in n.access.keys && KeySays(db, g, r, n.access.keys[k])
  {
    hide Succeeds, KeySays;
  }

  lemma KeySayingStays(db: Database, g: Settings, r: Request, a: KeyRow, b: KeyRow)
    requires KeySays(db, g, r, a) && b == a.(revokedAt := b.revokedAt)
    ensures KeySays(db, g, r, b)
  {
    hide RawKey;
  }

  lemma RotationWrites(db: Database, g: Settings, r: Request)
    requires r.op.DoRotateKey? && Succeeds(db, g, r)
    ensures Writes(db, g, r, AKey(r.op.newId)) && Writes(db, g, r, ARevocation(r.op.id)) && r.op.id in db.access.keys
  {
  }

  /** A rotation makes a link, for good: in every later state the new key's history is the old one's with the new key in front,
      and both have one origin, one consumer and one expiry. */
  lemma RotationExtendsTheChain(history: seq<Database>, g: Settings, requests: seq<Request>, i: nat, n: nat)
    requires Sane(g) && IsRun(history, g, requests) && |history| == |requests| + 1 && i < n < |history|
    requires requests[i].op.DoRotateKey? && Succeeds(history[i], g, requests[i])
    ensures var x, ledger, id, newId := history[n].access, Ledger(history, g, requests, n), requests[i].op.id, requests[i].op.newId;
      && LedgerSound(x, g, ledger) && id in x.keys && newId in x.keys
      && KeyChains.History(x, g, ledger, newId) == [newId] + KeyChains.History(x, g, ledger, id)
      && Origin(x, g, ledger, newId) == Origin(x, g, ledger, id)
      && x.keys[newId].consumer == x.keys[id].consumer && x.keys[newId].expiresAt == x.keys[id].expiresAt
      && x.keys[newId].rotatedFrom == Some(id) && x.keys[newId].name == x.keys[id].name + " rotation"
  {
    hide IsRun, Sane, Writes, Succeeds, LedgerSound;
    RotationWrites(history[i], g, requests[i]);
    KeysStayAsWritten(history, g, requests, i, n, requests[i].op.newId);
    KeysAreKept(history, g, requests, i, n);
    LedgerAlwaysSound(history, g, requests, n);
    RunStarts(history, g, requests);
    LinkedHistory(history[n].access, g, Ledger(history, g, requests, n), requests[i].op.newId, requests[i].op.id);
  }

  lemma LinkedHistory(x: Access, g: Settings, ledger: seq<Issued>, newId: Id, id: Id)
    requires LedgerSound(x, g, ledger) && newId in x.keys && id in x.keys && x.keys[newId].rotatedFrom == Some(id)
    ensures KeyChains.History(x, g, ledger, newId) == [newId] + KeyChains.History(x, g, ledger, id)
    ensures Origin(x, g, ledger, newId) == Origin(x, g, ledger, id)
  {
    hide LedgerSound;
    PredecessorIsOlder(x, g, ledger, newId);
  }

  lemma IssueWrites(db: Database, g: Settings, r: Request)
    requires r.op.DoIssueKey? && Succeeds(db, g, r)
    ensures Writes(db, g, r, AKey(r.op.id))
  {
    hide Succeeds;
  }

  /** An issued key starts a chain of its own, with the consumer and the expiry it was asked for. */
  lemma IssueStartsAChain(history: seq<Database>, g: Settings, requests: seq<Request>, i: nat, n: nat)
    requires Sane(g) && IsRun(history, g, requests) && |history| == |requests| + 1 && i < n < |history|
    requires requests[i].op.DoIssueKey? && Succeeds(history[i], g, requests[i])
    ensures var x, ledger, id := history[n].access, Ledger(history, g, requests, n), requests[i].op.id;
      && LedgerSound(x, g, ledger) && id in x.keys
      && KeyChains.History(x, g, ledger, id) == [id] && Origin(x, g, ledger, id) == id
      && x.keys[id].consumer == requests[i].op.consumer && x.keys[id].expiresAt == requests[i].op.expiresAt
  {
    hide IsRun, Sane, Writes, Succeeds, LedgerSound;
    IssueWrites(history[i], g, requests[i]);
    KeysStayAsWritten(history, g, requests, i, n, requests[i].op.id);
    LedgerAlwaysSound(history, g, requests, n);
    RunStarts(history, g, requests);
    IssuedHistory(history[n].access, g, Ledger(history, g, requests, n), requests[i].op.id);
  }

  lemma IssuedHistory(x: Access, g: Settings, ledger: seq<Issued>, id: Id)
    requires LedgerSound(x, g, ledger) && id in x.keys && x.keys[id].rotatedFrom == None
    ensures KeyChains.History(x, g, ledger, id) == [id] && Origin(x, g, ledger, id) == id
  {
    hide LedgerSound;
  }
}
