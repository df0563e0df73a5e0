/** API keys over a run: the raw keys handed out, and the chains that rotation builds. */
module KeyChains {
  import opened Prelude
  import opened Tables
  import opened ControlPlane
  import opened Frames
  import opened TableRules

  /** A raw key shown once to an administrator. */
  datatype Issued = Issued(id: Id, raw: string)

  /** What a committed request hands out. */
  function HandedOut(db: Database, g: Settings, r: Request): seq<Issued> {
    if Apply(db, g, r.environment, r.op, r.now).Err? then []
    else
      match r.op
      case DoIssueKey(id, _, secret, _, _, _) => [Issued(id, RawKey(secret))]
      case DoRotateKey(_, newId, secret) => [Issued(newId, RawKey(secret))]
      case _ => []
  }

  /** Every raw key handed out before state n, in order. */
  ghost function Ledger(history: seq<Database>, g: Settings, requests: seq<Request>, n: nat): seq<Issued>
    requires n < |history| == |requests| + 1
  {
    if n == 0 then [] else Ledger(history, g, requests, n - 1) + HandedOut(history[n - 1], g, requests[n - 1])
  }

  ghost predicate KeyMatches(g: Settings, row: KeyRow, raw: string) {
    exists secret: Secret :: raw == RawKey(secret) && row.prefix == secret[..12] && row.verifier == g.mac(raw)
  }

  /** A key's predecessor: an older entry of the ledger, already revoked, of the same consumer and expiry. */
  ghost predicate LinkOk(x: Access, ledger: seq<Issued>, i: nat)
    requires i < |ledger| && ledger[i].id in x.keys
  {
    var row := x.keys[ledger[i].id];
    row.rotatedFrom.Some? ==> exists j: nat :: LinksTo(x, ledger, i, j)
  }

  ghost predicate LinksTo(x: Access, ledger: seq<Issued>, i: nat, j: nat)
    requires i < |ledger| && ledger[i].id in x.keys
  {
    var row := x.keys[ledger[i].id];
    j < i && row.rotatedFrom == Some(ledger[j].id) && ledger[j].id in x.keys
      && x.keys[ledger[j].id].revokedAt.Some?
      && x.keys[ledger[j].id].consumer == row.consumer && x.keys[ledger[j].id].expiresAt == row.expiresAt
  }

  ghost predicate LedgerCovers(x: Access, ledger: seq<Issued>) {
    && (forall i | 0 <= i < |ledger| :: ledger[i].id in x.keys)
    && (forall k | k in x.keys :: exists i :: 0 <= i < |ledger| && ledger[i].id == k)
    && (forall i, j | 0 <= i < j < |ledger| :: ledger[i].id != ledger[j].id)
  }

  ghost predicate LedgerSound(x: Access, g: Settings, ledger: seq<Issued>) {
    && LedgerCovers(x, ledger)
    && (forall i | 0 <= i < |ledger| :: KeyMatches(g, x.keys[ledger[i].id], ledger[i].raw))
    && (forall i: nat | i < |ledger| :: LinkOk(x, ledger, i))
    && (forall j, k | j in x.keys && k in x.keys && x.keys[j].rotatedFrom.Some? && x.keys[j].rotatedFrom == x.keys[k].rotatedFrom :: j == k)
  }

  // ---------------------------------------------------------- every request

  /** Keys only ever gain a revocation time. */
  ghost predicate KeysKept(x: Access, y: Access) {
    forall k | k in x.keys :: k in y.keys
      && y.keys[k] == x.keys[k].(revokedAt := y.keys[k].revokedAt)
      && (x.keys[k].revokedAt.Some? ==> y.keys[k].revokedAt == x.keys[k].revokedAt)
  }

  lemma LinksSurvive(x: Access, y: Access, ledger: seq<Issued>, more: seq<Issued>, i: nat)
    requires KeysKept(x, y) && i < |ledger| && ledger[i].id in x.keys && LinkOk(x, ledger, i)
    ensures LinkOk(y, ledger + more, i)
  {
    if x.keys[ledger[i].id].rotatedFrom.Some? {
      var j: nat :| LinksTo(x, ledger, i, j);
      assert LinksTo(y, ledger + more, i, j);
    }
  }

  lemma SameKeysKeep(x: Access, y: Access, g: Settings, ledger: seq<Issued>)
    requires LedgerSound(x, g, ledger) && KeysKept(x, y) && y.keys.Keys == x.keys.Keys
    ensures LedgerSound(y, g, ledger)
  {
    forall i: nat | i < |ledger| ensures LinkOk(y, ledger, i) {
      LinksSurvive(x, y, ledger, [], i);
      assert ledger + [] == ledger;
    }
    forall i | 0 <= i < |ledger| ensures KeyMatches(g, y.keys[ledger[i].id], ledger[i].raw) {
      assert KeyMatches(g, x.keys[ledger[i].id], ledger[i].raw);
    }
  }

  /** y is x with one new key, which may succeed a key that was live in x and is revoked in y. */
  ghost predicate AddsKey(x: Access, y: Access, id: Id) {
    && KeysKept(x, y) && id !in x.keys && y.keys.Keys == x.keys.Keys + {id}
    && (y.keys[id].rotatedFrom.Some? ==>
      && var p := y.keys[id].rotatedFrom.value;
      && p in x.keys && x.keys[p].revokedAt == None && y.keys[p].revokedAt.Some?
      && y.keys[p].consumer == y.keys[id].consumer && y.keys[p].expiresAt == y.keys[id].expiresAt)
  }

  lemma NewKeyIsCovered(x: Access, y: Access, ledger: seq<Issued>, entry: Issued)
    requires LedgerCovers(x, ledger) && AddsKey(x, y, entry.id)
    ensures LedgerCovers(y, ledger + [entry])
  {
    var next := ledger + [entry];
    forall k | k in y.keys ensures exists i :: 0 <= i < |next| && next[i].id == k {
      if k == entry.id { assert next[|ledger|].id == k; }
      else { var i :| 0 <= i < |ledger| && ledger[i].id == k; assert next[i].id == k; }
    }
  }

  lemma NewKeyLinks(x: Access, y: Access, g: Settings, ledger: seq<Issued>, entry: Issued, i: nat)
    requires LedgerSound(x, g, ledger) && AddsKey(x, y, entry.id) && i <= |ledger|
    requires LedgerCovers(y, ledger + [entry])
    ensures LinkOk(y, ledger + [entry], i)
  {
    var next := ledger + [entry];
    if i < |ledger| {
      LinksSurvive(x, y, ledger, [entry], i);
    } else if y.keys[entry.id].rotatedFrom.Some? {
      var j: nat :| j < |ledger| && ledger[j].id == y.keys[entry.id].rotatedFrom.value;
      assert LinksTo(y, next, i, j);
    }
  }

  lemma NewKeyIsAFreshSuccessor(x: Access, y: Access, g: Settings, ledger: seq<Issued>, id: Id, k: Id)
    requires LedgerSound(x, g, ledger) && AddsKey(x, y, id) && k in x.keys && x.keys[k].rotatedFrom.Some?
    ensures x.keys[k].rotatedFrom != y.keys[id].rotatedFrom
  {
    var i: nat :| i < |ledger| && ledger[i].id == k;
    assert LinkOk(x, ledger, i);
    var j: nat :| LinksTo(x, ledger, i, j);
  }

  lemma NewKeyMatches(x: Access, y: Access, g: Settings, ledger: seq<Issued>, entry: Issued, i: nat)
    requires LedgerSound(x, g, ledger) && AddsKey(x, y, entry.id) && KeyMatches(g, y.keys[entry.id], entry.raw) && i <= |ledger|
    ensures var next := ledger + [entry]; next[i].id in y.keys && KeyMatches(g, y.keys[next[i].id], next[i].raw)
  {
    hide LinkOk;
    if i < |ledger| { assert KeyMatches(g, x.keys[ledger[i].id], ledger[i].raw); }
  }

  lemma NewKeyKeeps(x: Access, y: Access, g: Settings, ledger: seq<Issued>, entry: Issued)
    requires LedgerSound(x, g, ledger) && AddsKey(x, y, entry.id) && KeyMatches(g, y.keys[entry.id], entry.raw)
    ensures LedgerSound(y, g, ledger + [entry])
  {
    hide LinkOk, KeyMatches;
    var next := ledger + [entry];
    NewKeyIsCovered(x, y, ledger, entry);
    forall i: nat | i < |next| ensures LinkOk(y, next, i) { NewKeyLinks(x, y, g, ledger, entry, i); }
    forall i: nat | i < |next| ensures KeyMatches(g, y.keys[next[i].id], next[i].raw) { NewKeyMatches(x, y, g, ledger, entry, i); }
    forall k | k in x.keys && x.keys[k].rotatedFrom.Some? ensures x.keys[k].rotatedFrom != y.keys[entry.id].rotatedFrom {
      NewKeyIsAFreshSuccessor(x, y, g, ledger, entry.id, k);
    }
  }

  lemma IssuingExtends(db: Database, g: Settings, r: Request, ledger: seq<Issued>)
    requires LedgerSound(db.access, g, ledger) && r.op.DoIssueKey?
    ensures LedgerSound(Next(db, g, r).access, g, ledger + HandedOut(db, g, r))
  {
    hide LedgerSound, PrefixTaken;
    var x, y := db.access, Next(db, g, r).access;
    if Apply(db, g, r.environment, r.op, r.now).Ok? {
      assert AddsKey(x, y, r.op.id);
      assert KeyMatches(g, y.keys[r.op.id], RawKey(r.op.secret));
      NewKeyKeeps(x, y, g, ledger, Issued(r.op.id, RawKey(r.op.secret)));
    } else {
      assert ledger + [] == ledger;
    }
  }

  lemma RotatingExtends(db: Database, g: Settings, r: Request, ledger: seq<Issued>)
    requires LedgerSound(db.access, g, ledger) && r.op.DoRotateKey?
    ensures LedgerSound(Next(db, g, r).access, g, ledger + HandedOut(db, g, r))
  {
    hide LedgerSound, PrefixTaken;
    var x, y := db.access, Next(db, g, r).access;
    if Apply(db, g, r.environment, r.op, r.now).Ok? {
      assert AddsKey(x, y, r.op.newId);
      assert KeyMatches(g, y.keys[r.op.newId], RawKey(r.op.secret));
      NewKeyKeeps(x, y, g, ledger, Issued(r.op.newId, RawKey(r.op.secret)));
    } else {
      assert ledger + [] == ledger;
    }
  }

  lemma OthersKeepKeys(db: Database, g: Settings, r: Request)
    requires !r.op.DoIssueKey? && !r.op.DoRotateKey?
    ensures KeysKept(db.access, Next(db, g, r).access) && Next(db, g, r).access.keys.Keys == db.access.keys.Keys
    ensures HandedOut(db, g, r) == []
  {
    hide UpdatePortStatus, AllocateListener, Capture, CreateService, CreateUpstream, UpdateUpstream;
    EveryRequestHasAKind(r.op);
    if CatalogRequest(r.op) { CatalogFrame(db, g, r); }
    else if AssignmentRequest(r.op) { AssignmentFrame(db, g, r); }
    else if ConfigurationRequest(r.op) { ConfigurationFrame(db, g, r); }
  }

  lemma EveryRequestExtends(db: Database, g: Settings, r: Request, ledger: seq<Issued>)
    requires LedgerSound(db.access, g, ledger)
    ensures LedgerSound(Next(db, g, r).access, g, ledger + HandedOut(db, g, r))
  {
    if r.op.DoIssueKey? { IssuingExtends(db, g, r, ledger); }
    else if r.op.DoRotateKey? { RotatingExtends(db, g, r, ledger); }
    else {
      OthersKeepKeys(db, g, r);
      SameKeysKeep(db.access, Next(db, g, r).access, g, ledger);
      assert ledger + [] == ledger;
    }
  }

  lemma EmptyLedgerIsSound(db: Database, g: Settings)
    requires FreshSchema(db)
    ensures LedgerSound(db.access, g, [])
  {
  }

  lemma {:induction false} LedgerAlwaysSound(history: seq<Database>, g: Settings, requests: seq<Request>, n: nat)
    requires IsRun(history, g, requests) && n < |history|
    ensures LedgerSound(history[n].access, g, Ledger(history, g, requests, n))
  {
    hide IsRun, FreshSchema, LedgerSound, Next, HandedOut;
    RunStarts(history, g, requests);
    if n == 0 {
      EmptyLedgerIsSound(history[0], g);
    } else {
      RunStep(history, g, requests, n);
      LedgerAlwaysSound(history, g, requests, n - 1);
      EveryRequestExtends(history[n - 1], g, requests[n - 1], Ledger(history, g, requests, n - 1));
    }
  }

  lemma EveryRequestKeepsKeys(db: Database, g: Settings, r: Request)
    ensures KeysKept(db.access, Next(db, g, r).access)
  {
    if r.op.DoIssueKey? || r.op.DoRotateKey? {
      hide AssignPermissions, PrefixTaken, ConsumerIn;
    } else {
      hide Next;
      OthersKeepKeys(db, g, r);
    }
  }

  /** No key is ever removed or rewritten, and a revocation is final. */
  lemma {:induction false} KeysAreKept(history: seq<Database>, g: Settings, requests: seq<Request>, m: nat, n: nat)
    requires IsRun(history, g, requests) && m <= n < |history|
    ensures KeysKept(history[m].access, history[n].access)
    decreases n - m
  {
    hide Next, FreshSchema, IsRun;
    if m < n {
      RunStep(history, g, requests, n);
      KeysAreKept(history, g, requests, m, n - 1);
      EveryRequestKeepsKeys(history[n - 1], g, requests[n - 1]);
    }
  }

  // ------------------------------------------------------------------ chains

  ghost function PositionOf(x: Access, ledger: seq<Issued>, k: Id): (i: nat)
    requires LedgerCovers(x, ledger) && k in x.keys
    ensures i < |ledger| && ledger[i].id == k
  {
    var i: nat :| i < |ledger| && ledger[i].id == k;
    i
  }

  lemma PredecessorIsOlder(x: Access, g: Settings, ledger: seq<Issued>, k: Id)
    requires LedgerSound(x, g, ledger) && k in x.keys && x.keys[k].rotatedFrom.Some?
    ensures var p := x.keys[k].rotatedFrom.value;
      && p in x.keys && PositionOf(x, ledger, p) < PositionOf(x, ledger, k)
      && x.keys[p].revokedAt.Some? && x.keys[p].consumer == x.keys[k].consumer && x.keys[p].expiresAt == x.keys[k].expiresAt
  {
    var i := PositionOf(x, ledger, k);
    assert LinkOk(x, ledger, i);
    var j: nat :| LinksTo(x, ledger, i, j);
    assert PositionOf(x, ledger, ledger[j].id) == j;
  }

  /** The rotated-from links are acyclic: from a key back to the first of its chain. */
  ghost function History(x: Access, g: Settings, ledger: seq<Issued>, k: Id): (chain: seq<Id>)
    requires LedgerSound(x, g, ledger) && k in x.keys
    ensures chain != [] && chain[0] == k && forall i | 0 <= i < |chain| :: chain[i] in x.keys
    decreases PositionOf(x, ledger, k)
  {
    if x.keys[k].rotatedFrom == None then [k]
    else
      PredecessorIsOlder(x, g, ledger, k);
      [k] + History(x, g, ledger, x.keys[k].rotatedFrom.value)
  }

  ghost function Origin(x: Access, g: Settings, ledger: seq<Issued>, k: Id): Id
    requires LedgerSound(x, g, ledger) && k in x.keys
  {
    var chain := History(x, g, ledger, k);
    chain[|chain| - 1]
  }

  /** Along a chain consumer and expiry never change, and everything but the head has been revoked. */
  lemma {:induction false} ChainsShareOwnerAndExpiry(x: Access, g: Settings, ledger: seq<Issued>, k: Id, i: nat)
    requires LedgerSound(x, g, ledger) && k in x.keys && i < |History(x, g, ledger, k)|
    ensures var a := History(x, g, ledger, k)[i];
      && x.keys[a].consumer == x.keys[k].consumer && x.keys[a].expiresAt == x.keys[k].expiresAt
      && (i > 0 ==> x.keys[a].revokedAt.Some?)
    decreases i
  {
    if i > 0 {
      PredecessorIsOlder(x, g, ledger, k);
      ChainsShareOwnerAndExpiry(x, g, ledger, x.keys[k].rotatedFrom.value, i - 1);
    }
  }

  lemma {:induction false} SameDepthSameKey(x: Access, g: Settings, ledger: seq<Issued>, j: Id, k: Id)
    requires LedgerSound(x, g, ledger) && j in x.keys && k in x.keys
    requires Origin(x, g, ledger, j) == Origin(x, g, ledger, k)
    requires |History(x, g, ledger, j)| == |History(x, g, ledger, k)|
    ensures j == k
    decreases |History(x, g, ledger, j)|
  {
    if x.keys[j].rotatedFrom.Some? && x.keys[k].rotatedFrom.Some? {
      PredecessorIsOlder(x, g, ledger, j);
      PredecessorIsOlder(x, g, ledger, k);
      SameDepthSameKey(x, g, ledger, x.keys[j].rotatedFrom.value, x.keys[k].rotatedFrom.value);
    }
  }

  /** A key's d-th predecessor heads the rest of its history. */
  lemma {:induction false} HistoryDrops(x: Access, g: Settings, ledger: seq<Issued>, k: Id, d: nat)
    requires LedgerSound(x, g, ledger) && k in x.keys && d < |History(x, g, ledger, k)|
    ensures var a := History(x, g, ledger, k)[d];
      History(x, g, ledger, a) == History(x, g, ledger, k)[d..]
    decreases d
  {
    if d > 0 {
      hide LedgerSound, PositionOf;
      PredecessorIsOlder(x, g, ledger, k);
      HistoryDrops(x, g, ledger, x.keys[k].rotatedFrom.value, d - 1);
      assert History(x, g, ledger, k)[d..] == History(x, g, ledger, x.keys[k].rotatedFrom.value)[d - 1..];
    }
  }

  /** Chains are disjoint paths and at most the newest key of each is unrevoked. */
  lemma OneLiveKeyPerChain(x: Access, g: Settings, ledger: seq<Issued>, j: Id, k: Id)
    requires LedgerSound(x, g, ledger) && j in x.keys && k in x.keys
    requires Origin(x, g, ledger, j) == Origin(x, g, ledger, k)
    requires x.keys[j].revokedAt == None && x.keys[k].revokedAt == None
    ensures j == k
  {
    hide LedgerSound, History;
    var m, n := |History(x, g, ledger, j)|, |History(x, g, ledger, k)|;
    if m <= n {
      HistoryDrops(x, g, ledger, k, n - m);
      SameDepthSameKey(x, g, ledger, j, History(x, g, ledger, k)[n - m]);
      ChainsShareOwnerAndExpiry(x, g, ledger, k, n - m);
    } else {
      HistoryDrops(x, g, ledger, j, m - n);
      SameDepthSameKey(x, g, ledger, k, History(x, g, ledger, j)[m - n]);
      ChainsShareOwnerAndExpiry(x, g, ledger, j, m - n);
    }
  }

  /** In every reachable state at most one key of a chain is unrevoked, whatever was rotated before. */
  lemma AtMostOneLiveKeyEver(history: seq<Database>, g: Settings, requests: seq<Request>, n: nat, j: Id, k: Id)
    requires IsRun(history, g, requests) && n < |history|
    requires j in history[n].access.keys && k in history[n].access.keys
    requires history[n].access.keys[j].revokedAt == None && history[n].access.keys[k].revokedAt == None
    ensures var x, ledger := history[n].access, Ledger(history, g, requests, n);
      && LedgerSound(x, g, ledger)
      && (Origin(x, g, ledger, j) == Origin(x, g, ledger, k) ==> j == k)
  {
    LedgerAlwaysSound(history, g, requests, n);
    var x, ledger := history[n].access, Ledger(history, g, requests, n);
    if Origin(x, g, ledger, j) == Origin(x, g, ledger, k) { OneLiveKeyPerChain(x, g, ledger, j, k); }
  }

  ghost function Unrevoked(x: Access): set<Id> { set k | k in x.keys && x.keys[k].revokedAt == None }

  /** Rotation trades one live key for another. */
  lemma RotationKeepsTheNumberOfLiveKeys(
    db: Database, g: Settings, environment: string, id: Id, newId: Id, secret: Secret, now: nat)
    requires RotateKey(db, g, environment, id, newId, secret, now).Ok?
    ensures var x, y := db.access, RotateKey(db, g, environment, id, newId, secret, now).value.access;
      && Unrevoked(y) == Unrevoked(x) - {id} + {newId}
      && |Unrevoked(y)| == |Unrevoked(x)|
  {
    var x, y := db.access, RotateKey(db, g, environment, id, newId, secret, now).value.access;
    assert id in Unrevoked(x) && newId !in Unrevoked(x);
    assert Unrevoked(y) == Unrevoked(x) - {id} + {newId};
  }
}
