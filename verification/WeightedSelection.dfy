/** internal/dataplane/snapshot.go, SelectUpstreamWhere: ticket-based weighted
    round robin over the upstreams that are healthy and allowed. */
module WeightedSelection {
  import opened Arithmetic
  import opened Prelude
  import opened SnapshotCompiler

  const TwoTo64: nat := 0x1_0000_0000_0000_0000

  /** eligible[i]: upstream i was healthy and allowed when the pass looked at it. */
  predicate Matches(upstreams: seq<Upstream>, eligible: seq<bool>) {
    |eligible| == |upstreams| && forall u | u in upstreams :: u.weight >= 1
  }

  /** The weight of the eligible upstreams before position i. */
  function Before(upstreams: seq<Upstream>, eligible: seq<bool>, i: nat): (w: nat)
    requires Matches(upstreams, eligible) && i <= |upstreams|
  {
    if i == 0 then 0
    else Before(upstreams, eligible, i - 1) + if eligible[i - 1] then upstreams[i - 1].weight else 0
  }

  function Total(upstreams: seq<Upstream>, eligible: seq<bool>): nat
    requires Matches(upstreams, eligible)
  {
    Before(upstreams, eligible, |upstreams|)
  }

  /** Slot s of the round belongs to upstream i. */
  predicate Owns(upstreams: seq<Upstream>, eligible: seq<bool>, s: nat, i: nat)
    requires Matches(upstreams, eligible)
  {
    i < |upstreams| && eligible[i] && Before(upstreams, eligible, i) <= s < Before(upstreams, eligible, i) + upstreams[i].weight
  }

  lemma {:induction false} BeforeGrows(upstreams: seq<Upstream>, eligible: seq<bool>, i: nat, j: nat)
    requires Matches(upstreams, eligible) && i <= j <= |upstreams|
    ensures Before(upstreams, eligible, i) <= Before(upstreams, eligible, j)
  {
    if i < j { BeforeGrows(upstreams, eligible, i, j - 1); }
  }

  /** No slot has two owners. */
  lemma OwnerIsUnique(upstreams: seq<Upstream>, eligible: seq<bool>, s: nat, i: nat, j: nat)
    requires Matches(upstreams, eligible) && Owns(upstreams, eligible, s, i) && Owns(upstreams, eligible, s, j)
    ensures i == j
  {
    if i < j { BeforeGrows(upstreams, eligible, i + 1, j); }
    if j < i { BeforeGrows(upstreams, eligible, j + 1, i); }
  }

  lemma {:induction false} OwnerExists(upstreams: seq<Upstream>, eligible: seq<bool>, s: nat, n: nat)
    requires Matches(upstreams, eligible) && n <= |upstreams| && s < Before(upstreams, eligible, n)
    ensures exists i: nat :: i < n && Owns(upstreams, eligible, s, i)
  {
    if s < Before(upstreams, eligible, n - 1) {
      OwnerExists(upstreams, eligible, s, n - 1);
    } else {
      assert Owns(upstreams, eligible, s, n - 1);
    }
  }

  /** The upstream that owns slot s, none past the last slot. */
  ghost function Owner(upstreams: seq<Upstream>, eligible: seq<bool>, s: nat): (r: Option<nat>)
    requires Matches(upstreams, eligible)
    ensures forall i: nat :: r == Some(i) <==> Owns(upstreams, eligible, s, i)
    ensures r == None <==> s >= Total(upstreams, eligible)
  {
    if s >= Total(upstreams, eligible) then
      (assert forall i: nat | i < |upstreams| && Owns(upstreams, eligible, s, i) :: false by {
        forall i: nat | i < |upstreams| && Owns(upstreams, eligible, s, i) ensures false {
          BeforeGrows(upstreams, eligible, i + 1, |upstreams|);
        }
      }
      None)
    else
      OwnerExists(upstreams, eligible, s, |upstreams|);
      var i: nat :| Owns(upstreams, eligible, s, i);
      assert forall j: nat | Owns(upstreams, eligible, s, j) :: j == i by {
        forall j: nat | Owns(upstreams, eligible, s, j) ensures j == i { OwnerIsUnique(upstreams, eligible, s, i, j); }
      }
      Some(i)
  }

  class Balancer {
    const upstreams: seq<Upstream>
    var cursor: nat

    constructor (upstreams: seq<Upstream>)
      ensures this.upstreams == upstreams && cursor == 0
    {
      this.upstreams, cursor := upstreams, 0;
    }

    /** cursor.Add(1) - 1 on a 64-bit counter: the value before the addition, also when it wraps. */
    method TakeTicket() returns (ticket: nat)
      requires cursor < TwoTo64
      modifies this
      ensures ticket == old(cursor) && cursor == (old(cursor) + 1) % TwoTo64
    {
      cursor := (cursor + 1) % TwoTo64;
      ticket := (cursor + TwoTo64 - 1) % TwoTo64;
    }

    /** Health may change between the two passes: first and second are what each of them saw. Nothing is selected exactly
        when the first pass found no weight or the slot lies past the weight the second one finds. */
    method SelectUpstreamWhere(first: seq<bool>, second: seq<bool>) returns (r: Option<nat>)
      requires Matches(upstreams, first) && Matches(upstreams, second) && cursor < TwoTo64
      modifies this
      ensures cursor < TwoTo64
      ensures var total := Total(upstreams, first);
        if total == 0 then r == None && cursor == old(cursor)
        else r == Owner(upstreams, second, old(cursor) % total) && cursor == (old(cursor) + 1) % TwoTo64
      ensures r == None <==> Total(upstreams, first) == 0 || old(cursor) % Total(upstreams, first) >= Total(upstreams, second)
      ensures r.Some? ==> r.value < |upstreams| && second[r.value]
    {
      var total := 0;
      for i := 0 to |upstreams|
        invariant total == Before(upstreams, first, i)
      {
        if first[i] { total := total + upstreams[i].weight; }
      }
      if total == 0 { return None; }
      var ticket := TakeTicket();
      var selected := ticket % total;
      ghost var slot := selected;
      for i := 0 to |upstreams|
        invariant 0 <= selected && slot == Before(upstreams, second, i) + selected
      {
        if !second[i] { continue; }
        if selected < upstreams[i].weight {
          assert Owns(upstreams, second, slot, i);
          return Some(i);
        }
        selected := selected - upstreams[i].weight;
      }
      return None;
    }
  }

  /** With one fixed eligible set something eligible is always selected while there is weight. */
  lemma NeverNilWhileThereIsWeight(upstreams: seq<Upstream>, eligible: seq<bool>, ticket: nat)
    requires Matches(upstreams, eligible) && Total(upstreams, eligible) > 0
    ensures var r := Owner(upstreams, eligible, ticket % Total(upstreams, eligible));
      r.Some? && r.value < |upstreams| && eligible[r.value]
  {
    var s := ticket % Total(upstreams, eligible);
    var r := Owner(upstreams, eligible, s);
    assert Owns(upstreams, eligible, s, r.value);
  }

  // ------------------------------------------------- counting slots in a round

  /** How many of the n tickets from c on fall, modulo the round, in the w slots from b on. */
  ghost function Hits(c: nat, n: nat, b: nat, w: nat, round: nat): (h: nat)
    requires round > 0
    ensures h <= n
  {
    if n == 0 then 0 else Hits(c, n - 1, b, w, round) + if b <= (c + n - 1) % round < b + w then 1 else 0
  }

  lemma NoHits(c: nat, b: nat, w: nat, round: nat)
    requires round > 0
    ensures Hits(c, 0, b, w, round) == 0
  {
  }

  lemma OneRoundLater(t: nat, round: nat)
    requires round > 0
    ensures (t + round) % round == t % round
  {
    var q, m := t / round, t % round;
    Distributes(q, 1, round);
    RemainderIsUnique(t + round, round, q + 1, m);
  }

  lemma {:induction false} HitsSplit(c: nat, m: nat, n: nat, b: nat, w: nat, round: nat)
    requires round > 0
    ensures Hits(c, m + n, b, w, round) == Hits(c, m, b, w, round) + Hits(c + m, n, b, w, round)
  {
    if n > 0 { HitsSplit(c, m, n - 1, b, w, round); }
  }

  lemma {:induction false} HitsFromZero(n: nat, b: nat, w: nat, round: nat)
    requires round > 0 && b + w <= round && n <= round
    ensures Hits(0, n, b, w, round) == if n <= b then 0 else if n <= b + w then n - b else w
  {
    if n > 0 {
      HitsFromZero(n - 1, b, w, round);
      RemainderIsUnique(n - 1, round, 0, n - 1);
    }
  }

  /** Every full round, wherever it starts, gives an upstream exactly its weight. */
  lemma {:induction false} ExactlyTheWeightPerRound(c: nat, b: nat, w: nat, round: nat)
    requires round > 0 && b + w <= round
    ensures Hits(c, round, b, w, round) == w
  {
    if c == 0 {
      HitsFromZero(round, b, w, round);
    } else {
      ExactlyTheWeightPerRound(c - 1, b, w, round);
      HitsSplit(c - 1, 1, round - 1, b, w, round);
      HitsSplit(c, round - 1, 1, b, w, round);
      OneRoundLater(c - 1, round);
      assert Hits(c - 1, 1, b, w, round) == Hits(c + round - 1, 1, b, w, round);
      assert Hits(c, round - 1 + 1, b, w, round) == Hits(c, round, b, w, round);
    }
  }

  ghost function Least(q: nat, r: nat, w: nat, round: nat): int { q * w + if r + w > round then r + w - round else 0 }
  ghost function Most(q: nat, r: nat, w: nat): int { q * w + if w < r then w else r }

  lemma {:induction false} HitsBounds(c: nat, q: nat, r: nat, b: nat, w: nat, round: nat)
    requires round > 0 && b + w <= round && r < round
    ensures Least(q, r, w, round) <= Hits(c, q * round + r, b, w, round) <= Most(q, r, w)
    decreases q
  {
    hide Hits;
    ExactlyTheWeightPerRound(c, b, w, round);
    if q == 0 {
      HitsSplit(c, r, round - r, b, w, round);
    } else {
      HitsBounds(c + round, q - 1, r, b, w, round);
      Distributes(q - 1, 1, round);
      Distributes(q - 1, 1, w);
      HitsSplit(c, round, (q - 1) * round + r, b, w, round);
    }
  }

  // ----------------------------------------------------- callers in a race

  datatype Call = Waiting | Ticketed(ticket: nat) | Done(choice: Option<nat>)
  datatype Race = Race(cursor: nat, calls: seq<Call>)

  /** A call's two atomic moments: it takes its ticket, later it finishes its scan. */
  datatype Move = Take(call: nat) | Finish(call: nat)

  ghost predicate Moves(a: Race, b: Race, m: Move, upstreams: seq<Upstream>, eligible: seq<bool>)
    requires Matches(upstreams, eligible)
  {
    match m
    case Take(c) =>
      && c < |a.calls| && a.calls[c] == Waiting
      && b == Race((a.cursor + 1) % TwoTo64, a.calls[c := Ticketed(a.cursor)])
    case Finish(c) =>
      && c < |a.calls| && a.calls[c].Ticketed? && Total(upstreams, eligible) > 0
      && b == a.(calls := a.calls[c := Done(Owner(upstreams, eligible, a.calls[c].ticket % Total(upstreams, eligible)))])
  }

  ghost predicate MovesAt(races: seq<Race>, moves: seq<Move>, upstreams: seq<Upstream>, eligible: seq<bool>, i: nat)
    requires Matches(upstreams, eligible) && i < |moves| < |races|
  {
    Moves(races[i], races[i + 1], moves[i], upstreams, eligible)
  }

  ghost predicate IsRace(races: seq<Race>, moves: seq<Move>, upstreams: seq<Upstream>, eligible: seq<bool>)
    requires Matches(upstreams, eligible)
  {
    && |races| == |moves| + 1
    && (forall c | 0 <= c < |races[0].calls| :: races[0].calls[c] == Waiting)
    && forall i | 0 <= i < |moves| :: MovesAt(races, moves, upstreams, eligible, i)
  }

  ghost function Choice(call: Call, upstreams: seq<Upstream>, eligible: seq<bool>): Option<nat>
    requires Matches(upstreams, eligible) && Total(upstreams, eligible) > 0
  {
    match call
    case Waiting => None
    case Ticketed(t) => Owner(upstreams, eligible, t % Total(upstreams, eligible))
    case Done(choice) => choice
  }

  /** How many calls have chosen, or are bound to choose, upstream i. */
  ghost function Chosen(calls: seq<Call>, upstreams: seq<Upstream>, eligible: seq<bool>, i: nat): nat
    requires Matches(upstreams, eligible) && Total(upstreams, eligible) > 0
  {
    if calls == [] then 0
    else (if Choice(calls[0], upstreams, eligible) == Some(i) then 1 else 0) + Chosen(calls[1..], upstreams, eligible, i)
  }

  ghost function Started(calls: seq<Call>): nat {
    if calls == [] then 0 else (if calls[0] == Waiting then 0 else 1) + Started(calls[1..])
  }

  lemma {:induction false} ReplacingOne(
    calls: seq<Call>, c: nat, call: Call, upstreams: seq<Upstream>, eligible: seq<bool>, i: nat)
    requires Matches(upstreams, eligible) && Total(upstreams, eligible) > 0 && c < |calls|
    ensures Chosen(calls[c := call], upstreams, eligible, i) - Chosen(calls, upstreams, eligible, i)
      == (if Choice(call, upstreams, eligible) == Some(i) then 1 else 0) - (if Choice(calls[c], upstreams, eligible) == Some(i) then 1 else 0)
    ensures Started(calls[c := call]) - Started(calls) == (if call == Waiting then 0 else 1) - (if calls[c] == Waiting then 0 else 1)
  {
    if c == 0 {
      assert calls[c := call][1..] == calls[1..];
    } else {
      ReplacingOne(calls[1..], c - 1, call, upstreams, eligible, i);
      assert calls[c := call][1..] == calls[1..][c - 1 := call];
    }
  }

  lemma {:induction false} NobodyStarted(calls: seq<Call>, upstreams: seq<Upstream>, eligible: seq<bool>, i: nat)
    requires Matches(upstreams, eligible) && Total(upstreams, eligible) > 0
    requires forall c | 0 <= c < |calls| :: calls[c] == Waiting
    ensures Chosen(calls, upstreams, eligible, i) == 0 && Started(calls) == 0
  {
    if calls != [] { NobodyStarted(calls[1..], upstreams, eligible, i); }
  }

  lemma {:induction false} EverybodyStarted(calls: seq<Call>)
    ensures Started(calls) <= |calls|
    ensures (forall c | 0 <= c < |calls| :: calls[c] != Waiting) ==> Started(calls) == |calls|
  {
    if calls != [] { EverybodyStarted(calls[1..]); }
  }

  /** The tickets taken so far are the distinct numbers from c0 up to the cursor. */
  ghost predicate TicketsInOrder(r: Race, c0: nat) {
    && (forall c | 0 <= c < |r.calls| && r.calls[c].Ticketed? :: c0 <= r.calls[c].ticket < r.cursor)
    && (forall c, d | 0 <= c < d < |r.calls| && r.calls[c].Ticketed? && r.calls[d].Ticketed? :: r.calls[c].ticket != r.calls[d].ticket)
  }

  /** In every interleaving the calls that have begun hold the contiguous tickets from the first cursor on, and what they
      choose is what those tickets own. */
  lemma {:induction false} TicketsAreContiguous(
    races: seq<Race>, moves: seq<Move>, upstreams: seq<Upstream>, eligible: seq<bool>, n: nat, i: nat)
    requires Matches(upstreams, eligible) && Total(upstreams, eligible) > 0 && i < |upstreams| && eligible[i]
    requires IsRace(races, moves, upstreams, eligible) && n < |races|
    requires races[0].cursor + |races[0].calls| < TwoTo64
    ensures var r, c0 := races[n], races[0].cursor;
      && |r.calls| == |races[0].calls| && TicketsInOrder(r, c0) && CountsRight(r, upstreams, eligible, i, c0)
  {
    hide Before, Owner, Hits, Moves;
    EverybodyStarted(races[n].calls);
    if n == 0 {
      NobodyStarted(races[0].calls, upstreams, eligible, i);
      NoHits(races[0].cursor, Before(upstreams, eligible, i), upstreams[i].weight, Total(upstreams, eligible));
    } else {
      EverybodyStarted(races[n - 1].calls);
      TicketsAreContiguous(races, moves, upstreams, eligible, n - 1, i);
      assert MovesAt(races, moves, upstreams, eligible, n - 1);
      MoveKeepsCount(races[n - 1], races[n], moves[n - 1], upstreams, eligible, i, races[0].cursor);
      MoveKeepsOrder(races[n - 1], races[n], moves[n - 1], upstreams, eligible, races[0].cursor);
    }
  }

  ghost predicate CountsRight(r: Race, upstreams: seq<Upstream>, eligible: seq<bool>, i: nat, c0: nat)
    requires Matches(upstreams, eligible) && Total(upstreams, eligible) > 0 && i < |upstreams|
  {
    && r.cursor == c0 + Started(r.calls)
    && Chosen(r.calls, upstreams, eligible, i)
      == Hits(c0, Started(r.calls), Before(upstreams, eligible, i), upstreams[i].weight, Total(upstreams, eligible))
  }

  lemma MoveKeepsCount(a: Race, b: Race, m: Move, upstreams: seq<Upstream>, eligible: seq<bool>, i: nat, c0: nat)
    requires Matches(upstreams, eligible) && Total(upstreams, eligible) > 0 && i < |upstreams| && eligible[i]
    requires Moves(a, b, m, upstreams, eligible) && CountsRight(a, upstreams, eligible, i, c0) && c0 + |a.calls| < TwoTo64
    ensures CountsRight(b, upstreams, eligible, i, c0) && |b.calls| == |a.calls|
    ensures b.cursor == a.cursor + if m.Take? then 1 else 0
  {
    hide Before;
    ReplacingOne(a.calls, m.call, b.calls[m.call], upstreams, eligible, i);
    EverybodyStarted(b.calls);
    if m.Take? {
      var slot := a.cursor % Total(upstreams, eligible);
      assert Owner(upstreams, eligible, slot) == Some(i) <==> Owns(upstreams, eligible, slot, i);
    }
  }

  lemma MoveKeepsOrder(a: Race, b: Race, m: Move, upstreams: seq<Upstream>, eligible: seq<bool>, c0: nat)
    requires Matches(upstreams, eligible) && Moves(a, b, m, upstreams, eligible) && TicketsInOrder(a, c0)
    requires c0 <= a.cursor && b.cursor == a.cursor + if m.Take? then 1 else 0
    ensures TicketsInOrder(b, c0)
  {
    hide Before, Owner;
  }

  /** However many callers race, once all n = q * W + r of them have their answer an eligible upstream of weight w was chosen
      at least q * w + max(0, r + w - W) and at most q * w + min(w, r) times: exactly w times in every W calls. */
  lemma FairShare(
    races: seq<Race>, moves: seq<Move>, upstreams: seq<Upstream>, eligible: seq<bool>, i: nat, q: nat, r: nat)
    requires Matches(upstreams, eligible) && Total(upstreams, eligible) > 0 && i < |upstreams| && eligible[i]
    requires IsRace(races, moves, upstreams, eligible)
    requires races[0].cursor + |races[0].calls| < TwoTo64
    requires |races[0].calls| == q * Total(upstreams, eligible) + r && r < Total(upstreams, eligible)
    requires var calls := races[|races| - 1].calls; forall c | 0 <= c < |calls| :: calls[c].Done?
    ensures Least(q, r, upstreams[i].weight, Total(upstreams, eligible))
      <= Chosen(races[|races| - 1].calls, upstreams, eligible, i)
      <= Most(q, r, upstreams[i].weight)
  {
    var last := races[|races| - 1];
    TicketsAreContiguous(races, moves, upstreams, eligible, |races| - 1, i);
    EverybodyStarted(last.calls);
    BeforeGrows(upstreams, eligible, i + 1, |upstreams|);
    HitsBounds(races[0].cursor, q, r, Before(upstreams, eligible, i), upstreams[i].weight, Total(upstreams, eligible));
  }

  // ------------------------------------------------------- across swaps

  /** The share of the first n tickets of a new cursor that falls to the w slots from b on. */
  function Share(n: nat, b: nat, w: nat, round: nat): nat
    requires round > 0
  {
    (n / round) * w + if n % round <= b then 0 else if n % round <= b + w then n % round - b else w
  }

  lemma {:induction false} HitsFromANewCursor(c: nat, q: nat, r: nat, b: nat, w: nat, round: nat)
    requires round > 0 && b + w <= round && r < round && c == q * round
    ensures Hits(0, c + r, b, w, round) == q * w + if r <= b then 0 else if r <= b + w then r - b else w
    decreases q
  {
    hide Hits;
    if q == 0 {
      HitsFromZero(r, b, w, round);
    } else {
      Distributes(q - 1, 1, round);
      Distributes(q - 1, 1, w);
      HitsFromANewCursor((q - 1) * round, q - 1, r, b, w, round);
      HitsSplit(0, (q - 1) * round + r, round, b, w, round);
      ExactlyTheWeightPerRound((q - 1) * round + r, b, w, round);
    }
  }

  lemma NewCursorShare(n: nat, b: nat, w: nat, round: nat)
    requires round > 0 && b + w <= round
    ensures Hits(0, n, b, w, round) == Share(n, b, w, round)
  {
    hide Hits;
    var q, r := n / round, n % round;
    assert n == q * round + r;
    HitsFromANewCursor(q * round, q, r, b, w, round);
  }

  /** A snapshot's listener as one upstream sees it: the requests it served before the next swap, the weight that comes before
      the upstream, its own, and the total. Every swap makes new listeners, whose cursors start at zero. */
  datatype Epoch = Epoch(served: nat, before: nat, weight: nat, round: nat) {
    predicate Sensible() { weight > 0 && before + weight <= round }
  }

  predicate AllSensible(epochs: seq<Epoch>) { forall k | 0 <= k < |epochs| :: epochs[k].Sensible() }

  /** How often the upstream was chosen over all of them. */
  ghost function HitsOverSwaps(epochs: seq<Epoch>): nat
    requires AllSensible(epochs)
  {
    if epochs == [] then 0
    else Hits(0, epochs[0].served, epochs[0].before, epochs[0].weight, epochs[0].round) + HitsOverSwaps(epochs[1..])
  }

  function SharesOf(epochs: seq<Epoch>): nat
    requires AllSensible(epochs)
  {
    if epochs == [] then 0
    else Share(epochs[0].served, epochs[0].before, epochs[0].weight, epochs[0].round) + SharesOf(epochs[1..])
  }

  lemma ShareIsNoneIff(n: nat, b: nat, w: nat, round: nat)
    requires w > 0 && b + w <= round
    ensures Share(n, b, w, round) == 0 <==> n <= b
  {
    var q, m := n / round, n % round;
    if n <= b {
      RemainderIsUnique(n, round, 0, n);
    } else if q > 0 {
      ProductGrows(1, q, w);
    }
  }

  /** Over any swaps an upstream gets the sum of its shares, and nothing at all if and only if no snapshot lives to serve more
      requests than the weight that comes before it: frequent swaps starve the upstreams with the later ids. */
  lemma {:induction false} SwapsRestartTheRound(epochs: seq<Epoch>)
    requires AllSensible(epochs)
    ensures HitsOverSwaps(epochs) == SharesOf(epochs)
    ensures HitsOverSwaps(epochs) == 0 <==> forall k | 0 <= k < |epochs| :: epochs[k].served <= epochs[k].before
  {
    hide Hits, Share;
    if epochs != [] {
      var e := epochs[0];
      assert epochs == [e] + epochs[1..];
      NewCursorShare(e.served, e.before, e.weight, e.round);
      ShareIsNoneIff(e.served, e.before, e.weight, e.round);
      SwapsRestartTheRound(epochs[1..]);
    }
  }

  /** The racing callers of one snapshot get exactly that share, from its first request on. */
  lemma NewListenersShare(
    races: seq<Race>, moves: seq<Move>, upstreams: seq<Upstream>, eligible: seq<bool>, i: nat)
    requires Matches(upstreams, eligible) && Total(upstreams, eligible) > 0 && i < |upstreams| && eligible[i]
    requires IsRace(races, moves, upstreams, eligible)
    requires races[0].cursor == 0 && |races[0].calls| < TwoTo64
    requires var calls := races[|races| - 1].calls; forall c | 0 <= c < |calls| :: calls[c].Done?
    ensures Chosen(races[|races| - 1].calls, upstreams, eligible, i)
      == Share(|races[0].calls|, Before(upstreams, eligible, i), upstreams[i].weight, Total(upstreams, eligible))
  {
    var last := races[|races| - 1];
    TicketsAreContiguous(races, moves, upstreams, eligible, |races| - 1, i);
    EverybodyStarted(last.calls);
    BeforeGrows(upstreams, eligible, i + 1, |upstreams|);
    NewCursorShare(|races[0].calls|, Before(upstreams, eligible, i), upstreams[i].weight, Total(upstreams, eligible));
  }
}
