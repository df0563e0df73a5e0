/** internal/coordination/redis.go: the shared circuit of one upstream, against
    the sequence of results reported for it. */
module CircuitBreaker {
  import opened Prelude
  import opened RedisStore

  /** One reported result of an upstream. */
  datatype Report = Report(time: nat, success: bool)

  /** The listener's threshold and duration in milliseconds, the same for every report of the upstream. */
  datatype Rule = Rule(threshold: nat, duration: nat)

  ghost predicate InOrder(h: seq<Report>) { forall i, j | 0 <= i < j < |h| :: h[i].time <= h[j].time }

  // ------------------------------------------------ the history-defined state

  /** The report that opened the window report m, a failure, is counted in. */
  function WindowOf(h: seq<Report>, m: nat, rule: Rule): (s: nat)
    requires m < |h|
    ensures s <= m
    decreases m, 1
  {
    match Window(h, m, rule)
    case None => m
    case Some(s) => if h[m].time < h[s].time + rule.duration then s else m
  }

  /** Report m trips the circuit: a failure, and with it the reports of its window are threshold many. */
  predicate Trips(h: seq<Report>, m: nat, rule: Rule)
    requires m < |h|
    decreases m, 2
  {
    !h[m].success && m + 1 - WindowOf(h, m, rule) >= rule.threshold
  }

  /** The window open after the first n reports. */
  function Window(h: seq<Report>, n: nat, rule: Rule): (r: Option<nat>)
    requires n <= |h|
    ensures r.Some? ==> r.value < n
    decreases n, 0
  {
    if n == 0 || h[n - 1].success || Trips(h, n - 1, rule) then None else Some(WindowOf(h, n - 1, rule))
  }

  /** The circuit is open at t: some report tripped it less than duration ago. */
  ghost predicate IsOpen(h: seq<Report>, rule: Rule, t: nat) {
    exists m :: 0 <= m < |h| && Trips(h, m, rule) && h[m].time <= t < h[m].time + rule.duration
  }

  // ----------------------------------------------------- what Redis must hold

  ghost predicate LastTrip(h: seq<Report>, rule: Rule, m: nat) {
    m < |h| && Trips(h, m, rule) && forall k | m < k < |h| :: !Trips(h, k, rule)
  }

  /** The failure counter is there exactly while a window is open, counts its reports and always carries an expiry; the
      open marker carries the expiry of the last trip. */
  ghost predicate Represents(
    entries: map<Key, Entry>, environment: string, upstream: string, h: seq<Report>, rule: Rule) {
    var failures, open := Failures(environment, upstream), Open(environment, upstream);
    && (match Window(h, |h|, rule)
        case None => failures !in entries
        case Some(s) => failures in entries && entries[failures] == Entry(|h| - s, Some(h[s].time + rule.duration)))
    && (open in entries ==> exists m: nat :: LastTrip(h, rule, m) && entries[open].expiry == Some(h[m].time + rule.duration))
    && (open !in entries ==> forall m | 0 <= m < |h| :: !Trips(h, m, rule))
  }

  lemma NothingReported(environment: string, upstream: string, rule: Rule)
    ensures Represents(map[], environment, upstream, [], rule)
  {
  }

  /** Commands on other keys, those of other upstreams among them, leave this circuit as it is. */
  lemma OtherKeysDoNotMatter(
    a: map<Key, Entry>, b: map<Key, Entry>, keys: set<Key>, environment: string, upstream: string, h: seq<Report>, rule: Rule)
    requires Represents(a, environment, upstream, h, rule) && OnlyTouches(a, b, keys)
    requires Failures(environment, upstream) !in keys && Open(environment, upstream) !in keys
    ensures Represents(b, environment, upstream, h, rule)
  {
  }

  /** What was decided about the first reports does not depend on later ones. */
  lemma {:induction false} WindowOfPrefix(h: seq<Report>, r: Report, n: nat, rule: Rule)
    requires n <= |h|
    ensures Window(h + [r], n, rule) == Window(h, n, rule)
    ensures n < |h| ==> WindowOf(h + [r], n, rule) == WindowOf(h, n, rule) && Trips(h + [r], n, rule) == Trips(h, n, rule)
    decreases n
  {
    if n > 0 { WindowOfPrefix(h, r, n - 1, rule); }
  }

  lemma TripsOfPrefix(h: seq<Report>, r: Report, rule: Rule)
    ensures forall m | 0 <= m < |h| :: Trips(h + [r], m, rule) == Trips(h, m, rule)
    ensures Window(h + [r], |h|, rule) == Window(h, |h|, rule)
  {
    forall m: nat | m <= |h| ensures m < |h| ==> Trips(h + [r], m, rule) == Trips(h, m, rule) { WindowOfPrefix(h, r, m, rule); }
    WindowOfPrefix(h, r, |h|, rule);
  }

  // ------------------------------------------------------------- the methods

  /** RecordUpstream: one DEL after a success, the failure script otherwise. */
  method RecordUpstream(
    redis: Redis, environment: string, upstream: string, success: bool, rule: Rule, ghost h: seq<Report>)
    requires rule.threshold > 0 && rule.duration > 0
    requires h != [] ==> h[|h| - 1].time <= redis.clock
    requires Represents(redis.entries, environment, upstream, h, rule)
    modifies redis`entries
    ensures Represents(redis.entries, environment, upstream, h + [Report(redis.clock, success)], rule)
    ensures OnlyTouches(old(redis.entries), redis.entries, {Failures(environment, upstream), Open(environment, upstream)})
  {
    hide Represents, OnlyTouches;
    ghost var before := redis.entries;
    if success {
      redis.Del(Failures(environment, upstream));
      SuccessIsRecorded(before, redis.entries, environment, upstream, h, redis.clock, rule);
    } else {
      var count := RunFailureScript(redis, Failures(environment, upstream), Open(environment, upstream), rule);
      FailureIsRecorded(before, redis.entries, environment, upstream, h, redis.clock, rule, count);
    }
  }

  lemma SuccessIsRecorded(
    a: map<Key, Entry>, b: map<Key, Entry>, environment: string, upstream: string, h: seq<Report>, now: nat, rule: Rule)
    requires Represents(a, environment, upstream, h, rule) && b == a - {Failures(environment, upstream)}
    ensures Represents(b, environment, upstream, h + [Report(now, true)], rule)
    ensures OnlyTouches(a, b, {Failures(environment, upstream), Open(environment, upstream)})
  {
    hide WindowOf;
    var next := h + [Report(now, true)];
    TripsOfPrefix(h, Report(now, true), rule);
    SameTripsLater(h, next, rule);
  }

  /** The store after the failure script. */
  ghost predicate RanScript(
    a: map<Key, Entry>, b: map<Key, Entry>, failures: Key, open: Key, rule: Rule, now: nat, count: nat) {
    && count == (if Live(a, failures, now) then a[failures].value + 1 else 1)
    && (count > 1 ==> failures in a)
    && b == if count >= rule.threshold
       then a[open := Entry(1, Some(now + rule.duration))] - {failures}
       else a[failures := Entry(count, if count == 1 then Some(now + rule.duration) else a[failures].expiry)]
  }

  lemma FailureIsRecorded(
    a: map<Key, Entry>, b: map<Key, Entry>, environment: string, upstream: string, h: seq<Report>, now: nat, rule: Rule, count: nat)
    requires Represents(a, environment, upstream, h, rule)
    requires RanScript(a, b, Failures(environment, upstream), Open(environment, upstream), rule, now, count)
    ensures Represents(b, environment, upstream, h + [Report(now, false)], rule)
    ensures OnlyTouches(a, b, {Failures(environment, upstream), Open(environment, upstream)})
  {
    hide WindowOf;
    var next := h + [Report(now, false)];
    TripsOfPrefix(h, Report(now, false), rule);
    FailureWindow(h, next, rule);
    assert count == |next| - WindowOf(next, |h|, rule);
    if Trips(next, |h|, rule) { assert LastTrip(next, rule, |h|); } else { SameTripsLater(h, next, rule); }
  }

  lemma SameTripsLater(h: seq<Report>, next: seq<Report>, rule: Rule)
    requires |next| == |h| + 1 && next[..|h|] == h && !Trips(next, |h|, rule)
    requires forall m | 0 <= m < |h| :: Trips(next, m, rule) == Trips(h, m, rule)
    ensures forall m :: LastTrip(h, rule, m) <==> LastTrip(next, rule, m)
    ensures forall m | 0 <= m < |h| :: next[m] == h[m]
  {
    forall m | 0 <= m < |h| ensures next[m] == h[m] { assert next[..|h|][m] == h[m]; }
  }

  /** A further failure joins the open window unless that has expired. */
  lemma FailureWindow(h: seq<Report>, next: seq<Report>, rule: Rule)
    requires |next| == |h| + 1 && next[..|h|] == h && Window(next, |h|, rule) == Window(h, |h|, rule)
    ensures var w := Window(h, |h|, rule);
      WindowOf(next, |h|, rule) == if w.Some? && next[|h|].time < h[w.value].time + rule.duration then w.value else |h|
  {
    var w := Window(h, |h|, rule);
    if w.Some? { assert next[..|h|][w.value] == h[w.value]; }
  }

  /** circuitFailureScript. */
  method RunFailureScript(redis: Redis, failures: Key, open: Key, rule: Rule) returns (count: nat)
    requires failures != open && rule.duration > 0 && rule.threshold > 0
    modifies redis`entries
    ensures RanScript(old(redis.entries), redis.entries, failures, open, rule, redis.clock, count)
  {
    count := redis.Incr(failures);
    if count == 1 { redis.PExpire(failures, rule.duration); }
    if count >= rule.threshold {
      redis.SetPx(open, 1, rule.duration);
      redis.Del(failures);
    }
  }

  method CircuitOpen(
    redis: Redis, environment: string, upstream: string, rule: Rule, ghost h: seq<Report>) returns (open: bool)
    requires Represents(redis.entries, environment, upstream, h, rule) && InOrder(h)
    requires h != [] ==> h[|h| - 1].time <= redis.clock
    ensures open <==> IsOpen(h, rule, redis.clock)
  {
    open := redis.Exists(Open(environment, upstream));
    LatestTripDecides(h, rule, redis.clock);
  }

  lemma LatestTripDecides(h: seq<Report>, rule: Rule, t: nat)
    requires InOrder(h) && (h != [] ==> h[|h| - 1].time <= t)
    ensures forall m: nat :: LastTrip(h, rule, m) ==> (IsOpen(h, rule, t) <==> t < h[m].time + rule.duration)
  {
    forall m: nat | LastTrip(h, rule, m) ensures IsOpen(h, rule, t) <==> t < h[m].time + rule.duration {
      assert h[m].time <= h[|h| - 1].time;
      if IsOpen(h, rule, t) {
        var k :| 0 <= k < |h| && Trips(h, k, rule) && h[k].time <= t < h[k].time + rule.duration;
        assert k <= m;
      }
    }
  }

  // ----------------------------------------------------------- main theorems

  /** h[s..n] is an unbroken run of failures, all within duration of the first. */
  ghost predicate Burst(h: seq<Report>, s: nat, n: nat, duration: nat) {
    s <= n <= |h| && forall i | s <= i < n :: !h[i].success && h[s].time <= h[i].time < h[s].time + duration
  }

  /** After each step the open window holds fewer than threshold reports, all failures, all within the duration. */
  lemma {:induction false} WindowStaysBelowThreshold(h: seq<Report>, n: nat, rule: Rule)
    requires InOrder(h) && n <= |h| && rule.threshold > 0 && rule.duration > 0
    ensures var w := Window(h, n, rule); w.Some? ==> n - w.value < rule.threshold && Burst(h, w.value, n, rule.duration)
  {
    if n > 0 { WindowStaysBelowThreshold(h, n - 1, rule); }
  }

  /** A trip ends threshold failures in a row, all within the duration. */
  lemma TripMeansBurst(h: seq<Report>, m: nat, rule: Rule)
    requires InOrder(h) && m < |h| && Trips(h, m, rule) && rule.threshold > 0 && rule.duration > 0
    ensures m + 1 >= rule.threshold && Burst(h, m + 1 - rule.threshold, m + 1, rule.duration)
  {
    WindowStaysBelowThreshold(h, m, rule);
  }

  /** threshold reports in a row from s on, all failures, all within the two durations before t. */
  ghost predicate FailedInARow(h: seq<Report>, s: nat, rule: Rule, t: nat) {
    && s + rule.threshold <= |h|
    && forall i | s <= i < s + rule.threshold :: !h[i].success && t - 2 * rule.duration < h[i].time <= t
  }

  ghost predicate FailedRecently(h: seq<Report>, rule: Rule, t: nat) { exists s: nat :: FailedInARow(h, s, rule, t) }

  /** An open circuit had threshold failures in a row, no success among them, in the last two durations. */
  lemma OpenMeansRecentFailures(h: seq<Report>, rule: Rule, t: nat)
    requires InOrder(h) && rule.threshold > 0 && rule.duration > 0 && IsOpen(h, rule, t)
    ensures FailedRecently(h, rule, t)
  {
    var m :| 0 <= m < |h| && Trips(h, m, rule) && h[m].time <= t < h[m].time + rule.duration;
    TripMeansBurst(h, m, rule);
    var s: nat := m + 1 - rule.threshold;
    assert FailedInARow(h, s, rule, t);
  }

  /** How long a burst must be to trip the circuit whatever came before. */
  function EnoughFailures(threshold: nat): nat { if threshold <= 1 then 1 else 2 * threshold - 2 }

  /** Failures that neither trip nor start a new window stay in the old one. */
  lemma {:induction false} OldWindowFills(h: seq<Report>, a: nat, n: nat, rule: Rule)
    requires a <= n <= |h| && rule.threshold > 0 && Window(h, a, rule).Some?
    requires forall i | a <= i < n :: !h[i].success && !Trips(h, i, rule) && WindowOf(h, i, rule) != i
    ensures Window(h, n, rule) == Window(h, a, rule)
  {
    if a < n { OldWindowFills(h, a, n - 1, rule); }
  }

  /** A window that starts inside the burst takes all the rest of it. */
  lemma {:induction false} NewWindowFills(h: seq<Report>, b: nat, n: nat, rule: Rule)
    requires b < n <= |h| && Burst(h, b, n, rule.duration) && WindowOf(h, b, rule) == b
    requires forall i | b <= i < n :: !Trips(h, i, rule)
    ensures Window(h, n, rule) == Some(b)
  {
    if b + 1 < n { NewWindowFills(h, b, n - 1, rule); }
  }

  /** Enough failures in a row within one duration always leave the circuit open. */
  lemma LongBurstsTrip(h: seq<Report>, a: nat, n: nat, rule: Rule)
    requires InOrder(h) && rule.threshold > 0 && rule.duration > 0
    requires a + EnoughFailures(rule.threshold) <= n && Burst(h, a, n, rule.duration)
    ensures exists m :: a <= m < n && Trips(h, m, rule)
    ensures IsOpen(h, rule, h[n - 1].time)
  {
    if forall i | a <= i < n :: !Trips(h, i, rule) {
      var b := FirstNewWindow(h, a, n, rule);
      if b < n { LateWindow(h, a, b, n, rule); } else { OldWindowOverflows(h, a, n, rule); }
    }
    var m :| a <= m < n && Trips(h, m, rule);
    assert h[m].time <= h[n - 1].time < h[a].time + rule.duration <= h[m].time + rule.duration;
  }

  lemma {:induction false} FirstNewWindow(h: seq<Report>, a: nat, n: nat, rule: Rule) returns (b: nat)
    requires a <= n <= |h|
    ensures a <= b <= n && forall i | a <= i < b :: WindowOf(h, i, rule) != i
    ensures b < n ==> WindowOf(h, b, rule) == b
    decreases n - a
  {
    if a == n || WindowOf(h, a, rule) == a { return a; }
    b := FirstNewWindow(h, a + 1, n, rule);
  }

  lemma OldWindowOverflows(h: seq<Report>, a: nat, n: nat, rule: Rule)
    requires InOrder(h) && rule.threshold > 0 && rule.duration > 0
    requires a + EnoughFailures(rule.threshold) <= n && Burst(h, a, n, rule.duration)
    requires forall i | a <= i < n :: WindowOf(h, i, rule) != i
    ensures exists i :: a <= i < n && Trips(h, i, rule)
  {
    if forall i | a <= i < n :: !Trips(h, i, rule) {
      assert WindowOf(h, a, rule) != a;
      OldWindowFills(h, a, n, rule);
      WindowStaysBelowThreshold(h, n, rule);
    }
  }

  /** The old window can have swallowed at most threshold - 2 of the burst, and the new one would then be full. */
  lemma LateWindow(h: seq<Report>, a: nat, b: nat, n: nat, rule: Rule)
    requires InOrder(h) && rule.threshold > 0 && rule.duration > 0
    requires a + EnoughFailures(rule.threshold) <= n && Burst(h, a, n, rule.duration) && a <= b < n
    requires WindowOf(h, b, rule) == b && forall i | a <= i < b :: WindowOf(h, i, rule) != i
    ensures exists i :: a <= i < n && Trips(h, i, rule)
  {
    if forall i | a <= i < n :: !Trips(h, i, rule) {
      if a < b {
        assert WindowOf(h, a, rule) != a;
        OldWindowFills(h, a, b, rule);
        WindowStaysBelowThreshold(h, b, rule);
      }
      NewWindowFills(h, b, n, rule);
      WindowStaysBelowThreshold(h, n, rule);
    }
  }

  /** The bound is the best possible: one failure fewer in a row, all within one millisecond, can leave the circuit closed,
      because the counter's window is fixed by its first failure. */
  function Straddling(rule: Rule): seq<Report>
    requires rule.threshold >= 3 && rule.duration >= 2
  {
    seq(2 * rule.threshold - 2, i => Report(
      if i == 0 then 0 else if i < rule.threshold - 1 then rule.duration - 1 else rule.duration, false))
  }

  lemma {:induction false} StraddlingWindows(rule: Rule, n: nat)
    requires rule.threshold >= 3 && rule.duration >= 2 && n <= 2 * rule.threshold - 2
    ensures Window(Straddling(rule), n, rule) ==
      if n == 0 then None else if n < rule.threshold then Some(0) else Some(rule.threshold - 1)
    ensures n > 0 ==> !Trips(Straddling(rule), n - 1, rule)
  {
    if n > 0 {
      StraddlingWindows(rule, n - 1);
      assert WindowOf(Straddling(rule), n - 1, rule) == if n < rule.threshold then 0 else rule.threshold - 1;
    }
  }

  lemma ShorterBurstsMayNotTrip(rule: Rule, t: nat)
    requires rule.threshold >= 3 && rule.duration >= 2
    ensures var h := Straddling(rule);
      && InOrder(h) && |h| == 1 + (EnoughFailures(rule.threshold) - 1)
      && Burst(h, 1, |h|, 2) && rule.threshold <= |h| - 1
      && !IsOpen(h, rule, t)
  {
    var h := Straddling(rule);
    forall m | 0 <= m < |h| ensures !Trips(h, m, rule) { StraddlingWindows(rule, m + 1); }
  }

  // ------------------------------------------------------------ whole replays

  /** A report for an upstream or a question about it, some milliseconds after the event before. */
  datatype Event =
    | Reported(delay: nat, upstream: string, success: bool)
    | Asked(delay: nat, upstream: string)

  ghost function ClockAfter(events: seq<Event>): nat {
    if events == [] then 0 else ClockAfter(events[..|events| - 1]) + events[|events| - 1].delay
  }

  /** The reports about one upstream. */
  ghost function ReportsOf(events: seq<Event>, upstream: string): (h: seq<Report>)
    ensures InOrder(h) && forall i | 0 <= i < |h| :: h[i].time <= ClockAfter(events)
  {
    if events == [] then []
    else
      var e := events[|events| - 1];
      ReportsOf(events[..|events| - 1], upstream)
      + if e.Reported? && e.upstream == upstream then [Report(ClockAfter(events), e.success)] else []
  }

  lemma OneMoreEvent(events: seq<Event>, i: nat, upstream: string)
    requires i < |events|
    ensures ClockAfter(events[..i + 1]) == ClockAfter(events[..i]) + events[i].delay
    ensures ReportsOf(events[..i + 1], upstream) ==
      if events[i].Reported? && events[i].upstream == upstream
      then ReportsOf(events[..i], upstream) + [Report(ClockAfter(events[..i + 1]), events[i].success)]
      else ReportsOf(events[..i], upstream)
  {
    assert events[..i + 1][..i] == events[..i];
    assert ReportsOf(events[..i], upstream) + [] == ReportsOf(events[..i], upstream);
  }

  ghost predicate RepresentsAll(entries: map<Key, Entry>, environment: string, events: seq<Event>, rule: string -> Rule) {
    forall u :: Represents(entries, environment, u, ReportsOf(events, u), rule(u))
  }

  /** The right answer to event i: none to a report, and to a question whether the reports so far leave the circuit open. */
  ghost predicate AnswersRight(events: seq<Event>, rule: string -> Rule, i: nat, answer: Option<bool>)
    requires i < |events|
  {
    match events[i]
    case Reported(_, _, _) => answer == None
    case Asked(_, u) => answer == Some(IsOpen(ReportsOf(events[..i], u), rule(u), ClockAfter(events[..i + 1])))
  }

  /** Any reports and questions about any upstreams, interleaved, on a new Redis: every question is answered by the history,
      and a yes means threshold failures in a row within the last two durations. */
  method Replay(environment: string, events: seq<Event>, rule: string -> Rule) returns (answers: seq<Option<bool>>)
    requires forall u :: rule(u).threshold > 0 && rule(u).duration > 0
    ensures |answers| == |events|
    ensures forall i | 0 <= i < |events| :: AnswersRight(events, rule, i, answers[i])
    ensures forall i | 0 <= i < |events| && answers[i] == Some(true) ::
      FailedRecently(ReportsOf(events[..i], events[i].upstream), rule(events[i].upstream), ClockAfter(events[..i + 1]))
  {
    hide Represents, OnlyTouches, IsOpen, FailedRecently, InOrder;
    var redis := new Redis();
    answers := [];
    forall u ensures Represents(redis.entries, environment, u, ReportsOf(events[..0], u), rule(u)) {
      NothingReported(environment, u, rule(u));
    }
    for i := 0 to |events|
      invariant fresh(redis) && redis.clock == ClockAfter(events[..i]) && |answers| == i
      invariant RepresentsAll(redis.entries, environment, events[..i], rule)
      invariant forall k | 0 <= k < i :: AnswersRight(events, rule, k, answers[k])
    {
      ghost var before, u := redis.entries, events[i].upstream;
      OneMoreEvent(events, i, u);
      assert Represents(before, environment, u, ReportsOf(events[..i], u), rule(u));
      redis.Elapse(events[i].delay);
      match events[i] {
        case Reported(_, upstream, success) =>
          RecordUpstream(redis, environment, upstream, success, rule(upstream), ReportsOf(events[..i], upstream));
          answers := answers + [None];
        case Asked(_, upstream) =>
          var open := CircuitOpen(redis, environment, upstream, rule(upstream), ReportsOf(events[..i], upstream));
          answers := answers + [Some(open)];
      }
      AllStayRepresented(before, redis.entries, environment, events, i, rule);
    }
    forall i | 0 <= i < |events| && answers[i] == Some(true)
      ensures FailedRecently(ReportsOf(events[..i], events[i].upstream), rule(events[i].upstream), ClockAfter(events[..i + 1]))
    {
      assert AnswersRight(events, rule, i, answers[i]);
      OpenMeansRecentFailures(ReportsOf(events[..i], events[i].upstream), rule(events[i].upstream), ClockAfter(events[..i + 1]));
    }
  }

  lemma AllStayRepresented(
    a: map<Key, Entry>, b: map<Key, Entry>, environment: string, events: seq<Event>, i: nat, rule: string -> Rule)
    requires i < |events| && RepresentsAll(a, environment, events[..i], rule)
    requires var u := events[i].upstream;
      if events[i].Asked? then a == b
      else
        && Represents(b, environment, u, ReportsOf(events[..i], u) + [Report(ClockAfter(events[..i + 1]), events[i].success)], rule(u))
        && OnlyTouches(a, b, {Failures(environment, u), Open(environment, u)})
    ensures RepresentsAll(b, environment, events[..i + 1], rule)
  {
    hide Represents, OnlyTouches;
    var u := events[i].upstream;
    forall v ensures Represents(b, environment, v, ReportsOf(events[..i + 1], v), rule(v)) {
      OneMoreEvent(events, i, v);
      assert Represents(a, environment, v, ReportsOf(events[..i], v), rule(v));
      if v != u && events[i].Reported? {
        OtherKeysDoNotMatter(a, b, {Failures(environment, u), Open(environment, u)}, environment, v, ReportsOf(events[..i], v), rule(v));
      }
    }
  }
}
