/** internal/coordination/redis.go: the shared rate and quota counters of one
    listener and consumer, against the times of the calls made for them. */
module RequestLimiter {
  import opened Arithmetic
  import opened Prelude
  import opened RedisStore

  datatype Decision = Allowed | RateLimited | QuotaExceeded
  datatype Limits = Limits(rate: nat, burst: nat, quota: nat)
  datatype Subject = Subject(environment: string, listener: string, consumer: string)

  const Second: nat := 1000
  const Minute: nat := 60000

  // --------------------------------------------------------------- counting

  /** How many i below n satisfy p. */
  ghost function Count(n: nat, p: nat -> bool): (c: nat)
    ensures c <= n
  {
    if n == 0 then 0 else Count(n - 1, p) + if p(n - 1) then 1 else 0
  }

  lemma {:induction false} CountGrows(n: nat, p: nat -> bool, q: nat -> bool)
    requires forall i: nat | i < n && p(i) :: q(i)
    ensures Count(n, p) <= Count(n, q)
  {
    if n > 0 { CountGrows(n - 1, p, q); }
  }

  lemma CountAgrees(n: nat, p: nat -> bool, q: nat -> bool)
    requires forall i: nat | i < n :: p(i) == q(i)
    ensures Count(n, p) == Count(n, q)
  {
    CountGrows(n, p, q);
    CountGrows(n, q, p);
  }

  lemma {:induction false} CountSplits(n: nat, p: nat -> bool, q: nat -> bool, r: nat -> bool)
    requires forall i: nat | i < n && p(i) :: q(i) || r(i)
    ensures Count(n, p) <= Count(n, q) + Count(n, r)
  {
    if n > 0 { CountSplits(n - 1, p, q, r); }
  }

  // -------------------------------------- what the calls so far entitle one to

  /** Call i falls in second s. */
  ghost function InSecond(h: seq<nat>, s: int): nat -> bool { (i: nat) => i < |h| && h[i] / 1000 == s }

  /** Call n is among the first rate + burst of its second. */
  ghost predicate WithinRate(h: seq<nat>, n: nat, limits: Limits)
    requires n < |h|
  {
    limits.rate == 0 || Count(n, InSecond(h, h[n] / 1000)) < limits.rate + limits.burst
  }

  /** Call i falls in minute m and was within the rate: only such calls reach the quota counter. */
  ghost function Metered(h: seq<nat>, m: int, limits: Limits): nat -> bool {
    (i: nat) => i < |h| && h[i] / 60000 == m && WithinRate(h, i, limits)
  }

  ghost predicate WithinQuota(h: seq<nat>, n: nat, limits: Limits)
    requires n < |h|
  {
    limits.quota == 0 || Count(n, Metered(h, h[n] / 60000, limits)) < limits.quota
  }

  ghost function Due(h: seq<nat>, n: nat, limits: Limits): Decision
    requires n < |h|
  {
    if !WithinRate(h, n, limits) then RateLimited else if !WithinQuota(h, n, limits) then QuotaExceeded else Allowed
  }

  // ----------------------------------------------------- what Redis must hold

  /** A counter of `count` calls in window number w of the given length: absent while there are none, and otherwise sure to
      outlive the window. */
  ghost predicate CountsWindow(entries: map<Key, Entry>, key: Key, count: nat, w: nat, length: nat) {
    if count == 0 then key !in entries
    else key in entries && entries[key].value == count && entries[key].expiry.Some? && entries[key].expiry.value >= (w + 1) * length
  }

  ghost predicate Represents(entries: map<Key, Entry>, who: Subject, h: seq<nat>, limits: Limits) {
    && (forall s: nat {:trigger Rate(who.environment, who.listener, who.consumer, s)} ::
        CountsWindow(entries, Rate(who.environment, who.listener, who.consumer, s),
          if limits.rate == 0 then 0 else Count(|h|, InSecond(h, s)), s, Second))
    && (forall m: nat {:trigger Quota(who.environment, who.listener, who.consumer, m)} ::
        CountsWindow(entries, Quota(who.environment, who.listener, who.consumer, m),
          if limits.quota == 0 then 0 else Count(|h|, Metered(h, m, limits)), m, Minute))
  }

  lemma NothingCounted(who: Subject, limits: Limits)
    ensures Represents(map[], who, [], limits)
  {
  }

  ghost predicate KeyOf(who: Subject, k: Key) {
    (k.Rate? || k.Quota?) && Subject(k.environment, k.listener, k.consumer) == who
  }

  /** Calls for other listeners and consumers leave the counters as they are. */
  lemma OtherSubjectsDoNotMatter(
    a: map<Key, Entry>, b: map<Key, Entry>, keys: set<Key>, who: Subject, h: seq<nat>, limits: Limits)
    requires Represents(a, who, h, limits) && OnlyTouches(a, b, keys) && forall k | k in keys :: !KeyOf(who, k)
    ensures Represents(b, who, h, limits)
  {
    forall s: nat
      ensures CountsWindow(b, Rate(who.environment, who.listener, who.consumer, s),
        if limits.rate == 0 then 0 else Count(|h|, InSecond(h, s)), s, Second)
    {
      assert KeyOf(who, Rate(who.environment, who.listener, who.consumer, s));
    }
    forall m: nat
      ensures CountsWindow(b, Quota(who.environment, who.listener, who.consumer, m),
        if limits.quota == 0 then 0 else Count(|h|, Metered(h, m, limits)), m, Minute)
    {
      assert KeyOf(who, Quota(who.environment, who.listener, who.consumer, m));
    }
  }

  // --------------------------------------------------------------- one call

  /** The decisions about earlier calls do not change when a call is added. */
  lemma EarlierCallsKeepTheirRate(h: seq<nat>, now: nat, i: nat, limits: Limits)
    requires i < |h|
    ensures WithinRate(h + [now], i, limits) == WithinRate(h, i, limits)
  {
    var s := h[i] / Second;
    CountAgrees(i, InSecond(h, s), InSecond(h + [now], s));
  }

  lemma SecondsAfterCall(h: seq<nat>, now: nat, s: nat)
    ensures var next := h + [now];
      && Count(|h|, InSecond(next, s)) == Count(|h|, InSecond(h, s))
      && Count(|next|, InSecond(next, s)) == Count(|h|, InSecond(h, s)) + if s == now / Second then 1 else 0
  {
    CountAgrees(|h|, InSecond(h, s), InSecond(h + [now], s));
  }

  lemma MinutesAfterCall(h: seq<nat>, now: nat, m: nat, limits: Limits)
    ensures var next := h + [now];
      && Count(|h|, Metered(next, m, limits)) == Count(|h|, Metered(h, m, limits))
      && Count(|next|, Metered(next, m, limits)) == Count(|h|, Metered(h, m, limits))
        + if m == now / Minute && WithinRate(next, |h|, limits) then 1 else 0
  {
    var next := h + [now];
    forall i: nat | i < |h| ensures Metered(h, m, limits)(i) == Metered(next, m, limits)(i) {
      EarlierCallsKeepTheirRate(h, now, i, limits);
    }
    CountAgrees(|h|, Metered(h, m, limits), Metered(next, m, limits));
  }

  lemma StillInWindow(now: nat, length: nat)
    requires length > 0
    ensures now < (now / length + 1) * length <= now + length
  {
  }

  /** One counter of the script: INCR, and on the first call of the window PEXPIRE. */
  method CountCall(redis: Redis, key: Key, length: nat, ghost seen: nat) returns (count: nat)
    requires length > 0 && CountsWindow(redis.entries, key, seen, redis.clock / length, length)
    modifies redis`entries
    ensures count == seen + 1
    ensures CountsWindow(redis.entries, key, count, redis.clock / length, length)
    ensures OnlyTouches(old(redis.entries), redis.entries, {key})
  {
    StillInWindow(redis.clock, length);
    count := redis.Incr(key);
    if count == 1 { redis.PExpire(key, length); }
  }

  /** requestPolicyScript, run with the keys AllowRequest derives from the same clock: in every second exactly the first
      rate + burst calls pass, only they count against the quota, and in every minute exactly the first quota of them are
      allowed. */
  method AllowRequest(redis: Redis, who: Subject, limits: Limits, ghost h: seq<nat>) returns (decision: Decision)
    requires Represents(redis.entries, who, h, limits)
    modifies redis`entries
    ensures decision == Due(h + [redis.clock], |h|, limits)
    ensures Represents(redis.entries, who, h + [redis.clock], limits)
    ensures OnlyTouches(old(redis.entries), redis.entries, {
      Rate(who.environment, who.listener, who.consumer, redis.clock / Second),
      Quota(who.environment, who.listener, who.consumer, redis.clock / Minute)})
  {
    hide Represents, CountsWindow, OnlyTouches, Due;
    var rateKey := Rate(who.environment, who.listener, who.consumer, redis.clock / Second);
    var quotaKey := Quota(who.environment, who.listener, who.consumer, redis.clock / Minute);
    ghost var first := redis.entries;
    CurrentCounters(redis.entries, who, h, limits, redis.clock);
    if limits.rate > 0 {
      var count := CountCall(redis, rateKey, Second, Count(|h|, InSecond(h, redis.clock / Second)));
      if count > limits.rate + limits.burst {
        Rejected(first, redis.entries, who, h, limits, redis.clock);
        return RateLimited;
      }
    }
    ghost var second := redis.entries;
    if limits.rate == 0 { NothingTouched(first, rateKey); }
    QuotaUntouched(first, second, who, h, limits, redis.clock);
    if limits.quota > 0 {
      var count := CountCall(redis, quotaKey, Minute, Count(|h|, Metered(h, redis.clock / Minute, limits)));
      Metering(first, second, redis.entries, who, h, limits, redis.clock);
      if count > limits.quota { return QuotaExceeded; }
    } else {
      NothingTouched(second, quotaKey);
      Metering(first, second, redis.entries, who, h, limits, redis.clock);
    }
    return Allowed;
  }

  ghost function RateKey(
    who: Subject, now: nat): Key { Rate(who.environment, who.listener, who.consumer, now / Second) }
  ghost function QuotaKey(
    who: Subject, now: nat): Key { Quota(who.environment, who.listener, who.consumer, now / Minute) }

  lemma NothingTouched(a: map<Key, Entry>, key: Key)
    ensures OnlyTouches(a, a, {key})
  {
  }

  lemma CurrentCounters(a: map<Key, Entry>, who: Subject, h: seq<nat>, limits: Limits, now: nat)
    requires Represents(a, who, h, limits)
    ensures limits.rate > 0 ==> CountsWindow(a, RateKey(who, now), Count(|h|, InSecond(h, now / Second)), now / Second, Second)
    ensures limits.quota > 0 ==>
      CountsWindow(a, QuotaKey(who, now), Count(|h|, Metered(h, now / Minute, limits)), now / Minute, Minute)
  {
  }

  lemma QuotaUntouched(a: map<Key, Entry>, b: map<Key, Entry>, who: Subject, h: seq<nat>, limits: Limits, now: nat)
    requires Represents(a, who, h, limits) && OnlyTouches(a, b, {RateKey(who, now)})
    ensures limits.quota > 0 ==>
      CountsWindow(b, QuotaKey(who, now), Count(|h|, Metered(h, now / Minute, limits)), now / Minute, Minute)
  {
  }

  /** The rate counter of the call's second was counted up, or there is no rate. */
  ghost predicate RateCounted(b: map<Key, Entry>, who: Subject, h: seq<nat>, limits: Limits, now: nat) {
    limits.rate > 0 ==> CountsWindow(b, RateKey(who, now), Count(|h|, InSecond(h, now / Second)) + 1, now / Second, Second)
  }

  lemma RatesAfter(
    a: map<Key, Entry>, b: map<Key, Entry>, who: Subject, h: seq<nat>, limits: Limits, now: nat, s: nat)
    requires Represents(a, who, h, limits) && OnlyTouches(a, b, {RateKey(who, now), QuotaKey(who, now)})
    requires RateCounted(b, who, h, limits, now) && (limits.rate == 0 ==> OnlyTouches(a, b, {QuotaKey(who, now)}))
    ensures CountsWindow(b, Rate(who.environment, who.listener, who.consumer, s),
      if limits.rate == 0 then 0 else Count(|h + [now]|, InSecond(h + [now], s)), s, Second)
  {
    SecondsAfterCall(h, now, s);
    assert CountsWindow(a, Rate(who.environment, who.listener, who.consumer, s),
      if limits.rate == 0 then 0 else Count(|h|, InSecond(h, s)), s, Second);
  }

  lemma Rejected(a: map<Key, Entry>, b: map<Key, Entry>, who: Subject, h: seq<nat>, limits: Limits, now: nat)
    requires Represents(a, who, h, limits) && OnlyTouches(a, b, {RateKey(who, now)})
    requires limits.rate > 0 && Count(|h|, InSecond(h, now / Second)) >= limits.rate + limits.burst
    requires RateCounted(b, who, h, limits, now)
    ensures Due(h + [now], |h|, limits) == RateLimited && Represents(b, who, h + [now], limits)
    ensures OnlyTouches(a, b, {RateKey(who, now), QuotaKey(who, now)})
  {
    SecondsAfterCall(h, now, now / Second);
    forall s: nat {:trigger Rate(who.environment, who.listener, who.consumer, s)}
      ensures CountsWindow(b, Rate(who.environment, who.listener, who.consumer, s),
        if limits.rate == 0 then 0 else Count(|h + [now]|, InSecond(h + [now], s)), s, Second)
    {
      RatesAfter(a, b, who, h, limits, now, s);
    }
    forall m: nat {:trigger Quota(who.environment, who.listener, who.consumer, m)}
      ensures CountsWindow(b, Quota(who.environment, who.listener, who.consumer, m),
        if limits.quota == 0 then 0 else Count(|h + [now]|, Metered(h + [now], m, limits)), m, Minute)
    {
      MinutesAfterCall(h, now, m, limits);
      assert CountsWindow(a, Quota(who.environment, who.listener, who.consumer, m),
        if limits.quota == 0 then 0 else Count(|h|, Metered(h, m, limits)), m, Minute);
    }
  }

  lemma Metering(
    a: map<Key, Entry>, b: map<Key, Entry>, c: map<Key, Entry>, who: Subject, h: seq<nat>, limits: Limits, now: nat)
    requires Represents(a, who, h, limits)
    requires OnlyTouches(a, b, {RateKey(who, now)}) && OnlyTouches(b, c, {QuotaKey(who, now)})
    requires RateCounted(b, who, h, limits, now) && (limits.rate == 0 ==> a == b)
    requires limits.rate > 0 ==> Count(|h|, InSecond(h, now / Second)) < limits.rate + limits.burst
    requires if limits.quota == 0 then b == c else
      CountsWindow(c, QuotaKey(who, now), Count(|h|, Metered(h, now / Minute, limits)) + 1, now / Minute, Minute)
    ensures var quotaOk := limits.quota == 0 || Count(|h|, Metered(h, now / Minute, limits)) < limits.quota;
      Due(h + [now], |h|, limits) == if quotaOk then Allowed else QuotaExceeded
    ensures Represents(c, who, h + [now], limits) && OnlyTouches(a, c, {RateKey(who, now), QuotaKey(who, now)})
  {
    SecondsAfterCall(h, now, now / Second);
    MinutesAfterCall(h, now, now / Minute, limits);
    assert RateCounted(c, who, h, limits, now);
    forall s: nat {:trigger Rate(who.environment, who.listener, who.consumer, s)}
      ensures CountsWindow(c, Rate(who.environment, who.listener, who.consumer, s),
        if limits.rate == 0 then 0 else Count(|h + [now]|, InSecond(h + [now], s)), s, Second)
    {
      RatesAfter(a, c, who, h, limits, now, s);
    }
    forall m: nat {:trigger Quota(who.environment, who.listener, who.consumer, m)}
      ensures CountsWindow(c, Quota(who.environment, who.listener, who.consumer, m),
        if limits.quota == 0 then 0 else Count(|h + [now]|, Metered(h + [now], m, limits)), m, Minute)
    {
      MinutesAfterCall(h, now, m, limits);
      assert CountsWindow(a, Quota(who.environment, who.listener, who.consumer, m),
        if limits.quota == 0 then 0 else Count(|h|, Metered(h, m, limits)), m, Minute);
    }
  }

  // ---------------------------------------------------------- interval bounds

  ghost function PassedIn(h: seq<nat>, s: int, limits: Limits): nat -> bool {
    (i: nat) => i < |h| && h[i] / 1000 == s && WithinRate(h, i, limits)
  }

  ghost function AllowedIn(h: seq<nat>, m: int, limits: Limits): nat -> bool {
    (i: nat) => i < |h| && h[i] / 60000 == m && Due(h, i, limits) == Allowed
  }

  ghost function Lesser(a: nat, b: nat): nat { if a < b then a else b }

  /** In one second exactly the first rate + burst calls pass. */
  lemma {:induction false} PassedPerSecond(h: seq<nat>, n: nat, s: int, limits: Limits)
    requires n <= |h| && limits.rate > 0
    ensures Count(n, PassedIn(h, s, limits)) == Lesser(Count(n, InSecond(h, s)), limits.rate + limits.burst)
  {
    if n > 0 { PassedPerSecond(h, n - 1, s, limits); }
  }

  /** In one minute exactly the first quota calls that passed the rate are allowed. */
  lemma {:induction false} AllowedPerMinute(h: seq<nat>, n: nat, m: int, limits: Limits)
    requires n <= |h| && limits.quota > 0
    ensures Count(n, AllowedIn(h, m, limits)) == Lesser(Count(n, Metered(h, m, limits)), limits.quota)
  {
    if n > 0 { AllowedPerMinute(h, n - 1, m, limits); }
  }

  /** Calls that satisfy ok and fall in windows first to last, at most cap of them in each. */
  ghost function InWindows(h: seq<nat>, ok: nat -> bool, length: nat, first: int, last: int): nat -> bool
    requires length > 0
  {
    (i: nat) => i < |h| && ok(i) && first <= h[i] / length <= last
  }

  lemma {:induction false} WindowsAddUp(h: seq<nat>, ok: nat -> bool, length: nat, first: int, last: int, cap: nat)
    requires length > 0 && first <= last + 1
    requires forall w :: Count(|h|, InWindows(h, ok, length, w, w)) <= cap
    ensures Count(|h|, InWindows(h, ok, length, first, last)) <= (last + 1 - first) * cap
    decreases last - first + 1
  {
    if first == last + 1 {
      NothingCountedIn(|h|, InWindows(h, ok, length, first, last));
    } else {
      WindowsAddUp(h, ok, length, first, last - 1, cap);
      CountSplits(|h|, InWindows(h, ok, length, first, last), InWindows(h, ok, length, first, last - 1),
        InWindows(h, ok, length, last, last));
      assert (last + 1 - first) * cap == (last - first) * cap + cap;
    }
  }

  lemma {:induction false} NothingCountedIn(n: nat, p: nat -> bool)
    requires forall i: nat | i < n :: !p(i)
    ensures Count(n, p) == 0
  {
    if n > 0 { NothingCountedIn(n - 1, p); }
  }

  ghost function AllowedCall(h: seq<nat>, limits: Limits): nat -> bool {
    (i: nat) => i < |h| && Due(h, i, limits) == Allowed
  }

  /** Calls between two moments, both included, that satisfy ok. */
  ghost function Between(h: seq<nat>, ok: nat -> bool, from: nat, to: nat): nat -> bool {
    (i: nat) => i < |h| && from <= h[i] <= to && ok(i)
  }

  lemma WindowsTouched(from: nat, to: nat, length: nat)
    requires length > 0 && from <= to
    ensures from / length <= to / length && to / length + 1 - from / length <= (to - from) / length + 2
    ensures forall t: nat | from <= t <= to :: from / length <= t / length <= to / length
  {
    forall t: nat | from <= t <= to ensures from / length <= t / length <= to / length {
      QuotientsGrow(from, t, length);
      QuotientsGrow(t, to, length);
    }
    QuotientsGrow(from, to, length);
    var a, b, d := from / length, to / length, (to - from) / length;
    FloorBounds(from, length);
    FloorBounds(to, length);
    FloorBounds(to - from, length);
    Distributes(a + 1, d + 1, length);
    FactorsOrder(b, a + d + 2, length);
  }

  /** A cap on every window caps every interval by the number of windows it can touch. */
  lemma IntervalsAreCapped(h: seq<nat>, ok: nat -> bool, length: nat, cap: nat, from: nat, to: nat)
    requires length > 0 && from <= to
    requires forall w :: Count(|h|, InWindows(h, ok, length, w, w)) <= cap
    ensures Count(|h|, Between(h, ok, from, to)) <= ((to - from) / length + 2) * cap
  {
    var first, last := from / length, to / length;
    WindowsTouched(from, to, length);
    WindowsAddUp(h, ok, length, first, last, cap);
    CountGrows(|h|, Between(h, ok, from, to), InWindows(h, ok, length, first, last));
    ProductGrows(last + 1 - first, (to - from) / length + 2, cap);
  }

  /** Any interval of L milliseconds, wherever it lies, admits at most (L / 1000 + 2) * (rate + burst) requests. */
  lemma RateBoundOverIntervals(h: seq<nat>, limits: Limits, from: nat, to: nat)
    requires limits.rate > 0 && from <= to
    ensures Count(|h|, Between(h, AllowedCall(h, limits), from, to)) <= ((to - from) / 1000 + 2) * (limits.rate + limits.burst)
  {
    forall w ensures Count(|h|, InWindows(h, AllowedCall(h, limits), Second, w, w)) <= limits.rate + limits.burst {
      PassedPerSecond(h, |h|, w, limits);
      CountGrows(|h|, InWindows(h, AllowedCall(h, limits), Second, w, w), PassedIn(h, w, limits));
    }
    IntervalsAreCapped(h, AllowedCall(h, limits), Second, limits.rate + limits.burst, from, to);
  }

  /** And at most (L / 60000 + 2) * quota. */
  lemma QuotaBoundOverIntervals(h: seq<nat>, limits: Limits, from: nat, to: nat)
    requires limits.quota > 0 && from <= to
    ensures Count(|h|, Between(h, AllowedCall(h, limits), from, to)) <= ((to - from) / 60000 + 2) * limits.quota
  {
    forall w ensures Count(|h|, InWindows(h, AllowedCall(h, limits), Minute, w, w)) <= limits.quota {
      AllowedPerMinute(h, |h|, w, limits);
      CountGrows(|h|, InWindows(h, AllowedCall(h, limits), Minute, w, w), AllowedIn(h, w, limits));
    }
    IntervalsAreCapped(h, AllowedCall(h, limits), Minute, limits.quota, from, to);
  }

  // ------------------------------------------------------------ whole replays

  /** A call for a listener and consumer, some milliseconds after the call before it. */
  datatype Call = Call(delay: nat, who: Subject)

  ghost function ClockAfter(calls: seq<Call>): nat {
    if calls == [] then 0 else ClockAfter(calls[..|calls| - 1]) + calls[|calls| - 1].delay
  }

  /** The times of one subject's calls. */
  ghost function TimesOf(calls: seq<Call>, who: Subject): seq<nat> {
    if calls == [] then []
    else
      TimesOf(calls[..|calls| - 1], who) + if calls[|calls| - 1].who == who then [ClockAfter(calls)] else []
  }

  lemma OneMoreCall(calls: seq<Call>, i: nat, who: Subject)
    requires i < |calls|
    ensures ClockAfter(calls[..i + 1]) == ClockAfter(calls[..i]) + calls[i].delay
    ensures TimesOf(calls[..i + 1], who)
      == if calls[i].who == who then TimesOf(calls[..i], who) + [ClockAfter(calls[..i + 1])] else TimesOf(calls[..i], who)
  {
    assert calls[..i + 1][..i] == calls[..i];
    assert TimesOf(calls[..i], who) + [] == TimesOf(calls[..i], who);
  }

  /** What is due to call i of a replay. */
  ghost function DueTo(calls: seq<Call>, limits: Subject -> Limits, i: nat): Decision
    requires i < |calls|
  {
    var h := TimesOf(calls[..i + 1], calls[i].who);
    OneMoreCall(calls, i, calls[i].who);
    Due(h, |h| - 1, limits(calls[i].who))
  }

  /** A limit of zero is none. */
  ghost predicate OnlyByALimit(limits: Limits, decision: Decision) {
    (limits.rate == 0 ==> decision != RateLimited) && (limits.quota == 0 ==> decision != QuotaExceeded)
  }

  lemma NoLimitNoRefusal(calls: seq<Call>, limits: Subject -> Limits, i: nat)
    requires i < |calls|
    ensures OnlyByALimit(limits(calls[i].who), DueTo(calls, limits, i))
  {
  }

  ghost function Admitted(calls: seq<Call>, decisions: seq<Decision>, who: Subject, from: nat, to: nat): nat -> bool
    requires |decisions| == |calls|
  {
    (i: nat) => i < |calls| && calls[i].who == who && decisions[i] == Allowed && from <= ClockAfter(calls[..i + 1]) <= to
  }

  /** The counters of every subject are right. */
  ghost predicate RepresentsAll(entries: map<Key, Entry>, calls: seq<Call>, limits: Subject -> Limits) {
    forall who :: Represents(entries, who, TimesOf(calls, who), limits(who))
  }

  /** Any calls of any subjects, interleaved, on a new Redis: each gets the decision due to it, and every subject stays
      within both bounds over every interval. */
  method Replay(calls: seq<Call>, limits: Subject -> Limits) returns (decisions: seq<Decision>)
    ensures |decisions| == |calls|
    ensures forall i | 0 <= i < |calls| :: decisions[i] == DueTo(calls, limits, i)
    ensures forall i | 0 <= i < |calls| :: OnlyByALimit(limits(calls[i].who), decisions[i])
    ensures forall who, from: nat, to: nat | from <= to && limits(who).rate > 0 ::
      Count(|calls|, Admitted(calls, decisions, who, from, to)) <= ((to - from) / 1000 + 2) * (limits(who).rate + limits(who).burst)
    ensures forall who, from: nat, to: nat | from <= to && limits(who).quota > 0 ::
      Count(|calls|, Admitted(calls, decisions, who, from, to)) <= ((to - from) / 60000 + 2) * limits(who).quota
  {
    hide Represents, OnlyTouches, Due, KeyOf, OnlyByALimit;
    var redis := new Redis();
    decisions := [];
    forall who ensures Represents(redis.entries, who, TimesOf(calls[..0], who), limits(who)) {
      NothingCounted(who, limits(who));
    }
    for i := 0 to |calls|
      invariant fresh(redis) && redis.clock == ClockAfter(calls[..i]) && |decisions| == i
      invariant RepresentsAll(redis.entries, calls[..i], limits)
      invariant forall k | 0 <= k < i :: decisions[k] == DueTo(calls, limits, k)
    {
      var who := calls[i].who;
      OneMoreCall(calls, i, who);
      redis.Elapse(calls[i].delay);
      ghost var before := redis.entries;
      assert Represents(before, who, TimesOf(calls[..i], who), limits(who));
      var decision := AllowRequest(redis, who, limits(who), TimesOf(calls[..i], who));
      AllStayRepresented(before, redis.entries, calls, i, limits);
      decisions := decisions + [decision];
    }
    assert calls[..|calls|] == calls;
    BoundsHold(calls, decisions, limits);
    forall i | 0 <= i < |calls| ensures OnlyByALimit(limits(calls[i].who), decisions[i]) { NoLimitNoRefusal(calls, limits, i); }
  }

  lemma AllStayRepresented(a: map<Key, Entry>, b: map<Key, Entry>, calls: seq<Call>, i: nat, limits: Subject -> Limits)
    requires i < |calls| && RepresentsAll(a, calls[..i], limits)
    requires var who, now := calls[i].who, ClockAfter(calls[..i + 1]);
      && Represents(b, who, TimesOf(calls[..i], who) + [now], limits(who)) && OnlyTouches(a, b, {RateKey(who, now), QuotaKey(who, now)})
    ensures RepresentsAll(b, calls[..i + 1], limits)
  {
    hide Represents, OnlyTouches;
    var now := ClockAfter(calls[..i + 1]);
    forall who ensures Represents(b, who, TimesOf(calls[..i + 1], who), limits(who)) {
      OneMoreCall(calls, i, who);
      assert Represents(a, who, TimesOf(calls[..i], who), limits(who));
      if who != calls[i].who {
        OtherSubjectsDoNotMatter(a, b, {RateKey(calls[i].who, now), QuotaKey(calls[i].who, now)}, who,
          TimesOf(calls[..i], who), limits(who));
      }
    }
  }

  /** Decisions about earlier calls do not change when calls are added. */
  lemma DueToPrefix(h: seq<nat>, now: nat, i: nat, limits: Limits)
    requires i < |h|
    ensures Due(h + [now], i, limits) == Due(h, i, limits)
  {
    var m := h[i] / Minute;
    EarlierCallsKeepTheirRate(h, now, i, limits);
    forall k: nat | k < i ensures Metered(h, m, limits)(k) == Metered(h + [now], m, limits)(k) {
      EarlierCallsKeepTheirRate(h, now, k, limits);
    }
    CountAgrees(i, Metered(h, m, limits), Metered(h + [now], m, limits));
  }

  /** The calls admitted to a subject in a replay are those its own history allows. */
  lemma {:induction false} AdmissionsAreDue(
    calls: seq<Call>, decisions: seq<Decision>, limits: Subject -> Limits, who: Subject, from: nat, to: nat, n: nat)
    requires n <= |calls| == |decisions| && forall i | 0 <= i < |calls| :: decisions[i] == DueTo(calls, limits, i)
    ensures var h := TimesOf(calls[..n], who);
      Count(n, Admitted(calls, decisions, who, from, to)) == Count(|h|, Between(h, AllowedCall(h, limits(who)), from, to))
  {
    hide Due;
    if n > 0 {
      AdmissionsAreDue(calls, decisions, limits, who, from, to, n - 1);
      OneMoreCall(calls, n - 1, who);
      var h, next, now := TimesOf(calls[..n - 1], who), TimesOf(calls[..n], who), ClockAfter(calls[..n]);
      if calls[n - 1].who == who {
        forall i: nat | i < |h|
          ensures Between(h, AllowedCall(h, limits(who)), from, to)(i) == Between(next, AllowedCall(next, limits(who)), from, to)(i)
        {
          DueToPrefix(h, now, i, limits(who));
        }
        CountAgrees(|h|, Between(h, AllowedCall(h, limits(who)), from, to), Between(next, AllowedCall(next, limits(who)), from, to));
        assert decisions[n - 1] == Due(next, |h|, limits(who)) && next[|h|] == now && calls[..n - 1 + 1] == calls[..n];
        assert Admitted(calls, decisions, who, from, to)(n - 1) == Between(next, AllowedCall(next, limits(who)), from, to)(|h|);
      }
    }
  }

  lemma BoundsHold(calls: seq<Call>, decisions: seq<Decision>, limits: Subject -> Limits)
    requires |decisions| == |calls| && forall i | 0 <= i < |calls| :: decisions[i] == DueTo(calls, limits, i)
    ensures forall who, from: nat, to: nat | from <= to && limits(who).rate > 0 ::
      Count(|calls|, Admitted(calls, decisions, who, from, to)) <= ((to - from) / 1000 + 2) * (limits(who).rate + limits(who).burst)
    ensures forall who, from: nat, to: nat | from <= to && limits(who).quota > 0 ::
      Count(|calls|, Admitted(calls, decisions, who, from, to)) <= ((to - from) / 60000 + 2) * limits(who).quota
  {
    hide Due, Count, DueTo;
    assert calls[..|calls|] == calls;
    forall who, from: nat, to: nat | from <= to && limits(who).rate > 0
      ensures Count(|calls|, Admitted(calls, decisions, who, from, to)) <= ((to - from) / 1000 + 2) * (limits(who).rate + limits(who).burst)
    {
      AdmissionsAreDue(calls, decisions, limits, who, from, to, |calls|);
      RateBoundOverIntervals(TimesOf(calls, who), limits(who), from, to);
    }
    forall who, from: nat, to: nat | from <= to && limits(who).quota > 0
      ensures Count(|calls|, Admitted(calls, decisions, who, from, to)) <= ((to - from) / 60000 + 2) * limits(who).quota
    {
      AdmissionsAreDue(calls, decisions, limits, who, from, to, |calls|);
      QuotaBoundOverIntervals(TimesOf(calls, who), limits(who), from, to);
    }
  }
}
