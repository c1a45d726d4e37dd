/** The token bucket behind every public endpoint (internal/httpx/ratelimit.go).
    Times and durations are whole nanoseconds. */
module RateLimit {
  import opened Common

  const SECOND := 1_000_000_000
  const MINUTE := 60 * SECOND
  const IDLE_BUCKET_TTL := 60 * MINUTE

  datatype Bucket = Bucket(tokens: int, seen: int)

  datatype Limiter = Limiter(interval: int, burst: int, buckets: map<string, Bucket>, swept: int)

  /** One token comes back every interval, and an interval is a positive time. */
  ghost predicate Configured(l: Limiter) {
    l.interval > 0 && l.burst >= 0
  }

  function NewLimiter(interval: int, burst: int, now: int): Limiter {
    Limiter(interval, burst, map[], now)
  }

  // ---------------------------------------------------------------- one call

  function Sweep(l: Limiter, now: int): Limiter {
    if now - l.swept < IDLE_BUCKET_TTL then l
    else
      l.(buckets := map k | k in l.buckets && now - l.buckets[k].seen <= IDLE_BUCKET_TTL :: l.buckets[k], swept := now)
  }

  /** Only whole tokens are credited, and the clock moves by what they took. */
  function Refill(b: Bucket, interval: int, burst: int, now: int): Bucket
    requires interval > 0
  {
    var earned := TruncDiv(now - b.seen, interval);
    var r := if earned > 0 then Bucket(Min(b.tokens + earned, burst), b.seen + earned * interval) else b;
    if r.seen > now then r.(seen := now) else r
  }

  function Allow(l: Limiter, key: string, now: int): (Limiter, bool)
    requires Configured(l)
  {
    var kept := Sweep(l, now);
    var found := if key in kept.buckets then kept.buckets[key] else Bucket(l.burst, now);
    var b := Refill(found, l.interval, l.burst, now);
    var granted := b.tokens > 0;
    (kept.(buckets := kept.buckets[key := if granted then b.(tokens := b.tokens - 1) else b]), granted)
  }

  /** The limiter as the server holds it: the buckets change in place. */
  class BucketMap {
    const interval: int
    const burst: int
    var buckets: map<string, Bucket>
    var swept: int

    ghost function State(): Limiter
      reads this
    {
      Limiter(interval, burst, buckets, swept)
    }

    constructor (interval: int, burst: int, now: int)
      ensures State() == NewLimiter(interval, burst, now)
    {
      this.interval, this.burst, buckets, swept := interval, burst, map[], now;
    }

    /** At most once per TTL; every bucket is looked at and the idle ones dropped. */
    method SweepIdle(now: int)
      modifies this
      ensures State() == Sweep(old(State()), now)
    {
      if now - swept < IDLE_BUCKET_TTL {
        return;
      }
      var left := buckets.Keys;
      while left != {}
        invariant left <= old(buckets.Keys) && swept == old(swept)
        invariant forall k ::
            k in buckets <==> k in old(buckets) && (k in left || now - old(buckets)[k].seen <= IDLE_BUCKET_TTL)
        invariant forall k :: k in buckets ==> buckets[k] == old(buckets)[k]
        decreases |left|
      {
        var key :| key in left;
        left := left - {key};
        if now - buckets[key].seen > IDLE_BUCKET_TTL {
          buckets := buckets - {key};
        }
      }
      swept := now;
      assert buckets == Sweep(old(State()), now).buckets;
    }

    method AllowCall(key: string, now: int) returns (granted: bool)
      requires Configured(State())
      modifies this
      ensures (State(), granted) == Allow(old(State()), key, now)
    {
      SweepIdle(now);
      var b := Bucket(burst, now);
      if key in buckets {
        b := buckets[key];
      }
      var earned := TruncDiv(now - b.seen, interval);
      if earned > 0 {
        b := Bucket(Min(b.tokens + earned, burst), b.seen + earned * interval);
      }
      if b.seen > now {
        b := b.(seen := now);
      }
      granted := b.tokens > 0;
      if granted {
        b := b.(tokens := b.tokens - 1);
      }
      buckets := buckets[key := b];
    }
  }

  // ---------------------------------------------------------------- runs

  datatype Call = Call(key: string, at: int)

  function After(l: Limiter, calls: seq<Call>): (r: Limiter)
    requires Configured(l)
    ensures r.interval == l.interval && r.burst == l.burst
  {
    if |calls| == 0 then l
    else
      var before := After(l, calls[..|calls| - 1]);
      Allow(before, calls[|calls| - 1].key, calls[|calls| - 1].at).0
  }

  /** Whether the last of these calls was granted. */
  predicate LastGranted(l: Limiter, calls: seq<Call>)
    requires Configured(l) && |calls| > 0
  {
    Allow(After(l, calls[..|calls| - 1]), calls[|calls| - 1].key, calls[|calls| - 1].at).1
  }

  /** How many of this key's calls between `from` and `to`, both included, were granted. */
  function Granted(l: Limiter, calls: seq<Call>, key: string, from: int, to: int): nat
    requires Configured(l)
  {
    if |calls| == 0 then 0
    else
      var last := calls[|calls| - 1];
      Granted(l, calls[..|calls| - 1], key, from, to)
      + if last.key == key && from <= last.at <= to && LastGranted(l, calls) then 1 else 0
  }

  function LastTime(calls: seq<Call>, start: int): int {
    if |calls| == 0 then start else calls[|calls| - 1].at
  }

  /** The clock never runs backwards. */
  predicate InOrder(calls: seq<Call>, start: int) {
    && (|calls| > 0 ==> start <= calls[0].at)
    && forall i :: 0 < i < |calls| ==> calls[i - 1].at <= calls[i].at
  }

  // ---------------------------------------------------------------- the amortised bound

  ghost predicate BucketsOk(l: Limiter, now: int) {
    forall k :: k in l.buckets ==> 0 <= l.buckets[k].tokens <= l.burst && l.buckets[k].seen <= now
  }

  /** What a key could still spend, in nanoseconds of refill: its tokens and the time
      not yet turned into one. A key without a bucket is full. */
  function Level(l: Limiter, key: string, now: int): int {
    if key in l.buckets then l.buckets[key].tokens * l.interval + (now - l.buckets[key].seen)
    else l.burst * l.interval
  }

  /** Dropping an idle bucket gives nothing away as long as the time it was idle
      would have filled it anyway. */
  predicate SweepIsHarmless(l: Limiter) {
    l.burst * l.interval <= IDLE_BUCKET_TTL + 1
  }

  lemma {:induction false} MulMono(a: int, b: int, n: int)
    requires a <= b && n >= 0
    ensures a * n <= b * n
  {
  }

  lemma {:induction false} MulNext(g: int, n: int)
    ensures (g + 1) * n == g * n + n
  {
  }

  lemma {:induction false} SweepLevel(l: Limiter, key: string, before: int, now: int)
    requires Configured(l) && SweepIsHarmless(l) && BucketsOk(l, before) && before <= now
    ensures BucketsOk(Sweep(l, now), now)
    ensures 0 <= Level(Sweep(l, now), key, now) <= Level(l, key, before) + (now - before)
  {
    MulMono(0, l.burst, l.interval);
    if key in l.buckets {
      MulMono(0, l.buckets[key].tokens, l.interval);
    }
  }

  lemma {:induction false} Quotient(a: int, n: int)
    requires a >= 0 && n > 0
    ensures TruncDiv(a, n) >= 0 && TruncDiv(a, n) * n <= a < TruncDiv(a, n) * n + n
  {
    var q, r := a / n, a % n;
    assert a == n * q + r && 0 <= r < n;
    assert n * q == q * n;
    if q < 0 {
      MulMono(q, -1, n);
    }
  }

  lemma {:induction false} MulCancel(a: int, b: int, n: int)
    requires n > 0 && a * n < b * n
    ensures a < b
  {
    if b <= a {
      MulMono(b, a, n);
    }
  }

  lemma {:induction false} RefillLevel(b: Bucket, interval: int, burst: int, now: int)
    requires interval > 0 && 0 <= b.tokens <= burst && b.seen <= now
    ensures var r := Refill(b, interval, burst, now);
      && 0 <= r.tokens <= burst && r.seen <= now < r.seen + interval
      && r.tokens * interval + (now - r.seen) <= b.tokens * interval + (now - b.seen)
      && r.tokens * interval + (now - r.seen) < burst * interval + interval
  {
    var earned, r := TruncDiv(now - b.seen, interval), Refill(b, interval, burst, now);
    Quotient(now - b.seen, interval);
    MulMono(r.tokens, burst, interval);
    MulMono(r.tokens, b.tokens + earned, interval);
    assert (b.tokens + earned) * interval == b.tokens * interval + earned * interval;
  }

  /** A call spends what it is granted, out of what the key had and the time since. */
  lemma {:induction false} AllowLevel(l: Limiter, caller: string, key: string, before: int, now: int)
    requires Configured(l) && SweepIsHarmless(l) && BucketsOk(l, before) && before <= now
    ensures var (after, granted) := Allow(l, caller, now);
      && BucketsOk(after, now)
      && 0 <= Level(after, key, now)
      && Level(after, key, now) + (if caller == key && granted then l.interval else 0)
         <= Level(l, key, before) + (now - before)
      && (caller == key ==>
           Level(after, key, now) + (if granted then l.interval else 0) < l.burst * l.interval + l.interval)
  {
    SweepLevel(l, key, before, now);
    var kept := Sweep(l, now);
    var found := if caller in kept.buckets then kept.buckets[caller] else Bucket(l.burst, now);
    RefillLevel(found, l.interval, l.burst, now);
    TakeLevel(Refill(found, l.interval, l.burst, now), l.interval);
    hide Refill, Sweep, SweepIsHarmless;
  }

  lemma {:induction false} TakeLevel(b: Bucket, interval: int)
    requires interval > 0 && b.tokens >= 0
    ensures (b.tokens - 1) * interval == b.tokens * interval - interval
    ensures b.tokens * interval >= 0 && (b.tokens > 0 ==> (b.tokens - 1) * interval >= 0)
  {
    MulMono(0, b.tokens, interval);
    if b.tokens > 0 {
      MulMono(0, b.tokens - 1, interval);
    }
  }

  function CeilDiv(a: int, n: int): int
    requires n > 0
  {
    (a + n - 1) / n
  }

  lemma {:induction false} InOrderInit(calls: seq<Call>, start: int)
    requires InOrder(calls, start) && |calls| > 0
    ensures InOrder(calls[..|calls| - 1], start) && LastTime(calls[..|calls| - 1], start) <= calls[|calls| - 1].at
  {
    if |calls| > 1 {
      assert calls[|calls| - 2].at <= calls[|calls| - 1].at;
    }
  }

  /** The arithmetic of one more call, `spent` and `left` being what the grants have
      cost and what the key still has. */
  predicate WithinBudget(g: nat, spent: int, left: int, full: int, t: int, from: int, to: int) {
    && (g > 0 ==> from <= t)
    && (g > 0 && t <= to ==> spent + left <= full + (t - from))
    && spent <= full + (to - from)
  }

  lemma {:induction false} BudgetStep(g: nat, spent: int, left: int, full: int, t: int, from: int, to: int,
        counted: bool, n: int, left': int, now: int)
    requires WithinBudget(g, spent, left, full, t, from, to) && t <= now && from <= to && n > 0 && full >= n - 1
    requires g == 0 ==> spent == 0
    requires left' >= 0 && left' + (if counted then n else 0) <= left + (now - t)
    requires counted ==> from <= now <= to && left' + n <= full
    ensures WithinBudget(if counted then g + 1 else g, if counted then spent + n else spent, left', full, now, from, to)
  {
  }

  /** What the grants of a window have cost so far, against what the key can have had. */
  lemma {:induction false} WindowBudget(l: Limiter, start: int, calls: seq<Call>, key: string, from: int, to: int)
    requires Configured(l) && SweepIsHarmless(l) && BucketsOk(l, start) && InOrder(calls, start) && from <= to
    ensures BucketsOk(After(l, calls), LastTime(calls, start))
    ensures var g, t := Granted(l, calls, key, from, to), LastTime(calls, start);
      WithinBudget(g, g * l.interval, Level(After(l, calls), key, t), Full(l), t, from, to)
  {
    MulMono(0, l.burst, l.interval);
    if |calls| == 0 {
      assert 0 * l.interval == 0;
    } else {
      var init, last := calls[..|calls| - 1], calls[|calls| - 1];
      var t := LastTime(init, start);
      InOrderInit(calls, start);
      WindowBudget(l, start, init, key, from, to);
      var g, before := Granted(l, init, key, from, to), After(l, init);
      AllowLevel(before, last.key, key, t, last.at);
      MulNext(g, l.interval);
      assert g == 0 ==> g * l.interval == 0;
      var counted := last.key == key && from <= last.at <= to && LastGranted(l, calls);
      assert Granted(l, calls, key, from, to) == if counted then g + 1 else g;
      BudgetStep(g, g * l.interval, Level(before, key, t), Full(l), t, from, to, counted, l.interval,
        Level(After(l, calls), key, last.at), last.at);
      hide Allow, Level, BucketsOk, WithinBudget;
    }
  }

  /** A full bucket and the better part of another token. */
  function Full(l: Limiter): int {
    l.burst * l.interval + l.interval - 1
  }

  lemma {:induction false} BudgetToCount(g: nat, burst: int, n: int, d: int)
    requires n > 0 && d >= 0 && g * n <= burst * n + n - 1 + d
    ensures g <= burst + CeilDiv(d, n)
  {
    var q := CeilDiv(d, n);
    Quotient(d + n - 1, n);
    assert d + n - 1 < q * n + n;
    assert (burst + q + 1) * n == burst * n + q * n + n;
    MulCancel(g, burst + q + 1, n);
  }

  /** However a key's calls fall, and however often its bucket is dropped and made
      again, a window grants it at most the burst and one token per interval begun. */
  lemma {:induction false} GrantsAreBounded(l: Limiter, start: int, calls: seq<Call>, key: string, from: int, to: int)
    requires Configured(l) && SweepIsHarmless(l) && BucketsOk(l, start) && InOrder(calls, start) && from <= to
    ensures Granted(l, calls, key, from, to) <= l.burst + CeilDiv(to - from, l.interval)
  {
    WindowBudget(l, start, calls, key, from, to);
    BudgetToCount(Granted(l, calls, key, from, to), l.burst, l.interval, to - from);
  }

  /** Buckets are looked through at most once an hour, and dropped then if and only if
      nobody used them for over an hour; nobody's tokens change. */
  lemma {:induction false} SweepsOnceAnHour(l: Limiter, key: string, now: int)
    ensures var l' := Sweep(l, now); var hour := 3_600 * 1_000_000_000;
      && (now - l.swept < hour ==> l' == l)
      && (now - l.swept >= hour ==>
           && l'.swept == now
           && (key in l'.buckets <==> key in l.buckets && now - l.buckets[key].seen <= hour))
      && (key in l'.buckets ==> l'.buckets[key] == l.buckets[key])
      && l'.interval == l.interval && l'.burst == l.burst
  {
  }

  /** A clock that has gone back is forgiven at once: after any call its key's bucket was
      last seen no later than the call, so nobody waits for the old time to come round. */
  lemma {:induction false} ClockGoingBackIsForgiven(l: Limiter, key: string, now: int)
    requires Configured(l)
    ensures var (after, granted) := Allow(l, key, now);
      && key in after.buckets && after.buckets[key].seen <= now
      && (key in Sweep(l, now).buckets && now < l.buckets[key].seen ==>
           && after.buckets[key].seen == now
           && (granted <==> l.buckets[key].tokens > 0)
           && after.buckets[key].tokens == l.buckets[key].tokens - (if granted then 1 else 0))
  {
    var kept := Sweep(l, now);
    var found := if key in kept.buckets then kept.buckets[key] else Bucket(l.burst, now);
    if now >= found.seen {
      Quotient(now - found.seen, l.interval);
    }
  }

  // ---------------------------------------------------------------- when sweeping gives tokens away

  lemma {:induction false} AfterConcat(l: Limiter, xs: seq<Call>, ys: seq<Call>, key: string, from: int, to: int)
    requires Configured(l)
    ensures After(l, xs + ys) == After(After(l, xs), ys)
    ensures Granted(l, xs + ys, key, from, to)
        == Granted(l, xs, key, from, to) + Granted(After(l, xs), ys, key, from, to)
  {
    if |ys| == 0 {
      assert xs + ys == xs;
    } else {
      assert (xs + ys)[..|xs + ys| - 1] == xs + ys[..|ys| - 1];
      AfterConcat(l, xs, ys[..|ys| - 1], key, from, to);
      hide Allow;
    }
  }

  /** As many calls as the burst, all at once. */
  function Round(key: string, at: int, n: nat): (calls: seq<Call>)
    ensures |calls| == n && forall i :: 0 <= i < n ==> calls[i] == Call(key, at)
  {
    if n == 0 then [] else Round(key, at, n - 1) + [Call(key, at)]
  }

  lemma {:induction false} RoundIsGranted(l: Limiter, key: string, at: int, n: nat, from: int, to: int)
    requires Configured(l) && 0 < n <= l.burst && key !in Sweep(l, at).buckets && from <= at <= to
    ensures var after := After(l, Round(key, at, n));
      && key in after.buckets && after.buckets[key] == Bucket(l.burst - n, at)
      && after.swept == Sweep(l, at).swept
      && Granted(l, Round(key, at, n), key, from, to) == n
  {
    var init := Round(key, at, n - 1);
    assert Round(key, at, n)[..n - 1] == init;
    if n == 1 {
      assert init == [];
      assert After(l, init) == l && Granted(l, init, key, from, to) == 0;
    } else {
      RoundIsGranted(l, key, at, n - 1, from, to);
      assert at - Sweep(l, at).swept < IDLE_BUCKET_TTL;
    }
  }

  const GAP := IDLE_BUCKET_TTL + 1

  /** A round just after every sweep, the bucket of the last one just dropped. */
  function Rounds(key: string, burst: nat, m: nat): seq<Call> {
    if m == 0 then [] else Rounds(key, burst, m - 1) + Round(key, (m - 1) * GAP, burst)
  }

  lemma {:induction false} DropsTheBucket(l: Limiter, key: string, m: nat)
    requires m > 1 && key in l.buckets && l.buckets[key].seen == l.swept == (m - 2) * GAP
    ensures key !in Sweep(l, (m - 1) * GAP).buckets && Sweep(l, (m - 1) * GAP).swept == (m - 1) * GAP
  {
  }

  lemma {:induction false} RoundsAreTimely(key: string, burst: nat, m: nat)
    requires burst > 0 && m > 0
    ensures var calls := Rounds(key, burst, m);
      InOrder(calls, 0) && |calls| > 0 && calls[|calls| - 1].at == (m - 1) * GAP
  {
    var init, round := Rounds(key, burst, m - 1), Round(key, (m - 1) * GAP, burst);
    if m == 1 {
      assert init == [] && init + round == round;
    } else {
      RoundsAreTimely(key, burst, m - 1);
      RoundsInOrder(init, round, m);
    }
  }

  lemma {:induction false} RoundsAreGranted(interval: int, burst: int, key: string, m: nat, to: int)
    requires interval > 0 && burst > 0 && m > 0 && (m - 1) * GAP <= to
    ensures var after := After(NewLimiter(interval, burst, 0), Rounds(key, burst, m));
      key in after.buckets && after.buckets[key].seen == after.swept == (m - 1) * GAP
    ensures Granted(NewLimiter(interval, burst, 0), Rounds(key, burst, m), key, 0, to) == m * burst
  {
    hide Allow, InOrder, Granted, After;
    var l := NewLimiter(interval, burst, 0);
    var init, round := Rounds(key, burst, m - 1), Round(key, (m - 1) * GAP, burst);
    if m == 1 {
      assert init == [] && init + round == round;
      RoundIsGranted(l, key, 0, burst, 0, to);
      assert 1 * burst == burst;
    } else {
      RoundsAreGranted(interval, burst, key, m - 1, to);
      AfterConcat(l, init, round, key, 0, to);
      DropsTheBucket(After(l, init), key, m);
      assert Rounds(key, burst, m) == init + round;
      hide Sweep, Rounds, Round;
      RoundIsGranted(After(l, init), key, (m - 1) * GAP, burst, 0, to);
      MulNext(m - 1, burst);
    }
  }

  lemma {:induction false} RoundsInOrder(init: seq<Call>, round: seq<Call>, m: nat)
    requires m > 1 && InOrder(init, 0) && |init| > 0 && init[|init| - 1].at == (m - 2) * GAP
    requires |round| > 0 && forall i :: 0 <= i < |round| ==> round[i].at == (m - 1) * GAP
    ensures InOrder(init + round, 0) && (init + round)[|init + round| - 1].at == (m - 1) * GAP
  {
    var calls := init + round;
    forall i | 0 < i < |calls| ensures calls[i - 1].at <= calls[i].at {
      if i < |init| {
        assert init[i - 1].at <= init[i].at;
      }
    }
  }

  ghost predicate NeverExceeded(interval: int, burst: int)
    requires interval > 0 && burst >= 0
  {
    forall start: int, calls: seq<Call>, key: string, from: int, to: int | InOrder(calls, start) && from <= to ::
      Granted(NewLimiter(interval, burst, start), calls, key, from, to) <= burst + CeilDiv(to - from, interval)
  }

  lemma {:induction false} CeilOfMultiple(n: int, k: int)
    requires n > 0
    ensures CeilDiv(n * k, n) == k
  {
    var q, r := CeilDiv(n * k, n), (n * k + n - 1) % n;
    assert n * k + n - 1 == n * q + r && 0 <= r < n;
    assert (k + 1) * n == n * k + n && (k - 1) * n == n * k - n && q * n == n * q;
    MulCancel(q, k + 1, n);
    MulCancel(k - 1, q, n);
  }

  lemma {:induction false} RoundsExceed(interval: int, burst: int)
    requires interval > 0 && burst >= 0 && burst * interval > IDLE_BUCKET_TTL + 1
    ensures !NeverExceeded(interval, burst)
  {
    var m, to := interval + 1, interval * GAP;
    assert 0 * interval == 0;
    MulCancel(0, burst, interval);
    RoundsAreTimely("", burst, m);
    RoundsAreGranted(interval, burst, "", m, to);
    MulNext(interval, burst);
    CeilOfMultiple(interval, GAP);
    var l := NewLimiter(interval, burst, 0);
    hide Granted, InOrder, Rounds, CeilDiv, After;
    assert Granted(l, Rounds("", burst, m), "", 0, to) > burst + CeilDiv(to - 0, interval);
  }

  /** The bound is kept by every run of a new limiter exactly when a full refill takes
      no longer than a bucket is kept idle. Above that, a caller who waits out the
      sweep is handed a fresh burst early. */
  lemma {:induction false} BoundHoldsExactlyWhenIdleBucketsAreFull(interval: int, burst: int)
    requires interval > 0 && burst >= 0
    ensures NeverExceeded(interval, burst) <==> burst * interval <= IDLE_BUCKET_TTL + 1
  {
    if burst * interval <= IDLE_BUCKET_TTL + 1 {
      forall start: int, calls: seq<Call>, key: string, from: int, to: int | InOrder(calls, start) && from <= to
        ensures Granted(NewLimiter(interval, burst, start), calls, key, from, to)
            <= burst + CeilDiv(to - from, interval)
      {
        GrantsAreBounded(NewLimiter(interval, burst, start), start, calls, key, from, to);
      }
    } else {
      RoundsExceed(interval, burst);
    }
  }

  /** The five limiters the server runs. */
  lemma {:induction false} EveryLimiterIsBounded()
    ensures NeverExceeded(SECOND, 40) && NeverExceeded(6 * MINUTE, 5) && NeverExceeded(30 * SECOND, 10)
    ensures NeverExceeded(15 * SECOND, 12) && NeverExceeded(MINUTE, 5)
  {
    BoundHoldsExactlyWhenIdleBucketsAreFull(SECOND, 40);
    BoundHoldsExactlyWhenIdleBucketsAreFull(6 * MINUTE, 5);
    BoundHoldsExactlyWhenIdleBucketsAreFull(30 * SECOND, 10);
    BoundHoldsExactlyWhenIdleBucketsAreFull(15 * SECOND, 12);
    BoundHoldsExactlyWhenIdleBucketsAreFull(MINUTE, 5);
  }

  // ---------------------------------------------------------------- nobody is short-changed

  /** The bucket was full at `from`, its clock then standing at `base` or after it by whole
      intervals: since then it has earned k tokens and what is not left was granted. */
  ghost predicate FullSince(l: Limiter, calls: seq<Call>, key: string, to: int, from: int, base: int, k: nat)
    requires Configured(l)
  {
    var after := After(l, calls);
    && key in after.buckets && base <= from
    && after.buckets[key].seen == base + k * l.interval
    && after.buckets[key].tokens + Granted(l, calls, key, from, to) >= l.burst + k
  }

  /** What one refill leaves of a bucket: as many tokens as whole intervals went by, or a
      full bucket, and less than an interval on its clock. */
  lemma {:induction false} RefillCredits(b: Bucket, interval: int, burst: int, now: int)
    requires interval > 0 && 0 <= b.tokens <= burst && b.seen <= now
    ensures var r := Refill(b, interval, burst, now); var earned := TruncDiv(now - b.seen, interval);
      && earned >= 0 && r.seen == b.seen + earned * interval <= now < r.seen + interval
      && 0 <= r.tokens <= burst && (r.tokens == b.tokens + earned || r.tokens == burst)
  {
    Quotient(now - b.seen, interval);
    assert 0 * interval == 0;
  }

  /** Somebody else's call. */
  lemma {:induction false} OthersCall(l: Limiter, calls: seq<Call>, key: string, to: int, from: int, base: int, k: nat)
    requires Configured(l) && |calls| > 0 && calls[|calls| - 1].key != key
    requires FullSince(l, calls[..|calls| - 1], key, to, from, base, k) && key in After(l, calls).buckets
    ensures FullSince(l, calls, key, to, from, base, k)
  {
    hide Refill;
  }

  /** A call finds its bucket and adds the tokens earned to it, or has a full one. */
  lemma {:induction false} AllowCredits(l: Limiter, key: string, now: int) returns (kept: bool, earned: int)
    requires Configured(l) && BucketsOk(l, now)
    ensures var (after, granted) := Allow(l, key, now); var spent := if granted then 1 else 0;
      && key in after.buckets
      && var b := after.buckets[key];
         b.seen <= now < b.seen + l.interval && (!granted ==> b.tokens <= 0)
         && (kept ==>
              && key in l.buckets && earned >= 0
              && b.seen == l.buckets[key].seen + earned * l.interval
              && b.tokens + spent == l.buckets[key].tokens + earned)
         && (!kept ==> b.tokens + spent == l.burst)
  {
    var swept := Sweep(l, now);
    var found := if key in swept.buckets then swept.buckets[key] else Bucket(l.burst, now);
    RefillCredits(found, l.interval, l.burst, now);
    earned := TruncDiv(now - found.seen, l.interval);
    kept := key in swept.buckets && Refill(found, l.interval, l.burst, now).tokens == found.tokens + earned;
    hide Refill;
  }

  /** The key's own call. */
  lemma {:induction false} OwnCall(l: Limiter, calls: seq<Call>, key: string, to: int, from: int, base: int, k: nat,
        start: int)
    returns (from': int, base': int, k': nat)
    requires Configured(l) && |calls| > 0 && calls[|calls| - 1].key == key && calls[|calls| - 1].at <= to
    requires BucketsOk(After(l, calls[..|calls| - 1]), calls[|calls| - 1].at)
    requires start <= from <= calls[|calls| - 1].at
    requires key in After(l, calls[..|calls| - 1]).buckets ==>
      FullSince(l, calls[..|calls| - 1], key, to, from, base, k)
    ensures start <= from' <= calls[|calls| - 1].at && FullSince(l, calls, key, to, from', base', k')
    ensures var b := After(l, calls).buckets[key]; b.seen <= calls[|calls| - 1].at < b.seen + l.interval
    ensures !LastGranted(l, calls) ==> After(l, calls).buckets[key].tokens <= 0
  {
    hide Allow, BucketsOk;
    var init, now := calls[..|calls| - 1], calls[|calls| - 1].at;
    var kept, earned := AllowCredits(After(l, init), key, now);
    if kept {
      from', base', k' := from, base, k + earned;
      assert (k + earned) * l.interval == k * l.interval + earned * l.interval;
    } else {
      from', base', k' := now, After(l, calls).buckets[key].seen, 0;
      assert 0 * l.interval == 0;
    }
  }

  lemma {:induction false} BucketsStayOk(l: Limiter, start: int, calls: seq<Call>)
    requires Configured(l) && BucketsOk(l, start) && InOrder(calls, start)
    ensures BucketsOk(After(l, calls), LastTime(calls, start)) && start <= LastTime(calls, start)
  {
    if |calls| > 0 {
      var init, last := calls[..|calls| - 1], calls[|calls| - 1];
      InOrderInit(calls, start);
      BucketsStayOk(l, start, init);
      AllowKeepsBuckets(After(l, init), last.key, last.key, LastTime(init, start), last.at);
      hide Allow;
    }
  }

  lemma {:induction false} FilledAt(l: Limiter, start: int, calls: seq<Call>, key: string, to: int)
    returns (from: int, base: int, k: nat)
    requires Configured(l) && l.buckets == map[] && InOrder(calls, start) && LastTime(calls, start) <= to
    ensures start <= from <= LastTime(calls, start)
    ensures key in After(l, calls).buckets ==> FullSince(l, calls, key, to, from, base, k)
    ensures |calls| > 0 && calls[|calls| - 1].key == key ==>
      var b, now := After(l, calls).buckets[key], calls[|calls| - 1].at;
      && b.seen <= now < b.seen + l.interval && (!LastGranted(l, calls) ==> b.tokens <= 0)
  {
    from, base, k := start, start, 0;
    if |calls| > 0 {
      var init, last := calls[..|calls| - 1], calls[|calls| - 1];
      InOrderInit(calls, start);
      from, base, k := FilledAt(l, start, init, key, to);
      BucketsStayOk(l, start, init);
      if last.key == key {
        from, base, k := OwnCall(l, calls, key, to, from, base, k, start);
      } else if key in After(l, calls).buckets {
        AllowKeepsBuckets(After(l, init), last.key, key, LastTime(init, start), last.at);
        OthersCall(l, calls, key, to, from, base, k);
      }
    }
  }

  lemma {:induction false} WholeIntervals(k: nat, base: int, from: int, now: int, n: int)
    requires n > 0 && base <= from <= now && now < base + k * n + n
    ensures k >= (now - from) / n
  {
    var q := (now - from) / n;
    Quotient(now - from, n);
    assert q * n < (k + 1) * n by {
      assert (k + 1) * n == k * n + n;
    }
    MulCancel(q, k + 1, n);
  }

  /** Nobody is refused who has not had their due: when a call of a new limiter is refused,
      there is a time since when the key has been granted a whole burst and a token for
      every interval since, to the call that was refused. */
  lemma {:induction false} RefusedMeansTheWindowIsSpent(interval: int, burst: int, start: int, calls: seq<Call>)
    returns (from: int)
    requires interval > 0 && burst >= 0 && InOrder(calls, start) && |calls| > 0
    requires !LastGranted(NewLimiter(interval, burst, start), calls)
    ensures var last := calls[|calls| - 1];
      && start <= from <= last.at
      && Granted(NewLimiter(interval, burst, start), calls, last.key, from, last.at)
         >= burst + (last.at - from) / interval
  {
    var l, last := NewLimiter(interval, burst, start), calls[|calls| - 1];
    var at, base, k := FilledAt(l, start, calls, last.key, last.at);
    WholeIntervals(k, base, at, last.at, interval);
    from := at;
    assert last.key in After(l, calls).buckets;
    hide After, Granted, LastGranted;
  }

  // ---------------------------------------------------------------- patience

  function LastOf(calls: seq<Call>, key: string): Option<int> {
    if |calls| == 0 then None
    else if calls[|calls| - 1].key == key then Some(calls[|calls| - 1].at)
    else LastOf(calls[..|calls| - 1], key)
  }

  /** This key's calls are never less than an interval apart. */
  predicate Spaced(calls: seq<Call>, key: string, interval: int) {
    |calls| == 0
    || (var init, last := calls[..|calls| - 1], calls[|calls| - 1];
        Spaced(init, key, interval)
        && (last.key == key && LastOf(init, key).Some? ==> last.at - LastOf(init, key).value >= interval))
  }

  lemma {:induction false} AllowKeepsBuckets(l: Limiter, caller: string, key: string, before: int, now: int)
    requires Configured(l) && BucketsOk(l, before) && before <= now
    ensures var (after, _) := Allow(l, caller, now);
      && BucketsOk(after, now)
      && (caller == key ==> key in after.buckets)
      && (caller != key && key in after.buckets ==> key in l.buckets && after.buckets[key] == l.buckets[key])
  {
    var kept := Sweep(l, now);
    RefillLevel(if caller in kept.buckets then kept.buckets[caller] else Bucket(l.burst, now), l.interval, l.burst,
      now);
    hide Refill;
  }

  lemma {:induction false} PatientCallIsGranted(l: Limiter, key: string, before: int, now: int)
    requires Configured(l) && l.burst > 0 && BucketsOk(l, before) && before <= now
    requires key in l.buckets ==> now - l.buckets[key].seen >= l.interval
    ensures Allow(l, key, now).1
  {
    if key in Sweep(l, now).buckets {
      var b := l.buckets[key];
      Quotient(now - b.seen, l.interval);
      assert 0 * l.interval == 0;
      MulCancel(0, TruncDiv(now - b.seen, l.interval), l.interval);
    }
  }

  lemma {:induction false} BucketSeenByLastCall(l: Limiter, start: int, calls: seq<Call>, key: string)
    requires Configured(l) && BucketsOk(l, start) && InOrder(calls, start) && key !in l.buckets
    ensures var after := After(l, calls);
      && BucketsOk(after, LastTime(calls, start))
      && (key in after.buckets ==> LastOf(calls, key).Some? && after.buckets[key].seen <= LastOf(calls, key).value)
  {
    if |calls| > 0 {
      var init, last := calls[..|calls| - 1], calls[|calls| - 1];
      InOrderInit(calls, start);
      BucketSeenByLastCall(l, start, init, key);
      AllowKeepsBuckets(After(l, init), last.key, key, LastTime(init, start), last.at);
      hide Allow;
    }
  }

  /** A caller who leaves an interval between calls is never refused, whatever
      everybody else does and whenever the sweeper runs. */
  lemma {:induction false} PatientCallerIsNeverRefused(l: Limiter, start: int, calls: seq<Call>, key: string)
    requires Configured(l) && l.burst > 0 && BucketsOk(l, start) && key !in l.buckets
    requires InOrder(calls, start) && Spaced(calls, key, l.interval)
    requires |calls| > 0 && calls[|calls| - 1].key == key
    ensures LastGranted(l, calls)
  {
    var init, last := calls[..|calls| - 1], calls[|calls| - 1];
    InOrderInit(calls, start);
    BucketSeenByLastCall(l, start, init, key);
    PatientCallIsGranted(After(l, init), key, LastTime(init, start), last.at);
  }
}
