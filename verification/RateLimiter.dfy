/**
 What the sweeping, many-keyed limiter guarantees over whole call histories: it answers
 exactly like one never-evicted bucket per key, and that answer is exactly a window bound.
 */
module RateLimiter {
  import opened TokenBucket

  // ---------------------------------------------------------------------------
  // Exact admission for a bucket that is never evicted
  // ---------------------------------------------------------------------------

  lemma OwnVerdictIsWindowBound(p: Params, h: seq<Call>, v: seq<bool>, n: nat)
    requires n < |h| == |v|
    requires forall i | 0 <= i < n :: v[i] == OwnVerdict(p, h, i)
    ensures OwnVerdict(p, h, n) <==> FitsEveryWindow(p, h, v, n)
  {
    var past, answers, key, t := h[..n], v[..n], h[n].key, h[n].time;
    forall i | 0 <= i < n ensures answers[i] == OwnVerdict(p, past, i) {
      assert past[..i] == h[..i];
    }
    AvailableIsLeastSlack(p, past, answers, key, t, 1.0);
    forall j | 0 <= j < n ensures Admitted(h, v, key, j, n) == Admitted(past, answers, key, j, n) {
      AdmittedLocal(h, v, past, answers, key, j, n);
    }
    assert Admitted(h, v, key, n, n) == 0 && Gain(p, t, t) == 0.0;
    assert WindowFits(p, h, v, n, n) <==> 1.0 <= p.burst as real;
    forall j: nat | j < n && h[j].key == key
      ensures past[j].key == key && (Slack(p, past, answers, j, t) >= 1.0 <==> WindowFits(p, h, v, j, n))
    {
      assert past[j] == h[j];
    }
  }

  /** A key's own bucket is moved by its own calls alone. */
  ghost function Only(h: seq<Call>, key: string): seq<Call> {
    if h == [] then []
    else Only(h[..|h| - 1], key) + if h[|h| - 1].key == key then [h[|h| - 1]] else []
  }

  lemma {:induction false} OwnBucketIgnoresOthers(p: Params, h: seq<Call>, key: string, t: real)
    ensures Available(p, h, key, t) == Available(p, Only(h, key), key, t)
    decreases |h|
  {
    if h != [] {
      var rest, c := h[..|h| - 1], h[|h| - 1];
      if c.key == key {
        OwnBucketIgnoresOthers(p, rest, key, c.time);
        assert Only(h, key)[..|Only(h, key)| - 1] == Only(rest, key);
      } else {
        OwnBucketIgnoresOthers(p, rest, key, t);
        assert Only(h, key) == Only(rest, key);
      }
    }
  }

  // ---------------------------------------------------------------------------
  // What the sweep deletes
  // ---------------------------------------------------------------------------

  /**
   A call that comes a minute or more after the last sweep deletes exactly the buckets idle for
   more than ten minutes and counts as a sweep; any other call deletes nothing.
   */
  lemma CallSweeps(p: Params, l: Limiter, c: Call)
    ensures var after := After(p, l, c);
      && c.key in after.buckets && after.buckets[c.key].last == c.time
      && (forall k | k in after.buckets && k != c.key :: k in l.buckets && after.buckets[k] == l.buckets[k])
      && (forall k | k in l.buckets && k != c.key ::
        k in after.buckets <==> c.time - l.lastSweep < 60.0 || c.time - l.buckets[k].last <= 600.0)
      && after.lastSweep == if c.time - l.lastSweep < 60.0 then l.lastSweep else c.time
  {
  }

  /** The last sweep was less than a minute ago, and left nothing idle for more than ten. */
  ghost predicate Swept(l: Limiter, t: real) {
    && 0.0 <= t - l.lastSweep < 60.0
    && forall k | k in l.buckets :: l.lastSweep - l.buckets[k].last <= 600.0
  }

  lemma CallKeepsSwept(p: Params, l: Limiter, t: real, c: Call)
    requires t <= c.time && (Swept(l, t) || (l.buckets == map[] && l.lastSweep <= c.time))
    ensures Swept(After(p, l, c), c.time)
  {
    CallSweeps(p, l, c);
    hide After;
  }

  lemma {:induction false} ReplayIsSwept(p: Params, start: real, h: seq<Call>)
    requires Chronological(start, h) && h != []
    ensures Swept(Replay(p, start, h).limiter, h[|h| - 1].time)
    decreases |h|
  {
    var rest, c := h[..|h| - 1], h[|h| - 1];
    hide Swept, After, Admits;
    if rest == [] {
      CallKeepsSwept(p, Replay(p, start, rest).limiter, c.time, c);
    } else {
      ReplayIsSwept(p, start, rest);
      CallKeepsSwept(p, Replay(p, start, rest).limiter, rest[|rest| - 1].time, c);
    }
  }

  /** After every call no bucket has been idle for longer than eleven minutes, so idle keys do not pile up. */
  lemma NoBucketIsStale(p: Params, start: real, h: seq<Call>)
    requires Chronological(start, h) && h != []
    ensures var l, t := Replay(p, start, h).limiter, h[|h| - 1].time;
      forall k | k in l.buckets :: t - l.buckets[k].last <= 660.0
  {
    hide Replay;
    ReplayIsSwept(p, start, h);
  }

  // ---------------------------------------------------------------------------
  // The sweep: when it cannot be seen
  // ---------------------------------------------------------------------------

  /** An idle bucket is full again before the sweep may delete it. */
  predicate RefillsBeforeEviction(p: Params) {
    p.rate * BUCKET_TTL >= p.burst as real
  }

  function Latest(start: real, h: seq<Call>): real {
    if h == [] then start else h[|h| - 1].time
  }

  ghost predicate Settled(p: Params, l: Limiter, now: real) {
    && l.lastSweep <= now
    && forall k | k in l.buckets :: 0.0 <= l.buckets[k].tokens <= p.burst as real && l.buckets[k].last <= now
  }

  /** From `now` on, every key finds in the limiter what its own bucket would give it. */
  ghost predicate Tracks(p: Params, l: Limiter, h: seq<Call>, now: real) {
    forall key, t | now <= t :: Refilled(p, BucketFor(p, l, Call(key, t)), t) == Available(p, h, key, t)
  }

  lemma ProductGrows(x: real, y: real, z: real)
    requires x >= y && z >= 0.0
    ensures x * z >= y * z
  {
  }

  lemma GainWhileIdle(p: Params, from: real, now: real, to: real)
    requires p.burst >= 1 && RefillsBeforeEviction(p) && from <= now <= to
    ensures 0.0 <= Gain(p, from, to)
    ensures now - from > BUCKET_TTL ==> p.burst as real <= Gain(p, from, to)
  {
    assert p.rate > 0.0;
    ProductGrows(to - from, 0.0, p.rate);
    if now - from > BUCKET_TTL {
      ProductGrows(to - from, BUCKET_TTL, p.rate);
    }
  }

  lemma LongIdleIsFull(p: Params, b: Level, now: real, t: real)
    requires p.burst >= 1 && RefillsBeforeEviction(p)
    requires 0.0 <= b.tokens && now - b.last > BUCKET_TTL && now <= t
    ensures Refilled(p, b, t) == p.burst as real
  {
    GainWhileIdle(p, b.last, now, t);
  }

  lemma SweepKeepsTracking(p: Params, l: Limiter, h: seq<Call>, now: real)
    requires p.burst >= 1 && RefillsBeforeEviction(p)
    requires Settled(p, l, now) && Tracks(p, l, h, now)
    ensures Settled(p, Sweep(l, now), now) && Tracks(p, Sweep(l, now), h, now)
  {
    forall key, t | now <= t
      ensures Refilled(p, BucketFor(p, Sweep(l, now), Call(key, t)), t) == Available(p, h, key, t)
    {
      assert Refilled(p, BucketFor(p, l, Call(key, t)), t) == Available(p, h, key, t);
      if key in l.buckets && key !in Sweep(l, now).buckets {
        LongIdleIsFull(p, l.buckets[key], now, t);
      }
    }
  }

  lemma RefillIsNonNegative(p: Params, b: Level, now: real)
    requires p.burst >= 1 && RefillsBeforeEviction(p)
    requires 0.0 <= b.tokens && b.last <= now
    ensures 0.0 <= Refilled(p, b, now) <= p.burst as real
  {
    GainWhileIdle(p, b.last, now, now);
  }

  lemma CallKeepsTracking(p: Params, l: Limiter, h: seq<Call>, c: Call)
    requires p.burst >= 1 && RefillsBeforeEviction(p)
    requires Settled(p, l, c.time) && Tracks(p, l, h, c.time)
    ensures Admits(p, l, c) <==> Available(p, h, c.key, c.time) >= 1.0
    ensures Settled(p, After(p, l, c), c.time) && Tracks(p, After(p, l, c), h + [c], c.time)
  {
    var swept := Sweep(l, c.time);
    SweepKeepsTracking(p, l, h, c.time);
    assert Refilled(p, BucketFor(p, swept, Call(c.key, c.time)), c.time) == Available(p, h, c.key, c.time);
    assert BucketFor(p, swept, c) == BucketFor(p, swept, Call(c.key, c.time));
    RefillIsNonNegative(p, BucketFor(p, swept, c), c.time);
    assert (h + [c])[..|h|] == h;
    forall key, t | c.time <= t
      ensures Refilled(p, BucketFor(p, After(p, l, c), Call(key, t)), t) == Available(p, h + [c], key, t)
    {
      if key == c.key {
        assert Drawn(p, BucketFor(p, swept, c), c.time) == Own(p, h, c);
      } else {
        assert Refilled(p, BucketFor(p, swept, Call(key, t)), t) == Available(p, h, key, t);
      }
    }
  }

  lemma {:induction false} ReplayTracks(p: Params, start: real, h: seq<Call>)
    requires p.burst >= 1 && RefillsBeforeEviction(p) && Chronological(start, h)
    ensures Settled(p, Replay(p, start, h).limiter, Latest(start, h))
    ensures Tracks(p, Replay(p, start, h).limiter, h, Latest(start, h))
    decreases |h|
  {
    if h != [] {
      var rest, c := h[..|h| - 1], h[|h| - 1];
      ReplayTracks(p, start, rest);
      assert Latest(start, rest) <= c.time;
      CallKeepsTracking(p, Replay(p, start, rest).limiter, rest, c);
      assert rest + [c] == h;
    }
  }

  lemma {:induction false} ReplayVerdict(p: Params, start: real, h: seq<Call>, n: nat)
    requires n < |h|
    ensures Replay(p, start, h).verdicts[n] == Admits(p, Replay(p, start, h[..n]).limiter, h[n])
    decreases |h|
  {
    if n < |h| - 1 {
      ReplayVerdict(p, start, h[..|h| - 1], n);
      assert h[..|h| - 1][..n] == h[..n];
    }
  }

  /** Every answer of the limiter is the answer of the caller's own never-evicted bucket. */
  ghost predicate SweepIsInvisible(p: Params) {
    forall start, h: seq<Call>, n: nat | Chronological(start, h) && n < |h| ::
      Replay(p, start, h).verdicts[n] == OwnVerdict(p, h, n)
  }

  lemma NothingFitsAnEmptyBucket(p: Params, h: seq<Call>, key: string, t: real)
    ensures Available(p, h, key, t) <= p.burst as real
    decreases |h|
  {
    if h != [] && h[|h| - 1].key != key {
      NothingFitsAnEmptyBucket(p, h[..|h| - 1], key, t);
    }
  }

  lemma SameAnswer(p: Params, start: real, h: seq<Call>, n: nat)
    requires p.burst < 1 || RefillsBeforeEviction(p)
    requires Chronological(start, h) && n < |h|
    ensures Replay(p, start, h).verdicts[n] == OwnVerdict(p, h, n)
  {
    ReplayVerdict(p, start, h, n);
    if p.burst >= 1 {
      ReplayTracks(p, start, h[..n]);
      assert Latest(start, h[..n]) <= h[n].time;
      CallKeepsTracking(p, Replay(p, start, h[..n]).limiter, h[..n], h[n]);
    } else {
      NothingFitsAnEmptyBucket(p, h[..n], h[n].key, h[n].time);
    }
  }

  // ---------------------------------------------------------------------------
  // The sweep: when it can be seen. Drain a bucket, stay idle just past the TTL,
  // and drain again: the deleted bucket comes back full, the kept one does not.
  // ---------------------------------------------------------------------------

  ghost function TwoBursts(burst: nat, late: real, n: nat): seq<Call> {
    seq(n, i => Call("", if i < burst then 0.0 else late))
  }

  ghost function Drained(p: Params, late: real, n: nat): Limiter {
    if n == 0 then Limiter(map[], 0.0)
    else if n <= p.burst then Limiter(map["" := Level((p.burst - n) as real, 0.0)], 0.0)
    else Limiter(map["" := Level((2 * p.burst - n) as real, late)], late)
  }

  /** A call at the very time its bucket was last touched just takes one token. */
  lemma DrawAtOnce(p: Params, swept: Limiter, c: Call)
    requires p.burst >= 1
    requires c.key in swept.buckets ==>
      1.0 <= swept.buckets[c.key].tokens <= p.burst as real && swept.buckets[c.key].last == c.time
    ensures Refilled(p, BucketFor(p, swept, c), c.time) == BucketFor(p, swept, c).tokens >= 1.0
    ensures Drawn(p, BucketFor(p, swept, c), c.time) == Level(BucketFor(p, swept, c).tokens - 1.0, c.time)
  {
    var b := BucketFor(p, swept, c);
    assert b.last == c.time && Gain(p, b.last, c.time) == 0.0;
  }

  lemma DrainStep(p: Params, late: real, n: nat, c: Call)
    requires 1 <= p.burst && 1 <= n <= 2 * p.burst && late > BUCKET_TTL
    requires c == Call("", if n <= p.burst then 0.0 else late)
    ensures Admits(p, Drained(p, late, n - 1), c) && After(p, Drained(p, late, n - 1), c) == Drained(p, late, n)
  {
    var l := Drained(p, late, n - 1);
    assert Sweep(l, c.time) == if n == p.burst + 1 then Limiter(map[], late) else l;
    DrawAtOnce(p, Sweep(l, c.time), c);
  }

  lemma {:induction false} TwoBurstsAllAdmitted(p: Params, late: real, n: nat)
    requires 1 <= p.burst && n <= 2 * p.burst && late > BUCKET_TTL
    ensures forall i | 0 <= i < n :: Replay(p, 0.0, TwoBursts(p.burst, late, n)).verdicts[i]
    ensures Replay(p, 0.0, TwoBursts(p.burst, late, n)).limiter == Drained(p, late, n)
  {
    if n > 0 {
      var h := TwoBursts(p.burst, late, n);
      assert h[..n - 1] == TwoBursts(p.burst, late, n - 1);
      TwoBurstsAllAdmitted(p, late, n - 1);
      DrainStep(p, late, n, h[n - 1]);
    }
  }

  lemma QuotientTimes(x: real, y: real)
    requires y > 0.0
    ensures y * (x / y) == x
  {
  }

  lemma ProductGrowsStrictly(x: real, y: real, z: real)
    requires x < y && z > 0.0
    ensures z * x < z * y
  {
  }

  /** Longer than the TTL, and too short for a burst to refill. */
  lemma JustTooLate(p: Params) returns (late: real)
    requires 1 <= p.burst && !RefillsBeforeEviction(p)
    ensures late > BUCKET_TTL && p.rate * late < p.burst as real
  {
    if p.rate <= 0.0 {
      late := 601.0;
      ProductGrows(0.0, p.rate, 601.0);
    } else {
      var limit := p.burst as real / p.rate;
      QuotientTimes(p.burst as real, p.rate);
      if limit <= BUCKET_TTL {
        ProductGrows(BUCKET_TTL, limit, p.rate);
      }
      late := (BUCKET_TTL + limit) / 2.0;
      ProductGrowsStrictly(late, limit, p.rate);
    }
  }

  lemma AllAdmitted(h: seq<Call>, v: seq<bool>, lo: nat, hi: nat)
    requires lo <= hi <= |h| == |v|
    requires forall i | lo <= i < hi :: v[i] && h[i].key == ""
    ensures Admitted(h, v, "", lo, hi) == hi - lo
    decreases hi - lo
  {
  }

  lemma SecondBurstDoesNotFit(p: Params, h: seq<Call>, v: seq<bool>, late: real)
    requires 1 <= p.burst && p.rate * late < p.burst as real
    requires h == TwoBursts(p.burst, late, 2 * p.burst)
    requires |v| == |h| && forall i | 0 <= i < |v| :: v[i]
    ensures !FitsEveryWindow(p, h, v, |h| - 1)
  {
    var last := |h| - 1;
    assert forall i | 0 <= i < last :: h[i].key == "";
    AllAdmitted(h, v, 0, last);
    assert h[0] == Call("", 0.0) && h[last] == Call("", late);
    assert Gain(p, 0.0, late) == p.rate * late;
    assert !WindowFits(p, h, v, 0, last);
  }

  lemma SecondBurstIsShort(p: Params, late: real) returns (n: nat)
    requires 1 <= p.burst && p.rate * late < p.burst as real
    ensures n < 2 * p.burst && !OwnVerdict(p, TwoBursts(p.burst, late, 2 * p.burst), n)
  {
    var h, last := TwoBursts(p.burst, late, 2 * p.burst), 2 * p.burst - 1;
    if i: nat :| i < last && !OwnVerdict(p, h, i) {
      n := i;
    } else {
      var v := seq(2 * p.burst, _ => true);
      OwnVerdictIsWindowBound(p, h, v, last);
      SecondBurstDoesNotFit(p, h, v, late);
      n := last;
    }
  }

  lemma SweepShows(p: Params) returns (h: seq<Call>, n: nat)
    requires 1 <= p.burst && !RefillsBeforeEviction(p)
    ensures Chronological(0.0, h) && n < |h|
    ensures Replay(p, 0.0, h).verdicts[n] != OwnVerdict(p, h, n)
  {
    var late := JustTooLate(p);
    h := TwoBursts(p.burst, late, 2 * p.burst);
    TwoBurstsAllAdmitted(p, late, 2 * p.burst);
    n := SecondBurstIsShort(p, late);
  }

  /** The sweep is invisible exactly when an idle bucket refills within the TTL (or never admits at all). */
  lemma SweepIsInvisibleIff(p: Params)
    ensures SweepIsInvisible(p) <==> p.burst < 1 || RefillsBeforeEviction(p)
  {
    if p.burst < 1 || RefillsBeforeEviction(p) {
      forall start, h: seq<Call>, n: nat | Chronological(start, h) && n < |h|
        ensures Replay(p, start, h).verdicts[n] == OwnVerdict(p, h, n)
      {
        SameAnswer(p, start, h, n);
      }
    } else {
      var h, n := SweepShows(p);
    }
  }

  // ---------------------------------------------------------------------------
  // What a caller of the real, sweeping limiter may rely on
  // ---------------------------------------------------------------------------

  /** A call is admitted if and only if admitting it keeps every window of its key within bounds. */
  lemma ExactAdmission(p: Params, start: real, h: seq<Call>, n: nat)
    requires p.burst < 1 || RefillsBeforeEviction(p)
    requires Chronological(start, h) && n < |h|
    ensures Replay(p, start, h).verdicts[n] <==> FitsEveryWindow(p, h, Replay(p, start, h).verdicts, n)
  {
    forall i: nat | i <= n ensures Replay(p, start, h).verdicts[i] == OwnVerdict(p, h, i) {
      SameAnswer(p, start, h, i);
    }
    OwnVerdictIsWindowBound(p, h, Replay(p, start, h).verdicts, n);
  }

  lemma LongerWindowGainsMore(p: Params, a: real, b: real, from: real, to: real)
    requires p.rate >= 0.0 && from <= a <= b <= to
    ensures p.burst as real <= Allowance(p, a, b) <= Allowance(p, from, to)
  {
  }

  lemma AdmittedSkipsOther(h: seq<Call>, v: seq<bool>, key: string, lo: nat, hi: nat)
    requires lo < hi <= |h| == |v| && h[lo].key != key
    ensures Admitted(h, v, key, lo, hi) == Admitted(h, v, key, lo + 1, hi)
    decreases hi - lo
  {
    if lo + 1 < hi {
      AdmittedSkipsOther(h, v, key, lo, hi - 1);
    }
  }

  lemma {:induction false} BudgetOfFittingCalls(p: Params, start: real, h: seq<Call>, v: seq<bool>, key: string,
      lo: nat, hi: nat)
    requires p.burst >= 0 && p.rate >= 0.0 && |v| == |h|
    requires Chronological(start, h) && lo < hi <= |h|
    requires forall n: nat | n < |h| && v[n] :: FitsEveryWindow(p, h, v, n)
    ensures Admitted(h, v, key, lo, hi) as real <= Allowance(p, h[lo].time, h[hi - 1].time)
    decreases hi - lo
  {
    var n := hi - 1;
    LongerWindowGainsMore(p, h[lo].time, h[n].time, h[lo].time, h[n].time);
    if h[lo].key != key {
      AdmittedSkipsOther(h, v, key, lo, hi);
      if lo < n {
        BudgetOfFittingCalls(p, start, h, v, key, lo + 1, hi);
        LongerWindowGainsMore(p, h[lo + 1].time, h[n].time, h[lo].time, h[n].time);
      }
    } else if h[n].key == key && v[n] {
      assert WindowFits(p, h, v, lo, n);
    } else if lo < n {
      BudgetOfFittingCalls(p, start, h, v, key, lo, n);
      LongerWindowGainsMore(p, h[lo].time, h[n - 1].time, h[lo].time, h[n].time);
    }
  }

  /** Whatever other keys do, one key gets at most burst plus the refill of the window. */
  lemma WindowBudget(p: Params, start: real, h: seq<Call>, key: string, lo: nat, hi: nat)
    requires p.burst >= 0 && p.rate >= 0.0 && RefillsBeforeEviction(p)
    requires Chronological(start, h) && lo < hi <= |h|
    ensures Admitted(h, Replay(p, start, h).verdicts, key, lo, hi) as real <= Allowance(p, h[lo].time, h[hi - 1].time)
  {
    var v := Replay(p, start, h).verdicts;
    forall n: nat | n < |h| && v[n] ensures FitsEveryWindow(p, h, v, n) {
      ExactAdmission(p, start, h, n);
    }
    BudgetOfFittingCalls(p, start, h, v, key, lo, hi);
  }

  // The three limiters the server builds.
  const MESSAGE_LIMITER := Params(5.0, 20)
  const PUBLIC_LIMITER := Params(1.0, 5)
  const METRICS_LIMITER := Params(2.0, 10)

  /** A rate-limited endpoint admits a client exactly while every window of its calls stays within 5 + T. */
  lemma PublicLimiterAdmits(start: real, h: seq<Call>, n: nat)
    requires Chronological(start, h) && n < |h|
    ensures var v := Replay(PUBLIC_LIMITER, start, h).verdicts;
      v[n] <==> forall j | 0 <= j <= n && h[j].key == h[n].key ::
        Admitted(h, v, h[n].key, j, n) as real + 1.0 <= 5.0 + (h[n].time - h[j].time)
  {
    ExactAdmission(PUBLIC_LIMITER, start, h, n);
    var v := Replay(PUBLIC_LIMITER, start, h).verdicts;
    assert forall j: nat | j <= n ::
      WindowFits(PUBLIC_LIMITER, h, v, j, n)
      <==> Admitted(h, v, h[n].key, j, n) as real + 1.0 <= 5.0 + (h[n].time - h[j].time);
  }

  /** The metrics endpoint, 10 + 2T. */
  lemma MetricsLimiterAdmits(start: real, h: seq<Call>, n: nat)
    requires Chronological(start, h) && n < |h|
    ensures var v := Replay(METRICS_LIMITER, start, h).verdicts;
      v[n] <==> forall j | 0 <= j <= n && h[j].key == h[n].key ::
        Admitted(h, v, h[n].key, j, n) as real + 1.0 <= 10.0 + 2.0 * (h[n].time - h[j].time)
  {
    ExactAdmission(METRICS_LIMITER, start, h, n);
    var v := Replay(METRICS_LIMITER, start, h).verdicts;
    assert forall j: nat | j <= n ::
      WindowFits(METRICS_LIMITER, h, v, j, n)
      <==> Admitted(h, v, h[n].key, j, n) as real + 1.0 <= 10.0 + 2.0 * (h[n].time - h[j].time);
  }

  /** The message limiter, 20 + 5T. */
  lemma MessageLimiterAdmits(start: real, h: seq<Call>, n: nat)
    requires Chronological(start, h) && n < |h|
    ensures var v := Replay(MESSAGE_LIMITER, start, h).verdicts;
      v[n] <==> forall j | 0 <= j <= n && h[j].key == h[n].key ::
        Admitted(h, v, h[n].key, j, n) as real + 1.0 <= 20.0 + 5.0 * (h[n].time - h[j].time)
  {
    ExactAdmission(MESSAGE_LIMITER, start, h, n);
    var v := Replay(MESSAGE_LIMITER, start, h).verdicts;
    assert forall j: nat | j <= n ::
      WindowFits(MESSAGE_LIMITER, h, v, j, n)
      <==> Admitted(h, v, h[n].key, j, n) as real + 1.0 <= 20.0 + 5.0 * (h[n].time - h[j].time);
  }

  lemma ServerLimitersNeverShowTheSweep()
    ensures SweepIsInvisible(MESSAGE_LIMITER) && SweepIsInvisible(PUBLIC_LIMITER) && SweepIsInvisible(METRICS_LIMITER)
  {
    SweepIsInvisibleIff(MESSAGE_LIMITER);
    SweepIsInvisibleIff(PUBLIC_LIMITER);
    SweepIsInvisibleIff(METRICS_LIMITER);
  }
}
