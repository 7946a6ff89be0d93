/**
 The arithmetic of the keyed token-bucket limiter as functions on values: what one call
 does to one bucket, what the sweep deletes, and what a whole history of calls answers.
 Times are seconds as reals; the limiter reads a clock that never goes backwards.
 */
module TokenBucket {

  const SWEEP_INTERVAL := 60.0
  const BUCKET_TTL := 600.0

  /** Refill rate in tokens per second, and the capacity every bucket starts with. */
  datatype Params = Params(rate: real, burst: int)

  datatype Level = Level(tokens: real, last: real)

  datatype Limiter = Limiter(buckets: map<string, Level>, lastSweep: real)

  datatype Call = Call(key: string, time: real)

  /** The limiter after a history, and the answers it gave. */
  datatype Outcome = Outcome(limiter: Limiter, verdicts: seq<bool>)

  function Full(p: Params, now: real): Level {
    Level(p.burst as real, now)
  }

  /** Tokens that flow in between two times. */
  function Gain(p: Params, from: real, to: real): real {
    (to - from) * p.rate
  }

  /** Tokens a bucket holds once the time since its last use has been credited. */
  function Refilled(p: Params, b: Level, now: real): real {
    var tokens := b.tokens + Gain(p, b.last, now);
    if tokens > p.burst as real then p.burst as real else tokens
  }

  /** The bucket after a call at `now`: one token lighter exactly when the call was admitted. */
  function Drawn(p: Params, b: Level, now: real): Level {
    var tokens := Refilled(p, b, now);
    Level(if tokens < 1.0 then tokens else tokens - 1.0, now)
  }

  function Sweep(l: Limiter, now: real): Limiter {
    if now - l.lastSweep < SWEEP_INTERVAL then l
    else Limiter(map k | k in l.buckets && now - l.buckets[k].last <= BUCKET_TTL :: l.buckets[k], now)
  }

  function BucketFor(p: Params, l: Limiter, c: Call): Level {
    if c.key in l.buckets then l.buckets[c.key] else Full(p, c.time)
  }

  function Admits(p: Params, l: Limiter, c: Call): bool {
    Refilled(p, BucketFor(p, Sweep(l, c.time), c), c.time) >= 1.0
  }

  function After(p: Params, l: Limiter, c: Call): Limiter {
    var swept := Sweep(l, c.time);
    swept.(buckets := swept.buckets[c.key := Drawn(p, BucketFor(p, swept, c), c.time)])
  }

  /** Every call of `h`, in order, against a limiter created empty at `start`. */
  function Replay(p: Params, start: real, h: seq<Call>): (o: Outcome)
    ensures |o.verdicts| == |h|
  {
    if h == [] then Outcome(Limiter(map[], start), [])
    else
      var before := Replay(p, start, h[..|h| - 1]);
      var c := h[|h| - 1];
      Outcome(After(p, before.limiter, c), before.verdicts + [Admits(p, before.limiter, c)])
  }

  ghost predicate Chronological(start: real, h: seq<Call>) {
    && (forall i | 0 <= i < |h| :: start <= h[i].time)
    && (forall i, j | 0 <= i < j < |h| :: h[i].time <= h[j].time)
  }

  // ---------------------------------------------------------------------------
  // The reference: a bucket of its own for every key, never evicted.
  // ---------------------------------------------------------------------------

  /** What a call for `key` at `t` finds in the key's own bucket after `h`. */
  ghost function Available(p: Params, h: seq<Call>, key: string, t: real): real
    decreases |h|, 0
  {
    if h == [] then p.burst as real
    else
      var rest, c := h[..|h| - 1], h[|h| - 1];
      if c.key != key then Available(p, rest, key, t)
      else Refilled(p, Own(p, rest, c), t)
  }

  /** The key's own bucket just after call `c` made on top of `h`. */
  ghost function Own(p: Params, h: seq<Call>, c: Call): Level
    decreases |h|, 1
  {
    var found := Available(p, h, c.key, c.time);
    Level(if found < 1.0 then found else found - 1.0, c.time)
  }

  /** The reference answer to the n-th call of `h`. */
  ghost predicate OwnVerdict(p: Params, h: seq<Call>, n: nat)
    requires n < |h|
  {
    Available(p, h[..n], h[n].key, h[n].time) >= 1.0
  }

  /** Calls for `key` among `h[lo..hi]` that were answered yes. */
  ghost function Admitted(h: seq<Call>, v: seq<bool>, key: string, lo: nat, hi: nat): nat
    requires lo <= hi <= |h| && |v| == |h|
    decreases hi - lo
  {
    if lo == hi then 0
    else Admitted(h, v, key, lo, hi - 1) + if h[hi - 1].key == key && v[hi - 1] then 1 else 0
  }

  /** What a bucket can give between two times: a full burst and the refill. */
  ghost function Allowance(p: Params, from: real, to: real): real {
    p.burst as real + Gain(p, from, to)
  }

  /** Call n on top of those already admitted since call j stays within the allowance of that window. */
  ghost predicate WindowFits(p: Params, h: seq<Call>, v: seq<bool>, j: nat, n: nat)
    requires j <= n < |h| && |v| == |h|
  {
    Admitted(h, v, h[n].key, j, n) as real + 1.0 <= Allowance(p, h[j].time, h[n].time)
  }

  /** Admitting call n would keep every window of its key that ends with it within its allowance. */
  ghost predicate FitsEveryWindow(p: Params, h: seq<Call>, v: seq<bool>, n: nat)
    requires n < |h| && |v| == |h|
  {
    forall j {:trigger WindowFits(p, h, v, j, n)} | 0 <= j <= n && h[j].key == h[n].key :: WindowFits(p, h, v, j, n)
  }

  /** Tokens the window starting at call j still leaves at `t`. */
  ghost function Slack(p: Params, h: seq<Call>, v: seq<bool>, j: nat, t: real): real
    requires j < |h| == |v|
  {
    Allowance(p, h[j].time, t) - Admitted(h, v, h[j].key, j, |h|) as real
  }

  /** A demand of `x` tokens for `key` at `t` fits every window that the history opens. */
  ghost predicate Fits(p: Params, h: seq<Call>, v: seq<bool>, key: string, t: real, x: real)
    requires |v| == |h|
  {
    && x <= p.burst as real
    && forall j {:trigger Slack(p, h, v, j, t)} | 0 <= j < |h| && h[j].key == key :: x <= Slack(p, h, v, j, t)
  }

  lemma AdmittedLocal(h: seq<Call>, v: seq<bool>, g: seq<Call>, w: seq<bool>, key: string, lo: nat, hi: nat)
    requires |v| == |h| && |w| == |g| && lo <= hi <= |h| && hi <= |g|
    requires h[..hi] == g[..hi] && v[..hi] == w[..hi]
    ensures Admitted(h, v, key, lo, hi) == Admitted(g, w, key, lo, hi)
    decreases hi - lo
  {
    if lo < hi {
      assert h[hi - 1] == h[..hi][hi - 1] == g[hi - 1] && v[hi - 1] == v[..hi][hi - 1] == w[hi - 1];
      assert h[..hi - 1] == h[..hi][..hi - 1] && v[..hi - 1] == v[..hi][..hi - 1];
      assert g[..hi - 1] == g[..hi][..hi - 1] && w[..hi - 1] == w[..hi][..hi - 1];
      AdmittedLocal(h, v, g, w, key, lo, hi - 1);
    }
  }

  lemma GainSplits(p: Params, a: real, b: real, c: real)
    ensures Gain(p, a, c) == Gain(p, a, b) + Gain(p, b, c)
  {
  }

  /** How a further call for the same key changes the slack of every earlier window. */
  lemma SlackAfterCall(p: Params, h: seq<Call>, v: seq<bool>, j: nat, t: real)
    requires 0 <= j < |h| == |v| && h[j].key == h[|h| - 1].key
    ensures var m := |h| - 1;
      Slack(p, h, v, j, t) == (if j < m then Slack(p, h[..m], v[..m], j, h[m].time) else p.burst as real)
        + Gain(p, h[m].time, t) - (if v[m] then 1.0 else 0.0)
  {
    var m := |h| - 1;
    GainSplits(p, h[j].time, h[m].time, t);
    AdmittedLocal(h, v, h[..m], v[..m], h[j].key, j, m);
  }

  lemma SlackUnaffected(p: Params, h: seq<Call>, v: seq<bool>, j: nat, t: real)
    requires 0 <= j < |h| - 1 && |h| == |v| && h[j].key != h[|h| - 1].key
    ensures Slack(p, h, v, j, t) == Slack(p, h[..|h| - 1], v[..|h| - 1], j, t)
  {
    AdmittedLocal(h, v, h[..|h| - 1], v[..|h| - 1], h[j].key, j, |h| - 1);
  }

  lemma RefilledReaches(p: Params, b: Level, now: real, x: real)
    ensures Refilled(p, b, now) >= x <==> x <= p.burst as real && b.tokens >= x - Gain(p, b.last, now)
  {
  }

  lemma FitsCarriesOver(p: Params, h: seq<Call>, v: seq<bool>, t: real, x: real)
    requires |v| == |h| > 0
    ensures var m := |h| - 1;
      Fits(p, h, v, h[m].key, t, x) <==>
        x <= p.burst as real
        && Fits(p, h[..m], v[..m], h[m].key, h[m].time, x + (if v[m] then 1.0 else 0.0) - Gain(p, h[m].time, t))
  {
    var m := |h| - 1;
    forall j | 0 <= j < m && h[j].key == h[m].key
      ensures h[..m][j] == h[j]
      ensures Slack(p, h, v, j, t)
        == Slack(p, h[..m], v[..m], j, h[m].time) + Gain(p, h[m].time, t) - (if v[m] then 1.0 else 0.0)
    {
      SlackAfterCall(p, h, v, j, t);
    }
    SlackAfterCall(p, h, v, m, t);
  }

  /** The reference bucket holds at least `x` tokens exactly when a demand of `x` fits every window. */
  lemma {:induction false} AvailableIsLeastSlack(p: Params, h: seq<Call>, v: seq<bool>, key: string, t: real, x: real)
    requires |v| == |h|
    requires forall i | 0 <= i < |h| :: v[i] == OwnVerdict(p, h, i)
    ensures Available(p, h, key, t) >= x <==> Fits(p, h, v, key, t, x)
    decreases |h|
  {
    if h != [] {
      var m := |h| - 1;
      var rest, w, c := h[..m], v[..m], h[m];
      forall i | 0 <= i < m ensures w[i] == OwnVerdict(p, rest, i) {
        assert rest[..i] == h[..i] && v[i] == OwnVerdict(p, h, i);
      }
      if c.key != key {
        AvailableIsLeastSlack(p, rest, w, key, t, x);
        forall j | 0 <= j < m && h[j].key == key
          ensures rest[j] == h[j] && Slack(p, h, v, j, t) == Slack(p, rest, w, j, t)
        {
          SlackUnaffected(p, h, v, j, t);
        }
      } else {
        assert v[m] == OwnVerdict(p, h, m);
        var gain, taken := Gain(p, c.time, t), if v[m] then 1.0 else 0.0;
        AvailableIsLeastSlack(p, rest, w, key, c.time, x + taken - gain);
        FitsCarriesOver(p, h, v, t, x);
        assert Own(p, rest, c).tokens == Available(p, rest, key, c.time) - taken;
        assert Available(p, h, key, t) == Refilled(p, Own(p, rest, c), t);
        RefilledReaches(p, Own(p, rest, c), t, x);
      }
    }
  }
}
