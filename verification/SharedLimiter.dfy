/**
 The limiter object: a map of mutable buckets, refilled lazily and swept as a side effect
 of any call. Ghost fields keep the calls made so far and the answers given; `Valid` ties
 the buckets in memory to the replay of that history, so every result about histories in
 `RateLimiter` speaks about this object.
 */
module SharedLimiter {
  import opened TokenBucket
  import RateLimiter

  class Bucket {
    var tokens: real
    var last: real

    constructor (tokens: real, last: real)
      ensures this.tokens == tokens && this.last == last
    {
      this.tokens := tokens;
      this.last := last;
    }

    ghost function View(): Level
      reads this
    {
      Level(tokens, last)
    }

    /** Credits the time since the last use, capped at the burst, and takes a token if there is one. */
    method Draw(rate: real, burst: int, now: real) returns (ok: bool)
      modifies this
      ensures View() == Drawn(Params(rate, burst), old(View()), now)
      ensures ok <==> Refilled(Params(rate, burst), old(View()), now) >= 1.0
    {
      tokens := tokens + (now - last) * rate;
      assert tokens == old(tokens) + Gain(Params(rate, burst), last, now);
      if tokens > burst as real {
        tokens := burst as real;
      }
      last := now;
      if tokens < 1.0 {
        return false;
      }
      tokens := tokens - 1.0;
      return true;
    }
  }

  /** `l` and `v` are what the replay of `h` leaves behind. */
  ghost predicate Faithful(p: Params, start: real, h: seq<Call>, l: TokenBucket.Limiter, v: seq<bool>) {
    && Chronological(start, h)
    && Replay(p, start, h) == Outcome(l, v)
  }

  lemma FaithfulOneMore(p: Params, start: real, h: seq<Call>, l: TokenBucket.Limiter, v: seq<bool>, c: Call)
    requires Faithful(p, start, h, l, v) && RateLimiter.Latest(start, h) <= c.time
    ensures Faithful(p, start, h + [c], After(p, l, c), v + [Admits(p, l, c)])
  {
    assert (h + [c])[..|h|] == h;
  }

  class KeyedRateLimiter {
    var buckets: map<string, Bucket>
    const rate: real
    const burst: int
    var lastSweep: real

    ghost const start: real
    ghost var history: seq<Call>
    ghost var verdicts: seq<bool>
    ghost var state: TokenBucket.Limiter
    ghost var owned: set<Bucket>

    ghost function Settings(): Params {
      Params(rate, burst)
    }

    /** `state` is the value of the buckets in memory, and keys never share a bucket. */
    ghost predicate Coherent()
      reads this, owned
    {
      && state.lastSweep == lastSweep
      && state.buckets.Keys == buckets.Keys
      && (forall k | k in buckets :: buckets[k] in owned && buckets[k].View() == state.buckets[k])
      && (forall j, k | j in buckets && k in buckets && j != k :: buckets[j] != buckets[k])
    }

    ghost predicate Valid()
      reads this, owned
    {
      && Coherent()
      && Faithful(Settings(), start, history, state, verdicts)
    }

    constructor (ratePerSec: real, burst: int, now: real)
      ensures Valid() && rate == ratePerSec && this.burst == burst && start == now
      ensures history == [] && verdicts == [] && buckets == map[]
    {
      buckets := map[];
      rate := ratePerSec;
      this.burst := burst;
      lastSweep := now;
      start := now;
      history, verdicts := [], [];
      state, owned := TokenBucket.Limiter(map[], now), {};
    }

    /** Deletes every bucket idle for longer than the TTL, at most once an interval. */
    method SweepIdle(now: real)
      requires Coherent()
      modifies this`buckets, this`lastSweep, this`state
      ensures Coherent() && state == Sweep(old(state), now)
    {
      if now - lastSweep < SWEEP_INTERVAL {
        return;
      }
      var pending := buckets.Keys;
      while pending != {}
        invariant pending <= buckets.Keys <= old(buckets).Keys
        invariant forall k | k in buckets :: buckets[k] == old(buckets)[k]
        invariant forall k | k in old(buckets) ::
          k in buckets <==> k in pending || now - old(state).buckets[k].last <= BUCKET_TTL
        modifies this`buckets
        decreases pending
      {
        var k :| k in pending;
        assert buckets[k].View() == old(state).buckets[k];
        if now - buckets[k].last > BUCKET_TTL {
          buckets := buckets - {k};
        }
        pending := pending - {k};
      }
      lastSweep := now;
      state := Sweep(state, now);
    }

    /** The key's bucket, created full when the key has none. */
    method BucketOf(key: string, now: real) returns (b: Bucket)
      requires Coherent()
      modifies this`buckets, this`state, this`owned
      ensures Coherent() && key in buckets && buckets[key] == b
      ensures fresh(owned - old(owned))
      ensures buckets == old(buckets)[key := b]
      ensures b.View() == BucketFor(Settings(), old(state), Call(key, now))
      ensures state == old(state).(buckets := old(state).buckets[key := b.View()])
    {
      if key in buckets {
        b := buckets[key];
      } else {
        b := new Bucket(burst as real, now);
        buckets, owned := buckets[key := b], owned + {b};
        state := state.(buckets := state.buckets[key := Level(burst as real, now)]);
      }
    }

    /** Draws from the key's bucket, which no other key shares. */
    method DrawFrom(b: Bucket, key: string, now: real) returns (ok: bool)
      requires Coherent() && key in buckets && buckets[key] == b
      modifies this`state, b
      ensures Coherent()
      ensures state == old(state).(buckets := old(state).buckets[key := Drawn(Settings(), old(b.View()), now)])
      ensures ok <==> Refilled(Settings(), old(b.View()), now) >= 1.0
    {
      hide Drawn, Refilled;
      ok := b.Draw(rate, burst, now);
      state := state.(buckets := state.buckets[key := b.View()]);
    }

    /** The locked region without the record of it: sweep, find the bucket, draw. */
    method Answer(key: string, now: real) returns (ok: bool)
      requires Coherent()
      modifies this`buckets, this`lastSweep, this`state, this`owned, owned
      ensures Coherent() && fresh(owned - old(owned))
      ensures state == After(Settings(), old(state), Call(key, now))
      ensures ok == Admits(Settings(), old(state), Call(key, now))
    {
      hide Drawn, Refilled, TokenBucket.Sweep, BucketFor;
      SweepIdle(now);
      var b := BucketOf(key, now);
      ok := DrawFrom(b, key, now);
    }

    /** Answers one call. The clock is read under the lock, so it never runs behind the history. */
    method Allow(key: string, now: real) returns (ok: bool)
      requires Valid()
      requires RateLimiter.Latest(start, history) <= now
      modifies this, owned
      ensures Valid() && fresh(owned - old(owned))
      ensures history == old(history) + [Call(key, now)]
      ensures verdicts == old(verdicts) + [ok]
      ensures state == After(Settings(), old(state), Call(key, now))
      ensures ok == Admits(Settings(), old(state), Call(key, now))
      ensures key in buckets && buckets[key].last == now
      ensures lastSweep == if now - old(lastSweep) < 60.0 then old(lastSweep) else now
      ensures forall k | k in buckets && k != key :: k in old(buckets) && buckets[k].View() == old(state).buckets[k]
      ensures forall k | k in old(buckets) && k != key ::
        k in buckets <==> now - old(lastSweep) < 60.0 || now - old(state).buckets[k].last <= 600.0
    {
      hide Faithful, After, Admits;
      ghost var p, before, c := Settings(), state, Call(key, now);
      FaithfulOneMore(p, start, history, before, verdicts, c);
      ok := Answer(key, now);
      RateLimiter.CallSweeps(p, before, c);
      history, verdicts := history + [c], verdicts + [ok];
      assert Faithful(p, start, history, state, verdicts);
    }

    /** Whatever it has been asked, after a call no bucket has been idle for more than eleven minutes. */
    lemma NoBucketIsStale()
      requires Valid() && history != []
      ensures forall k | k in buckets :: history[|history| - 1].time - buckets[k].last <= 660.0
    {
      RateLimiter.NoBucketIsStale(Settings(), start, history);
      assert Replay(Settings(), start, history).limiter == state;
      forall k | k in buckets ensures history[|history| - 1].time - buckets[k].last <= 660.0 {
        assert k in state.buckets && buckets[k].View() == state.buckets[k];
      }
    }

    /** The n-th answer this object ever gave is the window bound over what it was asked. */
    lemma AnswersAreExact(n: nat)
      requires Valid() && n < |history|
      requires burst < 1 || RateLimiter.RefillsBeforeEviction(Settings())
      ensures |verdicts| == |history|
      ensures verdicts[n] <==> FitsEveryWindow(Settings(), history, verdicts, n)
    {
      RateLimiter.ExactAdmission(Settings(), start, history, n);
    }
  }
}
