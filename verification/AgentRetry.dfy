/**
 The agent's reconnect loop: connect, serve until the connection ends, wait, and try again. The
 wait doubles up to 30 seconds, and starts again at one second after a connection that was served
 for more than a minute. Times are in seconds.
 */
module AgentRetry {

  const MAX_BACKOFF := 30
  const RESET_AFTER := 2.0 * MAX_BACKOFF as real

  /** How the context is cancelled around one attempt. */
  datatype Cancel = Never | WhileServing | WhileWaiting

  /** Why serving ended: the connection was lost, or the token was rejected and the agent registered again. */
  datatype End = Lost | Rejected(took: real, registered: bool)

  datatype Attempt = Attempt(served: real, end: End, cancel: Cancel)

  predicate Possible(a: Attempt) {
    a.served >= 0.0 && (a.end.Rejected? ==> a.end.took >= 0.0)
  }

  /** The loop goes round again. */
  predicate Continues(a: Attempt) {
    a.cancel == Never && (a.end.Rejected? ==> a.end.registered)
  }

  /** The agent could not register again; a cancelled context is noticed first. */
  predicate FailsToRegister(a: Attempt) {
    a.cancel != WhileServing && a.end.Rejected? && !a.end.registered
  }

  datatype Outcome = Stopped | RegisterFailed | ReRegisterFailed | StillRunning

  // ---------------------------------------------------------------------------
  // What the loop does, as functions of the attempts made
  // ---------------------------------------------------------------------------

  function Doubled(backoff: int): int {
    if backoff < MAX_BACKOFF then (if 2 * backoff > MAX_BACKOFF then MAX_BACKOFF else 2 * backoff) else backoff
  }

  /** The backoff that the loop holds after the attempts made so far. */
  function Held(made: seq<Attempt>): int
    decreases |made|, 1
  {
    if made == [] then 1 else Doubled(Wait(made))
  }

  /** The wait that follows the last attempt. */
  function Wait(made: seq<Attempt>): int
    requires made != []
    decreases |made|, 0
  {
    if made[|made| - 1].served > RESET_AFTER then 1 else Held(made[..|made| - 1])
  }

  /** From the last dial to the next: serving, registering again, waiting. */
  function Gap(made: seq<Attempt>): real
    requires made != []
  {
    var a := made[|made| - 1];
    a.served + (if a.end.Rejected? then a.end.took else 0.0) + Wait(made) as real
  }

  /** When the dial after these attempts is made, the first being made at zero. */
  function DialTime(made: seq<Attempt>): real {
    if made == [] then 0.0 else DialTime(made[..|made| - 1]) + Gap(made)
  }

  /** The backoff only ever takes six values, all between one and thirty seconds. */
  lemma {:induction false} BackoffIsBounded(made: seq<Attempt>)
    ensures Held(made) in {1, 2, 4, 8, 16, 30} && 1 <= Held(made) <= MAX_BACKOFF
    ensures made != [] ==> Wait(made) in {1, 2, 4, 8, 16, 30}
    decreases |made|
  {
    if made != [] {
      BackoffIsBounded(made[..|made| - 1]);
    }
  }

  /**
   One round after another: the wait is one second at first and after a connection that was served for more than a
   minute, else twice the last but at most thirty; the next dial comes after serving, registering again and the wait.
   */
  lemma OneRound(attempts: seq<Attempt>, k: nat)
    requires k < |attempts|
    ensures DialTime(attempts[..0]) == 0.0
    ensures Wait(attempts[..k + 1]) == (
      if k == 0 || attempts[k].served > 60.0 then 1
      else if 2 * Wait(attempts[..k]) > 30 then 30 else 2 * Wait(attempts[..k]))
    ensures DialTime(attempts[..k + 1]) - DialTime(attempts[..k]) ==
      attempts[k].served + (if attempts[k].end == Lost then 0.0 else attempts[k].end.took)
      + Wait(attempts[..k + 1]) as real
  {
    BackoffIsBounded(attempts[..k]);
    var made := attempts[..k + 1];
    assert made[..k] == attempts[..k] && made[k] == attempts[k];
  }

  /** The attempts after which the loop goes round again. */
  function Rounds(attempts: seq<Attempt>): (n: nat)
    ensures n <= |attempts|
    ensures forall k | 0 <= k < n :: Continues(attempts[k])
    ensures n < |attempts| ==> !Continues(attempts[n])
  {
    if attempts == [] then 0
    else
      var n := Rounds(attempts[..|attempts| - 1]);
      if n == |attempts| - 1 && Continues(attempts[n]) then |attempts| else n
  }

  lemma RoundsAre(attempts: seq<Attempt>, n: nat)
    requires n <= |attempts| && (forall k | 0 <= k < n :: Continues(attempts[k]))
    requires n < |attempts| ==> !Continues(attempts[n])
    ensures Rounds(attempts) == n
  {}

  /** Runs until an attempt stops the loop, or the attempts that are modelled are used up. */
  method Run(registered: bool, attempts: seq<Attempt>) returns (outcome: Outcome, waits: seq<int>, dials: seq<real>)
    requires forall a | a in attempts :: Possible(a)
    ensures outcome == RegisterFailed <==> !registered
    ensures !registered ==> waits == [] && dials == []
    ensures registered ==> |waits| == Rounds(attempts) && |dials| == Rounds(attempts) + 1
    ensures forall k | 0 <= k < |waits| :: waits[k] == Wait(attempts[..k + 1])
    ensures forall k | 0 <= k < |dials| :: dials[k] == DialTime(attempts[..k])
    ensures outcome == StillRunning <==> registered && Rounds(attempts) == |attempts|
    ensures outcome == ReRegisterFailed <==>
      (registered && Rounds(attempts) < |attempts| && FailsToRegister(attempts[Rounds(attempts)]))
    ensures registered ==>
      var r := |waits|;
      && r <= |attempts|
      && (forall k | 0 <= k < r :: attempts[k].cancel == Never)
      && (forall k | 0 <= k < r :: attempts[k].end == Lost || attempts[k].end.registered)
      && (outcome == StillRunning <==> r == |attempts|)
      && (outcome == ReRegisterFailed <==>
        r < |attempts| && attempts[r].cancel != WhileServing && attempts[r].end != Lost && !attempts[r].end.registered)
      && (outcome == Stopped <==>
        && r < |attempts|
        && (attempts[r].cancel == WhileServing
          || (attempts[r].cancel == WhileWaiting && (attempts[r].end == Lost || attempts[r].end.registered))))
  {
    waits, dials := [], [];
    if !registered {
      return RegisterFailed, waits, dials;
    }
    var backoff, clock, k := 1, 0.0, 0;
    dials := [clock];
    while k < |attempts|
      invariant 0 <= k <= |attempts| && |waits| == k && |dials| == k + 1
      invariant forall j | 0 <= j < k :: Continues(attempts[j])
      invariant forall j | 0 <= j < k :: waits[j] == Wait(attempts[..j + 1])
      invariant forall j | 0 <= j <= k :: dials[j] == DialTime(attempts[..j])
      invariant backoff == Held(attempts[..k]) && clock == dials[k]
    {
      var a := attempts[k];
      ghost var made := attempts[..k + 1];
      assert made[..k] == attempts[..k] && made[k] == a;
      if a.cancel == WhileServing {
        RoundsAre(attempts, k);
        return Stopped, waits, dials;
      }
      clock := clock + a.served;
      if a.served > RESET_AFTER {
        backoff := 1;
      }
      if a.end.Rejected? {
        clock := clock + a.end.took;
        if !a.end.registered {
          RoundsAre(attempts, k);
          return ReRegisterFailed, waits, dials;
        }
      }
      if a.cancel == WhileWaiting {
        RoundsAre(attempts, k);
        return Stopped, waits, dials;
      }
      clock := clock + backoff as real;
      waits, dials := waits + [backoff], dials + [clock];
      if backoff < MAX_BACKOFF {
        backoff := backoff * 2;
        if backoff > MAX_BACKOFF {
          backoff := MAX_BACKOFF;
        }
      }
      k := k + 1;
    }
    RoundsAre(attempts, k);
    outcome := StillRunning;
  }

  // ---------------------------------------------------------------------------
  // The waits
  // ---------------------------------------------------------------------------

  function Power(k: nat): (p: int)
    ensures p >= 1
  {
    if k == 0 then 1 else 2 * Power(k - 1)
  }

  /** Without a long connection the k-th wait, counted from zero, is the smaller of 30 and 2 to the k. */
  lemma {:induction false} WaitWithoutResets(made: seq<Attempt>)
    requires made != [] && forall a | a in made :: a.served <= RESET_AFTER
    ensures var p := Power(|made| - 1); Wait(made) == if p < MAX_BACKOFF then p else MAX_BACKOFF
    decreases |made|
  {
    var rest := made[..|made| - 1];
    assert made[|made| - 1] in made;
    if rest != [] {
      WaitWithoutResets(rest);
      var p := Power(|rest| - 1);
      assert Power(|made| - 1) == 2 * p;
    }
  }

  /** After a long connection the waits are those of a loop that has just started. */
  lemma {:induction false} ResetStartsAgain(before: seq<Attempt>, long: Attempt, after: seq<Attempt>)
    requires long.served > RESET_AFTER
    ensures Wait(before + [long] + after) == Wait([long] + after)
    decreases |after|
  {
    var all, own := before + [long] + after, [long] + after;
    if after != [] {
      var rest := after[..|after| - 1];
      assert all[..|all| - 1] == before + [long] + rest && own[..|own| - 1] == [long] + rest;
      ResetStartsAgain(before, long, rest);
    }
  }

  // ---------------------------------------------------------------------------
  // Amortised time
  // ---------------------------------------------------------------------------

  /** The time, over a linear rate of `rate` seconds per dial, that a backoff is short of its highest value. */
  function Deficit(backoff: int, rate: real): real {
    if backoff >= 30 then 0.0
    else if backoff >= 16 then rate - 16.0
    else if backoff >= 8 then 2.0 * rate - 24.0
    else if backoff >= 4 then 3.0 * rate - 28.0
    else if backoff >= 2 then 4.0 * rate - 30.0
    else 5.0 * rate - 31.0
  }

  const RATE := 18.2

  /** One gap pays for one dial, and for what it adds to the deficit. */
  lemma GapPays(made: seq<Attempt>, rate: real)
    requires made != [] && Possible(made[|made| - 1]) && 16.0 <= rate <= RATE
    ensures Gap(made) >= rate + Deficit(Held(made), rate) - Deficit(Held(made[..|made| - 1]), rate)
  {
    BackoffIsBounded(made[..|made| - 1]);
  }

  /** What n dials cost at a rate. */
  function Due(rate: real, n: nat): (d: real)
    ensures rate == 18.0 ==> d == 18.0 * n as real
    ensures rate == RATE ==> d == RATE * n as real
  {
    if n == 0 then 0.0 else Due(rate, n - 1) + rate
  }

  lemma {:induction false} DialsArePaidFor(made: seq<Attempt>, more: seq<Attempt>, rate: real)
    requires (forall a | a in made + more :: Possible(a)) && 16.0 <= rate <= RATE
    ensures DialTime(made + more) - DialTime(made)
      >= Due(rate, |more|) + Deficit(Held(made + more), rate) - Deficit(Held(made), rate)
    decreases |more|
  {
    hide Deficit, Held, Gap;
    if more == [] {
      assert made + more == made;
    } else {
      var rest, all := more[..|more| - 1], made + more;
      assert all[..|all| - 1] == made + rest;
      assert all[|all| - 1] in made + more;
      assert forall a | a in made + rest :: a in made + more;
      DialsArePaidFor(made, rest, rate);
      GapPays(all, rate);
    }
  }

  /**
   However the connections end, and however often a long one resets the backoff, any n consecutive
   redials take at least 18n - 59 seconds, and at least 18.2n - 60.
   */
  lemma RedialsAreThrottled(made: seq<Attempt>, more: seq<Attempt>)
    requires forall a | a in made + more :: Possible(a)
    ensures DialTime(made + more) - DialTime(made) >= 18.0 * |more| as real - 59.0
    ensures DialTime(made + more) - DialTime(made) >= RATE * |more| as real - 60.0
  {
    BackoffIsBounded(made);
    BackoffIsBounded(made + more);
    hide Held, DialTime;
    DialsArePaidFor(made, more, 18.0);
    DialsArePaidFor(made, more, RATE);
  }

  // ---------------------------------------------------------------------------
  // Neither constant nor rate can be improved
  // ---------------------------------------------------------------------------

  function Dropped(served: real): Attempt {
    Attempt(served, Lost, Never)
  }

  /** Five dials, the first connection just long enough to reset the backoff. */
  function Cycle(slack: real): seq<Attempt> {
    [Dropped(RESET_AFTER + slack), Dropped(0.0), Dropped(0.0), Dropped(0.0), Dropped(0.0)]
  }

  function Cycles(n: nat, slack: real): seq<Attempt> {
    if n == 0 then [] else Cycles(n - 1, slack) + Cycle(slack)
  }

  lemma OneMoreGap(made: seq<Attempt>, a: Attempt)
    ensures DialTime(made + [a]) == DialTime(made) + Gap(made + [a])
    ensures Wait(made + [a]) == if a.served > RESET_AFTER then 1 else Held(made)
    ensures Held(made + [a]) == Doubled(Wait(made + [a]))
  {
    assert (made + [a])[..|made + [a]| - 1] == made;
  }

  lemma CycleTakes(made: seq<Attempt>, slack: real)
    requires slack > 0.0
    ensures DialTime(made + Cycle(slack)) == DialTime(made) + 91.0 + slack
  {
    var c := Cycle(slack);
    var m1 := made + [c[0]];
    var m2 := m1 + [c[1]];
    var m3 := m2 + [c[2]];
    var m4 := m3 + [c[3]];
    OneMoreGap(made, c[0]);
    OneMoreGap(m1, c[1]);
    OneMoreGap(m2, c[2]);
    OneMoreGap(m3, c[3]);
    OneMoreGap(m4, c[4]);
    assert m4 + [c[4]] == made + c;
  }

  /** Connections that keep resetting the backoff come as close as wished to 18.2 seconds a dial. */
  lemma {:induction false} RateIsBest(n: nat, slack: real)
    requires slack > 0.0
    ensures |Cycles(n, slack)| == 5 * n && forall a | a in Cycles(n, slack) :: Possible(a) && Continues(a)
    ensures DialTime(Cycles(n, slack)) == (5.0 * RATE + slack) * n as real
  {
    if n > 0 {
      RateIsBest(n - 1, slack);
      CycleTakes(Cycles(n - 1, slack), slack);
      assert n as real == (n - 1) as real + 1.0;
    }
  }

  function Drops(n: nat): (d: seq<Attempt>)
    ensures |d| == n
  {
    if n == 0 then [] else Drops(n - 1) + [Dropped(0.0)]
  }

  /** The first five dials of a loop that never connects take 31 seconds: both bounds are met exactly. */
  lemma ConstantIsBest()
    ensures DialTime(Drops(5)) == 31.0 == 18.0 * 5.0 - 59.0 == RATE * 5.0 - 60.0
  {
    OneMoreGap(Drops(0), Dropped(0.0));
    OneMoreGap(Drops(1), Dropped(0.0));
    OneMoreGap(Drops(2), Dropped(0.0));
    OneMoreGap(Drops(3), Dropped(0.0));
    OneMoreGap(Drops(4), Dropped(0.0));
  }
}
