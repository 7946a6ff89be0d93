/**
 The gate in front of the message handler: every well-formed message of a device asks the
 shared message limiter under the device's id, whichever of its connections it came in on.
 A trace interleaves the messages of all connections in the order the limiter sees them.
 */
module MessageGate {
  import opened TokenBucket
  import RateLimiter

  datatype Message = Message(device: string, time: real, wellFormed: bool)

  datatype Fate = Malformed | Rejected | Handled

  function Asked(m: Message): seq<Call> {
    if m.wellFormed then [Call(m.device, m.time)] else []
  }

  /** The calls the limiter receives. */
  function Calls(trace: seq<Message>): seq<Call> {
    if trace == [] then [] else Calls(trace[..|trace| - 1]) + Asked(trace[|trace| - 1])
  }

  lemma {:induction false} PrefixCalls(trace: seq<Message>, i: nat)
    requires i <= |trace|
    ensures Calls(trace[..i]) <= Calls(trace)
    decreases |trace|
  {
    if i == |trace| {
      assert trace[..i] == trace;
    } else {
      var rest := trace[..|trace| - 1];
      PrefixCalls(rest, i);
      assert rest[..i] == trace[..i];
    }
  }

  lemma CallsOfPrefix(trace: seq<Message>, i: nat)
    requires i < |trace|
    ensures Calls(trace[..i]) + Asked(trace[i]) == Calls(trace[..i + 1])
    ensures Calls(trace[..i + 1]) <= Calls(trace)
  {
    assert trace[..i + 1][..i] == trace[..i];
    PrefixCalls(trace, i + 1);
  }

  /** What becomes of the i-th message, given the limiter's answers to all calls. */
  function FateOf(trace: seq<Message>, verdicts: seq<bool>, i: nat): Fate
    requires i < |trace| && |verdicts| == |Calls(trace)|
  {
    CallsOfPrefix(trace, i);
    if !trace[i].wellFormed then Malformed
    else if verdicts[|Calls(trace[..i])|] then Handled
    else Rejected
  }

  /** A message's fate is settled when it is handled: later messages and answers do not change it. */
  lemma FateIsSettled(trace: seq<Message>, verdicts: seq<bool>, m: Message, answers: seq<bool>, i: nat)
    requires i < |trace| && |verdicts| == |Calls(trace)| && |answers| == |Asked(m)|
    ensures Calls(trace + [m]) == Calls(trace) + Asked(m)
    ensures FateOf(trace + [m], verdicts + answers, i) == FateOf(trace, verdicts, i)
  {
    assert (trace + [m])[..|trace|] == trace && (trace + [m])[..i] == trace[..i];
    CallsOfPrefix(trace, i);
  }

  /** Messages of `device` in `trace[lo..hi]` that met the given fate. */
  ghost function Met(trace: seq<Message>, verdicts: seq<bool>, fate: Fate, device: string, lo: nat, hi: nat): nat
    requires lo <= hi <= |trace| && |verdicts| == |Calls(trace)|
    decreases hi - lo
  {
    if lo == hi then 0
    else
      Met(trace, verdicts, fate, device, lo, hi - 1)
      + if trace[hi - 1].device == device && FateOf(trace, verdicts, hi - 1) == fate then 1 else 0
  }

  ghost function WellFormed(trace: seq<Message>, device: string, lo: nat, hi: nat): nat
    requires lo <= hi <= |trace|
    decreases hi - lo
  {
    if lo == hi then 0
    else
      WellFormed(trace, device, lo, hi - 1)
      + if trace[hi - 1].device == device && trace[hi - 1].wellFormed then 1 else 0
  }

  ghost predicate InOrder(start: real, trace: seq<Message>) {
    && (forall i | 0 <= i < |trace| :: start <= trace[i].time)
    && (forall i, j | 0 <= i < j < |trace| :: trace[i].time <= trace[j].time)
  }

  lemma {:induction false} CallsAreChronological(start: real, trace: seq<Message>)
    requires InOrder(start, trace)
    ensures Chronological(start, Calls(trace))
    ensures forall k | 0 <= k < |Calls(trace)| :: Calls(trace)[k].time <= trace[|trace| - 1].time
    decreases |trace|
  {
    if trace != [] {
      var rest := trace[..|trace| - 1];
      CallsAreChronological(start, rest);
      assert rest != [] ==> rest[|rest| - 1].time <= trace[|trace| - 1].time;
    }
  }

  /** One message: it is handled exactly when the call it made was admitted. */
  lemma OneMoreHandled(trace: seq<Message>, verdicts: seq<bool>, device: string, from: nat, i: nat)
    requires i < |trace| && |verdicts| == |Calls(trace)| && from <= |Calls(trace[..i])|
    ensures |Calls(trace[..i])| <= |Calls(trace[..i + 1])| <= |Calls(trace)|
    ensures Admitted(Calls(trace), verdicts, device, from, |Calls(trace[..i + 1])|)
         == Admitted(Calls(trace), verdicts, device, from, |Calls(trace[..i])|)
          + if trace[i].device == device && FateOf(trace, verdicts, i) == Handled then 1 else 0
  {
    CallsOfPrefix(trace, i);
    var all, before, after := Calls(trace), Calls(trace[..i]), Calls(trace[..i + 1]);
    hide Calls;
    if trace[i].wellFormed {
      assert after[|before|] == Call(trace[i].device, trace[i].time);
      assert all[|before|] == after[|before|];
    }
  }

  /** Handled messages are exactly the device's admitted calls. */
  lemma {:induction false} HandledAreAdmitted(trace: seq<Message>, verdicts: seq<bool>, device: string, lo: nat,
      hi: nat)
    requires lo <= hi <= |trace| && |verdicts| == |Calls(trace)|
    ensures |Calls(trace[..lo])| <= |Calls(trace[..hi])| <= |Calls(trace)|
    ensures Met(trace, verdicts, Handled, device, lo, hi)
         == Admitted(Calls(trace), verdicts, device, |Calls(trace[..lo])|, |Calls(trace[..hi])|)
    decreases hi - lo
  {
    PrefixCalls(trace, hi);
    hide Calls, FateOf;
    if lo < hi {
      HandledAreAdmitted(trace, verdicts, device, lo, hi - 1);
      OneMoreHandled(trace, verdicts, device, |Calls(trace[..lo])|, hi - 1);
    }
  }

  function Flipped(verdicts: seq<bool>): seq<bool> {
    seq(|verdicts|, i requires 0 <= i < |verdicts| => !verdicts[i])
  }

  lemma FateFlips(trace: seq<Message>, verdicts: seq<bool>, i: nat)
    requires i < |trace| && |verdicts| == |Calls(trace)|
    ensures FateOf(trace, verdicts, i) == Rejected <==> FateOf(trace, Flipped(verdicts), i) == Handled
    ensures trace[i].wellFormed <==> FateOf(trace, verdicts, i) in {Handled, Rejected}
  {
    CallsOfPrefix(trace, i);
  }

  lemma {:induction false} RejectedIsHandledFlipped(trace: seq<Message>, verdicts: seq<bool>, device: string,
      lo: nat, hi: nat)
    requires lo <= hi <= |trace| && |verdicts| == |Calls(trace)|
    ensures Met(trace, verdicts, Rejected, device, lo, hi) == Met(trace, Flipped(verdicts), Handled, device, lo, hi)
    ensures WellFormed(trace, device, lo, hi)
         == Met(trace, verdicts, Handled, device, lo, hi) + Met(trace, verdicts, Rejected, device, lo, hi)
    decreases hi - lo
  {
    if lo < hi {
      RejectedIsHandledFlipped(trace, verdicts, device, lo, hi - 1);
      FateFlips(trace, verdicts, hi - 1);
      hide FateOf, Calls;
    }
  }

  /**
   No well-formed message is lost or counted twice: over any stretch the device's handled
   messages are its admitted limiter calls, the rejected ones its denied calls, and together
   they are its well-formed messages.
   */
  lemma WellFormedIsHandledOrRejected(trace: seq<Message>, verdicts: seq<bool>, device: string, lo: nat, hi: nat)
    requires lo <= hi <= |trace| && |verdicts| == |Calls(trace)|
    ensures |Calls(trace[..lo])| <= |Calls(trace[..hi])| <= |Calls(trace)|
    ensures var h, a, b := Calls(trace), |Calls(trace[..lo])|, |Calls(trace[..hi])|;
      && Met(trace, verdicts, Handled, device, lo, hi) == Admitted(h, verdicts, device, a, b)
      && Met(trace, verdicts, Rejected, device, lo, hi) == Admitted(h, Flipped(verdicts), device, a, b)
      && WellFormed(trace, device, lo, hi)
        == Admitted(h, verdicts, device, a, b) + Admitted(h, Flipped(verdicts), device, a, b)
  {
    HandledAreAdmitted(trace, verdicts, device, lo, hi);
    HandledAreAdmitted(trace, Flipped(verdicts), device, lo, hi);
    RejectedIsHandledFlipped(trace, verdicts, device, lo, hi);
  }

  /**
   A well-formed message reaches the handler if and only if that keeps every window of the
   device's messages, over all its connections, within 20 + 5T.
   */
  lemma HandledIffWithinBudget(start: real, trace: seq<Message>, i: nat)
    requires InOrder(start, trace) && i < |trace| && trace[i].wellFormed
    ensures |Calls(trace[..i])| < |Calls(trace)|
    ensures var h, n := Calls(trace), |Calls(trace[..i])|;
      var verdicts := Replay(RateLimiter.MESSAGE_LIMITER, start, h).verdicts;
      && h[n] == Call(trace[i].device, trace[i].time)
      && (FateOf(trace, verdicts, i) == Handled <==> FitsEveryWindow(RateLimiter.MESSAGE_LIMITER, h, verdicts, n))
  {
    CallsAreChronological(start, trace);
    CallsOfPrefix(trace, i);
    var h, n, next := Calls(trace), |Calls(trace[..i])|, Calls(trace[..i + 1]);
    assert next[n] == Call(trace[i].device, trace[i].time) && h[n] == next[n];
    RateLimiter.ExactAdmission(RateLimiter.MESSAGE_LIMITER, start, h, n);
  }

  /** The calls made up to one message are those made before it and at most one more, at its time. */
  lemma NextCallTime(trace: seq<Message>, i: nat)
    requires i < |trace|
    ensures |Calls(trace[..i])| <= |Calls(trace[..i + 1])| <= |Calls(trace)|
    ensures forall k | |Calls(trace[..i])| <= k < |Calls(trace[..i + 1])| :: Calls(trace)[k].time == trace[i].time
  {
    CallsOfPrefix(trace, i);
    var all, before, after := Calls(trace), Calls(trace[..i]), Calls(trace[..i + 1]);
    hide Calls;
    forall k | |before| <= k < |after| ensures all[k].time == trace[i].time {
      assert all[k] == after[k] == Asked(trace[i])[k - |before|];
    }
  }

  /** Calls made by a stretch of the trace carry times from that stretch. */
  lemma {:induction false} CallTimes(trace: seq<Message>, lo: nat, hi: nat)
    requires lo < hi <= |trace| && forall i, j | 0 <= i < j < |trace| :: trace[i].time <= trace[j].time
    ensures |Calls(trace[..lo])| <= |Calls(trace[..hi])| <= |Calls(trace)|
    ensures forall k | |Calls(trace[..lo])| <= k < |Calls(trace[..hi])| ::
      trace[lo].time <= Calls(trace)[k].time <= trace[hi - 1].time
    decreases hi - lo
  {
    hide Calls;
    NextCallTime(trace, hi - 1);
    if lo < hi - 1 {
      CallTimes(trace, lo, hi - 1);
    }
  }

  /**
   However many connections a device opens or overlaps, over any stretch of the trace at
   most 20 + 5T of its messages reach the handler.
   */
  lemma MessageBudget(start: real, trace: seq<Message>, device: string, lo: nat, hi: nat)
    requires InOrder(start, trace) && lo < hi <= |trace|
    ensures var verdicts := Replay(RateLimiter.MESSAGE_LIMITER, start, Calls(trace)).verdicts;
      Met(trace, verdicts, Handled, device, lo, hi) as real <= 20.0 + 5.0 * (trace[hi - 1].time - trace[lo].time)
  {
    var p, h := RateLimiter.MESSAGE_LIMITER, Calls(trace);
    var verdicts := Replay(p, start, h).verdicts;
    HandledAreAdmitted(trace, verdicts, device, lo, hi);
    CallsAreChronological(start, trace);
    var a, b := |Calls(trace[..lo])|, |Calls(trace[..hi])|;
    if a < b {
      RateLimiter.WindowBudget(p, start, h, device, a, b);
      CallTimes(trace, lo, hi);
    }
  }
}
