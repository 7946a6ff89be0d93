/**
 Shutdown as the server does it: CloseAll and Wait run before the HTTP server stops, so
 devices may connect during the whole drain. Results: while they may, no device is safe from
 being left online; and what the peers send can put Wait's return off without bound, unless
 nobody connects any more and every connection still in its loop has been closed.
 */
module LateRegistration {
  import opened HubTable
  import opened Lifecycle
  import opened Sets
  import opened Shutdown
  import opened ShutdownStatus
  import opened StoredStatus

  /** What can happen during a drain, `late` telling whether connections are still accepted. */
  predicate Allowed(l: Label, late: bool) {
    Drains(l) || (late && l.Add?)
  }

  /** Labels that are allowed and whose writes succeed. */
  predicate Accepted(ls: seq<Label>, late: bool) {
    forall i | 0 <= i < |ls| :: Allowed(ls[i], late) && WriteSucceeds(ls[i])
  }

  lemma AcceptedConcat(a: seq<Label>, b: seq<Label>, late: bool)
    requires Accepted(a, late) && Accepted(b, late)
    ensures Accepted(a + b, late)
  {
  }

  lemma GoodIsAccepted(s: State, ls: seq<Label>, late: bool)
    requires GoodRun(s, ls)
    ensures Accepted(ls, late)
  {
  }

  /** A run whose writes succeed and in which Wait returns at the end and not before. */
  ghost predicate Completes(s: State, ls: seq<Label>, late: bool)
    decreases |ls|
  {
    if ls == [] then Drained(s)
    else
      && !Drained(s) && Enabled(s, ls[0]) && Allowed(ls[0], late) && WriteSucceeds(ls[0])
      && Completes(Step(s, ls[0]), ls[1..], late)
  }

  lemma {:induction false} CompletesRuns(s: State, ls: seq<Label>, late: bool)
    requires Completes(s, ls, late)
    ensures Runs(s, ls) && WritesSucceed(ls) && Drained(Final(s, ls))
    ensures !late ==> AllDrain(ls)
    decreases |ls|
  {
    if ls != [] {
      CompletesRuns(Step(s, ls[0]), ls[1..], late);
      assert forall i | 0 < i < |ls| :: ls[i] == ls[1..][i - 1];
    }
  }

  /** Every completed shutdown leaves the device stored as offline. */
  ghost predicate LeavesOfflineWhen(s: State, d: Device, late: bool) {
    forall ls | Completes(s, ls, late) ::
      Runs(s, ls) && d in Final(s, ls).status && Final(s, ls).status[d] == Offline
  }

  // ---------------------------------------------------------------------------
  // A connection that is not done keeps Wait waiting
  // ---------------------------------------------------------------------------

  lemma DoneStays(s: State, l: Label, c: Id)
    requires Enabled(s, l) && c in s.phase
    ensures c in Step(s, l).phase && (s.phase[c] == Done ==> Step(s, l).phase[c] == Done)
  {
  }

  lemma {:induction false} FinishIsNotYetDone(s: State, ls: seq<Label>, c: Id)
    requires Runs(s, ls) && EndsWith(ls, Finish(c)) && c in s.phase
    ensures s.phase[c] != Done
    decreases |ls|
  {
    if |ls| > 1 {
      DoneStays(s, ls[0], c);
      FinishIsNotYetDone(Step(s, ls[0]), ls[1..], c);
    }
  }

  /** A good run to the end of one connection, all drained then, is one in which Wait returns at the end. */
  lemma {:induction false} LastFinishCompletes(s: State, ls: seq<Label>, c: Id, late: bool)
    requires Inv(s) && Runs(s, ls) && Accepted(ls, late)
    requires EndsWith(ls, Finish(c)) && c in s.phase && Drained(Final(s, ls))
    ensures Completes(s, ls, late)
    decreases |ls|
  {
    hide Inv, Step, Enabled, Drained, WriteSucceeds, Allowed;
    FinishIsNotYetDone(s, ls, c);
    LiveMeansUndrained(s, c);
    assert Allowed(ls[0], late) && WriteSucceeds(ls[0]);
    if |ls| > 1 {
      DoneStays(s, ls[0], c);
      StepKeepsInv(s, ls[0]);
      assert forall i | 0 <= i < |ls| - 1 :: ls[1..][i] == ls[i + 1];
      LastFinishCompletes(Step(s, ls[0]), ls[1..], c, late);
    }
  }

  /** Wait has not returned at any point of the run, its end included. */
  ghost predicate WaitBlocks(s: State, ls: seq<Label>)
    requires Runs(s, ls)
    decreases |ls|
  {
    !Drained(s) && (ls == [] || WaitBlocks(Step(s, ls[0]), ls[1..]))
  }

  lemma {:induction false} LiveAtTheEndBlocks(s: State, ls: seq<Label>, c: Id)
    requires Inv(s) && Runs(s, ls) && c in s.phase && Live(Final(s, ls), c)
    ensures Live(s, c) && WaitBlocks(s, ls)
    decreases |ls|
  {
    if ls != [] {
      DoneStays(s, ls[0], c);
      StepKeepsInv(s, ls[0]);
      hide Inv, Step, Enabled, Drained;
      LiveAtTheEndBlocks(Step(s, ls[0]), ls[1..], c);
    }
    LiveMeansUndrained(s, c);
  }

  // ---------------------------------------------------------------------------
  // Two late connections leave any device online
  // ---------------------------------------------------------------------------

  lemma {:induction false} FreshId(ids: set<Id>) returns (n: Id)
    ensures forall c | c in ids :: c < n
  {
    if |ids| == 0 {
      n := 0;
    } else {
      var c := Pick(ids);
      assert forall x | x in ids :: x == c || x in ids - {c};
      n := FreshId(ids - {c});
      n := if n > c then n else c + 1;
    }
  }

  /** A new connection is counted. */
  lemma Comes(s: State, n: Id, d: Device)
    requires Inv(s) && n !in s.phase
    ensures Enabled(s, Add(n, d)) && Inv(Step(s, Add(n, d)))
    ensures var t := Step(s, Add(n, d));
      && t.phase == s.phase[n := Added] && t.device == s.device[n := d]
      && t.status == s.status && t.closed == s.closed && t.owed == s.owed
  {
    assert Enabled(s, Add(n, d)) by { assert Structure(s); }
    StepKeepsInv(s, Add(n, d));
    AfterAdd(s, n, d);
  }

  lemma AddCompletes(s: State, n: Id, d: Device, rest: seq<Label>)
    requires !Drained(s) && Enabled(s, Add(n, d)) && Completes(Step(s, Add(n, d)), rest, true)
    ensures Completes(s, [Add(n, d)] + rest, true)
    ensures Runs(s, [Add(n, d)] + rest) && Final(s, [Add(n, d)] + rest) == Final(Step(s, Add(n, d)), rest)
  {
    hide Step, Enabled, Drained;
    CompletesRuns(Step(s, Add(n, d)), rest, true);
    RunOne(s, Add(n, d), rest);
    assert ([Add(n, d)] + rest)[1..] == rest;
  }

  /** Two connections of one device are counted, neither in the hub yet. */
  lemma TwoCome(s: State, a: Id, b: Id, d: Device)
    requires Inv(s) && a !in s.phase && b !in s.phase && a != b
    ensures Enabled(s, Add(a, d)) && Enabled(Step(s, Add(a, d)), Add(b, d)) && !Drained(Step(s, Add(a, d)))
    ensures var u := Step(Step(s, Add(a, d)), Add(b, d));
      && Inv(u) && u.status == s.status
      && At(u, a, Added) && At(u, b, Added) && u.device[a] == d && u.device[b] == d
  {
    Comes(s, a, d);
    var t := Step(s, Add(a, d));
    Comes(t, b, d);
    LiveMeansUndrained(t, a);
    hide Step, Enabled, Inv, Drained;
  }

  /**
   While connections are accepted, every device in the table can end a shutdown online: it
   connects, connects again, and the connection overtaken is the last to write.
   */
  lemma AnyDeviceCanEndOnline(s: State, d: Device) returns (ls: seq<Label>)
    requires Inv(s) && !Drained(s) && d in s.status
    ensures Completes(s, ls, true) && Runs(s, ls) && StoredOnline(Final(s, ls), d)
  {
    var a := FreshId(s.phase.Keys);
    var b := a + 1;
    assert a !in s.phase && b !in s.phase;
    hide Step, Enabled, Inv, Drained, Completes, StoredOnline, Final, Runs;
    TwoCome(s, a, b, d);
    var t := Step(s, Add(a, d));
    var u := Step(t, Add(b, d));
    var rest := BothRegisterRun(u, d, a, b);
    GoodIsAccepted(u, rest, true);
    LastFinishCompletes(u, rest, b, true);
    AddCompletes(t, b, d, rest);
    AddCompletes(s, a, d, [Add(b, d)] + rest);
    ls := [Add(a, d)] + ([Add(b, d)] + rest);
  }

  /**
   What a shutdown promises about a connected device, exactly: it ends stored as offline in
   every run if and only if connections are no longer accepted and at most one connection of
   the device, the current one or one that has yet to register, can still write it online.
   */
  lemma LeavesOfflineWhenIff(s: State, d: Device, late: bool)
    requires Inv(s) && d in s.hub && d in s.status
    ensures LeavesOfflineWhen(s, d, late) <==> !late && OneSpeaker(s, d)
  {
    assert EntrySound(s, d);
    LiveMeansUndrained(s, s.hub[d]);
    hide Inv;
    if late {
      var ls := AnyDeviceCanEndOnline(s, d);
      assert Final(s, ls).status[d] == Online;
    } else if OneSpeaker(s, d) {
      var last := OneSpeakerIsLast(s, d);
      forall ls | Completes(s, ls, late)
        ensures Runs(s, ls) && d in Final(s, ls).status && Final(s, ls).status[d] == Offline
      {
        CompletesRuns(s, ls, late);
        RunEndsOffline(s, ls, d, last);
      }
    } else {
      var ls, last := SecondSpeakerRun(s, d);
      GoodIsAccepted(s, ls, late);
      LastFinishCompletes(s, ls, last, late);
      assert Final(s, ls).status[d] == Online;
    }
  }

  // ---------------------------------------------------------------------------
  // Whether what the peers send can put Wait's return off without bound
  // ---------------------------------------------------------------------------

  ghost predicate BoundedBy(s: State, late: bool, n: nat) {
    forall ls | Runs(s, ls) && Accepted(ls, late) && WaitBlocks(s, ls) :: |ls| <= n
  }

  /** There is a number of steps in which Wait returns, whatever the peers send. */
  ghost predicate Bounded(s: State, late: bool) {
    exists n: nat :: BoundedBy(s, late, n)
  }

  /** Every connection that has yet to leave its read loop has been closed. */
  ghost predicate AllClosed(s: State) {
    forall c | Remains(s, c) :: c in s.closed
  }

  lemma RemainingRemained(s: State, l: Label, c: Id)
    requires Drains(l) && Enabled(s, l) && Remains(Step(s, l), c)
    ensures Remains(s, c)
  {
    PhaseAfter(s, l);
    hide Step, Enabled;
  }

  lemma StepKeepsAllClosed(s: State, l: Label)
    requires AllClosed(s) && Drains(l) && Enabled(s, l)
    ensures AllClosed(Step(s, l)) && !l.Heartbeat?
  {
    ClosesAfter(s, l);
    forall c | Remains(Step(s, l), c) ensures c in Step(s, l).closed {
      RemainingRemained(s, l, c);
    }
    assert l.Heartbeat? ==> Remains(s, l.c);
  }

  lemma {:induction false} NoMessagesWhenClosed(s: State, ls: seq<Label>)
    requires AllClosed(s) && Runs(s, ls) && AllDrain(ls)
    ensures Messages(ls) == 0
    decreases |ls|
  {
    if ls != [] {
      StepKeepsAllClosed(s, ls[0]);
      assert forall i | 0 <= i < |ls| - 1 :: ls[1..][i] == ls[i + 1];
      NoMessagesWhenClosed(Step(s, ls[0]), ls[1..]);
    }
  }

  lemma ClosedIsBounded(s: State)
    requires AllClosed(s)
    ensures BoundedBy(s, false, Measure(s))
  {
    forall ls | Runs(s, ls) && Accepted(ls, false) && WaitBlocks(s, ls) ensures |ls| <= Measure(s) {
      NoMessagesWhenClosed(s, ls);
      DrainingIsBounded(s, ls);
    }
  }

  /** One connection exchanges n messages: twice n steps, after which it stands where it stood. */
  lemma {:induction false} Chatter(s: State, c: Id, n: nat) returns (ls: seq<Label>)
    requires At(s, c, Serving) && c !in s.closed
    ensures GoodRun(s, ls) && |ls| == 2 * n && Messages(ls) == n
    ensures At(Final(s, ls), c, Serving) && c !in Final(s, ls).closed
    decreases n
  {
    if n == 0 {
      ls := [];
    } else {
      var t := Step(s, Heartbeat(c));
      var u := Step(t, Handled(c, true));
      assert At(u, c, Serving) && c !in u.closed;
      hide Step;
      var rest := Chatter(u, c, n - 1);
      GoodStep(t, Handled(c, true), rest);
      GoodStep(s, Heartbeat(c), [Handled(c, true)] + rest);
      ls := [Heartbeat(c)] + ([Handled(c, true)] + rest);
      assert ls[1..] == [Handled(c, true)] + rest && ls[1..][1..] == rest;
    }
  }

  lemma NotSelfReplacing(s: State, c: Id)
    requires Clean(s) && c in s.phase && s.phase[c].Closing?
    ensures s.phase[c].older != c
  {
  }

  lemma OwnStepStaysOpen(s: State, c: Id)
    requires Clean(s) && Remains(s, c) && c in s.device && c !in s.closed && !s.phase[c].Serving?
    ensures Enabled(s, OwnStep(s, c))
    ensures Remains(Step(s, OwnStep(s, c)), c) && c !in Step(s, OwnStep(s, c)).closed
  {
  }

  /** A connection that remains and is open gets to its read loop, open still. */
  lemma GetsToServe(s: State, c: Id) returns (ls: seq<Label>)
    requires Inv(s) && Clean(s) && Remains(s, c) && c !in s.closed
    ensures GoodRun(s, ls) && At(Final(s, ls), c, Serving) && c !in Final(s, ls).closed
    decreases Weight(s.phase[c])
  {
    assert c in s.device;
    if s.phase[c].Serving? {
      ls := [];
    } else {
      var l := OwnStep(s, c);
      OwnStepIsEnabled(s, c);
      OwnStepSucceeds(s, c);
      StepKeepsInv(s, l);
      StepKeepsClean(s, l);
      WeightDrops(s, l);
      OwnStepStaysOpen(s, c);
      hide Step, Enabled, Inv, Clean, OwnStep, Own, Weight;
      var rest := GetsToServe(Step(s, l), c);
      GoodStep(s, l, rest);
      ls := [l] + rest;
    }
  }

  lemma {:induction false} MessagesConcat(a: seq<Label>, b: seq<Label>)
    ensures Messages(a + b) == Messages(a) + Messages(b)
    decreases |a|
  {
    if a == [] {
      assert a + b == b;
    } else {
      assert (a + b)[1..] == a[1..] + b;
      MessagesConcat(a[1..], b);
    }
  }

  /** A peer whose connection is open can hold Wait up for as long as it keeps sending. */
  lemma TalkerHoldsWait(s: State, c: Id, n: nat) returns (ls: seq<Label>)
    requires Inv(s) && Clean(s) && Remains(s, c) && c !in s.closed
    ensures GoodRun(s, ls) && |ls| >= 2 * n && Messages(ls) >= n
    ensures Runs(s, ls) && WaitBlocks(s, ls)
  {
    var first := GetsToServe(s, c);
    var second := Chatter(Final(s, first), c, n);
    GoodConcat(s, first, second);
    ls := first + second;
    MessagesConcat(first, second);
    LiveAtTheEndBlocks(s, ls, c);
  }

  /** So can one that connects during the drain. */
  lemma NewcomerHoldsWait(s: State, d: Device, n: nat) returns (ls: seq<Label>)
    requires Inv(s) && Clean(s) && !Drained(s)
    ensures Runs(s, ls) && Accepted(ls, true) && |ls| >= 2 * n && WaitBlocks(s, ls)
  {
    var c := FreshId(s.phase.Keys + s.closed);
    assert c !in s.phase && c !in s.closed;
    Comes(s, c, d);
    var t := Step(s, Add(c, d));
    StepKeepsClean(s, Add(c, d));
    assert Remains(t, c) && c !in t.closed;
    hide Step, Enabled, Inv, Clean, Drained, Remains;
    var rest := TalkerHoldsWait(t, c, n);
    GoodIsAccepted(t, rest, true);
    RunOne(s, Add(c, d), rest);
    ls := [Add(c, d)] + rest;
    assert ls[1..] == rest;
  }

  lemma LongerThan(s: State, late: bool, n: nat) returns (ls: seq<Label>)
    requires Inv(s) && Clean(s) && !Drained(s) && (late || !AllClosed(s))
    ensures Runs(s, ls) && Accepted(ls, late) && WaitBlocks(s, ls) && |ls| > n
  {
    hide Inv, Clean, Drained;
    if late {
      ls := NewcomerHoldsWait(s, "", n + 1);
    } else {
      var c :| Remains(s, c) && c !in s.closed;
      ls := TalkerHoldsWait(s, c, n + 1);
      GoodIsAccepted(s, ls, late);
    }
  }

  /**
   Until Wait has returned, the number of steps to its return is bounded whatever the peers
   send if and only if connections are no longer accepted and everyone who has yet to leave
   its read loop has been closed.
   */
  lemma WaitIsBoundedIff(s: State, late: bool)
    requires Inv(s) && Clean(s) && !Drained(s)
    ensures Bounded(s, late) <==> !late && AllClosed(s)
  {
    if !late && AllClosed(s) {
      ClosedIsBounded(s);
    } else {
      forall n: nat ensures !BoundedBy(s, late, n) {
        var ls := LongerThan(s, late, n);
      }
    }
  }
}
