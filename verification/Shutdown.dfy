/**
 Shutdown: CloseAll snapshots the hub and closes what it found, then Wait blocks until the
 wait group is empty. This file follows the connections counted by then. A read ends with a
 message, when its connection is closed, when the peer hangs up, or at its deadline: every
 read has one, so a silent peer keeps nobody for ever. Results: how many steps a drain can
 take in terms of the messages that arrive, when the server can end it by itself, and that
 it ends clean. `LateRegistration` adds connections that arrive during the drain.
 */
module Shutdown {
  import opened HubTable
  import opened Lifecycle
  import opened StoredStatus

  /** The steps of connections that are already counted; one that is not in the hub yet may still register. */
  predicate Drains(l: Label) {
    !l.Add? && !l.Snapshot?
  }

  predicate AllDrain(ls: seq<Label>) {
    forall i | 0 <= i < |ls| :: Drains(ls[i])
  }

  /** CloseAll has made all its closes and the wait group is empty: Wait returns. */
  predicate Drained(s: State) {
    s.wg == 0 && s.owed == {}
  }

  lemma LiveMeansUndrained(s: State, c: Id)
    requires Inv(s) && Live(s, c)
    ensures s.wg > 0 && !Drained(s)
  {
    assert c in LiveSet(s);
  }

  // ---------------------------------------------------------------------------
  // What one step does
  // ---------------------------------------------------------------------------

  lemma PhasesInOrder(s: State, l: Label)
    requires Enabled(s, l) && MovesOne(l)
    ensures l.c in s.phase && l.c in Step(s, l).phase
    ensures (s.phase[l.c] == Added <==> l.Register?) && Step(s, l).phase[l.c] != Added
    ensures InLoop(Step(s, l).phase[l.c]) ==> InLoop(s.phase[l.c]) || l.Register?
  {
    match l
    case Register(_) =>
    case CloseReplaced(_) =>
    case WriteOnline(_, _) =>
    case Heartbeat(_) =>
    case Handled(_, _) =>
    case ReadFails(_) =>
    case Unregister(_) =>
    case WriteOffline(_, _) =>
    case Finish(_) =>
  }

  /** A draining step moves one connection forward, or closes one for CloseAll. */
  lemma PhaseAfter(s: State, l: Label)
    requires Drains(l) && Enabled(s, l)
    ensures l.CloserCloses? ==> Step(s, l).phase == s.phase
    ensures !l.CloserCloses? ==>
      l.c in s.phase && l.c in Step(s, l).phase && Step(s, l).phase == s.phase[l.c := Step(s, l).phase[l.c]]
    ensures !l.CloserCloses? ==> (s.phase[l.c] == Added <==> l.Register?) && Step(s, l).phase[l.c] != Added
    ensures !l.CloserCloses? && InLoop(Step(s, l).phase[l.c]) ==> InLoop(s.phase[l.c]) || l.Register?
    ensures Step(s, l).device == s.device
  {
    StepKeepsDevices(s, l);
    if !l.CloserCloses? {
      StepMovesPhase(s, l);
      PhasesInOrder(s, l);
      hide Step, Enabled;
    }
  }

  lemma ClosesAfter(s: State, l: Label)
    requires Drains(l) && Enabled(s, l)
    ensures s.closed <= Step(s, l).closed
    ensures Step(s, l).owed == if l.CloserCloses? then s.owed - {l.c} else s.owed
    ensures l.CloserCloses? ==> l.c in s.owed && Step(s, l).closed == s.closed + {l.c}
    ensures l.CloseReplaced? ==>
      l.c in s.phase && s.phase[l.c].Closing? && Step(s, l).closed == s.closed + {s.phase[l.c].older}
    ensures !l.CloserCloses? && !l.CloseReplaced? ==> s.closed == Step(s, l).closed
  {
    match l
    case Register(_) =>
    case CloseReplaced(_) =>
    case WriteOnline(_, _) =>
    case Heartbeat(_) =>
    case Handled(_, _) =>
    case ReadFails(_) =>
    case Unregister(_) =>
    case WriteOffline(_, _) =>
    case Finish(_) =>
    case CloserCloses(_) =>
  }

  lemma ReplacersStay(s: State, l: Label)
    requires Drains(l) && Enabled(s, l) && !l.Register?
    ensures Step(s, l).replacedBy == s.replacedBy
    ensures !l.CloserCloses? ==> l.c in Step(s, l).phase && !Step(s, l).phase[l.c].Closing?
    ensures !l.CloserCloses? && l.c in s.phase && s.phase[l.c].Closing? ==> l.CloseReplaced?
  {
    match l
    case CloseReplaced(_) =>
    case WriteOnline(_, _) =>
    case Heartbeat(_) =>
    case Handled(_, _) =>
    case ReadFails(_) =>
    case Unregister(_) =>
    case WriteOffline(_, _) =>
    case Finish(_) =>
    case CloserCloses(_) =>
  }

  lemma OwedStayOwed(s: State, l: Label, c: Id)
    requires Drains(l) && Enabled(s, l) && !l.Register? && OwedByReplacer(s, c)
    ensures OwedByReplacer(Step(s, l), c) || c in Step(s, l).closed
  {
    PhaseAfter(s, l);
    ClosesAfter(s, l);
    ReplacersStay(s, l);
    hide Step, Enabled, Drains;
  }

  // ---------------------------------------------------------------------------
  // How many steps a drain can take
  // ---------------------------------------------------------------------------

  /** Steps that one goroutine has left if no message arrives, and no fewer. */
  function Weight(p: Phase): nat {
    match p
    case Added => 9
    case Closing(_) => 8
    case Opening => 7
    case Handling => 6
    case Serving => 5
    case Leaving => 3
    case OwesOffline => 2
    case Finishing => 1
    case Done => 0
  }

  ghost function Sum(m: map<Id, nat>): nat {
    if m == map[] then 0
    else
      var c :| c in m;
      m[c] + Sum(m - {c})
  }

  lemma SumSplits(m: map<Id, nat>, c: Id)
    requires c in m
    ensures Sum(m) == m[c] + Sum(m - {c})
  {
    var d :| d in m && Sum(m) == m[d] + Sum(m - {d});
    if d != c {
      SumSplits(m - {d}, c);
      SumSplits(m - {c}, d);
      assert m - {d} - {c} == m - {c} - {d};
    }
  }

  ghost function Weights(s: State): map<Id, nat> {
    map c | c in s.phase :: Weight(s.phase[c])
  }

  /** Remaining phases plus closes that CloseAll still owes. */
  ghost function Measure(s: State): nat {
    Sum(Weights(s)) + |s.owed|
  }

  lemma WeightDrops(s: State, l: Label)
    requires Drains(l) && Enabled(s, l) && !l.CloserCloses?
    ensures l.c in s.phase && l.c in Step(s, l).phase
    ensures var before, after := Weight(s.phase[l.c]), Weight(Step(s, l).phase[l.c]);
      if l.Heartbeat? then after == before + 1 else after < before
  {
    match l
    case Register(_) =>
    case CloseReplaced(_) =>
    case WriteOnline(_, _) =>
    case Heartbeat(_) =>
    case Handled(_, _) =>
    case ReadFails(_) =>
    case Unregister(_) =>
    case WriteOffline(_, _) =>
    case Finish(_) =>
    case CloserCloses(_) =>
  }

  lemma CloseShrinks(s: State, l: Label)
    requires Enabled(s, l) && l.CloserCloses?
    ensures Measure(Step(s, l)) < Measure(s)
  {
    var t := Step(s, l);
    assert Weights(t) == Weights(s);
    assert |t.owed| == |s.owed| - 1;
  }

  lemma MoveShrinks(s: State, l: Label)
    requires Drains(l) && Enabled(s, l) && !l.CloserCloses?
    ensures if l.Heartbeat? then Measure(Step(s, l)) == Measure(s) + 1 else Measure(Step(s, l)) < Measure(s)
  {
    PhaseAfter(s, l);
    ClosesAfter(s, l);
    WeightDrops(s, l);
    hide Step, Enabled, Weight;
    var m, n := Weights(Step(s, l)), Weights(s);
    assert m - {l.c} == n - {l.c};
    SumSplits(m, l.c);
    SumSplits(n, l.c);
  }

  /** Every draining step makes the measure smaller, but for a message that arrives, which adds one. */
  lemma DrainingShrinks(s: State, l: Label)
    requires Drains(l) && Enabled(s, l)
    ensures if l.Heartbeat? then Measure(Step(s, l)) == Measure(s) + 1 else Measure(Step(s, l)) < Measure(s)
  {
    hide Step, Enabled, Measure;
    if l.CloserCloses? {
      CloseShrinks(s, l);
    } else {
      MoveShrinks(s, l);
    }
  }

  /** Messages that arrive in a run. */
  function Messages(ls: seq<Label>): nat {
    if ls == [] then 0 else (if ls[0].Heartbeat? then 1 else 0) + Messages(ls[1..])
  }

  /**
   However the goroutines interleave, only messages that arrive make a drain longer than its measure,
   by two steps each.
   */
  lemma {:induction false} DrainingIsBounded(s: State, ls: seq<Label>)
    requires Runs(s, ls) && AllDrain(ls)
    ensures |ls| + Measure(Final(s, ls)) <= Measure(s) + 2 * Messages(ls)
    decreases |ls|
  {
    if ls != [] {
      DrainingShrinks(s, ls[0]);
      assert forall i | 0 <= i < |ls| - 1 :: ls[1..][i] == ls[i + 1];
      hide Step, Enabled, Measure;
      DrainingIsBounded(Step(s, ls[0]), ls[1..]);
    }
  }

  // ---------------------------------------------------------------------------
  // Whom somebody is going to close
  // ---------------------------------------------------------------------------

  predicate NoneAdded(s: State) {
    forall c | c in s.phase :: s.phase[c] != Added
  }

  /** The connection has been closed or somebody is about to close it. */
  predicate Doomed(s: State, c: Id) {
    c in s.closed || c in s.owed || OwedByReplacer(s, c)
  }

  /** Nobody is about to register, and whoever is still reading is doomed. */
  ghost predicate Draining(s: State) {
    && Inv(s) && NoneAdded(s)
    && forall c | c in s.phase && InLoop(s.phase[c]) :: Doomed(s, c)
  }

  /** The snapshot starts a drain exactly when no connection is between being counted and registering. */
  lemma SnapshotStartsDrainingIff(s: State)
    requires Inv(s)
    ensures Draining(Step(s, Snapshot)) <==> NoneAdded(s)
  {
    var t := Step(s, Snapshot);
    StepKeepsInv(s, Snapshot);
    forall c | c in t.phase && InLoop(t.phase[c]) ensures Doomed(t, c) {
      assert c in s.device && Covered(s, c);
      if IsCurrent(s.hub, s.device[c], c) {
        assert s.hub[s.device[c]] in s.hub.Values;
      } else if OwedByReplacer(s, c) {
        assert OwedByReplacer(t, c);
      }
    }
  }

  lemma DoomedStayDoomed(s: State, l: Label, c: Id)
    requires Drains(l) && Enabled(s, l) && !l.Register? && Doomed(s, c)
    ensures Doomed(Step(s, l), c)
  {
    ClosesAfter(s, l);
    if OwedByReplacer(s, c) {
      OwedStayOwed(s, l, c);
    }
  }

  lemma NobodyRegisters(s: State, l: Label)
    requires NoneAdded(s) && Drains(l) && Enabled(s, l)
    ensures NoneAdded(Step(s, l)) && !l.Register?
  {
    PhaseAfter(s, l);
    hide Step, Enabled;
  }

  lemma DrainingContinues(s: State, l: Label)
    requires Draining(s) && Drains(l) && Enabled(s, l)
    ensures Draining(Step(s, l))
  {
    StepKeepsInv(s, l);
    NobodyRegisters(s, l);
    PhaseAfter(s, l);
    hide Step, Enabled, Inv, Doomed, NoneAdded;
    var t := Step(s, l);
    forall c | c in t.phase && InLoop(t.phase[c]) ensures Doomed(t, c) {
      DoomedStayDoomed(s, l, c);
    }
  }

  // ---------------------------------------------------------------------------
  // What the server can do by itself
  // ---------------------------------------------------------------------------

  /**
   A step for which no message has to arrive and no peer has to hang up: a read fails when its
   connection is closed, and otherwise at its deadline. A prompt step does not wait for one.
   */
  predicate Own(s: State, l: Label, prompt: bool) {
    Drains(l) && !l.Heartbeat? && Enabled(s, l) && (prompt && l.ReadFails? ==> l.c in s.closed)
  }

  ghost predicate AllOwn(s: State, ls: seq<Label>, prompt: bool)
    decreases |ls|
  {
    ls == [] || (Own(s, ls[0], prompt) && AllOwn(Step(s, ls[0]), ls[1..], prompt))
  }

  /** A run of the server's own steps is a draining run in which no message arrives. */
  lemma {:induction false} OwnRuns(s: State, ls: seq<Label>, prompt: bool)
    requires AllOwn(s, ls, prompt)
    ensures Runs(s, ls) && AllDrain(ls) && Messages(ls) == 0
    decreases |ls|
  {
    if ls != [] {
      OwnRuns(Step(s, ls[0]), ls[1..], prompt);
      assert forall i | 0 < i < |ls| :: ls[i] == ls[1..][i - 1];
    }
  }

  /** The step the goroutine of `c` takes next when no message arrives. */
  function OwnStep(s: State, c: Id): Label
    requires c in s.phase && s.phase[c] != Done
  {
    match s.phase[c]
    case Added => Register(c)
    case Closing(_) => CloseReplaced(c)
    case Opening => WriteOnline(c, true)
    case Serving => ReadFails(c)
    case Handling => Handled(c, true)
    case Leaving => Unregister(c)
    case OwesOffline => WriteOffline(c, true)
    case Finishing => Finish(c)
  }

  lemma OwnStepIsEnabled(s: State, c: Id)
    requires Structure(s) && c in s.phase && s.phase[c] != Done
    ensures Own(s, OwnStep(s, c), false) && OwnStep(s, c).c == c && !OwnStep(s, c).CloserCloses?
    ensures OwnStep(s, c).ReadFails? <==> s.phase[c] == Serving
  {
  }

  /** Until Wait returns the server has a step of its own; a prompt one if everybody still reading is doomed. */
  lemma SomeOwnStep(s: State, prompt: bool) returns (l: Label)
    requires Inv(s) && !Drained(s) && (prompt ==> Draining(s))
    ensures Own(s, l, prompt)
  {
    if owed :| owed in s.owed {
      l := CloserCloses(owed);
    } else {
      assert |LiveSet(s)| != 0;
      var c :| c in LiveSet(s);
      OwnStepIsEnabled(s, c);
      if prompt && s.phase[c].Serving? && c !in s.closed {
        assert OwedByReplacer(s, c);
        l := CloseReplaced(s.replacedBy[c]);
      } else {
        l := OwnStep(s, c);
      }
    }
  }

  /** The server can bring Wait to return by itself, in no more steps than the measure. */
  lemma WaitReturns(s: State, prompt: bool) returns (ls: seq<Label>)
    requires Inv(s) && (prompt ==> Draining(s))
    ensures AllOwn(s, ls, prompt) && Runs(s, ls) && |ls| <= Measure(s) && Drained(Final(s, ls))
    decreases Measure(s)
  {
    ls := [];
    if !Drained(s) {
      var l := SomeOwnStep(s, prompt);
      StepKeepsInv(s, l);
      DrainingShrinks(s, l);
      if prompt {
        DrainingContinues(s, l);
      }
      hide Step, Enabled, Measure, Draining, Inv;
      var rest := WaitReturns(Step(s, l), prompt);
      ls := [l] + rest;
      assert ls[1..] == rest;
      RunOne(s, l, rest);
    }
  }

  /**
   While the peers are silent a drain always ends: no run of the server's own steps is longer
   than the measure, and one that has not brought Wait to return can go on.
   */
  lemma SilentDrainEnds(s: State, ls: seq<Label>)
    requires Inv(s) && AllOwn(s, ls, false)
    ensures |ls| <= Measure(s) && Runs(s, ls)
    ensures !Drained(Final(s, ls)) ==> exists l :: Own(Final(s, ls), l, false)
  {
    OwnRuns(s, ls, false);
    DrainingIsBounded(s, ls);
    RunKeepsInv(s, ls);
    if !Drained(Final(s, ls)) {
      var l := SomeOwnStep(Final(s, ls), false);
    }
  }

  // ---------------------------------------------------------------------------
  // Exactly when it can do so without waiting for a read deadline
  // ---------------------------------------------------------------------------

  /** The connection has registered. */
  predicate Entered(s: State, c: Id) {
    c in s.phase && s.phase[c] != Added
  }

  /** A connection that is not in the hub yet is closed by nobody, and nobody replaces itself. */
  ghost predicate Clean(s: State) {
    && (forall c | c in s.closed :: Entered(s, c))
    && (forall c | c in s.owed :: Entered(s, c))
    && (forall c | c in s.phase :: s.phase[c] != Closing(c))
  }

  lemma RegisterKeepsClean(s: State, c: Id)
    requires Inv(s) && Clean(s) && Enabled(s, Register(c))
    ensures Clean(Step(s, Register(c)))
  {
    AfterRegister(s, c);
    assert s.device[c] in s.hub ==> EntrySound(s, s.device[c]);
    hide Step, Inv, Enabled;
    var t := Step(s, Register(c));
    assert forall n | Entered(s, n) :: Entered(t, n);
    hide Entered;
  }

  lemma SnapshotKeepsClean(s: State)
    requires Inv(s) && Clean(s)
    ensures Clean(Step(s, Snapshot))
  {
    forall c | c in s.hub.Values ensures Entered(s, c) {
      var d :| d in s.hub && s.hub[d] == c;
      assert EntrySound(s, d);
    }
    hide Inv;
  }

  lemma EnteredStay(s: State, l: Label)
    requires Drains(l) && Enabled(s, l) && !l.Register?
    ensures forall c | Entered(s, c) :: Entered(Step(s, l), c)
    ensures forall c | c in Step(s, l).phase && Step(s, l).phase[c].Closing? ::
      c in s.phase && s.phase[c] == Step(s, l).phase[c]
  {
    hide Step, Enabled, Drains;
    PhaseAfter(s, l);
    ReplacersStay(s, l);
  }

  lemma ClosedHaveEntered(s: State, l: Label)
    requires Inv(s) && Clean(s) && Enabled(s, l) && Drains(l) && !l.Register?
    ensures forall c | c in Step(s, l).closed || c in Step(s, l).owed :: Entered(s, c)
  {
    if l.CloseReplaced? {
      assert Silent(s, s.phase[l.c].older) && Entered(s, s.phase[l.c].older);
    }
    hide Step, Enabled, Drains, Inv;
    ClosesAfter(s, l);
  }

  lemma MoveKeepsClean(s: State, l: Label)
    requires Inv(s) && Clean(s) && Enabled(s, l) && Drains(l) && !l.Register?
    ensures Clean(Step(s, l))
  {
    hide Step, Enabled, Drains, Inv, Entered;
    EnteredStay(s, l);
    ClosedHaveEntered(s, l);
  }

  lemma StepKeepsClean(s: State, l: Label)
    requires Inv(s) && Clean(s) && Enabled(s, l)
    ensures Clean(Step(s, l))
  {
    match l
    case Add(c, d) =>
      AfterAdd(s, c, d);
      hide Step, Inv;
    case Register(c) => RegisterKeepsClean(s, c);
    case Snapshot => SnapshotKeepsClean(s);
    case _ => MoveKeepsClean(s, l);
  }

  lemma {:induction false} RunKeepsClean(s: State, ls: seq<Label>)
    requires Inv(s) && Clean(s) && Runs(s, ls)
    ensures Clean(Final(s, ls))
    decreases |ls|
  {
    if ls != [] {
      StepKeepsInv(s, ls[0]);
      StepKeepsClean(s, ls[0]);
      RunKeepsClean(Step(s, ls[0]), ls[1..]);
    }
  }

  /** Every reachable state is one the results below speak about. */
  lemma ReachableIsClean(status: map<Device, Status>, ls: seq<Label>)
    requires Runs(Init(status), ls)
    ensures Inv(Final(Init(status), ls)) && Clean(Final(Init(status), ls))
  {
    InitSatisfiesInv(status);
    RunKeepsInv(Init(status), ls);
    RunKeepsClean(Init(status), ls);
  }

  /** The connection has yet to leave its read loop. */
  predicate Remains(s: State, c: Id) {
    c in s.phase && (s.phase[c].Added? || InLoop(s.phase[c]))
  }

  lemma AddedIsNotDoomed(s: State, c: Id)
    requires Inv(s) && Clean(s) && At(s, c, Added)
    ensures !Doomed(s, c)
  {
    assert c in s.replacedBy ==> Silent(s, c);
  }

  /** Whoever registers is left undoomed. */
  lemma RegistrantIsNotDoomed(s: State, c: Id)
    requires Inv(s) && Clean(s) && Enabled(s, Register(c))
    ensures Remains(Step(s, Register(c)), c) && !Doomed(Step(s, Register(c)), c)
  {
    AddedIsNotDoomed(s, c);
    AfterRegister(s, c);
    assert s.device[c] in s.hub ==> EntrySound(s, s.device[c]);
    assert c in s.replacedBy ==> Silent(s, c);
    hide Step;
  }

  lemma UndoomedReads(s: State, l: Label, c: Id)
    requires Remains(s, c) && c !in s.closed && Own(s, l, true)
    ensures Remains(Step(s, l), c)
  {
    match l
    case Register(_) =>
    case CloseReplaced(_) =>
    case WriteOnline(_, _) =>
    case Heartbeat(_) =>
    case Handled(_, _) =>
    case ReadFails(_) =>
    case Unregister(_) =>
    case WriteOffline(_, _) =>
    case Finish(_) =>
    case CloserCloses(_) =>
  }

  /** No prompt step dooms a connection that was not. */
  lemma UndoomedStays(s: State, l: Label, c: Id)
    requires Inv(s) && Remains(s, c) && !Doomed(s, c) && Own(s, l, true) && !l.Register?
    ensures Remains(Step(s, l), c) && !Doomed(Step(s, l), c)
  {
    UndoomedReads(s, l, c);
    PhaseAfter(s, l);
    ClosesAfter(s, l);
    ReplacersStay(s, l);
    if l.CloseReplaced? {
      assert s.replacedBy[s.phase[l.c].older] == l.c;
    }
    hide Step, Enabled, Inv;
  }

  lemma {:induction false} UndoomedHoldsWait(s: State, ls: seq<Label>, c: Id)
    requires Inv(s) && Clean(s) && Remains(s, c) && !Doomed(s, c) && AllOwn(s, ls, true)
    ensures Runs(s, ls) && !Drained(Final(s, ls))
    decreases |ls|
  {
    if ls == [] {
      LiveMeansUndrained(s, c);
    } else {
      var l := ls[0];
      StepKeepsInv(s, l);
      StepKeepsClean(s, l);
      if l.Register? {
        RegistrantIsNotDoomed(s, l.c);
      } else {
        UndoomedStays(s, l, c);
      }
      hide Step, Enabled, Inv, Clean, Doomed, Drained, Remains;
      UndoomedHoldsWait(Step(s, l), ls[1..], if l.Register? then l.c else c);
    }
  }

  lemma SomeoneUndoomed(s: State) returns (c: Id)
    requires Inv(s) && Clean(s) && !Draining(s)
    ensures Remains(s, c) && !Doomed(s, c)
  {
    if n :| n in s.phase && s.phase[n] == Added {
      c := n;
      assert At(s, c, Added);
      AddedIsNotDoomed(s, c);
    } else {
      c :| c in s.phase && InLoop(s.phase[c]) && !Doomed(s, c);
    }
  }

  /**
   The server can always bring Wait to return by itself; without waiting for a read deadline
   if and only if nobody is about to register and everybody still reading is doomed.
   */
  lemma WaitReturnsIff(s: State, prompt: bool)
    requires Inv(s) && Clean(s)
    ensures (exists ls :: AllOwn(s, ls, prompt) && Runs(s, ls) && Drained(Final(s, ls))) <==> !prompt || Draining(s)
  {
    if !prompt || Draining(s) {
      var ls := WaitReturns(s, prompt);
    } else {
      var c := SomeoneUndoomed(s);
      forall ls | AllOwn(s, ls, prompt) && Runs(s, ls) ensures !Drained(Final(s, ls)) {
        UndoomedHoldsWait(s, ls, c);
      }
    }
  }

  /** When Wait returns the hub is empty and nobody owes an offline write. */
  lemma DrainedIsClean(s: State)
    requires Inv(s) && Drained(s)
    ensures s.hub == map[]
    ensures forall c | c in s.phase :: s.phase[c] == Done
  {
    assert forall d | d in s.hub :: EntrySound(s, d);
    assert LiveSet(s) == {};
    forall c | c in s.phase ensures s.phase[c] == Done {
      assert c !in LiveSet(s);
    }
  }
}
