/**
 Which devices a completed shutdown leaves stored as offline when no new connection comes
 during the drain. A device that was connected when the drain began then ends up offline in
 every run, store writes succeeding, if and only if at most one connection of it, the
 current one or one that has yet to register, can still write it online.
 */
module ShutdownStatus {
  import opened HubTable
  import opened Lifecycle
  import opened StoredStatus
  import opened Shutdown

  predicate WriteSucceeds(l: Label) {
    match l
    case WriteOnline(_, ok) => ok
    case Handled(_, ok) => ok
    case WriteOffline(_, ok) => ok
    case _ => true
  }

  predicate WritesSucceed(ls: seq<Label>) {
    forall i | 0 <= i < |ls| :: WriteSucceeds(ls[i])
  }

  predicate MayStillWriteOnline(s: State, c: Id)
    requires c in s.phase
  {
    || s.phase[c].Closing? || s.phase[c].Opening? || s.phase[c].Handling?
    || (s.phase[c].Serving? && c !in s.closed)
  }

  /** The connection can write its device online, now or once it has registered. */
  predicate Speaks(s: State, d: Device, c: Id) {
    c in s.phase && c in s.device && s.device[c] == d && (s.phase[c].Added? || MayStillWriteOnline(s, c))
  }

  /** At most one connection of `d` speaks, and it is current or has yet to register. */
  ghost predicate OneSpeaker(s: State, d: Device) {
    && (forall a, b | Speaks(s, d, a) && Speaks(s, d, b) :: a == b)
    && (forall c | Speaks(s, d, c) :: s.phase[c].Added? || IsCurrent(s.hub, d, c))
  }

  /** Every connection of `d` but `last` is done with writing it online. */
  ghost predicate OthersQuiet(s: State, d: Device, last: Id) {
    forall c | Speaks(s, d, c) :: c == last
  }

  ghost predicate LeavesOffline(s: State, d: Device) {
    forall ls | Runs(s, ls) && AllDrain(ls) && WritesSucceed(ls) && Drained(Final(s, ls)) ::
      d in Final(s, ls).status && Final(s, ls).status[d] == Offline
  }

  // ---------------------------------------------------------------------------
  // Quiet others: offline in every run
  // ---------------------------------------------------------------------------

  /** The device's last connection has yet to register, is current, owes the offline write, or has made it. */
  ghost predicate OnItsWayOffline(s: State, d: Device, last: Id) {
    && last in s.phase && last in s.device && s.device[last] == d && d in s.status
    && (|| s.phase[last].Added?
        || IsCurrent(s.hub, d, last)
        || (d !in s.hub && s.phase[last].OwesOffline?)
        || (d !in s.hub && (s.phase[last].Finishing? || s.phase[last].Done?) && s.status[d] == Offline))
  }

  lemma QuietStaysQuiet(s: State, l: Label, d: Device, c: Id)
    requires Drains(l) && Enabled(s, l) && Speaks(Step(s, l), d, c)
    ensures Speaks(s, d, c)
  {
    match l
    case Register(_) =>
    case CloseReplaced(_) =>
    case WriteOnline(_, _) =>
    case Heartbeat(_) =>
    case Handled(_, _) =>
    case ReadFails(_) =>
    case Unregister(_) =>
    case WriteOffline(_, _) =>
    case Finish(_) =>
    case CloserCloses(_) =>
  }

  lemma StepKeepsOthersQuiet(s: State, l: Label, d: Device, last: Id)
    requires OthersQuiet(s, d, last) && Drains(l) && Enabled(s, l)
    ensures OthersQuiet(Step(s, l), d, last)
  {
    forall c | Speaks(Step(s, l), d, c) ensures c == last {
      QuietStaysQuiet(s, l, d, c);
    }
  }

  /** While draining, a device's row changes only by its own connections. */
  lemma RowAfter(s: State, l: Label, d: Device)
    requires Drains(l) && Enabled(s, l) && d in s.status
    ensures d in Step(s, l).status
    ensures Step(s, l).status[d] != s.status[d] ==>
      !l.CloserCloses? && s.device[l.c] == d && (l.WriteOnline? || l.Handled? || l.WriteOffline?)
    ensures l.WriteOffline? && s.device[l.c] == d && l.ok ==> Step(s, l).status[d] == Offline
    ensures l.WriteOffline? ==> Step(s, l).status[d] == s.status[d] || Step(s, l).status[d] == Offline
  {
    match l
    case Register(_) =>
    case CloseReplaced(_) =>
    case WriteOnline(_, _) =>
    case Heartbeat(_) =>
    case Handled(_, _) =>
    case ReadFails(_) =>
    case Unregister(_) =>
    case WriteOffline(_, _) =>
    case Finish(_) =>
    case CloserCloses(_) =>
  }

  /** Its entry goes to a connection that registers, or goes away with the current one. */
  lemma EntryAfter(s: State, l: Label, d: Device)
    requires Drains(l) && Enabled(s, l)
    ensures l.Register? && s.device[l.c] == d ==> IsCurrent(Step(s, l).hub, d, l.c)
    ensures !(l.Register? && s.device[l.c] == d) && d in Step(s, l).hub ==> d in s.hub && Step(s, l).hub[d] == s.hub[d]
    ensures d in s.hub && d !in Step(s, l).hub ==>
      l.Unregister? && l.c == s.hub[d] && l.c in Step(s, l).phase && Step(s, l).phase[l.c] == OwesOffline
  {
    match l
    case Register(_) =>
    case CloseReplaced(_) =>
    case WriteOnline(_, _) =>
    case Heartbeat(_) =>
    case Handled(_, _) =>
    case ReadFails(_) =>
    case Unregister(_) =>
    case WriteOffline(_, _) =>
    case Finish(_) =>
    case CloserCloses(_) =>
  }

  lemma WritersSpeak(s: State, l: Label)
    requires Enabled(s, l) && (l.WriteOnline? || l.Handled? || l.Register?)
    ensures l.c in s.device && Speaks(s, s.device[l.c], l.c)
  {
  }

  /** What other connections do leaves the last one's standing, and the row unless they write it offline. */
  lemma OthersStepAside(s: State, l: Label, d: Device, last: Id)
    requires OthersQuiet(s, d, last) && d in s.status && last in s.phase
    requires Drains(l) && Enabled(s, l) && (l.CloserCloses? || l.c != last)
    ensures d in Step(s, l).status && (Step(s, l).status[d] == s.status[d] || Step(s, l).status[d] == Offline)
    ensures last in Step(s, l).phase && Step(s, l).phase[last] == s.phase[last]
    ensures !(l.Register? && s.device[l.c] == d)
  {
    RowAfter(s, l, d);
    PhaseAfter(s, l);
    if l.WriteOnline? || l.Handled? || l.Register? {
      WritersSpeak(s, l);
    }
    hide Step, Enabled, Speaks;
  }

  lemma OthersKeepOnItsWay(s: State, l: Label, d: Device, last: Id)
    requires OnItsWayOffline(s, d, last) && OthersQuiet(s, d, last)
    requires Drains(l) && Enabled(s, l) && (l.CloserCloses? || l.c != last)
    ensures OnItsWayOffline(Step(s, l), d, last)
  {
    OthersStepAside(s, l, d, last);
    EntryAfter(s, l, d);
    PhaseAfter(s, l);
    hide Step, Enabled, OthersQuiet;
  }

  lemma LastSteps(s: State, l: Label)
    requires Drains(l) && Enabled(s, l) && !l.CloserCloses?
    ensures l.c in s.phase && s.phase[l.c] != Done && l.c in Step(s, l).phase
    ensures s.phase[l.c] == Added ==> l.Register?
    ensures s.phase[l.c] == OwesOffline ==> l.WriteOffline? && Step(s, l).phase[l.c] == Finishing
    ensures s.phase[l.c] == Finishing ==> l.Finish? && Step(s, l).phase[l.c] == Done
  {
  }

  /** The last connection's own steps: it registers, leaves the hub owing the offline write, and makes it. */
  lemma LastKeepsOnItsWay(s: State, l: Label, d: Device)
    requires Drains(l) && Enabled(s, l) && WriteSucceeds(l) && !l.CloserCloses?
    requires OnItsWayOffline(s, d, l.c)
    ensures OnItsWayOffline(Step(s, l), d, l.c)
  {
    LastSteps(s, l);
    RowAfter(s, l, d);
    EntryAfter(s, l, d);
    PhaseAfter(s, l);
    hide Step, Enabled;
  }

  lemma {:induction false} RunEndsOffline(s: State, ls: seq<Label>, d: Device, last: Id)
    requires Inv(s) && OnItsWayOffline(s, d, last) && OthersQuiet(s, d, last)
    requires Runs(s, ls) && AllDrain(ls) && WritesSucceed(ls) && Drained(Final(s, ls))
    ensures d in Final(s, ls).status && Final(s, ls).status[d] == Offline
    decreases |ls|
  {
    if ls == [] {
      DrainedIsClean(s);
    } else {
      assert forall i | 0 <= i < |ls| - 1 :: ls[1..][i] == ls[i + 1];
      var l := ls[0];
      assert Drains(l) && WriteSucceeds(l);
      StepKeepsInv(s, l);
      StepKeepsOthersQuiet(s, l, d, last);
      if l.CloserCloses? || l.c != last {
        OthersKeepOnItsWay(s, l, d, last);
      } else {
        LastKeepsOnItsWay(s, l, d);
      }
      hide Step, Enabled, Inv, OnItsWayOffline, OthersQuiet, Drained;
      RunEndsOffline(Step(s, l), ls[1..], d, last);
    }
  }

  // ---------------------------------------------------------------------------
  // A second speaker: some run ends online
  // ---------------------------------------------------------------------------

  /** A run that drains and whose writes succeed. */
  predicate GoodRun(s: State, ls: seq<Label>) {
    Runs(s, ls) && AllDrain(ls) && WritesSucceed(ls)
  }

  lemma GoodStep(s: State, l: Label, rest: seq<Label>)
    requires Enabled(s, l) && Drains(l) && WriteSucceeds(l) && GoodRun(Step(s, l), rest)
    ensures GoodRun(s, [l] + rest) && Final(s, [l] + rest) == Final(Step(s, l), rest)
  {
    RunOne(s, l, rest);
  }

  lemma GoodConcat(s: State, a: seq<Label>, b: seq<Label>)
    requires GoodRun(s, a) && GoodRun(Final(s, a), b)
    ensures GoodRun(s, a + b) && Final(s, a + b) == Final(Final(s, a), b)
  {
    RunConcat(s, a, b);
  }

  predicate EndsWith(ls: seq<Label>, l: Label) {
    ls != [] && ls[|ls| - 1] == l
  }

  predicate Talkative(p: Phase) {
    p.Closing? || p.Opening? || p.Handling?
  }

  /** A connection of `d` that is not its device's entry and is about to write it online. */
  ghost predicate Astray(s: State, d: Device, c: Id) {
    && Inv(s) && d in s.status && c in s.phase && c in s.device && s.device[c] == d
    && Talkative(s.phase[c]) && !IsCurrent(s.hub, d, c)
  }

  lemma OthersLeaveAstray(s: State, l: Label, d: Device, keep: Id)
    requires Astray(s, d, keep) && Drains(l) && Enabled(s, l) && (l.CloserCloses? || l.c != keep)
    ensures Astray(Step(s, l), d, keep)
  {
    StepKeepsInv(s, l);
    RowAfter(s, l, d);
    EntryAfter(s, l, d);
    PhaseAfter(s, l);
    hide Step, Enabled, Inv;
  }

  lemma OwnStepSucceeds(s: State, c: Id)
    requires c in s.phase && s.phase[c] != Done
    ensures WriteSucceeds(OwnStep(s, c))
  {
  }

  /** Everybody but `keep` can run to the end, and CloseAll can finish, while `keep` stands still. */
  lemma DrainAllBut(s: State, d: Device, keep: Id) returns (ls: seq<Label>)
    requires Astray(s, d, keep)
    ensures GoodRun(s, ls) && Astray(Final(s, ls), d, keep)
    ensures Final(s, ls).owed == {} && forall c | c in Final(s, ls).phase && c != keep :: Final(s, ls).phase[c] == Done
    decreases Measure(s)
  {
    if o :| o in s.owed {
      ls := DrainFirst(s, d, keep, CloserCloses(o));
    } else if c :| c in s.phase && c != keep && s.phase[c] != Done {
      OwnStepIsEnabled(s, c);
      OwnStepSucceeds(s, c);
      ls := DrainFirst(s, d, keep, OwnStep(s, c));
    } else {
      ls := [];
    }
  }

  lemma DrainFirst(s: State, d: Device, keep: Id, l: Label) returns (ls: seq<Label>)
    requires Astray(s, d, keep)
    requires Drains(l) && Enabled(s, l) && WriteSucceeds(l) && !l.Heartbeat? && (l.CloserCloses? || l.c != keep)
    ensures GoodRun(s, ls) && Astray(Final(s, ls), d, keep)
    ensures Final(s, ls).owed == {} && forall c | c in Final(s, ls).phase && c != keep :: Final(s, ls).phase[c] == Done
    decreases Measure(s), 0
  {
    hide Step, Enabled, Astray;
    DrainingShrinks(s, l);
    OthersLeaveAstray(s, l, d, keep);
    var rest := DrainAllBut(Step(s, l), d, keep);
    GoodStep(s, l, rest);
    ls := [l] + rest;
  }

  /** Once everybody else is done, the hub can only name the one that is left, which alone is counted. */
  lemma LastOneCounted(s: State, keep: Id)
    requires Inv(s) && keep in s.phase && s.phase[keep] != Done
    requires forall c | c in s.phase && c != keep :: s.phase[c] == Done
    ensures s.wg == 1 && forall d | d in s.hub :: s.hub[d] == keep
  {
    assert forall d | d in s.hub :: EntrySound(s, d);
    assert LiveSet(s) == {keep};
  }

  /** A connection about to write online does so, and then serves. */
  lemma KeeperAnswers(s: State, keep: Id, d: Device) returns (ls: seq<Label>)
    requires (At(s, keep, Opening) || At(s, keep, Handling)) && s.device[keep] == d && d in s.status
    ensures GoodRun(s, ls)
    ensures var t := Final(s, ls);
      && At(t, keep, Serving) && t.device == s.device && t.hub == s.hub && t.owed == s.owed && t.wg == s.wg
      && StoredOnline(t, d)
  {
    var l := if s.phase[keep].Opening? then WriteOnline(keep, true) else Handled(keep, true);
    GoodStep(s, l, []);
    ls := [l] + [];
  }

  lemma KeeperWrites(s: State, keep: Id, d: Device) returns (ls: seq<Label>)
    requires keep in s.phase && keep in s.device && Talkative(s.phase[keep]) && s.device[keep] == d && d in s.status
    ensures GoodRun(s, ls)
    ensures var t := Final(s, ls);
      && At(t, keep, Serving) && t.device == s.device && t.hub == s.hub && t.owed == s.owed && t.wg == s.wg
      && StoredOnline(t, d)
  {
    if s.phase[keep].Closing? {
      var l := CloseReplaced(keep);
      AfterCloseReplaced(s, keep);
      hide Step;
      var rest := KeeperAnswers(Step(s, l), keep, d);
      GoodStep(s, l, rest);
      ls := [l] + rest;
    } else {
      ls := KeeperAnswers(s, keep, d);
    }
  }

  /** A serving connection that is not in the hub ends without writing anything. */
  lemma KeeperEnds(s: State, keep: Id, d: Device) returns (ls: seq<Label>)
    requires At(s, keep, Serving) && s.device[keep] == d && d !in s.hub && StoredOnline(s, d) && s.owed == {}
      && s.wg == 1
    ensures GoodRun(s, ls) && Drained(Final(s, ls)) && StoredOnline(Final(s, ls), d)
    ensures EndsWith(ls, Finish(keep))
  {
    var s1 := Step(s, ReadFails(keep));
    var s2 := Step(s1, Unregister(keep));
    assert At(s2, keep, Finishing) && s2.owed == {} && s2.wg == 1 && StoredOnline(s2, d);
    GoodStep(s2, Finish(keep), []);
    GoodStep(s1, Unregister(keep), [Finish(keep)] + []);
    ls := [Unregister(keep)] + ([Finish(keep)] + []);
    GoodStep(s, ReadFails(keep), ls);
    ls := [ReadFails(keep)] + ls;
  }

  /** The one astray, alone with nothing owed, writes online and ends. */
  lemma LastOneEndsOnline(s: State, d: Device, keep: Id) returns (ls: seq<Label>)
    requires Astray(s, d, keep) && s.owed == {}
    requires forall c | c in s.phase && c != keep :: s.phase[c] == Done
    ensures GoodRun(s, ls) && Drained(Final(s, ls)) && StoredOnline(Final(s, ls), d)
    ensures EndsWith(ls, Finish(keep))
  {
    LastOneCounted(s, keep);
    hide Step, Enabled, Inv, GoodRun, Final;
    var first := KeeperWrites(s, keep, d);
    var second := KeeperEnds(Final(s, first), keep, d);
    GoodConcat(s, first, second);
    ls := first + second;
  }

  /** Everybody else drains, and the one astray writes last. */
  lemma SomeRunEndsOnline(s: State, d: Device, keep: Id) returns (ls: seq<Label>)
    requires Astray(s, d, keep)
    ensures GoodRun(s, ls) && Drained(Final(s, ls)) && StoredOnline(Final(s, ls), d)
    ensures EndsWith(ls, Finish(keep))
  {
    hide Step, Enabled, Astray, Final, Drained;
    var first := DrainAllBut(s, d, keep);
    var second := LastOneEndsOnline(Final(s, first), d, keep);
    GoodConcat(s, first, second);
    ls := first + second;
  }

  /** A connection that speaks and is not current first becomes astray, if it is not yet. */
  lemma TalkativeRun(s: State, d: Device, c: Id) returns (ls: seq<Label>)
    requires Inv(s) && d in s.status && Speaks(s, d, c) && !s.phase[c].Added? && !IsCurrent(s.hub, d, c)
    ensures GoodRun(s, ls) && Drained(Final(s, ls)) && StoredOnline(Final(s, ls), d)
    ensures EndsWith(ls, Finish(c))
  {
    if Talkative(s.phase[c]) {
      ls := SomeRunEndsOnline(s, d, c);
    } else {
      var l := Heartbeat(c);
      assert At(Step(s, l), c, Handling) && Step(s, l).hub == s.hub && Step(s, l).status == s.status
        && Step(s, l).device == s.device;
      StepKeepsInv(s, l);
      hide Step, Inv;
      var rest := SomeRunEndsOnline(Step(s, l), d, c);
      GoodStep(s, l, rest);
      ls := [l] + rest;
    }
  }

  /** A registration takes the device's entry from another connection and leaves it speaking. */
  lemma RegistrationLeavesAstray(s: State, d: Device, r: Id, c: Id)
    requires Inv(s) && At(s, r, Added) && s.device[r] == d && c != r && Speaks(s, d, c)
    ensures Enabled(s, Register(r)) && Inv(Step(s, Register(r)))
    ensures var t := Step(s, Register(r));
      t.status == s.status && Speaks(t, d, c) && t.phase[c] == s.phase[c] && IsCurrent(t.hub, d, r)
  {
    StepKeepsInv(s, Register(r));
    AfterRegister(s, r);
    hide Step, Inv;
  }

  /** With two speakers of which one has yet to register, the other one can be left astray. */
  lemma OvertakenRun(s: State, d: Device, r: Id, c: Id) returns (ls: seq<Label>)
    requires Inv(s) && d in s.status && At(s, r, Added) && s.device[r] == d && c != r && Speaks(s, d, c)
      && !s.phase[c].Added?
    ensures GoodRun(s, ls) && Drained(Final(s, ls)) && StoredOnline(Final(s, ls), d)
    ensures EndsWith(ls, Finish(c))
  {
    RegistrationLeavesAstray(s, d, r, c);
    hide Step, Enabled, Inv, Speaks;
    var rest := TalkativeRun(Step(s, Register(r)), d, c);
    GoodStep(s, Register(r), rest);
    ls := [Register(r)] + rest;
  }

  /** Two that have yet to register: one registers, and is overtaken by the other. */
  lemma BothRegisterRun(s: State, d: Device, r: Id, c: Id) returns (ls: seq<Label>)
    requires Inv(s) && d in s.status && At(s, r, Added) && At(s, c, Added) && s.device[r] == d && s.device[c] == d
      && c != r
    ensures GoodRun(s, ls) && Drained(Final(s, ls)) && StoredOnline(Final(s, ls), d)
    ensures EndsWith(ls, Finish(c))
  {
    StepKeepsInv(s, Register(c));
    AfterRegister(s, c);
    assert Enabled(s, Register(c));
    hide Step, Enabled, Inv;
    var rest := OvertakenRun(Step(s, Register(c)), d, r, c);
    GoodStep(s, Register(c), rest);
    ls := [Register(c)] + rest;
  }

  /** Whenever the condition fails, some completed run ends online; `last` is the last to finish in it. */
  lemma SecondSpeakerRun(s: State, d: Device) returns (ls: seq<Label>, last: Id)
    requires Inv(s) && d in s.status && !OneSpeaker(s, d)
    ensures GoodRun(s, ls) && Drained(Final(s, ls)) && StoredOnline(Final(s, ls), d)
    ensures last in s.phase && EndsWith(ls, Finish(last))
  {
    hide Inv, GoodRun, Drained;
    if c :| Speaks(s, d, c) && !s.phase[c].Added? && !IsCurrent(s.hub, d, c) {
      last := c;
      ls := TalkativeRun(s, d, c);
    } else {
      var a, b :| Speaks(s, d, a) && Speaks(s, d, b) && a != b;
      if !s.phase[a].Added? {
        last := a;
        ls := OvertakenRun(s, d, b, a);
      } else if !s.phase[b].Added? {
        last := b;
        ls := OvertakenRun(s, d, a, b);
      } else {
        last := b;
        ls := BothRegisterRun(s, d, a, b);
      }
    }
  }

  // ---------------------------------------------------------------------------
  // The exact condition
  // ---------------------------------------------------------------------------

  /** With one speaker the device is on its way offline. */
  lemma OneSpeakerIsLast(s: State, d: Device) returns (last: Id)
    requires Inv(s) && d in s.hub && d in s.status && OneSpeaker(s, d)
    ensures OnItsWayOffline(s, d, last) && OthersQuiet(s, d, last)
  {
    assert EntrySound(s, d);
    if c :| Speaks(s, d, c) {
      last := c;
    } else {
      last := s.hub[d];
    }
  }

  /**
   With no new connection during the drain, the device is offline at the end of every completed
   shutdown exactly when, as the drain begins, at most one connection of it can still write it
   online, and that is the current one or one that has yet to register.
   */
  lemma ShutdownLeavesOfflineIff(s: State, d: Device)
    requires Inv(s) && d in s.hub && d in s.status
    ensures LeavesOffline(s, d) <==> OneSpeaker(s, d)
  {
    if OneSpeaker(s, d) {
      var last := OneSpeakerIsLast(s, d);
      forall ls | Runs(s, ls) && AllDrain(ls) && WritesSucceed(ls) && Drained(Final(s, ls))
        ensures d in Final(s, ls).status && Final(s, ls).status[d] == Offline
      {
        RunEndsOffline(s, ls, d, last);
      }
    } else {
      var ls, _ := SecondSpeakerRun(s, d);
      assert Final(s, ls).status[d] == Online;
    }
  }

  lemma SoleConnectionSpeaksAlone(s: State, d: Device)
    requires d in s.hub
    requires forall c | c in s.phase && c in s.device && s.phase[c] != Done && s.device[c] == d :: s.hub[d] == c
    ensures OneSpeaker(s, d)
  {
  }

  /**
   With one live connection per connected device and no new connection during the drain, every
   completed shutdown leaves them all offline.
   */
  lemma ShutdownLeavesAllOffline(s: State, ls: seq<Label>)
    requires Inv(s) && forall d | d in s.hub :: d in s.status
    requires forall c | c in s.phase && c in s.device && s.phase[c] != Done && s.device[c] in s.hub ::
      s.hub[s.device[c]] == c
    requires var t := Step(s, Snapshot); Runs(t, ls) && AllDrain(ls) && WritesSucceed(ls) && Drained(Final(t, ls))
    ensures forall d | d in s.hub ::
      d in Final(Step(s, Snapshot), ls).status && Final(Step(s, Snapshot), ls).status[d] == Offline
  {
    StepKeepsInv(s, Snapshot);
    var t := Step(s, Snapshot);
    forall d | d in s.hub ensures d in Final(t, ls).status && Final(t, ls).status[d] == Offline {
      SoleConnectionSpeaksAlone(t, d);
      hide Inv, OneSpeaker, Drained;
      ShutdownLeavesOfflineIff(t, d);
    }
  }

  // ---------------------------------------------------------------------------
  // The condition can fail: a reconnect during a heartbeat, then shutdown
  // ---------------------------------------------------------------------------

  function HeartbeatThenReplaced(d: Device): seq<Label> {
    [Heartbeat(0)] + ([Add(1, d)] + ([Register(1)] + []))
  }

  function ReplacerThenSnapshot(): seq<Label> {
    [CloseReplaced(1)] + ([WriteOnline(1, true)] + ([Snapshot] + []))
  }

  /** The first connection is handling a heartbeat when the second replaces it. */
  ghost function Replacing(d: Device): State {
    State(map[0 := d, 1 := d], map[0 := Handling, 1 := Closing(0)], {}, map[d := 1], 2, map[d := Online], {},
          multiset{Registered(d)} + multiset{Registered(d), Replaced(d)}, map[0 := 1], {})
  }

  ghost function BeforeSnapshot(d: Device): State {
    Replacing(d).(phase := map[0 := Handling, 1 := Serving], closed := {0})
  }

  lemma HeartbeatThenReplacedRuns(d: Device)
    ensures Runs(FirstServes(d), HeartbeatThenReplaced(d))
      && Final(FirstServes(d), HeartbeatThenReplaced(d)) == Replacing(d)
  {
    var s0 := FirstServes(d);
    var s1 := Step(s0, Heartbeat(0));
    RunOne(Step(s1, Add(1, d)), Register(1), []);
    RunOne(s1, Add(1, d), [Register(1)] + []);
    RunOne(s0, Heartbeat(0), [Add(1, d)] + ([Register(1)] + []));
  }

  lemma ReplacerThenSnapshotRuns(d: Device)
    ensures Runs(Replacing(d), ReplacerThenSnapshot())
    ensures Final(Replacing(d), ReplacerThenSnapshot()) == Step(BeforeSnapshot(d), Snapshot)
  {
    var s0 := Replacing(d);
    var s1 := Step(s0, CloseReplaced(1));
    assert Step(s1, WriteOnline(1, true)) == BeforeSnapshot(d);
    RunOne(BeforeSnapshot(d), Snapshot, []);
    RunOne(s1, WriteOnline(1, true), [Snapshot] + []);
    RunOne(s0, CloseReplaced(1), [WriteOnline(1, true)] + ([Snapshot] + []));
  }

  lemma TalkativeAtSnapshot(d: Device)
    requires Inv(Step(BeforeSnapshot(d), Snapshot))
    ensures var t := Step(BeforeSnapshot(d), Snapshot);
      Draining(t) && d in t.hub && d in t.status && !OneSpeaker(t, d)
  {
    var t := Step(BeforeSnapshot(d), Snapshot);
    assert t.hub[d] in t.hub.Values;
    assert 0 in t.phase && t.device[0] == d && MayStillWriteOnline(t, 0);
    assert t.phase.Keys == {0, 1};
  }

  /**
   A connected device, reachable from an empty server, that a completed shutdown can leave
   stored as online although every write succeeds and nobody registers during the drain.
   */
  lemma LateHeartbeatSpoilsShutdown(d: Device)
    ensures var s, ls := Init(map[d := Unknown]), FirstArrives(d) + (HeartbeatThenReplaced(d) + ReplacerThenSnapshot());
      && Runs(s, ls)
      && var t := Final(s, ls);
      && Draining(t) && d in t.hub && d in t.status && !OneSpeaker(t, d) && !LeavesOffline(t, d)
  {
    var s, rest := Init(map[d := Unknown]), HeartbeatThenReplaced(d) + ReplacerThenSnapshot();
    FirstArrivesRuns(d);
    HeartbeatThenReplacedRuns(d);
    ReplacerThenSnapshotRuns(d);
    RunConcat(FirstServes(d), HeartbeatThenReplaced(d), ReplacerThenSnapshot());
    RunConcat(s, FirstArrives(d), rest);
    InitSatisfiesInv(s.status);
    RunKeepsInv(s, FirstArrives(d) + rest);
    TalkativeAtSnapshot(d);
    ShutdownLeavesOfflineIff(Final(s, FirstArrives(d) + rest), d);
  }
}
