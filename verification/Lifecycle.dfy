/**
 Connections as interleaved goroutines. Every step is one thing that happens atomically in
 the server: a region under the hub's lock, one store write, one Close, the result of one
 Read, or one change of the wait group. A state is reachable when some sequence of
 labelled steps leads to it; results below quantify over all such sequences.
 */
module Lifecycle {
  import opened HubTable

  type Device = string

  type Id = nat

  /** Where the goroutine serving one connection stands, named by what it does next. */
  datatype Phase =
    | Added               // counted by the wait group, not yet in the hub
    | Closing(older: Id)  // in the hub; must still close the connection it replaced
    | Opening             // must still write the device online
    | Serving             // blocked in Read
    | Handling            // a heartbeat was read; must still write last-seen (and online)
    | Leaving             // Read failed; must still unregister
    | OwesOffline         // unregistered the device; must still write it offline
    | Finishing           // must still report to the wait group
    | Done

  /** What has happened to a device's entry in the hub, for the accounting. */
  datatype Event = Registered(device: Device) | Replaced(device: Device) | Unregistered(device: Device)

  datatype State = State(
    device: map<Id, Device>,      // every connection ever made, and whose it is
    phase: map<Id, Phase>,
    closed: set<Id>,
    hub: map<Device, Id>,
    wg: int,
    status: map<Device, Status>,  // rows of the device table
    owed: set<Id>,                // closes that CloseAll has snapshotted but not yet made
    log: multiset<Event>,         // history, read by no step
    replacedBy: map<Id, Id>,      // history
    wroteOffline: set<Id>)        // history

  datatype Label =
    | Add(c: Id, device: Device)
    | Register(c: Id)
    | CloseReplaced(c: Id)
    | WriteOnline(c: Id, ok: bool)
    | Heartbeat(c: Id)
    | Handled(c: Id, ok: bool)
    | ReadFails(c: Id)
    | Unregister(c: Id)
    | WriteOffline(c: Id, ok: bool)
    | Finish(c: Id)
    | Snapshot
    | CloserCloses(c: Id)

  function Init(status: map<Device, Status>): State {
    State(map[], map[], {}, map[], 0, status, {}, multiset{}, map[], {})
  }

  predicate At(s: State, c: Id, p: Phase) {
    c in s.phase && c in s.device && s.phase[c] == p
  }

  /** A read delivers a message only on an open connection; it may fail at any time. */
  predicate Enabled(s: State, l: Label) {
    match l
    case Add(c, _) => c !in s.phase && c !in s.device
    case Register(c) => At(s, c, Added)
    case CloseReplaced(c) => c in s.phase && c in s.device && s.phase[c].Closing?
    case WriteOnline(c, _) => At(s, c, Opening)
    case Heartbeat(c) => At(s, c, Serving) && c !in s.closed
    case Handled(c, _) => At(s, c, Handling)
    case ReadFails(c) => At(s, c, Serving)
    case Unregister(c) => At(s, c, Leaving)
    case WriteOffline(c, _) => At(s, c, OwesOffline)
    case Finish(c) => At(s, c, Finishing)
    case Snapshot => true
    case CloserCloses(c) => c in s.owed
  }

  function Move(s: State, c: Id, p: Phase): State {
    s.(phase := s.phase[c := p])
  }

  function Shut(s: State, c: Id): State {
    s.(closed := s.closed + {c})
  }

  /** An UPDATE of a device's status: no effect when it fails or when the row is missing. */
  function Write(s: State, d: Device, v: Status, ok: bool): State {
    if ok && d in s.status then s.(status := s.status[d := v]) else s
  }

  function Step(s: State, l: Label): State
    requires Enabled(s, l)
  {
    match l
    case Add(c, d) => Move(s.(device := s.device[c := d], wg := s.wg + 1), c, Added)
    case Register(c) =>
      var d := s.device[c];
      var entered := s.(hub := Enter(s.hub, d, c));
      if d in s.hub
      then Move(entered, c, Closing(s.hub[d])).(log := s.log + multiset{Registered(d), Replaced(d)},
        replacedBy := s.replacedBy[s.hub[d] := c])
      else Move(entered, c, Opening).(log := s.log + multiset{Registered(d)})
    case CloseReplaced(c) => Move(Shut(s, s.phase[c].older), c, Opening)
    case WriteOnline(c, ok) => Move(Write(s, s.device[c], Online, ok), c, Serving)
    case Heartbeat(c) => Move(s, c, Handling)
    case Handled(c, ok) => Move(Write(s, s.device[c], Online, ok), c, Serving)
    case ReadFails(c) => Move(s, c, Leaving)
    case Unregister(c) =>
      var d := s.device[c];
      if IsCurrent(s.hub, d, c)
      then Move(s.(hub := Leave(s.hub, d, c)), c, OwesOffline).(log := s.log + multiset{Unregistered(d)})
      else Move(s, c, Finishing)
    case WriteOffline(c, ok) =>
      Move(Write(s, s.device[c], Offline, ok), c, Finishing).(wroteOffline := s.wroteOffline + {c})
    case Finish(c) => Move(s, c, Done).(wg := s.wg - 1)
    case Snapshot => s.(owed := s.owed + s.hub.Values)
    case CloserCloses(c) => Shut(s, c).(owed := s.owed - {c})
  }

  lemma AfterAdd(s: State, n: Id, d: Device)
    requires Enabled(s, Add(n, d))
    ensures Step(s, Add(n, d)) == s.(device := s.device[n := d], phase := s.phase[n := Added], wg := s.wg + 1)
  {
  }

  lemma AfterRegister(s: State, c: Id)
    requires Enabled(s, Register(c))
    ensures var t, d := Step(s, Register(c)), s.device[c];
      && t.phase == s.phase[c := if d in s.hub then Closing(s.hub[d]) else Opening]
      && t.hub == s.hub[d := c]
      && t.replacedBy == (if d in s.hub then s.replacedBy[s.hub[d] := c] else s.replacedBy)
      && t.device == s.device && t.status == s.status && t.closed == s.closed && t.owed == s.owed && t.wg == s.wg
  {
  }

  lemma AfterCloseReplaced(s: State, c: Id)
    requires Enabled(s, CloseReplaced(c))
    ensures Step(s, CloseReplaced(c)) == s.(closed := s.closed + {s.phase[c].older}, phase := s.phase[c := Opening])
  {
  }

  /** The labels of `ls` can be taken one after the other from `s`. */
  predicate Runs(s: State, ls: seq<Label>)
    decreases |ls|
  {
    ls == [] || (Enabled(s, ls[0]) && Runs(Step(s, ls[0]), ls[1..]))
  }

  function Final(s: State, ls: seq<Label>): State
    requires Runs(s, ls)
    decreases |ls|
  {
    if ls == [] then s else Final(Step(s, ls[0]), ls[1..])
  }

  // ---------------------------------------------------------------------------
  // What every reachable state satisfies
  // ---------------------------------------------------------------------------

  predicate InLoop(p: Phase) {
    p.Closing? || p.Opening? || p.Serving? || p.Handling?
  }

  ghost predicate Live(s: State, c: Id) {
    c in s.phase && s.phase[c] != Done
  }

  ghost function LiveSet(s: State): set<Id> {
    set c | c in s.phase && s.phase[c] != Done
  }

  predicate OwedByReplacer(s: State, c: Id) {
    c in s.replacedBy && At(s, s.replacedBy[c], Closing(c))
  }

  /** A hub entry names a connection of that device that has not yet unregistered. */
  predicate EntrySound(s: State, d: Device)
    requires d in s.hub
  {
    var c := s.hub[d];
    && c in s.phase && c in s.device && s.device[c] == d
    && (InLoop(s.phase[c]) || s.phase[c] == Leaving)
  }

  /** A connection in its read loop is current, closed, or about to be closed by its replacer. */
  predicate Covered(s: State, c: Id)
    requires c in s.device
  {
    IsCurrent(s.hub, s.device[c], c) || c in s.closed || OwedByReplacer(s, c)
  }

  /** A replaced connection is out of the hub for good and neither owes nor ever made an offline write. */
  predicate Silent(s: State, c: Id) {
    && c in s.phase && c in s.device
    && s.phase[c] != Added && s.phase[c] != OwesOffline && c !in s.wroteOffline
    && !IsCurrent(s.hub, s.device[c], c)
  }

  ghost predicate HubSound(s: State) {
    forall d | d in s.hub :: EntrySound(s, d)
  }

  ghost predicate NoOrphans(s: State) {
    forall c | c in s.phase && c in s.device && InLoop(s.phase[c]) :: Covered(s, c)
  }

  ghost predicate ReplacedAreSilent(s: State) {
    && (forall c | c in s.replacedBy :: Silent(s, c))
    && (forall c | c in s.phase && s.phase[c].Closing? ::
      s.phase[c].older in s.replacedBy && s.replacedBy[s.phase[c].older] == c)
    && (forall c | c in s.wroteOffline :: At(s, c, Finishing) || At(s, c, Done))
  }

  ghost predicate Structure(s: State) {
    && s.device.Keys == s.phase.Keys && s.owed <= s.phase.Keys
    && HubSound(s) && NoOrphans(s) && ReplacedAreSilent(s)
  }

  /** Per device: registrations are replacements, successful unregisters, and the entry there is now. */
  ghost predicate Accounted(s: State) {
    forall d :: s.log[Registered(d)] == s.log[Replaced(d)] + s.log[Unregistered(d)] + if d in s.hub then 1 else 0
  }

  /** The wait group counts exactly the connections whose goroutine has not reported back. */
  ghost predicate Counted(s: State) {
    s.wg == |LiveSet(s)|
  }

  ghost predicate Inv(s: State) {
    Structure(s) && Accounted(s) && Counted(s)
  }

  /** A step of one connection that leaves the hub, the closes and the histories alone. */
  lemma MoveKeepsStructure(s: State, t: State, c: Id, p: Phase)
    requires Structure(s) && c in s.phase
    requires t == Move(s, c, p).(status := t.status, wg := t.wg)
    requires match p
      case Serving => s.phase[c].Opening? || s.phase[c].Handling?
      case Handling => s.phase[c].Serving?
      case Leaving => s.phase[c].Serving?
      case Finishing => s.phase[c].Leaving? && !IsCurrent(s.hub, s.device[c], c)
      case Done => s.phase[c].Finishing?
      case _ => false
    ensures Structure(t)
  {
    assert forall n | n in s.phase && n != c :: t.phase[n] == s.phase[n];
    assert forall n | OwedByReplacer(s, n) :: OwedByReplacer(t, n);
    assert forall n | n in s.device && Covered(s, n) :: Covered(t, n);
    assert forall n | Silent(s, n) :: Silent(t, n);
  }

  lemma AddKeepsStructure(s: State, c: Id, d: Device)
    requires Structure(s) && Enabled(s, Add(c, d))
    ensures Structure(Step(s, Add(c, d)))
  {
    var t := Step(s, Add(c, d));
    assert forall n | n in s.phase :: t.phase[n] == s.phase[n] && t.device[n] == s.device[n];
    assert forall n | OwedByReplacer(s, n) :: OwedByReplacer(t, n);
    assert forall n | n in s.device && Covered(s, n) :: Covered(t, n);
    assert forall n | Silent(s, n) :: Silent(t, n);
  }

  lemma RegisterKeepsHub(s: State, c: Id)
    requires Structure(s) && Enabled(s, Register(c))
    ensures HubSound(Step(s, Register(c)))
  {
    var t, d := Step(s, Register(c)), s.device[c];
    forall e | e in t.hub && e != d ensures EntrySound(t, e) {
      assert EntrySound(s, e);
    }
  }

  lemma RegisterKeepsCover(s: State, c: Id)
    requires Structure(s) && Enabled(s, Register(c))
    ensures NoOrphans(Step(s, Register(c)))
  {
    var t, d := Step(s, Register(c)), s.device[c];
    forall n | n in t.phase && n in t.device && InLoop(t.phase[n]) ensures Covered(t, n) {
      if n != c {
        assert Covered(s, n);
        if IsCurrent(s.hub, d, n) {
          assert t.replacedBy[n] == c && At(t, c, Closing(n));
        } else if OwedByReplacer(s, n) {
          assert s.replacedBy[n] != c && t.replacedBy[n] == s.replacedBy[n];
        }
      }
    }
  }

  lemma RegisterSilencesReplaced(s: State, c: Id)
    requires Structure(s) && Enabled(s, Register(c))
    ensures var t := Step(s, Register(c)); forall n | n in t.replacedBy :: Silent(t, n)
  {
    var t, d := Step(s, Register(c)), s.device[c];
    assert !Silent(s, c) && c !in s.wroteOffline;
    forall n | n in s.replacedBy ensures Silent(t, n) {
      assert Silent(s, n);
    }
    if d in s.hub {
      assert EntrySound(s, d) && Silent(t, s.hub[d]);
    }
  }

  lemma RegisterKeepsSilence(s: State, c: Id)
    requires Structure(s) && Enabled(s, Register(c))
    ensures ReplacedAreSilent(Step(s, Register(c)))
  {
    RegisterSilencesReplaced(s, c);
    var d := s.device[c];
    assert c !in s.wroteOffline;
    assert d in s.hub ==> !Silent(s, s.hub[d]);
    hide HubSound, NoOrphans;
  }

  lemma RegisterKeepsStructure(s: State, c: Id)
    requires Structure(s) && Enabled(s, Register(c))
    ensures Structure(Step(s, Register(c)))
  {
    RegisterKeepsHub(s, c);
    RegisterKeepsCover(s, c);
    RegisterKeepsSilence(s, c);
  }

  lemma ShutKeepsStructure(s: State, t: State, c: Id)
    requires Structure(s)
    requires t == Shut(s, c).(owed := t.owed) && t.owed <= s.owed
    ensures Structure(t)
  {
  }

  lemma CloseReplacedKeepsStructure(s: State, c: Id)
    requires Structure(s) && Enabled(s, CloseReplaced(c))
    ensures Structure(Step(s, CloseReplaced(c)))
  {
    var t, older := Step(s, CloseReplaced(c)), s.phase[c].older;
    assert forall n | n in s.phase && n != c :: t.phase[n] == s.phase[n];
    assert forall n | OwedByReplacer(s, n) && n != older :: OwedByReplacer(t, n);
    assert forall n | n in s.device && Covered(s, n) :: Covered(t, n);
    assert forall n | Silent(s, n) :: Silent(t, n);
  }

  lemma UnregisterKeepsCover(s: State, c: Id)
    requires Structure(s) && Enabled(s, Unregister(c)) && IsCurrent(s.hub, s.device[c], c)
    ensures HubSound(Step(s, Unregister(c))) && NoOrphans(Step(s, Unregister(c)))
  {
    var t := Step(s, Unregister(c));
    assert forall n | OwedByReplacer(s, n) :: OwedByReplacer(t, n);
    assert forall n | n in s.device && n != c && Covered(s, n) :: Covered(t, n);
    forall e | e in t.hub ensures EntrySound(t, e) {
      assert EntrySound(s, e);
    }
  }

  lemma UnregisterKeepsSilence(s: State, c: Id)
    requires Structure(s) && Enabled(s, Unregister(c)) && IsCurrent(s.hub, s.device[c], c)
    ensures ReplacedAreSilent(Step(s, Unregister(c)))
  {
    var t := Step(s, Unregister(c));
    assert !Silent(s, c) && forall n | Silent(s, n) :: Silent(t, n);
  }

  lemma UnregisterKeepsStructure(s: State, c: Id)
    requires Structure(s) && Enabled(s, Unregister(c)) && IsCurrent(s.hub, s.device[c], c)
    ensures Structure(Step(s, Unregister(c)))
  {
    UnregisterKeepsCover(s, c);
    UnregisterKeepsSilence(s, c);
  }

  lemma WriteOfflineKeepsCover(s: State, c: Id, ok: bool)
    requires Structure(s) && Enabled(s, WriteOffline(c, ok))
    ensures HubSound(Step(s, WriteOffline(c, ok))) && NoOrphans(Step(s, WriteOffline(c, ok)))
  {
    var t := Step(s, WriteOffline(c, ok));
    assert forall n | OwedByReplacer(s, n) :: OwedByReplacer(t, n);
    assert forall n | n in s.device && Covered(s, n) :: Covered(t, n);
    forall e | e in t.hub ensures EntrySound(t, e) {
      assert EntrySound(s, e);
    }
  }

  lemma WriteOfflineKeepsSilence(s: State, c: Id, ok: bool)
    requires Structure(s) && Enabled(s, WriteOffline(c, ok))
    ensures ReplacedAreSilent(Step(s, WriteOffline(c, ok)))
  {
    var t := Step(s, WriteOffline(c, ok));
    assert !Silent(s, c) && forall n | Silent(s, n) :: Silent(t, n);
    assert At(t, c, Finishing);
    assert forall n | n in s.wroteOffline :: n != c && t.phase[n] == s.phase[n];
  }

  lemma WriteOfflineKeepsStructure(s: State, c: Id, ok: bool)
    requires Structure(s) && Enabled(s, WriteOffline(c, ok))
    ensures Structure(Step(s, WriteOffline(c, ok)))
  {
    WriteOfflineKeepsCover(s, c, ok);
    WriteOfflineKeepsSilence(s, c, ok);
  }

  lemma SnapshotKeepsStructure(s: State)
    requires Structure(s)
    ensures Structure(Step(s, Snapshot))
  {
    var t := Step(s, Snapshot);
    forall c | c in s.hub.Values ensures c in s.phase {
      var d :| d in s.hub && s.hub[d] == c;
      assert EntrySound(s, d);
    }
    assert forall n | OwedByReplacer(s, n) :: OwedByReplacer(t, n);
  }

  lemma StepKeepsStructure(s: State, l: Label)
    requires Structure(s) && Enabled(s, l)
    ensures Structure(Step(s, l))
  {
    hide Structure;
    var t := Step(s, l);
    match l
    case Add(c, d) => AddKeepsStructure(s, c, d);
    case Register(c) => RegisterKeepsStructure(s, c);
    case CloseReplaced(c) => CloseReplacedKeepsStructure(s, c);
    case WriteOnline(c, _) => MoveKeepsStructure(s, t, c, Serving);
    case Heartbeat(c) => MoveKeepsStructure(s, t, c, Handling);
    case Handled(c, _) => MoveKeepsStructure(s, t, c, Serving);
    case ReadFails(c) => MoveKeepsStructure(s, t, c, Leaving);
    case Unregister(c) =>
      if IsCurrent(s.hub, s.device[c], c) {
        UnregisterKeepsStructure(s, c);
      } else {
        MoveKeepsStructure(s, t, c, Finishing);
      }
    case WriteOffline(c, ok) => WriteOfflineKeepsStructure(s, c, ok);
    case Finish(c) => MoveKeepsStructure(s, t, c, Done);
    case Snapshot => SnapshotKeepsStructure(s);
    case CloserCloses(c) => ShutKeepsStructure(s, t, c);
  }

  lemma RegisterKeepsAccounts(s: State, c: Id)
    requires Accounted(s) && Enabled(s, Register(c))
    ensures Accounted(Step(s, Register(c)))
  {
    var t := Step(s, Register(c));
    assert forall d | d != s.device[c] :: (d in t.hub <==> d in s.hub) && t.log[Registered(d)] == s.log[Registered(d)];
  }

  lemma UnregisterKeepsAccounts(s: State, c: Id)
    requires Accounted(s) && Enabled(s, Unregister(c))
    ensures Accounted(Step(s, Unregister(c)))
  {
    var t := Step(s, Unregister(c));
    assert forall d | d != s.device[c] :: (d in t.hub <==> d in s.hub) && t.log[Registered(d)] == s.log[Registered(d)];
  }

  lemma StepKeepsAccounts(s: State, l: Label)
    requires Accounted(s) && Enabled(s, l)
    ensures Accounted(Step(s, l))
  {
    match l
    case Register(c) => RegisterKeepsAccounts(s, c);
    case Unregister(c) => UnregisterKeepsAccounts(s, c);
    case _ => assert Step(s, l).hub == s.hub && Step(s, l).log == s.log;
  }

  lemma LiveSetAfterMove(s: State, t: State, c: Id, p: Phase)
    requires c in s.phase && s.phase[c] != Done && t.phase == s.phase[c := p]
    ensures LiveSet(t) == if p == Done then LiveSet(s) - {c} else LiveSet(s)
  {
  }

  predicate MovesOne(l: Label) {
    !l.Add? && !l.Snapshot? && !l.CloserCloses?
  }

  lemma StepMovesPhase(s: State, l: Label)
    requires Enabled(s, l) && MovesOne(l)
    ensures l.c in s.phase && s.phase[l.c] != Done && l.c in Step(s, l).phase
    ensures Step(s, l).phase == s.phase[l.c := Step(s, l).phase[l.c]]
  {
    match l
    case Register(_) =>
    case CloseReplaced(_) =>
    case WriteOnline(_, _) =>
    case Heartbeat(_) =>
    case Handled(_, _) =>
    case ReadFails(_) =>
    case Unregister(_) =>
    case WriteOffline(_, _) =>
    case Finish(_) =>
  }

  lemma StepKeepsDevices(s: State, l: Label)
    requires Enabled(s, l) && !l.Add?
    ensures Step(s, l).device == s.device
  {
    match l
    case Register(_) =>
    case CloseReplaced(_) =>
    case WriteOnline(_, _) =>
    case Heartbeat(_) =>
    case Handled(_, _) =>
    case ReadFails(_) =>
    case Unregister(_) =>
    case WriteOffline(_, _) =>
    case Finish(_) =>
    case Snapshot =>
    case CloserCloses(_) =>
  }

  lemma FinishReports(s: State, l: Label)
    requires Enabled(s, l) && MovesOne(l)
    ensures l.c in Step(s, l).phase && (Step(s, l).phase[l.c] == Done <==> l.Finish?)
    ensures Step(s, l).wg == s.wg - if l.Finish? then 1 else 0
  {
    match l
    case Register(_) =>
    case CloseReplaced(_) =>
    case WriteOnline(_, _) =>
    case Heartbeat(_) =>
    case Handled(_, _) =>
    case ReadFails(_) =>
    case Unregister(_) =>
    case WriteOffline(_, _) =>
    case Finish(_) =>
  }

  lemma StepMovesOne(s: State, l: Label)
    requires Enabled(s, l) && MovesOne(l)
    ensures l.c in s.phase && s.phase[l.c] != Done && l.c in Step(s, l).phase
    ensures Step(s, l).phase == s.phase[l.c := Step(s, l).phase[l.c]]
    ensures Step(s, l).phase[l.c] == Done <==> l.Finish?
    ensures Step(s, l).wg == s.wg - if l.Finish? then 1 else 0
    ensures Step(s, l).device == s.device
  {
    hide Step, Enabled;
    StepMovesPhase(s, l);
    StepKeepsDevices(s, l);
    FinishReports(s, l);
  }

  lemma MoveKeepsCount(s: State, l: Label)
    requires Counted(s) && Enabled(s, l) && MovesOne(l)
    ensures Counted(Step(s, l))
  {
    StepMovesOne(s, l);
    hide Step, Enabled;
    LiveSetAfterMove(s, Step(s, l), l.c, Step(s, l).phase[l.c]);
  }

  lemma StepKeepsCount(s: State, l: Label)
    requires Counted(s) && Enabled(s, l)
    ensures Counted(Step(s, l))
  {
    if MovesOne(l) {
      MoveKeepsCount(s, l);
    } else if l.Add? {
      assert LiveSet(Step(s, l)) == LiveSet(s) + {l.c};
    } else {
      assert Step(s, l).phase == s.phase;
    }
  }

  lemma StepKeepsInv(s: State, l: Label)
    requires Inv(s) && Enabled(s, l)
    ensures Inv(Step(s, l))
  {
    StepKeepsStructure(s, l);
    StepKeepsAccounts(s, l);
    StepKeepsCount(s, l);
  }

  lemma {:induction false} RunKeepsInv(s: State, ls: seq<Label>)
    requires Inv(s) && Runs(s, ls)
    ensures Inv(Final(s, ls))
    decreases |ls|
  {
    if ls != [] {
      StepKeepsInv(s, ls[0]);
      RunKeepsInv(Step(s, ls[0]), ls[1..]);
    }
  }
}
