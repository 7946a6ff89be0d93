/**
 What the stored status of a device says about its connections, over every run: who may
 write it, when it stays online, and when it lies.
 */
module StoredStatus {
  import opened HubTable
  import opened Lifecycle

  lemma InitSatisfiesInv(status: map<Device, Status>)
    ensures Inv(Init(status))
  {
    assert LiveSet(Init(status)) == {};
  }

  predicate PastLoop(p: Phase) {
    p.Leaving? || p.OwesOffline? || p.Finishing?
  }

  /**
   In every reachable state every live connection is accounted for: not yet registered,
   current, closed, about to be closed by the connection that replaced it, or already out
   of its read loop. The wait group counts exactly the live ones.
   */
  lemma NoOrphanedConnection(status: map<Device, Status>, ls: seq<Label>)
    requires Runs(Init(status), ls)
    ensures var t := Final(Init(status), ls);
      && (forall c | Live(t, c) :: At(t, c, Added) || (c in t.device && Covered(t, c)) || PastLoop(t.phase[c]))
      && t.wg == |LiveSet(t)|
      && (forall d | d in t.hub :: Live(t, t.hub[d]) && t.hub[d] in t.device && t.device[t.hub[d]] == d)
  {
    InitSatisfiesInv(status);
    RunKeepsInv(Init(status), ls);
    var t := Final(Init(status), ls);
    forall d | d in t.hub ensures Live(t, t.hub[d]) && t.hub[d] in t.device && t.device[t.hub[d]] == d {
      assert EntrySound(t, d);
    }
    forall c | Live(t, c) ensures At(t, c, Added) || (c in t.device && Covered(t, c)) || PastLoop(t.phase[c]) {
      assert c in t.device;
    }
  }

  // ---------------------------------------------------------------------------
  // Replaced connections never write offline
  // ---------------------------------------------------------------------------

  lemma StepGrows(s: State, l: Label)
    requires Enabled(s, l)
    ensures s.wroteOffline <= Step(s, l).wroteOffline
    ensures s.replacedBy.Keys <= Step(s, l).replacedBy.Keys
    ensures forall e :: s.log[e] <= Step(s, l).log[e]
    ensures l.WriteOffline? ==> l.c in Step(s, l).wroteOffline
  {
  }

  lemma {:induction false} HistoriesGrow(s: State, ls: seq<Label>)
    requires Inv(s) && Runs(s, ls)
    ensures s.wroteOffline <= Final(s, ls).wroteOffline
    ensures s.replacedBy.Keys <= Final(s, ls).replacedBy.Keys
    ensures forall e :: s.log[e] <= Final(s, ls).log[e]
    ensures forall i | 0 <= i < |ls| && ls[i].WriteOffline? :: ls[i].c in Final(s, ls).wroteOffline
    decreases |ls|
  {
    if ls != [] {
      StepKeepsInv(s, ls[0]);
      StepGrows(s, ls[0]);
      HistoriesGrow(Step(s, ls[0]), ls[1..]);
      forall i | 0 <= i < |ls| && ls[i].WriteOffline? ensures ls[i].c in Final(s, ls).wroteOffline {
        if i > 0 {
          assert ls[i] == ls[1..][i - 1];
        }
      }
    }
  }

  /** Whoever attempts an offline write anywhere in a run is never replaced in that run, before or after. */
  lemma ReplacedNeverWritesOffline(status: map<Device, Status>, ls: seq<Label>, i: nat)
    requires Runs(Init(status), ls) && i < |ls| && ls[i].WriteOffline?
    ensures ls[i].c !in Final(Init(status), ls).replacedBy
  {
    InitSatisfiesInv(status);
    RunKeepsInv(Init(status), ls);
    HistoriesGrow(Init(status), ls);
    var t := Final(Init(status), ls);
    assert forall c | c in t.replacedBy :: Silent(t, c);
  }

  /** Registrations = replacements + successful unregisters + the entry there is now. */
  lemma EntriesAreAccountedFor(status: map<Device, Status>, ls: seq<Label>, d: Device)
    requires Runs(Init(status), ls)
    ensures var t := Final(Init(status), ls);
      t.log[Registered(d)] == t.log[Replaced(d)] + t.log[Unregistered(d)] + if d in t.hub then 1 else 0
  {
    InitSatisfiesInv(status);
    RunKeepsInv(Init(status), ls);
  }

  // ---------------------------------------------------------------------------
  // When the stored status stays online
  // ---------------------------------------------------------------------------

  ghost predicate OwesOfflineFor(s: State, d: Device) {
    exists c :: At(s, c, OwesOffline) && s.device[c] == d
  }

  ghost predicate StoredOnline(s: State, d: Device) {
    d in s.status && s.status[d] == Online
  }

  /** No continuation shows anything but online until a connection of `d` successfully unregisters. */
  ghost predicate OnlineUntilUnregistered(s: State, d: Device) {
    forall ls | Runs(s, ls) && Final(s, ls).log[Unregistered(d)] == s.log[Unregistered(d)] ::
      StoredOnline(Final(s, ls), d)
  }

  ghost predicate SafelyOnline(s: State, d: Device) {
    d in s.hub && StoredOnline(s, d) && !OwesOfflineFor(s, d)
  }

  lemma StepKeepsEntry(s: State, l: Label, d: Device)
    requires d in s.hub && Enabled(s, l) && Step(s, l).log[Unregistered(d)] == s.log[Unregistered(d)]
    ensures d in Step(s, l).hub
  {
  }

  lemma OnlyUnregisterOwes(s: State, l: Label)
    requires Enabled(s, l) && MovesOne(l) && !l.Unregister?
    ensures l.c in Step(s, l).phase && Step(s, l).phase[l.c] != OwesOffline
  {
  }

  lemma UnregisterOwes(s: State, c: Id)
    requires Enabled(s, Unregister(c))
    ensures var t, d := Step(s, Unregister(c)), s.device[c];
      At(t, c, OwesOffline) ==> t.log[Unregistered(d)] == s.log[Unregistered(d)] + 1
  {
  }

  /** Only an unregister of the device creates a new debt. */
  lemma StepKeepsDebts(s: State, l: Label, d: Device, c: Id)
    requires d in s.hub && Enabled(s, l) && Step(s, l).log[Unregistered(d)] == s.log[Unregistered(d)]
    requires At(Step(s, l), c, OwesOffline) && Step(s, l).device[c] == d
    ensures At(s, c, OwesOffline) && s.device[c] == d
  {
    if MovesOne(l) {
      StepMovesOne(s, l);
      if l.Unregister? {
        UnregisterOwes(s, l.c);
      } else {
        OnlyUnregisterOwes(s, l);
      }
      hide Step, Enabled;
    }
  }

  lemma StepKeepsStatus(s: State, l: Label, d: Device)
    requires StoredOnline(s, d) && Enabled(s, l)
    requires l.WriteOffline? ==> s.device[l.c] != d
    ensures StoredOnline(Step(s, l), d)
  {
  }

  lemma StepKeepsSafelyOnline(s: State, l: Label, d: Device)
    requires SafelyOnline(s, d) && Enabled(s, l)
    requires Step(s, l).log[Unregistered(d)] == s.log[Unregistered(d)]
    ensures SafelyOnline(Step(s, l), d)
  {
    StepKeepsEntry(s, l, d);
    StepKeepsStatus(s, l, d);
    forall c | At(Step(s, l), c, OwesOffline) ensures Step(s, l).device[c] != d {
      if Step(s, l).device[c] == d {
        StepKeepsDebts(s, l, d, c);
      }
    }
  }

  lemma {:induction false} RunKeepsSafelyOnline(s: State, ls: seq<Label>, d: Device)
    requires Inv(s) && SafelyOnline(s, d) && Runs(s, ls)
    requires Final(s, ls).log[Unregistered(d)] == s.log[Unregistered(d)]
    ensures SafelyOnline(Final(s, ls), d)
    decreases |ls|
  {
    if ls != [] {
      StepGrows(s, ls[0]);
      StepKeepsInv(s, ls[0]);
      HistoriesGrow(Step(s, ls[0]), ls[1..]);
      StepKeepsSafelyOnline(s, ls[0], d);
      RunKeepsSafelyOnline(Step(s, ls[0]), ls[1..], d);
    }
  }

  lemma RunOne(s: State, l: Label, rest: seq<Label>)
    requires Enabled(s, l) && Runs(Step(s, l), rest)
    ensures Runs(s, [l] + rest) && Final(s, [l] + rest) == Final(Step(s, l), rest)
  {
    assert ([l] + rest)[1..] == rest;
  }

  /**
   A connected device stored as online stays so through any replacements, late cleanups and
   heartbeats until it is unregistered, if and only if no connection of it still owes an
   offline write.
   */
  lemma StableOnlineIff(s: State, d: Device)
    requires Inv(s) && d in s.hub && StoredOnline(s, d)
    ensures OnlineUntilUnregistered(s, d) <==> !OwesOfflineFor(s, d)
  {
    if OwesOfflineFor(s, d) {
      var c :| At(s, c, OwesOffline) && s.device[c] == d;
      var l := WriteOffline(c, true);
      RunOne(s, l, []);
      assert !StoredOnline(Step(s, l), d) && Step(s, l).log == s.log;
      assert !StoredOnline(Final(s, [l] + []), d);
    } else {
      forall ls | Runs(s, ls) && Final(s, ls).log[Unregistered(d)] == s.log[Unregistered(d)]
        ensures StoredOnline(Final(s, ls), d)
      {
        RunKeepsSafelyOnline(s, ls, d);
      }
    }
  }

  // ---------------------------------------------------------------------------
  // When it lies
  // ---------------------------------------------------------------------------

  lemma RunConcat(s: State, a: seq<Label>, b: seq<Label>)
    requires Runs(s, a) && Runs(Final(s, a), b)
    ensures Runs(s, a + b) && Final(s, a + b) == Final(Final(s, a), b)
    decreases |a|
  {
    if a == [] {
      assert a + b == b;
    } else {
      assert (a + b)[0] == a[0] && (a + b)[1..] == a[1..] + b;
      RunConcat(Step(s, a[0]), a[1..], b);
    }
  }

  function FirstArrives(d: Device): seq<Label> {
    [Add(0, d)] + ([Register(0)] + ([WriteOnline(0, true)] + []))
  }

  /** The first connection unregisters but has not yet written offline when the device reconnects. */
  function FirstLeaves(): seq<Label> {
    [ReadFails(0)] + ([Unregister(0)] + [])
  }

  function SecondArrives(d: Device): seq<Label> {
    [Add(1, d)] + ([Register(1)] + ([WriteOnline(1, true)] + ([WriteOffline(0, true)] + [])))
  }

  ghost function FirstServes(d: Device): State {
    State(map[0 := d], map[0 := Serving], {}, map[d := 0], 1, map[d := Online], {}, multiset{Registered(d)}, map[], {})
  }

  ghost function BetweenTheTwo(d: Device): State {
    State(map[0 := d], map[0 := OwesOffline], {}, map[], 1, map[d := Online], {},
          multiset{Registered(d), Unregistered(d)}, map[], {})
  }

  lemma FirstArrivesRuns(d: Device)
    ensures Runs(Init(map[d := Unknown]), FirstArrives(d))
    ensures Final(Init(map[d := Unknown]), FirstArrives(d)) == FirstServes(d)
  {
    var s0 := Init(map[d := Unknown]);
    var s1 := Step(s0, Add(0, d));
    var s2 := Step(s1, Register(0));
    RunOne(s2, WriteOnline(0, true), []);
    RunOne(s1, Register(0), [WriteOnline(0, true)] + []);
    RunOne(s0, Add(0, d), [Register(0)] + ([WriteOnline(0, true)] + []));
  }

  lemma FirstLeavesRuns(d: Device)
    ensures Runs(FirstServes(d), FirstLeaves()) && Final(FirstServes(d), FirstLeaves()) == BetweenTheTwo(d)
  {
    var s0 := FirstServes(d);
    RunOne(Step(s0, ReadFails(0)), Unregister(0), []);
    RunOne(s0, ReadFails(0), [Unregister(0)] + []);
  }

  lemma SecondArrivesRuns(d: Device)
    ensures Runs(BetweenTheTwo(d), SecondArrives(d))
    ensures var t := Final(BetweenTheTwo(d), SecondArrives(d));
      && IsCurrent(t.hub, d, 1) && At(t, 1, Serving) && 1 !in t.closed
      && d in t.status && t.status[d] == Offline
  {
    var s0 := BetweenTheTwo(d);
    var s1 := Step(s0, Add(1, d));
    var s2 := Step(s1, Register(1));
    var s3 := Step(s2, WriteOnline(1, true));
    RunOne(s3, WriteOffline(0, true), []);
    RunOne(s2, WriteOnline(1, true), [WriteOffline(0, true)] + []);
    RunOne(s1, Register(1), [WriteOnline(1, true)] + ([WriteOffline(0, true)] + []));
    RunOne(s0, Add(1, d), [Register(1)] + ([WriteOnline(1, true)] + ([WriteOffline(0, true)] + [])));
  }

  /** A connected, serving device can be stored as offline: "stored equals connected" is not an invariant. */
  lemma ConnectedButStoredOffline(d: Device)
    ensures var s, ls := Init(map[d := Unknown]), FirstArrives(d) + (FirstLeaves() + SecondArrives(d));
      && Runs(s, ls)
      && var t := Final(s, ls);
      && d in t.hub && At(t, t.hub[d], Serving) && t.hub[d] !in t.closed
      && d in t.status && t.status[d] == Offline
  {
    FirstArrivesRuns(d);
    FirstLeavesRuns(d);
    SecondArrivesRuns(d);
    RunConcat(FirstServes(d), FirstLeaves(), SecondArrives(d));
    RunConcat(Init(map[d := Unknown]), FirstArrives(d), FirstLeaves() + SecondArrives(d));
  }
}
