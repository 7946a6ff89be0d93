/**
 One connection served without interruption, on the objects of `Hub`, is one of the runs of
 `Lifecycle`: the objects end up as the step system's state does.
 */
module Session {
  import opened HubTable
  import RateLimiter
  import opened SharedLimiter
  import opened MessageGate
  import opened Hub
  import opened TokenBucket
  import L = Lifecycle
  import StoredStatus

  // ---------------------------------------------------------------------------
  // The steps of a session
  // ---------------------------------------------------------------------------

  function Comes(c: L.Id, d: string, taken: bool, up: bool): seq<L.Label> {
    [L.Add(c, d)] + ([L.Register(c)] + ((if taken then [L.CloseReplaced(c)] else []) + [L.WriteOnline(c, up)]))
  }

  /** Only a heartbeat that is handled and inserted goes on to write. */
  function FrameLabels(c: L.Id, f: Frame, fate: Fate): seq<L.Label> {
    if fate == Handled && f.content.HeartbeatMessage? && f.content.inserted
    then [L.Heartbeat(c)] + [L.Handled(c, f.content.updated)]
    else []
  }

  function LoopLabels(c: L.Id, frames: seq<Frame>, fates: seq<Fate>): seq<L.Label>
    requires |fates| == |frames|
  {
    if frames == [] then []
    else
      LoopLabels(c, frames[..|frames| - 1], fates[..|frames| - 1])
      + FrameLabels(c, frames[|frames| - 1], fates[|frames| - 1])
  }

  function Goes(c: L.Id, up: bool): seq<L.Label> {
    [L.ReadFails(c)] + ([L.Unregister(c)] + ([L.WriteOffline(c, up)] + [L.Finish(c)]))
  }

  function Labels(c: L.Id, d: string, taken: bool, online: bool, frames: seq<Frame>, fates: seq<Fate>,
      offline: bool): seq<L.Label>
    requires |fates| == |frames|
  {
    Comes(c, d, taken, online) + (LoopLabels(c, frames, fates) + Goes(c, offline))
  }

  function Marked(status: map<string, Status>, d: string, v: Status, up: bool): map<string, Status> {
    if up && d in status then status[d := v] else status
  }

  lemma Last(s: L.State, l: L.Label)
    requires L.Enabled(s, l)
    ensures L.Runs(s, [l]) && L.Final(s, [l]) == L.Step(s, l)
  {
    StoredStatus.RunOne(s, l, []);
    assert [l] + [] == [l];
  }

  /** A connection that has just come. */
  ghost predicate Arrived(s: L.State, c: L.Id, d: string, up: bool, t: L.State) {
    && t.device == s.device[c := d] && t.phase == s.phase[c := L.Serving]
    && t.hub == Enter(s.hub, d, c) && t.wg == s.wg + 1 && t.status == Marked(s.status, d, Online, up)
    && t.closed == s.closed + if d in s.hub then {s.hub[d]} else {}
  }

  /** A connection that has just registered closes the one it replaced, if any, and writes online. */
  lemma WritesOnline(s: L.State, c: L.Id, up: bool)
    requires c in s.phase && c in s.device && (s.phase[c].Closing? || s.phase[c].Opening?)
    ensures var rest := (if s.phase[c].Closing? then [L.CloseReplaced(c)] else []) + [L.WriteOnline(c, up)];
      && L.Runs(s, rest)
      && L.Final(s, rest) == s.(
          phase := s.phase[c := L.Serving],
          status := Marked(s.status, s.device[c], Online, up),
          closed := s.closed + if s.phase[c].Closing? then {s.phase[c].older} else {})
  {
    if s.phase[c].Closing? {
      L.AfterCloseReplaced(s, c);
      var t := L.Step(s, L.CloseReplaced(c));
      Last(t, L.WriteOnline(c, up));
      StoredStatus.RunOne(s, L.CloseReplaced(c), [L.WriteOnline(c, up)]);
      assert s.phase[c := L.Opening][c := L.Serving] == s.phase[c := L.Serving];
    } else {
      Last(s, L.WriteOnline(c, up));
      assert [] + [L.WriteOnline(c, up)] == [L.WriteOnline(c, up)];
    }
  }

  lemma RegistersIsARun(s: L.State, c: L.Id, up: bool)
    requires c in s.device && L.Enabled(s, L.Register(c))
    ensures var d := s.device[c];
      var ls := [L.Register(c)] + ((if d in s.hub then [L.CloseReplaced(c)] else []) + [L.WriteOnline(c, up)]);
      && L.Runs(s, ls)
      && var t := L.Final(s, ls);
        && t.device == s.device && t.phase == s.phase[c := L.Serving] && t.hub == Enter(s.hub, d, c) && t.wg == s.wg
        && t.status == Marked(s.status, d, Online, up)
        && t.closed == s.closed + if d in s.hub then {s.hub[d]} else {}
  {
    L.AfterRegister(s, c);
    var t := L.Step(s, L.Register(c));
    WritesOnline(t, c, up);
    hide L.Step, L.Enabled, L.Runs, L.Final, Marked;
    var rest := (if s.device[c] in s.hub then [L.CloseReplaced(c)] else []) + [L.WriteOnline(c, up)];
    StoredStatus.RunOne(s, L.Register(c), rest);
  }

  lemma ComesIsARun(s: L.State, c: L.Id, d: string, up: bool)
    requires c !in s.phase && c !in s.device
    ensures L.Runs(s, Comes(c, d, d in s.hub, up)) && Arrived(s, c, d, up, L.Final(s, Comes(c, d, d in s.hub, up)))
  {
    L.AfterAdd(s, c, d);
    var s1 := L.Step(s, L.Add(c, d));
    RegistersIsARun(s1, c, up);
    var rest := [L.Register(c)] + ((if d in s.hub then [L.CloseReplaced(c)] else []) + [L.WriteOnline(c, up)]);
    hide L.Step, L.Enabled, L.Runs, L.Final, Marked;
    StoredStatus.RunOne(s, L.Add(c, d), rest);
    assert s.phase[c := L.Added][c := L.Serving] == s.phase[c := L.Serving];
  }

  lemma FrameIsARun(s: L.State, c: L.Id, f: Frame, fate: Fate)
    requires L.At(s, c, L.Serving) && c !in s.closed
    ensures L.Runs(s, FrameLabels(c, f, fate))
    ensures L.Final(s, FrameLabels(c, f, fate))
      == s.(status := Marked(s.status, s.device[c], Online, MarksOnline(f, fate)))
  {
    if FrameLabels(c, f, fate) != [] {
      var t := L.Step(s, L.Heartbeat(c));
      Last(t, L.Handled(c, f.content.updated));
      StoredStatus.RunOne(s, L.Heartbeat(c), [L.Handled(c, f.content.updated)]);
      assert s.phase[c := L.Handling][c := L.Serving] == s.phase;
    }
  }

  /** The read loop changes nothing in the step system but the device's status. */
  lemma {:induction false} LoopIsARun(s: L.State, c: L.Id, frames: seq<Frame>, fates: seq<Fate>)
    requires L.At(s, c, L.Serving) && c !in s.closed && |fates| == |frames|
    ensures L.Runs(s, LoopLabels(c, frames, fates))
    ensures L.Final(s, LoopLabels(c, frames, fates)) == s.(status := StatusAfter(s.status, s.device[c], frames, fates))
    decreases |frames|
  {
    if frames != [] {
      var last := |frames| - 1;
      LoopIsARun(s, c, frames[..last], fates[..last]);
      var t := L.Final(s, LoopLabels(c, frames[..last], fates[..last]));
      FrameIsARun(t, c, frames[last], fates[last]);
      StoredStatus.RunConcat(s, LoopLabels(c, frames[..last], fates[..last]),
        FrameLabels(c, frames[last], fates[last]));
    }
  }

  /** A connection that is still its device's entry has gone. */
  ghost predicate Gone(s: L.State, c: L.Id, d: string, up: bool, t: L.State) {
    && t.device == s.device && t.phase == s.phase[c := L.Done]
    && t.hub == Leave(s.hub, d, c) && t.wg == s.wg - 1 && t.status == Marked(s.status, d, Offline, up)
    && t.closed == s.closed
  }

  lemma WritesOffline(s: L.State, c: L.Id, up: bool)
    requires L.At(s, c, L.OwesOffline)
    ensures L.Runs(s, [L.WriteOffline(c, up)] + [L.Finish(c)])
    ensures var t := L.Final(s, [L.WriteOffline(c, up)] + [L.Finish(c)]);
      && t.device == s.device && t.phase == s.phase[c := L.Done] && t.hub == s.hub && t.closed == s.closed
      && t.wg == s.wg - 1 && t.status == Marked(s.status, s.device[c], Offline, up)
  {
    var t := L.Step(s, L.WriteOffline(c, up));
    Last(t, L.Finish(c));
    StoredStatus.RunOne(s, L.WriteOffline(c, up), [L.Finish(c)]);
    assert s.phase[c := L.Finishing][c := L.Done] == s.phase[c := L.Done];
  }

  lemma AfterReadFails(s: L.State, c: L.Id)
    requires L.Enabled(s, L.ReadFails(c))
    ensures L.Step(s, L.ReadFails(c)) == s.(phase := s.phase[c := L.Leaving])
  {
  }

  lemma AfterUnregister(s: L.State, c: L.Id)
    requires L.At(s, c, L.Leaving) && IsCurrent(s.hub, s.device[c], c)
    ensures var t := L.Step(s, L.Unregister(c));
      && t.phase == s.phase[c := L.OwesOffline] && t.hub == Leave(s.hub, s.device[c], c)
      && t.device == s.device && t.closed == s.closed && t.status == s.status && t.wg == s.wg
  {
  }

  lemma GoesIsARun(s: L.State, c: L.Id, d: string, up: bool)
    requires L.At(s, c, L.Serving) && s.device[c] == d && IsCurrent(s.hub, d, c)
    ensures L.Runs(s, Goes(c, up)) && Gone(s, c, d, up, L.Final(s, Goes(c, up)))
  {
    AfterReadFails(s, c);
    var s1 := L.Step(s, L.ReadFails(c));
    assert L.Enabled(s, L.ReadFails(c)) && L.Enabled(s1, L.Unregister(c));
    AfterUnregister(s1, c);
    var s2 := L.Step(s1, L.Unregister(c));
    hide L.Step, L.Enabled;
    WritesOffline(s2, c, up);
    StoredStatus.RunOne(s1, L.Unregister(c), [L.WriteOffline(c, up)] + [L.Finish(c)]);
    StoredStatus.RunOne(s, L.ReadFails(c), [L.Unregister(c)] + ([L.WriteOffline(c, up)] + [L.Finish(c)]));
  }

  /** What a whole session leaves behind. */
  ghost predicate Ended(s: L.State, c: L.Id, d: string, online: bool, frames: seq<Frame>, fates: seq<Fate>,
      offline: bool, t: L.State)
    requires |fates| == |frames|
  {
    && t.hub == Leave(Enter(s.hub, d, c), d, c) && t.wg == s.wg && t.phase == s.phase[c := L.Done]
    && t.closed == s.closed + (if d in s.hub then {s.hub[d]} else {})
    && t.status == Marked(StatusAfter(Marked(s.status, d, Online, online), d, frames, fates), d, Offline, offline)
  }

  lemma SessionEnds(s: L.State, s1: L.State, s2: L.State, t: L.State, c: L.Id, d: string, online: bool,
      frames: seq<Frame>, fates: seq<Fate>, offline: bool)
    requires |fates| == |frames| && Arrived(s, c, d, online, s1) && Gone(s2, c, d, offline, t)
    requires s2 == s1.(status := StatusAfter(s1.status, d, frames, fates))
    ensures Ended(s, c, d, online, frames, fates, offline, t)
  {
    hide StatusAfter;
    assert s.phase[c := L.Serving][c := L.Done] == s.phase[c := L.Done];
  }

  lemma NewcomerIsOpen(s: L.State, c: L.Id, d: string, up: bool, t: L.State)
    requires Arrived(s, c, d, up, t) && c !in s.closed && (d in s.hub ==> s.hub[d] != c)
    ensures L.At(t, c, L.Serving) && t.device[c] == d && IsCurrent(t.hub, d, c) && c !in t.closed
  {
  }

  /** From any state in which `c` is fresh, a whole session can run without interruption. */
  lemma SessionIsARun(s: L.State, c: L.Id, d: string, online: bool, frames: seq<Frame>, fates: seq<Fate>, offline: bool)
    requires c !in s.phase && c !in s.device && c !in s.closed && |fates| == |frames|
    requires d in s.hub ==> s.hub[d] != c
    ensures var ls := Labels(c, d, d in s.hub, online, frames, fates, offline);
      L.Runs(s, ls) && Ended(s, c, d, online, frames, fates, offline, L.Final(s, ls))
  {
    hide L.Runs, L.Final, Comes, LoopLabels, Goes, StatusAfter, Arrived, Gone, Ended;
    var first, loop, last := Comes(c, d, d in s.hub, online), LoopLabels(c, frames, fates), Goes(c, offline);
    ComesIsARun(s, c, d, online);
    var s1 := L.Final(s, first);
    NewcomerIsOpen(s, c, d, online, s1);
    LoopIsARun(s1, c, frames, fates);
    var s2 := L.Final(s1, loop);
    GoesIsARun(s2, c, d, offline);
    SessionEnds(s, s1, s2, L.Final(s2, last), c, d, online, frames, fates, offline);
    StoredStatus.RunConcat(s1, loop, last);
    StoredStatus.RunConcat(s, first, loop + last);
  }

  // ---------------------------------------------------------------------------
  // The writes that a session's messages cause
  // ---------------------------------------------------------------------------

  /** Heartbeats that go on to be stored and to write the device online. */
  function HeartbeatWrites(ls: seq<L.Label>): nat {
    if ls == [] then 0 else HeartbeatWrites(ls[..|ls| - 1]) + if ls[|ls| - 1].Heartbeat? then 1 else 0
  }

  lemma {:induction false} WritesConcat(a: seq<L.Label>, b: seq<L.Label>)
    ensures HeartbeatWrites(a + b) == HeartbeatWrites(a) + HeartbeatWrites(b)
    decreases |b|
  {
    if b == [] {
      assert a + b == a;
    } else {
      assert (a + b)[..|a + b| - 1] == a + b[..|b| - 1];
      WritesConcat(a, b[..|b| - 1]);
    }
  }

  lemma FrameWrites(c: L.Id, f: Frame, fate: Fate)
    ensures HeartbeatWrites(FrameLabels(c, f, fate)) <= if fate == Handled then 1 else 0
  {
    if FrameLabels(c, f, fate) != [] {
      var a, b := [L.Heartbeat(c)], [L.Handled(c, f.content.updated)];
      WritesConcat(a, b);
      assert a[..0] == [] && b[..0] == [];
    }
  }

  lemma OneMoreFrame(c: L.Id, frames: seq<Frame>, fates: seq<Fate>, n: nat)
    requires n < |frames| == |fates|
    ensures LoopLabels(c, frames[..n + 1], fates[..n + 1])
      == LoopLabels(c, frames[..n], fates[..n]) + FrameLabels(c, frames[n], fates[n])
  {
    hide FrameLabels;
    assert frames[..n + 1][..n] == frames[..n] && fates[..n + 1][..n] == fates[..n];
  }

  lemma OneMoreMet(d: string, frames: seq<Frame>, answers: seq<bool>, n: nat)
    requires n < |frames| && |answers| == |Calls(Trace(d, frames))|
    ensures Met(Trace(d, frames), answers, Handled, d, 0, n + 1)
      == Met(Trace(d, frames), answers, Handled, d, 0, n) + if Fates(d, frames, answers)[n] == Handled then 1 else 0
  {
    hide Calls, FateOf;
  }

  /** Only frames let through to the handler write: at most one write each. */
  lemma {:induction false} WritesAreHandled(c: L.Id, d: string, frames: seq<Frame>, fates: seq<Fate>,
      answers: seq<bool>, n: nat)
    requires n <= |frames| && |answers| == |Calls(Trace(d, frames))| && fates == Fates(d, frames, answers)
    ensures HeartbeatWrites(LoopLabels(c, frames[..n], fates[..n])) <= Met(Trace(d, frames), answers, Handled, d, 0, n)
  {
    hide Calls, FrameLabels, Fates, Trace;
    if n == 0 {
      assert LoopLabels(c, frames[..n], fates[..n]) == [];
    } else {
      hide HeartbeatWrites, LoopLabels, Met;
      WritesAreHandled(c, d, frames, fates, answers, n - 1);
      OneMoreFrame(c, frames, fates, n - 1);
      OneMoreMet(d, frames, answers, n - 1);
      WritesConcat(LoopLabels(c, frames[..n - 1], fates[..n - 1]), FrameLabels(c, frames[n - 1], fates[n - 1]));
      FrameWrites(c, frames[n - 1], fates[n - 1]);
    }
  }

  /** However fast a device sends, over any T seconds its heartbeats cause at most 20 + 5T writes. */
  lemma WritesWithinBudget(start: real, c: L.Id, d: string, frames: seq<Frame>)
    requires Increasing(start, frames) && frames != []
    ensures var answers := Replay(RateLimiter.MESSAGE_LIMITER, start, Calls(Trace(d, frames))).verdicts;
      HeartbeatWrites(LoopLabels(c, frames, Fates(d, frames, answers))) as real
        <= 20.0 + 5.0 * (frames[|frames| - 1].time - frames[0].time)
  {
    var trace, n := Trace(d, frames), |frames|;
    var answers := Replay(RateLimiter.MESSAGE_LIMITER, start, Calls(trace)).verdicts;
    var fates := Fates(d, frames, answers);
    assert frames[..n] == frames && fates[..n] == fates;
    WritesAreHandled(c, d, frames, fates, answers, n);
    MessageBudget(start, trace, d, 0, n);
  }

  // ---------------------------------------------------------------------------
  // The objects against the step system
  // ---------------------------------------------------------------------------

  /** Hub, table and clients hold what the state says, each client object standing for one connection. */
  ghost predicate Represents(hub: HubObject, table: DeviceTable, s: L.State, ids: map<Client, L.Id>)
    reads hub, table, ids.Keys
  {
    && hub.clients.Keys == s.hub.Keys && hub.wg == s.wg && table.status == s.status
    && (forall d | d in hub.clients :: hub.clients[d] in ids && ids[hub.clients[d]] == s.hub[d])
    && (forall c | c in ids :: ids[c] in s.phase && (c.closed <==> ids[c] in s.closed))
    && (forall a, b | a in ids && b in ids && ids[a] == ids[b] :: a == b)
  }

  /** The objects after a session represent the state after it. */
  lemma RepresentsAfter(hub: HubObject, table: DeviceTable, ids: map<Client, L.Id>, before: map<string, Client>,
      c: Client, d: string, s: L.State, t: L.State, n: L.Id)
    requires before.Keys == s.hub.Keys && forall e | e in before :: before[e] in ids && ids[before[e]] == s.hub[e]
    requires forall x | x in ids ::
      ids[x] in s.phase && (x.closed <==> ids[x] in s.closed || (d in before && before[d] == x))
    requires forall a, b | a in ids && b in ids && ids[a] == ids[b] :: a == b
    requires c !in ids && !c.closed && n !in s.phase && n !in s.closed
    requires hub.clients == Leave(Enter(before, d, c), d, c) && hub.wg == t.wg && table.status == t.status
    requires t.hub == Leave(Enter(s.hub, d, n), d, n) && t.phase == s.phase[n := L.Done]
    requires t.closed == s.closed + (if d in s.hub then {s.hub[d]} else {})
    ensures Represents(hub, table, t, ids[c := n])
  {
    assert hub.clients == before - {d} && t.hub == s.hub - {d};
    hide Leave, Enter;
  }

  /** A device connects, is marked online, served until its read fails, and cleaned up after. */
  method Serve(hub: HubObject, table: DeviceTable, limiter: KeyedRateLimiter, deviceID: string, frames: seq<Frame>,
      online: bool, offline: bool)
      returns (c: Client, fates: seq<Fate>)
    requires hub.Valid() && limiter.Valid()
    requires Increasing(RateLimiter.Latest(limiter.start, limiter.history), frames)
    modifies hub, table, limiter, limiter.owned, if deviceID in hub.clients then {hub.clients[deviceID]} else {}
    ensures hub.Valid() && limiter.Valid() && fresh(c) && !c.closed && |fates| == |frames|
    ensures hub.clients == Leave(Enter(old(hub.clients), deviceID, c), deviceID, c) && hub.wg == old(hub.wg)
    ensures
      var first := Marked(old(table.status), deviceID, Online, online);
      table.status == Marked(StatusAfter(first, deviceID, frames, fates), deviceID, Offline, offline)
    ensures deviceID in old(hub.clients) ==> old(hub.clients)[deviceID].closed
  {
    hide Faithful, StatusAfter, Fates, Calls, Trace, Increasing, RateLimiter.Latest;
    c := hub.NewClient(deviceID);
    var _ := table.SetDeviceStatus(deviceID, Online, online);
    ghost var answers;
    fates, answers := c.Run(frames, hub, table, limiter, offline);
  }

  /** The objects go from one state of the step system to another by a run of it. */
  method HandleWebSocket(hub: HubObject, table: DeviceTable, limiter: KeyedRateLimiter, deviceID: string,
      frames: seq<Frame>, online: bool, offline: bool, ghost s: L.State, ghost ids: map<Client, L.Id>, ghost n: L.Id)
      returns (c: Client, fates: seq<Fate>)
    requires hub.Valid() && limiter.Valid()
    requires Increasing(RateLimiter.Latest(limiter.start, limiter.history), frames)
    requires Represents(hub, table, s, ids) && n !in s.phase && n !in s.device && n !in s.closed
    modifies hub, table, limiter, limiter.owned, if deviceID in hub.clients then {hub.clients[deviceID]} else {}
    ensures hub.Valid() && limiter.Valid() && fresh(c) && |fates| == |frames|
    ensures var run := Labels(n, deviceID, deviceID in old(hub.clients), online, frames, fates, offline);
      L.Runs(s, run) && Represents(hub, table, L.Final(s, run), ids[c := n])
  {
    hide Labels, StatusAfter, L.Runs, L.Final, Increasing, RateLimiter.Latest, Faithful;
    ghost var before := hub.clients;
    c, fates := Serve(hub, table, limiter, deviceID, frames, online, offline);
    SessionIsARun(s, n, deviceID, online, frames, fates, offline);
    ghost var run := Labels(n, deviceID, deviceID in before, online, frames, fates, offline);
    RepresentsAfter(hub, table, ids, before, c, deviceID, s, L.Final(s, run), n);
  }
}
