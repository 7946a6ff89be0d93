/**
 The hub, the device table and a client's goroutine as objects. Each method is what one
 goroutine does without interruption; `Lifecycle` interleaves the same regions, through
 the same table functions, in every possible order, and `Session` shows that one connection
 served here is one of its runs.
 */
module Hub {
  import opened HubTable
  import opened TokenBucket
  import RateLimiter
  import opened SharedLimiter
  import opened MessageGate

  datatype WriteResult = Written | NotFound | Failed

  /** The status column of the devices table. `up` says whether the database answers. */
  class DeviceTable {
    var status: map<string, Status>

    constructor (status: map<string, Status>)
      ensures this.status == status
    {
      this.status := status;
    }

    method SetDeviceStatus(id: string, st: Status, up: bool) returns (r: WriteResult)
      modifies this
      ensures r == (if !up then Failed else if id in old(status) then Written else NotFound)
      ensures status == if r == Written then old(status)[id := st] else old(status)
    {
      if !up {
        return Failed;
      }
      if id !in status {
        return NotFound;
      }
      status := status[id := st];
      return Written;
    }

    /** An update that matches no row is not an error here. */
    method UpdateLastSeen(id: string, up: bool) returns (ok: bool)
      modifies this
      ensures ok == up
      ensures status == if up && id in old(status) then old(status)[id := Online] else old(status)
    {
      if up && id in status {
        status := status[id := Online];
      }
      return up;
    }
  }

  /** A message as the handler sees it: only a heartbeat whose insert succeeds touches the status. */
  datatype Content = Garbage | HeartbeatMessage(inserted: bool, updated: bool) | OtherMessage

  datatype Frame = Frame(time: real, content: Content)

  ghost predicate Increasing(from: real, frames: seq<Frame>) {
    && (forall i | 0 <= i < |frames| :: from <= frames[i].time)
    && (forall i, j | 0 <= i < j < |frames| :: frames[i].time <= frames[j].time)
  }

  // ---------------------------------------------------------------------------
  // What a connection's frames amount to, given the limiter's answers
  // ---------------------------------------------------------------------------

  function MessageOf(device: string, f: Frame): Message {
    Message(device, f.time, !f.content.Garbage?)
  }

  /** The frames of one connection as a trace of messages. */
  function Trace(device: string, frames: seq<Frame>): (trace: seq<Message>)
    ensures |trace| == |frames|
  {
    seq(|frames|, i requires 0 <= i < |frames| => MessageOf(device, frames[i]))
  }

  /** What becomes of each frame. */
  function Fates(device: string, frames: seq<Frame>, answers: seq<bool>): (fates: seq<Fate>)
    requires |answers| == |Calls(Trace(device, frames))|
    ensures |fates| == |frames|
  {
    seq(|frames|, i requires 0 <= i < |frames| => FateOf(Trace(device, frames), answers, i))
  }

  /** The limiter's answer behind a fate, if it was asked. */
  function AnswerOf(fate: Fate): seq<bool> {
    if fate == Malformed then [] else [fate == Handled]
  }

  /** A frame whose handling marks the device online. */
  predicate MarksOnline(f: Frame, fate: Fate) {
    fate == Handled && f.content == HeartbeatMessage(true, true)
  }

  function StatusAfter(status: map<string, Status>, device: string, frames: seq<Frame>,
      fates: seq<Fate>): map<string, Status>
    requires |fates| == |frames|
  {
    if frames == [] then status
    else
      var last, before := |frames| - 1, StatusAfter(status, device, frames[..|frames| - 1], fates[..|frames| - 1]);
      if MarksOnline(frames[last], fates[last]) && device in before then before[device := Online] else before
  }

  /** Some frame of a heartbeat whose insert and update succeed was let through to the handler. */
  ghost predicate HeartbeatHandled(frames: seq<Frame>, fates: seq<Fate>)
    requires |fates| == |frames|
  {
    exists i :: 0 <= i < |frames| && fates[i] == Handled && frames[i].content == HeartbeatMessage(true, true)
  }

  /** Serving frames marks the device online if and only if one was such a heartbeat, and changes no other row. */
  lemma {:induction false} MarkedOnlineIff(status: map<string, Status>, device: string, frames: seq<Frame>,
      fates: seq<Fate>)
    requires |fates| == |frames|
    ensures StatusAfter(status, device, frames, fates)
      == if HeartbeatHandled(frames, fates) && device in status then status[device := Online] else status
    decreases |frames|
  {
    if frames != [] {
      var last := |frames| - 1;
      MarkedOnlineIff(status, device, frames[..last], fates[..last]);
      if i :| 0 <= i < last && fates[i] == Handled && frames[i].content == HeartbeatMessage(true, true) {
        assert fates[..last][i] == Handled && frames[..last][i].content == HeartbeatMessage(true, true);
      }
    }
  }

  lemma OneMoreFrame(status: map<string, Status>, device: string, frames: seq<Frame>, f: Frame, answers: seq<bool>,
      fate: Fate)
    requires |answers| == |Calls(Trace(device, frames))| && (fate == Malformed <==> f.content.Garbage?)
    ensures Calls(Trace(device, frames + [f])) == Calls(Trace(device, frames)) + Asked(MessageOf(device, f))
    ensures Fates(device, frames + [f], answers + AnswerOf(fate)) == Fates(device, frames, answers) + [fate]
    ensures var served := StatusAfter(status, device, frames, Fates(device, frames, answers));
      StatusAfter(status, device, frames + [f], Fates(device, frames, answers) + [fate]) ==
        if MarksOnline(f, fate) && device in served then served[device := Online] else served
  {
    var trace, m, fates := Trace(device, frames), MessageOf(device, f), Fates(device, frames, answers);
    assert Trace(device, frames + [f]) == trace + [m];
    assert (trace + [m])[..|frames|] == trace && (frames + [f])[..|frames|] == frames
      && (fates + [fate])[..|frames|] == fates;
    forall i | 0 <= i < |frames| ensures Fates(device, frames + [f], answers + AnswerOf(fate))[i] == fates[i] {
      FateIsSettled(trace, answers, m, AnswerOf(fate), i);
    }
  }

  class HubObject {
    var clients: map<string, Client>
    var wg: int

    constructor ()
      ensures clients == map[] && wg == 0
    {
      clients := map[];
      wg := 0;
    }

    ghost predicate Valid()
      reads this
    {
      forall d | d in clients :: clients[d].deviceID == d
    }

    /** Makes `c` the device's connection and closes the one it replaces. */
    method Register(c: Client)
      requires Valid()
      modifies this`clients, if c.deviceID in clients then {clients[c.deviceID]} else {}
      ensures Valid() && clients == Enter(old(clients), c.deviceID, c)
      ensures c.deviceID in old(clients) ==> old(clients)[c.deviceID].closed
    {
      var had, existing := c.deviceID in clients, c;
      if had {
        existing := clients[c.deviceID];
      }
      clients := clients[c.deviceID := c];
      if had {
        existing.Close();
      }
    }

    /** Counts the new connection before it becomes visible. */
    method NewClient(deviceID: string) returns (c: Client)
      requires Valid()
      modifies this, if deviceID in clients then {clients[deviceID]} else {}
      ensures Valid() && fresh(c) && c.deviceID == deviceID && !c.closed
      ensures wg == old(wg) + 1 && clients == Enter(old(clients), deviceID, c)
      ensures deviceID in old(clients) ==> old(clients)[deviceID].closed
    {
      c := new Client(deviceID);
      wg := wg + 1;
      Register(c);
    }

    method Unregister(c: Client) returns (was: bool)
      requires Valid()
      modifies this`clients
      ensures Valid() && was == IsCurrent(old(clients), c.deviceID, c)
      ensures clients == Leave(old(clients), c.deviceID, c)
    {
      was := false;
      if c.deviceID in clients && clients[c.deviceID] == c {
        clients := clients - {c.deviceID};
        was := true;
      }
    }

    method ConnectedDeviceIDs() returns (ids: seq<string>)
      ensures |ids| == |clients|
      ensures forall d :: d in ids <==> d in clients
    {
      ids := [];
      var pending := clients.Keys;
      while pending != {}
        invariant pending <= clients.Keys
        invariant forall d :: d in ids <==> d in clients && d !in pending
        invariant |ids| + |pending| == |clients.Keys|
        decreases pending
      {
        var d :| d in pending;
        ids := ids + [d];
        pending := pending - {d};
      }
    }

    /** Closes every connected client and leaves the table to their own goroutines. */
    method CloseAll()
      requires Valid()
      modifies clients.Values
      ensures clients == old(clients)
      ensures forall d | d in clients :: clients[d].closed
    {
      var closing := clients.Values;
      while closing != {}
        invariant closing <= clients.Values
        invariant forall d | d in clients && clients[d] !in closing :: clients[d].closed
        decreases closing
      {
        var c :| c in closing;
        c.Close();
        closing := closing - {c};
      }
    }
  }

  class Client {
    const deviceID: string
    var closed: bool

    constructor (deviceID: string)
      ensures this.deviceID == deviceID && !closed
    {
      this.deviceID := deviceID;
      closed := false;
    }

    method Close()
      modifies this
      ensures closed
    {
      closed := true;
    }

    /** Read fails on a closed connection, so only an open one hears what is sent. */
    ghost function Heard(frames: seq<Frame>): (heard: seq<Frame>)
      reads this
      ensures heard <= frames
    {
      if closed then [] else frames
    }

    /** One delivered message: parse, ask the limiter, handle. */
    method Serve(f: Frame, table: DeviceTable, limiter: KeyedRateLimiter) returns (fate: Fate)
      requires limiter.Valid() && RateLimiter.Latest(limiter.start, limiter.history) <= f.time
      modifies table, limiter, limiter.owned
      ensures limiter.Valid() && fresh(limiter.owned - old(limiter.owned))
      ensures fate == Malformed <==> f.content.Garbage?
      ensures limiter.history == old(limiter.history) + if f.content.Garbage? then [] else [Call(deviceID, f.time)]
      ensures limiter.verdicts == old(limiter.verdicts) + AnswerOf(fate)
      ensures fate == Malformed || fate == Rejected ==> table.status == old(table.status)
      ensures fate == Handled && f.content != HeartbeatMessage(true, true) ==> table.status == old(table.status)
      ensures fate == Handled && f.content == HeartbeatMessage(true, true) && deviceID in old(table.status) ==>
        table.status == old(table.status)[deviceID := Online]
      ensures deviceID !in old(table.status) ==> table.status == old(table.status)
    {
      if f.content.Garbage? {
        return Malformed;
      }
      var ok := limiter.Allow(deviceID, f.time);
      if !ok {
        return Rejected;
      }
      if f.content.HeartbeatMessage? && f.content.inserted {
        var _ := table.UpdateLastSeen(deviceID, f.content.updated);
      }
      return Handled;
    }

    /** What has happened to the limiter and the table once the frames `done` have been read. */
    ghost predicate Served(table: DeviceTable, limiter: KeyedRateLimiter, asked: seq<Call>, answered: seq<bool>,
        before: map<string, Status>, done: seq<Frame>, fates: seq<Fate>, answers: seq<bool>)
      reads table, limiter
    {
      && limiter.history == asked + Calls(Trace(deviceID, done))
      && limiter.verdicts == answered + answers && |answers| == |Calls(Trace(deviceID, done))|
      && fates == Fates(deviceID, done, answers)
      && table.status == StatusAfter(before, deviceID, done, fates)
    }

    method ServeNext(f: Frame, table: DeviceTable, limiter: KeyedRateLimiter, ghost asked: seq<Call>,
        ghost answered: seq<bool>, ghost before: map<string, Status>, ghost done: seq<Frame>,
        fates: seq<Fate>, ghost answers: seq<bool>)
        returns (fates': seq<Fate>, ghost answers': seq<bool>)
      requires limiter.Valid() && RateLimiter.Latest(limiter.start, limiter.history) <= f.time
      requires Served(table, limiter, asked, answered, before, done, fates, answers)
      modifies table, limiter, limiter.owned
      ensures limiter.Valid() && fresh(limiter.owned - old(limiter.owned))
      ensures Served(table, limiter, asked, answered, before, done + [f], fates', answers')
      ensures RateLimiter.Latest(limiter.start, limiter.history) <= f.time
    {
      hide Trace, Fates, Calls, StatusAfter, Faithful;
      var fate := Serve(f, table, limiter);
      OneMoreFrame(before, deviceID, done, f, answers, fate);
      fates', answers' := fates + [fate], answers + AnswerOf(fate);
    }

    method ReadLoop(frames: seq<Frame>, table: DeviceTable, limiter: KeyedRateLimiter)
        returns (fates: seq<Fate>, ghost answers: seq<bool>)
      requires limiter.Valid()
      requires Increasing(RateLimiter.Latest(limiter.start, limiter.history), frames)
      modifies table, limiter, limiter.owned
      ensures limiter.Valid() && fresh(limiter.owned - old(limiter.owned))
      ensures limiter.history == old(limiter.history) + Calls(Trace(deviceID, Heard(frames)))
      ensures limiter.verdicts == old(limiter.verdicts) + answers
        && |answers| == |Calls(Trace(deviceID, Heard(frames)))|
      ensures fates == Fates(deviceID, Heard(frames), answers)
      ensures table.status == StatusAfter(old(table.status), deviceID, Heard(frames), fates)
    {
      fates, answers := [], [];
      ghost var asked, answered, before := limiter.history, limiter.verdicts, table.status;
      assert frames[..0] == [] && Served(table, limiter, asked, answered, before, [], [], []);
      var i := 0;
      while i < |frames| && !closed
        invariant 0 <= i <= |frames| && (closed ==> i == 0)
        invariant limiter.Valid() && fresh(limiter.owned - old(limiter.owned))
        invariant Served(table, limiter, asked, answered, before, frames[..i], fates, answers)
        invariant forall j | i <= j < |frames| :: RateLimiter.Latest(limiter.start, limiter.history) <= frames[j].time
        decreases |frames| - i
      {
        hide Served, Faithful;
        fates, answers := ServeNext(frames[i], table, limiter, asked, answered, before, frames[..i], fates, answers);
        assert frames[..i + 1] == frames[..i] + [frames[i]];
        i := i + 1;
      }
      assert frames[..i] == Heard(frames);
    }

    /**
     Reads `frames` until the read fails, then cleans up: unregister, write offline if this
     was still the device's connection, and only then report to the wait group.
     */
    method Run(frames: seq<Frame>, hub: HubObject, table: DeviceTable, limiter: KeyedRateLimiter, up: bool)
        returns (fates: seq<Fate>, ghost answers: seq<bool>)
      requires hub.Valid() && limiter.Valid()
      requires Increasing(RateLimiter.Latest(limiter.start, limiter.history), frames)
      modifies hub, table, limiter, limiter.owned
      ensures hub.Valid() && limiter.Valid() && fresh(limiter.owned - old(limiter.owned))
      ensures limiter.history == old(limiter.history) + Calls(Trace(deviceID, Heard(frames)))
      ensures limiter.verdicts == old(limiter.verdicts) + answers
        && |answers| == |Calls(Trace(deviceID, Heard(frames)))|
      ensures fates == Fates(deviceID, Heard(frames), answers)
      ensures hub.clients == Leave(old(hub.clients), deviceID, this) && hub.wg == old(hub.wg) - 1
      ensures table.status ==
        var served := StatusAfter(old(table.status), deviceID, Heard(frames), fates);
        if up && deviceID in served && IsCurrent(old(hub.clients), deviceID, this)
        then served[deviceID := Offline]
        else served
    {
      fates, answers := ReadLoop(frames, table, limiter);
      var was := hub.Unregister(this);
      if was {
        var _ := table.SetDeviceStatus(deviceID, Offline, up);
      }
      hub.wg := hub.wg - 1;
    }
  }
}
