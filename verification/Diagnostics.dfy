/**
 Diagnostic requests: a row is created before the request is sent to the device, deleted if sending
 fails, and updated by whatever response arrives, whenever it arrives. Times are nanoseconds.
 */
module Diagnostics {

  type Id(==, !new)

  /** A nullable text column. */
  datatype Payload = Null | Text(text: string)

  datatype Row = Row(requestedAt: int, payload: Payload)

  datatype Status = Pending | TimedOut | Completed

  /** A null and an empty text both read back as no payload. */
  predicate HasPayload(row: Row) {
    row.payload.Text? && row.payload.text != ""
  }

  function StatusOf(row: Row, timeout: int, now: int): Status {
    if HasPayload(row) then Completed else if now - row.requestedAt > timeout then TimedOut else Pending
  }

  /** SQLite keeps whole seconds of the request time. */
  function Stored(time: int, grain: int): int
    requires grain > 0
  {
    time - time % grain
  }

  lemma AtLeastOnce(k: int, grain: int)
    requires k >= 1 && grain > 0
    ensures k * grain >= grain
  {
  }

  lemma Difference(q: int, d: int, grain: int)
    ensures (q - d) * grain == q * grain - d * grain
  {
  }

  lemma QuotientsAgree(q: int, d: int, r: int, grain: int)
    requires 0 <= r < grain && q * grain == d * grain + r
    ensures r == 0
  {
    Difference(q, d, grain);
    Difference(d, q, grain);
    if q > d {
      AtLeastOnce(q - d, grain);
    } else if q < d {
      AtLeastOnce(d - q, grain);
    }
  }

  lemma DividesWithRemainder(x: int, grain: int)
    requires grain > 0
    ensures x == x / grain * grain + x % grain && 0 <= x % grain < grain
  {
  }

  /** The stored time is the last whole unit of the store's precision that is not after the time. */
  lemma StoredRoundsDown(time: int, grain: int)
    requires grain > 0
    ensures Stored(time, grain) % grain == 0
    ensures time - grain < Stored(time, grain) <= time
  {
    var r := Stored(time, grain);
    DividesWithRemainder(time, grain);
    DividesWithRemainder(r, grain);
    QuotientsAgree(time / grain, r / grain, r % grain, grain);
  }

  // ---------------------------------------------------------------------------
  // The rows, and the request handler run on its own
  // ---------------------------------------------------------------------------

  /** Which of the handler's calls succeed. */
  datatype Faults = Faults(connected: bool, decoded: bool, created: bool, encoded: bool, sent: bool, deleted: bool)

  const SCOPES := {"full", "network", "processes", "storage"}

  predicate Created(f: Faults, scope: string) {
    f.connected && f.decoded && scope in SCOPES && f.created
  }

  /** The request reaches the device and is answered 202. */
  predicate Succeeds(f: Faults, scope: string) {
    Created(f, scope) && f.encoded && f.sent
  }

  /** What the handler leaves behind: a row when it answers 202, or when it could not delete the one it made. */
  function RowsAfter(rows: map<Id, Row>, id: Id, row: Row, f: Faults, scope: string): map<Id, Row> {
    if Succeeds(f, scope) || (Created(f, scope) && !f.deleted) then rows[id := row] else rows
  }

  class Store {
    var rows: map<Id, Row>
    const grain: int

    constructor (grain: int)
      ensures rows == map[] && this.grain == grain
    {
      rows, this.grain := map[], grain;
    }

    /** The request id is unique in the table. */
    method CreateDiagnosticRequest(id: Id, now: int, reachable: bool) returns (ok: bool)
      requires grain > 0
      modifies this
      ensures ok <==> reachable && id !in old(rows)
      ensures rows == if ok then old(rows)[id := Row(Stored(now, grain), Null)] else old(rows)
    {
      ok := reachable && id !in rows;
      if ok {
        rows := rows[id := Row(Stored(now, grain), Null)];
      }
    }

    method DeleteDiagnosticRequest(id: Id, reachable: bool) returns (ok: bool)
      modifies this
      ensures ok == reachable
      ensures rows == if reachable then old(rows) - {id} else old(rows)
    {
      ok := reachable;
      if reachable {
        rows := rows - {id};
      }
    }

    /** An update that meets no row is reported as not found; a later answer replaces an earlier one. */
    method SaveDiagnosticResult(id: Id, data: string) returns (found: bool)
      modifies this
      ensures found <==> id in old(rows)
      ensures rows == if id in old(rows) then old(rows)[id := old(rows)[id].(payload := Text(data))] else old(rows)
    {
      found := id in rows;
      if found {
        rows := rows[id := rows[id].(payload := Text(data))];
      }
    }

    method HandleRequestDiagnostics(id: Id, scope: string, now: int, f: Faults) returns (code: int)
      requires grain > 0 && id !in rows
      modifies this
      ensures code == 202 <==> Succeeds(f, scope)
      ensures !f.connected ==> code == 503
      ensures f.connected && !f.decoded ==> code == 400
      ensures f.connected && f.decoded && scope !in SCOPES ==> code == 422
      ensures f.connected && f.decoded && scope in SCOPES && !(f.created && f.encoded) ==> code == 500
      ensures Created(f, scope) && f.encoded && !f.sent ==> code == 503
      ensures rows == RowsAfter(old(rows), id, Row(Stored(now, grain), Null), f, scope)
      ensures f.connected && f.decoded ==>
        (code == 422 <==> scope != "full" && scope != "network" && scope != "processes" && scope != "storage")
      ensures code == 422 ==> rows == old(rows)
    {
      if !f.connected { return 503; }
      if !f.decoded { return 400; }
      if scope !in SCOPES { return 422; }
      var created := CreateDiagnosticRequest(id, now, f.created);
      if !created { return 500; }
      if !f.encoded {
        var _ := DeleteDiagnosticRequest(id, f.deleted);
        assert old(rows)[id := Row(Stored(now, grain), Null)] - {id} == old(rows);
        return 500;
      }
      if !f.sent {
        var _ := DeleteDiagnosticRequest(id, f.deleted);
        assert old(rows)[id := Row(Stored(now, grain), Null)] - {id} == old(rows);
        return 503;
      }
      return 202;
    }
  }

  /** One listed result: the row read, and the status that the listing fills in. */
  datatype Listed = Listed(row: Row, status: Status)

  method FillStatuses(results: array<Listed>, timeout: int, now: int)
    modifies results
    ensures forall i | 0 <= i < results.Length ::
      results[i] == Listed(old(results[i]).row, StatusOf(old(results[i]).row, timeout, now))
  {
    for i := 0 to results.Length
      invariant forall j | 0 <= j < i ::
        results[j] == Listed(old(results[j]).row, StatusOf(old(results[j]).row, timeout, now))
      invariant forall j | i <= j < results.Length :: results[j] == old(results[j])
    {
      results[i] := results[i].(status := StatusOf(results[i].row, timeout, now));
    }
  }

  // ---------------------------------------------------------------------------
  // Handlers and responses interleaved
  // ---------------------------------------------------------------------------

  datatype Phase = Inserted | Failed | Delivered | Accepted | Refused

  datatype State = State(now: int, rows: map<Id, Row>, requests: map<Id, Phase>)

  /** One store statement, one send, one reply, one response from a device, or time passing. */
  datatype Label =
    | Tick(to: int)
    | Create(id: Id, stored: bool)
    | Send(id: Id, sent: bool)
    | Answer(id: Id)
    | Delete(id: Id, deleted: bool)
    | Respond(id: Id, data: string)

  predicate At(s: State, id: Id, p: Phase) {
    id in s.requests && s.requests[id] == p
  }

  /** Request ids are fresh, and the clock does not go back. */
  predicate Enabled(s: State, l: Label) {
    match l
    case Tick(to) => s.now <= to
    case Create(id, _) => id !in s.requests
    case Send(id, _) => At(s, id, Inserted)
    case Answer(id) => At(s, id, Delivered)
    case Delete(id, _) => At(s, id, Failed)
    case Respond(_, _) => true
  }

  function Step(s: State, l: Label, grain: int): State
    requires grain > 0
  {
    match l
    case Tick(to) => s.(now := to)
    case Create(id, stored) =>
      if stored then s.(rows := s.rows[id := Row(Stored(s.now, grain), Null)], requests := s.requests[id := Inserted])
      else s.(requests := s.requests[id := Refused])
    case Send(id, sent) => s.(requests := s.requests[id := if sent then Delivered else Failed])
    case Answer(id) => s.(requests := s.requests[id := Accepted])
    case Delete(id, deleted) =>
      s.(rows := if deleted then s.rows - {id} else s.rows, requests := s.requests[id := Refused])
    case Respond(id, data) =>
      if id in s.rows then s.(rows := s.rows[id := s.rows[id].(payload := Text(data))]) else s
  }

  function Final(ls: seq<Label>, grain: int): State
    requires grain > 0
  {
    if ls == [] then State(0, map[], map[]) else Step(Final(ls[..|ls| - 1], grain), ls[|ls| - 1], grain)
  }

  ghost predicate Runs(ls: seq<Label>, grain: int)
    requires grain > 0
  {
    ls == [] || (Runs(ls[..|ls| - 1], grain) && Enabled(Final(ls[..|ls| - 1], grain), ls[|ls| - 1]))
  }

  // ---------------------------------------------------------------------------
  // Conservation of rows
  // ---------------------------------------------------------------------------

  /** One request: it has a row until it is refused, and afterwards only if its deletion failed. */
  ghost predicate InvAt(ls: seq<Label>, s: State, id: Id) {
    && (id in s.rows ==> id in s.requests)
    && (id in s.requests && s.requests[id] != Refused ==> id in s.rows)
    && (At(s, id, Accepted) <==> Answer(id) in ls)
    && (At(s, id, Refused) ==> (id in s.rows <==> Delete(id, false) in ls))
    && (Delete(id, false) in ls ==> At(s, id, Refused))
  }

  ghost predicate Inv(ls: seq<Label>, s: State) {
    forall id :: InvAt(ls, s, id)
  }

  lemma StepKeepsInvAt(ls: seq<Label>, s: State, l: Label, id: Id, grain: int)
    requires grain > 0 && InvAt(ls, s, id) && Enabled(s, l)
    ensures InvAt(ls + [l], Step(s, l, grain), id)
  {
    assert forall x :: x in ls + [l] <==> x in ls || x == l;
  }

  /** One more label. */
  lemma OneMore(ls: seq<Label>, l: Label, grain: int)
    requires grain > 0
    ensures Final(ls + [l], grain) == Step(Final(ls, grain), l, grain)
    ensures Runs(ls + [l], grain) <==> Runs(ls, grain) && Enabled(Final(ls, grain), l)
  {
    assert (ls + [l])[..|ls + [l]| - 1] == ls;
  }

  lemma {:induction false} RunKeepsInv(ls: seq<Label>, grain: int)
    requires grain > 0 && Runs(ls, grain)
    ensures Inv(ls, Final(ls, grain))
    decreases |ls|
  {
    if ls != [] {
      var rest, l := ls[..|ls| - 1], ls[|ls| - 1];
      RunKeepsInv(rest, grain);
      assert ls == rest + [l];
      forall id ensures InvAt(ls, Final(ls, grain), id) {
        assert InvAt(rest, Final(rest, grain), id);
        StepKeepsInvAt(rest, Final(rest, grain), l, id, grain);
      }
    }
  }

  /** No handler is between creating a row and answering its request. */
  ghost predicate Quiescent(s: State) {
    forall id | id in s.requests :: s.requests[id] in {Accepted, Refused}
  }

  /** Once no handler is running, the rows are the requests answered 202 and those whose deletion failed. */
  lemma RowsAtQuiescence(ls: seq<Label>, grain: int)
    requires grain > 0 && Runs(ls, grain) && Quiescent(Final(ls, grain))
    ensures forall id :: id in Final(ls, grain).rows <==> Answer(id) in ls || Delete(id, false) in ls
  {
    RunKeepsInv(ls, grain);
    var s := Final(ls, grain);
    forall id ensures id in s.rows <==> Answer(id) in ls || Delete(id, false) in ls {
      assert InvAt(ls, s, id);
    }
  }

  /** The rows are exactly the requests answered 202 if and only if every deletion succeeded. */
  lemma RowsAreTheAcceptedIff(ls: seq<Label>, grain: int)
    requires grain > 0 && Runs(ls, grain) && Quiescent(Final(ls, grain))
    ensures (forall id :: id in Final(ls, grain).rows <==> Answer(id) in ls)
      <==> (forall id :: Delete(id, false) !in ls)
  {
    RunKeepsInv(ls, grain);
    RowsAtQuiescence(ls, grain);
    forall id | Delete(id, false) in ls ensures Answer(id) !in ls {
      assert InvAt(ls, Final(ls, grain), id);
    }
  }

  /** The last time that the labels tell. */
  function Clock(ls: seq<Label>): int {
    if ls == [] then 0 else if ls[|ls| - 1].Tick? then ls[|ls| - 1].to else Clock(ls[..|ls| - 1])
  }

  /** What a label sequence says about one row: made when, and answered last with what. */
  function History(ls: seq<Label>, id: Id, grain: int): Row
    requires grain > 0
  {
    if ls == [] then Row(0, Null)
    else
      var rest, l := ls[..|ls| - 1], ls[|ls| - 1];
      if l == Create(id, true) then Row(Stored(Clock(rest), grain), Null)
      else if l.Respond? && l.id == id then History(rest, id, grain).(payload := Text(l.data))
      else History(rest, id, grain)
  }

  /** A row is what its own history says, whatever the other requests did. */
  lemma {:induction false} RowIsItsHistory(ls: seq<Label>, id: Id, grain: int)
    requires grain > 0 && Runs(ls, grain)
    ensures Final(ls, grain).now == Clock(ls)
    ensures id in Final(ls, grain).rows ==> Final(ls, grain).rows[id] == History(ls, id, grain)
    decreases |ls|
  {
    if ls != [] {
      RowIsItsHistory(ls[..|ls| - 1], id, grain);
    }
  }

  lemma {:induction false} RunsPrefix(ls: seq<Label>, more: seq<Label>, grain: int)
    requires grain > 0 && Runs(ls + more, grain)
    ensures Runs(ls, grain)
    decreases |more|
  {
    if more == [] {
      assert ls + more == ls;
    } else {
      assert (ls + more)[..|ls + more| - 1] == ls + more[..|more| - 1];
      RunsPrefix(ls, more[..|more| - 1], grain);
    }
  }

  /** A request answered 202 keeps its row, and its request time, for ever. */
  lemma {:induction false} AcceptedRowsStay(ls: seq<Label>, more: seq<Label>, id: Id, grain: int)
    requires grain > 0 && Runs(ls + more, grain) && Answer(id) in ls
    ensures Runs(ls, grain) && id in Final(ls, grain).rows && id in Final(ls + more, grain).rows
    ensures Final(ls + more, grain).rows[id].requestedAt == Final(ls, grain).rows[id].requestedAt
    decreases |more|
  {
    RunsPrefix(ls, more, grain);
    RunKeepsInv(ls, grain);
    RunKeepsInv(ls + more, grain);
    assert InvAt(ls, Final(ls, grain), id) && InvAt(ls + more, Final(ls + more, grain), id);
    if more == [] {
      assert ls + more == ls;
    } else {
      var rest := more[..|more| - 1];
      assert (ls + more)[..|ls + more| - 1] == ls + rest;
      AcceptedRowsStay(ls, rest, id, grain);
      RunKeepsInv(ls + rest, grain);
      assert InvAt(ls + rest, Final(ls + rest, grain), id);
    }
  }

  // ---------------------------------------------------------------------------
  // Derived status
  // ---------------------------------------------------------------------------

  /**
   One step takes a row's derived status back exactly when a response without data replaces a
   payload: the row is found completed, and then reads as never answered.
   */
  lemma StatusGoesBackIff(s: State, l: Label, id: Id, timeout: int, grain: int)
    requires grain > 0 && Enabled(s, l) && id in s.rows && id in Step(s, l, grain).rows && id in s.requests
    ensures var t := Step(s, l, grain);
      var before, after := StatusOf(s.rows[id], timeout, s.now), StatusOf(t.rows[id], timeout, t.now);
      (before == Completed && after != Completed) || (before == TimedOut && after == Pending)
      <==> l == Respond(id, "") && StatusOf(s.rows[id], timeout, s.now) == Completed
  {
    var t := Step(s, l, grain);
    assert s.now <= t.now;
    if l.Respond? && l.id == id {
      assert t.rows[id].payload == Text(l.data);
    } else {
      assert t.rows[id] == s.rows[id];
    }
  }

  /** While responses carry data, status only moves pending to timed out to completed. */
  lemma {:induction false} StatusMovesForward(ls: seq<Label>, more: seq<Label>, id: Id, timeout: int, grain: int)
    requires grain > 0 && Runs(ls + more, grain) && Answer(id) in ls
    requires Respond(id, "") !in more
    ensures id in Final(ls, grain).rows && id in Final(ls + more, grain).rows
    ensures var s, t := Final(ls, grain), Final(ls + more, grain);
      var before, after := StatusOf(s.rows[id], timeout, s.now), StatusOf(t.rows[id], timeout, t.now);
      (before == Completed ==> after == Completed) && (before == TimedOut ==> after != Pending)
    decreases |more|
  {
    AcceptedRowsStay(ls, more, id, grain);
    if more == [] {
      assert ls + more == ls;
    } else {
      var rest, l := more[..|more| - 1], more[|more| - 1];
      assert (ls + more)[..|ls + more| - 1] == ls + rest;
      StatusMovesForward(ls, rest, id, timeout, grain);
      RunKeepsInv(ls + rest, grain);
      assert InvAt(ls + rest, Final(ls + rest, grain), id);
      assert l in more;
      StatusGoesBackIff(Final(ls + rest, grain), l, id, timeout, grain);
    }
  }

  /** An accepted, completed request that a second, empty answer turns back to pending. */
  lemma EmptyAnswerUndoesCompletion(id: Id, timeout: int, grain: int)
    requires grain > 0 && timeout >= 0
    ensures var ls := [Create(id, true), Send(id, true), Answer(id), Respond(id, "{}")];
      var s, t := Final(ls, grain), Final(ls + [Respond(id, "")], grain);
      && Runs(ls + [Respond(id, "")], grain)
      && id in s.rows && StatusOf(s.rows[id], timeout, s.now) == Completed
      && id in t.rows && StatusOf(t.rows[id], timeout, t.now) == Pending
  {
    var a, b, c, d := Create(id, true), Send(id, true), Answer(id), Respond(id, "{}");
    OneMore([], a, grain);
    OneMore([a], b, grain);
    OneMore([a, b], c, grain);
    OneMore([a, b, c], d, grain);
    OneMore([a, b, c, d], Respond(id, ""), grain);
    assert [] + [a] == [a] && [a] + [b] == [a, b] && [a, b] + [c] == [a, b, c] && [a, b, c] + [d] == [a, b, c, d];
  }

  lemma {:induction false} HistoryStartsAtCreation(ls: seq<Label>, more: seq<Label>, id: Id, grain: int)
    requires grain > 0 && Runs(ls + [Create(id, true)] + more, grain)
    ensures id in Final(ls + [Create(id, true)] + more, grain).requests
    ensures History(ls + [Create(id, true)] + more, id, grain).requestedAt == Stored(Clock(ls), grain)
    decreases |more|
  {
    var all := ls + [Create(id, true)] + more;
    if more == [] {
      assert all[..|all| - 1] == ls;
    } else {
      assert all[..|all| - 1] == ls + [Create(id, true)] + more[..|more| - 1];
      HistoryStartsAtCreation(ls, more[..|more| - 1], id, grain);
    }
  }

  lemma {:induction false} LastAnswerDecides(ls: seq<Label>, more: seq<Label>, id: Id, grain: int)
    requires grain > 0 && Runs(ls + [Create(id, true)] + more, grain)
    ensures HasPayload(History(ls + [Create(id, true)] + more, id, grain)) <==>
      exists k :: (
        && 0 <= k < |more| && more[k].Respond? && more[k].id == id && more[k].data != ""
        && forall j | k < j < |more| :: !(more[j].Respond? && more[j].id == id))
    decreases |more|
  {
    var all := ls + [Create(id, true)] + more;
    if more == [] {
      assert all[|all| - 1] == Create(id, true);
    } else {
      var rest, l := more[..|more| - 1], more[|more| - 1];
      assert all[..|all| - 1] == ls + [Create(id, true)] + rest && all[|all| - 1] == l;
      HistoryStartsAtCreation(ls, rest, id, grain);
      LastAnswerDecides(ls, rest, id, grain);
      assert more == rest + [l];
    }
  }

  /**
   The status of a request, from what happened: completed exactly when the last answer to it carried data; else timed
   out exactly when more than the timeout has passed since the time stored for it, which is the request's own time
   rounded down to the precision of the store; else pending.
   */
  lemma StatusIsItsHistory(ls: seq<Label>, more: seq<Label>, id: Id, timeout: int, grain: int)
      returns (requestedAt: int)
    requires grain > 0 && Runs(ls + [Create(id, true)] + more, grain)
    requires id in Final(ls + [Create(id, true)] + more, grain).rows
    ensures requestedAt % grain == 0 && Clock(ls) - grain < requestedAt <= Clock(ls)
    ensures var s := Final(ls + [Create(id, true)] + more, grain);
      var answered := exists k :: (
        && 0 <= k < |more| && more[k].Respond? && more[k].id == id && more[k].data != ""
        && forall j | k < j < |more| :: !(more[j].Respond? && more[j].id == id));
      var status := StatusOf(s.rows[id], timeout, Clock(ls + [Create(id, true)] + more));
      && (status == Completed <==> answered)
      && (status == TimedOut <==> !answered && Clock(ls + [Create(id, true)] + more) > requestedAt + timeout)
  {
    RowIsItsHistory(ls + [Create(id, true)] + more, id, grain);
    HistoryStartsAtCreation(ls, more, id, grain);
    LastAnswerDecides(ls, more, id, grain);
    StoredRoundsDown(Clock(ls), grain);
    requestedAt := Stored(Clock(ls), grain);
  }

  /**
   Without a payload a row reads as timed out once the timeout has passed since the request, and
   never before the timeout less the precision of the stored time.
   */
  lemma TimeoutIsWithinAGrain(ls: seq<Label>, more: seq<Label>, id: Id, timeout: int, grain: int)
    requires grain > 0 && Runs(ls + [Create(id, true)] + more, grain)
    requires id in Final(ls + [Create(id, true)] + more, grain).rows
    requires !HasPayload(Final(ls + [Create(id, true)] + more, grain).rows[id])
    ensures var s := Final(ls + [Create(id, true)] + more, grain);
      var status := StatusOf(s.rows[id], timeout, s.now);
      && (s.now - Clock(ls) > timeout ==> status == TimedOut)
      && (status == TimedOut ==> s.now - Clock(ls) > timeout - grain)
  {
    RowIsItsHistory(ls + [Create(id, true)] + more, id, grain);
    HistoryStartsAtCreation(ls, more, id, grain);
  }

  // ---------------------------------------------------------------------------
  // The handler on its own is one of the runs
  // ---------------------------------------------------------------------------

  /** The handler's statements as steps, once the request has been found valid. */
  function HandlerSteps(id: Id, f: Faults): seq<Label> {
    if !f.created then [Create(id, false)]
    else if f.encoded && f.sent then [Create(id, true), Send(id, true), Answer(id)]
    else [Create(id, true), Send(id, false), Delete(id, f.deleted)]
  }

  lemma MadeAndEnded(ls: seq<Label>, id: Id, sent: bool, deleted: bool, grain: int)
    requires grain > 0 && Runs(ls, grain) && id !in Final(ls, grain).requests && id !in Final(ls, grain).rows
    ensures var s, end := Final(ls, grain), if sent then Answer(id) else Delete(id, deleted);
      var all := ls + [Create(id, true), Send(id, sent), end];
      && Runs(all, grain)
      && Final(all, grain).rows == (if sent || !deleted then s.rows[id := Row(Stored(s.now, grain), Null)] else s.rows)
      && Final(all, grain).requests == s.requests[id := if sent then Accepted else Refused]
  {
    hide Final, Runs, Stored;
    var s, a, b := Final(ls, grain), Create(id, true), Send(id, sent);
    var c := if sent then Answer(id) else Delete(id, deleted);
    OneMore(ls, a, grain);
    OneMore(ls + [a], b, grain);
    OneMore(ls + [a] + [b], c, grain);
    assert ls + [a] + [b] + [c] == ls + [a, b, c];
    var made := s.rows[id := Row(Stored(s.now, grain), Null)];
    assert Final(ls + [a] + [b], grain) == State(s.now, made, s.requests[id := if sent then Delivered else Failed]);
    assert made - {id} == s.rows;
  }

  lemma HandlerIsARun(ls: seq<Label>, id: Id, scope: string, f: Faults, grain: int)
    requires grain > 0 && Runs(ls, grain) && id !in Final(ls, grain).requests
    requires f.connected && f.decoded && scope in SCOPES
    ensures Runs(ls + HandlerSteps(id, f), grain)
    ensures var s, t := Final(ls, grain), Final(ls + HandlerSteps(id, f), grain);
      && t.rows == RowsAfter(s.rows, id, Row(Stored(s.now, grain), Null), f, scope)
      && (At(t, id, Accepted) <==> Succeeds(f, scope))
      && t.requests.Keys == s.requests.Keys + {id}
  {
    var s := Final(ls, grain);
    assert id !in s.rows by {
      RunKeepsInv(ls, grain);
      assert InvAt(ls, s, id);
    }
    hide Final, Runs, Inv, InvAt;
    if f.created {
      MadeAndEnded(ls, id, f.encoded && f.sent, f.deleted, grain);
    } else {
      OneMore(ls, Create(id, false), grain);
    }
  }
}
