/**
 The hub's table of active connections as functions on values: one entry per device,
 replaced by a newer connection and removed only by the connection it still names.
 Shared by the hub object and by the interleaving model of its callers.
 */
module HubTable {

  /** The status column of a device's row. */
  datatype Status = Online | Offline | Unknown

  predicate IsCurrent<D, C(==)>(table: map<D, C>, device: D, c: C) {
    device in table && table[device] == c
  }

  function Enter<D, C>(table: map<D, C>, device: D, c: C): map<D, C> {
    table[device := c]
  }

  function Leave<D, C(==)>(table: map<D, C>, device: D, c: C): map<D, C> {
    if IsCurrent(table, device, c) then table - {device} else table
  }

  datatype Op<D, C> = Enters(device: D, c: C) | Leaves(device: D, c: C)

  /** The table after registrations and unregistrations in any order. */
  function After<D, C(==)>(ops: seq<Op<D, C>>): map<D, C> {
    if ops == [] then map[]
    else
      var before := After(ops[..|ops| - 1]);
      match ops[|ops| - 1]
      case Enters(d, c) => Enter(before, d, c)
      case Leaves(d, c) => Leave(before, d, c)
  }

  /** The k-th operation entered `c`, and since then nobody entered for the device and `c` did not leave. */
  ghost predicate EnteredLast<D, C>(ops: seq<Op<D, C>>, k: nat, device: D, c: C)
    requires k < |ops|
  {
    && ops[k] == Enters(device, c)
    && forall j | k < j < |ops| :: ops[j].device == device ==> ops[j].Leaves? && ops[j].c != c
  }

  /**
   A connection is current exactly when it was the last to enter for its device and has not
   left since: once replaced it can neither be current nor remove its successor.
   */
  lemma {:induction false} CurrentIff<D, C>(ops: seq<Op<D, C>>, device: D, c: C)
    ensures IsCurrent(After(ops), device, c) <==> exists k: nat :: k < |ops| && EnteredLast(ops, k, device, c)
    ensures !IsCurrent(After(ops), device, c) ==> Leave(After(ops), device, c) == After(ops)
    decreases |ops|
  {
    if ops != [] {
      var last := |ops| - 1;
      var rest := ops[..last];
      CurrentIff(rest, device, c);
      forall k: nat | k < last
        ensures EnteredLast(ops, k, device, c) <==>
          EnteredLast(rest, k, device, c) && (ops[last].device == device ==> ops[last].Leaves? && ops[last].c != c)
      {
      }
      if ops[last] == Enters(device, c) {
        assert EnteredLast(ops, last, device, c);
      } else if IsCurrent(After(ops), device, c) {
        var k: nat :| k < |rest| && EnteredLast(rest, k, device, c);
        assert EnteredLast(ops, k, device, c);
      } else if k: nat :| k < |ops| && EnteredLast(ops, k, device, c) {
        assert EnteredLast(rest, k, device, c);
      }
    }
  }
}
