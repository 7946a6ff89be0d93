/**
 Keyset pagination of the device list, for any row type and any strict total order: one
 page is the rows below the cursor, sorted descending, cut after `limit`, with one extra
 row fetched to learn whether another page exists.
 */
module Keyset {

  datatype Option<+T> = None | Some(value: T)

  datatype Page<+R> = Page(rows: seq<R>, next: Option<R>)

  ghost predicate StrictTotalOrder<R(!new)>(lt: (R, R) -> bool) {
    && (forall a :: !lt(a, a))
    && (forall a, b, c :: lt(a, b) && lt(b, c) ==> lt(a, c))
    && (forall a, b :: a == b || lt(a, b) || lt(b, a))
  }

  /** The WHERE clause: everything on the first page, then what is strictly below the cursor. */
  function Below<R(==)>(lt: (R, R) -> bool, table: set<R>, cursor: Option<R>): set<R> {
    match cursor
    case None => table
    case Some(c) => set r | r in table && lt(r, c)
  }

  ghost predicate IsGreatest<R>(lt: (R, R) -> bool, s: set<R>, m: R) {
    m in s && forall r | r in s :: r == m || lt(r, m)
  }

  lemma HasGreatest<R(!new)>(lt: (R, R) -> bool, s: set<R>)
    requires StrictTotalOrder(lt) && s != {}
    ensures exists m :: IsGreatest(lt, s, m)
    decreases |s|
  {
    var r :| r in s;
    var rest := s - {r};
    assert forall x | x in s :: x == r || x in rest;
    if rest == {} {
      assert IsGreatest(lt, s, r);
    } else {
      HasGreatest(lt, rest);
      var n :| IsGreatest(lt, rest, n);
      assert IsGreatest(lt, s, if lt(n, r) then r else n);
    }
  }

  /** The ORDER BY clause: the rows from greatest to least. */
  ghost function Descending<R(!new)>(lt: (R, R) -> bool, s: set<R>): seq<R>
    requires StrictTotalOrder(lt)
    decreases |s|
  {
    if s == {} then []
    else
      HasGreatest(lt, s);
      var m :| IsGreatest(lt, s, m);
      [m] + Descending(lt, s - {m})
  }

  ghost function ListDevices<R(!new)>(lt: (R, R) -> bool, table: set<R>, limit: nat, cursor: Option<R>): Page<R>
    requires StrictTotalOrder(lt) && limit >= 1
  {
    var sorted := Descending(lt, Below(lt, table, cursor));
    var rows := if |sorted| > limit + 1 then sorted[..limit + 1] else sorted;
    if |rows| > limit then Page(rows[..limit], Some(rows[limit - 1])) else Page(rows, None)
  }

  // ---------------------------------------------------------------------------
  // Descending sequences
  // ---------------------------------------------------------------------------

  ghost predicate StrictlyDescending<R>(lt: (R, R) -> bool, rows: seq<R>) {
    forall i, j | 0 <= i < j < |rows| :: lt(rows[j], rows[i])
  }

  lemma GreatestFirst<R(!new)>(lt: (R, R) -> bool, s: set<R>) returns (m: R)
    requires StrictTotalOrder(lt) && s != {}
    ensures IsGreatest(lt, s, m) && Descending(lt, s) == [m] + Descending(lt, s - {m})
  {
    m := Descending(lt, s)[0];
  }

  lemma GreatestThenRest<R(!new)>(lt: (R, R) -> bool, s: set<R>, m: R, rest: seq<R>)
    requires StrictTotalOrder(lt) && IsGreatest(lt, s, m)
    requires StrictlyDescending(lt, rest) && forall r :: r in rest <==> r in s - {m}
    ensures StrictlyDescending(lt, [m] + rest) && forall r :: r in [m] + rest <==> r in s
  {
    hide StrictTotalOrder;
    var all := [m] + rest;
    forall i, j | 0 <= i < j < |all| ensures lt(all[j], all[i]) {
      assert all[j] == rest[j - 1] && rest[j - 1] in rest;
    }
    forall r ensures r in all <==> r in s {
      assert r in all <==> r == m || r in rest;
    }
  }

  lemma {:induction false} DescendingSorts<R(!new)>(lt: (R, R) -> bool, s: set<R>)
    requires StrictTotalOrder(lt)
    ensures StrictlyDescending(lt, Descending(lt, s))
    ensures forall r :: r in Descending(lt, s) <==> r in s
    ensures |Descending(lt, s)| == |s|
    decreases |s|
  {
    if s != {} {
      var m := GreatestFirst(lt, s);
      hide StrictTotalOrder, Descending, StrictlyDescending;
      DescendingSorts(lt, s - {m});
      GreatestThenRest(lt, s, m, Descending(lt, s - {m}));
    }
  }

  lemma FirstIsMember<R>(a: seq<R>)
    requires a != []
    ensures a[0] in a
  {
  }

  lemma TailMembership<R(!new)>(lt: (R, R) -> bool, a: seq<R>, r: R)
    requires StrictTotalOrder(lt) && StrictlyDescending(lt, a) && a != []
    ensures r in a[1..] <==> r in a && r != a[0]
  {
    if r in a && r != a[0] {
      var i :| 0 <= i < |a| && a[i] == r;
      assert a[1..][i - 1] == r;
    }
    if r in a[1..] {
      var i :| 0 <= i < |a[1..]| && a[1..][i] == r;
      assert a[i + 1] == r && lt(a[i + 1], a[0]);
    }
  }

  /** A set has only one strictly descending listing. */
  lemma {:induction false} DescendingIsUnique<R(!new)>(lt: (R, R) -> bool, a: seq<R>, b: seq<R>)
    requires StrictTotalOrder(lt) && StrictlyDescending(lt, a) && StrictlyDescending(lt, b)
    requires forall r :: r in a <==> r in b
    ensures a == b
    decreases |a|
  {
    if b != [] {
      FirstIsMember(b);
    }
    if a != [] {
      assert a[0] in a && a[0] in b;
      assert b[0] in b && b[0] in a;
      assert a[0] == b[0];
      forall r ensures r in a[1..] <==> r in b[1..] {
        TailMembership(lt, a, r);
        TailMembership(lt, b, r);
      }
      DescendingIsUnique(lt, a[1..], b[1..]);
    }
  }

  /** What lies below the k-th row of a listing is the rest of the listing. */
  lemma BelowARow<R(!new)>(lt: (R, R) -> bool, s: set<R>, k: nat)
    requires StrictTotalOrder(lt) && k < |Descending(lt, s)|
    ensures Descending(lt, Below(lt, s, Some(Descending(lt, s)[k]))) == Descending(lt, s)[k + 1..]
  {
    var all := Descending(lt, s);
    var below := Below(lt, s, Some(all[k]));
    DescendingSorts(lt, s);
    DescendingSorts(lt, below);
    forall r ensures r in Descending(lt, below) <==> r in all[k + 1..] {
      if r in below {
        var i :| 0 <= i < |all| && all[i] == r;
        assert i > k;
        assert all[k + 1..][i - k - 1] == r;
      }
      if r in all[k + 1..] {
        var i :| 0 <= i < |all[k + 1..]| && all[k + 1..][i] == r;
        assert all[k + 1 + i] == r && lt(r, all[k]);
      }
    }
    DescendingIsUnique(lt, Descending(lt, below), all[k + 1..]);
  }

  // ---------------------------------------------------------------------------
  // One page, in terms of the sorted table
  // ---------------------------------------------------------------------------

  lemma BelowTwice<R(!new)>(lt: (R, R) -> bool, table: set<R>, cursor: Option<R>, r: R)
    requires StrictTotalOrder(lt) && r in Below(lt, table, cursor)
    ensures Below(lt, Below(lt, table, cursor), Some(r)) == Below(lt, table, Some(r))
  {
  }

  /** A page is the first `limit` rows below its cursor; there is a next page exactly when rows are left over. */
  lemma PageIsPrefix<R(!new)>(lt: (R, R) -> bool, table: set<R>, limit: nat, cursor: Option<R>)
    requires StrictTotalOrder(lt) && limit >= 1
    ensures var sorted, page := Descending(lt, Below(lt, table, cursor)), ListDevices(lt, table, limit, cursor);
      && (page.next.None? <==> |sorted| <= limit)
      && (page.next.None? ==> page.rows == sorted)
      && (page.next.Some? ==>
            && page.rows == sorted[..limit]
            && page.next.value == sorted[limit - 1]
            && page.next.value in Below(lt, table, cursor)
            && Descending(lt, Below(lt, table, page.next)) == sorted[limit..])
  {
    hide StrictTotalOrder, Descending, StrictlyDescending;
    var below := Below(lt, table, cursor);
    var sorted, page := Descending(lt, below), ListDevices(lt, table, limit, cursor);
    DescendingSorts(lt, below);
    if page.next.Some? {
      assert sorted[..limit + 1][..limit] == sorted[..limit];
      var last := sorted[limit - 1];
      assert last in sorted;
      BelowARow(lt, below, limit - 1);
      BelowTwice(lt, table, cursor, last);
    }
  }

  lemma NextPageIsSmaller<R(!new)>(lt: (R, R) -> bool, table: set<R>, limit: nat, cursor: Option<R>)
    requires StrictTotalOrder(lt) && limit >= 1 && ListDevices(lt, table, limit, cursor).next.Some?
    ensures |Below(lt, table, ListDevices(lt, table, limit, cursor).next)| < |Below(lt, table, cursor)|
  {
    PageIsPrefix(lt, table, limit, cursor);
    var next := ListDevices(lt, table, limit, cursor).next;
    DescendingSorts(lt, Below(lt, table, cursor));
    DescendingSorts(lt, Below(lt, table, next));
  }

  // ---------------------------------------------------------------------------
  // Walking a table nobody changes
  // ---------------------------------------------------------------------------

  /** A client that follows `next` until there is none. */
  ghost function Walk<R(!new)>(lt: (R, R) -> bool, table: set<R>, limit: nat, cursor: Option<R>): seq<R>
    requires StrictTotalOrder(lt) && limit >= 1
    decreases |Below(lt, table, cursor)|
  {
    var page := ListDevices(lt, table, limit, cursor);
    if page.next.None? then page.rows
    else
      NextPageIsSmaller(lt, table, limit, cursor);
      page.rows + Walk(lt, table, limit, page.next)
  }

  lemma {:induction false} WalkFromCursor<R(!new)>(lt: (R, R) -> bool, table: set<R>, limit: nat, cursor: Option<R>)
    requires StrictTotalOrder(lt) && limit >= 1
    ensures Walk(lt, table, limit, cursor) == Descending(lt, Below(lt, table, cursor))
    decreases |Below(lt, table, cursor)|
  {
    var sorted, page := Descending(lt, Below(lt, table, cursor)), ListDevices(lt, table, limit, cursor);
    PageIsPrefix(lt, table, limit, cursor);
    if page.next.Some? {
      NextPageIsSmaller(lt, table, limit, cursor);
      WalkFromCursor(lt, table, limit, page.next);
      assert sorted == sorted[..limit] + sorted[limit..];
    }
  }

  /** The pages of a walk, joined, are the whole table in descending order, each row once. */
  lemma WalkIsTheTable<R(!new)>(lt: (R, R) -> bool, table: set<R>, limit: nat)
    requires StrictTotalOrder(lt) && limit >= 1
    ensures Walk(lt, table, limit, None) == Descending(lt, table)
    ensures StrictlyDescending(lt, Walk(lt, table, limit, None))
    ensures forall r :: r in Walk(lt, table, limit, None) <==> r in table
    ensures |Walk(lt, table, limit, None)| == |table|
  {
    WalkFromCursor(lt, table, limit, None);
    DescendingSorts(lt, table);
  }

  // ---------------------------------------------------------------------------
  // Walking a table that others insert into
  // ---------------------------------------------------------------------------

  datatype Walked<R> = Walked(rows: seq<R>, complete: bool)

  /** The i-th page is fetched from `tables[i]`; the walk is cut short if the tables run out first. */
  ghost function WalkAcross<R(!new)>(lt: (R, R) -> bool, tables: seq<set<R>>, limit: nat, cursor: Option<R>): Walked<R>
    requires StrictTotalOrder(lt) && limit >= 1
    decreases |tables|
  {
    if tables == [] then Walked([], false)
    else
      var page := ListDevices(lt, tables[0], limit, cursor);
      if page.next.None? then Walked(page.rows, true)
      else
        var rest := WalkAcross(lt, tables[1..], limit, page.next);
        Walked(page.rows + rest.rows, rest.complete)
  }

  ghost predicate Growing<R>(tables: seq<set<R>>) {
    forall i, j | 0 <= i <= j < |tables| :: tables[i] <= tables[j]
  }

  lemma RestIsBelowCursor<R(!new)>(lt: (R, R) -> bool, table: set<R>, sorted: seq<R>, limit: nat, next: Option<R>, r: R)
    requires StrictTotalOrder(lt) && next.Some?
    requires r in sorted && limit <= |sorted| && sorted[limit..] == Descending(lt, Below(lt, table, next))
    ensures r in sorted[..limit] || r in Below(lt, table, next)
  {
    DescendingSorts(lt, Below(lt, table, next));
    var i :| 0 <= i < |sorted| && sorted[i] == r;
    if i < limit {
      assert sorted[..limit][i] == r;
    } else {
      assert sorted[limit..][i - limit] == r;
    }
  }

  /** One fetch, then the rest of the walk on the later tables. */
  lemma WalkAcrossStep<R(!new)>(lt: (R, R) -> bool, tables: seq<set<R>>, limit: nat, cursor: Option<R>)
    requires StrictTotalOrder(lt) && limit >= 1 && tables != [] && Growing(tables)
    ensures Growing(tables[1..])
    ensures var page := ListDevices(lt, tables[0], limit, cursor);
      && StrictlyDescending(lt, page.rows)
      && (forall r | r in page.rows :: r in Below(lt, tables[|tables| - 1], cursor))
      && (page.next.None? ==> forall r | r in Below(lt, tables[0], cursor) :: r in page.rows)
      && (page.next.Some? ==>
            && |page.rows| == limit && page.rows[limit - 1] == page.next.value
            && Below(lt, tables[|tables| - 1], page.next) <= Below(lt, tables[|tables| - 1], cursor)
            && (forall r | r in Below(lt, tables[0], cursor) :: r in page.rows || r in Below(lt, tables[0], page.next)))
  {
    var page, below := ListDevices(lt, tables[0], limit, cursor), Below(lt, tables[0], cursor);
    var sorted := Descending(lt, below);
    PageIsPrefix(lt, tables[0], limit, cursor);
    DescendingSorts(lt, below);
    assert forall r | r in page.rows :: r in sorted;
    assert forall r | r in below :: r in Below(lt, tables[|tables| - 1], cursor);
    forall r | page.next.Some? && r in below ensures r in page.rows || r in Below(lt, tables[0], page.next) {
      RestIsBelowCursor(lt, tables[0], sorted, limit, page.next, r);
    }
  }

  lemma SplicePages<R(!new)>(lt: (R, R) -> bool, rows: seq<R>, more: seq<R>, last: R)
    requires StrictTotalOrder(lt) && StrictlyDescending(lt, rows) && StrictlyDescending(lt, more)
    requires rows != [] && rows[|rows| - 1] == last && forall r | r in more :: lt(r, last)
    ensures StrictlyDescending(lt, rows + more)
  {
    forall i, j | 0 <= i < j < |rows + more| ensures lt((rows + more)[j], (rows + more)[i]) {
      if j >= |rows| {
        assert more[j - |rows|] in more;
        assert i < |rows| ==> rows[i] == last || lt(last, rows[i]);
      }
    }
  }

  /** Inserts never make a walk repeat a row, leave the order, or return a row that is not there in the end. */
  lemma {:induction false} InsertsKeepTheOrder<R(!new)>(lt: (R, R) -> bool, tables: seq<set<R>>, limit: nat,
      cursor: Option<R>)
    requires StrictTotalOrder(lt) && limit >= 1 && tables != [] && Growing(tables)
    ensures var w := WalkAcross(lt, tables, limit, cursor);
      StrictlyDescending(lt, w.rows) && forall r | r in w.rows :: r in Below(lt, tables[|tables| - 1], cursor)
    decreases |tables|
  {
    WalkAcrossStep(lt, tables, limit, cursor);
    hide ListDevices, Growing, StrictlyDescending;
    var page := ListDevices(lt, tables[0], limit, cursor);
    if page.next.Some? && tables[1..] != [] {
      InsertsKeepTheOrder(lt, tables[1..], limit, page.next);
      assert tables[1..][|tables| - 2] == tables[|tables| - 1];
      SplicePages(lt, page.rows, WalkAcross(lt, tables[1..], limit, page.next).rows, page.next.value);
    } else if page.next.Some? {
      assert page.rows + [] == page.rows;
    }
  }

  /** A completed walk returns every row that was there when it began. */
  lemma {:induction false} InsertsHideNothing<R(!new)>(lt: (R, R) -> bool, tables: seq<set<R>>, limit: nat,
      cursor: Option<R>, r: R)
    requires StrictTotalOrder(lt) && limit >= 1 && tables != [] && Growing(tables)
    requires WalkAcross(lt, tables, limit, cursor).complete && r in Below(lt, tables[0], cursor)
    ensures r in WalkAcross(lt, tables, limit, cursor).rows
    decreases |tables|
  {
    WalkAcrossStep(lt, tables, limit, cursor);
    var page := ListDevices(lt, tables[0], limit, cursor);
    if page.next.Some? && r !in page.rows {
      assert r in Below(lt, tables[1], page.next);
      InsertsHideNothing(lt, tables[1..], limit, page.next, r);
    }
  }

  /** Every fetch of an unfinished walk brings a full page. */
  lemma {:induction false} UnfinishedWalkIsFull<R(!new)>(lt: (R, R) -> bool, tables: seq<set<R>>, limit: nat,
      cursor: Option<R>)
    requires StrictTotalOrder(lt) && limit >= 1 && Growing(tables)
    requires !WalkAcross(lt, tables, limit, cursor).complete
    ensures |WalkAcross(lt, tables, limit, cursor).rows| == limit * |tables|
    decreases |tables|
  {
    if tables != [] {
      WalkAcrossStep(lt, tables, limit, cursor);
      UnfinishedWalkIsFull(lt, tables[1..], limit, ListDevices(lt, tables[0], limit, cursor).next);
      assert limit * |tables| == limit + limit * (|tables| - 1);
    }
  }

  /** With inserts between any two fetches: strictly descending, nothing twice, nothing missed. */
  lemma WalkSurvivesInserts<R(!new)>(lt: (R, R) -> bool, tables: seq<set<R>>, limit: nat)
    requires StrictTotalOrder(lt) && limit >= 1 && tables != [] && Growing(tables)
    requires WalkAcross(lt, tables, limit, None).complete
    ensures var rows := WalkAcross(lt, tables, limit, None).rows;
      && StrictlyDescending(lt, rows)
      && (forall i, j | 0 <= i < j < |rows| :: rows[i] != rows[j])
      && (forall r | r in tables[0] :: r in rows)
      && (forall r | r in rows :: r in tables[|tables| - 1])
  {
    InsertsKeepTheOrder(lt, tables, limit, None);
    forall r | r in tables[0] ensures r in WalkAcross(lt, tables, limit, None).rows {
      InsertsHideNothing(lt, tables, limit, None, r);
    }
  }

  lemma {:induction false} DistinctRowsFit<R(!new)>(lt: (R, R) -> bool, rows: seq<R>, s: set<R>)
    requires StrictTotalOrder(lt) && StrictlyDescending(lt, rows) && forall r | r in rows :: r in s
    ensures |rows| <= |s|
    decreases |rows|
  {
    if rows != [] {
      forall r | r in rows[1..] ensures r in s - {rows[0]} {
        TailMembership(lt, rows, r);
      }
      assert rows[0] in rows;
      DistinctRowsFit(lt, rows[1..], s - {rows[0]});
    }
  }

  /** With finitely many rows in the end, a walk that is given enough fetches completes. */
  lemma WalkAcrossInsertsEnds<R(!new)>(lt: (R, R) -> bool, tables: seq<set<R>>, limit: nat)
    requires StrictTotalOrder(lt) && limit >= 1 && tables != [] && Growing(tables)
    requires limit * |tables| > |tables[|tables| - 1]|
    ensures WalkAcross(lt, tables, limit, None).complete
  {
    var w := WalkAcross(lt, tables, limit, None);
    InsertsKeepTheOrder(lt, tables, limit, None);
    DistinctRowsFit(lt, w.rows, tables[|tables| - 1]);
    if !w.complete {
      UnfinishedWalkIsFull(lt, tables, limit, None);
    }
  }
}
