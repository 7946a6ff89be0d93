/**
 Following opaque cursors, for any row type and order: a page carries the text of its last
 row's position, and the next request binds that text back to a position. When every row's
 text resumes exactly there, a client that knows only texts sees what `Keyset` promises
 about positions, whether or not rows are inserted between its requests.
 */
module CursorWalk {
  import opened Keyset

  /** How a store turns a row's position into cursor text and back. */
  datatype Codec<!R(!new)> = Codec(lt: (R, R) -> bool, encode: R --> string, bind: string -> Option<R>)

  /** The row's text is not the empty one, which means "no more pages", and leads back to the row. */
  ghost predicate Resumes<R(!new)>(c: Codec<R>, r: R) {
    c.encode.requires(r) && c.encode(r) != "" && c.bind(c.encode(r)) == Some(r)
  }

  ghost predicate AllResume<R(!new)>(c: Codec<R>, table: set<R>) {
    StrictTotalOrder(c.lt) && forall r | r in table :: Resumes(c, r)
  }

  datatype Fetched<R> = InvalidCursor | Fetched(rows: seq<R>, nextCursor: string)

  ghost function Fetch<R(!new)>(c: Codec<R>, table: set<R>, limit: nat, cursor: string): Fetched<R>
    requires AllResume(c, table) && limit >= 1
  {
    if cursor != "" && c.bind(cursor).None? then InvalidCursor
    else
      var from := if cursor == "" then None else c.bind(cursor);
      var page := ListDevices(c.lt, table, limit, from);
      PageIsPrefix(c.lt, table, limit, from);
      Fetched(page.rows, if page.next.None? then "" else c.encode(page.next.value))
  }

  /** The text a client holds at a position: nothing before the first page, then a row's cursor. */
  ghost predicate Denotes<R(!new)>(c: Codec<R>, cursor: string, position: Option<R>) {
    match position
    case None => cursor == ""
    case Some(r) => Resumes(c, r) && cursor == c.encode(r)
  }

  /** A fetch by text is the page at the position it denotes, and its next text denotes the next position. */
  lemma FetchFollowsPosition<R(!new)>(c: Codec<R>, table: set<R>, limit: nat, cursor: string, position: Option<R>)
    requires AllResume(c, table) && limit >= 1 && Denotes(c, cursor, position)
    ensures var page, fetched := ListDevices(c.lt, table, limit, position), Fetch(c, table, limit, cursor);
      && fetched.Fetched? && fetched.rows == page.rows
      && (fetched.nextCursor == "" <==> page.next.None?)
      && Denotes(c, fetched.nextCursor, page.next)
  {
    PageIsPrefix(c.lt, table, limit, position);
  }

  // ---------------------------------------------------------------------------
  // A client that follows nextCursor until it is empty, or an error
  // ---------------------------------------------------------------------------

  /** The i-th request is answered from `tables[i]`. */
  ghost function FollowAcross<R(!new)>(c: Codec<R>, tables: seq<set<R>>, limit: nat, cursor: string): Walked<R>
    requires limit >= 1 && forall i | 0 <= i < |tables| :: AllResume(c, tables[i])
    decreases |tables|
  {
    if tables == [] then Walked([], false)
    else
      var fetched := Fetch(c, tables[0], limit, cursor);
      if fetched.InvalidCursor? then Walked([], false)
      else if fetched.nextCursor == "" then Walked(fetched.rows, true)
      else
        var rest := FollowAcross(c, tables[1..], limit, fetched.nextCursor);
        Walked(fetched.rows + rest.rows, rest.complete)
  }

  lemma {:induction false} CursorsFollowAcross<R(!new)>(c: Codec<R>, tables: seq<set<R>>, limit: nat,
      cursor: string, position: Option<R>)
    requires StrictTotalOrder(c.lt) && limit >= 1 && Denotes(c, cursor, position)
    requires forall i | 0 <= i < |tables| :: AllResume(c, tables[i])
    ensures FollowAcross(c, tables, limit, cursor) == WalkAcross(c.lt, tables, limit, position)
    decreases |tables|
  {
    if tables != [] {
      FetchFollowsPosition(c, tables[0], limit, cursor, position);
      var page := ListDevices(c.lt, tables[0], limit, position);
      if page.next.Some? {
        CursorsFollowAcross(c, tables[1..], limit, Fetch(c, tables[0], limit, cursor).nextCursor, page.next);
      }
    }
  }

  /** Nothing that was there at the start is missing, and everything seen is there in the end. */
  ghost predicate SeenAll<R(!new)>(tables: seq<set<R>>, rows: seq<R>)
    requires tables != []
  {
    (forall r | r in tables[0] :: r in rows) && (forall r | r in rows :: r in tables[|tables| - 1])
  }

  /**
   With any inserts between the requests, a client that reaches the empty nextCursor has seen
   rows in strictly descending order, so none twice, and every row that was there at the
   start; on a table nobody changed, exactly the table. It does reach it once it has made
   more requests than the final table fills pages.
   */
  lemma CursorsWalkTheTable<R(!new)>(c: Codec<R>, tables: seq<set<R>>, limit: nat)
    requires limit >= 1 && tables != [] && Growing(tables)
    requires forall i | 0 <= i < |tables| :: AllResume(c, tables[i])
    ensures AllResume(c, tables[0])
    ensures var seen := FollowAcross(c, tables, limit, "");
      && (limit * |tables| > |tables[|tables| - 1]| ==> seen.complete)
      && (seen.complete ==> StrictlyDescending(c.lt, seen.rows) && SeenAll(tables, seen.rows))
      && (seen.complete && tables[0] == tables[|tables| - 1] ==> seen.rows == Descending(c.lt, tables[0]))
  {
    assert AllResume(c, tables[0]);
    CursorsFollowAcross(c, tables, limit, "", None);
    var walk := WalkAcross(c.lt, tables, limit, None);
    if limit * |tables| > |tables[|tables| - 1]| {
      WalkAcrossInsertsEnds(c.lt, tables, limit);
    }
    if walk.complete {
      WalkSurvivesInserts(c.lt, tables, limit);
      if tables[0] == tables[|tables| - 1] {
        DescendingSorts(c.lt, tables[0]);
        DescendingIsUnique(c.lt, walk.rows, Descending(c.lt, tables[0]));
      }
    }
  }
}
