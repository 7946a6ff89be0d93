/**
 The device list over SQLite: rows ordered by the text of registered_at and then by id,
 pages linked by opaque cursors. The pages are those an instant-keyed table would give, and
 following the cursors walks the whole table.
 */
module DeviceList {
  import opened Keyset
  import opened Decimal
  import opened Rfc3339
  import opened Cursor
  import opened CursorWalk

  datatype Row<T> = Row(at: T, id: string)

  /** What SQLite can have stored: whole seconds in years of four digits. */
  type StoredTime = t: Time | Valid(t) && FourDigitYear(t) && WholeSecond(t) witness Time(1970, 1, 1, 0, 0, 0, 0)

  /** registered_at < ? OR (registered_at = ? AND id < ?), on the stored text. */
  predicate TextRowLess(a: Row<string>, b: Row<string>) {
    TextLess(a.at, b.at) || (a.at == b.at && TextLess(a.id, b.id))
  }

  /** The same position order on the time line. */
  predicate TimeRowLess(a: Row<StoredTime>, b: Row<StoredTime>) {
    Instant(a.at) < Instant(b.at) || (a.at == b.at && TextLess(a.id, b.id))
  }

  lemma TextRowOrder()
    ensures StrictTotalOrder(TextRowLess)
  {
    forall a ensures !TextRowLess(a, a) {
      LessIsIrreflexive(a.at);
      LessIsIrreflexive(a.id);
    }
    forall a, b, c | TextRowLess(a, b) && TextRowLess(b, c) ensures TextRowLess(a, c) {
      if TextLess(a.at, b.at) && TextLess(b.at, c.at) {
        TextLessChains(a.at, b.at, c.at);
      } else if a.at == b.at == c.at {
        TextLessChains(a.id, b.id, c.id);
      }
    }
    forall a, b ensures a == b || TextRowLess(a, b) || TextRowLess(b, a) {
      TextLessConnects(a.at, b.at);
      TextLessConnects(a.id, b.id);
    }
  }

  function Store(r: Row<StoredTime>): Row<string> {
    Row(FormatSeconds(r.at), r.id)
  }

  lemma StoreKeepsOrder(a: Row<StoredTime>, b: Row<StoredTime>)
    ensures TextRowLess(Store(a), Store(b)) <==> TimeRowLess(a, b)
    ensures Store(a) == Store(b) <==> a == b
  {
    TextOrderIsTimeOrder(a.at, b.at);
    ChronologicalIsFieldOrder(a.at, b.at);
  }

  lemma TimeRowOrder()
    ensures StrictTotalOrder(TimeRowLess)
  {
    TextRowOrder();
    forall a ensures !TimeRowLess(a, a) {
      StoreKeepsOrder(a, a);
    }
    forall a, b, c | TimeRowLess(a, b) && TimeRowLess(b, c) ensures TimeRowLess(a, c) {
      StoreKeepsOrder(a, b);
      StoreKeepsOrder(b, c);
      StoreKeepsOrder(a, c);
    }
    forall a, b ensures a == b || TimeRowLess(a, b) || TimeRowLess(b, a) {
      StoreKeepsOrder(a, b);
      StoreKeepsOrder(b, a);
    }
  }

  function StoreAll(rows: seq<Row<StoredTime>>): seq<Row<string>> {
    seq(|rows|, i requires 0 <= i < |rows| => Store(rows[i]))
  }

  function StoreCursor(cursor: Option<Row<StoredTime>>): Option<Row<string>> {
    match cursor
    case None => None
    case Some(r) => Some(Store(r))
  }

  lemma StoredListing(s: set<Row<StoredTime>>)
    ensures StrictTotalOrder(TextRowLess) && StrictTotalOrder(TimeRowLess)
    ensures Descending(TextRowLess, set r | r in s :: Store(r)) == StoreAll(Descending(TimeRowLess, s))
  {
    TextRowOrder();
    TimeRowOrder();
    hide TextRowLess, TimeRowLess, Store, Descending, StrictTotalOrder;
    var stored, listed := set r | r in s :: Store(r), Descending(TimeRowLess, s);
    DescendingSorts(TimeRowLess, s);
    DescendingSorts(TextRowLess, stored);
    forall i, j | 0 <= i < j < |listed| ensures TextRowLess(StoreAll(listed)[j], StoreAll(listed)[i]) {
      StoreKeepsOrder(listed[j], listed[i]);
    }
    forall r ensures r in StoreAll(listed) <==> r in Descending(TextRowLess, stored) {
      if r in stored {
        var o :| o in s && Store(o) == r;
        var i :| 0 <= i < |listed| && listed[i] == o;
        assert StoreAll(listed)[i] == r;
      }
      if r in StoreAll(listed) {
        var i :| 0 <= i < |listed| && StoreAll(listed)[i] == r;
        assert listed[i] in s;
      }
    }
    DescendingIsUnique(TextRowLess, StoreAll(listed), Descending(TextRowLess, stored));
  }

  /** Comparing stored text gives exactly the pages that comparing instants would give. */
  lemma SqlitePagesAreInstantPages(table: set<Row<StoredTime>>, limit: nat, cursor: Option<Row<StoredTime>>)
    requires limit >= 1
    ensures StrictTotalOrder(TextRowLess) && StrictTotalOrder(TimeRowLess)
    ensures var page := ListDevices(TimeRowLess, table, limit, cursor);
      ListDevices(TextRowLess, set r | r in table :: Store(r), limit, StoreCursor(cursor))
        == Page(StoreAll(page.rows), StoreCursor(page.next))
  {
    TextRowOrder();
    TimeRowOrder();
    hide TextRowLess, TimeRowLess, Store, Descending, StrictTotalOrder;
    var stored, below := set r | r in table :: Store(r), Below(TimeRowLess, table, cursor);
    assert Below(TextRowLess, stored, StoreCursor(cursor)) == set r | r in below :: Store(r) by {
      if cursor.Some? {
        forall r | r in table ensures TextRowLess(Store(r), Store(cursor.value)) <==> TimeRowLess(r, cursor.value) {
          StoreKeepsOrder(r, cursor.value);
        }
      }
    }
    StoredListing(below);
    var listed := Descending(TimeRowLess, below);
    assert |listed| > limit + 1 ==> StoreAll(listed)[..limit + 1] == StoreAll(listed[..limit + 1]);
    var rows := if |listed| > limit + 1 then listed[..limit + 1] else listed;
    assert |rows| > limit ==> StoreAll(rows)[..limit] == StoreAll(rows[..limit]);
  }

  // ---------------------------------------------------------------------------
  // Opaque cursors
  // ---------------------------------------------------------------------------

  /** A row as the table can hold it: stored text, an id that needs no escapes, and a time that is set. */
  predicate Storable(r: Row<string>) {
    && Parse(r.at).Some? && FormatSeconds(Parse(r.at).value) == r.at
    && Parse(r.at).value != ZERO_TIME
    && r.id != "" && PlainText(r.id)
  }

  function CursorText(r: Row<string>): string
    requires Storable(r)
  {
    EncodeCursor(Position(Parse(r.at).value, r.id))
  }

  /** The query's bound parameters: the decoded time goes back to stored text. */
  function Bound(cursor: string): Option<Row<string>> {
    match DecodeCursor(cursor)
    case None => None
    case Some(p) => Some(Row(FormatSeconds(p.at), p.id))
  }

  function SqliteCodec(): Codec<Row<string>> {
    Codec(TextRowLess, r requires Storable(r) => CursorText(r), Bound)
  }

  /** A row's cursor is never the empty string and is bound to that very row again, text and all. */
  lemma CursorResumesExactly(r: Row<string>)
    requires Storable(r)
    ensures CursorText(r) != "" && Bound(CursorText(r)) == Some(r)
    ensures Resumes(SqliteCodec(), r)
  {
    var p := Position(Parse(r.at).value, r.id);
    CursorRoundTripIff(p);
    CursorIsEmptyIff(p);
  }

  /** A cursor that is not empty and does not decode is an error, whatever the table holds. */
  lemma BadCursorIsAnError(table: set<Row<string>>, limit: nat, cursor: string)
    requires AllResume(SqliteCodec(), table) && limit >= 1
    ensures Fetch(SqliteCodec(), table, limit, cursor).InvalidCursor? <==> cursor != "" && DecodeCursor(cursor) == None
  {
  }

  lemma SqliteRowsResume(table: set<Row<string>>)
    requires forall r | r in table :: Storable(r)
    ensures AllResume(SqliteCodec(), table)
  {
    TextRowOrder();
    forall r | r in table ensures Resumes(SqliteCodec(), r) {
      CursorResumesExactly(r);
    }
  }

  /** A row below another on the stored text is older, or as old with a smaller id. */
  lemma BelowIsOlder(a: Row<string>, b: Row<string>)
    requires Storable(a) && Storable(b) && TextRowLess(a, b)
    ensures var x, y := Parse(a.at).value, Parse(b.at).value;
      Instant(x) < Instant(y) || (Instant(x) == Instant(y) && TextLess(a.id, b.id))
  {
    var x, y := Parse(a.at).value, Parse(b.at).value;
    SecondsRoundTrip(x);
    SecondsRoundTrip(y);
    TextOrderIsTimeOrder(x, y);
  }

  lemma RowsNewestFirst(rows: seq<Row<string>>)
    requires StrictlyDescending(TextRowLess, rows) && forall r | r in rows :: Storable(r)
    ensures forall r | r in rows :: Parse(r.at).Some?
    ensures forall i, j | 0 <= i < j < |rows| ::
      || Instant(Parse(rows[j].at).value) < Instant(Parse(rows[i].at).value)
      || (Instant(Parse(rows[j].at).value) == Instant(Parse(rows[i].at).value) && TextLess(rows[j].id, rows[i].id))
  {
    hide Instant, TextLess, Parse;
    assert forall r | r in rows :: Parse(r.at).Some?;
    forall i, j | 0 <= i < j < |rows|
      ensures
        || Instant(Parse(rows[j].at).value) < Instant(Parse(rows[i].at).value)
        || (Instant(Parse(rows[j].at).value) == Instant(Parse(rows[i].at).value) && TextLess(rows[j].id, rows[i].id))
    {
      BelowIsOlder(rows[j], rows[i]);
    }
  }

  /**
   SQLite, stored text and opaque cursors: a client that follows nextCursor until it is empty, with inserts between
   its requests, has seen rows newest first, and in one second the greater id first, none twice, and every row that was
   there at the start; on a table nobody changed, exactly the table.
   */
  lemma SqliteCursorsWalkTheTable(tables: seq<set<Row<string>>>, limit: nat)
    requires limit >= 1 && tables != [] && Growing(tables)
    requires forall i | 0 <= i < |tables| :: forall r | r in tables[i] :: Storable(r)
    ensures forall i | 0 <= i < |tables| :: AllResume(SqliteCodec(), tables[i])
    ensures AllResume(SqliteCodec(), tables[0])
    ensures var seen := FollowAcross(SqliteCodec(), tables, limit, "");
      && (limit * |tables| > |tables[|tables| - 1]| ==> seen.complete)
      && (seen.complete ==> StrictlyDescending(TextRowLess, seen.rows) && SeenAll(tables, seen.rows))
      && (seen.complete && tables[0] == tables[|tables| - 1] ==> seen.rows == Descending(TextRowLess, tables[0]))
    ensures var seen := FollowAcross(SqliteCodec(), tables, limit, "");
      seen.complete ==> (forall r | r in seen.rows :: Parse(r.at).Some?) && forall i, j | 0 <= i < j < |seen.rows| ::
        var newer, older := Instant(Parse(seen.rows[i].at).value), Instant(Parse(seen.rows[j].at).value);
        older < newer || (older == newer && TextLess(seen.rows[j].id, seen.rows[i].id))
  {
    forall i | 0 <= i < |tables| ensures AllResume(SqliteCodec(), tables[i]) {
      SqliteRowsResume(tables[i]);
    }
    CursorsWalkTheTable(SqliteCodec(), tables, limit);
    var rows := FollowAcross(SqliteCodec(), tables, limit, "").rows;
    hide SqliteCodec, Instant, TextLess, Parse, Fetch;
    if FollowAcross(SqliteCodec(), tables, limit, "").complete {
      RowsNewestFirst(rows);
    }
  }

  // ---------------------------------------------------------------------------
  // Postgres: instants, and ids in an order of its own
  // ---------------------------------------------------------------------------

  type UtcTime = t: Time | Valid(t) witness Time(1970, 1, 1, 0, 0, 0, 0)

  function InstantRowLess(idLess: (string, string) -> bool): (Row<UtcTime>, Row<UtcTime>) -> bool {
    (a: Row<UtcTime>, b: Row<UtcTime>) =>
      Instant(a.at) < Instant(b.at) || (Instant(a.at) == Instant(b.at) && idLess(a.id, b.id))
  }

  lemma InstantRowOrder(idLess: (string, string) -> bool)
    requires StrictTotalOrder(idLess)
    ensures StrictTotalOrder(InstantRowLess(idLess))
  {
    var lt := InstantRowLess(idLess);
    hide Instant;
    forall a, b, c | lt(a, b) && lt(b, c) ensures lt(a, c) {
      assert idLess(a.id, b.id) && idLess(b.id, c.id) ==> idLess(a.id, c.id);
    }
    forall a, b ensures a == b || lt(a, b) || lt(b, a) {
      InstantsAreDistinct(a.at, b.at);
      assert a.id == b.id || idLess(a.id, b.id) || idLess(b.id, a.id);
    }
  }

  /** A row whose time is set and can be written with four digits, and whose id needs no escapes. */
  predicate Listable(r: Row<UtcTime>) {
    FourDigitYear(r.at) && r.at != ZERO_TIME && r.id != "" && PlainText(r.id)
  }

  function PositionText(r: Row<UtcTime>): string
    requires Listable(r)
  {
    EncodeCursor(Position(r.at, r.id))
  }

  /** The decoded time is bound as it is. */
  function BoundInstant(cursor: string): Option<Row<UtcTime>> {
    match DecodeCursor(cursor)
    case None => None
    case Some(p) =>
      var at: UtcTime := p.at;
      Some(Row(at, p.id))
  }

  function PostgresCodec(idLess: (string, string) -> bool): Codec<Row<UtcTime>> {
    Codec(InstantRowLess(idLess), r requires Listable(r) => PositionText(r), BoundInstant)
  }

  lemma PostgresRowsResume(idLess: (string, string) -> bool, table: set<Row<UtcTime>>)
    requires StrictTotalOrder(idLess) && forall r | r in table :: Listable(r)
    ensures AllResume(PostgresCodec(idLess), table)
  {
    InstantRowOrder(idLess);
    forall r | r in table ensures Resumes(PostgresCodec(idLess), r) {
      CursorRoundTripIff(Position(r.at, r.id));
      CursorIsEmptyIff(Position(r.at, r.id));
    }
  }

  /** The same promise for Postgres: newest first to the nanosecond, whatever order it gives ids. */
  lemma PostgresCursorsWalkTheTable(idLess: (string, string) -> bool, tables: seq<set<Row<UtcTime>>>, limit: nat)
    requires StrictTotalOrder(idLess) && limit >= 1 && tables != [] && Growing(tables)
    requires forall i | 0 <= i < |tables| :: forall r | r in tables[i] :: Listable(r)
    ensures forall i | 0 <= i < |tables| :: AllResume(PostgresCodec(idLess), tables[i])
    ensures AllResume(PostgresCodec(idLess), tables[0])
    ensures var seen, lt := FollowAcross(PostgresCodec(idLess), tables, limit, ""), InstantRowLess(idLess);
      && (limit * |tables| > |tables[|tables| - 1]| ==> seen.complete)
      && (seen.complete ==> StrictlyDescending(lt, seen.rows) && SeenAll(tables, seen.rows))
      && (seen.complete && tables[0] == tables[|tables| - 1] ==> seen.rows == Descending(lt, tables[0]))
    ensures var seen := FollowAcross(PostgresCodec(idLess), tables, limit, "");
      seen.complete ==> forall i, j | 0 <= i < j < |seen.rows| ::
        || Instant(seen.rows[j].at) < Instant(seen.rows[i].at)
        || (Instant(seen.rows[j].at) == Instant(seen.rows[i].at) && idLess(seen.rows[j].id, seen.rows[i].id))
  {
    hide Instant;
    forall i | 0 <= i < |tables| ensures AllResume(PostgresCodec(idLess), tables[i]) {
      PostgresRowsResume(idLess, tables[i]);
    }
    CursorsWalkTheTable(PostgresCodec(idLess), tables, limit);
  }
}
