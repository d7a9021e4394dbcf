/** Keyset paging over a remote table that changes between calls (`_odoo_attendance.py`).
    `env(k)` is the table as the k-th call finds it. */
module OdooAttendance {
  import opened Prelude
  import opened Attendance
  import opened OdooDomain

  type Key = (int, int)

  // ---- one search_read ----------------------------------------------------------

  predicate Selected(domain: seq<Token>, row: Row) { Meaning(domain, row) == Some(true) }

  function Filter(table: seq<Row>, domain: seq<Token>): seq<Row> {
    if table == [] then []
    else if Selected(domain, table[0]) then [table[0]] + Filter(table[1..], domain)
    else Filter(table[1..], domain)
  }

  function SearchRead(table: seq<Row>, domain: seq<Token>, order: Order, limit: nat): seq<Row> {
    var all := Sort(order, Filter(table, domain));
    if limit < |all| then all[..limit] else all
  }

  lemma {:induction false} FilterMembers(table: seq<Row>, domain: seq<Token>)
    ensures forall x :: x in Filter(table, domain) <==> x in table && Selected(domain, x)
    ensures UniqueIds(table) ==> UniqueIds(Filter(table, domain))
  {
    if table != [] {
      FilterMembers(table[1..], domain);
      assert UniqueIds(table) ==> forall x | x in table[1..] :: x.id != table[0].id;
    }
  }

  lemma PageSpec(table: seq<Row>, domain: seq<Token>, order: Order, limit: nat)
    requires UniqueIds(table)
    ensures var page := SearchRead(table, domain, order, limit);
      && Sorted(order, page) && |page| <= limit
      && (forall x :: x in page ==> x in table && Selected(domain, x))
      && (forall x :: x in table && Selected(domain, x) && x !in page ==>
            |page| == limit && (limit > 0 ==> Before(order, page[limit - 1], x)))
  {
    FilterMembers(table, domain);
    SortSorts(order, Filter(table, domain));
    var all := Sort(order, Filter(table, domain));
    var page := SearchRead(table, domain, order, limit);
    assert forall i | 0 <= i < |page| :: all[i] in page by {
      assert forall i | 0 <= i < |page| :: page[i] == all[i];
    }
    forall x | x in all && x !in page
      ensures |page| == limit && (limit > 0 ==> Before(order, page[limit - 1], x))
    {
      var i :| 0 <= i < |all| && all[i] == x;
      assert i >= |page|;
    }
  }

  // ---- change pages -------------------------------------------------------------

  predicate After(cursor: Option<Key>, row: Row) {
    cursor.Some? ==> KeyBelow(cursor.value.0, cursor.value.1, row.writeDate, row.id)
  }

  predicate UpTo(mark: Key, row: Row) { !KeyBelow(mark.0, mark.1, row.writeDate, row.id) }

  function CursorExpression(cursor: Option<Key>): Expression {
    Listed(if cursor.Some? then WriteDateBoundary(cursor.value.0, cursor.value.1) else [])
  }

  ghost predicate Sound(base: seq<Expression>) {
    forall i, row | 0 <= i < |base| :: WellFormed(base[i], row)
  }

  lemma AllHoldAppend(es: seq<Expression>, e: Expression, row: Row)
    ensures AllHold(es + [e], row) == (AllHold(es, row) && Meaning(Tokens(e), row) == Some(true))
  {
    if AllHold(es + [e], row) {
      assert (es + [e])[|es|] == e;
      forall i | 0 <= i < |es|
        ensures Meaning(Tokens(es[i]), row) == Some(true)
      {
        assert (es + [e])[i] == es[i];
      }
    }
  }

  /** A page's domain selects exactly the base rows after the cursor and up to the watermark. */
  lemma PageDomain(base: seq<Expression>, cursor: Option<Key>, mark: Key, row: Row)
    requires Sound(base)
    ensures Selected(AndDomain(base + [CursorExpression(cursor)]), row) <==> AllHold(base, row) && After(cursor, row)
    ensures Selected(AndDomain(base + [CursorExpression(cursor)] + [Listed(WriteDateUpperBoundary(mark.0, mark.1))]), row)
      <==> AllHold(base, row) && After(cursor, row) && UpTo(mark, row)
  {
    var lower, upper := CursorExpression(cursor), Listed(WriteDateUpperBoundary(mark.0, mark.1));
    if cursor.Some? { BoundaryMeansAfter(cursor.value.0, cursor.value.1, row); }
    UpperBoundaryMeansAtMost(mark.0, mark.1, row);
    AllHoldAppend(base, lower, row);
    AllHoldAppend(base + [lower], upper, row);
    AndDomainMeaning(base + [lower], row);
    AndDomainMeaning(base + [lower] + [upper], row);
  }

  /** What one page request after `cursor` and up to `mark` returns. */
  function Page(table: seq<Row>, base: seq<Expression>, cursor: Option<Key>, mark: Key, limit: nat): seq<Row> {
    SearchRead(table, AndDomain(base + [CursorExpression(cursor)] + [Listed(WriteDateUpperBoundary(mark.0, mark.1))]),
               ByWriteDate, limit)
  }

  lemma PageReads(table: seq<Row>, base: seq<Expression>, cursor: Option<Key>, mark: Key, limit: nat)
    requires UniqueIds(table) && Sound(base)
    ensures var page := Page(table, base, cursor, mark, limit);
      && Sorted(ByWriteDate, page) && |page| <= limit
      && (forall x :: x in page ==> x in table && AllHold(base, x) && After(cursor, x) && UpTo(mark, x))
      && (forall x :: x in table && AllHold(base, x) && After(cursor, x) && UpTo(mark, x) && x !in page ==>
            |page| == limit && (limit > 0 ==> Before(ByWriteDate, page[limit - 1], x)))
  {
    var domain := AndDomain(base + [CursorExpression(cursor)] + [Listed(WriteDateUpperBoundary(mark.0, mark.1))]);
    PageSpec(table, domain, ByWriteDate, limit);
    forall r ensures Selected(domain, r) <==> AllHold(base, r) && After(cursor, r) && UpTo(mark, r) {
      PageDomain(base, cursor, mark, r);
    }
  }

  /** The newest matching row after the cursor, if there is one. */
  function Watermark(table: seq<Row>, base: seq<Expression>, cursor: Option<Key>): seq<Row> {
    SearchRead(table, AndDomain(base + [CursorExpression(cursor)]), ByWriteDateDown, 1)
  }

  lemma WatermarkReads(table: seq<Row>, base: seq<Expression>, cursor: Option<Key>)
    requires UniqueIds(table) && Sound(base)
    ensures var top := Watermark(table, base, cursor);
      && (top == [] ==> forall x :: x in table && AllHold(base, x) ==> !After(cursor, x))
      && (top != [] ==> (
        && top[0] in table && After(cursor, top[0])
        && forall x :: x in table && AllHold(base, x) && After(cursor, x) ==> UpTo((top[0].writeDate, top[0].id), x)))
  {
    var domain := AndDomain(base + [CursorExpression(cursor)]);
    PageSpec(table, domain, ByWriteDateDown, 1);
    forall r ensures Selected(domain, r) <==> AllHold(base, r) && After(cursor, r) {
      PageDomain(base, cursor, (0, 0), r);
    }
    var top := Watermark(table, base, cursor);
    assert top != [] ==> top[0] in top;
  }

  // ---- a table that changes between calls -----------------------------------------

  predicate IdTable(table: seq<Row>) { UniqueIds(table) && forall r | r in table :: r.id > 0 }

  predicate Version(table: seq<Row>, idBound: int) { IdTable(table) && forall r | r in table :: r.id <= idBound }

  /** Rows may be created, edited and deleted between any two calls and stamped with any write
      date, such as that of a transaction that began before an earlier call.  Some bound on the
      ids is all that termination needs. */
  ghost predicate Versions(env: nat -> seq<Row>, idBound: int) {
    forall k: nat :: Version(env(k), idBound)
  }

  ghost predicate Throughout(env: nat -> seq<Row>, calls: nat, row: Row) {
    forall k: nat | k < calls :: row in env(k)
  }

  /** The row was in the table at one of the calls. */
  ghost predicate Seen(env: nat -> seq<Row>, calls: nat, row: Row) {
    exists k: nat :: k < calls && row in env(k)
  }

  /** `_fetch_raw_attendance_change_pages`: every row that does not change while the pages are
      read and lies after the cursor is returned exactly once; whatever is returned was in the
      table and matched.  `calls` counts the remote calls. */
  method FetchChangePages(env: nat -> seq<Row>, ghost idBound: int, base: seq<Expression>,
                          start: Option<Key>, pageSize: int)
    returns (result: Option<seq<Row>>, calls: nat)
    requires Versions(env, idBound) && Sound(base)
    ensures result.None? <==> pageSize <= 0
    ensures result.Some? ==> calls > 0
    ensures result.Some? ==> UniqueIds(result.value) && Sorted(ByWriteDate, result.value)
    ensures result.Some? ==> forall r ::
      Throughout(env, calls, r) && AllHold(base, r) && After(start, r) ==> r in result.value
    ensures result.Some? ==> forall r :: r in result.value ==>
      AllHold(base, r) && After(start, r) && Seen(env, calls, r)
  {
    calls := 0;
    if pageSize <= 0 { return None, calls; }
    assert Version(env(0), idBound);
    WatermarkReads(env(0), base, start);
    var top := Watermark(env(0), base, start);
    calls := 1;
    if top == [] { return Some([]), calls; }
    var mark := (top[0].writeDate, top[0].id);
    var rows: seq<Row> := [];
    var cursor := start;
    while true
      invariant calls >= 1
      invariant forall r :: Throughout(env, calls, r) && AllHold(base, r) && After(start, r) ==>
        r in rows || After(cursor, r)
      invariant forall r :: r in rows ==> AllHold(base, r) && After(start, r) && Seen(env, calls, r)
      invariant cursor == start || (cursor.Some? && Within(cursor.value, mark, idBound))
      invariant cursor.Some? && start.Some? && cursor != start ==>
        KeyBelow(start.value.0, start.value.1, cursor.value.0, cursor.value.1)
      invariant start.Some? ==> cursor.Some?
      decreases cursor == start, DatesLeft(cursor, mark), IdsLeft(cursor, mark, idBound)
    {
      ghost var table := env(calls);
      assert Version(env(calls), idBound);
      PageReads(env(calls), base, cursor, mark, pageSize);
      var page := Page(env(calls), base, cursor, mark, pageSize);
      calls := calls + 1;
      forall r | Throughout(env, calls, r) && AllHold(base, r) && After(start, r)
        ensures r in rows || r in page || (|page| == pageSize && Before(ByWriteDate, page[pageSize - 1], r))
      {
        assert Throughout(env, calls - 1, r);
        assert r in env(0) && r in table;
      }
      forall r | r in rows || r in page ensures AllHold(base, r) && After(start, r) && Seen(env, calls, r) {
        if r in page { assert r in env(calls - 1); }
      }
      rows := rows + page;
      if |page| < pageSize { break; }
      var last := page[|page| - 1];
      assert last in page;
      cursor := Some((last.writeDate, last.id));
    }
    var newest := CollectNewest(rows);
    NewestIsUnique(rows);
    SortSorts(ByWriteDate, newest);
    result := Some(Sort(ByWriteDate, newest));
    forall r | Throughout(env, calls, r) && AllHold(base, r) && After(start, r)
      ensures r in result.value
    {
      StableRowSurvives(env, idBound, calls, rows, r);
    }
  }

  predicate Within(cursor: Key, mark: Key, idBound: int) {
    && !KeyBelow(mark.0, mark.1, cursor.0, cursor.1)
    && (cursor.0 < mark.0 ==> cursor.1 <= idBound)
  }

  function DatesLeft(cursor: Option<Key>, mark: Key): int {
    if cursor.Some? then mark.0 - cursor.value.0 else 0
  }

  function IdsLeft(cursor: Option<Key>, mark: Key, idBound: int): int {
    if cursor.None? then 0
    else (if cursor.value.0 < mark.0 then idBound else mark.1) - cursor.value.1
  }

  /** Among the collected versions of a row that never changed there is only that row. */
  lemma StableRowSurvives(env: nat -> seq<Row>, idBound: int, calls: nat, rows: seq<Row>, row: Row)
    requires Versions(env, idBound) && Throughout(env, calls, row) && row in rows
    requires forall x :: x in rows ==> Seen(env, calls, x)
    ensures row in NewestById(rows) && Winner(None, rows, row.id) == Some(row)
  {
    WinnerIsLastMaximal(rows, row.id);
    NewestFindsWinner(rows, row.id);
    var w := Winner(None, rows, row.id).value;
    assert w in rows;
    var k: nat :| k < calls && w in env(k);
    assert Version(env(k), idBound);
    UniqueFind(env(k), w);
    UniqueFind(env(k), row);
  }

  /** `fetch_attendance_changes`: the cursor moves back by `overlap`.  Every unchanged row after
      the caller's own cursor is returned, and with an overlap every unchanged row stamped within
      it, so that a row committed late is read again; without an overlap nothing else is. */
  method FetchAttendanceChanges(env: nat -> seq<Row>, ghost idBound: int, after: Option<Key>,
                                overlap: int, pageSize: int)
    returns (result: Option<seq<Row>>, calls: nat)
    requires Versions(env, idBound)
    ensures result.None? <==> overlap < 0 || pageSize <= 0
    ensures result.Some? ==> UniqueIds(result.value) && Sorted(ByWriteDate, result.value)
    ensures result.Some? ==> forall r :: Throughout(env, calls, r) && After(after, r) ==> r in result.value
    ensures result.Some? && after.Some? && overlap > 0 ==> forall r ::
      Throughout(env, calls, r) && r.writeDate >= after.value.0 - overlap ==> r in result.value
    ensures result.Some? ==> forall r :: r in result.value ==> Seen(env, calls, r)
    ensures result.Some? && overlap == 0 ==> forall r :: r in result.value ==> After(after, r)
    ensures result.Some? && after.Some? ==> forall r :: r in result.value ==> r.writeDate >= after.value.0 - overlap
  {
    calls := 0;
    if overlap < 0 { return None, calls; }
    var start := if after.None? then None
      else Some((after.value.0 - overlap, if overlap == 0 then after.value.1 else 0));
    result, calls := FetchChangePages(env, idBound, [], start, pageSize);
    forall r | result.Some? && Throughout(env, calls, r)
      && (After(after, r) || (after.Some? && overlap > 0 && r.writeDate >= after.value.0 - overlap))
      ensures r in result.value
    {
      assert Version(env(0), idBound) && r in env(0);
      assert AllHold([], r) && After(start, r);
    }
  }

  // ---- id pages -------------------------------------------------------------------

  predicate HasId(table: seq<Row>, base: seq<Expression>, id: int) {
    exists r :: r in table && r.id == id && AllHold(base, r)
  }

  ghost predicate HasIdThroughout(env: nat -> seq<Row>, calls: nat, base: seq<Expression>, id: int) {
    forall k: nat | k < calls :: HasId(env(k), base, id)
  }

  function IdPage(table: seq<Row>, base: seq<Expression>, cursor: int, mark: int, limit: nat): seq<Row> {
    SearchRead(table, AndDomain(base + [Bare(Condition(IdField, Above, Some(cursor)))]
                                     + [Bare(Condition(IdField, AtMost, Some(mark)))]), ById, limit)
  }

  lemma IdPageReads(table: seq<Row>, base: seq<Expression>, cursor: int, mark: int, limit: nat)
    requires UniqueIds(table) && Sound(base)
    ensures var page := IdPage(table, base, cursor, mark, limit);
      && Sorted(ById, page) && |page| <= limit
      && (forall x :: x in page ==> x in table && AllHold(base, x) && cursor < x.id <= mark)
      && (forall x :: x in table && AllHold(base, x) && cursor < x.id <= mark && x !in page ==>
            |page| == limit && (limit > 0 ==> page[limit - 1].id < x.id))
  {
    var above, atMost := Condition(IdField, Above, Some(cursor)), Condition(IdField, AtMost, Some(mark));
    var domain := AndDomain(base + [Bare(above)] + [Bare(atMost)]);
    PageSpec(table, domain, ById, limit);
    forall r ensures Selected(domain, r) <==> AllHold(base, r) && cursor < r.id <= mark {
      BareMeaning(above, r);
      BareMeaning(atMost, r);
      AllHoldAppend(base, Bare(above), r);
      AllHoldAppend(base + [Bare(above)], Bare(atMost), r);
      AndDomainMeaning(base + [Bare(above)] + [Bare(atMost)], r);
    }
  }

  /** The greatest matching id, if any row matches. */
  lemma IdWatermarkReads(table: seq<Row>, base: seq<Expression>)
    requires UniqueIds(table) && Sound(base)
    ensures var top := SearchRead(table, AndDomain(base), ByIdDown, 1);
      && (top == [] ==> forall x :: x in table ==> !AllHold(base, x))
      && (top != [] ==> top[0] in table && forall x :: x in table && AllHold(base, x) ==> x.id <= top[0].id)
  {
    PageSpec(table, AndDomain(base), ByIdDown, 1);
    forall r ensures Selected(AndDomain(base), r) <==> AllHold(base, r) {
      AndDomainMeaning(base, r);
    }
    var top := SearchRead(table, AndDomain(base), ByIdDown, 1);
    assert top != [] ==> top[0] in top;
  }

  /** `_fetch_raw_attendance_id_pages`: rows may be edited freely.  An id that
      matches at every call is returned; a returned row matched at some call. */
  method FetchIdPages(env: nat -> seq<Row>, base: seq<Expression>, pageSize: int)
    returns (result: Option<seq<Row>>, calls: nat)
    requires (forall k: nat :: IdTable(env(k))) && Sound(base)
    ensures result.None? <==> pageSize <= 0
    ensures result.Some? ==> Sorted(ById, result.value) && calls > 0
    ensures result.Some? ==> forall id ::
      HasIdThroughout(env, calls, base, id) ==> exists r :: r in result.value && r.id == id
    ensures result.Some? ==> forall r :: r in result.value ==> AllHold(base, r) && Seen(env, calls, r)
  {
    calls := 0;
    if pageSize <= 0 { return None, calls; }
    IdWatermarkReads(env(0), base);
    var top := SearchRead(env(0), AndDomain(base), ByIdDown, 1);
    calls := 1;
    if top == [] {
      assert forall id :: HasIdThroughout(env, calls, base, id) ==> HasId(env(0), base, id);
      return Some([]), calls;
    }
    var mark := top[0].id;
    var cursor := 0;
    var rows: seq<Row> := [];
    forall id | HasIdThroughout(env, calls, base, id) ensures 0 < id <= mark {
      assert HasId(env(0), base, id);
    }
    while true
      invariant calls >= 1 && 0 <= cursor <= mark
      invariant Sorted(ById, rows) && forall r :: r in rows ==> r.id <= cursor
      invariant ReadUpTo(env, calls, base, rows, cursor, mark) && AllRead(env, calls, base, rows)
      decreases mark - cursor
    {
      var page := IdPage(env(calls), base, cursor, mark, pageSize);
      IdPageStep(env, calls, base, rows, page, cursor, mark, pageSize);
      calls := calls + 1;
      rows := rows + page;
      if |page| < pageSize { break; }
      cursor := page[|page| - 1].id;
    }
    result := Some(rows);
  }

  /** Every id that matched throughout has been read, or is still to come. */
  ghost predicate ReadUpTo(env: nat -> seq<Row>, calls: nat, base: seq<Expression>, rows: seq<Row>, cursor: int, mark: int) {
    forall id :: HasIdThroughout(env, calls, base, id) ==>
      id <= mark && ((exists r :: r in rows && r.id == id) || cursor < id)
  }

  ghost predicate AllRead(env: nat -> seq<Row>, calls: nat, base: seq<Expression>, rows: seq<Row>) {
    forall r :: r in rows ==> AllHold(base, r) && Seen(env, calls, r)
  }

  /** One page brings the reading up to its last row, or to the watermark. */
  lemma IdPageStep(env: nat -> seq<Row>, calls: nat, base: seq<Expression>, rows: seq<Row>, page: seq<Row>,
                   cursor: int, mark: int, pageSize: nat)
    requires IdTable(env(calls)) && Sound(base) && calls > 0 && pageSize > 0
    requires page == IdPage(env(calls), base, cursor, mark, pageSize)
    requires Sorted(ById, rows) && forall r :: r in rows ==> r.id <= cursor
    requires ReadUpTo(env, calls, base, rows, cursor, mark) && AllRead(env, calls, base, rows)
    ensures |page| <= pageSize && Sorted(ById, rows + page) && AllRead(env, calls + 1, base, rows + page)
    ensures |page| < pageSize ==> ReadUpTo(env, calls + 1, base, rows + page, mark, mark)
    ensures |page| == pageSize ==> (
      var last := page[|page| - 1].id;
      && cursor < last <= mark && ReadUpTo(env, calls + 1, base, rows + page, last, mark)
      && forall r :: r in rows + page ==> r.id <= last)
  {
    IdPageReads(env(calls), base, cursor, mark, pageSize);
    forall r | r in rows + page ensures AllHold(base, r) && Seen(env, calls + 1, r) {
      if r in page { assert r in env(calls); }
    }
    var next := calls + 1;
    forall id | HasIdThroughout(env, next, base, id)
      ensures id <= mark
      ensures (exists r :: r in rows + page && r.id == id) || (|page| == pageSize && page[pageSize - 1].id < id)
    {
      assert HasIdThroughout(env, calls, base, id);
      KeepOrReach(env, next, base, rows, page, cursor, mark, pageSize, id);
    }
    SortedConcat(rows, page, cursor);
    assert |page| == pageSize ==> page[|page| - 1] in page;
  }

  lemma KeepOrReach(env: nat -> seq<Row>, calls: nat, base: seq<Expression>, rows: seq<Row>, page: seq<Row>,
                    cursor: int, mark: int, pageSize: nat, id: int)
    requires calls > 1 && pageSize > 0 && page == IdPage(env(calls - 1), base, cursor, mark, pageSize)
    requires IdTable(env(calls - 1)) && Sound(base) && HasIdThroughout(env, calls, base, id)
    requires HasIdThroughout(env, calls - 1, base, id) ==>
      id <= mark && ((exists r :: r in rows && r.id == id) || cursor < id)
    ensures id <= mark
    ensures (exists r :: r in rows + page && r.id == id) || (|page| == pageSize && page[pageSize - 1].id < id)
  {
    IdPageReads(env(calls - 1), base, cursor, mark, pageSize);
    assert HasId(env(calls - 1), base, id);
    var x :| x in env(calls - 1) && x.id == id && AllHold(base, x);
    if r :| r in rows && r.id == id {
      assert r in rows + page;
    } else if x in page {
      assert x in rows + page;
    }
  }

  lemma SortedConcat(a: seq<Row>, b: seq<Row>, cursor: int)
    requires Sorted(ById, a) && Sorted(ById, b)
    requires (forall r :: r in a ==> r.id <= cursor) && (forall r :: r in b ==> cursor < r.id)
    ensures Sorted(ById, a + b)
    ensures b != [] ==> forall r :: r in a + b ==> r.id <= b[|b| - 1].id
  {
    forall i, j | 0 <= i < j < |a + b| ensures Before(ById, (a + b)[i], (a + b)[j]) {
      if i < |a| { assert a[i] in a; }
      if j >= |a| { assert b[j - |a|] in b; }
    }
    forall r | b != [] && r in a + b ensures r.id <= b[|b| - 1].id {
      assert b[|b| - 1] in b;
      if r !in a { var i :| 0 <= i < |b| && b[i] == r; }
    }
  }

  function Ids(rows: seq<Row>): set<int> { set r | r in rows :: r.id }

  lemma RowOfId(table: seq<Row>, id: int) returns (r: Row)
    requires id in Ids(table)
    ensures r in table && r.id == id
  {
    r :| r in table && r.id == id;
  }

  /** `fetch_all_attendance_ids`. */
  method FetchAllIds(env: nat -> seq<Row>, pageSize: int) returns (ids: Option<seq<int>>, calls: nat)
    requires forall k: nat :: IdTable(env(k))
    ensures ids.None? <==> pageSize <= 0
    ensures ids.Some? ==> forall i, j | 0 <= i < j < |ids.value| :: ids.value[i] < ids.value[j]
    ensures ids.Some? ==> forall id :: (forall k: nat | k < calls :: id in Ids(env(k))) ==> id in ids.value
    ensures ids.Some? ==> forall id :: id in ids.value ==> exists k: nat :: k < calls && id in Ids(env(k))
  {
    var rows;
    rows, calls := FetchIdPages(env, [], pageSize);
    if rows.None? { return None, calls; }
    ids := Some([]);
    for i := 0 to |rows.value|
      invariant ids.Some? && |ids.value| == i
      invariant forall j | 0 <= j < i :: ids.value[j] == rows.value[j].id
    {
      ids := Some(ids.value + [rows.value[i].id]);
    }
    forall id | forall k: nat | k < calls :: id in Ids(env(k)) ensures id in ids.value {
      forall k: nat | k < calls ensures HasId(env(k), [], id) {
        var r := RowOfId(env(k), id);
        assert AllHold([], r);
      }
      assert HasIdThroughout(env, calls, [], id);
      var r :| r in rows.value && r.id == id;
      var j :| 0 <= j < |rows.value| && rows.value[j] == r;
      assert ids.value[j] == id;
    }
    forall id | id in ids.value ensures exists k: nat :: k < calls && id in Ids(env(k)) {
      var j :| 0 <= j < |ids.value| && ids.value[j] == id;
      assert rows.value[j] in rows.value;
    }
  }
}
