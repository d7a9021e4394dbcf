/** Attendance rows as read from Odoo, newest-version selection and ordering. */
module Attendance {
  import opened Prelude

  /** The fields whose change matters to a production day. */
  datatype Material = Material(
    employee: int,
    checkIn: int,
    checkOut: Option<int>,
    workCenter: Option<int>,
    workCenterName: Option<string>,
    department: Option<int>,
    departmentName: Option<string>)

  datatype Row = Row(id: int, name: Option<string>, material: Material, writeDate: int)

  /** What a production day is computed from: the material fields of its rows by id. */
  type View = map<int, Material>

  predicate UniqueIds(rows: seq<Row>) {
    forall i, j | 0 <= i < j < |rows| :: rows[i].id != rows[j].id
  }

  // ---- newest version by id -------------------------------------------------

  /** A later row replaces an earlier one unless its write date is older. */
  function Pick(current: Option<Row>, row: Row): Row {
    if current.Some? && row.writeDate < current.value.writeDate then current.value else row
  }

  /** The row kept for `id` after the rows arrive in order. */
  function Winner(start: Option<Row>, rows: seq<Row>, id: int): Option<Row> {
    if rows == [] then start
    else
      var before := Winner(start, rows[..|rows| - 1], id);
      var last := rows[|rows| - 1];
      if last.id == id then Some(Pick(before, last)) else before
  }

  /** `k` is the last arrival for `id` among those of maximal write date. */
  predicate LastMaximal(rows: seq<Row>, id: int, k: nat) {
    && k < |rows| && rows[k].id == id
    && (forall j | 0 <= j < |rows| && rows[j].id == id :: rows[j].writeDate <= rows[k].writeDate)
    && (forall j | k < j < |rows| && rows[j].id == id :: rows[j].writeDate < rows[k].writeDate)
  }

  /** Appending a row of another id, or an older one, keeps the last maximal arrival. */
  lemma LastMaximalStays(front: seq<Row>, last: Row, id: int, k: nat)
    requires LastMaximal(front, id, k) && (last.id == id ==> last.writeDate < front[k].writeDate)
    ensures LastMaximal(front + [last], id, k)
  {
  }

  lemma LastMaximalMoves(front: seq<Row>, last: Row, id: int)
    requires last.id == id && forall j | 0 <= j < |front| && front[j].id == id :: front[j].writeDate <= last.writeDate
    ensures LastMaximal(front + [last], id, |front|)
  {
  }

  lemma {:induction false} WinnerIsLastMaximal(rows: seq<Row>, id: int)
    ensures Winner(None, rows, id).None? ==> forall j | 0 <= j < |rows| :: rows[j].id != id
    ensures Winner(None, rows, id).Some? ==>
      exists k: nat :: LastMaximal(rows, id, k) && rows[k] == Winner(None, rows, id).value
  {
    if rows != [] {
      var n := |rows| - 1;
      var front, last := rows[..n], rows[n];
      assert rows == front + [last];
      WinnerIsLastMaximal(front, id);
      var before := Winner(None, front, id);
      if before.Some? {
        var k: nat :| LastMaximal(front, id, k) && front[k] == before.value;
        if last.id == id && last.writeDate >= before.value.writeDate {
          LastMaximalMoves(front, last, id);
        } else {
          LastMaximalStays(front, last, id, k);
        }
      } else if last.id == id {
        LastMaximalMoves(front, last, id);
      }
    }
  }

  lemma {:induction false} WinnerOfConcat(start: Option<Row>, a: seq<Row>, b: seq<Row>, id: int)
    ensures Winner(start, a + b, id) == Winner(Winner(start, a, id), b, id)
  {
    if b == [] {
      assert a + b == a;
    } else {
      var n := |b| - 1;
      assert (a + b)[..|a + b| - 1] == a + b[..n];
      WinnerOfConcat(start, a, b[..n], id);
    }
  }

  /** The versions that count are those in the rows themselves. */
  lemma {:induction false} WinnerWithStart(start: Option<Row>, rows: seq<Row>, id: int)
    ensures Winner(start, rows, id) ==
      var w := Winner(None, rows, id); if w.None? then start else Some(Pick(start, w.value))
  {
    if rows != [] {
      WinnerWithStart(start, rows[..|rows| - 1], id);
    }
  }

  /** A Python dict of rows keyed by id, as the sequence of its values. */
  function Find(rows: seq<Row>, id: int): (r: Option<Row>)
    ensures r.Some? ==> r.value in rows && r.value.id == id
    ensures r.None? ==> forall x | x in rows :: x.id != id
  {
    if rows == [] then None
    else if rows[0].id == id then Some(rows[0])
    else Find(rows[1..], id)
  }

  function Put(rows: seq<Row>, row: Row): seq<Row> {
    if rows == [] then [row]
    else if rows[0].id == row.id then [row] + rows[1..]
    else [rows[0]] + Put(rows[1..], row)
  }

  lemma {:induction false} PutFinds(rows: seq<Row>, row: Row, id: int)
    ensures Find(Put(rows, row), id) == if id == row.id then Some(row) else Find(rows, id)
  {
    if rows != [] {
      PutFinds(rows[1..], row, id);
    }
  }

  lemma {:induction false} PutKeepsUnique(rows: seq<Row>, row: Row)
    requires UniqueIds(rows)
    ensures UniqueIds(Put(rows, row))
    ensures forall x :: x in Put(rows, row) ==> x == row || (x in rows && x.id != row.id)
  {
    if rows != [] {
      assert forall x :: x in rows[1..] ==> x.id != rows[0].id;
      PutKeepsUnique(rows[1..], row);
    }
  }

  lemma {:induction false} UniqueFind(rows: seq<Row>, row: Row)
    requires UniqueIds(rows) && row in rows
    ensures Find(rows, row.id) == Some(row)
  {
    if rows[0].id != row.id {
      UniqueFind(rows[1..], row);
    } else {
      var k :| 0 <= k < |rows| && rows[k] == row;
      assert k == 0;
    }
  }

  function NewestById(rows: seq<Row>): seq<Row> {
    if rows == [] then []
    else
      var kept := NewestById(rows[..|rows| - 1]);
      var last := rows[|rows| - 1];
      Put(kept, Pick(Find(kept, last.id), last))
  }

  lemma {:induction false} NewestFindsWinner(rows: seq<Row>, id: int)
    ensures Find(NewestById(rows), id) == Winner(None, rows, id)
  {
    if rows != [] {
      var kept := NewestById(rows[..|rows| - 1]);
      var last := rows[|rows| - 1];
      NewestFindsWinner(rows[..|rows| - 1], id);
      NewestFindsWinner(rows[..|rows| - 1], last.id);
      PutFinds(kept, Pick(Find(kept, last.id), last), id);
    }
  }

  lemma {:induction false} NewestIsUnique(rows: seq<Row>)
    ensures UniqueIds(NewestById(rows))
    ensures forall x :: x in NewestById(rows) ==> x in rows
  {
    if rows != [] {
      var front := rows[..|rows| - 1];
      NewestIsUnique(front);
      var kept := NewestById(front);
      var last := rows[|rows| - 1];
      PutKeepsUnique(kept, Pick(Find(kept, last.id), last));
    }
  }

  /** The dict-building loop shared by `_normalized_rows`, `_merged_rows` and
      `_deduplicate_raw_attendance_rows`. */
  method CollectNewest(rows: seq<Row>) returns (newest: seq<Row>)
    ensures newest == NewestById(rows)
  {
    newest := [];
    for i := 0 to |rows|
      invariant newest == NewestById(rows[..i])
    {
      assert rows[..i + 1][..i] == rows[..i];
      var existing := Find(newest, rows[i].id);
      if existing.None? || rows[i].writeDate >= existing.value.writeDate {
        newest := Put(newest, rows[i]);
      } else {
        PutSame(newest, existing.value);
      }
    }
    assert rows[..|rows|] == rows;
  }

  lemma {:induction false} PutSame(rows: seq<Row>, row: Row)
    requires Find(rows, row.id) == Some(row)
    ensures Put(rows, row) == rows
  {
    if rows[0].id != row.id {
      PutSame(rows[1..], row);
    }
  }

  // ---- ordering ----------------------------------------------------------------

  datatype Order = ByWriteDate | ByWriteDateDown | ById | ByIdDown

  /** Lexicographic order of (write date, id) pairs. */
  predicate KeyBelow(d: int, i: int, e: int, j: int) { d < e || (d == e && i < j) }

  predicate Before(o: Order, a: Row, b: Row) {
    match o
    case ByWriteDate => KeyBelow(a.writeDate, a.id, b.writeDate, b.id)
    case ByWriteDateDown => KeyBelow(b.writeDate, b.id, a.writeDate, a.id)
    case ById => a.id < b.id
    case ByIdDown => b.id < a.id
  }

  predicate Sorted(o: Order, rows: seq<Row>) {
    forall i, j | 0 <= i < j < |rows| :: Before(o, rows[i], rows[j])
  }

  function Insert(o: Order, row: Row, rows: seq<Row>): seq<Row> {
    if rows == [] then [row]
    else if Before(o, row, rows[0]) then [row] + rows
    else [rows[0]] + Insert(o, row, rows[1..])
  }

  function Sort(o: Order, rows: seq<Row>): seq<Row> {
    if rows == [] then [] else Insert(o, rows[0], Sort(o, rows[1..]))
  }

  lemma {:induction false} InsertMembers(o: Order, row: Row, rows: seq<Row>)
    ensures forall x :: x in Insert(o, row, rows) <==> x == row || x in rows
    ensures |Insert(o, row, rows)| == |rows| + 1
  {
    if rows != [] && !Before(o, row, rows[0]) {
      InsertMembers(o, row, rows[1..]);
      assert rows == [rows[0]] + rows[1..];
    }
  }

  lemma {:induction false} InsertSorts(o: Order, row: Row, rows: seq<Row>)
    requires Sorted(o, rows) && forall x | x in rows :: x.id != row.id
    ensures Sorted(o, Insert(o, row, rows))
    ensures UniqueIds(rows) ==> UniqueIds(Insert(o, row, rows))
  {
    if rows != [] && !Before(o, row, rows[0]) {
      InsertSorts(o, row, rows[1..]);
      assert UniqueIds(rows) ==> forall x | x in rows[1..] :: x.id != rows[0].id;
      InsertMembers(o, row, rows[1..]);
      var rest := Insert(o, row, rows[1..]);
      assert forall x | x in rest :: Before(o, rows[0], x);
      assert UniqueIds(rows) ==> forall x | x in rest :: x.id != rows[0].id;
      ConsSorts(o, rows[0], rest);
    }
  }

  lemma ConsSorts(o: Order, first: Row, rest: seq<Row>)
    requires Sorted(o, rest) && forall x | x in rest :: Before(o, first, x)
    ensures Sorted(o, [first] + rest)
    ensures UniqueIds(rest) && (forall x | x in rest :: x.id != first.id) ==> UniqueIds([first] + rest)
  {
  }

  lemma {:induction false} SortSorts(o: Order, rows: seq<Row>)
    requires UniqueIds(rows)
    ensures Sorted(o, Sort(o, rows)) && UniqueIds(Sort(o, rows))
    ensures forall x :: x in Sort(o, rows) <==> x in rows
  {
    if rows != [] {
      SortSorts(o, rows[1..]);
      InsertMembers(o, rows[0], Sort(o, rows[1..]));
      InsertSorts(o, rows[0], Sort(o, rows[1..]));
    }
  }
}
