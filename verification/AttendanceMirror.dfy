/** The local mirror of Odoo attendance: a last-writer-wins replica with tombstones, whose
    commits enqueue the plant days they change (`attendance_mirror.py`). */
module AttendanceMirror {
  import opened Prelude
  import opened Attendance
  import opened AttendanceRecalc

  // ---- plant days -----------------------------------------------------------------

  /** The plant-local day of an instant. */
  type Calendar = int -> int

  predicate DayStep(dayOf: Calendar, t: int) { dayOf(t) <= dayOf(t + 1) <= dayOf(t) + 1 }

  ghost predicate IsCalendar(dayOf: Calendar) { forall t :: DayStep(dayOf, t) }

  lemma {:induction false} DaysGrow(dayOf: Calendar, a: int, b: int)
    requires IsCalendar(dayOf) && a <= b
    ensures dayOf(a) <= dayOf(b)
    decreases b - a
  {
    if a < b {
      DaysGrow(dayOf, a, b - 1);
      assert DayStep(dayOf, b - 1);
    }
  }

  /** No day is skipped. */
  lemma {:induction false} DayReached(dayOf: Calendar, a: int, b: int, d: int) returns (t: int)
    requires IsCalendar(dayOf) && a <= b && dayOf(a) <= d <= dayOf(b)
    ensures a <= t <= b && dayOf(t) == d
    decreases b - a
  {
    if dayOf(a) == d {
      t := a;
    } else {
      assert DayStep(dayOf, a);
      t := DayReached(dayOf, a + 1, b, d);
    }
  }

  function DayRange(first: int, last: int): (days: set<int>)
    ensures forall d :: d in days <==> first <= d <= last
    decreases last - first
  {
    if last < first then {} else DayRange(first, last - 1) + {last}
  }

  function DaysTouched(dayOf: Calendar, start: int, end: Option<int>): set<int> {
    if end.None? then {dayOf(start)}
    else if end.value == start then {}
    else DayRange(dayOf(start), dayOf(end.value - 1))
  }

  /** `local_days_touched` returns exactly the days met by the half-open interval. */
  lemma DaysTouchedExactly(dayOf: Calendar, start: int, end: int, d: int)
    requires IsCalendar(dayOf) && start <= end
    ensures d in DaysTouched(dayOf, start, Some(end)) <==> exists t :: start <= t < end && dayOf(t) == d
  {
    if start < end && dayOf(start) <= d <= dayOf(end - 1) {
      var t := DayReached(dayOf, start, end - 1, d);
    }
    forall t | start <= t < end ensures dayOf(start) <= dayOf(t) <= dayOf(end - 1) {
      DaysGrow(dayOf, start, t);
      DaysGrow(dayOf, t, end - 1);
    }
  }

  /** `local_days_touched` */
  method LocalDaysTouched(dayOf: Calendar, start: int, end: Option<int>) returns (days: set<int>)
    ensures days == DaysTouched(dayOf, start, end)
    ensures end.None? ==> days == {dayOf(start)}
  {
    if end.None? { return {dayOf(start)}; }
    if end.value == start { return {}; }
    var first, last := dayOf(start), dayOf(end.value - 1);
    days := {};
    var current := first;
    while current <= last
      invariant first <= current && (first <= last ==> current <= last + 1)
      invariant last < first ==> current == first
      invariant days == DayRange(first, current - 1)
      decreases last - current
    {
      days := days + {current};
      current := current + 1;
    }
    assert first <= last ==> current - 1 == last;
  }

  /** `_row_days`: an open row reaches up to the commit. */
  function RowDays(dayOf: Calendar, m: Material, openEnd: int): set<int> {
    DaysTouched(dayOf, m.checkIn, Some(if m.checkOut.Some? then m.checkOut.value else openEnd))
  }

  /** The row's interval meets the day; `rows_overlapping` selects the rows that do. */
  predicate Meets(dayOf: Calendar, m: Material, d: int) {
    && (m.checkOut.None? || m.checkOut.value > m.checkIn)
    && dayOf(m.checkIn) <= d && (m.checkOut.None? || d <= dayOf(m.checkOut.value - 1))
  }

  /** The selection of `rows_overlapping(start, end)`. */
  predicate Overlaps(m: Material, start: int, end: int) {
    && (m.checkOut.None? || m.checkOut.value > m.checkIn)
    && m.checkIn < end && (m.checkOut.None? || m.checkOut.value > start)
  }

  /** Over the window of day `d` the selection keeps exactly the rows that meet the day, and
      those are the rows covering some instant of it. */
  lemma OverlapMeansMeets(dayOf: Calendar, m: Material, d: int, start: int, end: int)
    requires IsCalendar(dayOf) && start < end
    requires forall t :: start <= t < end <==> dayOf(t) == d
    ensures Overlaps(m, start, end) <==> Meets(dayOf, m, d)
    ensures Overlaps(m, start, end) <==>
      exists t :: m.checkIn <= t && (m.checkOut.None? || t < m.checkOut.value) && dayOf(t) == d
  {
    assert dayOf(start) == d && dayOf(end - 1) == d;
    if m.checkIn < end { DaysGrow(dayOf, m.checkIn, end - 1); } else { DaysGrow(dayOf, end - 1, m.checkIn); }
    assert m.checkIn < end <==> dayOf(m.checkIn) <= d;
    if m.checkOut.Some? {
      var last := m.checkOut.value - 1;
      if start <= last { DaysGrow(dayOf, start, last); } else { DaysGrow(dayOf, last, start); }
      assert last >= start <==> d <= dayOf(last);
    }
    if Overlaps(m, start, end) {
      var t := if m.checkIn < start then start else m.checkIn;
      assert dayOf(t) == d;
    }
  }

  /** The days a row meets but `_row_days` leaves out: only an open row's, and then the days not
      begun before the commit (or all of them, for a check-in at the very commit instant). */
  lemma RowDaysMissed(dayOf: Calendar, m: Material, at: int, d: int)
    ensures Meets(dayOf, m, d) && d !in RowDays(dayOf, m, at) <==>
      m.checkOut.None? && dayOf(m.checkIn) <= d && (m.checkIn == at || dayOf(at - 1) < d)
  {
  }

  // ---- stored rows ------------------------------------------------------------------

  datatype Stored = Stored(row: Row, firstSeen: int, lastSeen: int, deletedAt: Option<int>, sweep: Option<int>)

  type Table = map<int, Stored>
  type Key = (int, int)

  datatype Sync = Sync(cursor: Option<Key>, lastIncremental: Option<int>, lastSweep: Option<int>,
                       generation: int, baseline: Option<int>)

  /** Everything one mirror transaction reads and writes. */
  datatype State = State(table: Table, queue: Queue, sync: Sync)

  /** What `_normalize_row` accepts. */
  predicate Acceptable(r: Row) {
    && r.id > 0 && r.material.employee > 0
    && (r.material.checkOut.Some? ==> r.material.checkIn <= r.material.checkOut.value)
    && (r.material.workCenter.Some? ==> r.material.workCenter.value > 0)
    && (r.material.department.Some? ==> r.material.department.value > 0)
  }

  predicate AllAcceptable(rows: seq<Row>) { forall r | r in rows :: Acceptable(r) }

  predicate TableOk(table: Table) { forall id | id in table :: Acceptable(table[id].row) }

  /** `_normalized_rows`: the newest version of each id, by id. */
  function Normalized(rows: seq<Row>): seq<Row> { Sort(ById, NewestById(rows)) }

  predicate CanRevive(observed: int, deletedAt: Option<int>) {
    deletedAt.None? || observed > deletedAt.value
  }

  /** An observed version takes effect unless it is older than the stored one, or was observed
      no later than a confirmed deletion. */
  predicate TakesEffect(e: Option<Stored>, r: Row, observed: int) {
    e.None? || (e.value.row.writeDate <= r.writeDate && CanRevive(observed, e.value.deletedAt))
  }

  /** One row of `_upsert_rows_cur`. */
  function Merge(e: Option<Stored>, r: Row, observed: int): Option<Stored> {
    if e.None? then Some(Stored(r, observed, observed, None, None))
    else if TakesEffect(e, r, observed) then
      Some(e.value.(row := r, lastSeen := if e.value.lastSeen < observed then observed else e.value.lastSeen,
                    deletedAt := None))
    else e
  }

  /** The days one upserted row sends for recalculation. */
  function RowAffects(dayOf: Calendar, e: Option<Stored>, r: Row, at: int, observed: int): set<int> {
    if e.None? then RowDays(dayOf, r.material, at)
    else if TakesEffect(e, r, observed) && (e.value.deletedAt.Some? || e.value.row.material != r.material) then
      RowDays(dayOf, e.value.row.material, at) + RowDays(dayOf, r.material, at)
    else {}
  }

  function Upsert(table: Table, rows: seq<Row>, observed: int): Table {
    if rows == [] then table
    else
      var t := Upsert(table, rows[..|rows| - 1], observed);
      var r := rows[|rows| - 1];
      t[r.id := Merge(Get(t, r.id), r, observed).value]
  }

  function Affects(dayOf: Calendar, table: Table, rows: seq<Row>, at: int, observed: int): set<int> {
    if rows == [] then {}
    else
      var t := Upsert(table, rows[..|rows| - 1], observed);
      var r := rows[|rows| - 1];
      Affects(dayOf, table, rows[..|rows| - 1], at, observed) + RowAffects(dayOf, Get(t, r.id), r, at, observed)
  }

  // ---- last writer wins -------------------------------------------------------------

  /** Two versions in a row act like the one that wins between them. */
  lemma MergeTwice(e: Option<Stored>, a: Row, b: Row, observed: int)
    ensures Merge(Merge(e, a, observed), b, observed) == Merge(e, Pick(Some(a), b), observed)
  {
  }

  /** A whole batch acts on each id like that id's winning version alone. */
  lemma {:induction false} UpsertIsOneMerge(table: Table, rows: seq<Row>, observed: int, id: int)
    ensures Get(Upsert(table, rows, observed), id) ==
      var w := Winner(None, rows, id);
      if w.None? then Get(table, id) else Merge(Get(table, id), w.value, observed)
  {
    if rows != [] {
      var front, r := rows[..|rows| - 1], rows[|rows| - 1];
      UpsertIsOneMerge(table, front, observed, id);
      var w := Winner(None, front, id);
      if w.Some? && r.id == id { MergeTwice(Get(table, id), w.value, r, observed); }
    }
  }

  lemma {:induction false} WinnerOfUnique(rows: seq<Row>, id: int)
    requires UniqueIds(rows)
    ensures Winner(None, rows, id) == Find(rows, id)
  {
    if rows != [] {
      var front, r := rows[..|rows| - 1], rows[|rows| - 1];
      WinnerOfUnique(front, id);
      assert forall x | x in rows :: x in front || x == r;
      if r.id == id {
        UniqueFind(rows, r);
      } else if Find(front, id).Some? {
        UniqueFind(rows, Find(front, id).value);
      }
    }
  }

  lemma NormalizedKeepsWinner(rows: seq<Row>, id: int)
    ensures UniqueIds(Normalized(rows))
    ensures Winner(None, Normalized(rows), id) == Winner(None, rows, id)
  {
    var kept := NewestById(rows);
    NewestIsUnique(rows);
    SortSorts(ById, kept);
    WinnerOfUnique(Normalized(rows), id);
    NewestFindsWinner(rows, id);
    if Find(kept, id).Some? {
      UniqueFind(Normalized(rows), Find(kept, id).value);
    }
  }

  lemma TablesEqual(a: Table, b: Table)
    requires forall id :: Get(a, id) == Get(b, id)
    ensures a == b
  {
    forall id | id in a || id in b ensures id in a && id in b && a[id] == b[id] {
      assert Get(a, id) == Get(b, id);
    }
  }

  /** Splitting a batch, concatenating batches, and normalising change nothing. */
  lemma BatchesConcatenate(table: Table, a: seq<Row>, b: seq<Row>, observed: int)
    ensures Upsert(table, Normalized(a + b), observed) ==
      Upsert(Upsert(table, Normalized(a), observed), Normalized(b), observed)
    ensures Upsert(table, Normalized(a), observed) == Upsert(table, a, observed)
  {
    var first := Upsert(table, Normalized(a), observed);
    forall id ensures Get(Upsert(table, Normalized(a + b), observed), id) == Get(Upsert(first, Normalized(b), observed), id) {
      NormalizedKeepsWinner(a + b, id);
      NormalizedKeepsWinner(a, id);
      NormalizedKeepsWinner(b, id);
      WinnerOfConcat(None, a, b, id);
      WinnerWithStart(Winner(None, a, id), b, id);
      UpsertIsOneMerge(table, Normalized(a + b), observed, id);
      UpsertIsOneMerge(table, Normalized(a), observed, id);
      UpsertIsOneMerge(first, Normalized(b), observed, id);
      if Winner(None, a, id).Some? && Winner(None, b, id).Some? {
        MergeTwice(Get(table, id), Winner(None, a, id).value, Winner(None, b, id).value, observed);
      }
    }
    TablesEqual(Upsert(table, Normalized(a + b), observed), Upsert(first, Normalized(b), observed));
    forall id ensures Get(first, id) == Get(Upsert(table, a, observed), id) {
      NormalizedKeepsWinner(a, id);
      UpsertIsOneMerge(table, Normalized(a), observed, id);
      UpsertIsOneMerge(table, a, observed, id);
    }
    TablesEqual(first, Upsert(table, a, observed));
  }

  datatype Batch = Batch(rows: seq<Row>, observed: int)

  function UpsertBatches(table: Table, batches: seq<Batch>): Table {
    if batches == [] then table
    else
      var last := batches[|batches| - 1];
      Upsert(UpsertBatches(table, batches[..|batches| - 1]), Normalized(last.rows), last.observed)
  }

  function Arrivals(batches: seq<Batch>): seq<Row> {
    if batches == [] then []
    else Arrivals(batches[..|batches| - 1]) + batches[|batches| - 1].rows
  }

  predicate NoTombstones(table: Table) { forall id | id in table :: table[id].deletedAt.None? }

  function StoredRow(table: Table, id: int): Option<Row> {
    if id in table then Some(table[id].row) else None
  }

  /** Without tombstones the stored row is the last arrival of maximal write date, whatever the
      batches and whenever they were observed. */
  lemma {:induction false} ReplicaKeepsLastMaximal(batches: seq<Batch>, id: int)
    ensures var table := UpsertBatches(map[], batches);
      && (id in table ==> table[id].deletedAt.None?)
      && StoredRow(table, id) == Winner(None, Arrivals(batches), id)
      && (id in table ==> exists k: nat :: LastMaximal(Arrivals(batches), id, k) && Arrivals(batches)[k] == table[id].row)
  {
    if batches != [] {
      var front, last := batches[..|batches| - 1], batches[|batches| - 1];
      ReplicaKeepsLastMaximal(front, id);
      var before := UpsertBatches(map[], front);
      UpsertIsOneMerge(before, Normalized(last.rows), last.observed, id);
      NormalizedKeepsWinner(last.rows, id);
      WinnerOfConcat(None, Arrivals(front), last.rows, id);
      WinnerWithStart(Winner(None, Arrivals(front), id), last.rows, id);
      assert Get(UpsertBatches(map[], batches), id) ==
        Get(Upsert(before, Normalized(last.rows), last.observed), id);
      assert Get(before, id).Some? ==> StoredRow(before, id) == Some(Get(before, id).value.row);
    }
    WinnerIsLastMaximal(Arrivals(batches), id);
  }

  /** An upsert lifts a tombstone exactly when it was observed strictly later and some version in
      the batch is not older than the stored one; it never lays one, and never moves back. */
  lemma UpsertRevives(table: Table, rows: seq<Row>, observed: int, id: int)
    requires id in table
    ensures var after := Upsert(table, rows, observed);
      && id in after && after[id].row.writeDate >= table[id].row.writeDate
      && after[id].firstSeen == table[id].firstSeen && after[id].lastSeen >= table[id].lastSeen
      && (after[id].deletedAt.None? <==>
            table[id].deletedAt.None? || (
              && observed > table[id].deletedAt.value
              && exists r :: r in rows && r.id == id && r.writeDate >= table[id].row.writeDate))
      && (after[id].deletedAt.Some? ==> after[id] == table[id])
      && (after[id] == table[id] || (
            && after[id].row in rows
            && after[id].lastSeen == if table[id].lastSeen < observed then observed else table[id].lastSeen))
  {
    UpsertIsOneMerge(table, rows, observed, id);
    WinnerIsLastMaximal(rows, id);
    var after, w := Upsert(table, rows, observed), Winner(None, rows, id);
    assert Get(after, id).Some?;
    if w.Some? {
      var k: nat :| LastMaximal(rows, id, k) && rows[k] == w.value;
      forall r | r in rows && r.id == id ensures r.writeDate <= w.value.writeDate {
        var j :| 0 <= j < |rows| && rows[j] == r;
      }
      assert w.value in rows;
    } else {
      forall r | r in rows ensures r.id != id {
        var j :| 0 <= j < |rows| && rows[j] == r;
      }
    }
  }

  // ---- whole transactions -----------------------------------------------------------

  /** Lexicographic, on (write date, id). */
  predicate Later(a: Key, b: Key) { KeyBelow(b.0, b.1, a.0, a.1) }

  function LaterCursor(current: Option<Key>, candidate: Option<Key>): Option<Key> {
    if candidate.None? then current
    else if current.None? || Later(candidate.value, current.value) then candidate
    else current
  }

  /** The later of the two, and one of them. */
  lemma LaterCursorIsLatest(current: Option<Key>, candidate: Option<Key>)
    ensures var c := LaterCursor(current, candidate);
      && (c == current || c == candidate)
      && (c.None? <==> current.None? && candidate.None?)
      && (current.Some? ==> !KeyBelow(c.value.0, c.value.1, current.value.0, current.value.1))
      && (candidate.Some? ==> !KeyBelow(c.value.0, c.value.1, candidate.value.0, candidate.value.1))
  {
  }

  function Request(queue: Queue, days: set<int>, at: int): Queue {
    if days == {} then queue else Enqueue(queue, days, at)
  }

  /** The days a batch sends for recalculation; none before the baseline. */
  function Sent(dayOf: Calendar, s: State, rows: seq<Row>, at: int, observed: int): set<int> {
    if s.sync.baseline.Some? then Affects(dayOf, s.table, rows, at, observed) else {}
  }

  function UpsertState(dayOf: Calendar, s: State, rows: seq<Row>, at: int, observed: int): State {
    State(Upsert(s.table, rows, observed), Request(s.queue, Sent(dayOf, s, rows, at, observed), at), s.sync)
  }

  /** `_store_incremental_cycle_cur`; None when it raises. */
  function Cycle(dayOf: Calendar, s: State, rows: seq<Row>, cursor: Option<Key>, at: int, observed: int): Option<State> {
    if !AllAcceptable(rows) || (cursor.Some? && cursor.value.1 <= 0) then None
    else
      var u := UpsertState(dayOf, s, Normalized(rows), at, observed);
      Some(u.(sync := s.sync.(cursor := LaterCursor(s.sync.cursor, cursor), lastIncremental := Some(at))))
  }

  function Active(table: Table): set<int> { set id | id in table && table[id].deletedAt.None? }

  function RowIds(rows: seq<Row>): set<int> { set r | r in rows :: r.id }

  /** The sweep marks the active rows it saw and tombstones the rest. */
  function Swept(table: Table, ids: set<int>, generation: int, observed: int): Table {
    map id | id in table ::
      if table[id].deletedAt.Some? then table[id]
      else if id in ids then table[id].(sweep := Some(generation))
      else table[id].(deletedAt := Some(observed), sweep := Some(generation))
  }

  function RowsDays(dayOf: Calendar, table: Table, ids: set<int>, at: int): set<int>
    requires ids <= table.Keys
  {
    set id, d | id in ids && d in RowDays(dayOf, table[id].row.material, at) :: d
  }

  predicate SweepAllowed(s: State, ids: set<int>, recovery: seq<Row>, generation: int) {
    && (forall id | id in ids :: id > 0) && AllAcceptable(recovery)
    && RowIds(recovery) <= ids
    && generation > 0 && generation == s.sync.generation + 1
    && (forall id | id in RowIds(recovery) :: id in s.table && s.table[id].deletedAt.Some?)
  }

  /** `_store_full_sweep_cur`; None when it raises. */
  function Sweep(dayOf: Calendar, s: State, ids: set<int>, recovery: seq<Row>, generation: int,
                 at: int, observed: int): Option<State>
  {
    if !SweepAllowed(s, ids, recovery, generation) then None
    else
      var u := UpsertState(dayOf, s, Normalized(recovery), at, observed);
      var gone := Active(u.table) - ids;
      var days := if s.sync.baseline.Some? then RowsDays(dayOf, u.table, gone, at) else {};
      Some(State(Swept(u.table, ids, generation, observed), Request(u.queue, days, at),
                 s.sync.(lastSweep := Some(at), generation := generation)))
  }

  /** `_complete_baseline_if_ready` */
  function CompleteBaseline(s: State, at: int): State {
    if s.sync.baseline.None? && s.sync.lastIncremental.Some? && s.sync.lastSweep.Some?
    then s.(sync := s.sync.(baseline := Some(at)))
    else s
  }

  // ---- what a sweep leaves active ---------------------------------------------------

  /** The tombstoned ids whose recovery row outdates the deletion. */
  function Revived(table: Table, recovery: seq<Row>, observed: int): set<int> {
    set id | id in table && table[id].deletedAt.Some? && observed > table[id].deletedAt.value
      && exists r :: r in recovery && r.id == id && r.writeDate >= table[id].row.writeDate
  }

  /** After a sweep exactly the fetched ids among the active and revived rows are active; no row
      is added or dropped. */
  lemma SweepLeavesActive(dayOf: Calendar, s: State, ids: set<int>, recovery: seq<Row>, generation: int, at: int, observed: int)
    requires SweepAllowed(s, ids, recovery, generation)
    ensures var after := Sweep(dayOf, s, ids, recovery, generation, at, observed).value.table;
      && after.Keys == s.table.Keys
      && Active(after) == (Active(s.table) + Revived(s.table, recovery, observed)) * ids
  {
    var u := Upsert(s.table, Normalized(recovery), observed);
    BatchesConcatenate(s.table, recovery, [], observed);
    var after := Sweep(dayOf, s, ids, recovery, generation, at, observed).value.table;
    forall id ensures id in after <==> id in s.table {
      UpsertIsOneMerge(s.table, recovery, observed, id);
      WinnerIsLastMaximal(recovery, id);
      assert id in u <==> Get(u, id).Some?;
      assert Winner(None, recovery, id).Some? ==> id in RowIds(recovery);
    }
    forall id ensures id in Active(after) <==> id in (Active(s.table) + Revived(s.table, recovery, observed)) * ids {
      if id in s.table { UpsertRevives(s.table, recovery, observed, id); }
    }
  }

  // ---- every kind of commit ---------------------------------------------------------

  datatype Commit =
    | Polled(rows: seq<Row>, cursor: Option<Key>, at: int, observed: int)
    | SweptAll(ids: set<int>, recovery: seq<Row>, generation: int, at: int, observed: int)
    | BaselineChecked(at: int)

  /** A transaction that raises leaves everything as it was. */
  function Apply(dayOf: Calendar, s: State, c: Commit): State {
    match c
    case Polled(rows, cursor, at, observed) =>
      var r := Cycle(dayOf, s, rows, cursor, at, observed); if r.Some? then r.value else s
    case SweptAll(ids, recovery, generation, at, observed) =>
      var r := Sweep(dayOf, s, ids, recovery, generation, at, observed); if r.Some? then r.value else s
    case BaselineChecked(at) => CompleteBaseline(s, at)
  }

  function Carried(c: Commit): seq<Row> {
    match c case Polled(rows, _, _, _) => rows case SweptAll(_, rows, _, _, _) => rows case BaselineChecked(_) => []
  }

  predicate NotBefore(a: Option<Key>, b: Option<Key>) {
    b.None? || (a.Some? && !Later(b.value, a.value))
  }

  /** Nothing stored ever moves back, and a tombstone is lifted only by a version observed
      strictly later and no older than the stored one. */
  predicate Forward(s: State, after: State) {
    && s.table.Keys <= after.table.Keys
    && (forall id | id in s.table ::
          && after.table[id].row.writeDate >= s.table[id].row.writeDate
          && after.table[id].lastSeen >= s.table[id].lastSeen
          && after.table[id].firstSeen == s.table[id].firstSeen)
    && NotBefore(after.sync.cursor, s.sync.cursor)
    && after.sync.generation >= s.sync.generation
    && (s.sync.baseline.Some? ==> after.sync.baseline == s.sync.baseline)
  }

  function ObservedAt(c: Commit): int {
    match c case Polled(_, _, _, o) => o case SweptAll(_, _, _, _, o) => o case BaselineChecked(at) => at
  }

  predicate LiftedOnlyLater(s: State, after: State, c: Commit) {
    forall id | id in s.table && s.table[id].deletedAt.Some? ::
      && id in after.table
      && (after.table[id] == s.table[id] || (
            && after.table[id].deletedAt.None? && ObservedAt(c) > s.table[id].deletedAt.value
            && after.table[id].row in Carried(c) && after.table[id].row.writeDate >= s.table[id].row.writeDate))
  }

  lemma NothingGoesBack(dayOf: Calendar, s: State, c: Commit)
    ensures Forward(s, Apply(dayOf, s, c))
  {
    forall id | id in s.table && !c.BaselineChecked? {
      UpsertRevives(s.table, Normalized(Carried(c)), c.observed, id);
    }
  }

  lemma TombstonesLiftOnlyLater(dayOf: Calendar, s: State, c: Commit)
    ensures LiftedOnlyLater(s, Apply(dayOf, s, c), c)
  {
    forall id | id in s.table && !c.BaselineChecked? {
      UpsertRevives(s.table, Normalized(Carried(c)), c.observed, id);
    }
    NormalizedMembers(Carried(c));
  }

  lemma NormalizedMembers(rows: seq<Row>)
    ensures forall r :: r in Normalized(rows) ==> r in rows
  {
    NewestIsUnique(rows);
    SortSorts(ById, NewestById(rows));
  }

  function ApplyAll(dayOf: Calendar, s: State, commits: seq<Commit>): State {
    if commits == [] then s
    else Apply(dayOf, ApplyAll(dayOf, s, commits[..|commits| - 1]), commits[|commits| - 1])
  }

  lemma ForwardChains(a: State, b: State, c: State)
    requires Forward(a, b) && Forward(b, c)
    ensures Forward(a, c)
  {
  }

  /** Over any sequence of commits, accepted or refused. */
  lemma {:induction false} NothingEverGoesBack(dayOf: Calendar, s: State, commits: seq<Commit>)
    ensures Forward(s, ApplyAll(dayOf, s, commits))
  {
    if commits != [] {
      var before := ApplyAll(dayOf, s, commits[..|commits| - 1]);
      NothingEverGoesBack(dayOf, s, commits[..|commits| - 1]);
      NothingGoesBack(dayOf, before, commits[|commits| - 1]);
      ForwardChains(s, before, ApplyAll(dayOf, s, commits));
    }
  }

  /** The tables in place. */
  class Mirror {
    var table: Table
    var sync: Sync
    const queue: RecalcQueue
    const dayOf: Calendar

    constructor (queue: RecalcQueue, dayOf: Calendar)
      ensures this.queue == queue && this.dayOf == dayOf
      ensures table == map[] && sync == Sync(None, None, None, 0, None)
    {
      this.queue, this.dayOf := queue, dayOf;
      table, sync := map[], Sync(None, None, None, 0, None);
    }

    function Contents(): State
      reads this, queue
    {
      State(table, queue.jobs, sync)
    }

    method RequestDays(days: set<int>, at: int)
      modifies queue`jobs
      ensures queue.jobs == Request(old(queue.jobs), days, at)
    {
      if days != {} { queue.EnqueueDays(days, at); }
    }

    /** One turn of the upsert loop. */
    method UpsertRow(incoming: Row, at: int, observed: int) returns (days: set<int>)
      modifies this`table
      ensures table == old(table)[incoming.id := Merge(Get(old(table), incoming.id), incoming, observed).value]
      ensures days == (if sync.baseline.Some? then RowAffects(dayOf, Get(old(table), incoming.id), incoming, at, observed) else {})
    {
      days := {};
      var existing := Get(table, incoming.id);
      if existing.None? {
        table := table[incoming.id := Stored(incoming, observed, observed, None, None)];
        if sync.baseline.Some? { days := RowDaysOf(incoming.material, at); }
      } else if incoming.writeDate < existing.value.row.writeDate || !CanRevive(observed, existing.value.deletedAt) {
        assert table[incoming.id := existing.value] == table;
      } else {
        if sync.baseline.Some? && (existing.value.deletedAt.Some? || existing.value.row.material != incoming.material) {
          var before := RowDaysOf(existing.value.row.material, at);
          var after := RowDaysOf(incoming.material, at);
          days := before + after;
        }
        var lastSeen := if existing.value.lastSeen < observed then observed else existing.value.lastSeen;
        table := table[incoming.id := existing.value.(row := incoming, lastSeen := lastSeen, deletedAt := None)];
      }
    }

    /** `_upsert_rows_cur` */
    method UpsertRows(rows: seq<Row>, at: int, observed: int) returns (affected: set<int>)
      modifies this`table, queue`jobs
      ensures affected == Sent(dayOf, old(Contents()), rows, at, observed)
      ensures Contents() == UpsertState(dayOf, old(Contents()), rows, at, observed)
    {
      affected := {};
      for i := 0 to |rows|
        invariant queue.jobs == old(queue.jobs)
        invariant table == Upsert(old(table), rows[..i], observed)
        invariant affected == Sent(dayOf, old(Contents()), rows[..i], at, observed)
      {
        assert rows[..i + 1][..i] == rows[..i];
        var days := UpsertRow(rows[i], at, observed);
        affected := affected + days;
      }
      assert rows[..|rows|] == rows;
      RequestDays(affected, at);
    }

    /** `_row_days` */
    method RowDaysOf(m: Material, openEnd: int) returns (days: set<int>)
      ensures days == RowDays(dayOf, m, openEnd)
    {
      days := LocalDaysTouched(dayOf, m.checkIn, Some(if m.checkOut.Some? then m.checkOut.value else openEnd));
    }

    /** `_store_incremental_cycle_cur` */
    method StoreIncrementalCycle(rows: seq<Row>, cursor: Option<Key>, at: int, observed: int)
      returns (affected: Option<set<int>>)
      modifies this, queue`jobs
      ensures affected.None? <==> Cycle(dayOf, old(Contents()), rows, cursor, at, observed).None?
      ensures affected.None? ==> Contents() == old(Contents())
      ensures affected.Some? ==> Some(Contents()) == Cycle(dayOf, old(Contents()), rows, cursor, at, observed)
      ensures affected.Some? ==> affected.value == Sent(dayOf, old(Contents()), Normalized(rows), at, observed)
      ensures affected.Some? ==> (
        && sync.cursor in {old(sync.cursor), cursor} && sync.lastIncremental == Some(at)
        && sync.lastSweep == old(sync.lastSweep) && sync.generation == old(sync.generation) && sync.baseline == old(sync.baseline))
    {
      if !AllAcceptable(rows) || (cursor.Some? && cursor.value.1 <= 0) { return None; }
      var newest := CollectNewest(rows);
      var days := UpsertRows(Sort(ById, newest), at, observed);
      sync := sync.(cursor := LaterCursor(sync.cursor, cursor), lastIncremental := Some(at));
      affected := Some(days);
    }

    method DeletedDays(gone: set<int>, at: int) returns (days: set<int>)
      requires gone <= table.Keys
      ensures days == RowsDays(dayOf, table, gone, at)
    {
      days := {};
      var rest := gone;
      while rest != {}
        invariant rest <= gone && days == RowsDays(dayOf, table, gone - rest, at)
        decreases |rest|
      {
        var id := PickOne(rest);
        var more := RowDaysOf(table[id].row.material, at);
        days := days + more;
        rest := rest - {id};
      }
      assert gone - rest == gone;
    }

    /** `_store_full_sweep_cur` */
    method StoreFullSweep(ids: set<int>, recovery: seq<Row>, generation: int, at: int, observed: int)
      returns (deleted: Option<set<int>>)
      modifies this, queue`jobs
      ensures deleted.None? <==> Sweep(dayOf, old(Contents()), ids, recovery, generation, at, observed).None?
      ensures deleted.None? ==> Contents() == old(Contents())
      ensures deleted.Some? ==> Some(Contents()) == Sweep(dayOf, old(Contents()), ids, recovery, generation, at, observed)
      ensures deleted.Some? ==>
        deleted.value == Active(Upsert(old(table), Normalized(recovery), observed)) - ids
      ensures deleted.Some? ==> (
        && generation == old(sync.generation) + 1 == sync.generation && sync.lastSweep == Some(at)
        && sync.cursor == old(sync.cursor) && sync.lastIncremental == old(sync.lastIncremental) && sync.baseline == old(sync.baseline))
      ensures deleted.Some? ==> forall id | id in deleted.value ::
        id !in ids && id in table && table[id].deletedAt == Some(observed)
      ensures deleted.Some? ==> forall id | id in Active(table) :: table[id].sweep == Some(generation)
    {
      if !SweepAllowed(Contents(), ids, recovery, generation) { return None; }
      var newest := CollectNewest(recovery);
      var recovered := UpsertRows(Sort(ById, newest), at, observed);
      var gone := Active(table) - ids;
      var days: set<int> := {};
      if sync.baseline.Some? { days := DeletedDays(gone, at); }
      table := Swept(table, ids, generation, observed);
      RequestDays(days, at);
      sync := sync.(lastSweep := Some(at), generation := generation);
      deleted := Some(gone);
    }

    /** `_complete_baseline_if_ready` */
    method CompleteBaselineIfReady(at: int) returns (ready: bool)
      modifies this`sync
      ensures Contents() == CompleteBaseline(old(Contents()), at)
      ensures ready == sync.baseline.Some?
      ensures ready <==> old(sync.baseline).Some? || (old(sync.lastIncremental).Some? && old(sync.lastSweep).Some?)
      ensures ready ==> sync.baseline == if old(sync.baseline).Some? then old(sync.baseline) else Some(at)
    {
      if sync.baseline.None? && sync.lastIncremental.Some? && sync.lastSweep.Some? {
        sync := sync.(baseline := Some(at));
      }
      ready := sync.baseline.Some?;
    }
  }
}
