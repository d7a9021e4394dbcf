/** What a plant day shows, and which commits send the days whose view they change
    (`attendance_mirror.py`). */
module AttendanceDays {
  import opened Prelude
  import opened Attendance
  import opened AttendanceRecalc
  import opened AttendanceMirror

  // ---- the view of a day ------------------------------------------------------------

  function Shown(dayOf: Calendar, m: Material, d: int): Option<Material> {
    if Meets(dayOf, m, d) then Some(m) else None
  }

  /** What an id contributes to day `d`: the material of its active row, if that meets the day. */
  function Visible(dayOf: Calendar, e: Option<Stored>, d: int): Option<Material> {
    if e.Some? && e.value.deletedAt.None? then Shown(dayOf, e.value.row.material, d) else None
  }

  function DayView(dayOf: Calendar, table: Table, d: int): View {
    map id | id in table && Visible(dayOf, Some(table[id]), d).Some? :: table[id].row.material
  }

  lemma DayViewAt(dayOf: Calendar, table: Table, d: int, id: int)
    ensures Get(DayView(dayOf, table, d), id) == Visible(dayOf, Get(table, id), d)
  {
  }

  lemma DayViewsEqual(dayOf: Calendar, a: Table, b: Table, d: int)
    requires forall id :: Visible(dayOf, Get(a, id), d) == Visible(dayOf, Get(b, id), d)
    ensures DayView(dayOf, a, d) == DayView(dayOf, b, d)
  {
    var va, vb := DayView(dayOf, a, d), DayView(dayOf, b, d);
    forall id | id in va || id in vb ensures id in va && id in vb && va[id] == vb[id] {
      DayViewAt(dayOf, a, d, id);
      DayViewAt(dayOf, b, d, id);
      assert Visible(dayOf, Get(a, id), d) == Visible(dayOf, Get(b, id), d);
    }
  }

  // ---- what one row changes and sends ---------------------------------------------------

  /** A commit at `at` reaches the whole of this row's part of day `d`. */
  predicate Reaches(dayOf: Calendar, m: Material, at: int, d: int) {
    m.checkOut.None? ==> m.checkIn != at && d <= dayOf(at - 1)
  }

  predicate Covered(dayOf: Calendar, m: Material, at: int, d: int) {
    Meets(dayOf, m, d) && Reaches(dayOf, m, at, d)
  }

  /** The row takes effect and shows something else on day `d` than the stored one did. */
  predicate Changes(dayOf: Calendar, e: Option<Stored>, r: Row, observed: int, d: int) {
    TakesEffect(e, r, observed) && Visible(dayOf, e, d) != Shown(dayOf, r.material, d)
  }

  /** The row takes effect and one of its two versions covers the part of day `d` the commit reaches. */
  predicate Reports(dayOf: Calendar, e: Option<Stored>, r: Row, at: int, observed: int, d: int) {
    && TakesEffect(e, r, observed)
    && (e.None? || e.value.deletedAt.Some? || e.value.row.material != r.material)
    && (Covered(dayOf, r.material, at, d) || (e.Some? && Covered(dayOf, e.value.row.material, at, d)))
  }

  lemma ChangesExactly(dayOf: Calendar, e: Option<Stored>, r: Row, observed: int, d: int)
    ensures Changes(dayOf, e, r, observed, d) <==> Visible(dayOf, e, d) != Visible(dayOf, Merge(e, r, observed), d)
  {
  }

  lemma ReportsExactly(dayOf: Calendar, e: Option<Stored>, r: Row, at: int, observed: int, d: int)
    ensures Reports(dayOf, e, r, at, observed, d) ==> d in RowAffects(dayOf, e, r, at, observed)
    ensures Acceptable(r) && (e.Some? ==> Acceptable(e.value.row)) && d in RowAffects(dayOf, e, r, at, observed) ==>
      Reports(dayOf, e, r, at, observed, d)
  {
  }

  lemma {:induction false} UpsertLeavesOthers(table: Table, rows: seq<Row>, observed: int, id: int)
    requires forall r | r in rows :: r.id != id
    ensures Get(Upsert(table, rows, observed), id) == Get(table, id)
  {
    if rows != [] {
      UpsertLeavesOthers(table, rows[..|rows| - 1], observed, id);
      assert rows[|rows| - 1] in rows;
    }
  }

  /** A normalised batch sends exactly the days its rows send one by one. */
  lemma {:induction false} AffectsExactly(dayOf: Calendar, table: Table, rows: seq<Row>, at: int, observed: int, d: int)
    requires UniqueIds(rows)
    ensures d in Affects(dayOf, table, rows, at, observed) <==>
      exists r :: r in rows && d in RowAffects(dayOf, Get(table, r.id), r, at, observed)
  {
    if rows != [] {
      var front, last := rows[..|rows| - 1], rows[|rows| - 1];
      AffectsExactly(dayOf, table, front, at, observed, d);
      UpsertLeavesOthers(table, front, observed, last.id);
      assert forall r :: r in rows <==> r in front || r == last;
    }
  }

  lemma UpsertedEntry(table: Table, rows: seq<Row>, observed: int, r: Row)
    requires UniqueIds(rows) && r in rows
    ensures Get(Upsert(table, rows, observed), r.id) == Merge(Get(table, r.id), r, observed)
  {
    UpsertIsOneMerge(table, rows, observed, r.id);
    WinnerOfUnique(rows, r.id);
    UniqueFind(rows, r);
  }

  // ---- what a commit changes and sends ----------------------------------------------------

  predicate Accepts(s: State, c: Commit) {
    match c
    case Polled(rows, cursor, _, _) => AllAcceptable(rows) && (cursor.Some? ==> cursor.value.1 > 0)
    case SweptAll(ids, recovery, generation, _, _) => SweepAllowed(s, ids, recovery, generation)
    case BaselineChecked(_) => false
  }

  function Incoming(c: Commit): seq<Row> { Normalized(Carried(c)) }

  /** The active rows a sweep did not see. */
  function Dropped(s: State, c: Commit): (ids: set<int>)
    ensures ids <= s.table.Keys
  {
    if c.SweptAll? then Active(s.table) - c.ids else {}
  }

  /** Some row of the commit changes what day `d` shows, or a dropped row met it. */
  predicate CommitChanges(dayOf: Calendar, s: State, c: Commit, d: int) {
    Accepts(s, c) && (
      || (exists r :: r in Incoming(c) && Changes(dayOf, Get(s.table, r.id), r, c.observed, d))
      || (exists id :: id in Dropped(s, c) && Meets(dayOf, s.table[id].row.material, d)))
  }

  /** Some row of the commit that takes effect covers, before or after, the part of day `d` the
      commit reaches, or a dropped row does. */
  predicate CommitReports(dayOf: Calendar, s: State, c: Commit, d: int) {
    Accepts(s, c) && (
      || (exists r :: r in Incoming(c) && Reports(dayOf, Get(s.table, r.id), r, c.at, c.observed, d))
      || (exists id :: id in Dropped(s, c) && Covered(dayOf, s.table[id].row.material, c.at, d)))
  }

  /** The days a commit sends, once the baseline is complete. */
  function SentDays(dayOf: Calendar, s: State, c: Commit): set<int> {
    if !Accepts(s, c) then {}
    else Affects(dayOf, s.table, Incoming(c), c.at, c.observed) + RowsDays(dayOf, s.table, Dropped(s, c), c.at)
  }

  /** The rows kept through a sweep, and the rows it drops, before the tombstones are laid. */
  lemma DroppedExactly(s: State, c: Commit)
    requires c.SweptAll? && Accepts(s, c)
    ensures var u := Upsert(s.table, Incoming(c), c.observed);
      && Active(u) - c.ids == Dropped(s, c)
      && forall id :: id !in c.ids ==> Get(u, id) == Get(s.table, id)
  {
    var u := Upsert(s.table, Incoming(c), c.observed);
    NormalizedMembers(c.recovery);
    forall id | id !in c.ids ensures Get(u, id) == Get(s.table, id) {
      assert forall r | r in Incoming(c) :: r.id in RowIds(c.recovery);
      UpsertLeavesOthers(s.table, Incoming(c), c.observed, id);
    }
    forall id ensures id in Active(u) - c.ids <==> id in Dropped(s, c) {
      if id !in c.ids { assert Get(u, id) == Get(s.table, id); }
    }
  }

  lemma RequestTwice(queue: Queue, a: set<int>, b: set<int>, at: int)
    ensures Request(Request(queue, a, at), b, at) == Request(queue, a + b, at)
  {
    var once, twice := Request(queue, a + b, at), Request(Request(queue, a, at), b, at);
    assert once.Keys == twice.Keys;
  }

  lemma CommitSends(dayOf: Calendar, s: State, c: Commit)
    requires s.sync.baseline.Some?
    ensures Apply(dayOf, s, c).queue == Request(s.queue, SentDays(dayOf, s, c), if c.BaselineChecked? then 0 else c.at)
  {
    if c.Polled? && Accepts(s, c) {
      assert SentDays(dayOf, s, c) == Affects(dayOf, s.table, Incoming(c), c.at, c.observed);
    } else if c.SweptAll? && Accepts(s, c) {
      var u := Upsert(s.table, Incoming(c), c.observed);
      DroppedExactly(s, c);
      assert forall id | id in Dropped(s, c) :: Get(u, id) == Get(s.table, id);
      assert RowsDays(dayOf, u, Dropped(s, c), c.at) == RowsDays(dayOf, s.table, Dropped(s, c), c.at);
      RequestTwice(s.queue, Affects(dayOf, s.table, Incoming(c), c.at, c.observed),
                   RowsDays(dayOf, s.table, Dropped(s, c), c.at), c.at);
    }
  }

  /** What each id shows after an accepted commit. */
  lemma VisibleAfter(dayOf: Calendar, s: State, c: Commit, id: int, d: int)
    requires Accepts(s, c)
    ensures var v := Visible(dayOf, Get(Apply(dayOf, s, c).table, id), d);
      && (id in Dropped(s, c) ==> v.None?)
      && (forall r | r in Incoming(c) && r.id == id :: v == Visible(dayOf, Merge(Get(s.table, id), r, c.observed), d))
      && (id !in Dropped(s, c) && (forall r | r in Incoming(c) :: r.id != id) ==> v == Visible(dayOf, Get(s.table, id), d))
    ensures forall r | r in Incoming(c) :: r.id !in Dropped(s, c)
  {
    var u := Upsert(s.table, Incoming(c), c.observed);
    NewestIsUnique(Carried(c));
    SortSorts(ById, NewestById(Carried(c)));
    NormalizedMembers(Carried(c));
    if c.SweptAll? { DroppedExactly(s, c); }
    if r :| r in Incoming(c) && r.id == id {
      UpsertedEntry(s.table, Incoming(c), c.observed, r);
      assert forall x | x in Incoming(c) && x.id == id :: x == r by {
        forall x | x in Incoming(c) && x.id == id ensures x == r {
          UniqueFind(Incoming(c), x);
          UniqueFind(Incoming(c), r);
        }
      }
    } else {
      UpsertLeavesOthers(s.table, Incoming(c), c.observed, id);
    }
  }

  /** Exactly when a commit of either kind changes what a day shows, and exactly which days it
      sends; so it leaves a changed day unsent if and only if `Misses` holds. */
  lemma CommitMissesExactly(dayOf: Calendar, s: State, c: Commit, d: int)
    requires TableOk(s.table)
    ensures DayView(dayOf, Apply(dayOf, s, c).table, d) != DayView(dayOf, s.table, d) <==> CommitChanges(dayOf, s, c, d)
    ensures d in SentDays(dayOf, s, c) <==> CommitReports(dayOf, s, c, d)
  {
    CommitChangesExactly(dayOf, s, c, d);
    CommitReportsExactly(dayOf, s, c, d);
  }

  lemma CommitChangesExactly(dayOf: Calendar, s: State, c: Commit, d: int)
    ensures DayView(dayOf, Apply(dayOf, s, c).table, d) != DayView(dayOf, s.table, d) <==> CommitChanges(dayOf, s, c, d)
  {
    var before, after := s.table, Apply(dayOf, s, c).table;
    if !Accepts(s, c) {
      assert after == before;
    } else if r :| r in Incoming(c) && Changes(dayOf, Get(before, r.id), r, c.observed, d) {
      VisibleAfter(dayOf, s, c, r.id, d);
      DayViewAt(dayOf, before, d, r.id);
      DayViewAt(dayOf, after, d, r.id);
    } else if id :| id in Dropped(s, c) && Meets(dayOf, before[id].row.material, d) {
      VisibleAfter(dayOf, s, c, id, d);
      DayViewAt(dayOf, before, d, id);
      DayViewAt(dayOf, after, d, id);
    } else {
      forall id ensures Visible(dayOf, Get(before, id), d) == Visible(dayOf, Get(after, id), d) {
        VisibleAfter(dayOf, s, c, id, d);
        if r :| r in Incoming(c) && r.id == id { ChangesExactly(dayOf, Get(before, id), r, c.observed, d); }
      }
      DayViewsEqual(dayOf, before, after, d);
    }
  }

  lemma RowsDaysExactly(dayOf: Calendar, table: Table, ids: set<int>, at: int, d: int)
    requires ids <= table.Keys
    ensures (exists id :: id in ids && Covered(dayOf, table[id].row.material, at, d)) ==> d in RowsDays(dayOf, table, ids, at)
    ensures TableOk(table) && d in RowsDays(dayOf, table, ids, at) ==>
      exists id :: id in ids && Covered(dayOf, table[id].row.material, at, d)
  {
    if id :| id in ids && Covered(dayOf, table[id].row.material, at, d) {
      RowDaysMissed(dayOf, table[id].row.material, at, d);
    }
    if d in RowsDays(dayOf, table, ids, at) && TableOk(table) {
      var id :| id in ids && d in RowDays(dayOf, table[id].row.material, at);
      assert Acceptable(table[id].row);
    }
  }

  lemma CommitReportsExactly(dayOf: Calendar, s: State, c: Commit, d: int)
    ensures CommitReports(dayOf, s, c, d) ==> d in SentDays(dayOf, s, c)
    ensures TableOk(s.table) && d in SentDays(dayOf, s, c) ==> CommitReports(dayOf, s, c, d)
  {
    if Accepts(s, c) {
      NewestIsUnique(Carried(c));
      SortSorts(ById, NewestById(Carried(c)));
      NormalizedMembers(Carried(c));
      AffectsExactly(dayOf, s.table, Incoming(c), c.at, c.observed, d);
      forall r | r in Incoming(c) { ReportsExactly(dayOf, Get(s.table, r.id), r, c.at, c.observed, d); }
      RowsDaysExactly(dayOf, s.table, Dropped(s, c), c.at, d);
    }
  }

  /** The job waits with no claim on it. */
  predicate Waiting(queue: Queue, d: int) {
    d in queue && queue[d].startedAt.None? && queue[d].completedAt.None?
  }

  /** The commit reaches day `d` of the rows it carries, of their stored versions, and of the rows
      it drops. */
  predicate CommitReaches(dayOf: Calendar, s: State, c: Commit, d: int) {
    Accepts(s, c) ==>
      && (forall r | r in Incoming(c) ::
            Reaches(dayOf, r.material, c.at, d) && (r.id in s.table ==> Reaches(dayOf, s.table[r.id].row.material, c.at, d)))
      && (forall id | id in Dropped(s, c) :: Reaches(dayOf, s.table[id].row.material, c.at, d))
  }

  /** The commit changes what the day shows and does not send it. */
  predicate Misses(dayOf: Calendar, s: State, c: Commit, d: int) {
    CommitChanges(dayOf, s, c, d) && !CommitReports(dayOf, s, c, d)
  }

  /** A reached day is not missed. */
  lemma ReachedIsNotMissed(dayOf: Calendar, s: State, c: Commit, d: int)
    requires CommitReaches(dayOf, s, c, d)
    ensures !Misses(dayOf, s, c, d)
  {
    if r :| Accepts(s, c) && r in Incoming(c) && Changes(dayOf, Get(s.table, r.id), r, c.observed, d) {
      assert Reports(dayOf, Get(s.table, r.id), r, c.at, c.observed, d);
    } else if id :| Accepts(s, c) && id in Dropped(s, c) && Meets(dayOf, s.table[id].row.material, d) {
      assert Covered(dayOf, s.table[id].row.material, c.at, d);
    }
  }

  /** Once the baseline is complete, a commit that changes what a reached day shows leaves the day
      waiting in the queue, cut off from every earlier claim; whatever it does not send keeps its
      job. */
  lemma NoChangedDayMissed(dayOf: Calendar, s: State, c: Commit, d: int)
    requires s.sync.baseline.Some? && CommitReaches(dayOf, s, c, d)
    ensures var after := Apply(dayOf, s, c);
      if d in SentDays(dayOf, s, c) then Waiting(after.queue, d)
      else DayView(dayOf, after.table, d) == DayView(dayOf, s.table, d) && Get(after.queue, d) == Get(s.queue, d)
  {
    CommitSends(dayOf, s, c);
    CommitChangesExactly(dayOf, s, c, d);
    CommitReportsExactly(dayOf, s, c, d);
    ReachedIsNotMissed(dayOf, s, c, d);
  }

  /** Why the commit has to reach the day: an open row that arrives on day 0 already shows in the
      view of day 1, which is not sent, even when day 1 was completed before. */
  lemma FutureDayMissed(job: Job) returns (dayOf: Calendar, s: State, c: Commit)
    ensures IsCalendar(dayOf) && s.sync.baseline.Some? && s.queue == map[1 := job] && TableOk(s.table)
    ensures DayView(dayOf, s.table, 1) == map[]
    ensures DayView(dayOf, Apply(dayOf, s, c).table, 1) != map[]
    ensures Get(Apply(dayOf, s, c).queue, 1) == Some(job)
    ensures Misses(dayOf, s, c, 1)
  {
    dayOf := (t: int) => t / 10;
    s := State(map[], map[1 := job], Sync(None, Some(0), Some(0), 1, Some(0)));
    var row := Row(1, None, Material(1, 2, None, None, None, None, None), 3);
    c := Polled([row], None, 5, 5);
    assert forall t :: DayStep(dayOf, t);
    assert NewestById([row]) == [row];
    assert Sort(ById, [row]) == Insert(ById, row, Sort(ById, []));
    assert Incoming(c) == [row] && row in Incoming(c);
    assert Changes(dayOf, None, row, 5, 1);
    CommitMissesExactly(dayOf, s, c, 1);
    CommitSends(dayOf, s, c);
    assert DayView(dayOf, s.table, 1) == map[];
  }
}
