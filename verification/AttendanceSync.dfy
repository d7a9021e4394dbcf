/** Whole synchronisation runs: what is read from Odoo page by page ends up in the mirror
    (`attendance_sync.py`). */
module AttendanceSync {
  import opened Prelude
  import opened Attendance
  import opened AttendanceRecalc
  import opened AttendanceMirror
  import opened OdooDomain
  import Odoo = OdooAttendance

  const ID_PAGE_SIZE: int := 500
  const PAGE_SIZE: int := 250
  const CHUNK_SIZE: int := 250
  /** Two minutes, in microseconds. */
  const OVERLAP: int := 120_000_000

  ghost predicate PresentThroughout(env: nat -> seq<Row>, calls: nat, id: int) {
    forall k: nat | k < calls :: id in Odoo.Ids(env(k))
  }

  /** Every call from `start` on found the id. */
  ghost predicate PresentFrom(env: nat -> seq<Row>, start: nat, calls: nat, id: int) {
    forall k: nat | start <= k < calls :: id in Odoo.Ids(env(k))
  }

  ghost predicate AbsentThroughout(env: nat -> seq<Row>, calls: nat, id: int) {
    forall k: nat | k < calls :: id !in Odoo.Ids(env(k))
  }

  ghost predicate SawUnacceptable(env: nat -> seq<Row>, calls: nat) {
    exists r :: Odoo.Seen(env, calls, r) && !Acceptable(r)
  }

  /** A row that the mirror refuses was read, or an id of the mirror came or went between the calls. */
  ghost predicate Disturbed(env: nat -> seq<Row>, calls: nat, table: Table) {
    || SawUnacceptable(env, calls)
    || (exists id :: id in table && !PresentThroughout(env, calls, id) && !AbsentThroughout(env, calls, id))
  }

  // ---- reading rows by id -------------------------------------------------------------

  function Named(table: seq<Row>, ids: set<int>): seq<Row> {
    if table == [] then []
    else (if table[0].id in ids then [table[0]] else []) + Named(table[1..], ids)
  }

  lemma {:induction false} NamedRows(table: seq<Row>, ids: set<int>)
    ensures forall r :: r in Named(table, ids) <==> r in table && r.id in ids
    ensures UniqueIds(table) ==> UniqueIds(Named(table, ids))
  {
    if table != [] {
      NamedRows(table[1..], ids);
      assert UniqueIds(table) ==> forall r | r in table[1..] :: r.id != table[0].id;
    }
  }

  /** `fetch_attendance_rows_by_ids` */
  function RowsByIds(table: seq<Row>, ids: set<int>): seq<Row> { Sort(ById, Named(table, ids)) }

  lemma RowsByIdsReads(table: seq<Row>, ids: set<int>)
    requires UniqueIds(table)
    ensures UniqueIds(RowsByIds(table, ids))
    ensures forall r :: r in RowsByIds(table, ids) <==> r in table && r.id in ids
  {
    NamedRows(table, ids);
    SortSorts(ById, Named(table, ids));
  }

  method TakeChunk(ids: set<int>) returns (chunk: set<int>)
    requires ids != {}
    ensures chunk <= ids && chunk != {} && |chunk| <= CHUNK_SIZE
  {
    var rest := ids;
    chunk := {};
    while rest != {} && |chunk| < CHUNK_SIZE
      invariant chunk == ids - rest && rest <= ids && |chunk| <= CHUNK_SIZE
      invariant rest != ids ==> chunk != {}
      decreases |rest|
    {
      var id := PickOne(rest);
      rest := rest - {id};
      chunk := chunk + {id};
    }
  }

  /** `_read_rows_by_ids`, starting at call `start`: the rows found, each id once, each as some call
      found it; None when it raises.  The chunks may be taken in any order. */
  method ReadRowsByIds(env: nat -> seq<Row>, start: nat, ids: set<int>, requireAll: bool)
    returns (found: Option<seq<Row>>, calls: nat)
    requires forall k: nat :: Odoo.IdTable(env(k))
    ensures calls >= start
    ensures found.None? && !SawUnacceptable(env, calls) ==>
      requireAll && exists id :: id in ids && !PresentThroughout(env, calls, id)
    ensures found.Some? ==> RowIds(found.value) <= ids && AllAcceptable(found.value)
    ensures found.Some? ==> forall r | r in found.value :: Odoo.Seen(env, calls, r)
    ensures found.Some? && requireAll ==> RowIds(found.value) == ids
    ensures found.Some? ==> forall id | id in ids && PresentFrom(env, start, calls, id) ::
      id in RowIds(found.value)
  {
    calls := start;
    var rows: seq<Row> := [];
    var rest := ids;
    while rest != {}
      invariant rest <= ids && calls >= start && AllAcceptable(rows)
      invariant forall r | r in rows :: r.id in ids && Odoo.Seen(env, calls, r)
      invariant forall id | id in ids - rest && PresentFrom(env, start, calls, id) ::
        id in RowIds(rows)
      decreases |rest|
    {
      var chunk := TakeChunk(rest);
      var page := RowsByIds(env(calls), chunk);
      RowsByIdsReads(env(calls), chunk);
      if !AllAcceptable(page) {
        var r :| r in page && !Acceptable(r);
        assert r in env(calls);
        return None, calls + 1;
      }
      forall id | id in ids - (rest - chunk) && PresentFrom(env, start, calls + 1, id)
        ensures id in RowIds(rows + page)
      {
        assert id in Odoo.Ids(env(calls));
        if id in chunk {
          var r := Odoo.RowOfId(env(calls), id);
          assert r in rows + page;
        } else {
          assert id in RowIds(rows);
          var r := Odoo.RowOfId(rows, id);
          assert r in rows + page;
        }
      }
      calls := calls + 1;
      assert forall r | r in page :: r in env(calls - 1);
      rows := rows + page;
      rest := rest - chunk;
    }
    if requireAll && RowIds(rows) != ids {
      assert ids - RowIds(rows) == {} ==> RowIds(rows) == ids;
      var id := AnyKey(ids - RowIds(rows));
      assert id in ids && !PresentThroughout(env, calls, id);
      return None, calls;
    }
    found := Some(rows);
  }

  // ---- a full sweep -------------------------------------------------------------------

  function AsSet(ids: seq<int>): set<int> { set id | id in ids }

  function Tombstoned(table: Table, ids: set<int>): set<int> {
    set id | id in ids && id in table && table[id].deletedAt.Some?
  }

  /** Two different calls did not find the id. */
  ghost predicate AbsentTwice(env: nat -> seq<Row>, calls: nat, id: int, j: nat, k: nat) {
    j < k < calls && id !in Odoo.Ids(env(j)) && id !in Odoo.Ids(env(k))
  }

  /** What a committed sweep does to the ids it did not fetch. */
  lemma UnfetchedIds(dayOf: Calendar, s: State, ids: set<int>, recovery: seq<Row>, generation: int, at: int, observed: int)
    requires SweepAllowed(s, ids, recovery, generation)
    ensures var after := Sweep(dayOf, s, ids, recovery, generation, at, observed).value.table;
      forall id | id in s.table && id !in ids ::
        id in after && after[id].deletedAt == if s.table[id].deletedAt.Some? then s.table[id].deletedAt else Some(observed)
  {
    SweepLeavesActive(dayOf, s, ids, recovery, generation, at, observed);
    NormalizedMembers(recovery);
    forall id | id in s.table && id !in ids {
      UpsertRevives(s.table, Normalized(recovery), observed, id);
    }
  }

  /** `_run_full_sweep_locked`: while Odoo rows are created, edited and deleted between the calls,
      a committed sweep keeps active every active mirrored row present throughout, and tombstones
      every one absent throughout. */
  method RunFullSweep(env: nat -> seq<Row>, mirror: Mirror, at: int, observed: int)
    returns (committed: bool, fetched: set<int>, calls: nat)
    requires forall k: nat :: Odoo.IdTable(env(k))
    modifies mirror, mirror.queue`jobs
    ensures !committed ==> mirror.Contents() == old(mirror.Contents())
    ensures !committed ==> old(mirror.sync.generation) < 0 || Disturbed(env, calls, old(mirror.table))
    ensures committed ==> mirror.table.Keys == old(mirror.table).Keys
    ensures committed ==> forall id | id in Active(old(mirror.table)) ::
      && (PresentThroughout(env, calls, id) ==> id in Active(mirror.table))
      && (AbsentThroughout(env, calls, id) ==>
            id in mirror.table && mirror.table[id].deletedAt == Some(observed))
    ensures committed ==> forall id | id in old(mirror.table) && old(mirror.table)[id].deletedAt.Some? ::
      AbsentThroughout(env, calls, id) ==> mirror.table[id].deletedAt == old(mirror.table)[id].deletedAt
    ensures committed && fetched == {} ==> forall id | id in Active(old(mirror.table)) ::
      exists j: nat, k: nat :: AbsentTwice(env, calls, id, j, k)
    ensures committed ==> exists recovery: seq<Row> ::
      && RowIds(recovery) == Tombstoned(old(mirror.table), fetched)
      && (forall r | r in recovery :: Odoo.Seen(env, calls, r))
      && Active(mirror.table) == (Active(old(mirror.table)) + Revived(old(mirror.table), recovery, observed)) * fetched
  {
    var ids;
    ids, calls := Odoo.FetchAllIds(env, ID_PAGE_SIZE);
    fetched := AsSet(ids.value);
    ghost var fetchCalls := calls;
    assert forall id | PresentThroughout(env, fetchCalls, id) :: id in fetched;
    var active := Active(mirror.table);
    if fetched == {} && active != {} {
      var confirmation;
      confirmation, calls := ReadRowsByIds(env, calls, active, false);
      if confirmation.None? || confirmation.value != [] {
        if confirmation.Some? {
          var r := confirmation.value[0];
          assert r in confirmation.value && r.id in RowIds(confirmation.value);
          CameAndWent(env, fetchCalls, calls, mirror.table, r);
        }
        return false, fetched, calls;
      }
      ConfirmedAbsent(env, fetchCalls, calls, active);
    }
    ghost var confirmCalls := calls;
    var recovery;
    recovery, calls := ReadRowsByIds(env, calls, Tombstoned(mirror.table, fetched), true);
    if recovery.None? {
      FetchedAndGone(env, fetchCalls, calls, mirror.table, fetched);
      return false, fetched, calls;
    }
    assert forall id | PresentThroughout(env, calls, id) :: PresentThroughout(env, fetchCalls, id);
    committed := Store(mirror, fetched, recovery.value, at, observed);
    assert forall id, j: nat, k: nat | AbsentTwice(env, confirmCalls, id, j, k) :: AbsentTwice(env, calls, id, j, k);
  }

  /** Ids that neither the sweep nor the direct reads found. */
  lemma ConfirmedAbsent(env: nat -> seq<Row>, fetchCalls: nat, calls: nat, ids: set<int>)
    requires fetchCalls <= calls
    requires forall id | id in ids :: !PresentThroughout(env, fetchCalls, id) && !PresentFrom(env, fetchCalls, calls, id)
    ensures forall id | id in ids :: exists j: nat, k: nat :: AbsentTwice(env, calls, id, j, k)
  {
    forall id | id in ids ensures exists j: nat, k: nat :: AbsentTwice(env, calls, id, j, k) {
      var j: nat :| j < fetchCalls && id !in Odoo.Ids(env(j));
      var k: nat :| fetchCalls <= k < calls && id !in Odoo.Ids(env(k));
      assert AbsentTwice(env, calls, id, j, k);
    }
  }

  /** An active row read although its id was not fetched. */
  lemma CameAndWent(env: nat -> seq<Row>, fetchCalls: nat, calls: nat, table: Table, r: Row)
    requires fetchCalls <= calls && r.id in table
    requires !PresentThroughout(env, fetchCalls, r.id) && Odoo.Seen(env, calls, r)
    ensures Disturbed(env, calls, table)
  {
    var k: nat :| k < calls && r in env(k);
    assert r.id in Odoo.Ids(env(k));
    assert !PresentThroughout(env, calls, r.id) && !AbsentThroughout(env, calls, r.id);
  }

  /** A fetched tombstone that could not be read again. */
  lemma FetchedAndGone(env: nat -> seq<Row>, fetchCalls: nat, calls: nat, table: Table, fetched: set<int>)
    requires fetchCalls <= calls
    requires forall id | id in fetched :: exists k: nat :: k < fetchCalls && id in Odoo.Ids(env(k))
    requires SawUnacceptable(env, calls)
      || exists id :: id in Tombstoned(table, fetched) && !PresentThroughout(env, calls, id)
    ensures Disturbed(env, calls, table)
  {
    if id :| id in Tombstoned(table, fetched) && !PresentThroughout(env, calls, id) {
      var k: nat :| k < fetchCalls && id in Odoo.Ids(env(k));
      assert !AbsentThroughout(env, calls, id);
    }
  }

  method Store(mirror: Mirror, fetched: set<int>, recovery: seq<Row>, at: int, observed: int) returns (committed: bool)
    requires RowIds(recovery) == Tombstoned(mirror.table, fetched)
    requires (forall id | id in fetched :: id > 0) && AllAcceptable(recovery)
    modifies mirror, mirror.queue`jobs
    ensures !committed ==> mirror.Contents() == old(mirror.Contents()) && mirror.sync.generation < 0
    ensures committed ==> mirror.table.Keys == old(mirror.table).Keys
    ensures committed ==>
      Active(mirror.table) == (Active(old(mirror.table)) + Revived(old(mirror.table), recovery, observed)) * fetched
    ensures committed ==> forall id | id in old(mirror.table) && id !in fetched ::
      mirror.table[id].deletedAt ==
        if old(mirror.table)[id].deletedAt.Some? then old(mirror.table)[id].deletedAt else Some(observed)
  {
    ghost var before := mirror.Contents();
    var deleted := mirror.StoreFullSweep(fetched, recovery, mirror.sync.generation + 1, at, observed);
    committed := deleted.Some?;
    if committed {
      SweepLeavesActive(mirror.dayOf, before, fetched, recovery, before.sync.generation + 1, at, observed);
      UnfetchedIds(mirror.dayOf, before, fetched, recovery, before.sync.generation + 1, at, observed);
    }
  }

  // ---- an incremental cycle -----------------------------------------------------------

  function KeyOf(r: Row): Key { (r.writeDate, r.id) }

  /** `_cursor_for`: the greatest (write date, id). */
  function CursorFor(rows: seq<Row>): (c: Option<Key>)
    ensures forall r | r in rows :: c.Some? && !Later(KeyOf(r), c.value)
    ensures c.Some? ==> exists r :: r in rows && KeyOf(r) == c.value
  {
    if rows == [] then None
    else
      var rest := CursorFor(rows[1..]);
      if rest.Some? && Later(rest.value, KeyOf(rows[0])) then rest
      else
        assert rows[0] in rows;
        Some(KeyOf(rows[0]))
  }

  const OPEN_ROWS: seq<Expression> := [Bare(Condition(CheckOutField, Eq, None))]

  lemma OpenRowsMeaning(r: Row)
    ensures Odoo.Sound(OPEN_ROWS) && (AllHold(OPEN_ROWS, r) <==> r.material.checkOut.None?)
  {
    forall x ensures Meaning(Tokens(OPEN_ROWS[0]), x) == Some(x.material.checkOut.None?) {
      BareMeaning(Condition(CheckOutField, Eq, None), x);
    }
  }

  lemma OpenRowIsRead(env: nat -> seq<Row>, from: nat, calls: nat, opens: seq<Row>, r: Row)
    requires forall k: nat :: Odoo.IdTable(env(k))
    requires calls > 0 && Odoo.Throughout(env, from + calls, r) && r.material.checkOut.None?
    requires var later := (k: nat) => env(from + k);
      && (forall id :: Odoo.HasIdThroughout(later, calls, OPEN_ROWS, id) ==> exists x :: x in opens && x.id == id)
      && (forall x :: x in opens ==> AllHold(OPEN_ROWS, x) && Odoo.Seen(later, calls, x))
    ensures r in opens
  {
    var later := (k: nat) => env(from + k);
    OpenRowsMeaning(r);
    forall k: nat | k < calls ensures Odoo.HasId(later(k), OPEN_ROWS, r.id) {
      assert r in env(from + k);
    }
    assert Odoo.HasIdThroughout(later, calls, OPEN_ROWS, r.id);
    var x :| x in opens && x.id == r.id;
    var k: nat :| k < calls && x in later(k);
    assert Odoo.IdTable(env(from + k));
    UniqueFind(env(from + k), x);
    UniqueFind(env(from + k), r);
  }

  /** The version that wins in what was read takes effect in the mirror. */
  lemma WinnerIsStored(dayOf: Calendar, s: State, rows: seq<Row>, cursor: Option<Key>, at: int, observed: int, r: Row)
    requires Winner(None, rows, r.id) == Some(r) && TakesEffect(Get(s.table, r.id), r, observed)
    requires Cycle(dayOf, s, Normalized(rows), cursor, at, observed).Some?
    ensures var after := Cycle(dayOf, s, Normalized(rows), cursor, at, observed).value.table;
      r.id in after && after[r.id].row == r && after[r.id].deletedAt.None?
  {
    NormalizedKeepsWinner(rows, r.id);
    NormalizedKeepsWinner(Normalized(rows), r.id);
    var batch := Normalized(Normalized(rows));
    UpsertIsOneMerge(s.table, batch, observed, r.id);
    assert Get(Upsert(s.table, batch, observed), r.id) == Merge(Get(s.table, r.id), r, observed);
  }

  /** Written since the cursor, or within the overlap before it. */
  predicate Recent(cursor: Option<Key>, r: Row) { cursor.Some? ==> r.writeDate >= cursor.value.0 - OVERLAP }

  /** The two reads of a cycle.  A row that stays as it is and is new since the cursor, or open, is
      the version that wins among what was read. */
  method ReadCycle(env: nat -> seq<Row>, ghost idBound: int, cursor: Option<Key>)
    returns (changes: seq<Row>, opens: seq<Row>, calls: nat)
    requires Odoo.Versions(env, idBound)
    ensures forall x | x in changes + opens :: Odoo.Seen(env, calls, x)
    ensures forall r :: Odoo.Throughout(env, calls, r) && Recent(cursor, r) ==> r in changes
    ensures forall r :: Odoo.Throughout(env, calls, r) && (Recent(cursor, r) || r.material.checkOut.None?) ==>
      Winner(None, changes + opens, r.id) == Some(r)
  {
    var changed, changeCalls := Odoo.FetchAttendanceChanges(env, idBound, cursor, OVERLAP, PAGE_SIZE);
    changes := changed.value;
    forall k: nat ensures Odoo.IdTable(env(k)) { assert Odoo.Version(env(k), idBound); }
    OpenRowsMeaning(Row(0, None, Material(0, 0, None, None, None, None, None), 0));
    var open, openCalls := Odoo.FetchIdPages((k: nat) => env(changeCalls + k), OPEN_ROWS, PAGE_SIZE);
    opens := open.value;
    calls := changeCalls + openCalls;
    forall x | x in changes + opens ensures Odoo.Seen(env, calls, x) {
      if x in changes {
        assert Odoo.Seen(env, changeCalls, x);
      } else {
        SeenLater(env, changeCalls, openCalls, x);
      }
    }
    forall r | Odoo.Throughout(env, calls, r) && (Recent(cursor, r) || r.material.checkOut.None?)
      ensures Winner(None, changes + opens, r.id) == Some(r)
    {
      if Recent(cursor, r) {
        assert Odoo.Throughout(env, changeCalls, r);
      } else {
        OpenRowIsRead(env, changeCalls, openCalls, opens, r);
      }
      Odoo.StableRowSurvives(env, idBound, calls, changes + opens, r);
    }
    forall r | Odoo.Throughout(env, calls, r) && Recent(cursor, r) ensures r in changes {
      assert Odoo.Throughout(env, changeCalls, r);
    }
  }

  lemma SeenLater(env: nat -> seq<Row>, from: nat, calls: nat, x: Row)
    requires Odoo.Seen((k: nat) => env(from + k), calls, x)
    ensures Odoo.Seen(env, from + calls, x)
  {
    var later := (k: nat) => env(from + k);
    var k: nat :| k < calls && x in later(k);
    assert x in env(from + k);
  }

  /** Acceptable rows make an acceptable cycle. */
  lemma CycleAccepts(dayOf: Calendar, s: State, changes: seq<Row>, opens: seq<Row>, at: int, observed: int)
    requires AllAcceptable(changes) && AllAcceptable(opens)
    ensures Cycle(dayOf, s, Normalized(changes + opens), CursorFor(changes), at, observed).Some?
  {
    NormalizedMembers(changes + opens);
  }

  /** `_run_incremental_locked`: every row that stays as it is during the cycle, and is either new
      since the cursor or open, is in the mirror afterwards unless the mirror already knows better;
      and the new cursor is past every such new row. */
  method RunIncremental(env: nat -> seq<Row>, ghost idBound: int, mirror: Mirror, at: int, observed: int)
    returns (committed: bool, calls: nat)
    requires Odoo.Versions(env, idBound)
    modifies mirror, mirror.queue`jobs
    ensures !committed ==> mirror.Contents() == old(mirror.Contents()) && SawUnacceptable(env, calls)
    ensures committed ==> forall r ::
      && Odoo.Throughout(env, calls, r) && TakesEffect(Get(old(mirror.table), r.id), r, observed)
      && (Recent(old(mirror.sync.cursor), r) || r.material.checkOut.None?)
      ==> r.id in mirror.table && mirror.table[r.id].row == r && mirror.table[r.id].deletedAt.None?
    ensures committed ==> NotBefore(mirror.sync.cursor, old(mirror.sync.cursor))
    ensures committed && mirror.sync.cursor != old(mirror.sync.cursor) ==>
      exists r :: Odoo.Seen(env, calls, r) && mirror.sync.cursor == Some(KeyOf(r))
    ensures committed ==> forall r :: Odoo.Throughout(env, calls, r) && mirror.sync.cursor.Some? ==>
      !Odoo.After(mirror.sync.cursor, r)
  {
    ghost var before := mirror.Contents();
    var changes, opens;
    changes, opens, calls := ReadCycle(env, idBound, mirror.sync.cursor);
    if !AllAcceptable(changes) || !AllAcceptable(opens) {
      assert exists r :: r in changes + opens && !Acceptable(r);
      return false, calls;
    }
    CycleAccepts(mirror.dayOf, before, changes, opens, at, observed);
    var newest := CollectNewest(changes + opens);
    var affected := mirror.StoreIncrementalCycle(Sort(ById, newest), CursorFor(changes), at, observed);
    committed := affected.Some?;
    forall r | committed && Odoo.Throughout(env, calls, r) && TakesEffect(Get(before.table, r.id), r, observed)
      && (Recent(before.sync.cursor, r) || r.material.checkOut.None?)
      ensures r.id in mirror.table && mirror.table[r.id].row == r && mirror.table[r.id].deletedAt.None?
    {
      WinnerIsStored(mirror.dayOf, before, changes + opens, CursorFor(changes), at, observed, r);
    }
  }
}
