/** Resolving schedule, punches and attributions into closed work segments
    (`assignment_windows.py`). */
module AssignmentWindows {
  import opened Prelude

  datatype Source = Schedule | Punch | Attribution
  datatype Item = Item(wc: string, start: int, end: Option<int>, source: Source)
  datatype Segment = Segment(wc: string, person: string, start: int, end: int, source: Source)

  /** Dict entries in order. */
  datatype Assignment = Assignment(wc: string, people: seq<string>)
  datatype Punches = Punches(person: string, windows: seq<Window>)
  datatype Window = Window(wc: string, start: int, end: Option<int>)
  datatype Attributed = Attributed(wc: string, person: string, start: int, end: Option<int>)

  datatype Inputs = Inputs(assignments: seq<Assignment>, attributions: seq<Attributed>, punches: seq<Punches>,
                           shiftStart: int, cap: int, timeOffKey: string, excluded: set<string>)

  // ---- what each person has, in the order it is collected -------------------------------

  datatype Entry = Entry(person: string, item: Item)

  function Punched(punches: seq<Punches>): set<string> { set p | p in punches :: p.person }

  function CrewEntries(wc: string, people: seq<string>, start: int, punched: set<string>): seq<Entry> {
    if people == [] then []
    else
      var last := people[|people| - 1];
      var before := CrewEntries(wc, people[..|people| - 1], start, punched);
      if last in punched then before else before + [Entry(last, Item(wc, start, None, Schedule))]
  }

  function ScheduleEntries(assignments: seq<Assignment>, x: Inputs): seq<Entry> {
    if assignments == [] then []
    else
      var last := assignments[|assignments| - 1];
      var before := ScheduleEntries(assignments[..|assignments| - 1], x);
      if last.wc == x.timeOffKey then before
      else before + CrewEntries(last.wc, last.people, x.shiftStart, Punched(x.punches))
  }

  function WindowEntries(person: string, windows: seq<Window>): seq<Entry> {
    if windows == [] then []
    else
      var last := windows[|windows| - 1];
      var before := WindowEntries(person, windows[..|windows| - 1]);
      if last.wc == "" then before else before + [Entry(person, Item(last.wc, last.start, last.end, Punch))]
  }

  function PunchEntries(punches: seq<Punches>): seq<Entry> {
    if punches == [] then []
    else
      var last := punches[|punches| - 1];
      PunchEntries(punches[..|punches| - 1]) + WindowEntries(last.person, last.windows)
  }

  function AttributionEntries(attributions: seq<Attributed>, punched: set<string>): seq<Entry> {
    if attributions == [] then []
    else
      var last := attributions[|attributions| - 1];
      var before := AttributionEntries(attributions[..|attributions| - 1], punched);
      if last.person in punched then before
      else before + [Entry(last.person, Item(last.wc, last.start, last.end, Attribution))]
  }

  function Entries(x: Inputs): seq<Entry> {
    ScheduleEntries(x.assignments, x) + PunchEntries(x.punches) + AttributionEntries(x.attributions, Punched(x.punches))
  }

  function Of(entries: seq<Entry>, person: string): seq<Item> {
    if entries == [] then []
    else
      var last := entries[|entries| - 1];
      var before := Of(entries[..|entries| - 1], person);
      if last.person == person then before + [last.item] else before
  }

  function Items(x: Inputs, person: string): seq<Item> {
    if person in x.excluded then [] else Of(Entries(x), person)
  }

  // ---- stable order by start ------------------------------------------------------------

  predicate InOrder(items: seq<Item>) { forall i, j | 0 <= i < j < |items| :: items[i].start <= items[j].start }

  function Insert(item: Item, items: seq<Item>): seq<Item> {
    if items == [] || item.start <= items[0].start then [item] + items else [items[0]] + Insert(item, items[1..])
  }

  function SortByStart(items: seq<Item>): seq<Item> {
    if items == [] then [] else Insert(items[0], SortByStart(items[1..]))
  }

  function StartingAt(items: seq<Item>, start: int): seq<Item> {
    if items == [] then []
    else if items[0].start == start then [items[0]] + StartingAt(items[1..], start)
    else StartingAt(items[1..], start)
  }

  lemma {:induction false} InsertKeeps(item: Item, items: seq<Item>)
    ensures forall x :: x in Insert(item, items) <==> x == item || x in items
    ensures |Insert(item, items)| == |items| + 1
    ensures InOrder(items) ==> InOrder(Insert(item, items))
  {
    if items != [] && item.start > items[0].start {
      InsertKeeps(item, items[1..]);
      assert items == [items[0]] + items[1..];
      assert forall x | x in Insert(item, items[1..]) :: x == item || x in items;
      assert InOrder(items) ==> forall x | x in items[1..] :: items[0].start <= x.start;
    }
  }

  lemma {:induction false} InsertIsStable(item: Item, items: seq<Item>, start: int)
    ensures StartingAt(Insert(item, items), start) == StartingAt([item] + items, start)
  {
    assert ([item] + items)[1..] == items;
    if items != [] && item.start > items[0].start {
      InsertIsStable(item, items[1..], start);
      assert ([item] + items[1..])[1..] == items[1..];
    }
  }

  /** Sorting is stable: items of one start keep their order. */
  lemma {:induction false} SortIsStable(items: seq<Item>, start: int)
    ensures InOrder(SortByStart(items)) && |SortByStart(items)| == |items|
    ensures forall x :: x in SortByStart(items) <==> x in items
    ensures StartingAt(SortByStart(items), start) == StartingAt(items, start)
  {
    if items != [] {
      var rest := SortByStart(items[1..]);
      SortIsStable(items[1..], start);
      InsertKeeps(items[0], rest);
      InsertIsStable(items[0], rest, start);
      assert ([items[0]] + rest)[1..] == rest;
      assert items == [items[0]] + items[1..];
    }
  }

  // ---- resolution -------------------------------------------------------------------------

  function Max(a: int, b: int): int { if a < b then b else a }
  function Min(a: int, b: int): int { if a < b then a else b }

  function Start(item: Item, shiftStart: int): int { Max(item.start, shiftStart) }

  function End(items: seq<Item>, i: nat, cap: int): int
    requires i < |items|
  {
    var own := if items[i].end.Some? then items[i].end.value else cap;
    Min(if i + 1 < |items| then Min(own, items[i + 1].start) else own, cap)
  }

  /** Each item runs until it ends, the next one starts, or the cap. */
  function Chain(person: string, items: seq<Item>, shiftStart: int, cap: int): seq<Segment> {
    if items == [] then []
    else
      var start, end := Start(items[0], shiftStart), End(items, 0, cap);
      var rest := Chain(person, items[1..], shiftStart, cap);
      if end <= start then rest else [Segment(items[0].wc, person, start, end, items[0].source)] + rest
  }

  /** The scheduled center around the detours. */
  function Fill(wc: string, person: string, detours: seq<Segment>, cursor: int, cap: int): seq<Segment> {
    if detours == [] then
      if cursor < cap then [Segment(wc, person, cursor, cap, Schedule)] else []
    else
      var rest := [detours[0]] + Fill(wc, person, detours[1..], Max(cursor, detours[0].end), cap);
      if cursor < detours[0].start then [Segment(wc, person, cursor, detours[0].start, Schedule)] + rest else rest
  }

  function From(items: seq<Item>, source: Source): seq<Item> {
    if items == [] then []
    else if items[0].source == source then [items[0]] + From(items[1..], source)
    else From(items[1..], source)
  }

  function Resolve(person: string, items: seq<Item>, shiftStart: int, cap: int): seq<Segment> {
    var scheduled, attributed := From(items, Schedule), From(items, Attribution);
    if |scheduled| == 1 && attributed != []
    then Fill(scheduled[0].wc, person, Chain(person, attributed, shiftStart, cap), shiftStart, cap)
    else Chain(person, items, shiftStart, cap)
  }

  /** A person's segments. */
  function SegmentsOf(x: Inputs, person: string): seq<Segment> {
    Resolve(person, SortByStart(Items(x, person)), x.shiftStart, x.cap)
  }

  // ---- what holds of the segments -----------------------------------------------------------

  /** Positive, in order, disjoint, and inside [lo, hi]. */
  predicate Tidy(segments: seq<Segment>, lo: int, hi: int) {
    && (forall s | s in segments :: lo <= s.start < s.end <= hi)
    && (forall i, j | 0 <= i < j < |segments| :: segments[i].end <= segments[j].start)
  }

  predicate Covers(s: Segment, t: int) { s.start <= t < s.end }

  /** Where the segments put the person at `t`. */
  function At(segments: seq<Segment>, t: int): Option<(string, Source)> {
    if segments == [] then None
    else if Covers(segments[0], t) then Some((segments[0].wc, segments[0].source))
    else At(segments[1..], t)
  }

  /** The item started last, among those started by `t`. */
  function Current(items: seq<Item>, t: int): Option<Item> {
    if items == [] then None
    else
      var last := items[|items| - 1];
      if last.start <= t then Some(last) else Current(items[..|items| - 1], t)
  }

  predicate Running(item: Item, t: int) { item.end.None? || t < item.end.value }

  function Either<T>(a: Option<T>, b: Option<T>): Option<T> { if a.Some? then a else b }

  /** What the items say about `t`: the last one started, if it has not ended. */
  function Says(items: seq<Item>, t: int): Option<(string, Source)> {
    var c := Current(items, t);
    if c.Some? && Running(c.value, t) then Some((c.value.wc, c.value.source)) else None
  }

  lemma {:induction false} CurrentFromFront(items: seq<Item>, t: int)
    requires InOrder(items) && items != []
    ensures Current(items, t) == if |items| > 1 && items[1].start <= t then Current(items[1..], t)
      else if items[0].start <= t then Some(items[0]) else None
  {
    var n := |items| - 1;
    if n > 0 {
      if items[n].start > t {
        CurrentFromFront(items[..n], t);
        assert items[1..][..n - 1] == items[..n][1..];
      }
    }
  }

  lemma {:induction false} AtNone(segments: seq<Segment>, t: int)
    requires forall s | s in segments :: !Covers(s, t)
    ensures At(segments, t).None?
  {
    if segments != [] { AtNone(segments[1..], t); }
  }

  lemma {:induction false} ChainIsTidy(person: string, items: seq<Item>, shiftStart: int, cap: int)
    requires InOrder(items)
    ensures Tidy(Chain(person, items, shiftStart, cap), shiftStart, cap)
    ensures forall s | s in Chain(person, items, shiftStart, cap) :: s.person == person && items[0].start <= s.start
  {
    if items != [] {
      var rest := items[1..];
      ChainIsTidy(person, rest, shiftStart, cap);
      var tail := Chain(person, rest, shiftStart, cap);
      var start, end := Start(items[0], shiftStart), End(items, 0, cap);
      assert forall s | s in tail :: end <= s.start;
      if start < end {
        TidyCons(Segment(items[0].wc, person, start, end, items[0].source), tail, shiftStart, cap);
      }
    }
  }

  lemma TidyCons(first: Segment, rest: seq<Segment>, lo: int, hi: int)
    requires Tidy(rest, lo, hi) && lo <= first.start < first.end <= hi
    requires forall s | s in rest :: first.end <= s.start
    ensures Tidy([first] + rest, lo, hi)
  {
  }

  lemma {:induction false} ChainSources(person: string, items: seq<Item>, shiftStart: int, cap: int)
    ensures forall s | s in Chain(person, items, shiftStart, cap) :: exists it :: it in items && it.source == s.source
  {
    if items != [] {
      ChainSources(person, items[1..], shiftStart, cap);
      assert items[0] in items;
    }
  }

  /** A chain puts the person exactly where the items say. */
  lemma {:induction false} ChainMeans(person: string, items: seq<Item>, shiftStart: int, cap: int, t: int)
    requires InOrder(items) && shiftStart <= t < cap
    ensures At(Chain(person, items, shiftStart, cap), t) == Says(items, t)
  {
    if items != [] {
      var rest := items[1..];
      var whole, tail := Chain(person, items, shiftStart, cap), Chain(person, rest, shiftStart, cap);
      assert whole != tail ==> whole[1..] == tail;
      CurrentFromFront(items, t);
      if rest != [] && rest[0].start <= t {
        ChainMeans(person, rest, shiftStart, cap, t);
      } else {
        ChainIsTidy(person, rest, shiftStart, cap);
        AtNone(tail, t);
      }
    }
  }

  /** The segments follow each other from `lo` to `hi` without a gap. */
  predicate Tiles(segments: seq<Segment>, lo: int, hi: int) {
    if segments == [] then lo >= hi
    else segments[0].start == lo && lo < segments[0].end <= hi && Tiles(segments[1..], segments[0].end, hi)
  }

  lemma {:induction false} TilesAreTidy(segments: seq<Segment>, lo: int, hi: int)
    requires Tiles(segments, lo, hi)
    ensures Tidy(segments, lo, hi)
    ensures forall t :: lo <= t < hi ==> At(segments, t).Some?
  {
    if segments != [] {
      TilesAreTidy(segments[1..], segments[0].end, hi);
      assert segments == [segments[0]] + segments[1..];
    }
  }

  lemma AtCons(s: Segment, rest: seq<Segment>, t: int)
    ensures At([s] + rest, t) == if Covers(s, t) then Some((s.wc, s.source)) else At(rest, t)
  {
    assert ([s] + rest)[1..] == rest;
  }

  lemma TilesCons(s: Segment, rest: seq<Segment>, hi: int)
    requires s.start < s.end <= hi && Tiles(rest, s.end, hi)
    ensures Tiles([s] + rest, s.start, hi)
  {
    assert ([s] + rest)[1..] == rest;
  }

  lemma TidyRest(segments: seq<Segment>, lo: int, hi: int)
    requires segments != [] && Tidy(segments, lo, hi)
    ensures Tidy(segments[1..], segments[0].end, hi)
    ensures lo <= segments[0].start < segments[0].end <= hi
  {
  }

  /** Filling tiles the shift. */
  lemma {:induction false} FillTiles(wc: string, person: string, detours: seq<Segment>, cursor: int, cap: int)
    requires Tidy(detours, cursor, cap)
    ensures Tiles(Fill(wc, person, detours, cursor, cap), cursor, cap)
    ensures forall s | s in Fill(wc, person, detours, cursor, cap) :: s in detours || s.person == person
  {
    if detours == [] {
      if cursor < cap { TilesCons(Segment(wc, person, cursor, cap, Schedule), [], cap); }
    } else {
      var d := detours[0];
      TidyRest(detours, cursor, cap);
      FillTiles(wc, person, detours[1..], d.end, cap);
      var tail := Fill(wc, person, detours[1..], d.end, cap);
      TilesCons(d, tail, cap);
      if cursor < d.start { TilesCons(Segment(wc, person, cursor, d.start, Schedule), [d] + tail, cap); }
    }
  }

  /** The detours stay, and the rest is the scheduled center's. */
  lemma {:induction false} FillMeans(wc: string, person: string, detours: seq<Segment>, cursor: int, cap: int, t: int)
    requires Tidy(detours, cursor, cap) && cursor <= t < cap
    ensures At(Fill(wc, person, detours, cursor, cap), t) == Either(At(detours, t), Some((wc, Schedule)))
  {
    if detours != [] {
      var d := detours[0];
      TidyRest(detours, cursor, cap);
      var tail := Fill(wc, person, detours[1..], d.end, cap);
      AtCons(d, tail, t);
      if cursor < d.start { AtCons(Segment(wc, person, cursor, d.start, Schedule), [d] + tail, t); }
      if d.end <= t {
        FillMeans(wc, person, detours[1..], d.end, cap, t);
      } else {
        AtNone(detours[1..], t);
      }
    }
  }

  lemma {:induction false} FromKeepsOrder(items: seq<Item>, source: Source)
    requires InOrder(items)
    ensures InOrder(From(items, source))
    ensures forall it :: it in From(items, source) <==> it in items && it.source == source
  {
    if items != [] { FromKeepsOrder(items[1..], source); }
  }

  lemma {:induction false} OnlySchedule(items: seq<Item>)
    requires From(items, Attribution) == [] && forall it | it in items :: it.source != Punch
    ensures From(items, Schedule) == items
  {
    if items != [] { OnlySchedule(items[1..]); }
  }

  // ---- what holds of every person ------------------------------------------------------------

  /** A person's segments are positive, disjoint, in order and inside the shift. */
  lemma SegmentsAreTidy(x: Inputs, person: string)
    ensures Tidy(SegmentsOf(x, person), x.shiftStart, x.cap)
    ensures forall s | s in SegmentsOf(x, person) :: s.person == person
  {
    var items := SortByStart(Items(x, person));
    SortIsStable(Items(x, person), 0);
    var attributed := From(items, Attribution);
    FromKeepsOrder(items, Attribution);
    ChainIsTidy(person, items, x.shiftStart, x.cap);
    ChainIsTidy(person, attributed, x.shiftStart, x.cap);
    if |From(items, Schedule)| == 1 && attributed != [] {
      var detours := Chain(person, attributed, x.shiftStart, x.cap);
      FillTiles(From(items, Schedule)[0].wc, person, detours, x.shiftStart, x.cap);
      TilesAreTidy(SegmentsOf(x, person), x.shiftStart, x.cap);
    }
  }

  lemma {:induction false} OfMembers(entries: seq<Entry>, person: string)
    ensures forall it :: it in Of(entries, person) <==> Entry(person, it) in entries
  {
    if entries != [] {
      OfMembers(entries[..|entries| - 1], person);
      assert entries == entries[..|entries| - 1] + [entries[|entries| - 1]];
    }
  }

  lemma {:induction false} CrewAreUnpunched(wc: string, people: seq<string>, start: int, punched: set<string>)
    ensures forall e | e in CrewEntries(wc, people, start, punched) ::
      e.person !in punched && e.item == Item(wc, start, None, Schedule)
  {
    if people != [] { CrewAreUnpunched(wc, people[..|people| - 1], start, punched); }
  }

  lemma {:induction false} ScheduleIsUnpunched(assignments: seq<Assignment>, x: Inputs)
    ensures forall e | e in ScheduleEntries(assignments, x) ::
      e.person !in Punched(x.punches) && e.item.source == Schedule && e.item.start == x.shiftStart && e.item.end.None?
  {
    if assignments != [] {
      var last := assignments[|assignments| - 1];
      ScheduleIsUnpunched(assignments[..|assignments| - 1], x);
      CrewAreUnpunched(last.wc, last.people, x.shiftStart, Punched(x.punches));
    }
  }

  lemma {:induction false} WindowsArePunches(person: string, windows: seq<Window>)
    ensures forall e | e in WindowEntries(person, windows) :: e.person == person && e.item.source == Punch
  {
    if windows != [] { WindowsArePunches(person, windows[..|windows| - 1]); }
  }

  lemma {:induction false} PunchesArePunched(punches: seq<Punches>)
    ensures forall e | e in PunchEntries(punches) :: e.person in Punched(punches) && e.item.source == Punch
  {
    if punches != [] {
      var front, last := punches[..|punches| - 1], punches[|punches| - 1];
      PunchesArePunched(front);
      WindowsArePunches(last.person, last.windows);
      assert last in punches;
      assert Punched(front) <= Punched(punches);
    }
  }

  lemma {:induction false} AttributionsAreUnpunched(attributions: seq<Attributed>, punched: set<string>)
    ensures forall e | e in AttributionEntries(attributions, punched) :: e.person !in punched && e.item.source == Attribution
  {
    if attributions != [] { AttributionsAreUnpunched(attributions[..|attributions| - 1], punched); }
  }

  /** Punches win: a punched person has only punches, anyone else has none. */
  lemma ItemSources(x: Inputs, person: string)
    ensures forall it | it in SortByStart(Items(x, person)) :: it.source == Punch <==> person in Punched(x.punches)
  {
    ScheduleIsUnpunched(x.assignments, x);
    PunchesArePunched(x.punches);
    AttributionsAreUnpunched(x.attributions, Punched(x.punches));
    OfMembers(Entries(x), person);
    SortIsStable(Items(x, person), 0);
  }

  lemma PunchedGetPunches(x: Inputs, person: string)
    requires person in Punched(x.punches)
    ensures forall s | s in SegmentsOf(x, person) :: s.source == Punch
  {
    var items := SortByStart(Items(x, person));
    var attributed := From(items, Attribution);
    ItemSources(x, person);
    SortIsStable(Items(x, person), 0);
    FromKeepsOrder(items, Attribution);
    assert forall a :: a !in attributed;
    assert |attributed| == 0 by { FirstIsMember(attributed); }
    ChainSources(person, items, x.shiftStart, x.cap);
  }

  lemma FirstIsMember(items: seq<Item>)
    ensures |items| > 0 ==> exists x :: x in items
  {
    if |items| > 0 { assert items[0] in items; }
  }

  lemma FromCons(item: Item, items: seq<Item>, source: Source)
    ensures From([item] + items, source) == (if item.source == source then [item] else []) + From(items, source)
  {
    assert ([item] + items)[1..] == items;
  }

  lemma {:induction false} FromOfInsert(item: Item, items: seq<Item>, source: Source)
    requires InOrder(items)
    ensures From(Insert(item, items), source) ==
      if item.source == source then Insert(item, From(items, source)) else From(items, source)
  {
    if items != [] && item.start > items[0].start {
      FromOfInsert(item, items[1..], source);
      FromCons(items[0], Insert(item, items[1..]), source);
      if items[0].source == source {
        assert ([items[0]] + From(items[1..], source))[1..] == From(items[1..], source);
      }
    } else {
      FromKeepsOrder(items, source);
      FromCons(item, items, source);
      var from := From(items, source);
      if from != [] { assert from[0] in from; }
    }
  }

  /** Taking one source's items commutes with sorting. */
  lemma {:induction false} FromOfSort(items: seq<Item>, source: Source)
    ensures From(SortByStart(items), source) == SortByStart(From(items, source))
  {
    if items != [] {
      FromOfSort(items[1..], source);
      SortIsStable(items[1..], 0);
      FromOfInsert(items[0], SortByStart(items[1..]), source);
      var from := From(items[1..], source);
      if items[0].source == source {
        assert From(items, source) == [items[0]] + from;
        assert ([items[0]] + from)[1..] == from;
      }
    }
  }

  /** A person without punches and with exactly one scheduled center: the segments tile the shift
      up to the cap; at each instant the attribution started last counts while it runs, and
      otherwise the scheduled center does. */
  lemma ScheduledPersonIsTiled(x: Inputs, person: string, t: int)
    requires person !in Punched(x.punches) && |From(Items(x, person), Schedule)| == 1
    ensures Tiles(SegmentsOf(x, person), x.shiftStart, x.cap)
    ensures x.shiftStart <= t < x.cap ==>
      At(SegmentsOf(x, person), t) == Either(
        Says(SortByStart(From(Items(x, person), Attribution)), t),
        Some((From(Items(x, person), Schedule)[0].wc, Schedule)))
  {
    var items := SortByStart(Items(x, person));
    var attributed := From(items, Attribution);
    var wc := From(Items(x, person), Schedule)[0].wc;
    ItemSources(x, person);
    SortIsStable(Items(x, person), 0);
    FromOfSort(Items(x, person), Schedule);
    assert From(items, Schedule) == From(Items(x, person), Schedule);
    FromKeepsOrder(items, Attribution);
    FromOfSort(Items(x, person), Attribution);
    if attributed == [] {
      OnlySchedule(items);
      ScheduledItems(x, person);
      assert items == [Item(wc, x.shiftStart, None, Schedule)];
      assert Chain(person, items[1..], x.shiftStart, x.cap) == [];
    } else {
      var detours := Chain(person, attributed, x.shiftStart, x.cap);
      ChainIsTidy(person, attributed, x.shiftStart, x.cap);
      FillTiles(wc, person, detours, x.shiftStart, x.cap);
      if x.shiftStart <= t < x.cap {
        FillMeans(wc, person, detours, x.shiftStart, x.cap, t);
        ChainMeans(person, attributed, x.shiftStart, x.cap, t);
      }
    }
  }

  lemma ScheduledItems(x: Inputs, person: string)
    ensures forall it | it in SortByStart(Items(x, person)) && it.source == Schedule ::
      it.start == x.shiftStart && it.end.None?
  {
    ScheduleIsUnpunched(x.assignments, x);
    PunchesArePunched(x.punches);
    AttributionsAreUnpunched(x.attributions, Punched(x.punches));
    OfMembers(Entries(x), person);
    SortIsStable(Items(x, person), 0);
  }

  /** Anyone else is, at each instant, where the item started last says, if it has not ended. */
  lemma OthersAreWhereLastStarted(x: Inputs, person: string, t: int)
    requires x.shiftStart <= t < x.cap
    requires |From(Items(x, person), Schedule)| != 1
    ensures At(SegmentsOf(x, person), t) == Says(SortByStart(Items(x, person)), t)
  {
    var items := SortByStart(Items(x, person));
    SortIsStable(Items(x, person), 0);
    FromOfSort(Items(x, person), Schedule);
    SortIsStable(From(Items(x, person), Schedule), 0);
    ChainMeans(person, items, x.shiftStart, x.cap, t);
  }

  // ---- what is collected, from the inputs alone -----------------------------------------------

  /** Position `j` of assignment `i` lists the person, away from the time-off list. */
  predicate Listed(x: Inputs, person: string, i: int, j: int) {
    && 0 <= i < |x.assignments| && 0 <= j < |x.assignments[i].people|
    && x.assignments[i].wc != x.timeOffKey && x.assignments[i].people[j] == person
  }

  /** The centers that list the person, once for every listing. */
  function Centers(assignments: seq<Assignment>, timeOffKey: string, person: string): seq<string> {
    if assignments == [] then []
    else
      var last := assignments[|assignments| - 1];
      var before := Centers(assignments[..|assignments| - 1], timeOffKey, person);
      if last.wc == timeOffKey then before else before + seq(Times(last.people, person), i => last.wc)
  }

  function Times(people: seq<string>, person: string): nat {
    if people == [] then 0
    else Times(people[..|people| - 1], person) + if people[|people| - 1] == person then 1 else 0
  }

  function ItemsAt(centers: seq<string>, shiftStart: int): seq<Item> {
    seq(|centers|, i requires 0 <= i < |centers| => Item(centers[i], shiftStart, None, Schedule))
  }

  function ScheduleItems(x: Inputs, person: string): seq<Item> {
    ItemsAt(Centers(x.assignments, x.timeOffKey, person), x.shiftStart)
  }

  lemma MoreCenters(centers: seq<string>, wc: string, n: nat, shiftStart: int)
    ensures ItemsAt(centers + seq(n, i => wc), shiftStart) ==
      ItemsAt(centers, shiftStart) + seq(n, i => Item(wc, shiftStart, None, Schedule))
  {
  }

  /** The person's windows with a named center. */
  function WindowItems(windows: seq<Window>): seq<Item> {
    if windows == [] then []
    else
      var last := windows[|windows| - 1];
      var before := WindowItems(windows[..|windows| - 1]);
      if last.wc != "" then before + [Item(last.wc, last.start, last.end, Punch)] else before
  }

  function PunchItems(punches: seq<Punches>, person: string): seq<Item> {
    if punches == [] then []
    else
      var last := punches[|punches| - 1];
      var before := PunchItems(punches[..|punches| - 1], person);
      if last.person == person then before + WindowItems(last.windows) else before
  }

  function AttributionItems(attributions: seq<Attributed>, person: string): seq<Item> {
    if attributions == [] then []
    else
      var last := attributions[|attributions| - 1];
      var before := AttributionItems(attributions[..|attributions| - 1], person);
      if last.person == person then before + [Item(last.wc, last.start, last.end, Attribution)] else before
  }

  lemma {:induction false} OfConcat(a: seq<Entry>, b: seq<Entry>, person: string)
    ensures Of(a + b, person) == Of(a, person) + Of(b, person)
  {
    if b == [] {
      assert a + b == a;
    } else {
      var n := |b| - 1;
      assert (a + b)[..|a + b| - 1] == a + b[..n];
      OfConcat(a, b[..n], person);
    }
  }

  lemma {:induction false} CrewOf(wc: string, people: seq<string>, start: int, punched: set<string>, person: string)
    ensures Of(CrewEntries(wc, people, start, punched), person) ==
      seq(if person in punched then 0 else Times(people, person), i => Item(wc, start, None, Schedule))
  {
    if people != [] {
      var n := |people| - 1;
      var before := CrewEntries(wc, people[..n], start, punched);
      CrewOf(wc, people[..n], start, punched, person);
      if people[n] !in punched {
        var e := Entry(people[n], Item(wc, start, None, Schedule));
        assert (before + [e])[..|before|] == before;
      }
    }
  }

  lemma {:induction false} ScheduleOf(assignments: seq<Assignment>, x: Inputs, person: string)
    ensures Of(ScheduleEntries(assignments, x), person) ==
      if person in Punched(x.punches) then []
      else ScheduleItems(x.(assignments := assignments), person)
  {
    if assignments != [] {
      var n := |assignments| - 1;
      var last := assignments[n];
      ScheduleOf(assignments[..n], x, person);
      if last.wc != x.timeOffKey {
        CrewOf(last.wc, last.people, x.shiftStart, Punched(x.punches), person);
        OfConcat(ScheduleEntries(assignments[..n], x), CrewEntries(last.wc, last.people, x.shiftStart, Punched(x.punches)), person);
        MoreCenters(Centers(assignments[..n], x.timeOffKey, person), last.wc, Times(last.people, person), x.shiftStart);
      }
    }
  }

  lemma {:induction false} WindowsOf(owner: string, windows: seq<Window>, person: string)
    ensures Of(WindowEntries(owner, windows), person) == if person == owner then WindowItems(windows) else []
  {
    if windows != [] {
      var n := |windows| - 1;
      var before := WindowEntries(owner, windows[..n]);
      WindowsOf(owner, windows[..n], person);
      if windows[n].wc != "" {
        var e := Entry(owner, Item(windows[n].wc, windows[n].start, windows[n].end, Punch));
        assert (before + [e])[..|before|] == before;
      }
    }
  }

  lemma {:induction false} PunchesOf(punches: seq<Punches>, person: string)
    ensures Of(PunchEntries(punches), person) == PunchItems(punches, person)
  {
    if punches != [] {
      var n := |punches| - 1;
      PunchesOf(punches[..n], person);
      WindowsOf(punches[n].person, punches[n].windows, person);
      OfConcat(PunchEntries(punches[..n]), WindowEntries(punches[n].person, punches[n].windows), person);
    }
  }

  lemma {:induction false} AttributionsOf(attributions: seq<Attributed>, punched: set<string>, person: string)
    ensures Of(AttributionEntries(attributions, punched), person) ==
      if person in punched then [] else AttributionItems(attributions, person)
  {
    if attributions != [] {
      var n := |attributions| - 1;
      var before := AttributionEntries(attributions[..n], punched);
      AttributionsOf(attributions[..n], punched, person);
      if attributions[n].person !in punched {
        var a := attributions[n];
        var e := Entry(a.person, Item(a.wc, a.start, a.end, Attribution));
        assert (before + [e])[..|before|] == before;
      }
    }
  }

  lemma {:induction false} NoPunchItems(punches: seq<Punches>, person: string)
    requires person !in Punched(punches)
    ensures PunchItems(punches, person) == []
  {
    if punches != [] {
      var n := |punches| - 1;
      assert punches[n] in punches && punches[n].person in Punched(punches);
      assert Punched(punches[..n]) <= Punched(punches);
      NoPunchItems(punches[..n], person);
    }
  }

  /** Exactly what is collected for a person, in order and as often as in the inputs: nothing if
      excluded, only punches if punched, otherwise every listing and then every attribution. */
  lemma CollectedExactly(x: Inputs, person: string)
    ensures Items(x, person) == (
      if person in x.excluded then []
      else if person in Punched(x.punches) then PunchItems(x.punches, person)
      else ScheduleItems(x, person) + AttributionItems(x.attributions, person))
  {
    var punched := Punched(x.punches);
    var a, b, c := ScheduleEntries(x.assignments, x), PunchEntries(x.punches), AttributionEntries(x.attributions, punched);
    ScheduleOf(x.assignments, x, person);
    PunchesOf(x.punches, person);
    AttributionsOf(x.attributions, punched, person);
    OfConcat(a + b, c, person);
    OfConcat(a, b, person);
    if person !in punched { NoPunchItems(x.punches, person); }
  }

  // ---- how often: counting positions of the inputs ----------------------------------------------

  function Occurs<T(==)>(items: seq<T>, item: T): nat {
    if items == [] then 0
    else Occurs(items[..|items| - 1], item) + if items[|items| - 1] == item then 1 else 0
  }

  lemma {:induction false} OccursOfConcat<T>(a: seq<T>, b: seq<T>, item: T)
    ensures Occurs(a + b, item) == Occurs(a, item) + Occurs(b, item)
  {
    if b == [] {
      assert a + b == a;
    } else {
      var n := |b| - 1;
      assert (a + b)[..|a + b| - 1] == a + b[..n];
      OccursOfConcat(a, b[..n], item);
    }
  }

  lemma {:induction false} OccursOfRepeat<T>(n: nat, item: T, other: T)
    ensures Occurs(seq(n, i => item), other) == if item == other then n else 0
  {
    if n > 0 {
      assert seq(n, i => item)[..n - 1] == seq(n - 1, i => item);
      OccursOfRepeat(n - 1, item, other);
    }
  }

  /** The positions of the assignments that list the person at `wc`, away from the time-off list. */
  function Listings(assignments: seq<Assignment>, timeOffKey: string, person: string, wc: string): set<(int, int)> {
    set i, j | 0 <= i < |assignments| && 0 <= j < |assignments[i].people|
      && assignments[i].wc == wc && wc != timeOffKey && assignments[i].people[j] == person :: (i, j)
  }

  function Positions(people: seq<string>, person: string): set<int> {
    set j | 0 <= j < |people| && people[j] == person
  }

  lemma {:induction false} TimesCounts(people: seq<string>, person: string)
    ensures Times(people, person) == |Positions(people, person)|
  {
    if people != [] {
      var n := |people| - 1;
      TimesCounts(people[..n], person);
      assert Positions(people, person) == Positions(people[..n], person) + if people[n] == person then {n} else {};
    }
  }

  lemma {:induction false} PairsCount(n: int, positions: set<int>)
    ensures |set j | j in positions :: (n, j)| == |positions|
  {
    if positions != {} {
      var k := AnyKey(positions);
      PairsCount(n, positions - {k});
      assert (set j | j in positions :: (n, j)) == (set j | j in positions - {k} :: (n, j)) + {(n, k)};
    }
  }

  /** The positions within one assignment. */
  function Row(i: int, people: seq<string>, person: string): set<(int, int)> {
    set j | j in Positions(people, person) :: (i, j)
  }

  lemma ListingsMembers(assignments: seq<Assignment>, timeOffKey: string, person: string, wc: string, i: int, j: int)
    requires assignments != []
    ensures var n := |assignments| - 1;
      (i, j) in Listings(assignments, timeOffKey, person, wc) <==>
        (i, j) in Listings(assignments[..n], timeOffKey, person, wc)
        || (assignments[n].wc == wc && wc != timeOffKey && (i, j) in Row(n, assignments[n].people, person))
  {
  }

  lemma ListingsStep(assignments: seq<Assignment>, timeOffKey: string, person: string, wc: string)
    requires assignments != []
    ensures var n := |assignments| - 1;
      |Listings(assignments, timeOffKey, person, wc)| ==
        |Listings(assignments[..n], timeOffKey, person, wc)|
        + if assignments[n].wc == wc && wc != timeOffKey then Times(assignments[n].people, person) else 0
  {
    var n := |assignments| - 1;
    var all, before := Listings(assignments, timeOffKey, person, wc), Listings(assignments[..n], timeOffKey, person, wc);
    var here := if assignments[n].wc == wc && wc != timeOffKey then Row(n, assignments[n].people, person) else {};
    TimesCounts(assignments[n].people, person);
    PairsCount(n, Positions(assignments[n].people, person));
    forall i, j ensures (i, j) in all <==> (i, j) in before + here {
      ListingsMembers(assignments, timeOffKey, person, wc, i, j);
    }
    assert all == before + here;
    assert before !! here;
  }

  /** A person is scheduled at a center as often as the assignments list them there. */
  lemma {:induction false} CentersCount(assignments: seq<Assignment>, timeOffKey: string, person: string, wc: string)
    ensures Occurs(Centers(assignments, timeOffKey, person), wc) == |Listings(assignments, timeOffKey, person, wc)|
  {
    if assignments != [] {
      var n := |assignments| - 1;
      var last, front := assignments[n], assignments[..n];
      CentersCount(front, timeOffKey, person, wc);
      ListingsStep(assignments, timeOffKey, person, wc);
      OccursOfRepeat(Times(last.people, person), last.wc, wc);
      OccursOfConcat(Centers(front, timeOffKey, person), seq(Times(last.people, person), i => last.wc), wc);
    }
  }

  function Slots(windows: seq<Window>, w: Window): set<int> { set j | 0 <= j < |windows| && windows[j] == w }

  function Windows(punches: seq<Punches>, person: string, w: Window): set<(int, int)> {
    set i, j | 0 <= i < |punches| && 0 <= j < |punches[i].windows|
      && punches[i].person == person && punches[i].windows[j] == w && w.wc != "" :: (i, j)
  }

  lemma {:induction false} WindowsCount(windows: seq<Window>, w: Window)
    ensures Occurs(WindowItems(windows), Item(w.wc, w.start, w.end, Punch)) == if w.wc != "" then |Slots(windows, w)| else 0
  {
    if windows != [] {
      var n := |windows| - 1;
      WindowsCount(windows[..n], w);
      assert Slots(windows, w) == Slots(windows[..n], w) + if windows[n] == w then {n} else {};
      var item := Item(windows[n].wc, windows[n].start, windows[n].end, Punch);
      assert (WindowItems(windows[..n]) + [item])[..|WindowItems(windows[..n])|] == WindowItems(windows[..n]);
    }
  }

  function WindowRow(i: int, windows: seq<Window>, w: Window): set<(int, int)> { set j | j in Slots(windows, w) :: (i, j) }

  lemma PunchesStep(punches: seq<Punches>, person: string, w: Window)
    requires punches != []
    ensures var n := |punches| - 1;
      |Windows(punches, person, w)| == |Windows(punches[..n], person, w)|
        + if punches[n].person == person && w.wc != "" then |Slots(punches[n].windows, w)| else 0
  {
    var n := |punches| - 1;
    var all, before := Windows(punches, person, w), Windows(punches[..n], person, w);
    var here := if punches[n].person == person && w.wc != "" then WindowRow(n, punches[n].windows, w) else {};
    PairsCount(n, Slots(punches[n].windows, w));
    assert all == before + here;
    assert before !! here;
  }

  /** A punch item is collected as often as the person's windows say so, for a named center. */
  lemma {:induction false} PunchesCount(punches: seq<Punches>, person: string, w: Window)
    ensures Occurs(PunchItems(punches, person), Item(w.wc, w.start, w.end, Punch)) == |Windows(punches, person, w)|
  {
    if punches != [] {
      var n := |punches| - 1;
      PunchesCount(punches[..n], person, w);
      PunchesStep(punches, person, w);
      WindowsCount(punches[n].windows, w);
      OccursOfConcat(PunchItems(punches[..n], person), WindowItems(punches[n].windows), Item(w.wc, w.start, w.end, Punch));
    }
  }

  function Rows(attributions: seq<Attributed>, a: Attributed): set<int> {
    set k | 0 <= k < |attributions| && attributions[k] == a
  }

  /** An attribution item is collected as often as there are such rows of the person. */
  lemma {:induction false} AttributionsCount(attributions: seq<Attributed>, a: Attributed)
    ensures Occurs(AttributionItems(attributions, a.person), Item(a.wc, a.start, a.end, Attribution)) == |Rows(attributions, a)|
  {
    if attributions != [] {
      var n := |attributions| - 1;
      AttributionsCount(attributions[..n], a);
      assert Rows(attributions, a) == Rows(attributions[..n], a) + if attributions[n] == a then {n} else {};
      var before := AttributionItems(attributions[..n], a.person);
      var item := Item(attributions[n].wc, attributions[n].start, attributions[n].end, Attribution);
      assert (before + [item])[..|before|] == before;
    }
  }

  lemma {:induction false} OccursSomewhere<T>(items: seq<T>, i: nat)
    requires i < |items|
    ensures Occurs(items, items[i]) >= 1
  {
    if i < |items| - 1 { OccursSomewhere(items[..|items| - 1], i); }
  }

  lemma {:induction false} OccursEverywhere<T>(items: seq<T>, item: T)
    requires forall i | 0 <= i < |items| :: items[i] == item
    ensures Occurs(items, item) == |items|
  {
    if items != [] { OccursEverywhere(items[..|items| - 1], item); }
  }

  /** The assignments list the person exactly once away from the time-off list, and that at `wc`. */
  ghost predicate ListedOnce(x: Inputs, person: string, wc: string) {
    exists i, j :: Listed(x, person, i, j) && x.assignments[i].wc == wc
      && forall k, l :: Listed(x, person, k, l) ==> k == i && l == j
  }

  lemma ListedOnceIsOneCenter(x: Inputs, person: string, wc: string)
    requires ListedOnce(x, person, wc)
    ensures Centers(x.assignments, x.timeOffKey, person) == [wc]
  {
    var i, j :| Listed(x, person, i, j) && x.assignments[i].wc == wc
      && forall k, l :: Listed(x, person, k, l) ==> k == i && l == j;
    var centers := Centers(x.assignments, x.timeOffKey, person);
    forall n | 0 <= n < |centers| ensures centers[n] == wc {
      var other := centers[n];
      OccursSomewhere(centers, n);
      CentersCount(x.assignments, x.timeOffKey, person, other);
      OnlyAt(x, person, other, i, j);
    }
    OccursEverywhere(centers, wc);
    CentersCount(x.assignments, x.timeOffKey, person, wc);
    assert Listings(x.assignments, x.timeOffKey, person, wc) == {(i, j)} by {
      forall k, l | (k, l) in Listings(x.assignments, x.timeOffKey, person, wc) ensures k == i && l == j {
        assert Listed(x, person, k, l);
      }
    }
  }

  lemma OnlyAt(x: Inputs, person: string, other: string, i: int, j: int)
    requires Listed(x, person, i, j) && forall k, l :: Listed(x, person, k, l) ==> k == i && l == j
    requires |Listings(x.assignments, x.timeOffKey, person, other)| >= 1
    ensures other == x.assignments[i].wc
  {
    var listings := Listings(x.assignments, x.timeOffKey, person, other);
    var position := AnyKey(listings);
    assert Listed(x, person, position.0, position.1);
  }

  // ---- what everyone gets, from the inputs alone -----------------------------------------------

  lemma {:induction false} FromConcat(a: seq<Item>, b: seq<Item>, source: Source)
    ensures From(a + b, source) == From(a, source) + From(b, source)
  {
    if a == [] {
      assert a + b == b;
    } else {
      assert (a + b)[1..] == a[1..] + b;
      FromConcat(a[1..], b, source);
    }
  }

  lemma {:induction false} FromOne(items: seq<Item>, own: Source, source: Source)
    requires forall i | 0 <= i < |items| :: items[i].source == own
    ensures From(items, source) == if source == own then items else []
  {
    if items != [] { FromOne(items[1..], own, source); }
  }

  lemma {:induction false} AttributionSources(attributions: seq<Attributed>, person: string)
    ensures forall i | 0 <= i < |AttributionItems(attributions, person)| ::
      AttributionItems(attributions, person)[i].source == Attribution
  {
    if attributions != [] { AttributionSources(attributions[..|attributions| - 1], person); }
  }

  /** The two kinds of items of a person without punches. */
  lemma UnpunchedItems(x: Inputs, person: string)
    requires person !in x.excluded && person !in Punched(x.punches)
    ensures From(Items(x, person), Schedule) == ScheduleItems(x, person)
    ensures From(Items(x, person), Attribution) == AttributionItems(x.attributions, person)
  {
    var a, b := ScheduleItems(x, person), AttributionItems(x.attributions, person);
    CollectedExactly(x, person);
    AttributionSources(x.attributions, person);
    FromConcat(a, b, Schedule);
    FromConcat(a, b, Attribution);
    FromOne(a, Schedule, Schedule);
    FromOne(a, Schedule, Attribution);
    FromOne(b, Attribution, Schedule);
    FromOne(b, Attribution, Attribution);
  }

  lemma {:induction false} OccursFrom(items: seq<Item>, item: Item)
    ensures Occurs(items, item) == Occurs(From(items, item.source), item)
  {
    if items != [] {
      assert items == [items[0]] + items[1..];
      OccursOfConcat([items[0]], items[1..], item);
      OccursFrom(items[1..], item);
      FromConcat([items[0]], items[1..], item.source);
      OccursOfConcat(From([items[0]], item.source), From(items[1..], item.source), item);
      FromOne([items[0]], items[0].source, item.source);
      assert Occurs([items[0]], item) == if items[0] == item then 1 else 0;
    }
  }

  lemma {:induction false} OccursScheduled(centers: seq<string>, shiftStart: int, wc: string)
    ensures Occurs(ItemsAt(centers, shiftStart), Item(wc, shiftStart, None, Schedule)) == Occurs(centers, wc)
  {
    if centers != [] {
      var n := |centers| - 1;
      var items := ItemsAt(centers, shiftStart);
      var front := centers[..n];
      OccursScheduled(front, shiftStart, wc);
      assert items[..n] == ItemsAt(front, shiftStart);
    }
  }

  lemma {:induction false} OccursIff<T>(items: seq<T>, item: T)
    ensures item in items <==> Occurs(items, item) > 0
  {
    if items != [] {
      OccursIff(items[..|items| - 1], item);
      assert items == items[..|items| - 1] + [items[|items| - 1]];
    }
  }

  /** Every item is collected for a person exactly as often as the inputs hold it: a schedule item once
      for every listing away from the time-off list, a punch item once for every such window, an
      attribution item once for every such row; listings and rows only without punches. */
  lemma CollectedAsOften(x: Inputs, person: string, wc: string, start: int, end: Option<int>)
    requires person !in x.excluded
    ensures var items, punched := Items(x, person), person in Punched(x.punches);
      && Occurs(items, Item(wc, x.shiftStart, None, Schedule)) ==
           (if punched then 0 else |Listings(x.assignments, x.timeOffKey, person, wc)|)
      && Occurs(items, Item(wc, start, end, Attribution)) ==
           (if punched then 0 else |Rows(x.attributions, Attributed(wc, person, start, end))|)
      && Occurs(items, Item(wc, start, end, Punch)) == |Windows(x.punches, person, Window(wc, start, end))|
      && (forall it | it in items && it.source == Schedule :: it.start == x.shiftStart && it.end.None?)
  {
    var items := Items(x, person);
    ItemSources(x, person);
    SortIsStable(items, 0);
    ScheduledItems(x, person);
    OccursFrom(items, Item(wc, x.shiftStart, None, Schedule));
    OccursFrom(items, Item(wc, start, end, Attribution));
    OccursFrom(items, Item(wc, start, end, Punch));
    PunchesCount(x.punches, person, Window(wc, start, end));
    assert forall i | 0 <= i < |items| :: items[i] in items;
    CollectedExactly(x, person);
    if person in Punched(x.punches) {
      FromOne(items, Punch, Schedule);
      FromOne(items, Punch, Attribution);
      FromOne(items, Punch, Punch);
    } else {
      UnpunchedItems(x, person);
      OccursScheduled(Centers(x.assignments, x.timeOffKey, person), x.shiftStart, wc);
      CentersCount(x.assignments, x.timeOffKey, person, wc);
      AttributionsCount(x.attributions, Attributed(wc, person, start, end));
      OccursIff(items, Item(wc, start, end, Punch));
      NoPunchItems(x.punches, person);
    }
  }

  /** So a schedule item is collected exactly if some assignment other than the time-off list names
      the person there. */
  lemma ScheduledExactly(x: Inputs, person: string, wc: string)
    requires person !in x.excluded && person !in Punched(x.punches)
    ensures Item(wc, x.shiftStart, None, Schedule) in Items(x, person) <==>
      exists i, j :: Listed(x, person, i, j) && x.assignments[i].wc == wc
  {
    var listings := Listings(x.assignments, x.timeOffKey, person, wc);
    CollectedAsOften(x, person, wc, 0, None);
    OccursIff(Items(x, person), Item(wc, x.shiftStart, None, Schedule));
    if i, j :| Listed(x, person, i, j) && x.assignments[i].wc == wc {
      assert (i, j) in listings;
    }
    if listings != {} {
      var position := AnyKey(listings);
      assert Listed(x, person, position.0, position.1);
    }
  }

  /** What the segments of a person who is scheduled once must be. */
  predicate CoversShift(x: Inputs, person: string, wc: string, segments: seq<Segment>, t: int) {
    && Tiles(segments, x.shiftStart, x.cap)
    && (x.shiftStart <= t < x.cap ==>
          At(segments, t) == Either(Says(SortByStart(AttributionItems(x.attributions, person)), t), Some((wc, Schedule))))
  }

  /** A person who is not punched, not excluded, and listed exactly once away from the time-off list
      is at that center throughout the shift, up to the cap, except where an attribution runs. */
  lemma CrewCoversShift(x: Inputs, person: string, wc: string, t: int)
    requires person !in x.excluded && person !in Punched(x.punches) && ListedOnce(x, person, wc)
    ensures CoversShift(x, person, wc, SegmentsOf(x, person), t)
  {
    UnpunchedItems(x, person);
    ListedOnceIsOneCenter(x, person, wc);
    FromOfSort(Items(x, person), Attribution);
    ScheduledPersonIsTiled(x, person, t);
  }

  /** The items of everyone else: punches for the punched; listings and attributions otherwise. */
  function OwnItems(x: Inputs, person: string): seq<Item> {
    if person in Punched(x.punches) then PunchItems(x.punches, person)
    else ScheduleItems(x, person) + AttributionItems(x.attributions, person)
  }

  /** Punched people, and people listed never or more than once, are where the last item started says. */
  lemma OthersFollowItems(x: Inputs, person: string, t: int)
    requires person !in x.excluded && x.shiftStart <= t < x.cap
    requires person in Punched(x.punches) || |Centers(x.assignments, x.timeOffKey, person)| != 1
    ensures At(SegmentsOf(x, person), t) == Says(SortByStart(OwnItems(x, person)), t)
  {
    CollectedExactly(x, person);
    if person in Punched(x.punches) {
      ItemSources(x, person);
      SortIsStable(Items(x, person), 0);
      assert forall i | 0 <= i < |Items(x, person)| :: Items(x, person)[i] in Items(x, person);
      FromOne(Items(x, person), Punch, Schedule);
    } else {
      UnpunchedItems(x, person);
    }
    OthersAreWhereLastStarted(x, person, t);
  }

  lemma ExcludedGetNothing(x: Inputs, person: string)
    requires person in x.excluded
    ensures SegmentsOf(x, person) == []
  {
  }

  // ---- the algorithm --------------------------------------------------------------------------

  /** The collected items by person, and the people in order of first appearance. */
  predicate Grouped(raw: map<string, seq<Item>>, order: seq<string>, entries: seq<Entry>, excluded: set<string>) {
    && (forall p | p in order :: p in raw)
    && (forall i, j | 0 <= i < j < |order| :: order[i] != order[j])
    && (forall p | p in raw :: p in order && p !in excluded && raw[p] == Of(entries, p))
    && (forall e | e in entries :: e.person in raw || e.person in excluded)
  }

  lemma {:induction false} NothingOf(entries: seq<Entry>, person: string)
    requires forall e | e in entries :: e.person != person
    ensures Of(entries, person) == []
  {
    if entries != [] { NothingOf(entries[..|entries| - 1], person); }
  }

  /** `_add` */
  method Add(raw: map<string, seq<Item>>, order: seq<string>, ghost entries: seq<Entry>, excluded: set<string>, e: Entry)
    returns (raw': map<string, seq<Item>>, order': seq<string>)
    requires Grouped(raw, order, entries, excluded)
    ensures Grouped(raw', order', entries + [e], excluded)
  {
    assert (entries + [e])[..|entries|] == entries;
    raw', order' := raw, order;
    if e.person in excluded { return; }
    if e.person !in raw {
      NothingOf(entries, e.person);
      raw', order' := raw[e.person := []], order + [e.person];
    }
    raw' := raw'[e.person := raw'[e.person] + [e.item]];
  }

  type Raw = map<string, seq<Item>>

  method AddCrew(x: Inputs, wc: string, people: seq<string>, raw: Raw, order: seq<string>, ghost before: seq<Entry>)
    returns (raw': Raw, order': seq<string>)
    requires Grouped(raw, order, before, x.excluded)
    ensures Grouped(raw', order', before + CrewEntries(wc, people, x.shiftStart, Punched(x.punches)), x.excluded)
  {
    raw', order' := raw, order;
    var punched := Punched(x.punches);
    assert before + [] == before;
    for j := 0 to |people|
      invariant Grouped(raw', order', before + CrewEntries(wc, people[..j], x.shiftStart, punched), x.excluded)
    {
      assert people[..j + 1][..j] == people[..j];
      if people[j] !in punched {
        ghost var crew := CrewEntries(wc, people[..j], x.shiftStart, punched);
        var e := Entry(people[j], Item(wc, x.shiftStart, None, Schedule));
        raw', order' := Add(raw', order', before + crew, x.excluded, e);
        Regroup(before, crew, [e]);
      }
    }
    assert people[..|people|] == people;
  }

  method AddSchedule(x: Inputs) returns (raw: Raw, order: seq<string>)
    ensures Grouped(raw, order, ScheduleEntries(x.assignments, x), x.excluded)
  {
    raw, order := map[], [];
    for i := 0 to |x.assignments|
      invariant Grouped(raw, order, ScheduleEntries(x.assignments[..i], x), x.excluded)
    {
      assert x.assignments[..i + 1][..i] == x.assignments[..i];
      var a := x.assignments[i];
      if a.wc != x.timeOffKey {
        raw, order := AddCrew(x, a.wc, a.people, raw, order, ScheduleEntries(x.assignments[..i], x));
      }
    }
    assert x.assignments[..|x.assignments|] == x.assignments;
  }

  method AddWindows(x: Inputs, p: Punches, raw: Raw, order: seq<string>, ghost before: seq<Entry>)
    returns (raw': Raw, order': seq<string>)
    requires Grouped(raw, order, before, x.excluded)
    ensures Grouped(raw', order', before + WindowEntries(p.person, p.windows), x.excluded)
  {
    raw', order' := raw, order;
    assert before + [] == before;
    for j := 0 to |p.windows|
      invariant Grouped(raw', order', before + WindowEntries(p.person, p.windows[..j]), x.excluded)
    {
      assert p.windows[..j + 1][..j] == p.windows[..j];
      var w := p.windows[j];
      if w.wc != "" {
        ghost var windows := WindowEntries(p.person, p.windows[..j]);
        var e := Entry(p.person, Item(w.wc, w.start, w.end, Punch));
        raw', order' := Add(raw', order', before + windows, x.excluded, e);
        Regroup(before, windows, [e]);
      }
    }
    assert p.windows[..|p.windows|] == p.windows;
  }

  lemma Regroup(a: seq<Entry>, b: seq<Entry>, c: seq<Entry>)
    ensures a + b + c == a + (b + c)
  {
  }

  method AddPunches(x: Inputs, raw: Raw, order: seq<string>, ghost before: seq<Entry>)
    returns (raw': Raw, order': seq<string>)
    requires Grouped(raw, order, before, x.excluded)
    ensures Grouped(raw', order', before + PunchEntries(x.punches), x.excluded)
  {
    raw', order' := raw, order;
    assert before + [] == before;
    for i := 0 to |x.punches|
      invariant Grouped(raw', order', before + PunchEntries(x.punches[..i]), x.excluded)
    {
      assert x.punches[..i + 1][..i] == x.punches[..i];
      ghost var punches := PunchEntries(x.punches[..i]);
      ghost var windows := WindowEntries(x.punches[i].person, x.punches[i].windows);
      raw', order' := AddWindows(x, x.punches[i], raw', order', before + punches);
      Regroup(before, punches, windows);
    }
    assert x.punches[..|x.punches|] == x.punches;
  }

  method AddAttributions(x: Inputs, raw: Raw, order: seq<string>, ghost before: seq<Entry>)
    returns (raw': Raw, order': seq<string>)
    requires Grouped(raw, order, before, x.excluded)
    ensures Grouped(raw', order', before + AttributionEntries(x.attributions, Punched(x.punches)), x.excluded)
  {
    raw', order' := raw, order;
    var punched := Punched(x.punches);
    assert before + [] == before;
    for i := 0 to |x.attributions|
      invariant Grouped(raw', order', before + AttributionEntries(x.attributions[..i], punched), x.excluded)
    {
      assert x.attributions[..i + 1][..i] == x.attributions[..i];
      var a := x.attributions[i];
      if a.person !in punched {
        ghost var attributed := AttributionEntries(x.attributions[..i], punched);
        var e := Entry(a.person, Item(a.wc, a.start, a.end, Attribution));
        raw', order' := Add(raw', order', before + attributed, x.excluded, e);
        Regroup(before, attributed, [e]);
      }
    }
    assert x.attributions[..|x.attributions|] == x.attributions;
  }

  /** The three collecting loops. */
  method Collect(x: Inputs) returns (raw: Raw, order: seq<string>)
    ensures Grouped(raw, order, Entries(x), x.excluded)
  {
    raw, order := AddSchedule(x);
    ghost var schedule := ScheduleEntries(x.assignments, x);
    raw, order := AddPunches(x, raw, order, schedule);
    raw, order := AddAttributions(x, raw, order, schedule + PunchEntries(x.punches));
  }

  lemma Shift(out: seq<Segment>, s: Segment, rest: seq<Segment>)
    ensures out + ([s] + rest) == out + [s] + rest
  {
  }

  /** One closed segment per item, in order. */
  method Close(person: string, items: seq<Item>, shiftStart: int, cap: int) returns (out: seq<Segment>)
    ensures out == Chain(person, items, shiftStart, cap)
  {
    out := [];
    for i := 0 to |items|
      invariant out + Chain(person, items[i..], shiftStart, cap) == Chain(person, items, shiftStart, cap)
    {
      ghost var rest := Chain(person, items[i + 1..], shiftStart, cap);
      assert items[i..][1..] == items[i + 1..];
      var start := Max(items[i].start, shiftStart);
      var end := if items[i].end.Some? then items[i].end.value else cap;
      if i + 1 < |items| { end := Min(end, items[i + 1].start); }
      end := Min(end, cap);
      if end > start {
        var s := Segment(items[i].wc, person, start, end, items[i].source);
        Shift(out, s, rest);
        out := out + [s];
      }
    }
  }

  /** The scheduled center on both sides of every detour. */
  method FillAround(wc: string, person: string, detours: seq<Segment>, shiftStart: int, cap: int) returns (out: seq<Segment>)
    ensures out == Fill(wc, person, detours, shiftStart, cap)
  {
    out := [];
    var cursor := shiftStart;
    for i := 0 to |detours|
      invariant out + Fill(wc, person, detours[i..], cursor, cap) == Fill(wc, person, detours, shiftStart, cap)
    {
      assert detours[i..][1..] == detours[i + 1..];
      var d := detours[i];
      ghost var rest := Fill(wc, person, detours[i + 1..], Max(cursor, d.end), cap);
      if cursor < d.start {
        var gap := Segment(wc, person, cursor, d.start, Schedule);
        Shift(out, gap, [d] + rest);
        out := out + [gap];
      }
      Shift(out, d, rest);
      out := out + [d];
      cursor := Max(cursor, d.end);
    }
    if cursor < cap { out := out + [Segment(wc, person, cursor, cap, Schedule)]; }
  }

  function Whose(segments: seq<Segment>, person: string): seq<Segment> {
    if segments == [] then []
    else if segments[0].person == person then [segments[0]] + Whose(segments[1..], person)
    else Whose(segments[1..], person)
  }

  lemma {:induction false} WhoseOfConcat(a: seq<Segment>, b: seq<Segment>, person: string)
    ensures Whose(a + b, person) == Whose(a, person) + Whose(b, person)
  {
    if a == [] {
      assert a + b == b;
    } else {
      assert (a + b)[1..] == a[1..] + b;
      WhoseOfConcat(a[1..], b, person);
    }
  }

  lemma {:induction false} WhoseOfOne(segments: seq<Segment>, owner: string, person: string)
    requires forall s | s in segments :: s.person == owner
    ensures Whose(segments, person) == if person == owner then segments else []
  {
    if segments != [] { WhoseOfOne(segments[1..], owner, person); }
  }

  method ResolvePerson(person: string, collected: seq<Item>, shiftStart: int, cap: int) returns (out: seq<Segment>)
    ensures out == Resolve(person, SortByStart(collected), shiftStart, cap)
  {
    var items := SortByStart(collected);
    var scheduled, attributed := From(items, Schedule), From(items, Attribution);
    if |scheduled| == 1 && attributed != [] {
      var detours := Close(person, attributed, shiftStart, cap);
      out := FillAround(scheduled[0].wc, person, detours, shiftStart, cap);
    } else {
      out := Close(person, items, shiftStart, cap);
    }
  }

  /** So far the output holds exactly the segments of `people`. */
  ghost predicate Resolved(x: Inputs, out: seq<Segment>, people: seq<string>) {
    forall person :: Whose(out, person) == if person in people then SegmentsOf(x, person) else []
  }

  lemma WhoseNext(x: Inputs, out: seq<Segment>, next: string, person: string)
    ensures Whose(out + SegmentsOf(x, next), person) ==
      if person == next then Whose(out, person) + SegmentsOf(x, next) else Whose(out, person)
  {
    SegmentsAreTidy(x, next);
    WhoseOfConcat(out, SegmentsOf(x, next), person);
    WhoseOfOne(SegmentsOf(x, next), next, person);
  }

  lemma ResolvedNext(x: Inputs, out: seq<Segment>, people: seq<string>, next: string)
    requires Resolved(x, out, people) && next !in people
    ensures Resolved(x, out + SegmentsOf(x, next), people + [next])
  {
    forall person ensures Whose(out + SegmentsOf(x, next), person) ==
      if person in people + [next] then SegmentsOf(x, person) else []
    {
      assert Whose(out, person) == if person in people then SegmentsOf(x, person) else [];
      WhoseNext(x, out, next, person);
    }
  }

  lemma EveryoneIsResolved(x: Inputs, raw: Raw, order: seq<string>)
    requires Grouped(raw, order, Entries(x), x.excluded)
    ensures forall person | person !in order :: SegmentsOf(x, person) == []
  {
    forall person | person !in order ensures SegmentsOf(x, person) == [] {
      if person !in x.excluded { NothingOf(Entries(x), person); }
    }
  }

  lemma EveryoneFollowsInputs(x: Inputs)
    ensures forall person | person in x.excluded :: SegmentsOf(x, person) == []
    ensures forall person, wc, t | person !in x.excluded && person !in Punched(x.punches) && ListedOnce(x, person, wc) ::
      CoversShift(x, person, wc, SegmentsOf(x, person), t)
    ensures forall person, t | person !in x.excluded && x.shiftStart <= t < x.cap
      && (person in Punched(x.punches) || |Centers(x.assignments, x.timeOffKey, person)| != 1) ::
      At(SegmentsOf(x, person), t) == Says(SortByStart(OwnItems(x, person)), t)
  {
    forall person, wc, t | person !in x.excluded && person !in Punched(x.punches) && ListedOnce(x, person, wc)
      ensures CoversShift(x, person, wc, SegmentsOf(x, person), t)
    {
      CrewCoversShift(x, person, wc, t);
    }
    forall person, t | person !in x.excluded && x.shiftStart <= t < x.cap
      && (person in Punched(x.punches) || |Centers(x.assignments, x.timeOffKey, person)| != 1)
      ensures At(SegmentsOf(x, person), t) == Says(SortByStart(OwnItems(x, person)), t)
    {
      OthersFollowItems(x, person, t);
    }
  }

  /** `resolve_segments`: each person gets exactly their own segments, in order. */
  method ResolveSegments(x: Inputs) returns (out: seq<Segment>)
    ensures forall person :: Whose(out, person) == SegmentsOf(x, person)
    ensures forall person | person in x.excluded :: Whose(out, person) == []
    ensures forall person, wc, t | person !in x.excluded && person !in Punched(x.punches) && ListedOnce(x, person, wc) ::
      CoversShift(x, person, wc, Whose(out, person), t)
    ensures forall person, t | person !in x.excluded && x.shiftStart <= t < x.cap
      && (person in Punched(x.punches) || |Centers(x.assignments, x.timeOffKey, person)| != 1) ::
      At(Whose(out, person), t) == Says(SortByStart(OwnItems(x, person)), t)
  {
    var raw, order := Collect(x);
    out := [];
    for i := 0 to |order|
      invariant Resolved(x, out, order[..i])
    {
      assert order[..i + 1] == order[..i] + [order[i]];
      var segments := ResolvePerson(order[i], raw[order[i]], x.shiftStart, x.cap);
      ResolvedNext(x, out, order[..i], order[i]);
      out := out + segments;
    }
    EveryoneIsResolved(x, raw, order);
    assert order[..|order|] == order;
    EveryoneFollowsInputs(x);
  }
}
