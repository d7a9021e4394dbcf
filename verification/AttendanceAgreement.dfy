/** The mirror, its queue and the workers together: stored production agrees with the mirror.
    Transactions interleave freely; a worker may stop between any two of its steps. */
module AttendanceAgreement {
  import opened Prelude
  import opened Attendance
  import opened AttendanceRecalc
  import opened AttendanceMirror
  import opened AttendanceDays

  /** A worker between its claim and its completion; `view` is what it read to prepare the day. */
  datatype Worker = Worker(claim: Claim, view: Option<View>)

  /** `tokens` are the values ever written to `started_at`, `instants` the times of the commits. */
  datatype System = System(mirror: State, produced: map<int, View>, workers: set<Worker>, tokens: set<int>,
                           instants: set<int>)

  datatype Event =
    | Commits(c: Commit)
    | Requests(days: set<int>, at: int)
    | Claims(day: int, now: int)
    | Prepares(worker: Worker)
    | Finishes(worker: Worker, at: int)
    | Fails(worker: Worker, at: int)
    | ClaimsCache(day: int, now: int)
    | ReadiesCache(cacheClaim: CacheClaim, at: int)

  function RetryAt(claim: Claim, at: int): int
    requires claim.attempts > 0
  {
    at + RetryDelay(claim.attempts) * 1_000_000
  }

  /** What may happen next.  Written `started_at` values are pairwise distinct. */
  predicate Enabled(s: System, e: Event) {
    match e
    case Commits(_) => true
    case Requests(_, _) => true
    case Claims(day, now) => Least(Due(s.mirror.queue, now), day) && now + CLAIM_LEASE !in s.tokens
    case Prepares(w) => w in s.workers && w.view.None?
    case Finishes(w, _) => w in s.workers && w.view.Some?
    case Fails(w, at) => w in s.workers && w.claim.attempts > 0 && RetryAt(w.claim, at) !in s.tokens
    case ClaimsCache(day, now) => Least(CachesDue(s.mirror.queue, now), day)
    case ReadiesCache(_, _) => true
  }

  function WithJob(s: System, day: int, job: Job): System {
    s.(mirror := s.mirror.(queue := s.mirror.queue[day := job]))
  }

  function Committed(dayOf: Calendar, s: System, c: Commit): System {
    s.(mirror := Apply(dayOf, s.mirror, c),
       instants := if Accepts(s.mirror, c) then s.instants + {c.at} else s.instants)
  }

  function Next(dayOf: Calendar, s: System, e: Event): System
    requires Enabled(s, e)
  {
    var queue := s.mirror.queue;
    match e
    case Commits(c) => Committed(dayOf, s, c)
    case Requests(days, at) => s.(mirror := s.mirror.(queue := Enqueue(queue, days, at)))
    case Claims(day, now) =>
      var job := Claimed(queue[day], now);
      WithJob(s, day, job).(workers := s.workers + {Worker(Claim(day, job.attempts, now + CLAIM_LEASE), None)},
                            tokens := s.tokens + {now + CLAIM_LEASE})
    case Prepares(w) =>
      s.(workers := s.workers - {w} + {w.(view := Some(DayView(dayOf, s.mirror.table, w.claim.day)))})
    case Finishes(w, at) =>
      if Owns(queue, w.claim)
      then WithJob(s, w.claim.day, Completed(queue[w.claim.day], at)).(produced := s.produced[w.claim.day := w.view.value])
      else s
    case Fails(w, at) =>
      if Owns(queue, w.claim)
      then WithJob(s, w.claim.day, queue[w.claim.day].(startedAt := Some(RetryAt(w.claim, at))))
             .(tokens := s.tokens + {RetryAt(w.claim, at)})
      else s
    case ClaimsCache(day, now) => WithJob(s, day, queue[day].(cacheStartedAt := Some(now + CLAIM_LEASE)))
    case ReadiesCache(claim, at) =>
      if OwnsCache(queue, claim)
      then WithJob(s, claim.day, queue[claim.day].(cacheStartedAt := None, cacheReadyAt := Some(at)))
      else s
  }

  // ---- the agreement ----------------------------------------------------------------

  predicate Finished(queue: Queue, d: int) { d in queue && queue[d].completedAt.Some? }

  /** Each queued day is unfinished, or its production was computed from its current view. */
  predicate Agrees(dayOf: Calendar, s: System) {
    forall d | d in s.mirror.queue && Finished(s.mirror.queue, d) ::
      d in s.produced && s.produced[d] == DayView(dayOf, s.mirror.table, d)
  }

  /** A worker that still holds its claim prepared the day from its current view. */
  predicate Fenced(dayOf: Calendar, s: System) {
    forall w | w in s.workers && Ready(s.mirror.queue, w) :: w.view.value == DayView(dayOf, s.mirror.table, w.claim.day)
  }

  /** The worker has prepared the day and could complete it now. */
  predicate Ready(queue: Queue, w: Worker) { w.view.Some? && Owns(queue, w.claim) }

  /** Production agrees, and no worker could store one that does not. */
  predicate Current(dayOf: Calendar, s: System) { Agrees(dayOf, s) && Fenced(dayOf, s) }

  /** The day is finished, or a worker could finish it now. */
  predicate Settled(s: System, d: int) {
    Finished(s.mirror.queue, d) || exists w :: w in s.workers && Ready(s.mirror.queue, w) && w.claim.day == d
  }

  predicate TokensRecorded(s: System) {
    && (forall d | d in s.mirror.queue && s.mirror.queue[d].startedAt.Some? :: s.mirror.queue[d].startedAt.value in s.tokens)
    && (forall w | w in s.workers :: w.claim.lease in s.tokens)
  }

  predicate WellFormed(s: System) {
    && s.mirror.sync.baseline.Some? && QueueShape(s.mirror.queue) && TableOk(s.mirror.table) && TokensRecorded(s)
  }

  /** The moment the baseline is completed: requests may be waiting, nothing is computed. */
  predicate Initial(s: System) {
    && s.mirror.sync.baseline.Some? && TableOk(s.mirror.table) && s.workers == {} && s.instants == {}
    && (forall d | d in s.mirror.queue :: Waiting(s.mirror.queue, d) && JobShape(s.mirror.queue[d]))
  }

  // ---- commits ------------------------------------------------------------------------

  lemma ApplyKeepsTableOk(dayOf: Calendar, s: State, c: Commit)
    requires TableOk(s.table)
    ensures TableOk(Apply(dayOf, s, c).table)
  {
    NormalizedMembers(Carried(c));
    if Accepts(s, c) { UpsertKeepsTableOk(s.table, Incoming(c), c.observed); }
  }

  lemma {:induction false} UpsertKeepsTableOk(table: Table, rows: seq<Row>, observed: int)
    requires TableOk(table) && AllAcceptable(rows)
    ensures TableOk(Upsert(table, rows, observed))
  {
    if rows != [] {
      assert rows[|rows| - 1] in rows;
      UpsertKeepsTableOk(table, rows[..|rows| - 1], observed);
    }
  }

  lemma RequestKeepsShape(queue: Queue, days: set<int>, at: int)
    requires QueueShape(queue)
    ensures QueueShape(Request(queue, days, at))
    ensures forall d | d in Request(queue, days, at) ::
      if d in days then Waiting(Request(queue, days, at), d) else d in queue && Request(queue, days, at)[d] == queue[d]
  {
  }

  /** What a commit does to the queue: the sent days wait, the others keep their jobs. */
  lemma CommitQueue(dayOf: Calendar, s: State, c: Commit)
    requires s.sync.baseline.Some? && QueueShape(s.queue)
    ensures var after, sent := Apply(dayOf, s, c).queue, SentDays(dayOf, s, c);
      && QueueShape(after) && after.Keys == s.queue.Keys + sent
      && forall d | d in after :: if d in sent then Waiting(after, d) else d in s.queue && after[d] == s.queue[d]
  {
    CommitSends(dayOf, s, c);
    RequestKeepsShape(s.queue, SentDays(dayOf, s, c), if c.BaselineChecked? then 0 else c.at);
  }

  /** A commit keeps production current exactly when it misses no settled day. */
  lemma CommitKeepsCurrentExactly(dayOf: Calendar, s: System, c: Commit)
    requires WellFormed(s) && Current(dayOf, s)
    ensures Current(dayOf, Committed(dayOf, s, c)) <==> MissesNoSettledDay(dayOf, s, Commits(c))
  {
    var after := Committed(dayOf, s, c);
    CommitQueue(dayOf, s.mirror, c);
    forall d ensures Misses(dayOf, s.mirror, c, d) <==>
      DayView(dayOf, after.mirror.table, d) != DayView(dayOf, s.mirror.table, d) && d !in SentDays(dayOf, s.mirror, c)
    {
      CommitMissesExactly(dayOf, s.mirror, c, d);
    }
    forall d | Settled(s, d) && Current(dayOf, after) ensures !Misses(dayOf, s.mirror, c, d) {
      if d !in SentDays(dayOf, s.mirror, c) { UnsentIsUnchanged(dayOf, s, after, d); }
    }
  }

  /** If production is current before and after, a settled day that keeps its job shows the same. */
  lemma UnsentIsUnchanged(dayOf: Calendar, s: System, after: System, d: int)
    requires Current(dayOf, s) && Current(dayOf, after) && Settled(s, d)
    requires after.workers == s.workers && after.produced == s.produced
    requires Get(after.mirror.queue, d) == Get(s.mirror.queue, d)
    ensures DayView(dayOf, after.mirror.table, d) == DayView(dayOf, s.mirror.table, d)
  {
    var before, queue := s.mirror.queue, after.mirror.queue;
    if Finished(before, d) {
      assert d in queue && Finished(queue, d);
    } else {
      var w :| w in s.workers && Ready(before, w) && w.claim.day == d;
      assert Ready(queue, w);
    }
  }

  lemma CommitKeepsWellFormed(dayOf: Calendar, s: System, c: Commit)
    requires WellFormed(s)
    ensures WellFormed(Committed(dayOf, s, c))
  {
    NothingGoesBack(dayOf, s.mirror, c);
    ApplyKeepsTableOk(dayOf, s.mirror, c);
    CommitQueue(dayOf, s.mirror, c);
  }

  // ---- the other events -----------------------------------------------------------------

  lemma RequestKeepsCurrent(dayOf: Calendar, s: System, days: set<int>, at: int)
    requires WellFormed(s)
    ensures WellFormed(Next(dayOf, s, Requests(days, at)))
    ensures Current(dayOf, s) ==> Current(dayOf, Next(dayOf, s, Requests(days, at)))
  {
    RequestKeepsShape(s.mirror.queue, days, at);
    if days == {} {
      assert Enqueue(s.mirror.queue, days, at) == s.mirror.queue;
    }
  }

  /** Reading the view, and completing: only the fence is needed. */
  lemma WorkKeepsCurrent(dayOf: Calendar, s: System, e: Event)
    requires WellFormed(s) && Enabled(s, e) && (e.Prepares? || e.Finishes?)
    ensures WellFormed(Next(dayOf, s, e)) && (Current(dayOf, s) ==> Current(dayOf, Next(dayOf, s, e)))
  {
  }

  /** Taking and retrying: a fresh token leaves no old claim on the job. */
  lemma ClaimKeepsCurrent(dayOf: Calendar, s: System, e: Event)
    requires WellFormed(s) && Enabled(s, e) && (e.Claims? || e.Fails?)
    ensures WellFormed(Next(dayOf, s, e)) && (Current(dayOf, s) ==> Current(dayOf, Next(dayOf, s, e)))
  {
  }

  lemma CacheKeepsCurrent(dayOf: Calendar, s: System, e: Event)
    requires WellFormed(s) && Enabled(s, e) && (e.ClaimsCache? || e.ReadiesCache?)
    ensures WellFormed(Next(dayOf, s, e)) && (Current(dayOf, s) ==> Current(dayOf, Next(dayOf, s, e)))
  {
  }

  predicate MissesNoSettledDay(dayOf: Calendar, s: System, e: Event) {
    e.Commits? ==> forall d | d in s.mirror.queue && Settled(s, d) :: !Misses(dayOf, s.mirror, e.c, d)
  }

  /** Any event keeps production current exactly when it is not a commit that misses a settled day. */
  lemma StepKeepsCurrentExactly(dayOf: Calendar, s: System, e: Event)
    requires WellFormed(s) && Enabled(s, e)
    ensures WellFormed(Next(dayOf, s, e))
    ensures Current(dayOf, s) ==> (Current(dayOf, Next(dayOf, s, e)) <==> MissesNoSettledDay(dayOf, s, e))
  {
    if e.Commits? {
      CommitKeepsWellFormed(dayOf, s, e.c);
      if Current(dayOf, s) { CommitKeepsCurrentExactly(dayOf, s, e.c); }
      assert forall d | Settled(s, d) :: d in s.mirror.queue;
    } else if e.Requests? {
      RequestKeepsCurrent(dayOf, s, e.days, e.at);
    } else if e.Prepares? || e.Finishes? {
      WorkKeepsCurrent(dayOf, s, e);
    } else if e.Claims? || e.Fails? {
      ClaimKeepsCurrent(dayOf, s, e);
    } else {
      CacheKeepsCurrent(dayOf, s, e);
    }
  }

  // ---- days that are not queued -----------------------------------------------------------

  /** An open row stored by a commit before the day began, or at its very check-in instant. */
  predicate Early(dayOf: Calendar, m: Material, instants: set<int>, d: int) {
    exists at :: at in instants && !Reaches(dayOf, m, at, d)
  }

  /** What an id shows is what it showed at the baseline, except that open rows may have come and
      gone while the day had not begun. */
  predicate Explained(dayOf: Calendar, origin: Option<Material>, now: Option<Material>, instants: set<int>, d: int) {
    origin == now || (
      && (origin.Some? ==> Early(dayOf, origin.value, instants, d))
      && (now.Some? ==> Early(dayOf, now.value, instants, d)))
  }

  ghost predicate NothingUnexplained(dayOf: Calendar, s: System, origin: Table) {
    forall d, id :: d !in s.mirror.queue ==>
      Explained(dayOf, Visible(dayOf, Get(origin, id), d), Visible(dayOf, Get(s.mirror.table, id), d), s.instants, d)
  }

  /** Where a commit changes an id on a day it does not send, both versions are out of its reach. */
  lemma UnsentChange(dayOf: Calendar, s: State, c: Commit, id: int, d: int)
    requires d !in SentDays(dayOf, s, c)
    ensures var e, v := Visible(dayOf, Get(s.table, id), d), Visible(dayOf, Get(Apply(dayOf, s, c).table, id), d);
      e == v || (
        && Accepts(s, c)
        && (e.Some? ==> !Reaches(dayOf, e.value, c.at, d)) && (v.Some? ==> !Reaches(dayOf, v.value, c.at, d)))
  {
    CommitReportsExactly(dayOf, s, c, d);
    if Accepts(s, c) {
      VisibleAfter(dayOf, s, c, id, d);
      if r :| r in Incoming(c) && r.id == id {
        ChangesExactly(dayOf, Get(s.table, id), r, c.observed, d);
        assert !Reports(dayOf, Get(s.table, id), r, c.at, c.observed, d);
      } else if id in Dropped(s, c) {
        assert !Covered(dayOf, s.table[id].row.material, c.at, d);
      }
    }
  }

  lemma CommitKeepsExplained(dayOf: Calendar, s: System, c: Commit, origin: Table)
    requires WellFormed(s) && NothingUnexplained(dayOf, s, origin)
    ensures NothingUnexplained(dayOf, Committed(dayOf, s, c), origin)
  {
    var after := Committed(dayOf, s, c);
    CommitQueue(dayOf, s.mirror, c);
    forall d, id | d !in after.mirror.queue
      ensures Explained(dayOf, Visible(dayOf, Get(origin, id), d), Visible(dayOf, Get(after.mirror.table, id), d), after.instants, d)
    {
      assert d !in s.mirror.queue && d !in SentDays(dayOf, s.mirror, c);
      UnsentChange(dayOf, s.mirror, c, id, d);
      EarlyStays(dayOf, s.instants, after.instants, d);
    }
  }

  lemma EarlyStays(dayOf: Calendar, before: set<int>, after: set<int>, d: int)
    requires before <= after
    ensures forall m :: Early(dayOf, m, before, d) ==> Early(dayOf, m, after, d)
  {
  }

  lemma StepKeepsExplained(dayOf: Calendar, s: System, e: Event, origin: Table)
    requires WellFormed(s) && NothingUnexplained(dayOf, s, origin) && Enabled(s, e)
    ensures NothingUnexplained(dayOf, Next(dayOf, s, e), origin)
  {
    if e.Commits? {
      CommitKeepsExplained(dayOf, s, e.c, origin);
    } else {
      var after := Next(dayOf, s, e);
      assert after.mirror.table == s.mirror.table && after.instants == s.instants;
      assert s.mirror.queue.Keys <= after.mirror.queue.Keys;
    }
  }

  // ---- runs -------------------------------------------------------------------------------

  predicate Legal(dayOf: Calendar, s: System, events: seq<Event>)
    decreases |events|
  {
    events == [] || (Enabled(s, events[0]) && Legal(dayOf, Next(dayOf, s, events[0]), events[1..]))
  }

  function Reached(dayOf: Calendar, s: System, events: seq<Event>): System
    requires Legal(dayOf, s, events)
    decreases |events|
  {
    if events == [] then s else Reached(dayOf, Next(dayOf, s, events[0]), events[1..])
  }

  predicate CurrentThroughout(dayOf: Calendar, s: System, events: seq<Event>)
    requires Legal(dayOf, s, events)
    decreases |events|
  {
    Current(dayOf, s) && (events != [] ==> CurrentThroughout(dayOf, Next(dayOf, s, events[0]), events[1..]))
  }

  /** No commit of the run misses a day that is settled at that point. */
  predicate MissesNone(dayOf: Calendar, s: System, events: seq<Event>)
    requires Legal(dayOf, s, events)
    decreases |events|
  {
    events != [] ==>
      MissesNoSettledDay(dayOf, s, events[0]) && MissesNone(dayOf, Next(dayOf, s, events[0]), events[1..])
  }

  lemma {:induction false} RunIsCurrentExactly(dayOf: Calendar, s: System, events: seq<Event>)
    requires WellFormed(s) && Current(dayOf, s) && Legal(dayOf, s, events)
    ensures CurrentThroughout(dayOf, s, events) <==> MissesNone(dayOf, s, events)
    ensures CurrentThroughout(dayOf, s, events) ==> Current(dayOf, Reached(dayOf, s, events))
    decreases |events|
  {
    if events != [] {
      var next := Next(dayOf, s, events[0]);
      StepKeepsCurrentExactly(dayOf, s, events[0]);
      if Current(dayOf, next) {
        RunIsCurrentExactly(dayOf, next, events[1..]);
      }
    }
  }

  lemma {:induction false} RunKeepsExplained(dayOf: Calendar, s: System, events: seq<Event>, origin: Table)
    requires WellFormed(s) && NothingUnexplained(dayOf, s, origin) && Legal(dayOf, s, events)
    ensures NothingUnexplained(dayOf, Reached(dayOf, s, events), origin)
    ensures WellFormed(Reached(dayOf, s, events))
    decreases |events|
  {
    if events != [] {
      StepKeepsCurrentExactly(dayOf, s, events[0]);
      StepKeepsExplained(dayOf, s, events[0], origin);
      RunKeepsExplained(dayOf, Next(dayOf, s, events[0]), events[1..], origin);
    }
  }

  /** From the baseline on, over every run: production agrees in every state passed, with no worker
      able to store one that does not, if and only if no commit misses a settled day. */
  lemma ProductionAgrees(dayOf: Calendar, s: System, events: seq<Event>)
    requires Initial(s) && Legal(dayOf, s, events)
    ensures CurrentThroughout(dayOf, s, events) <==> MissesNone(dayOf, s, events)
    ensures MissesNone(dayOf, s, events) ==> Agrees(dayOf, Reached(dayOf, s, events))
    ensures QueueShape(Reached(dayOf, s, events).mirror.queue)
  {
    InitialIsCurrent(dayOf, s);
    RunIsCurrentExactly(dayOf, s, events);
    RunKeepsExplained(dayOf, s, events, s.mirror.table);
  }

  lemma InitialIsCurrent(dayOf: Calendar, s: System)
    requires Initial(s)
    ensures WellFormed(s) && Current(dayOf, s) && NothingUnexplained(dayOf, s, s.mirror.table)
  {
    assert forall d | d in s.mirror.queue :: Waiting(s.mirror.queue, d);
  }

  /** Over every run, whatever its commits miss: a day that is not queued shows of each row what it
      showed at the baseline, or the difference is an open row committed before the day began. */
  lemma UnqueuedDaysAreExplained(dayOf: Calendar, s: System, events: seq<Event>, d: int, id: int)
    requires Initial(s) && Legal(dayOf, s, events) && d !in Reached(dayOf, s, events).mirror.queue
    ensures var r := Reached(dayOf, s, events);
      Explained(dayOf, Visible(dayOf, Get(s.mirror.table, id), d), Visible(dayOf, Get(r.mirror.table, id), d), r.instants, d)
  {
    InitialIsCurrent(dayOf, s);
    RunKeepsExplained(dayOf, s, events, s.mirror.table);
  }

  /** So a day begun by every commit, with no check-in at a commit instant, still shows exactly what
      it showed at the baseline unless it is queued. */
  lemma BegunDaysAreUnchanged(dayOf: Calendar, s: System, events: seq<Event>, d: int)
    requires Initial(s) && Legal(dayOf, s, events)
    requires var r := Reached(dayOf, s, events);
      && d !in r.mirror.queue
      && (forall at | at in r.instants :: d <= dayOf(at - 1))
      && (forall id | id in s.mirror.table :: s.mirror.table[id].row.material.checkIn !in r.instants)
      && (forall id | id in r.mirror.table :: r.mirror.table[id].row.material.checkIn !in r.instants)
    ensures DayView(dayOf, Reached(dayOf, s, events).mirror.table, d) == DayView(dayOf, s.mirror.table, d)
  {
    var r := Reached(dayOf, s, events);
    forall id ensures Visible(dayOf, Get(r.mirror.table, id), d) == Visible(dayOf, Get(s.mirror.table, id), d) {
      UnqueuedDaysAreExplained(dayOf, s, events, d, id);
      BegunIsReached(dayOf, s.mirror.table, r.instants, d, id);
      BegunIsReached(dayOf, r.mirror.table, r.instants, d, id);
    }
    DayViewsEqual(dayOf, r.mirror.table, s.mirror.table, d);
  }

  /** What a row shows of a begun day was reached by every commit that is not its check-in instant. */
  lemma BegunIsReached(dayOf: Calendar, table: Table, instants: set<int>, d: int, id: int)
    requires forall at | at in instants :: d <= dayOf(at - 1)
    requires forall i | i in table :: table[i].row.material.checkIn !in instants
    ensures var m := Visible(dayOf, Get(table, id), d);
      m.Some? ==> !Early(dayOf, m.value, instants, d)
  {
  }

  /** A commit that reaches the settled days misses none of them. */
  lemma ReachingCommitMissesNone(dayOf: Calendar, s: System, c: Commit)
    requires forall d | d in s.mirror.queue && Settled(s, d) :: CommitReaches(dayOf, s.mirror, c, d)
    ensures MissesNoSettledDay(dayOf, s, Commits(c))
  {
    forall d | d in s.mirror.queue && Settled(s, d) ensures !Misses(dayOf, s.mirror, c, d) {
      ReachedIsNotMissed(dayOf, s.mirror, c, d);
    }
  }

  /** A commit that does miss a finished day. */
  lemma MissedDayDisagrees() returns (dayOf: Calendar, s: System, c: Commit)
    ensures IsCalendar(dayOf) && WellFormed(s) && Current(dayOf, s)
    ensures !MissesNoSettledDay(dayOf, s, Commits(c)) && !Agrees(dayOf, Committed(dayOf, s, c))
  {
    var job := Job(0, None, Some(1), Some(1 + CLAIM_LEASE), None, 1);
    var m: State;
    dayOf, m, c := FutureDayMissed(job);
    s := System(m, map[1 := map[]], {}, {}, {});
    assert m.queue[1] == job && Finished(m.queue, 1) && Settled(s, 1);
    assert Get(Apply(dayOf, m, c).queue, 1) == Some(job);
  }

  // ---- no day is lost -----------------------------------------------------------------------

  /** The clock a worker read for its step, if it reads one. */
  predicate ByTime(e: Event, time: int) {
    match e
    case Claims(_, now) => now <= time
    case Fails(_, at) => at <= time
    case Finishes(_, at) => at <= time
    case ClaimsCache(_, now) => now <= time
    case _ => true
  }

  /** No lease or retry reaches further than fifteen minutes past `time`. */
  predicate ReturnsBy(queue: Queue, time: int) {
    forall d | d in queue ::
      && (queue[d].startedAt.Some? ==> queue[d].startedAt.value <= time + 900_000_000)
      && (queue[d].cacheStartedAt.Some? ==> queue[d].cacheStartedAt.value <= time + 900_000_000)
  }

  lemma StepReturnsBy(dayOf: Calendar, s: System, e: Event, time: int)
    requires WellFormed(s) && Enabled(s, e) && ByTime(e, time) && ReturnsBy(s.mirror.queue, time)
    ensures ReturnsBy(Next(dayOf, s, e).mirror.queue, time)
  {
    if e.Commits? { CommitQueue(dayOf, s.mirror, e.c); }
  }

  lemma {:induction false} RunReturnsBy(dayOf: Calendar, s: System, events: seq<Event>, time: int)
    requires WellFormed(s) && Legal(dayOf, s, events) && ReturnsBy(s.mirror.queue, time)
    requires forall e | e in events :: ByTime(e, time)
    ensures ReturnsBy(Reached(dayOf, s, events).mirror.queue, time)
    decreases |events|
  {
    if events != [] {
      assert events[0] in events;
      StepKeepsCurrentExactly(dayOf, s, events[0]);
      StepReturnsBy(dayOf, s, events[0], time);
      RunReturnsBy(dayOf, Next(dayOf, s, events[0]), events[1..], time);
    }
  }

  /** Whoever stopped in the middle of whatever: fifteen minutes after the workers' last step, every
      unfinished day can be claimed, and every finished day without fresh caches can be refreshed. */
  lemma DaysComeBack(dayOf: Calendar, s: System, events: seq<Event>, time: int, now: int, d: int)
    requires Initial(s) && Legal(dayOf, s, events) && (forall e | e in events :: ByTime(e, time))
    requires now >= time + 900_000_000 && d in Reached(dayOf, s, events).mirror.queue
    ensures var queue := Reached(dayOf, s, events).mirror.queue;
      && (queue[d].completedAt.None? ==> Waits(queue, d, now) && Due(queue, now) != map[])
      && (queue[d].completedAt.Some? && queue[d].cacheReadyAt.None? ==> CacheWaits(queue, d, now) && CachesDue(queue, now) != map[])
  {
    InitialIsCurrent(dayOf, s);
    assert ReturnsBy(s.mirror.queue, time) by {
      assert forall e | e in s.mirror.queue :: Waiting(s.mirror.queue, e) && JobShape(s.mirror.queue[e]);
    }
    RunReturnsBy(dayOf, s, events, time);
    var queue := Reached(dayOf, s, events).mirror.queue;
    DueMeansWaits(queue, now);
    assert queue[d].completedAt.None? ==> d in Due(queue, now);
    assert queue[d].completedAt.Some? && queue[d].cacheReadyAt.None? ==> d in CachesDue(queue, now);
  }
}
