/** The durable recalculation queue: one job per plant day, claimed under a lease
    (`attendance_recalc.py`, and the enqueue step of `attendance_mirror.py`). */
module AttendanceRecalc {
  import opened Prelude
  import opened Attendance

  datatype Job = Job(
    requestedAt: int,
    startedAt: Option<int>,
    completedAt: Option<int>,
    cacheStartedAt: Option<int>,
    cacheReadyAt: Option<int>,
    attempts: nat)

  type Queue = map<int, Job>

  datatype Claim = Claim(day: int, attempts: nat, lease: int)
  datatype CacheClaim = CacheClaim(day: int, attempts: nat, completedAt: int, lease: int)

  /** Fifteen minutes, in microseconds. */
  const CLAIM_LEASE: int := 15 * 60 * 1_000_000

  // ---- the row updates ----------------------------------------------------------

  /** A pending request keeps its place and its attempts; a completed one starts afresh.
      Either way every claim on the day is cut off. */
  function Requested(job: Option<Job>, at: int): Job {
    var pending := job.Some? && job.value.completedAt.None?;
    Job(if pending && job.value.requestedAt <= at then job.value.requestedAt else at,
        None, None, None, None,
        if pending then job.value.attempts else 0)
  }

  function Enqueue(queue: Queue, days: set<int>, at: int): Queue {
    map d | d in queue.Keys + days :: if d in days then Requested(Get(queue, d), at) else queue[d]
  }

  predicate Eligible(job: Job, now: int) {
    job.completedAt.None? && (job.startedAt.None? || job.startedAt.value <= now)
  }

  function Claimed(job: Job, now: int): Job {
    job.(startedAt := Some(now + CLAIM_LEASE), attempts := job.attempts + 1)
  }

  /** The fence: the row still carries exactly this claim. */
  predicate Owns(queue: Queue, claim: Claim) {
    && claim.day in queue && queue[claim.day].completedAt.None?
    && queue[claim.day].attempts == claim.attempts && queue[claim.day].startedAt == Some(claim.lease)
  }

  function Completed(job: Job, at: int): Job {
    job.(completedAt := Some(at), startedAt := None, cacheStartedAt := Some(at + CLAIM_LEASE), cacheReadyAt := None)
  }

  predicate CacheEligible(job: Job, now: int) {
    && job.completedAt.Some? && job.cacheReadyAt.None?
    && (job.cacheStartedAt.None? || job.cacheStartedAt.value <= now)
  }

  predicate OwnsCache(queue: Queue, claim: CacheClaim) {
    && claim.day in queue && queue[claim.day].completedAt == Some(claim.completedAt)
    && queue[claim.day].attempts == claim.attempts && queue[claim.day].cacheReadyAt.None?
    && queue[claim.day].cacheStartedAt == Some(claim.lease)
  }

  /** A job is waiting, claimed, or completed; only a completed job has cache columns. */
  predicate JobShape(job: Job) {
    && (job.startedAt.Some? ==> job.completedAt.None? && job.attempts > 0)
    && (job.completedAt.Some? ==> job.attempts > 0)
    && (job.cacheStartedAt.Some? ==> job.completedAt.Some? && job.cacheReadyAt.None?)
    && (job.cacheReadyAt.Some? ==> job.completedAt.Some?)
    && (job.completedAt.Some? ==> job.cacheStartedAt.Some? || job.cacheReadyAt.Some?)
  }

  predicate QueueShape(queue: Queue) { forall d | d in queue :: JobShape(queue[d]) }

  // ---- backoff ------------------------------------------------------------------

  function Pow2(n: nat): (r: nat)
    ensures r >= 1
  {
    if n == 0 then 1 else 2 * Pow2(n - 1)
  }

  /** Seconds: 15 doubled per attempt, the exponent held at 20, at most 900. */
  function RetryDelay(attempts: nat): int
    requires attempts > 0
  {
    var seconds := 15 * Pow2(if attempts - 1 < 20 then attempts - 1 else 20);
    if seconds < 900 then seconds else 900
  }

  /** Doubling reaches the cap at the seventh attempt and never leaves it. */
  lemma {:induction false} RetryDelayDoublesToTheCap(n: nat)
    requires n > 0
    ensures n >= 7 <==> RetryDelay(n) == 900
    ensures n < 7 ==> 2 * RetryDelay(n) == 15 * Pow2(n) && RetryDelay(n + 1) == (if n < 6 then 2 * RetryDelay(n) else 900)
  {
    assert Pow2(0) == 1 && Pow2(1) == 2 && Pow2(2) == 4 && Pow2(3) == 8;
    assert Pow2(4) == 16 && Pow2(5) == 32 && Pow2(6) == 64;
    if n >= 7 { PowGrows(6, if n - 1 < 20 then n - 1 else 20); }
  }

  lemma {:induction false} PowGrows(m: nat, n: nat)
    requires m <= n
    ensures Pow2(m) <= Pow2(n)
  {
    if m < n { PowGrows(m, n - 1); }
  }

  // ---- which job is taken -------------------------------------------------------

  /** The eligible days by request, ties by day. */
  function Due(queue: Queue, now: int): map<int, Rank> {
    map d | d in queue && Eligible(queue[d], now) :: (queue[d].requestedAt, d, 0)
  }

  /** The days whose caches are to be refreshed, by completion, then request, then day. */
  function CachesDue(queue: Queue, now: int): map<int, Rank> {
    map d | d in queue && CacheEligible(queue[d], now) :: (queue[d].completedAt.value, queue[d].requestedAt, d)
  }

  // ---- what the queue promises a day ----------------------------------------------

  /** On the columns: not completed, and neither started nor to be retried later than `now`. */
  predicate Waits(queue: Queue, d: int, now: int) {
    d in queue && queue[d].completedAt.None? && (queue[d].startedAt.None? || queue[d].startedAt.value <= now)
  }

  predicate CacheWaits(queue: Queue, d: int, now: int) {
    && d in queue && queue[d].completedAt.Some? && queue[d].cacheReadyAt.None?
    && (queue[d].cacheStartedAt.None? || queue[d].cacheStartedAt.value <= now)
  }

  /** The earlier request first, and of two the earlier day. */
  predicate NoEarlier(queue: Queue, d: int, e: int)
    requires d in queue && e in queue
  {
    queue[d].requestedAt < queue[e].requestedAt || (queue[d].requestedAt == queue[e].requestedAt && d <= e)
  }

  /** The earlier completion first, then as for requests. */
  predicate CacheNoEarlier(queue: Queue, d: int, e: int)
    requires d in queue && e in queue && queue[d].completedAt.Some? && queue[e].completedAt.Some?
  {
    queue[d].completedAt.value < queue[e].completedAt.value
    || (queue[d].completedAt == queue[e].completedAt && NoEarlier(queue, d, e))
  }

  lemma DueMeansWaits(queue: Queue, now: int)
    ensures forall d :: d in Due(queue, now) <==> Waits(queue, d, now)
    ensures forall d, e :: d in Due(queue, now) && e in Due(queue, now) ==>
      (AtMost(Due(queue, now)[d], Due(queue, now)[e]) <==> NoEarlier(queue, d, e))
    ensures forall d :: d in CachesDue(queue, now) <==> CacheWaits(queue, d, now)
    ensures forall d, e :: d in CachesDue(queue, now) && e in CachesDue(queue, now) ==>
      (AtMost(CachesDue(queue, now)[d], CachesDue(queue, now)[e]) <==> CacheNoEarlier(queue, d, e))
  {
  }

  /** Every request makes the day wait, a pending one with its earliest time and its attempts, a
      completed or new one from the beginning. */
  lemma RequestWaits(queue: Queue, days: set<int>, at: int, d: int, now: int)
    requires d in days
    ensures var after := Enqueue(queue, days, at);
      && Waits(after, d, now) && after[d].cacheStartedAt.None? && after[d].cacheReadyAt.None?
      && after[d].requestedAt <= at
      && (d in queue && queue[d].completedAt.None? ==>
            && after[d].requestedAt <= queue[d].requestedAt
            && after[d].requestedAt in {at, queue[d].requestedAt} && after[d].attempts == queue[d].attempts)
      && (d !in queue || queue[d].completedAt.Some? ==> after[d].requestedAt == at && after[d].attempts == 0)
  {
  }

  // ---- the queue in place -------------------------------------------------------

  /** The queue table, and the production each day was last stored with: the view it was
      computed from. */
  class RecalcQueue {
    var jobs: Queue
    var produced: map<int, View>

    constructor ()
      ensures jobs == map[] && produced == map[]
    {
      jobs := map[];
      produced := map[];
    }

    /** `_enqueue_recalc_cur` */
    method EnqueueDays(days: set<int>, at: int)
      modifies this`jobs
      ensures jobs == Enqueue(old(jobs), days, at)
    {
      var rest := days;
      while rest != {}
        invariant rest <= days && jobs == Enqueue(old(jobs), days - rest, at)
        decreases |rest|
      {
        var day := PickOne(rest);
        jobs := jobs[day := Requested(Get(jobs, day), at)];
        rest := rest - {day};
        assert Enqueue(old(jobs), days - rest, at).Keys == jobs.Keys;
      }
      assert days - rest == days;
    }

    /** `_claim_next` */
    method ClaimNext(now: int) returns (claim: Option<Claim>)
      modifies this`jobs
      ensures claim.None? <==> Due(old(jobs), now) == map[]
      ensures claim.None? ==> jobs == old(jobs)
      ensures claim.Some? ==> Least(Due(old(jobs), now), claim.value.day)
      ensures claim.Some? ==> jobs == old(jobs)[claim.value.day := Claimed(old(jobs)[claim.value.day], now)]
      ensures claim.Some? ==> Owns(jobs, claim.value) && claim.value.lease == now + CLAIM_LEASE
      ensures claim.None? <==> forall d :: !Waits(old(jobs), d, now)
      ensures claim.Some? ==> Waits(old(jobs), claim.value.day, now)
      ensures claim.Some? ==> forall d :: Waits(old(jobs), d, now) ==> NoEarlier(old(jobs), claim.value.day, d)
      ensures claim.Some? ==> (
        var job := jobs[claim.value.day];
        job.startedAt == Some(now + 900_000_000) && job.attempts == old(jobs)[claim.value.day].attempts + 1)
    {
      DueMeansWaits(jobs, now);
      if Due(jobs, now) == map[] {
        assert forall d :: d !in Due(jobs, now);
        return None;
      }
      var day := PickLeast(Due(jobs, now));
      jobs := jobs[day := Claimed(jobs[day], now)];
      claim := Some(Claim(day, jobs[day].attempts, now + CLAIM_LEASE));
    }

    /** `_complete_claim`: the production and the completion commit together, or nothing does. */
    method CompleteClaim(claim: Claim, prepared: View, at: int) returns (stored: bool)
      modifies this
      ensures stored == Owns(old(jobs), claim)
      ensures jobs == if stored then old(jobs)[claim.day := Completed(old(jobs)[claim.day], at)] else old(jobs)
      ensures produced == if stored then old(produced)[claim.day := prepared] else old(produced)
      ensures stored ==> (
        var job := jobs[claim.day];
        && job.completedAt == Some(at) && job.startedAt.None? && job.attempts == claim.attempts
        && job.cacheReadyAt.None? && OwnsCache(jobs, CacheClaim(claim.day, claim.attempts, at, at + 900_000_000)))
    {
      stored := Owns(jobs, claim);
      if stored {
        produced := produced[claim.day := prepared];
        jobs := jobs[claim.day := Completed(jobs[claim.day], at)];
      }
    }

    /** `_record_failure`: None is the error that the claim was superseded. */
    method RecordFailure(claim: Claim, failedAt: int) returns (retryAt: Option<int>)
      requires claim.attempts > 0
      modifies this`jobs
      ensures retryAt.Some? <==> Owns(old(jobs), claim)
      ensures retryAt.Some? ==> retryAt.value == failedAt + RetryDelay(claim.attempts) * 1_000_000
      ensures jobs == if retryAt.Some? then old(jobs)[claim.day := old(jobs)[claim.day].(startedAt := retryAt)] else old(jobs)
      ensures retryAt.Some? ==> failedAt < retryAt.value <= failedAt + 900_000_000
      ensures retryAt.Some? ==> Waits(jobs, claim.day, retryAt.value) && jobs[claim.day].attempts == claim.attempts
    {
      if !Owns(jobs, claim) { return None; }
      retryAt := Some(failedAt + RetryDelay(claim.attempts) * 1_000_000);
      jobs := jobs[claim.day := jobs[claim.day].(startedAt := retryAt)];
    }

    /** `_claim_pending_cache` */
    method ClaimPendingCache(now: int) returns (claim: Option<CacheClaim>)
      modifies this`jobs
      ensures claim.None? <==> CachesDue(old(jobs), now) == map[]
      ensures claim.None? ==> jobs == old(jobs)
      ensures claim.Some? ==> Least(CachesDue(old(jobs), now), claim.value.day)
      ensures claim.Some? ==>
        jobs == old(jobs)[claim.value.day := old(jobs)[claim.value.day].(cacheStartedAt := Some(now + CLAIM_LEASE))]
      ensures claim.Some? ==> OwnsCache(jobs, claim.value) && claim.value.lease == now + CLAIM_LEASE
      ensures claim.None? <==> forall d :: !CacheWaits(old(jobs), d, now)
      ensures claim.Some? ==> CacheWaits(old(jobs), claim.value.day, now)
      ensures claim.Some? ==> forall d :: CacheWaits(old(jobs), d, now) ==>
        CacheNoEarlier(old(jobs), claim.value.day, d)
    {
      DueMeansWaits(jobs, now);
      if CachesDue(jobs, now) == map[] {
        assert forall d :: d !in CachesDue(jobs, now);
        return None;
      }
      var day := PickLeast(CachesDue(jobs, now));
      claim := Some(CacheClaim(day, jobs[day].attempts, jobs[day].completedAt.value, now + CLAIM_LEASE));
      jobs := jobs[day := jobs[day].(cacheStartedAt := Some(now + CLAIM_LEASE))];
    }

    /** `_mark_cache_ready` */
    method MarkCacheReady(claim: CacheClaim, at: int) returns (ready: bool)
      modifies this`jobs
      ensures ready == OwnsCache(old(jobs), claim)
      ensures jobs == (
        if ready then old(jobs)[claim.day := old(jobs)[claim.day].(cacheStartedAt := None, cacheReadyAt := Some(at))]
        else old(jobs))
      ensures ready ==> jobs[claim.day].cacheReadyAt == Some(at) && jobs[claim.day].completedAt == Some(claim.completedAt)
      ensures ready ==> forall now :: !CacheWaits(jobs, claim.day, now)
    {
      ready := OwnsCache(jobs, claim);
      if ready {
        jobs := jobs[claim.day := jobs[claim.day].(cacheStartedAt := None, cacheReadyAt := Some(at))];
      }
    }
  }
}
