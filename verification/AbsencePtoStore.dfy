/** The durable request row and its leased compare-and-set operations
    (`absence_pto_store.py`).  `Accepts` is the WHERE clause of each statement,
    `Next` its SET clause; the class performs them in place. */
module AbsencePtoStore {
  import opened Prelude

  type Owner = int
  type LeaveId = int
  type TaskId = int

  const LEASE_SECONDS := 120

  datatype RequestState = Pending | Converting | Approved | Denied | NeedsReview | ResolvedManually
  datatype ConversionStep = NotStarted | AbsenceRefused | PtoCreated | PtoApproved
  datatype ResolutionStep = Unresolved | MessagePosted | Closed
  datatype Lease = Lease(owner: Owner, until: int)

  datatype Request = Request(
    state: RequestState,
    step: ConversionStep,
    originalId: Option<LeaveId>,
    ptoId: Option<LeaveId>,
    lease: Option<Lease>,
    taskId: Option<TaskId>,
    resolution: ResolutionStep)

  /** The optional `pto_leave_id` argument of `transition`: unset leaves the column alone. */
  datatype PtoField = Unset | Set(id: LeaveId)

  /** Every durable operation; `owner` is the caller's lease identity. */
  datatype Op =
    | Claim(owner: Owner)
    | Renew(owner: Owner)
    | Release(owner: Owner)
    | Transition(owner: Owner, fromState: RequestState, fromStep: ConversionStep,
                 toState: RequestState, toStep: ConversionStep, pto: PtoField)
    | ToPending(owner: Owner)
    | MarkNeedsReview(owner: Owner)
    | SaveTask(owner: Owner, task: Option<TaskId>)
    | SaveResolution(owner: Owner, expected: ResolutionStep, newStep: ResolutionStep)
    | AdoptExternal(owner: Owner, leave: LeaveId)
    | FinalizeApproved(owner: Owner, original: Option<LeaveId>, leave: LeaveId)
    | FinalizeManual(owner: Owner)
    | FinalizeDenied(owner: Owner)

  predicate Terminal(row: Request) {
    row.state == Approved || row.state == ResolvedManually
  }

  /** The row's lease belongs to `owner` and has not expired at `now`. */
  predicate Leased(row: Request, owner: Owner, now: int) {
    row.lease.Some? && row.lease.value.owner == owner && now < row.lease.value.until
  }

  predicate Accepts(row: Request, op: Op, now: int) {
    match op
    case Claim(o) => row.lease.None? || row.lease.value.until <= now || row.lease.value.owner == o
    case Renew(o) => Leased(row, o, now)
    case Release(o) => Leased(row, o, now)
    case Transition(o, s, t, _, _, _) => Leased(row, o, now) && row.state == s && row.step == t
    case ToPending(o) => Leased(row, o, now) && row.state == Converting
    case MarkNeedsReview(o) =>
      Leased(row, o, now) && (row.state == Pending || row.state == Converting || row.state == NeedsReview)
    case SaveTask(o, _) => Leased(row, o, now) && row.state == NeedsReview
    case SaveResolution(o, e, _) => Leased(row, o, now) && Terminal(row) && row.resolution == e
    case AdoptExternal(o, _) => Leased(row, o, now) && row.state == NeedsReview
    case FinalizeApproved(o, original, leave) =>
      && Leased(row, o, now) && row.originalId == original && row.ptoId == Some(leave)
      && ((row.state == Converting && row.step == PtoApproved) || row.state == NeedsReview)
    case FinalizeManual(o) => Leased(row, o, now) && row.state == NeedsReview
    case FinalizeDenied(o) => Leased(row, o, now) && row.state == Pending
  }

  /** Delivery of the outcome is already done when no review task exists. */
  function FirstResolution(row: Request): ResolutionStep {
    if row.taskId.None? then Closed else Unresolved
  }

  function Next(row: Request, op: Op, now: int): Request {
    match op
    case Claim(o) => row.(lease := Some(Lease(o, now + LEASE_SECONDS)))
    case Renew(o) => row.(lease := Some(Lease(o, now + LEASE_SECONDS)))
    case Release(_) => row.(lease := None)
    case Transition(_, _, _, s, t, pto) =>
      row.(state := s, step := t, ptoId := if pto.Set? then Some(pto.id) else row.ptoId)
    case ToPending(_) => row.(state := Pending, step := NotStarted, ptoId := None)
    case MarkNeedsReview(_) => row.(state := NeedsReview)
    case SaveTask(_, task) => row.(taskId := task)
    case SaveResolution(_, _, step) => row.(resolution := step)
    case AdoptExternal(_, leave) => row.(ptoId := Some(leave))
    case FinalizeApproved(_, _, _) =>
      row.(state := Approved, step := PtoApproved, resolution := FirstResolution(row))
    case FinalizeManual(_) => row.(state := ResolvedManually, resolution := FirstResolution(row))
    case FinalizeDenied(_) => row.(state := Denied)
  }

  function Exec(row: Request, op: Op, now: int): Request {
    if Accepts(row, op, now) then Next(row, op, now) else row
  }

  /** The row that a finalized approval selects for update. */
  predicate FinalizeLocks(row: Request, owner: Owner, leave: LeaveId, now: int) {
    Leased(row, owner, now)
    && ((row.state == Converting && row.step == PtoApproved) || (row.state == NeedsReview && row.ptoId == Some(leave)))
  }

  // ---- the store, in place -------------------------------------------------

  /** What a caller sees: the stored row, a `StaleTransition`, or (finalizations only)
      the bare `RuntimeError` raised when the locked row is not found. */
  datatype Reply = Stored(row: Request) | Stale | LockLost

  class RequestStore {
    var row: Request

    constructor (original: Option<LeaveId>)
      ensures row == Request(Pending, NotStarted, original, None, None, None, Unresolved)
    {
      row := Request(Pending, NotStarted, original, None, None, None, Unresolved);
    }

    method ClaimRequest(owner: Owner, now: int) returns (claimed: Option<Request>)
      modifies this
      ensures row == Exec(old(row), Claim(owner), now)
      ensures claimed == if Accepts(old(row), Claim(owner), now) then Some(row) else None
      ensures claimed.None? <==>
        old(row.lease).Some? && old(row.lease).value.owner != owner && now < old(row.lease).value.until
      ensures row == if claimed.None? then old(row) else old(row).(lease := Some(Lease(owner, now + 120)))
    {
      if row.lease.Some? && now < row.lease.value.until && row.lease.value.owner != owner {
        return None;
      }
      row := row.(lease := Some(Lease(owner, now + LEASE_SECONDS)));
      claimed := Some(row);
    }

    method RenewClaim(owner: Owner, now: int) returns (r: Reply)
      modifies this
      ensures row == Exec(old(row), Renew(owner), now)
      ensures r == if Accepts(old(row), Renew(owner), now) then Stored(row) else Stale
      ensures r.Stored? <==> old(row.lease).Some? && old(row.lease).value.owner == owner && now < old(row.lease).value.until
      ensures row == if r.Stored? then old(row).(lease := Some(Lease(owner, now + 120))) else old(row)
    {
      if !Leased(row, owner, now) { return Stale; }
      row := row.(lease := Some(Lease(owner, now + LEASE_SECONDS)));
      r := Stored(row);
    }

    method ReleaseClaim(owner: Owner, now: int) returns (released: bool)
      modifies this
      ensures row == Exec(old(row), Release(owner), now)
      ensures released == Accepts(old(row), Release(owner), now)
      ensures released <==> old(row.lease).Some? && old(row.lease).value.owner == owner && now < old(row.lease).value.until
      ensures row == if released then old(row).(lease := None) else old(row)
    {
      released := Leased(row, owner, now);
      if released { row := row.(lease := None); }
    }

    method TransitionRow(owner: Owner, now: int, fromState: RequestState, fromStep: ConversionStep,
                         toState: RequestState, toStep: ConversionStep, pto: PtoField)
      returns (r: Reply)
      modifies this
      ensures var op := Transition(owner, fromState, fromStep, toState, toStep, pto);
        row == Exec(old(row), op, now) && r == if Accepts(old(row), op, now) then Stored(row) else Stale
    {
      if !Leased(row, owner, now) || row.state != fromState || row.step != fromStep { return Stale; }
      row := row.(state := toState, step := toStep);
      if pto.Set? { row := row.(ptoId := Some(pto.id)); }
      r := Stored(row);
    }

    method TransitionToPending(owner: Owner, now: int) returns (r: Reply)
      modifies this
      ensures row == Exec(old(row), ToPending(owner), now)
      ensures r == if Accepts(old(row), ToPending(owner), now) then Stored(row) else Stale
    {
      if !Leased(row, owner, now) || row.state != Converting { return Stale; }
      row := row.(state := Pending, step := NotStarted, ptoId := None);
      r := Stored(row);
    }

    method NeedsReviewRow(owner: Owner, now: int) returns (r: Reply)
      modifies this
      ensures row == Exec(old(row), MarkNeedsReview(owner), now)
      ensures r == if Accepts(old(row), MarkNeedsReview(owner), now) then Stored(row) else Stale
    {
      if !Leased(row, owner, now) || row.state !in {Pending, Converting, NeedsReview} { return Stale; }
      row := row.(state := NeedsReview);
      r := Stored(row);
    }

    method SaveTaskDelivery(owner: Owner, now: int, task: Option<TaskId>) returns (r: Reply)
      modifies this
      ensures row == Exec(old(row), SaveTask(owner, task), now)
      ensures r == if Accepts(old(row), SaveTask(owner, task), now) then Stored(row) else Stale
    {
      if row.state != NeedsReview || !Leased(row, owner, now) { return Stale; }
      row := row.(taskId := task);
      r := Stored(row);
    }

    method AdoptExternalPto(owner: Owner, now: int, leave: LeaveId) returns (r: Reply)
      modifies this
      ensures row == Exec(old(row), AdoptExternal(owner, leave), now)
      ensures r == if Accepts(old(row), AdoptExternal(owner, leave), now) then Stored(row) else Stale
    {
      if row.state != NeedsReview || !Leased(row, owner, now) { return Stale; }
      row := row.(ptoId := Some(leave));
      r := Stored(row);
    }

    method SaveResolutionDelivery(owner: Owner, now: int, expected: ResolutionStep, step: ResolutionStep)
      returns (r: Reply)
      modifies this
      ensures row == Exec(old(row), SaveResolution(owner, expected, step), now)
      ensures r == if Accepts(old(row), SaveResolution(owner, expected, step), now) then Stored(row) else Stale
    {
      if !Leased(row, owner, now) || row.state !in {Approved, ResolvedManually} || row.resolution != expected {
        return Stale;
      }
      row := row.(resolution := step);
      r := Stored(row);
    }

    /** The row part of `finalize_approved`; the attendance link is checked by the caller's transaction. */
    method FinalizeApprovedRow(owner: Owner, now: int, original: Option<LeaveId>, leave: LeaveId)
      returns (r: Reply)
      modifies this
      ensures row == Exec(old(row), FinalizeApproved(owner, original, leave), now)
      ensures r.Stored? <==> Accepts(old(row), FinalizeApproved(owner, original, leave), now)
      ensures r.Stored? ==> r.row == row
      ensures r.LockLost? <==> !FinalizeLocks(old(row), owner, leave, now)
      ensures r.Stale? <==>
        FinalizeLocks(old(row), owner, leave, now) && (old(row).originalId != original || old(row).ptoId != Some(leave))
    {
      var locked := Leased(row, owner, now)
        && ((row.state == Converting && row.step == PtoApproved)
            || (row.state == NeedsReview && row.ptoId == Some(leave)));
      if !locked { return LockLost; }
      if row.originalId != original || row.ptoId != Some(leave) { return Stale; }
      row := row.(state := Approved, step := PtoApproved,
        resolution := if row.taskId.None? then Closed else Unresolved);
      r := Stored(row);
    }

    method FinalizeManualRow(owner: Owner, now: int) returns (r: Reply)
      modifies this
      ensures row == Exec(old(row), FinalizeManual(owner), now)
      ensures r == if Accepts(old(row), FinalizeManual(owner), now) then Stored(row) else LockLost
      ensures r.Stored? <==> old(row.lease).Some? && old(row.lease).value.owner == owner && now < old(row.lease).value.until && old(row.state) == NeedsReview
      ensures r.Stored? ==> row.state == ResolvedManually && (row.resolution == Closed <==> old(row.taskId).None?)
    {
      if row.state != NeedsReview || !Leased(row, owner, now) { return LockLost; }
      row := row.(state := ResolvedManually, resolution := if row.taskId.None? then Closed else Unresolved);
      r := Stored(row);
    }

    method FinalizeDeniedRow(owner: Owner, now: int) returns (r: Reply)
      modifies this
      ensures row == Exec(old(row), FinalizeDenied(owner), now)
      ensures r == if Accepts(old(row), FinalizeDenied(owner), now) then Stored(row) else LockLost
      ensures r.Stored? <==> old(row.lease).Some? && old(row.lease).value.owner == owner && now < old(row.lease).value.until && old(row.state) == Pending
      ensures row == if r.Stored? then old(row).(state := Denied) else old(row)
    {
      if row.state != Pending || !Leased(row, owner, now) { return LockLost; }
      row := row.(state := Denied);
      r := Stored(row);
    }
  }

  // ---- writes form contiguous per-owner blocks -------------------------------

  /** One attempted operation with the clock its caller read; clocks need not agree. */
  datatype Attempt = Attempt(op: Op, now: int)

  function Replay(row: Request, log: seq<Attempt>): Request {
    if log == [] then row
    else
      var last := log[|log| - 1];
      Exec(Replay(row, log[..|log| - 1]), last.op, last.now)
  }

  /** The attempt at position `i` found a row it was allowed to change. */
  predicate Succeeds(row: Request, log: seq<Attempt>, i: nat)
    requires i < |log|
  {
    Accepts(Replay(row, log[..i]), log[i].op, log[i].now)
  }

  /** Owners are fresh UUIDs: each one claims this row at most once. */
  predicate FreshOwners(log: seq<Attempt>) {
    forall i, j | 0 <= i < j < |log| && log[i].op.Claim? && log[j].op.Claim? ::
      log[i].op.owner != log[j].op.owner
  }

  predicate OwnedBy(row: Request, owner: Owner) {
    row.lease.Some? && row.lease.value.owner == owner
  }

  lemma ReplayStep(row: Request, log: seq<Attempt>, i: nat)
    requires i < |log|
    ensures Replay(row, log[..i + 1]) == Exec(Replay(row, log[..i]), log[i].op, log[i].now)
  {
    assert log[..i + 1][..i] == log[..i];
  }

  /** A lease that is not `a`'s becomes `a`'s only through a successful claim by `a`. */
  lemma {:induction false} LeaseNeedsClaim(row: Request, log: seq<Attempt>, a: Owner, i: nat, k: nat)
    requires i <= k <= |log|
    requires !OwnedBy(Replay(row, log[..i]), a)
    requires OwnedBy(Replay(row, log[..k]), a)
    ensures exists p :: i <= p < k && log[p].op == Claim(a)
    decreases k - i
  {
    ReplayStep(row, log, i);
    if OwnedBy(Replay(row, log[..i + 1]), a) {
      assert log[i].op == Claim(a);
    } else {
      LeaseNeedsClaim(row, log, a, i + 1, k);
    }
  }

  /** A successful operation by `a` implies an earlier (or this very) claim by `a`. */
  lemma ClaimedBefore(row: Request, log: seq<Attempt>, i: nat)
    requires row.lease.None? && i < |log| && Succeeds(row, log, i)
    ensures exists p :: 0 <= p <= i && log[p].op == Claim(log[i].op.owner)
  {
    var a := log[i].op.owner;
    if log[i].op != Claim(a) {
      assert OwnedBy(Replay(row, log[..i]), a);
      assert log[..0] == [];
      LeaseNeedsClaim(row, log, a, 0, i);
    }
  }

  /** Once another owner has claimed the row, no later operation of an owner
      that claimed before it succeeds: in any interleaving, with any clocks. */
  lemma FencedAfterTakeover(row: Request, log: seq<Attempt>, i: nat, j: nat, k: nat)
    requires FreshOwners(log) && i < j < k < |log|
    requires log[i].op.Claim? && log[j].op.Claim? && Succeeds(row, log, j)
    requires log[i].op.owner != log[j].op.owner
    requires log[k].op.owner == log[i].op.owner
    ensures !Succeeds(row, log, k)
  {
    var a := log[i].op.owner;
    ReplayStep(row, log, j);
    if Succeeds(row, log, k) && log[k].op != Claim(a) {
      LeaseNeedsClaim(row, log, a, j + 1, k);
    }
  }

  /** Between two successful operations of one owner, every successful operation is
      that owner's: the writes to a row form contiguous per-owner blocks. */
  lemma OwnerBlocksAreContiguous(row: Request, log: seq<Attempt>, i: nat, j: nat, k: nat)
    requires row.lease.None? && FreshOwners(log) && i < j < k < |log|
    requires Succeeds(row, log, i) && Succeeds(row, log, j) && Succeeds(row, log, k)
    requires log[i].op.owner == log[k].op.owner
    ensures log[j].op.owner == log[i].op.owner
  {
    var a, b := log[i].op.owner, log[j].op.owner;
    ClaimedBefore(row, log, i);
    var p :| 0 <= p <= i && log[p].op == Claim(a);
    if a != b {
      ReplayStep(row, log, j);
      assert !OwnedBy(Replay(row, log[..j + 1]), a);
      if log[k].op != Claim(a) {
        LeaseNeedsClaim(row, log, a, j + 1, k);
      }
    }
  }

  // ---- a lease excludes everyone else while it lasts -----------------------------

  predicate ClocksGrow(log: seq<Attempt>) { forall i, j | 0 <= i < j < |log| :: log[i].now <= log[j].now }

  /** Attempt `i` took or extended the lease of `a`, which `a` does not give up before attempt `k`. */
  predicate Holds(row: Request, log: seq<Attempt>, a: Owner, i: nat, k: nat)
    requires i < |log| && k <= |log|
  {
    && (log[i].op == Claim(a) || log[i].op == Renew(a)) && Succeeds(row, log, i)
    && forall j | i < j < k :: log[j].op != Release(a)
  }

  /** While it is held and unexpired, the lease stays where it is, and only grows. */
  lemma {:induction false} LeaseLasts(row: Request, log: seq<Attempt>, a: Owner, i: nat, k: nat)
    requires ClocksGrow(log) && i < k <= |log| && Holds(row, log, a, i, k)
    requires forall j | i < j < k :: log[j].now < log[i].now + 120
    ensures OwnedBy(Replay(row, log[..k]), a) && Replay(row, log[..k]).lease.value.until >= log[i].now + 120
    decreases k
  {
    ReplayStep(row, log, k - 1);
    if i + 1 < k { LeaseLasts(row, log, a, i, k - 1); }
  }

  /** For 120 seconds after a successful claim or renewal that is not released, no attempt by any
      other owner succeeds. */
  lemma LeaseExcludes(row: Request, log: seq<Attempt>, a: Owner, i: nat, k: nat)
    requires ClocksGrow(log) && i < k < |log| && Holds(row, log, a, i, k)
    requires log[k].op.owner != a && log[k].now < log[i].now + 120
    ensures !Succeeds(row, log, k)
  {
    assert forall j | i < j < k :: log[j].now <= log[k].now;
    LeaseLasts(row, log, a, i, k);
  }

  /** From then on, if nobody took or extended a lease in between, anybody's claim succeeds. */
  lemma {:induction false} ExpiredLeaseIsFree(row: Request, log: seq<Attempt>, a: Owner, i: nat, k: nat)
    requires i < k < |log| && Succeeds(row, log, i) && (log[i].op == Claim(a) || log[i].op == Renew(a))
    requires forall j | i < j < k :: !log[j].op.Claim? && !log[j].op.Renew?
    requires log[k].op.Claim? && log[k].now >= log[i].now + 120
    ensures Succeeds(row, log, k)
  {
    LeaseUnchanged(row, log, a, i, k);
  }

  lemma {:induction false} LeaseUnchanged(row: Request, log: seq<Attempt>, a: Owner, i: nat, k: nat)
    requires i < k <= |log| && Succeeds(row, log, i) && (log[i].op == Claim(a) || log[i].op == Renew(a))
    requires forall j | i < j < k :: !log[j].op.Claim? && !log[j].op.Renew?
    ensures Replay(row, log[..k]).lease in {None, Some(Lease(a, log[i].now + 120))}
    decreases k
  {
    ReplayStep(row, log, k - 1);
    if i + 1 < k { LeaseUnchanged(row, log, a, i, k - 1); }
  }
}
