/** The department-repair queue: one slot per attendance row, with a successor waiting behind a
    running repair (`attendance_department_repair.py`). */
module DepartmentRepair {
  import opened Prelude
  import opened Attendance
  import opened AttendanceMirror

  const MAX_ATTEMPTS: nat := 3
  const REPAIR_LEASE: int := 15 * 60 * 1_000_000

  datatype Target = Target(expected: int, department: int, workCenter: Option<int>, projectedAt: int)
  /** A target as a projection proposes it; its work center is known. */
  datatype Wanted = Wanted(expected: int, department: int, workCenter: int, projectedAt: int)
  datatype Status = Pending | Applying | Complete | Failed
  datatype Repair = Repair(active: Target, status: Status, attempts: nat, updatedAt: int, error: bool,
                           successor: Option<Wanted>)

  datatype Claim = Claim(id: int, expected: int, department: int, workCenter: Option<int>,
                         mirrorDate: Option<int>, attempts: nat)

  datatype Proof = Proof(writeDate: int, workCenter: int, department: Option<int>, targetDepartment: int, projectedAt: int)

  // ---- one slot -----------------------------------------------------------------------

  function AsTarget(w: Wanted): Target { Target(w.expected, w.department, Some(w.workCenter), w.projectedAt) }

  function Fresh(w: Wanted, now: int): Repair { Repair(AsTarget(w), Pending, 0, now, false, None) }

  function Max(a: int, b: int): int { if a < b then b else a }

  /** A candidate older than what is queued needs the mirror to vouch for its work center. */
  function Revised(c: Wanted, newest: int, mirror: Option<Row>): Option<Wanted> {
    if c.expected >= newest then Some(c)
    else if mirror.Some? && mirror.value.writeDate >= newest && mirror.value.material.workCenter == Some(c.workCenter)
    then Some(c.(expected := mirror.value.writeDate))
    else None
  }

  predicate SameWork(w: Wanted, t: Target) {
    w.expected == t.expected && w.department == t.department && Some(w.workCenter) == t.workCenter
  }

  function LatestProjection(r: Repair): int {
    if r.successor.Some? then r.successor.value.projectedAt else r.active.projectedAt
  }

  function NewestVersion(r: Repair): int {
    if r.successor.Some? then Max(r.active.expected, r.successor.value.expected) else r.active.expected
  }

  /** `_enqueue_cur`: the slot afterwards, and whether it took the candidate. */
  function Enqueued(e: Option<Repair>, mirror: Option<Row>, c: Wanted, now: int): (Repair, bool) {
    if e.None? then (Fresh(c, now), true)
    else
      var r := e.value;
      var running := r.status == Applying;
      var v := Revised(c, if running then NewestVersion(r) else r.active.expected, mirror);
      if c.projectedAt <= (if running then LatestProjection(r) else r.active.projectedAt) || v.None? then (r, false)
      else if (running ==> r.successor.None?) && SameWork(v.value, r.active) then
        (r.(active := r.active.(projectedAt := c.projectedAt)), false)
      else if running then (r.(successor := v), true)
      else (Fresh(v.value, now), true)
  }

  /** `_promote_successor`: an observed newer version of the same work center is taken along. */
  function Promoted(w: Wanted, observed: Option<Row>, now: int): Repair {
    if observed.Some? && observed.value.material.workCenter == Some(w.workCenter) && observed.value.writeDate > w.expected
    then Fresh(w.(expected := observed.value.writeDate), now)
    else Fresh(w, now)
  }

  /** What one backend step does to one slot. */
  datatype Action =
    | Enqueue(c: Wanted, mirror: Option<Row>, now: int)
    | Settle(proof: Proof, now: int)
    | Expire(now: int)
    | Take(now: int)
    | Renew(mirror: Option<Row>, now: int)
    | Discard(now: int)
    | Retarget(department: int, now: int)
    | Refresh(row: Row, now: int)
    | Finish(row: Row, now: int)
    | Retry(current: Option<Row>, now: int)

  predicate Claimable(r: Repair, now: int) {
    r.attempts < MAX_ATTEMPTS && (r.status == Pending || (r.status == Applying && r.updatedAt <= now - REPAIR_LEASE))
  }

  /** The steps of a claim's holder need a running repair; a verified row has its work center. */
  predicate Allowed(r: Repair, a: Action) {
    match a
    case Enqueue(_, _, _) => true
    case Settle(_, _) => true
    case Expire(_) => true
    case Take(now) => Claimable(r, now)
    case Renew(_, _) => r.status == Applying
    case Discard(_) => r.status == Applying
    case Retarget(_, _) => r.status == Applying
    case Refresh(row, _) => r.status == Applying && row.material.workCenter == r.active.workCenter
    case Finish(row, _) => r.status == Applying && row.material.workCenter == r.active.workCenter
    case Retry(current, _) =>
      r.status == Applying && (current.Some? ==> current.value.material.workCenter == r.active.workCenter)
  }

  function Completed(r: Repair, now: int): Repair { r.(status := Complete, updatedAt := now, error := false) }

  /** The mirror still shows the version and work center the claim was made for. */
  predicate StillExpected(t: Target, mirror: Option<Row>) {
    mirror.Some? && mirror.value.writeDate == t.expected && mirror.value.material.workCenter == t.workCenter
  }

  function Act(r: Repair, a: Action): Repair {
    match a
    case Enqueue(c, mirror, now) => Enqueued(Some(r), mirror, c, now).0
    case Settle(p, now) =>
      if r.status != Applying && p.projectedAt > r.active.projectedAt && (r.status != Complete || r.error) then
        r.(active := Target(p.writeDate, p.targetDepartment, Some(p.workCenter), p.projectedAt),
           status := Complete, updatedAt := now, error := false)
      else r
    case Expire(now) =>
      if r.status == Applying && r.updatedAt <= now - REPAIR_LEASE && r.attempts >= MAX_ATTEMPTS then
        if r.successor.Some? then Promoted(r.successor.value, None, now)
        else r.(status := Failed, updatedAt := now, error := true)
      else r
    case Take(now) => r.(status := Applying, attempts := r.attempts + 1, updatedAt := now)
    case Renew(mirror, now) =>
      if r.successor.Some? then Promoted(r.successor.value, None, now)
      else if StillExpected(r.active, mirror) then r.(updatedAt := now)
      else Completed(r, now)
    case Discard(now) =>
      if r.successor.Some? then Promoted(r.successor.value, None, now) else Completed(r, now)
    case Retarget(department, now) =>
      if r.successor.Some? then Promoted(r.successor.value, None, now)
      else r.(active := r.active.(department := department, projectedAt := Max(r.active.projectedAt, now)),
              status := Pending, attempts := 0, updatedAt := now, error := false)
    case Refresh(row, now) =>
      if r.successor.Some? && (r.successor.value.expected >= row.writeDate
                               || Some(r.successor.value.workCenter) == row.material.workCenter)
      then Promoted(r.successor.value, Some(row), now)
      else r.(active := r.active.(expected := row.writeDate), status := Pending, attempts := 0,
              updatedAt := now, error := false, successor := None)
    case Finish(row, now) =>
      if r.successor.Some? then Promoted(r.successor.value, Some(row), now)
      else Completed(r.(active := r.active.(expected := row.writeDate)), now)
    case Retry(current, now) =>
      if r.successor.Some? then Promoted(r.successor.value, current, now)
      else r.(active := if current.Some? then r.active.(expected := current.value.writeDate) else r.active,
              status := if r.attempts >= MAX_ATTEMPTS then Failed else Pending, updatedAt := now, error := true)
  }

  // ---- the slot invariants --------------------------------------------------------------

  /** A successor waits only behind a running repair and was projected strictly later; the budget
      is never exceeded, and a pending repair can still be claimed. */
  predicate SlotOk(r: Repair) {
    && (r.successor.Some? ==> r.status == Applying && r.successor.value.projectedAt > r.active.projectedAt)
    && r.attempts <= MAX_ATTEMPTS
    && (r.status == Pending ==> r.attempts < MAX_ATTEMPTS)
    && (r.status == Applying ==> r.attempts > 0)
  }

  /** The successor took the slot over with a fresh budget. */
  predicate TookOver(w: Wanted, r: Repair) {
    && r.status == Pending && r.attempts == 0 && r.successor.None? && !r.error
    && r.active.department == w.department && r.active.workCenter == Some(w.workCenter)
    && r.active.projectedAt == w.projectedAt && r.active.expected >= w.expected
  }

  /** Only a verified, newer Odoo row of another work center sets a successor aside. */
  predicate Displaced(w: Wanted, a: Action) {
    a.Refresh? && a.row.writeDate > w.expected && a.row.material.workCenter != Some(w.workCenter)
  }

  lemma StepKeepsSlot(r: Repair, a: Action)
    requires SlotOk(r) && Allowed(r, a)
    ensures SlotOk(Act(r, a))
    ensures Act(r, a).active.projectedAt >= r.active.projectedAt
    ensures r.successor.Some? && Act(r, a).status != Applying ==>
      TookOver(r.successor.value, Act(r, a)) || Displaced(r.successor.value, a)
    ensures r.successor.Some? && Act(r, a).status == Applying ==>
      Act(r, a).successor == r.successor
      || (a.Enqueue? && Act(r, a).successor.Some? && Act(r, a).successor.value.projectedAt > r.successor.value.projectedAt)
  {
  }

  predicate AllAllowed(r: Repair, actions: seq<Action>)
    decreases |actions|
  {
    actions == [] || (Allowed(r, actions[0]) && AllAllowed(Act(r, actions[0]), actions[1..]))
  }

  function ActAll(r: Repair, actions: seq<Action>): Repair
    decreases |actions|
  {
    if actions == [] then r else ActAll(Act(r, actions[0]), actions[1..])
  }

  predicate AnyDisplaces(r: Repair, actions: seq<Action>)
    decreases |actions|
  {
    actions != [] && (
      || (r.successor.Some? && Displaced(r.successor.value, actions[0]))
      || AnyDisplaces(Act(r, actions[0]), actions[1..]))
  }

  /** Over any run of backend steps on a slot, by any callers: the invariants hold, the active
      projection never goes back, and unless a successor is displaced neither does the latest
      accepted one. */
  lemma {:induction false} RunKeepsSlot(r: Repair, actions: seq<Action>)
    requires SlotOk(r) && AllAllowed(r, actions)
    ensures SlotOk(ActAll(r, actions))
    ensures ActAll(r, actions).active.projectedAt >= r.active.projectedAt
    ensures !AnyDisplaces(r, actions) ==> LatestProjection(ActAll(r, actions)) >= LatestProjection(r)
    decreases |actions|
  {
    if actions != [] {
      StepKeepsSlot(r, actions[0]);
      RunKeepsSlot(Act(r, actions[0]), actions[1..]);
    }
  }

  /** A repair that is pending, or whose lease has run out, can be claimed after the expiry step;
      otherwise it has just failed with its budget spent and nothing waiting behind it. */
  lemma NeverStuck(r: Repair, now: int)
    requires SlotOk(r) && (r.status == Pending || (r.status == Applying && r.updatedAt <= now - REPAIR_LEASE))
    ensures var e := Act(r, Expire(now));
      Claimable(e, now) || (e.status == Failed && r.attempts == MAX_ATTEMPTS && r.successor.None?)
  {
  }

  /** Taking a candidate means it is next in line: active and pending, or the successor. */
  lemma AcceptedIsNext(e: Option<Repair>, mirror: Option<Row>, c: Wanted, now: int)
    requires e.Some? ==> SlotOk(e.value)
    ensures var (r, accepted) := Enqueued(e, mirror, c, now);
      && SlotOk(r)
      && (accepted ==> LatestProjection(r) == c.projectedAt)
      && (accepted && r.successor.Some? ==>
            r.successor.value.department == c.department && r.successor.value.workCenter == c.workCenter)
      && (accepted && r.successor.None? ==> (
            && r.status == Pending && r.attempts == 0
            && r.active.department == c.department && r.active.workCenter == Some(c.workCenter)))
      && (!accepted ==>
            e.Some? && r == e.value.(active := e.value.active.(projectedAt := r.active.projectedAt)))
      && (e.Some? && accepted ==> c.projectedAt > LatestProjection(e.value))
  {
  }

  // ---- what each step leaves, on the columns --------------------------------------------

  predicate HoldersStep(a: Action) {
    a.Renew? || a.Discard? || a.Retarget? || a.Refresh? || a.Finish? || a.Retry?
  }

  /** The target with another verified version. */
  predicate SameButVersion(t: Target, u: Target) {
    t.department == u.department && t.workCenter == u.workCenter && t.projectedAt == u.projectedAt
  }

  /** Ending a claim behind which nothing waits. */
  lemma EndsAlone(r: Repair, a: Action)
    requires SlotOk(r) && Allowed(r, a) && HoldersStep(a) && r.status == Applying && r.successor.None?
    ensures var e := Act(r, a);
      && e.successor.None? && e.updatedAt == a.now
      && (a.Finish? ==> e.status == Complete && !e.error && e.active.expected == a.row.writeDate && SameButVersion(e.active, r.active))
      && (a.Discard? ==> e.status == Complete && !e.error && e.active == r.active)
      && (a.Retry? ==> (
            && e.error && e.attempts == r.attempts && e.status == (if r.attempts == 3 then Failed else Pending)
            && SameButVersion(e.active, r.active)
            && e.active.expected == if a.current.Some? then a.current.value.writeDate else r.active.expected))
      && (a.Retarget? ==> (
            && e.status == Pending && e.attempts == 0 && !e.error
            && e.active == r.active.(department := a.department, projectedAt := e.active.projectedAt)
            && e.active.projectedAt in {r.active.projectedAt, a.now} && e.active.projectedAt >= a.now))
      && (a.Refresh? ==> (
            && e.status == Pending && e.attempts == 0 && !e.error
            && e.active.expected == a.row.writeDate && SameButVersion(e.active, r.active)))
      && (a.Renew? ==> (
            && e.active == r.active && e.attempts == r.attempts
            && (e.status == Applying || (e.status == Complete && !e.error))
            && (e.status == Applying <==> (
                  && a.mirror.Some? && a.mirror.value.writeDate == r.active.expected
                  && a.mirror.value.material.workCenter == r.active.workCenter))))
  {
  }

  function Observed(a: Action): Option<Row> {
    if a.Refresh? || a.Finish? then Some(a.row) else if a.Retry? then a.current else None
  }

  /** Every step of a holder behind which a successor waits ends the claim in the successor's favour,
      with the newer version of its work center if one was observed, unless it is displaced. */
  lemma EndsForSuccessor(r: Repair, a: Action)
    requires SlotOk(r) && Allowed(r, a) && HoldersStep(a) && r.status == Applying && r.successor.Some?
    ensures var e, w, seen := Act(r, a), r.successor.value, Observed(a);
      && e.status == Pending && e.attempts == 0 && !e.error && e.successor.None? && e.updatedAt == a.now
      && (Displaced(w, a) ==> e.active.expected == a.row.writeDate && SameButVersion(e.active, r.active))
      && (!Displaced(w, a) ==> (
            && e.active.department == w.department && e.active.workCenter == Some(w.workCenter)
            && e.active.projectedAt == w.projectedAt
            && e.active.expected == (
                 if seen.Some? && seen.value.material.workCenter == Some(w.workCenter) && seen.value.writeDate > w.expected
                 then seen.value.writeDate else w.expected)))
  {
  }

  /** Claiming takes one attempt of three, of a pending repair or one whose lease of fifteen minutes is
      over; the expiry step touches only a spent one, and fails it unless a successor waits. */
  lemma TakenAndExpired(r: Repair, now: int)
    requires SlotOk(r)
    ensures Claimable(r, now) <==>
      r.attempts < 3 && (r.status == Pending || (r.status == Applying && r.updatedAt + 900_000_000 <= now))
    ensures Claimable(r, now) ==>
      Act(r, Take(now)) == r.(status := Applying, attempts := r.attempts + 1, updatedAt := now)
    ensures var spent := r.status == Applying && r.attempts == 3 && r.updatedAt + 900_000_000 <= now;
      && (!spent ==> Act(r, Expire(now)) == r)
      && (spent && r.successor.None? ==> Act(r, Expire(now)) == r.(status := Failed, error := true, updatedAt := now))
      && (spent && r.successor.Some? ==> TookOver(r.successor.value, Act(r, Expire(now))))
  {
  }

  /** The version a candidate is queued with: its own, or the mirror's if that vouches for it. */
  function QueuedVersion(r: Repair, c: Wanted, mirror: Option<Row>): Option<int> {
    var newest := if r.successor.Some? then Max(r.active.expected, r.successor.value.expected) else r.active.expected;
    if c.expected >= newest then Some(c.expected)
    else if mirror.Some? && mirror.value.writeDate >= newest && mirror.value.material.workCenter == Some(c.workCenter)
    then Some(mirror.value.writeDate)
    else None
  }

  /** Exactly which candidates are taken: strictly later projected than everything queued, of a version
      that is not outdated, and not the very work that is queued already, which only notes the time. */
  lemma AcceptedExactly(r: Repair, mirror: Option<Row>, c: Wanted, now: int)
    requires SlotOk(r)
    ensures var (e, accepted) := Enqueued(Some(r), mirror, c, now);
      var version := QueuedVersion(r, c, mirror);
      var newer := c.projectedAt > r.active.projectedAt && (r.successor.Some? ==> c.projectedAt > r.successor.value.projectedAt);
      var same := version == Some(r.active.expected) && c.department == r.active.department
        && r.active.workCenter == Some(c.workCenter) && r.successor.None?;
      && (accepted <==> newer && version.Some? && !same)
      && (accepted && r.status == Applying ==>
            e == r.(successor := Some(Wanted(version.value, c.department, c.workCenter, c.projectedAt))))
      && (accepted && r.status != Applying ==> (
            && e.active == Target(version.value, c.department, Some(c.workCenter), c.projectedAt)
            && e.status == Pending && e.attempts == 0 && !e.error && e.successor.None? && e.updatedAt == now))
      && (!accepted ==> e == if newer && same then r.(active := r.active.(projectedAt := c.projectedAt)) else r)
  {
  }

  /** Exactly what reconciling does with one covered id. */
  lemma ReconciledExactly(e: Option<Repair>, c: Option<Wanted>, p: Proof, mirror: Option<Row>, now: int)
    ensures var seen := mirror.Some? && ExactProjection(p, mirror.value);
      var late := mirror.Some? && c.Some? && e.Some? && mirror.value.writeDate > p.writeDate
        && mirror.value.material.workCenter == Some(p.workCenter);
      var right := p.department == Some(p.targetDepartment);
      var settles := c.None? && e.Some? && seen && right && e.value.status != Applying
        && p.projectedAt > e.value.active.projectedAt && (e.value.status != Complete || e.value.error);
      var result := Reconciled(e, c, p, mirror, now);
      && (result.None? <==> seen && c.None? && e.Some? && !right)
      && (c.Some? && (seen || late) && !right ==>
            result.value == (Some(Enqueued(e, mirror, c.value, now).0), Enqueued(e, mirror, c.value, now).1))
      && (settles ==> (
            && result.value.0 == Some(e.value.(
                 active := Target(p.writeDate, p.targetDepartment, Some(p.workCenter), p.projectedAt),
                 status := Complete, updatedAt := now, error := false))
            && !result.value.1))
      && (result.Some? && !settles && !(c.Some? && (seen || late) && !right) ==> result == Some((e, false)))
  {
  }

  // ---- the table in place -----------------------------------------------------------------

  function Owner(r: Repair, claim: Claim): bool {
    && r.status == Applying && r.attempts == claim.attempts && r.active.expected == claim.expected
    && r.active.department == claim.department && r.active.workCenter == claim.workCenter
  }

  function ActiveRow(table: Table, id: int): Option<Row> {
    if id in table && table[id].deletedAt.None? then Some(table[id].row) else None
  }

  function WriteDate(row: Option<Row>): Option<int> { if row.Some? then Some(row.value.writeDate) else None }

  /** `_verified_row_is_current` */
  predicate RowIsCurrent(table: Table, claim: Claim, row: Row) {
    && row.material.workCenter == claim.workCenter
    && (claim.id in table ==>
          && table[claim.id].row.writeDate <= row.writeDate
          && (table[claim.id].row.writeDate == row.writeDate ==>
                table[claim.id].row.material.workCenter == row.material.workCenter))
  }

  type Repairs = map<int, Repair>

  predicate AllOk(repairs: Repairs) { forall id | id in repairs :: SlotOk(repairs[id]) }

  function ExpireAll(repairs: Repairs, now: int): Repairs {
    map id | id in repairs :: Act(repairs[id], Expire(now))
  }

  function Claims(repairs: Repairs, now: int): map<int, Rank> {
    map id | id in repairs && Claimable(repairs[id], now) :: (repairs[id].updatedAt, id, 0)
  }

  function EnqueueAll(repairs: Repairs, table: Table, cs: seq<(int, Wanted)>, now: int): (Repairs, nat) {
    if cs == [] then (repairs, 0)
    else
      var (before, n) := EnqueueAll(repairs, table, cs[..|cs| - 1], now);
      var (id, c) := cs[|cs| - 1];
      var (r, accepted) := Enqueued(Get(before, id), ActiveRow(table, id), c, now);
      (before[id := r], if accepted then n + 1 else n)
  }

  // ---- reconciling with a projection ------------------------------------------------------

  /** The mirror shows exactly what the projection saw. */
  predicate ExactProjection(p: Proof, row: Row) {
    row.writeDate == p.writeDate && row.material.workCenter == Some(p.workCenter) && row.material.department == p.department
  }

  /** `reconcile`, for one covered id; None when it raises. */
  function Reconciled(e: Option<Repair>, c: Option<Wanted>, p: Proof, mirror: Option<Row>, now: int)
    : Option<(Option<Repair>, bool)>
  {
    if (c.None? && e.None?) || mirror.None? then Some((e, false))
    else
      var row := mirror.value;
      var delayed := c.Some? && e.Some? && row.writeDate > p.writeDate && row.material.workCenter == Some(p.workCenter);
      if !ExactProjection(p, row) && !delayed then Some((e, false))
      else if c.Some? then
        if p.department == Some(p.targetDepartment) then Some((e, false))
        else
          var (r, accepted) := Enqueued(e, mirror, c.value, now);
          Some((Some(r), accepted))
      else if p.department != Some(p.targetDepartment) then None
      else Some((Some(Act(e.value, Settle(p, now))), false))
  }

  type Outcome = Option<(Option<Repair>, bool)>

  function Outcomes(repairs: Repairs, table: Table, candidates: map<int, Wanted>, proofs: map<int, Proof>, now: int)
    : map<int, Outcome>
  {
    map id | id in proofs :: Reconciled(Get(repairs, id), Get(candidates, id), proofs[id], ActiveRow(table, id), now)
  }

  function Accepted(outcomes: map<int, Outcome>): set<int> {
    set id | id in outcomes && outcomes[id].Some? && outcomes[id].value.1
  }

  /** Every covered slot has its outcome, every other slot is as it was. */
  ghost predicate Settles(before: Repairs, after: Repairs, outcomes: map<int, Outcome>) {
    forall id :: Get(after, id) == (
      if id in outcomes && outcomes[id].Some? then outcomes[id].value.0 else Get(before, id))
  }

  predicate AllSettled(outcomes: map<int, Outcome>) { forall id | id in outcomes :: outcomes[id].Some? }

  lemma SettleSame(saved: Repairs, before: Repairs, outcomes: map<int, Outcome>, rest: set<int>, id: int)
    requires id in rest && rest <= outcomes.Keys && Settles(saved, before, outcomes - rest)
    ensures Get(before, id) == Get(saved, id)
  {
  }

  lemma SettleNext(saved: Repairs, before: Repairs, after: Repairs, outcomes: map<int, Outcome>, rest: set<int>, id: int)
    requires id in rest && rest <= outcomes.Keys
    requires Settles(saved, before, outcomes - rest) && AllSettled(outcomes - rest)
    requires forall other :: other != id ==> Get(after, other) == Get(before, other)
    ensures outcomes[id].Some? && Get(after, id) == outcomes[id].value.0 ==>
      Settles(saved, after, outcomes - (rest - {id})) && AllSettled(outcomes - (rest - {id}))
    ensures Accepted(outcomes - (rest - {id})) ==
      Accepted(outcomes - rest) + (if outcomes[id].Some? && outcomes[id].value.1 then {id} else {})
    ensures id !in Accepted(outcomes - rest)
  {
    assert outcomes - (rest - {id}) == (outcomes - rest)[id := outcomes[id]];
  }

  predicate Matches(c: Wanted, p: Proof) {
    && c.expected == p.writeDate && c.workCenter == p.workCenter
    && c.department == p.targetDepartment && c.projectedAt == p.projectedAt
  }

  predicate Consistent(candidates: map<int, Wanted>, proofs: map<int, Proof>) {
    candidates.Keys <= proofs.Keys && forall id | id in candidates :: Matches(candidates[id], proofs[id])
  }

  /** Reconciling ends no running repair, and calls a repair done only when a strictly later
      projection saw the very row the mirror holds, already in the right department. */
  lemma ReconcileIsSafe(e: Option<Repair>, c: Option<Wanted>, p: Proof, mirror: Option<Row>, now: int)
    requires e.Some? && SlotOk(e.value) && Reconciled(e, c, p, mirror, now).Some?
    ensures var r := Reconciled(e, c, p, mirror, now).value.0;
      && r.Some? && SlotOk(r.value) && r.value.active.projectedAt >= e.value.active.projectedAt
      && (e.value.status == Applying ==> r.value.status == Applying && LatestProjection(r.value) >= LatestProjection(e.value))
      && (r.value.status == Complete && r != e && (e.value.status != Complete || e.value.error) && c.None? ==> (
            && mirror.Some? && ExactProjection(p, mirror.value) && p.projectedAt > e.value.active.projectedAt
            && mirror.value.material.department == Some(r.value.active.department)))
  {
  }

  /** On the columns: pending or out of lease with attempts left, or spent with a successor to promote. */
  predicate ClaimableAfterExpiry(r: Repair, now: int) {
    var out := r.status == Applying && r.updatedAt + 900_000_000 <= now;
    (r.attempts < 3 && (r.status == Pending || out)) || (r.attempts >= 3 && out && r.successor.Some?)
  }

  /** The time a repair queues by: a successor promoted in the same step counts as just updated. */
  function QueuedSince(r: Repair, now: int): int {
    if r.status == Applying && r.attempts >= 3 then now else r.updatedAt
  }

  predicate NoLater(repairs: Repairs, a: int, b: int, now: int)
    requires a in repairs && b in repairs
  {
    var s, t := QueuedSince(repairs[a], now), QueuedSince(repairs[b], now);
    s < t || (s == t && a <= b)
  }

  lemma ClaimsMeans(repairs: Repairs, now: int)
    ensures var claims := Claims(ExpireAll(repairs, now), now);
      && (forall id :: id in claims <==> id in repairs && ClaimableAfterExpiry(repairs[id], now))
      && (forall a, b :: a in claims && b in claims ==> (AtMost(claims[a], claims[b]) <==> NoLater(repairs, a, b, now)))
  {
  }

  class RepairQueue {
    var repairs: Repairs
    const mirror: Mirror

    constructor (mirror: Mirror)
      ensures this.mirror == mirror && repairs == map[]
    {
      this.mirror := mirror;
      repairs := map[];
    }

    predicate Owns(claim: Claim)
      reads this
    {
      claim.id in repairs && Owner(repairs[claim.id], claim)
    }

    /** `_enqueue_cur` */
    method EnqueueOne(id: int, c: Wanted, now: int) returns (changed: bool)
      requires AllOk(repairs)
      modifies this`repairs
      ensures AllOk(repairs)
      ensures var e := Enqueued(Get(old(repairs), id), ActiveRow(mirror.table, id), c, now);
        repairs == old(repairs)[id := e.0] && changed == e.1
    {
      AcceptedIsNext(Get(repairs, id), ActiveRow(mirror.table, id), c, now);
      if id !in repairs {
        repairs := repairs[id := Fresh(c, now)];
        return true;
      }
      var r := repairs[id];
      assert repairs[id := r] == repairs;
      var latest, newest := r.active.projectedAt, r.active.expected;
      if r.status == Applying && r.successor.Some? {
        latest := r.successor.value.projectedAt;
        newest := Max(newest, r.successor.value.expected);
      }
      if c.projectedAt <= latest { return false; }
      var value := c;
      if c.expected < newest {
        var row := ActiveRow(mirror.table, id);
        if row.None? || row.value.writeDate < newest || row.value.material.workCenter != Some(c.workCenter) {
          return false;
        }
        value := c.(expected := row.value.writeDate);
      }
      if (r.status != Applying || r.successor.None?) && SameWork(value, r.active) {
        repairs := repairs[id := r.(active := r.active.(projectedAt := c.projectedAt))];
        return false;
      }
      repairs := repairs[id := if r.status == Applying then r.(successor := Some(value)) else Fresh(value, now)];
      changed := true;
    }

    method EnqueueCandidates(candidates: seq<(int, Wanted)>, now: int) returns (changed: nat)
      requires AllOk(repairs)
      modifies this`repairs
      ensures AllOk(repairs)
      ensures (repairs, changed) == EnqueueAll(old(repairs), mirror.table, candidates, now)
    {
      changed := 0;
      for i := 0 to |candidates|
        invariant AllOk(repairs)
        invariant (repairs, changed) == EnqueueAll(old(repairs), mirror.table, candidates[..i], now)
      {
        assert candidates[..i + 1][..i] == candidates[..i];
        var accepted := EnqueueOne(candidates[i].0, candidates[i].1, now);
        if accepted { changed := changed + 1; }
      }
      assert candidates[..|candidates|] == candidates;
    }

    /** `reconcile`: all the covered ids in one transaction; None when it raises, and then nothing
        is changed. */
    method Reconcile(candidates: map<int, Wanted>, proofs: map<int, Proof>, now: int) returns (changed: Option<nat>)
      requires AllOk(repairs)
      modifies this`repairs
      ensures AllOk(repairs)
      ensures changed.None? ==> repairs == old(repairs)
      ensures var outcomes := Outcomes(old(repairs), mirror.table, candidates, proofs, now);
        && (changed.None? <==> !Consistent(candidates, proofs) || exists id | id in outcomes :: outcomes[id].None?)
        && (changed.Some? ==> Settles(old(repairs), repairs, outcomes))
        && (changed.Some? ==> changed.value == |Accepted(outcomes)|)
    {
      if !Consistent(candidates, proofs) { return None; }
      var saved := repairs;
      ghost var outcomes := Outcomes(saved, mirror.table, candidates, proofs, now);
      var rest := proofs.Keys;
      var count := 0;
      while rest != {}
        invariant rest <= outcomes.Keys && AllOk(repairs)
        invariant Settles(saved, repairs, outcomes - rest) && AllSettled(outcomes - rest)
        invariant count == |Accepted(outcomes - rest)|
        decreases |rest|
      {
        var id := PickOne(rest);
        var done := ReconcileNext(id, candidates, proofs, now, saved, outcomes, rest);
        if done.None? {
          repairs := saved;
          return None;
        }
        if done.value { count := count + 1; }
        rest := rest - {id};
      }
      assert outcomes - rest == outcomes;
      changed := Some(count);
    }

    method ReconcileNext(id: int, candidates: map<int, Wanted>, proofs: map<int, Proof>, now: int,
                         ghost saved: Repairs, ghost outcomes: map<int, Outcome>, ghost rest: set<int>)
      returns (accepted: Option<bool>)
      requires outcomes == Outcomes(saved, mirror.table, candidates, proofs, now)
      requires AllOk(repairs) && id in rest && rest <= outcomes.Keys
      requires Settles(saved, repairs, outcomes - rest) && AllSettled(outcomes - rest)
      modifies this`repairs
      ensures AllOk(repairs) && accepted.Some? == outcomes[id].Some?
      ensures accepted.Some? ==> Settles(saved, repairs, outcomes - (rest - {id})) && AllSettled(outcomes - (rest - {id}))
      ensures accepted.Some? ==>
        |Accepted(outcomes - (rest - {id}))| == |Accepted(outcomes - rest)| + if accepted.value then 1 else 0
    {
      ghost var before := repairs;
      SettleSame(saved, repairs, outcomes, rest, id);
      accepted := ReconcileOne(id, Get(candidates, id), proofs[id], now);
      SettleNext(saved, before, repairs, outcomes, rest, id);
    }

    method ReconcileOne(id: int, c: Option<Wanted>, p: Proof, now: int) returns (accepted: Option<bool>)
      requires AllOk(repairs)
      modifies this`repairs
      ensures AllOk(repairs)
      ensures var r := Reconciled(Get(old(repairs), id), c, p, ActiveRow(mirror.table, id), now);
        && (r.None? <==> accepted.None?)
        && (r.Some? ==> Get(repairs, id) == r.value.0 && accepted.value == r.value.1)
      ensures forall other :: other != id ==> Get(repairs, other) == Get(old(repairs), other)
    {
      if c.None? && id !in repairs { return Some(false); }
      var mirrored := ActiveRow(mirror.table, id);
      if mirrored.None? { return Some(false); }
      var row := mirrored.value;
      var delayed := c.Some? && id in repairs && row.writeDate > p.writeDate && row.material.workCenter == Some(p.workCenter);
      if !ExactProjection(p, row) && !delayed { return Some(false); }
      if c.Some? {
        if p.department == Some(p.targetDepartment) { return Some(false); }
        var taken := EnqueueOne(id, c.value, now);
        return Some(taken);
      }
      if p.department != Some(p.targetDepartment) { return None; }
      StepKeepsSlot(repairs[id], Settle(p, now));
      var r := repairs[id];
      if r.status != Applying && p.projectedAt > r.active.projectedAt && (r.status != Complete || r.error) {
        repairs := repairs[id := r.(active := Target(p.writeDate, p.targetDepartment, Some(p.workCenter), p.projectedAt),
                                    status := Complete, updatedAt := now, error := false)];
      }
      accepted := Some(false);
    }

    /** `claim_next` */
    method ClaimNext(now: int) returns (claim: Option<Claim>)
      requires AllOk(repairs)
      modifies this`repairs
      ensures AllOk(repairs)
      ensures var expired := ExpireAll(old(repairs), now);
        && (claim.None? <==> Claims(expired, now) == map[])
        && (claim.None? ==> repairs == expired)
        && (claim.Some? ==> (
              && Least(Claims(expired, now), claim.value.id)
              && repairs == expired[claim.value.id := Act(expired[claim.value.id], Take(now))]
              && Owns(claim.value)))
      ensures claim.Some? ==> claim.value.mirrorDate == WriteDate(ActiveRow(mirror.table, claim.value.id))
      ensures claim.None? <==> forall id | id in old(repairs) :: !ClaimableAfterExpiry(old(repairs)[id], now)
      ensures claim.Some? ==> (
        && claim.value.id in old(repairs) && ClaimableAfterExpiry(old(repairs)[claim.value.id], now)
        && forall id | id in old(repairs) && ClaimableAfterExpiry(old(repairs)[id], now) ::
             NoLater(old(repairs), claim.value.id, id, now))
    {
      forall id | id in repairs { StepKeepsSlot(repairs[id], Expire(now)); }
      ClaimsMeans(repairs, now);
      repairs := ExpireAll(repairs, now);
      if Claims(repairs, now) == map[] {
        assert forall id :: id !in Claims(repairs, now);
        return None;
      }
      var id := PickLeast(Claims(repairs, now));
      StepKeepsSlot(repairs[id], Take(now));
      var r := repairs[id];
      repairs := repairs[id := r.(status := Applying, attempts := r.attempts + 1, updatedAt := now)];
      claim := Some(Claim(id, r.active.expected, r.active.department, r.active.workCenter,
                          WriteDate(ActiveRow(mirror.table, id)), r.attempts + 1));
    }

    /** `_promote_successor` */
    method Promote(claim: Claim, observed: Option<Row>, now: int) returns (promoted: bool)
      requires Owns(claim)
      modifies this`repairs
      ensures promoted == old(repairs)[claim.id].successor.Some?
      ensures repairs == if promoted
        then old(repairs)[claim.id := Promoted(old(repairs)[claim.id].successor.value, observed, now)]
        else old(repairs)
    {
      var r := repairs[claim.id];
      if r.successor.None? { return false; }
      var w := r.successor.value;
      if observed.Some? && observed.value.material.workCenter == Some(w.workCenter) && observed.value.writeDate > w.expected {
        w := w.(expected := observed.value.writeDate);
      }
      repairs := repairs[claim.id := Fresh(w, now)];
      promoted := true;
    }

    /** `renew_claim`: the claim goes on only without a successor and while the mirror agrees. */
    method RenewClaim(claim: Claim, now: int) returns (renewed: bool)
      requires AllOk(repairs)
      modifies this`repairs
      ensures AllOk(repairs)
      ensures !old(Owns(claim)) ==> !renewed && repairs == old(repairs)
      ensures old(Owns(claim)) ==>
        repairs == old(repairs)[claim.id := Act(old(repairs)[claim.id], Renew(ActiveRow(mirror.table, claim.id), now))]
      ensures old(Owns(claim)) ==> (renewed <==>
        old(repairs)[claim.id].successor.None? && StillExpected(old(repairs)[claim.id].active, ActiveRow(mirror.table, claim.id)))
      ensures renewed ==> Owns(claim)
    {
      if !Owns(claim) { return false; }
      StepKeepsSlot(repairs[claim.id], Renew(ActiveRow(mirror.table, claim.id), now));
      var promoted := Promote(claim, None, now);
      if promoted { return false; }
      var row := ActiveRow(mirror.table, claim.id);
      var r := repairs[claim.id];
      if row.None? || row.value.writeDate != claim.expected || row.value.material.workCenter != claim.workCenter {
        repairs := repairs[claim.id := Completed(r, now)];
        return false;
      }
      repairs := repairs[claim.id := r.(updatedAt := now)];
      renewed := true;
    }

    /** `discard` */
    method DiscardClaim(claim: Claim, now: int) returns (ended: bool)
      requires AllOk(repairs)
      modifies this`repairs
      ensures AllOk(repairs) && ended == old(Owns(claim))
      ensures repairs == if ended then old(repairs)[claim.id := Act(old(repairs)[claim.id], Discard(now))] else old(repairs)
      ensures var r := Get(old(repairs), claim.id); ended <==> (
        && r.Some? && r.value.status == Applying && r.value.attempts == claim.attempts
        && r.value.active.expected == claim.expected && r.value.active.department == claim.department
        && r.value.active.workCenter == claim.workCenter)
    {
      if !Owns(claim) { return false; }
      StepKeepsSlot(repairs[claim.id], Discard(now));
      var promoted := Promote(claim, None, now);
      if !promoted { repairs := repairs[claim.id := Completed(repairs[claim.id], now)]; }
      ended := true;
    }

    /** `refresh_target`: None when it raises. */
    method RefreshTarget(claim: Claim, department: int, now: int) returns (ended: Option<bool>)
      requires AllOk(repairs)
      modifies this`repairs
      ensures AllOk(repairs) && (ended.None? <==> department <= 0)
      ensures ended.Some? ==> ended.value == old(Owns(claim))
      ensures repairs == if ended == Some(true)
        then old(repairs)[claim.id := Act(old(repairs)[claim.id], Retarget(department, now))] else old(repairs)
    {
      if department <= 0 { return None; }
      if !Owns(claim) { return Some(false); }
      StepKeepsSlot(repairs[claim.id], Retarget(department, now));
      var promoted := Promote(claim, None, now);
      if !promoted {
        var r := repairs[claim.id];
        repairs := repairs[claim.id := r.(
          active := r.active.(department := department, projectedAt := Max(r.active.projectedAt, now)),
          status := Pending, attempts := 0, updatedAt := now, error := false)];
      }
      ended := Some(true);
    }

    /** A verified row is stored in the mirror in the same transaction, under its own fence. */
    twostate predicate Verified(claim: Claim, row: Row, now: int)
      reads this, mirror, mirror.queue
    {
      if old(Owns(claim)) && RowIsCurrent(old(mirror.table), claim, row)
      then mirror.Contents() == UpsertState(mirror.dayOf, old(mirror.Contents()), [row], now, now)
      else mirror.Contents() == old(mirror.Contents())
    }

    method Verify(claim: Claim, row: Row, now: int) returns (current: bool)
      modifies mirror`table, mirror.queue`jobs
      ensures current == (Owns(claim) && RowIsCurrent(old(mirror.table), claim, row))
      ensures Verified(claim, row, now)
      ensures current <==> (
        && Owns(claim) && row.material.workCenter == claim.workCenter
        && (claim.id in old(mirror.table) ==> (
              var stored := old(mirror.table)[claim.id].row;
              || stored.writeDate < row.writeDate
              || (stored.writeDate == row.writeDate && stored.material.workCenter == row.material.workCenter))))
    {
      current := Owns(claim) && RowIsCurrent(mirror.table, claim, row);
      if current { var days := mirror.UpsertRows([row], now, now); }
    }

    predicate Rejects(claim: Claim, row: Row) { !Acceptable(row) || row.id != claim.id }

    /** `refresh_expected`: None when it raises. */
    method RefreshExpected(claim: Claim, row: Row, now: int) returns (ended: Option<bool>)
      requires AllOk(repairs)
      modifies this`repairs, mirror`table, mirror.queue`jobs
      ensures AllOk(repairs) && (ended.None? <==> Rejects(claim, row))
      ensures ended.None? ==> mirror.Contents() == old(mirror.Contents())
      ensures ended.Some? ==> Verified(claim, row, now)
      ensures ended.Some? ==> ended.value == (old(Owns(claim)) && RowIsCurrent(old(mirror.table), claim, row))
      ensures repairs == if ended == Some(true)
        then old(repairs)[claim.id := Act(old(repairs)[claim.id], Refresh(row, now))] else old(repairs)
    {
      if Rejects(claim, row) { return None; }
      var current := Verify(claim, row, now);
      if !current { return Some(false); }
      StepKeepsSlot(repairs[claim.id], Refresh(row, now));
      var r := repairs[claim.id];
      if r.successor.Some? && (r.successor.value.expected >= row.writeDate
                               || Some(r.successor.value.workCenter) == row.material.workCenter)
      {
        var promoted := Promote(claim, Some(row), now);
      } else {
        repairs := repairs[claim.id := r.(active := r.active.(expected := row.writeDate), status := Pending,
                                          attempts := 0, updatedAt := now, error := false, successor := None)];
      }
      ended := Some(true);
    }

    /** `finish_verified`: None when it raises. */
    method FinishVerified(claim: Claim, row: Row, now: int) returns (ended: Option<bool>)
      requires AllOk(repairs)
      modifies this`repairs, mirror`table, mirror.queue`jobs
      ensures AllOk(repairs) && (ended.None? <==> Rejects(claim, row))
      ensures ended.None? ==> mirror.Contents() == old(mirror.Contents())
      ensures ended.Some? ==> Verified(claim, row, now)
      ensures ended.Some? ==> ended.value == (old(Owns(claim)) && RowIsCurrent(old(mirror.table), claim, row))
      ensures repairs == if ended == Some(true)
        then old(repairs)[claim.id := Act(old(repairs)[claim.id], Finish(row, now))] else old(repairs)
    {
      if Rejects(claim, row) { return None; }
      var current := Verify(claim, row, now);
      if !current { return Some(false); }
      StepKeepsSlot(repairs[claim.id], Finish(row, now));
      var promoted := Promote(claim, Some(row), now);
      if !promoted {
        var r := repairs[claim.id];
        repairs := repairs[claim.id := r.(active := r.active.(expected := row.writeDate), status := Complete,
                                          updatedAt := now, error := false)];
      }
      ended := Some(true);
    }

    /** `retry_or_fail`: the outer None is raising, the inner None that the claim was lost or the
        successor took over, otherwise whether the repair failed for good. */
    method RetryOrFail(claim: Claim, current: Option<Row>, now: int) returns (failed: Option<Option<bool>>)
      requires AllOk(repairs)
      modifies this`repairs, mirror`table, mirror.queue`jobs
      ensures AllOk(repairs)
      ensures current.None? ==> mirror.Contents() == old(mirror.Contents())
      ensures failed.None? ==> repairs == old(repairs) && mirror.Contents() == old(mirror.Contents())
      ensures failed.None? <==>
        current.Some? && (!Acceptable(current.value) || (old(Owns(claim)) && current.value.id != claim.id))
      ensures failed.Some? && current.Some? ==> Verified(claim, current.value, now)
      ensures var acts := failed.Some? && old(Owns(claim))
          && (current.Some? ==> RowIsCurrent(old(mirror.table), claim, current.value));
        var decides := acts && old(repairs)[claim.id].successor.None?;
        && repairs == (if acts then old(repairs)[claim.id := Act(old(repairs)[claim.id], Retry(current, now))] else old(repairs))
        && (failed.Some? ==> failed.value == if decides then Some(claim.attempts >= MAX_ATTEMPTS) else None)
    {
      if current.Some? && !Acceptable(current.value) { return None; }
      if !Owns(claim) { return Some(None); }
      if current.Some? {
        if current.value.id != claim.id { return None; }
        var verified := Verify(claim, current.value, now);
        if !verified { return Some(None); }
      }
      StepKeepsSlot(repairs[claim.id], Retry(current, now));
      var promoted := Promote(claim, current, now);
      if promoted { return Some(None); }
      var r := repairs[claim.id];
      if current.Some? { r := r.(active := r.active.(expected := current.value.writeDate)); }
      var spent := claim.attempts >= MAX_ATTEMPTS;
      repairs := repairs[claim.id := r.(status := if spent then Failed else Pending, updatedAt := now, error := true)];
      failed := Some(Some(spent));
    }
  }
}
