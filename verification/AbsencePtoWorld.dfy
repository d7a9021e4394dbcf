/** One absence-PTO request, the Odoo records it touches, and everything any number of
    lease owners may do to them.  A run is a sequence of atomic effects: local statements,
    remote mutations and the passing of time; a crash is an owner that issues no more. */
module AbsencePtoWorld {
  import opened Prelude
  import opened AbsencePtoStore

  datatype LeaveState = Draft | Confirm | Validate1 | Validate | Refuse | Cancel
  /** The exact identity a leave has for this request: its absence type, its PTO type
      (same employee and day in both cases), or anything else. */
  datatype LeaveKind = AbsenceLeave | PtoLeave | OtherLeave
  datatype Leave = Leave(kind: LeaveKind, state: LeaveState)

  /** A project task with this request's exact name, and how many of its messages carry
      the resolution marker. */
  datatype Task = Task(messages: nat, active: bool)

  /** The `manual_absences` row of the day and its Odoo link. */
  datatype Absence = Missing | Recorded(leave: Option<LeaveId>)

  datatype World = World(
    row: Request,
    leaves: map<LeaveId, Leave>,
    tasks: map<TaskId, Task>,
    absence: Absence,
    mirror: map<LeaveId, LeaveState>,
    clock: int)

  predicate Active(s: LeaveState) { s != Refuse && s != Cancel }

  function ActivePto(leaves: map<LeaveId, Leave>): set<LeaveId> {
    set i | i in leaves && leaves[i].kind == PtoLeave && Active(leaves[i].state)
  }

  predicate IsLeave(w: World, id: LeaveId, kind: LeaveKind, state: LeaveState) {
    id in w.leaves && w.leaves[id] == Leave(kind, state)
  }

  /** The original absence is refused, or the request never had one. */
  predicate OriginalOut(w: World) {
    w.row.originalId.Some? ==> IsLeave(w, w.row.originalId.value, AbsenceLeave, Refuse)
  }

  predicate OriginalActive(w: World) {
    && w.row.originalId.Some? && w.row.originalId.value in w.leaves
    && w.leaves[w.row.originalId.value].kind == AbsenceLeave
    && Active(w.leaves[w.row.originalId.value].state)
  }

  predicate Held(w: World, owner: Owner) { Leased(w.row, owner, w.clock) }

  // ---- remote mutations --------------------------------------------------

  datatype Call =
    | RefuseLeave(leave: LeaveId)
    | CreatePto
    | ConfirmLeave(leave: LeaveId)
    | ApproveLeave(leave: LeaveId)
    | ResetLeave(leave: LeaveId)
    | CreateTask
    | RefreshTask(task: TaskId)
    | PostMessage(task: TaskId)
    | CloseTask(task: TaskId)

  /** What Odoo chose: the state a leave moved to, the identity a new record got. */
  datatype Answer = Answer(state: LeaveState, id: int)

  predicate ApprovalStep(from: LeaveState, to: LeaveState) {
    (from == Confirm && (to == Validate1 || to == Validate)) || (from == Validate1 && to == Validate)
  }

  predicate Lawful(w: World, call: Call, a: Answer) {
    match call
    case RefuseLeave(i) => i in w.leaves
    case CreatePto => a.id !in w.leaves && Active(a.state)
    case ConfirmLeave(i) => i in w.leaves && w.leaves[i].state == Draft && Active(a.state) && a.state != Draft
    case ApproveLeave(i) => i in w.leaves && ApprovalStep(w.leaves[i].state, a.state)
    case ResetLeave(i) => i in w.leaves && !Active(w.leaves[i].state)
    case CreateTask => a.id !in w.tasks
    case RefreshTask(t) => t in w.tasks
    case PostMessage(t) => t in w.tasks
    case CloseTask(t) => t in w.tasks
  }

  /** Odoo has some lawful answer to the call. */
  predicate Possible(w: World, call: Call) {
    match call
    case RefuseLeave(i) => i in w.leaves
    case CreatePto => true
    case ConfirmLeave(i) => i in w.leaves && w.leaves[i].state == Draft
    case ApproveLeave(i) => i in w.leaves && (w.leaves[i].state == Confirm || w.leaves[i].state == Validate1)
    case ResetLeave(i) => i in w.leaves && !Active(w.leaves[i].state)
    case CreateTask => true
    case RefreshTask(t) => t in w.tasks
    case PostMessage(t) => t in w.tasks
    case CloseTask(t) => t in w.tasks
  }

  function Moved(w: World, i: LeaveId, s: LeaveState): World
    requires i in w.leaves
  {
    w.(leaves := w.leaves[i := w.leaves[i].(state := s)])
  }

  function Perform(w: World, call: Call, a: Answer): World
    requires Lawful(w, call, a)
  {
    match call
    case RefuseLeave(i) => Moved(w, i, Refuse)
    case CreatePto => w.(leaves := w.leaves[a.id := Leave(PtoLeave, a.state)])
    case ConfirmLeave(i) => Moved(w, i, a.state)
    case ApproveLeave(i) => Moved(w, i, a.state)
    case ResetLeave(i) => Moved(w, i, Confirm)
    case CreateTask => w.(tasks := w.tasks[a.id := Task(0, true)])
    case RefreshTask(t) => w.(tasks := w.tasks[t := w.tasks[t].(active := true)])
    case PostMessage(t) => w.(tasks := w.tasks[t := w.tasks[t].(messages := w.tasks[t].messages + 1)])
    case CloseTask(t) => w.(tasks := w.tasks[t := w.tasks[t].(active := false)])
  }

  // ---- effects -----------------------------------------------------------

  /** `EditLocal` is any other page or job rewriting the day's attendance row or the local leave
      mirror; neither takes the lease. */
  datatype Effect =
    | Tick(seconds: nat)
    | EditLocal(absence: Absence, mirror: map<LeaveId, LeaveState>)
    | Store(op: Op)
    | Remote(owner: Owner, call: Call, answer: Answer)

  predicate By(e: Effect, o: Owner) {
    (e.Store? && e.op.owner == o) || (e.Remote? && e.owner == o)
  }

  /** What the database and Odoo allow.  A remote mutation takes effect before the
      lease that fenced it expires, or never. */
  predicate Enabled(w: World, e: Effect) {
    match e
    case Tick(_) => true
    case EditLocal(_, _) => true
    case Store(op) =>
      Accepts(w.row, op, w.clock) && (op.FinalizeApproved? ==> w.absence == Recorded(op.original))
    case Remote(o, call, a) => Held(w, o) && Lawful(w, call, a)
  }

  function Settle(w: World, op: Op): World
    requires op.FinalizeApproved?
  {
    var mirror := if op.original.Some? && op.original.value in w.mirror
                  then w.mirror[op.original.value := Refuse] else w.mirror;
    w.(absence := Recorded(Some(op.leave)), mirror := mirror[op.leave := Validate])
  }

  function Apply(w: World, e: Effect): World
    requires Enabled(w, e)
  {
    match e
    case Tick(n) => w.(clock := w.clock + n)
    case EditLocal(absence, mirror) => w.(absence := absence, mirror := mirror)
    case Store(op) =>
      (if op.FinalizeApproved? then Settle(w, op) else w).(row := Next(w.row, op, w.clock))
    case Remote(_, call, a) => Perform(w, call, a)
  }

  // ---- what the code verifies before each effect --------------------------

  /** The row is converting past its first step and `i` is the only PTO that can be active. */
  predicate SolePto(w: World, i: LeaveId) {
    && w.row.state == Converting && w.row.step != NotStarted
    && (w.row.ptoId == None || w.row.ptoId == Some(i))
    && i in w.leaves && w.leaves[i].kind == PtoLeave && ActivePto(w.leaves) <= {i}
  }

  /** Compensation is complete: no matching PTO is active and the absence stands again. */
  predicate Restored(w: World) {
    && ActivePto(w.leaves) == {}
    && (w.row.originalId.Some? ==> IsLeave(w, w.row.originalId.value, AbsenceLeave, Validate))
  }

  /** The linked PTO is approved and is the only active match. */
  predicate SoleValidated(w: World, i: LeaveId) {
    ActivePto(w.leaves) == {i} && IsLeave(w, i, PtoLeave, Validate)
  }

  predicate TransitionPromise(w: World, op: Op)
    requires op.Transition?
  {
    match (op.fromState, op.fromStep, op.toState, op.toStep)
    case (Pending, NotStarted, Converting, NotStarted) => op.pto == Unset
    case (Converting, NotStarted, Pending, NotStarted) => op.pto == Unset
    case (Converting, NotStarted, Converting, AbsenceRefused) => op.pto == Unset && OriginalOut(w)
    case (Converting, AbsenceRefused, Converting, PtoCreated) => op.pto.Set? && SolePto(w, op.pto.id)
    case (Converting, PtoCreated, Converting, PtoApproved) =>
      op.pto == Unset && w.row.ptoId.Some? && IsLeave(w, w.row.ptoId.value, PtoLeave, Validate)
    case (Converting, s, Converting, t) =>
      && s == t
      && (op.pto.Set? ==> w.row.ptoId == Some(op.pto.id) || SolePto(w, op.pto.id))
    case _ => false
  }

  predicate StorePromise(w: World, op: Op) {
    match op
    case Claim(_) => true
    case Renew(_) => true
    case Release(_) => true
    case Transition(_, _, _, _, _, _) => TransitionPromise(w, op)
    case ToPending(_) => Restored(w)
    case MarkNeedsReview(_) => true
    case SaveTask(_, t) =>
      t == w.row.taskId || (w.row.taskId == None && t.Some? && t.value in w.tasks && w.tasks.Keys == {t.value})
    case SaveResolution(_, from, to) => ResolutionPromise(w, from, to)
    case AdoptExternal(_, i) => SoleValidated(w, i)
    case FinalizeApproved(_, _, i) => SoleValidated(w, i) && (w.row.state == Converting ==> OriginalOut(w))
    case FinalizeManual(_) => true
    case FinalizeDenied(_) => true
  }

  predicate ResolutionPromise(w: World, from: ResolutionStep, to: ResolutionStep) {
    || from == to
    || (to == Closed && w.row.taskId == None)
    || (w.row.taskId.Some? && w.row.taskId.value in w.tasks
        && (var task := w.tasks[w.row.taskId.value];
            || (from == Unresolved && to == MessagePosted && task.messages == 1)
            || (from == MessagePosted && to == Closed && !task.active)))
  }

  predicate CallPromise(w: World, call: Call) {
    match call
    case RefuseLeave(i) =>
      && w.row.state == Converting
      && ((w.row.step == NotStarted && w.row.originalId == Some(i) && IsLeave(w, i, AbsenceLeave, Validate))
          || (SolePto(w, i) && w.leaves[i].state in {Draft, Confirm, Validate1}))
    case CreatePto =>
      && w.row.state == Converting && w.row.step == AbsenceRefused && w.row.ptoId == None
      && ActivePto(w.leaves) == {} && OriginalOut(w)
    case ConfirmLeave(i) => w.row.ptoId == Some(i) && SolePto(w, i) && OriginalOut(w)
    case ApproveLeave(i) =>
      || (w.row.ptoId == Some(i) && SolePto(w, i) && OriginalOut(w))
      || (w.row.state == Converting && w.row.originalId == Some(i) && i in w.leaves
          && w.leaves[i].kind == AbsenceLeave && ActivePto(w.leaves) == {})
    case ResetLeave(i) =>
      && w.row.state == Converting && w.row.originalId == Some(i) && i in w.leaves
      && w.leaves[i].kind == AbsenceLeave && ActivePto(w.leaves) == {}
    case CreateTask =>
      && w.row.state == NeedsReview && w.row.taskId == None
      && forall t :: t in w.tasks ==> !w.tasks[t].active
    case RefreshTask(t) => w.row.state == NeedsReview && w.row.taskId == Some(t)
    case PostMessage(t) =>
      && Terminal(w.row) && w.row.taskId == Some(t) && w.row.resolution == Unresolved
      && t in w.tasks && w.tasks[t].messages == 0
    case CloseTask(t) => Terminal(w.row) && w.row.taskId == Some(t) && w.row.resolution == MessagePosted
  }

  /** Every owner runs the same code, so every owner keeps this promise. */
  predicate Promise(w: World, e: Effect) {
    match e
    case Tick(_) => true
    case EditLocal(_, _) => true
    case Store(op) => StorePromise(w, op)
    case Remote(_, call, _) => CallPromise(w, call)
  }

  predicate Allowed(w: World, e: Effect) { Enabled(w, e) && Promise(w, e) }

  // ---- the invariant -------------------------------------------------------

  /** The person is never booked twice: at most one PTO leave is active, none while the
      original absence is active; the row's link names the active one. */
  predicate LeaveInv(w: World) {
    && (forall i, j :: i in ActivePto(w.leaves) && j in ActivePto(w.leaves) ==> i == j)
    && (OriginalActive(w) ==> ActivePto(w.leaves) == {})
    && (w.row.ptoId.Some? ==> ActivePto(w.leaves) <= {w.row.ptoId.value})
    && (w.row.state in {Pending, Converting} && w.row.step == NotStarted ==>
          ActivePto(w.leaves) == {} && w.row.ptoId == None)
  }

  predicate RowInv(row: Request) {
    && (row.step in {PtoCreated, PtoApproved} ==> row.ptoId.Some?)
    && (row.state in {Pending, Denied} ==> row.step == NotStarted)
    && (row.state == Approved ==> row.step == PtoApproved)
    && (row.resolution != Unresolved ==> Terminal(row))
  }

  /** One review task ever exists; it carries at most one marked message, exactly one once
      the outcome is recorded as posted, and is archived once it is recorded as closed. */
  predicate TaskInv(w: World) {
    && (forall s, t :: s in w.tasks && t in w.tasks ==> s == t)
    && (forall t :: t in w.tasks ==> w.tasks[t].messages <= 1)
    && (w.row.taskId == None ==> forall t :: t in w.tasks ==> w.tasks[t].active)
    && (w.row.taskId.Some? ==> w.row.taskId.value in w.tasks)
    && (w.row.taskId.Some? && w.row.resolution != Unresolved ==> w.tasks[w.row.taskId.value].messages == 1)
    && (w.row.taskId.Some? && w.row.resolution == Closed ==> !w.tasks[w.row.taskId.value].active)
  }

  predicate Inv(w: World) { LeaveInv(w) && RowInv(w.row) && TaskInv(w) }

  /** A freshly submitted request: nothing claimed, no active PTO, no review task. */
  predicate Initial(w: World) {
    && w.row.state == Pending && w.row.step == NotStarted && w.row.ptoId == None
    && w.row.lease == None && w.row.taskId == None && w.row.resolution == Unresolved
    && ActivePto(w.leaves) == {} && w.tasks == map[]
  }

  lemma StoreKeepsInv(w: World, op: Op)
    requires Inv(w) && Allowed(w, Store(op))
    ensures Inv(Apply(w, Store(op)))
  {
  }

  /** Changing one leave's state changes the active set by that leave only. */
  lemma ActiveAfterMove(w: World, i: LeaveId, s: LeaveState)
    requires i in w.leaves
    ensures ActivePto(Moved(w, i, s).leaves) ==
      if w.leaves[i].kind == PtoLeave && Active(s) then ActivePto(w.leaves) + {i} else ActivePto(w.leaves) - {i}
  {
    var after := Moved(w, i, s).leaves;
    assert forall j :: j in after && j != i ==> after[j] == w.leaves[j];
  }

  lemma CallKeepsInv(w: World, o: Owner, call: Call, a: Answer)
    requires Inv(w) && Allowed(w, Remote(o, call, a))
    ensures Inv(Apply(w, Remote(o, call, a)))
  {
    match call
    case RefuseLeave(i) => ActiveAfterMove(w, i, Refuse);
    case CreatePto =>
      var after := Perform(w, call, a);
      assert ActivePto(after.leaves) == {a.id};
    case ConfirmLeave(i) => ActiveAfterMove(w, i, a.state);
    case ApproveLeave(i) => ActiveAfterMove(w, i, a.state);
    case ResetLeave(i) => ActiveAfterMove(w, i, Confirm);
    case CreateTask =>
    case RefreshTask(t) =>
    case PostMessage(t) =>
    case CloseTask(t) =>
  }

  lemma StepKeepsInv(w: World, e: Effect)
    requires Inv(w) && Allowed(w, e)
    ensures Inv(Apply(w, e))
  {
    match e
    case Tick(_) =>
    case EditLocal(_, _) =>
    case Store(op) => StoreKeepsInv(w, op);
    case Remote(o, call, a) => CallKeepsInv(w, o, call, a);
  }

  // ---- runs ------------------------------------------------------------------

  /** A run: the worlds passed through and the effects between them. */
  datatype Run = Run(worlds: seq<World>, effects: seq<Effect>)

  predicate Legal(r: Run) {
    && |r.worlds| == |r.effects| + 1
    && (forall n {:trigger r.effects[n]} :: 0 <= n < |r.effects| ==>
          Allowed(r.worlds[n], r.effects[n]) && r.worlds[n + 1] == Apply(r.worlds[n], r.effects[n]))
  }

  function Last(r: Run): World
    requires |r.worlds| > 0
  {
    r.worlds[|r.worlds| - 1]
  }

  function Extend(r: Run, e: Effect): Run
    requires |r.worlds| > 0 && Enabled(Last(r), e)
  {
    Run(r.worlds + [Apply(Last(r), e)], r.effects + [e])
  }

  lemma LegalExtends(r: Run, e: Effect)
    requires Legal(r) && Allowed(Last(r), e)
    ensures Legal(Extend(r, e)) && Last(Extend(r, e)) == Apply(Last(r), e)
  {
    var q := Extend(r, e);
    forall n | 0 <= n < |q.effects|
      ensures Allowed(q.worlds[n], q.effects[n]) && q.worlds[n + 1] == Apply(q.worlds[n], q.effects[n])
    {
      if n < |r.effects| {
        assert q.effects[n] == r.effects[n] && q.worlds[n] == r.worlds[n] && q.worlds[n + 1] == r.worlds[n + 1];
      }
    }
  }

  lemma {:induction false} RunKeepsInv(r: Run, n: nat)
    requires Legal(r) && n < |r.worlds| && Inv(r.worlds[0])
    ensures Inv(r.worlds[n])
  {
    if n > 0 {
      RunKeepsInv(r, n - 1);
      StepKeepsInv(r.worlds[n - 1], r.effects[n - 1]);
    }
  }

  // ---- what holds throughout every run ------------------------------------------

  /** All leaves that make the person absent that day: PTO or the original absence. */
  function Bookings(w: World): set<LeaveId> {
    ActivePto(w.leaves) + if OriginalActive(w) then {w.row.originalId.value} else {}
  }

  lemma AtMostOne<T>(s: set<T>)
    requires forall i, j :: i in s && j in s ==> i == j
    ensures |s| <= 1
  {
    if s != {} {
      var i :| i in s;
      assert s == {i};
    }
  }

  /** Under crashes, lost responses and lease takeovers, two leaves are never active together. */
  lemma NeverBookedTwice(r: Run, n: nat)
    requires Legal(r) && n < |r.worlds| && Initial(r.worlds[0])
    ensures |Bookings(r.worlds[n])| <= 1
  {
    RunKeepsInv(r, n);
    var v := r.worlds[n];
    assert LeaveInv(v);
    assert forall i, j :: i in Bookings(v) && j in Bookings(v) ==> i == j;
    AtMostOne(Bookings(v));
  }

  /** Step and link of the request row, in every reachable state. */
  lemma ReachableRows(r: Run, n: nat)
    requires Legal(r) && n < |r.worlds| && Initial(r.worlds[0])
    ensures RowInv(r.worlds[n].row)
  {
    RunKeepsInv(r, n);
  }

  /** The request is approved, its PTO is the only active match and approved in Odoo, and the
      original absence is out. */
  predicate Booked(w: World) {
    w.row.state == Approved && w.row.ptoId.Some? && SoleValidated(w, w.row.ptoId.value) && OriginalOut(w)
  }

  /** Booked, and the attendance link and both mirrored leaves name the same ids and outcome. */
  predicate Settled(w: World) {
    && Booked(w)
    && w.absence == Recorded(w.row.ptoId)
    && w.row.ptoId.value in w.mirror && w.mirror[w.row.ptoId.value] == Validate
    && (w.row.originalId.Some? && w.row.originalId.value in w.mirror ==> w.mirror[w.row.originalId.value] == Refuse)
  }

  lemma FinalizeSettles(w: World, op: Op)
    requires op.FinalizeApproved? && w.row.state == Converting && Allowed(w, Store(op))
    ensures Settled(Apply(w, Store(op)))
  {
  }

  /** Nothing unbooks an approved request, and only an edit of the local records unsettles it. */
  lemma SettledStays(w: World, e: Effect)
    requires Booked(w) && Inv(w) && Allowed(w, e)
    ensures Booked(Apply(w, e))
    ensures Settled(w) && !e.EditLocal? ==> Settled(Apply(w, e))
  {
  }

  lemma LegalStep(r: Run, n: nat)
    requires Legal(r) && n < |r.effects|
    ensures Allowed(r.worlds[n], r.effects[n]) && r.worlds[n + 1] == Apply(r.worlds[n], r.effects[n])
  {
  }

  lemma SettledNext(r: Run, n: nat)
    requires Legal(r) && Initial(r.worlds[0]) && n < |r.effects| && Booked(r.worlds[n])
    ensures Booked(r.worlds[n + 1])
    ensures Settled(r.worlds[n]) && !r.effects[n].EditLocal? ==> Settled(r.worlds[n + 1])
  {
    RunKeepsInv(r, n);
    LegalStep(r, n);
    SettledStays(r.worlds[n], r.effects[n]);
  }

  /** No local record was edited from effect `i` on, up to world `n`. */
  predicate Unedited(r: Run, i: nat, n: nat)
    requires n <= |r.effects|
  {
    forall k | i < k < n :: !r.effects[k].EditLocal?
  }

  lemma UneditedBefore(r: Run, i: nat, n: nat)
    requires i + 1 < n <= |r.effects|
    ensures Unedited(r, i, n) <==> Unedited(r, i, n - 1) && !r.effects[n - 1].EditLocal?
  {
  }

  /** Approved through the conversion means settled at that commit; the booking stands ever after,
      and the local records agree until somebody else edits them. */
  lemma {:induction false} ApprovedMeansSettled(r: Run, i: nat, n: nat)
    requires Legal(r) && Initial(r.worlds[0]) && i < n < |r.worlds|
    requires r.effects[i].Store? && r.effects[i].op.FinalizeApproved? && r.worlds[i].row.state == Converting
    ensures Booked(r.worlds[n])
    ensures Unedited(r, i, n) ==> Settled(r.worlds[n])
  {
    LegalStep(r, n - 1);
    if n == i + 1 {
      FinalizeSettles(r.worlds[i], r.effects[i].op);
    } else {
      ApprovedMeansSettled(r, i, n - 1);
      UneditedBefore(r, i, n);
      SettledNext(r, n - 1);
    }
  }

  /** Whenever a request returns to pending after compensation, the day is as it was. */
  lemma PendingMeansRestored(r: Run, i: nat)
    requires Legal(r) && i < |r.effects| && r.effects[i].Store? && r.effects[i].op.ToPending?
    ensures Restored(r.worlds[i + 1]) && r.worlds[i + 1].row.state == Pending
  {
    assert Allowed(r.worlds[i], r.effects[i]);
  }

  lemma ValidatedPtoStays(w: World, e: Effect, pto: LeaveId)
    requires Inv(w) && Allowed(w, e) && IsLeave(w, pto, PtoLeave, Validate)
    ensures IsLeave(Apply(w, e), pto, PtoLeave, Validate)
  {
  }

  /** An approved PTO leave is never refused or reset again. */
  lemma {:induction false} ValidatedPtoIsFinal(r: Run, i: nat, n: nat, pto: LeaveId)
    requires Legal(r) && Initial(r.worlds[0]) && i <= n < |r.worlds|
    requires IsLeave(r.worlds[i], pto, PtoLeave, Validate)
    ensures IsLeave(r.worlds[n], pto, PtoLeave, Validate)
  {
    if i < n {
      ValidatedPtoIsFinal(r, i, n - 1, pto);
      RunKeepsInv(r, n - 1);
      ValidatedPtoStays(r.worlds[n - 1], r.effects[n - 1], pto);
    }
  }

  function Rank(s: ResolutionStep): nat {
    match s case Unresolved => 0 case MessagePosted => 1 case Closed => 2
  }

  /** The outcome is delivered exactly once: over a whole run there is at most one review
      task with at most one marked message, and a closed delivery has posted and archived. */
  lemma DeliveredOnce(r: Run, n: nat)
    requires Legal(r) && n < |r.worlds| && Initial(r.worlds[0])
    ensures var v := r.worlds[n];
      && |v.tasks.Keys| <= 1
      && (forall t :: t in v.tasks ==> v.tasks[t].messages <= 1)
      && (v.row.resolution == Closed && v.row.taskId.Some? ==>
            v.row.taskId.value in v.tasks && v.tasks[v.row.taskId.value] == Task(1, false))
  {
    RunKeepsInv(r, n);
    var v := r.worlds[n];
    assert TaskInv(v);
    assert forall i, j :: i in v.tasks.Keys && j in v.tasks.Keys ==> i == j;
    AtMostOne(v.tasks.Keys);
  }

  lemma ResolutionStepForward(w: World, e: Effect)
    requires Inv(w) && Allowed(w, e)
    ensures Rank(w.row.resolution) <= Rank(Apply(w, e).row.resolution)
    ensures w.row.resolution == Unresolved && Apply(w, e).row.resolution == Closed ==> w.row.taskId == None
  {
  }

  /** Delivery only moves forward: none, message posted, closed; it closes without a posted
      message only when the row names no review task. */
  lemma {:induction false} ResolutionMovesForward(r: Run, m: nat, n: nat)
    requires Legal(r) && Initial(r.worlds[0]) && m <= n < |r.worlds|
    ensures Rank(r.worlds[m].row.resolution) <= Rank(r.worlds[n].row.resolution)
    ensures n == m + 1 && r.worlds[m].row.resolution == Unresolved && r.worlds[n].row.resolution == Closed ==>
      r.worlds[m].row.taskId == None
  {
    if m < n {
      ResolutionMovesForward(r, m, n - 1);
      RunKeepsInv(r, n - 1);
      ResolutionStepForward(r.worlds[n - 1], r.effects[n - 1]);
    }
  }

  /** In a closed request every review task that exists in Odoo has been told exactly when the row
      names it, or there is none. */
  lemma ClosedIsToldExactly(r: Run, n: nat)
    requires Legal(r) && n < |r.worlds| && Initial(r.worlds[0]) && r.worlds[n].row.resolution == Closed
    ensures var v := r.worlds[n];
      (forall t :: t in v.tasks ==> v.tasks[t] == Task(1, false)) <==> v.row.taskId.Some? || v.tasks == map[]
  {
    RunKeepsInv(r, n);
    var v := r.worlds[n];
    assert TaskInv(v);
    if v.row.taskId.Some? {
      forall t | t in v.tasks ensures v.tasks[t] == Task(1, false) {
        assert t == v.row.taskId.value;
      }
    } else if v.tasks != map[] {
      assert v.tasks.Keys == {} ==> v.tasks == map[];
      var t := AnyKey(v.tasks.Keys);
      assert v.tasks[t].active;
    }
  }

  /** A request on its own day with nothing in Odoo. */
  function BareWorld(row: Request, tasks: map<TaskId, Task>): World {
    World(row, map[], tasks, Recorded(None), map[], 0)
  }

  /** One more step of a run, to a world given outright. */
  lemma StepTo(r: Run, e: Effect, w: World) returns (q: Run)
    requires Legal(r) && Allowed(Last(r), e) && Apply(Last(r), e) == w
    ensures Legal(q) && Last(q) == w && q.worlds[0] == r.worlds[0]
  {
    LegalExtends(r, e);
    q := Extend(r, e);
  }

  const LOST_ROW := Request(Pending, NotStarted, None, None, None, None, Unresolved)

  /** A claimed request handed to review. */
  lemma HandedToReview() returns (r: Run, row: Request)
    ensures Legal(r) && r.worlds[0] == BareWorld(LOST_ROW, map[]) && Last(r) == BareWorld(row, map[])
    ensures row == LOST_ROW.(state := NeedsReview, lease := Some(Lease(1, LEASE_SECONDS)))
  {
    var claimed := LOST_ROW.(lease := Some(Lease(1, LEASE_SECONDS)));
    row := claimed.(state := NeedsReview);
    r := Run([BareWorld(LOST_ROW, map[])], []);
    r := StepTo(r, Store(Claim(1)), BareWorld(claimed, map[]));
    r := StepTo(r, Store(MarkNeedsReview(1)), BareWorld(row, map[]));
  }

  /** A review task whose creation was never answered is not told: the lookup was lost too, and the
      request was then resolved by hand. */
  lemma LostTaskIsNeverTold() returns (r: Run)
    ensures Legal(r) && Initial(r.worlds[0])
    ensures Last(r).row.resolution == Closed && Last(r).row.taskId.None?
    ensures Last(r).tasks == map[7 := Task(0, true)]
  {
    var row: Request;
    var lost := map[7 := Task(0, true)];
    r, row := HandedToReview();
    r := StepTo(r, Remote(1, CreateTask, Answer(Draft, 7)), BareWorld(row, lost));
    r := StepTo(r, Store(FinalizeManual(1)), BareWorld(row.(state := ResolvedManually, resolution := Closed), lost));
  }
}
