/** `absence_pto_review.py`: the review task of a stopped request and the delivery of its
    outcome, each exactly once over lost responses, crashes and retries.  Reads are truthful. */
module AbsencePtoReview {
  import opened Prelude
  import opened AbsencePtoStore
  import opened AbsencePtoWorld
  import opened AbsencePtoSession
  import opened AbsencePtoConversion

  datatype TaskSight = NoTask | SeenTask(id: TaskId) | DoubtfulTask

  function ActiveTasks(w: World): set<TaskId> { set t | t in w.tasks && w.tasks[t].active }

  /** `_exact_task_ids`: the active task with the exact name; two are a permanent error. */
  function SeeTask(w: World): (r: TaskSight)
    ensures r.NoTask? ==> forall t :: t in w.tasks ==> !w.tasks[t].active
    ensures r.SeenTask? ==> r.id in w.tasks && w.tasks[r.id].active
  {
    var active := ActiveTasks(w);
    if |active| == 0 then
      assert forall t :: t in w.tasks && w.tasks[t].active ==> t in active;
      NoTask
    else if |active| > 1 then
      DoubtfulTask
    else
      SeenTask(TheOnly(active))
  }

  method ReadTask(s: Session) returns (f: Flow, task: TaskSight)
    requires s.Valid() && s.honest
    modifies s`turn, s`world, s`run
    ensures s.Valid() && Drift(s.me, old(s.world), s.world)
    ensures f.Go? || f.Unsafe?
    ensures f.Go? ==> task == SeeTask(s.world) && !task.DoubtfulTask?
    ensures s.Calm() ==> s.world == old(s.world) && (!SeeTask(s.world).DoubtfulTask? ==> f.Go?)
  {
    var now := s.Wait();
    task := SeeTask(s.world);
    f := if now.readFails || task.DoubtfulTask? then Unsafe else Go;
  }

  /** `fetch_feedback_task_identity` of the saved task, archived or not. */
  method ReadIdentity(s: Session, id: TaskId) returns (f: Flow, task: Task)
    requires s.Valid() && s.honest
    modifies s`turn, s`world, s`run
    ensures s.Valid() && Drift(s.me, old(s.world), s.world)
    ensures f.Go? || f.Unsafe?
    ensures f.Go? ==> id in s.world.tasks && task == s.world.tasks[id]
    ensures s.Calm() ==> s.world == old(s.world) && (id in s.world.tasks ==> f.Go?)
  {
    var now := s.Wait();
    task := Task(0, false);
    if now.readFails || id !in s.world.tasks { return Unsafe, task; }
    return Go, s.world.tasks[id];
  }

  // ---- the review task --------------------------------------------------------

  /** One create attempt and the exact lookup after a failed answer. */
  method TryCreateTask(s: Session) returns (f: Flow, found: TaskSight)
    requires s.Valid() && s.honest && s.request.state == NeedsReview && s.request.taskId == None
    requires Held(s.world, s.me) ==> SeeTask(s.world).NoTask?
    modifies s`turn, s`world, s`run, s`request
    ensures s.Valid() && SameWork(old(s.request), s.request)
    ensures f in {Go, StaleTransition, Unsafe}
    ensures f.StaleTransition? ==> !Held(s.world, s.me)
    ensures f.Go? ==> !found.DoubtfulTask?
    ensures f.Go? && Held(s.world, s.me) && found.NoTask? ==> SeeTask(s.world).NoTask?
    ensures f.Go? && Held(s.world, s.me) && found.SeenTask? ==> found.id in s.world.tasks
    ensures old(s.Steady()) ==> f.Go? && s.Steady() && found.SeenTask?
  {
    found := NoTask;
    :- Renewal(s);
    var raised, _, answer := s.Mutate(CreateTask);
    if !raised { return Go, SeenTask(answer.id); }
    f, found := ReadTask(s);
  }

  /** `_create_task`: a second attempt in the older schema only if none exists. */
  method CreateTaskOnce(s: Session) returns (f: Flow, found: TaskSight)
    requires s.Valid() && s.honest && s.request.state == NeedsReview && s.request.taskId == None
    requires Held(s.world, s.me) ==> SeeTask(s.world).NoTask?
    modifies s`turn, s`world, s`run, s`request
    ensures s.Valid() && SameWork(old(s.request), s.request)
    ensures f in {Go, StaleTransition, Unsafe}
    ensures f.StaleTransition? ==> !Held(s.world, s.me)
    ensures f.Go? ==> found.SeenTask? && (Held(s.world, s.me) ==> found.id in s.world.tasks)
    ensures old(s.Steady()) ==> f.Go? && s.Steady()
  {
    found :- TryCreateTask(s);
    if found.NoTask? {
      var now := s.Wait();
      if !now.schemaFault { return Unsafe, found; }
      found :- TryCreateTask(s);
    }
    f := if found.SeenTask? then Go else Unsafe;
  }

  /** In a reachable world the review task is never doubtful. */
  lemma OneTask(w: World)
    requires TaskInv(w)
    ensures !SeeTask(w).DoubtfulTask?
  {
    var active := ActiveTasks(w);
    assert forall i, j :: i in active && j in active ==> i == j;
    AtMostOne(active);
  }

  /** Find, adopt or create the request's one review task. */
  method LocateTask(s: Session) returns (f: Flow, id: TaskId)
    requires s.Valid() && s.honest && s.request.state == NeedsReview
    modifies s`turn, s`world, s`run, s`request
    ensures s.Valid() && SameWork(old(s.request), s.request)
    ensures f in {Go, StaleTransition, Unsafe}
    ensures f.StaleTransition? ==> !Held(s.world, s.me)
    ensures f.Go? && Held(s.world, s.me) ==> id in s.world.tasks
    ensures old(s.Steady()) ==> f.Go? && s.Steady()
  {
    id := 0;
    s.Reachable();
    OneTask(s.world);
    var found :- ReadTask(s);
    if found.NoTask? && s.request.taskId.Some? {
      var task :- ReadIdentity(s, s.request.taskId.value);
      if task.active { return Unsafe, id; }
      return Go, s.request.taskId.value;
    }
    if found.NoTask? {
      found :- CreateTaskOnce(s);
    }
    return Go, found.id;
  }

  lemma OnlyTask(w: World, t: TaskId)
    requires TaskInv(w) && t in w.tasks
    ensures w.tasks.Keys == {t}
  {
    assert forall i :: i in w.tasks.Keys ==> i in w.tasks && i == t;
  }

  method SaveTaskId(s: Session, task: Option<TaskId>) returns (f: Flow)
    requires s.Valid() && s.honest && s.request.state == NeedsReview
    requires Held(s.world, s.me) ==> task == s.request.taskId || (task.Some? && task.value in s.world.tasks)
    modifies s`turn, s`world, s`run, s`request
    ensures s.Valid() && (f.Go? || f.StaleTransition?)
    ensures f.StaleTransition? ==> !Held(s.world, s.me)
    ensures s.request.state == NeedsReview
    ensures f.Go? ==> Held(s.world, s.me) && s.request.taskId == task
    ensures old(s.Steady()) ==> f.Go? && s.Steady() && s.world.tasks == old(s.world.tasks)
  {
    s.Reachable();
    if task.Some? && task.value in s.world.tasks { OnlyTask(s.world, task.value); }
    var ok := s.Commit(SaveTask(s.me, task));
    f := if ok then Go else StaleTransition;
  }

  /** `_refresh_task`, with the older schema as a separately fenced second write. */
  method RefreshOnce(s: Session, id: TaskId) returns (f: Flow)
    requires s.Valid() && s.honest && s.request.state == NeedsReview && s.request.taskId == Some(id)
    modifies s`turn, s`world, s`run, s`request
    ensures s.Valid() && (f in {Go, StaleTransition, Unsafe}) && SameWork(old(s.request), s.request)
    ensures f.StaleTransition? ==> !Held(s.world, s.me)
    ensures old(s.Steady()) && id in old(s.world.tasks) ==> f.Go? && s.Steady() && s.world.tasks.Keys == old(s.world.tasks.Keys)
  {
    f := Renewal(s);
    if !f.Go? { return; }
    var raised, _, _ := s.Mutate(RefreshTask(id));
    if raised {
      var now := s.Wait();
      if !now.schemaFault { return Unsafe; }
      :- Renewal(s);
      var again, _, _ := s.Mutate(RefreshTask(id));
      raised := again;
    }
    f := if raised then Unsafe else Go;
  }

  /** `_sync_claimed_task`; `exhausted` says that the attempt budget is used up.  `synced` means
      that the row names the one review task, stored and refreshed under the lease. */
  method SyncTask(s: Session, exhausted: bool) returns (f: Flow, synced: bool)
    requires s.Valid() && s.honest
    modifies s`turn, s`world, s`run, s`request
    ensures s.Valid() && s.request.state == old(s.request.state)
    ensures synced ==> f.Go? && s.request.state == NeedsReview && s.request.taskId.Some?
    ensures synced ==> Held(s.world, s.me) && s.world.tasks.Keys == {s.request.taskId.value}
    ensures f.Unsafe? ==> s.request.state != NeedsReview
    ensures f.Go? || f.StaleTransition? || f.Unsafe?
    ensures f.StaleTransition? ==> !Held(s.world, s.me)
    ensures old(s.Steady()) && old(s.request.state) == NeedsReview && !exhausted ==> synced
    ensures old(s.Steady()) && old(s.request.state) == NeedsReview ==> f.Go?
  {
    synced := false;
    if s.request.state != NeedsReview { return Unsafe, false; }
    if exhausted {
      f := SaveTaskId(s, s.request.taskId);
      return;
    }
    var id: TaskId;
    f, id := LocateTask(s);
    if f.Go? { f := SaveTaskId(s, Some(id)); }
    if f.Go? { f := RefreshOnce(s, id); }
    synced := f.Go?;
    if !f.StaleTransition? { f := SaveTaskId(s, s.request.taskId); }
    synced := synced && f.Go?;
    s.Reachable();
    if synced { OnlyTask(s.world, id); }
  }

  // ---- delivery of the outcome ---------------------------------------------------

  /** The outcome has been posted once and its review task archived, or there is none. */
  predicate Delivered(w: World) {
    && w.row.resolution == Closed
    && (w.row.taskId.Some? ==> w.row.taskId.value in w.tasks && w.tasks[w.row.taskId.value] == Task(1, false))
  }

  method Checkpoint(s: Session, to: ResolutionStep) returns (f: Flow)
    requires s.Valid() && s.honest && Terminal(s.request)
    requires Held(s.world, s.me) ==> ResolutionPromise(s.world, s.request.resolution, to)
    modifies s`turn, s`world, s`run, s`request
    ensures s.Valid() && (f.Go? || f.StaleTransition?)
    ensures f.StaleTransition? ==> !Held(s.world, s.me)
    ensures f.Go? ==> Held(s.world, s.me) && s.request == s.world.row
    ensures f.Go? ==> s.request == old(s.request).(resolution := to, lease := s.request.lease)
    ensures f.Go? ==> s.world.tasks == old(s.world.tasks) && Held(old(s.world), s.me)
    ensures f.Go? && to == Closed ==> Delivered(s.world)
    ensures !f.Go? ==> s.request == old(s.request)
    ensures old(s.Steady()) ==> f.Go? && s.Steady()
  {
    var ok := s.Commit(SaveResolution(s.me, s.request.resolution, to));
    s.Reachable();
    f := if ok then Go else StaleTransition;
  }

  /** Post the marked message unless one is already there. */
  method PostOnce(s: Session, id: TaskId) returns (f: Flow)
    requires s.Valid() && s.honest && Terminal(s.request) && s.request.taskId == Some(id) && s.request.resolution == Unresolved
    modifies s`turn, s`world, s`run, s`request
    ensures s.Valid() && (f in {Go, StaleTransition, Unsafe}) && SameWork(old(s.request), s.request)
    ensures f.StaleTransition? ==> !Held(s.world, s.me)
    ensures f.Go? && Held(s.world, s.me) ==> (
      && Held(old(s.world), s.me) && id in s.world.tasks && s.world.tasks[id].messages >= 1
      && id in old(s.world.tasks) && s.world.tasks[id].active == old(s.world.tasks)[id].active)
    ensures old(s.Steady()) && id in old(s.world.tasks) ==> f.Go? && s.Steady()
  {
    var task :- ReadIdentity(s, id);
    if task.messages == 0 {
      :- Renewal(s);
      var raised, _, _ := s.Mutate(PostMessage(id));
      if raised {
        task :- ReadIdentity(s, id);
        if task.messages == 0 { return Unsafe; }
      }
    }
    return Go;
  }

  method ArchiveOnce(s: Session, id: TaskId) returns (f: Flow)
    requires s.Valid() && s.honest && Terminal(s.request) && s.request.taskId == Some(id) && s.request.resolution == MessagePosted
    modifies s`turn, s`world, s`run, s`request
    ensures s.Valid() && (f in {Go, StaleTransition, Unsafe}) && SameWork(old(s.request), s.request)
    ensures f.StaleTransition? ==> !Held(s.world, s.me)
    ensures f.Go? && Held(s.world, s.me) ==> id in s.world.tasks && !s.world.tasks[id].active
    ensures old(s.Steady()) && id in old(s.world.tasks) ==> f.Go? && s.Steady()
  {
    f := Renewal(s);
    if !f.Go? { return; }
    s.Reachable();
    var raised, _, _ := s.Mutate(CloseTask(id));
    if raised {
      var task :- ReadIdentity(s, id);
      if task.active { return Unsafe; }
    }
    return Go;
  }

  /** The guarded body of `_deliver_terminal_claimed` for a request with a task. */
  method DeliverToTask(s: Session, id: TaskId) returns (f: Flow)
    requires s.Valid() && s.honest && Terminal(s.request) && s.request.taskId == Some(id) && s.request.resolution != Closed
    modifies s`turn, s`world, s`run, s`request
    ensures s.Valid() && (f in {Go, StaleTransition, Unsafe})
    ensures f.StaleTransition? ==> !Held(s.world, s.me)
    ensures s.request.state == old(s.request.state)
    ensures f.Go? ==> Delivered(s.world)
    ensures old(s.Steady()) ==> f.Go?
  {
    s.Reachable();
    var identity :- ReadIdentity(s, id);
    if s.request.resolution == Unresolved {
      :- PostOnce(s, id);
      s.Reachable();
      :- Checkpoint(s, MessagePosted);
    }
    if identity.active {
      :- ArchiveOnce(s, id);
    }
    s.Reachable();
    f := Checkpoint(s, Closed);
  }

  /** `_deliver_terminal_claimed`; `parked` says that delivery was given up for good. */
  method DeliverTerminal(s: Session, parked: bool) returns (closed: bool)
    requires s.Valid() && s.honest
    modifies s`turn, s`world, s`run, s`request
    ensures s.Valid() && s.request.state == old(s.request.state)
    ensures closed ==> Terminal(s.request)
    ensures closed && old(s.request.resolution) != Closed ==> Delivered(s.world)
    ensures old(s.Steady()) && Terminal(old(s.request)) && !parked ==> closed
  {
    if !Terminal(s.request) { return false; }
    if s.request.resolution == Closed { return true; }
    if parked { return false; }
    var f: Flow;
    if s.request.taskId.None? {
      f := Checkpoint(s, Closed);
    } else {
      f := DeliverToTask(s, s.request.taskId.value);
      if f.Unsafe? {
        var _ := Checkpoint(s, s.request.resolution);
      }
    }
    return f.Go?;
  }

  // ---- resolution and reconciliation --------------------------------------------

  /** `_matching_validated_pto`: exactly one active match, approved in Odoo. */
  method MatchingValidated(s: Session) returns (f: Flow, pto: Sight)
    requires s.Valid() && s.honest
    modifies s`turn, s`world, s`run
    ensures s.Valid() && Drift(s.me, old(s.world), s.world)
    ensures f.Go? || f.Unsafe?
    ensures f.Go? && pto.Seen? ==> pto == SeeActive(s.world) && SoleValidated(s.world, pto.id)
    ensures s.Calm() ==> s.world == old(s.world) && f.Go? && (pto.Seen? <==> SeeActive(s.world).Seen? && SeeActive(s.world).state == Validate)
  {
    var now := s.Wait();
    pto := SeeActive(s.world);
    if now.readFails { return Unsafe, pto; }
    return Go, if pto.Seen? && pto.state == Validate then pto else Nothing;
  }

  /** `_resolve_external_claimed`: adopt the one approved PTO that exists in Odoo and settle. */
  method ResolveExternal(s: Session) returns (f: Flow, approved: bool)
    requires s.Valid() && s.honest && s.request.state == NeedsReview
    modifies s`turn, s`world, s`run, s`request
    ensures s.Valid()
    ensures approved ==> f.Go? && s.request.state == Approved
    ensures !approved ==> s.request.state == NeedsReview
    ensures approved ==> s.world.row.ptoId.Some? && s.world.absence == Recorded(s.world.row.ptoId)
    ensures approved ==> SoleValidated(s.world, s.world.row.ptoId.value)
    ensures old(s.Steady()) && old(s.world.absence) == Recorded(old(s.request.originalId)) ==>
      (approved <==> SeeActive(old(s.world)).Seen? && SeeActive(old(s.world)).state == Validate)
  {
    approved := false;
    var pto :- MatchingValidated(s);
    if !pto.Seen? { return Go, false; }
    var ok := s.Commit(AdoptExternal(s.me, pto.id));
    if !ok { return StaleTransition, false; }
    :- Renewal(s);
    pto :- MatchingValidated(s);
    if !pto.Seen? || Some(pto.id) != s.request.ptoId { return Go, false; }
    ok := s.Commit(FinalizeApproved(s.me, s.request.originalId, pto.id));
    return if ok then Go else StaleTransition, ok;
  }

  datatype Reconciled = Resumed | Escalated | Failed

  /** `_reconcile_claimed`: whatever state the claimed row is in, every effect issued keeps
      the promise that the other owners rely on, and leave mutations stay bounded. */
  method ReconcileClaimed(s: Session, parked: bool, exhausted: bool) returns (r: Reconciled)
    requires s.Valid() && s.honest && RowInv(s.request)
    modifies s`turn, s`world, s`run, s`request, s`forward, s`compensating
    ensures s.Valid() && s.forward <= old(s.forward) + 5 && s.compensating <= old(s.compensating) + 4
    ensures r.Failed? && old(s.request.state) in {Pending, Converting} ==>
      !Held(s.world, s.me) || LinkChanged(s.world)
    ensures r.Resumed? && Terminal(old(s.request)) && old(s.request.resolution) != Closed ==> Delivered(s.world)
    ensures r.Resumed? && old(s.request.state) == NeedsReview ==> s.request.state == Approved
    ensures r.Resumed? && old(s.request.state) == Converting ==> Settled(s.world) || s.request.state == Pending
    ensures r.Escalated? && old(s.request.state) in {Pending, NeedsReview} ==> s.request.state == NeedsReview
    ensures r.Escalated? && old(s.request.state) == Converting ==> s.request.state !in {Pending, Converting}
    ensures old(s.request.state) != Converting ==> s.forward == old(s.forward) && s.compensating == old(s.compensating)
    ensures old(s.Steady()) && Terminal(old(s.request)) && !parked ==> r.Resumed?
    ensures old(s.Steady()) && old(s.request.state) == Pending ==> r.Escalated?
    ensures old(s.Steady()) && old(s.request.state) == Converting && OnCourse(old(s.world)) && s.Funded() ==> r.Resumed?
  {
    if Terminal(s.request) {
      var closed := DeliverTerminal(s, parked);
      return if closed then Resumed else Escalated;
    }
    if s.request.state == Pending {
      var reviewed := s.Commit(MarkNeedsReview(s.me));
      if !reviewed { return Failed; }
      var f, _ := SyncTask(s, exhausted);
      return if f.StaleTransition? then Failed else Escalated;
    }
    if s.request.state == NeedsReview {
      var f, approved := ResolveExternal(s);
      if !f.Go? { return Failed; }
      if approved {
        var _ := DeliverTerminal(s, parked);
        return Resumed;
      }
      var synced;
      f, synced := SyncTask(s, exhausted);
      return if f.StaleTransition? then Failed else Escalated;
    }
    if s.request.state != Converting { return Failed; }
    r := ReconcileConverting(s, exhausted);
  }

  /** `resume_claimed`, and the review task if the conversion stopped. */
  method ReconcileConverting(s: Session, exhausted: bool) returns (r: Reconciled)
    requires s.Valid() && s.honest && RowInv(s.request) && s.request.state == Converting
    modifies s`turn, s`world, s`run, s`request, s`forward, s`compensating
    ensures s.Valid() && s.forward <= old(s.forward) + 5 && s.compensating <= old(s.compensating) + 4
    ensures r.Failed? ==> !Held(s.world, s.me) || LinkChanged(s.world)
    ensures r.Resumed? ==> Settled(s.world) || s.request.state == Pending
    ensures r.Escalated? ==> s.request.state !in {Pending, Converting}
    ensures old(s.Steady()) && OnCourse(old(s.world)) && s.Funded() ==> r.Resumed?
  {
    var renewed := Renewal(s);
    if !renewed.Go? { return Failed; }
    var status := ResumeClaim(s);
    if status == WasReview {
      if s.request.state == NeedsReview {
        var f, _ := SyncTask(s, exhausted);
        return if f.StaleTransition? then Failed else Escalated;
      }
      return Escalated;
    }
    return if status == WasBusy then Failed else Resumed;
  }
}
