/** `absence_pto_conversion.py`: one claim converts a recorded absence into approved PTO
    step by step, or undoes what it did, or hands the request to review. */
module AbsencePtoConversion {
  import opened Prelude
  import opened AbsencePtoStore
  import opened AbsencePtoWorld
  import opened AbsencePtoSession

  datatype Status = WasApproved | WasPending | WasReview | WasBusy

  /** How a phase ends: carry on, one of the raised exceptions, or an early return. */
  datatype Flow = Go | StaleTransition | LowBalance | Unsafe | Return(status: Status) {
    predicate IsFailure() { !Go? }
    function PropagateFailure(): Flow { this }
  }

  function SeeLeave(w: World, id: LeaveId, kind: LeaveKind): Sight {
    if id in w.leaves && w.leaves[id].kind == kind then Seen(id, w.leaves[id].state) else Doubtful
  }

  function SeeOriginal(w: World, request: Request): Sight {
    if request.originalId.None? then Nothing else SeeLeave(w, request.originalId.value, AbsenceLeave)
  }

  lemma Singleton<T>(s: set<T>, x: T)
    requires |s| == 1 && x in s
    ensures s == {x}
  {
    assert |s - {x}| == 0;
  }

  function TheOnly<T(==)>(s: set<T>): (x: T)
    requires |s| == 1
    ensures s == {x}
  {
    assert forall x, y :: x in s && y in s ==> x == y by {
      forall x, y | x in s && y in s ensures x == y { Singleton(s, x); }
    }
    var x :| x in s;
    Singleton(s, x);
    x
  }

  /** The active leaves matching the request: none, exactly one, or doubtful. */
  function SeeActive(w: World): (r: Sight)
    ensures r.Nothing? <==> ActivePto(w.leaves) == {}
    ensures r.Seen? ==> ActivePto(w.leaves) == {r.id}
    ensures r.Seen? ==> w.leaves[r.id] == Leave(PtoLeave, r.state) && Active(r.state)
  {
    var active := ActivePto(w.leaves);
    if |active| == 0 then Nothing
    else if |active| > 1 then Doubtful
    else
      var i := TheOnly(active);
      Seen(i, w.leaves[i].state)
  }

  /** `_matching_pto`: the one active match, which must be the linked leave if there is one. */
  function SeePto(w: World, request: Request): Sight { Matching(SeeActive(w), request) }

  function Matching(seen: Sight, request: Request): Sight {
    if seen.Seen? && request.ptoId.Some? && request.ptoId.value != seen.id then Doubtful else seen
  }

  // ---- an undisturbed course --------------------------------------------------------

  /** The facts a conversion needs at every step and keeps until it is finished: the attendance row
      still links the original, the original is refused or waits to be, at most one PTO is active,
      and it is the linked one, approved if the row says so. */
  predicate OnCourse(w: World) {
    var active := SeeActive(w);
    && (w.row.state == Pending || w.row.state == Converting) && RowInv(w.row)
    && w.absence == Recorded(w.row.originalId)
    && (w.row.originalId.Some? ==>
          && w.row.originalId.value in w.leaves && w.leaves[w.row.originalId.value].kind == AbsenceLeave
          && (w.leaves[w.row.originalId.value].state == Refuse
              || (w.row.step == NotStarted && w.leaves[w.row.originalId.value].state == Validate)))
    && !active.Doubtful?
    && (w.row.ptoId.Some? ==> active.Seen? && active.id == w.row.ptoId.value)
    && (w.row.step == PtoApproved ==> active.Seen? && active.state == Validate)
  }

  /** A freshly submitted request is on course if its absence is linked and stands, or has none. */
  lemma FreshRequestIsOnCourse(w: World)
    requires Initial(w) && w.absence == Recorded(w.row.originalId)
    requires w.row.originalId.Some? ==> IsLeave(w, w.row.originalId.value, AbsenceLeave, Validate)
    ensures OnCourse(w)
  {
  }

  /** The pay period is open and the PTO type is the configured one. */
  predicate PayOpen(t: Turn) { t.periodOpen && t.typeUnchanged }

  /** Only the lease was renewed. */
  predicate OnlyRenewed(v: World, w: World) { w == v.(row := v.row.(lease := w.row.lease)) }

  // ---- reads ------------------------------------------------------------------

  /** An untrue answer about leave `id` passes the identity checks or is doubtful. */
  function Told(told: Sight, id: LeaveId): Sight {
    if told.Seen? then Seen(id, told.state) else Doubtful
  }

  method ReadOriginal(s: Session) returns (f: Flow, o: Sight)
    requires s.Valid()
    modifies s`turn, s`world, s`run
    ensures s.Valid() && Drift(s.me, old(s.world), s.world)
    ensures f.Go? || f.Unsafe?
    ensures f.Go? ==> !o.Doubtful? && (o.Nothing? <==> s.request.originalId.None?)
    ensures f.Go? && o.Seen? ==> s.request.originalId == Some(o.id)
    ensures f.Go? && s.honest ==> o == SeeOriginal(s.world, s.request)
    ensures s.Calm() ==> s.world == old(s.world)
    ensures s.Calm() && !SeeOriginal(s.world, s.request).Doubtful? ==> f.Go?
  {
    var now := s.Wait();
    o := if !s.honest && now.told.Some? && s.request.originalId.Some? then Told(now.told.value, s.request.originalId.value)
         else SeeOriginal(s.world, s.request);
    f := if now.readFails || o.Doubtful? then Unsafe else Go;
  }

  method ReadPto(s: Session) returns (f: Flow, p: Sight)
    requires s.Valid()
    modifies s`turn, s`world, s`run
    ensures s.Valid() && Drift(s.me, old(s.world), s.world)
    ensures f.Go? || f.Unsafe?
    ensures old(s.run.worlds) <= s.run.worlds
    ensures f.Go? ==> !p.Doubtful? && (p.Seen? && s.request.ptoId.Some? ==> s.request.ptoId.value == p.id)
    ensures f.Go? && s.honest ==> p == SeePto(s.world, s.request)
    ensures s.Calm() ==> s.world == old(s.world)
    ensures s.Calm() && !SeePto(s.world, s.request).Doubtful? ==> f.Go?
  {
    var now := s.Wait();
    p := Matching(if !s.honest && now.told.Some? then now.told.value else SeeActive(s.world), s.request);
    f := if now.readFails || p.Doubtful? then Unsafe else Go;
  }

  /** `_verified_snapshot` of one leave with the identity the request expects. */
  method ReadLeave(s: Session, id: LeaveId, kind: LeaveKind) returns (f: Flow, p: Sight)
    requires s.Valid()
    modifies s`turn, s`world, s`run
    ensures s.Valid() && Drift(s.me, old(s.world), s.world)
    ensures f.Go? || f.Unsafe?
    ensures f.Go? ==> p.Seen? && p.id == id
    ensures f.Go? && s.honest ==> p == SeeLeave(s.world, id, kind)
    ensures s.Calm() ==> s.world == old(s.world)
    ensures s.Calm() && SeeLeave(s.world, id, kind).Seen? ==> f.Go?
  {
    var now := s.Wait();
    p := if !s.honest && now.told.Some? then Told(now.told.value, id) else SeeLeave(s.world, id, kind);
    f := if now.readFails || p.Doubtful? then Unsafe else Go;
  }

  // ---- preflight ----------------------------------------------------------------

  /** The live facts `_preflight` establishes for a row that is not approved. */
  predicate Preflighted(w: World) {
    && (w.row.originalId.Some? ==> SeeOriginal(w, w.row).Seen?)
    && (w.row.step != NotStarted ==> OriginalOut(w))
    && (w.row.ptoId.Some? ==> SeePto(w, w.row).Seen?)
  }

  /** The facts checked from local records and services: the attendance link, the open pay
      period and the configured PTO type. */
  method CheckLocal(s: Session, expected: Option<LeaveId>) returns (f: Flow)
    requires s.Valid()
    modifies s`turn, s`world, s`run
    ensures s.Valid() && Drift(s.me, old(s.world), s.world)
    ensures f.Go? || f.Unsafe?
    ensures f.Go? ==> s.world.absence == Recorded(expected)
    ensures s.Calm() ==> s.world == old(s.world)
    ensures s.Calm() && s.world.absence == Recorded(expected) ==> f.Go?
    ensures f.Go? ==> PayOpen(s.env(old(s.turn)))
  {
    var now := s.Wait();
    f := if !now.readFails && s.world.absence == Recorded(expected) && now.periodOpen && now.typeUnchanged
         then Go else Unsafe;
  }

  method CheckBalance(s: Session, own: Sight) returns (f: Flow)
    requires s.Valid()
    modifies s`turn, s`world, s`run
    ensures s.Valid() && Drift(s.me, old(s.world), s.world)
    ensures f in {Go, Unsafe, LowBalance}
    ensures s.Calm() ==> s.world == old(s.world)
    ensures s.Calm() ==> f.Go? || (f.LowBalance? && !s.Funded())
    ensures var own := if own.Seen? && own.state in {Confirm, Validate1, Validate} then 1.0 else 0.0;
      (f.Go? ==> s.env(old(s.turn)).available + own >= 1.0) && (f.LowBalance? ==> s.env(old(s.turn)).available + own < 1.0)
  {
    var now := s.Wait();
    var reserved := if own.Seen? && own.state in {Confirm, Validate1, Validate} then 1.0 else 0.0;
    f := if now.readFails then Unsafe else if now.available + reserved < 1.0 then LowBalance else Go;
  }

  method Preflight(s: Session, given: Sight) returns (f: Flow)
    requires s.Valid()
    modifies s`turn, s`world, s`run
    ensures s.Valid() && Drift(s.me, old(s.world), s.world)
    ensures f in {Go, Unsafe, LowBalance}
    ensures f.Go? && s.Sure() ==> Preflighted(s.world)
    ensures s.Calm() ==> s.world == old(s.world)
    ensures old(s.Steady()) && OnCourse(old(s.world)) ==> f.Go? || (f.LowBalance? && !s.Funded())
    ensures f.Go? ==> exists k: nat :: PayOpen(s.env(k))
    ensures f.Go? && given.Nothing? && old(s.request.ptoId).None? ==> exists k: nat :: s.env(k).available >= 1.0
  {
    var own: Sight;
    f := CheckLocal(s, if s.request.state == Approved then s.request.ptoId else s.request.originalId);
    if !f.Go? { return; }
    own :- CheckLeaves(s, given);
    f := CheckBalance(s, own);
  }

  /** The original is seen, and out once the conversion has begun; a linked PTO is the one match. */
  method CheckLeaves(s: Session, given: Sight) returns (f: Flow, own: Sight)
    requires s.Valid()
    modifies s`turn, s`world, s`run
    ensures s.Valid() && Drift(s.me, old(s.world), s.world)
    ensures f.Go? || f.Unsafe?
    ensures s.request.ptoId.None? ==> own == given
    ensures f.Go? && s.Sure() ==> Preflighted(s.world)
    ensures s.Calm() ==> s.world == old(s.world)
    ensures old(s.Steady()) && OnCourse(old(s.world)) ==> f.Go?
  {
    own := given;
    f := Go;
    if s.request.originalId.Some? {
      var o: Sight;
      f, o := ReadOriginal(s);
      if !f.Go? { return; }
      if s.request.step != NotStarted && o.state != Refuse { return Unsafe, own; }
    }
    if s.request.ptoId.Some? {
      own :- ReadPto(s);
      if own.Nothing? { return Unsafe, own; }
    }
  }

  /** The row apart from its lease. */
  predicate SameWork(r: Request, q: Request) { r.(lease := None) == q.(lease := None) }

  /** From `v` to `w` nothing the conversion relies on changed, unless the lease was lost. */
  predicate Kept(o: Owner, v: World, w: World) {
    Held(w, o) ==>
      && Held(v, o) && SameWork(v.row, w.row) && v.leaves == w.leaves && v.tasks == w.tasks
  }

  method Renewal(s: Session) returns (f: Flow)
    requires s.Valid()
    modifies s`turn, s`world, s`run, s`request
    ensures s.Valid() && Kept(s.me, old(s.world), s.world) && SameWork(old(s.request), s.request)
    ensures f.Go? || f.StaleTransition?
    ensures f.StaleTransition? ==> !Held(s.world, s.me)
    ensures f.Go? ==> Held(s.world, s.me)
    ensures old(s.Steady()) ==> f.Go? && s.Steady() && OnlyRenewed(old(s.world), s.world)
  {
    var ok := s.Commit(Renew(s.me));
    f := if ok then Go else StaleTransition;
  }

  method RenewAndPreflight(s: Session, own: Sight) returns (f: Flow)
    requires s.Valid()
    modifies s`turn, s`world, s`run, s`request
    ensures s.Valid() && Kept(s.me, old(s.world), s.world) && SameWork(old(s.request), s.request)
    ensures f in {Go, StaleTransition, Unsafe, LowBalance}
    ensures f.StaleTransition? ==> !Held(s.world, s.me)
    ensures f.Go? && s.Sure() ==> Preflighted(s.world)
    ensures old(s.Steady()) ==> s.Steady() && OnlyRenewed(old(s.world), s.world)
    ensures old(s.Steady()) && OnCourse(old(s.world)) ==> f.Go? || (f.LowBalance? && !s.Funded())
    ensures f.Go? ==> exists k: nat :: PayOpen(s.env(k))
    ensures f.Go? && own.Nothing? && old(s.request.ptoId).None? ==> exists k: nat :: s.env(k).available >= 1.0
  {
    f := Renewal(s);
    if !f.Go? { return; }
    f := Preflight(s, own);
  }

  // ---- durable steps --------------------------------------------------------------

  /** `transition` for the current owner. */
  method Advance(s: Session, toState: RequestState, toStep: ConversionStep, pto: PtoField) returns (f: Flow)
    requires s.Valid()
    requires s.Sure() ==>
      TransitionPromise(s.world, Transition(s.me, s.request.state, s.request.step, toState, toStep, pto))
    modifies s`turn, s`world, s`run, s`request
    ensures s.Valid()
    ensures f.Go? || f.StaleTransition?
    ensures f.StaleTransition? ==> !Held(s.world, s.me)
    ensures f.Go? ==> Held(s.world, s.me) && s.request == s.world.row
    ensures f.Go? ==>
      var op := Transition(s.me, old(s.request.state), old(s.request.step), toState, toStep, pto);
      Committed(s.me, old(s.world), s.world, op)
    ensures !f.Go? ==> s.request == old(s.request) && Drift(s.me, old(s.world), s.world)
    ensures old(s.Steady()) ==> f.Go? && s.Steady()
    ensures old(s.Steady()) ==>
      var op := Transition(s.me, old(s.request.state), old(s.request.step), toState, toStep, pto);
      s.world == old(s.world).(row := Next(old(s.world.row), op, old(s.world.clock)))
  {
    var ok := s.Commit(Transition(s.me, s.request.state, s.request.step, toState, toStep, pto));
    f := if ok then Go else StaleTransition;
  }

  /** `transition_to_pending`, issued only when compensation is verified. */
  method CommitPending(s: Session) returns (f: Flow)
    requires s.Valid() && s.request.state == Converting
    requires s.Sure() ==> Restored(s.world)
    modifies s`turn, s`world, s`run, s`request
    ensures s.Valid()
    ensures f.StaleTransition? || f == Return(WasPending)
    ensures f.StaleTransition? ==> !Held(s.world, s.me)
    ensures f.Return? ==> s.request == s.world.row && s.request.state == Pending
    ensures f.Return? && s.honest ==> Restored(s.world)
    ensures !f.Return? ==> s.request == old(s.request)
    ensures old(s.Steady()) ==> f == Return(WasPending)
    ensures old(s.Steady()) ==> s.Steady()
  {
    var ok := s.Commit(ToPending(s.me));
    f := if ok then Return(WasPending) else StaleTransition;
  }

  /** `mark_needs_review` for a live row. */
  method HandToReview(s: Session) returns (r: Status)
    requires s.Valid()
    modifies s`turn, s`world, s`run, s`request
    ensures s.Valid()
    ensures r == WasReview || r == WasBusy
    ensures r == WasBusy ==> !Held(s.world, s.me)
    ensures r == WasReview ==> s.request.state !in {Pending, Converting}
    ensures r == WasReview && old(s.request.state) in {Pending, Converting} ==>
      s.world.row.state == NeedsReview && s.request.state == NeedsReview
    ensures old(s.Steady()) ==> r == WasReview && s.world.leaves == old(s.world.leaves)
    ensures old(s.Steady()) ==> s.Steady()
  {
    if s.request.state in {Pending, Converting, NeedsReview} {
      var ok := s.Commit(MarkNeedsReview(s.me));
      if !ok { return WasBusy; }
    }
    return WasReview;
  }

  // ---- forward phases -----------------------------------------------------------

  /** The refusal call and its verification; an absence that still stands returns the
      request to pending at once. */
  method RefuseOnce(s: Session, id: LeaveId) returns (f: Flow)
    requires s.Valid() && s.request.state == Converting && s.request.step == NotStarted
    requires s.request.originalId == Some(id)
    requires s.Sure() ==> IsLeave(s.world, id, AbsenceLeave, Validate)
    modifies s`turn, s`world, s`run, s`request, s`forward
    ensures s.Valid() && s.forward == old(s.forward) + 1
    ensures f in {Go, StaleTransition, Unsafe, Return(WasPending)}
    ensures f.StaleTransition? ==> !Held(s.world, s.me)
    ensures f.Go? && s.Sure() ==> OriginalOut(s.world)
    ensures f.Return? ==> s.request == s.world.row && s.request.state == Pending
    ensures f.Return? && s.honest ==> Restored(s.world)
    ensures !f.Return? ==> s.request == old(s.request)
    ensures old(s.Steady()) && IsLeave(old(s.world), id, AbsenceLeave, Validate) ==>
      f.Go? && s.Steady() && s.world == Moved(old(s.world), id, Refuse)
  {
    var raised, _, _ := s.MutateForward(RefuseLeave(id));
    var seen :- ReadOriginal(s);
    if raised && seen.state == Refuse {
      seen :- ReadOriginal(s);
    }
    if seen.state == Validate {
      if s.honest { s.Reachable(); }
      f := CommitPending(s);
    } else {
      f := if seen.state == Refuse then Go else Unsafe;
    }
  }

  /** Renew, check everything again, and fence: the original still stands. */
  method RecheckOriginal(s: Session) returns (f: Flow, original: Sight)
    requires s.Valid() && s.request.originalId.Some? && s.request.step == NotStarted
    modifies s`turn, s`world, s`run, s`request
    ensures s.Valid() && SameWork(old(s.request), s.request)
    ensures f in {Go, StaleTransition, Unsafe, LowBalance}
    ensures f.StaleTransition? ==> !Held(s.world, s.me)
    ensures f.Go? ==> original == Seen(s.request.originalId.value, Validate)
    ensures f.Go? && s.Sure() ==> IsLeave(s.world, original.id, AbsenceLeave, Validate)
    ensures old(s.Steady()) && OnCourse(old(s.world)) && SeeOriginal(old(s.world), old(s.request)).state == Validate ==>
      (f.Go? || (f.LowBalance? && !s.Funded())) && s.Steady() && OnlyRenewed(old(s.world), s.world)
  {
    original := Nothing;
    :- RenewAndPreflight(s, Nothing);
    original :- ReadOriginal(s);
    if original.state != Validate { return Unsafe, original; }
    f := Renewal(s);
  }

  /** Refusing the original leaves the PTO matches as they are. */
  lemma RefusedStaysOnCourse(w: World, id: LeaveId)
    requires OnCourse(w) && w.row.originalId == Some(id) && IsLeave(w, id, AbsenceLeave, Validate)
    ensures OnCourse(Moved(w, id, Refuse)) && OriginalOut(Moved(w, id, Refuse))
  {
    ActiveAfterMove(w, id, Refuse);
  }

  /** Check again, fence, and refuse the original that still stands. */
  method RefuseStanding(s: Session) returns (f: Flow, issued: bool)
    requires s.Valid() && s.request.state == Converting && s.request.step == NotStarted && s.request.originalId.Some?
    modifies s`turn, s`world, s`run, s`request, s`forward
    ensures s.Valid() && s.forward == old(s.forward) + (if issued then 1 else 0)
    ensures f in {Go, StaleTransition, Unsafe, LowBalance, Return(WasPending)}
    ensures f.StaleTransition? ==> !Held(s.world, s.me)
    ensures f.Go? ==> issued && (s.Sure() ==> OriginalOut(s.world))
    ensures f.Return? ==> s.request == s.world.row && s.request.state == Pending
    ensures f.Return? && s.honest ==> Restored(s.world)
    ensures !f.Return? ==> SameWork(old(s.request), s.request)
    ensures old(s.Steady()) && OnCourse(old(s.world)) && SeeOriginal(old(s.world), old(s.request)).state == Validate ==>
      (f.Go? || (f.LowBalance? && !s.Funded())) && s.Steady() && OnCourse(s.world)
      && (f.Go? ==> OriginalOut(s.world))
  {
    issued := false;
    var original: Sight;
    f, original := RecheckOriginal(s);
    if !f.Go? { return; }
    issued := true;
    ghost var before := s.world;
    f := RefuseOnce(s, original.id);
    if old(s.Steady()) && OnCourse(old(s.world)) && SeeOriginal(old(s.world), old(s.request)).state == Validate {
      RefusedStaysOnCourse(before, original.id);
    }
  }

  /** Refuse the original absence, or find that it already is out.  `touched` says whether a
      refusal may have happened, so that a failure from here on needs compensation. */
  method RefuseOriginal(s: Session, wasRefused: bool) returns (f: Flow, touched: bool)
    requires s.Valid() && s.request.state == Converting && s.request.step == NotStarted
    modifies s`turn, s`world, s`run, s`request, s`forward
    ensures s.Valid() && s.forward <= old(s.forward) + 1
    ensures f in {Go, StaleTransition, Unsafe, LowBalance, Return(WasPending)}
    ensures f.StaleTransition? ==> !Held(s.world, s.me)
    ensures f.Go? ==> s.request.state == Converting && s.request.step == AbsenceRefused
    ensures f.Return? ==> s.request == s.world.row && s.request.state == Pending
    ensures f.Return? && s.honest ==> Restored(s.world)
    ensures !f.Go? && !f.Return? ==> s.request.state == Converting && s.request.step == NotStarted
    ensures old(s.Steady()) && OnCourse(old(s.world)) ==> (f.Go? || (f.LowBalance? && !s.Funded())) && s.Steady() && OnCourse(s.world)
    ensures wasRefused ==> touched
    ensures !touched ==> s.forward == old(s.forward)
  {
    touched := wasRefused;
    var original: Sight;
    f, original := ReadOriginal(s);
    if !f.Go? { return; }
    if original.Seen? && original.state == Validate {
      var issued: bool;
      f, issued := RefuseStanding(s);
      touched := touched || issued;
      if !f.Go? { return; }
    } else if original.Seen? {
      if original.state != Refuse { return Unsafe, touched; }
      touched := true;
    }
    f := Advance(s, Converting, AbsenceRefused, Unset);
  }

  lemma CreatedIsSole(w: World, a: Answer)
    requires Lawful(w, CreatePto, a) && ActivePto(w.leaves) == {}
    ensures ActivePto(Perform(w, CreatePto, a).leaves) == {a.id}
  {
    var after := Perform(w, CreatePto, a);
    assert forall i :: i in w.leaves ==> after.leaves[i] == w.leaves[i];
  }

  /** Create the PTO leave, or adopt the one a lost response or an earlier claim left behind. */
  method CreateOrAdoptPto(s: Session) returns (f: Flow)
    requires s.Valid() && s.request.state == Converting && s.request.step == AbsenceRefused
    modifies s`turn, s`world, s`run, s`request, s`forward
    ensures s.Valid() && s.forward <= old(s.forward) + 1
    ensures f in {Go, StaleTransition, Unsafe, LowBalance}
    ensures f.StaleTransition? ==> !Held(s.world, s.me)
    ensures f.Go? ==> s.request.state == Converting && s.request.step == PtoCreated && s.request.ptoId.Some?
    ensures !f.Go? ==> s.request.state == Converting && s.request.step == AbsenceRefused
    ensures old(s.Steady()) && OnCourse(old(s.world)) ==> (f.Go? || (f.LowBalance? && !s.Funded())) && s.Steady() && OnCourse(s.world)
  {
    var pto: Sight;
    f, pto := FindOrCreate(s);
    if !f.Go? { return; }
    f := Advance(s, Converting, PtoCreated, Set(pto.id));
  }

  /** The PTO that is there, or a new one. */
  method FindOrCreate(s: Session) returns (f: Flow, pto: Sight)
    requires s.Valid() && s.request.state == Converting && s.request.step == AbsenceRefused
    modifies s`turn, s`world, s`run, s`request, s`forward
    ensures s.Valid() && s.forward <= old(s.forward) + 1
    ensures f in {Go, StaleTransition, Unsafe, LowBalance}
    ensures f.StaleTransition? ==> !Held(s.world, s.me)
    ensures s.request.state == Converting && s.request.step == AbsenceRefused
    ensures f.Go? ==> pto.Seen? && (s.Sure() ==> SolePto(s.world, pto.id))
    ensures old(s.Steady()) && OnCourse(old(s.world)) ==>
      (f.Go? || (f.LowBalance? && !s.Funded())) && s.Steady() && OnCourse(s.world)
    ensures old(s.Steady()) && OnCourse(old(s.world)) && f.Go? ==> pto == SeeActive(s.world)
  {
    pto := Nothing;
    f := Preflight(s, Nothing);
    if !f.Go? { return; }
    var original :- ReadOriginal(s);
    if original.Seen? && original.state != Refuse { return Unsafe, pto; }
    pto :- ReadPto(s);
    if pto.Nothing? {
      pto :- CreateMissing(s);
    }
    return Go, pto;
  }

  /** Check, renew, recheck, fence, create. */
  method CreateMissing(s: Session) returns (f: Flow, pto: Sight)
    requires s.Valid() && s.request.state == Converting && s.request.step == AbsenceRefused
    modifies s`turn, s`world, s`run, s`request, s`forward
    ensures s.Valid() && s.forward <= old(s.forward) + 1
    ensures f in {Go, StaleTransition, Unsafe, LowBalance}
    ensures f.StaleTransition? ==> !Held(s.world, s.me)
    ensures s.request.state == Converting && s.request.step == AbsenceRefused
    ensures f.Go? ==> pto.Seen? && (s.Sure() ==> SolePto(s.world, pto.id))
    ensures old(s.Steady()) && OnCourse(old(s.world)) && SeeActive(old(s.world)).Nothing? ==>
      (f.Go? || (f.LowBalance? && !s.Funded())) && s.Steady() && OnCourse(s.world)
    ensures old(s.Steady()) && OnCourse(old(s.world)) && SeeActive(old(s.world)).Nothing? && f.Go? ==> pto == SeeActive(s.world)
    ensures f.Go? && old(s.request.ptoId).None? ==> exists k: nat :: s.env(k).available >= 1.0
  {
    pto := Nothing;
    :- RenewAndPreflight(s, Nothing);
    pto :- ReadPto(s);
    if pto.Seen? { return Unsafe, pto; }
    :- Renewal(s);
    ghost var before := s.world;
    f, pto := CreateOnce(s);
    if old(s.Steady()) && OnCourse(old(s.world)) && SeeActive(old(s.world)).Nothing? {
      CreatedStaysOnCourse(before, pto.id, pto.state);
    }
  }

  lemma CreatedStaysOnCourse(w: World, id: LeaveId, state: LeaveState)
    requires OnCourse(w) && SeeActive(w).Nothing? && w.row.step == AbsenceRefused && id !in w.leaves && Active(state)
    ensures var after := w.(leaves := w.leaves[id := Leave(PtoLeave, state)]);
      OnCourse(after) && SeeActive(after) == Seen(id, state)
  {
    CreatedIsSole(w, Answer(state, id));
  }

  /** The create call itself and the bounded lookup that follows a failed or doubtful answer. */
  method CreateOnce(s: Session) returns (f: Flow, pto: Sight)
    requires s.Valid() && s.request.state == Converting && s.request.step == AbsenceRefused
    requires s.Sure() ==> CallPromise(s.world, CreatePto)
    modifies s`turn, s`world, s`run, s`request, s`forward
    ensures s.Valid() && s.forward <= old(s.forward) + 1
    ensures f in {Go, StaleTransition, Unsafe}
    ensures f.StaleTransition? ==> !Held(s.world, s.me)
    ensures s.request.state == Converting && s.request.step == AbsenceRefused
    ensures f.Go? ==> pto.Seen? && (s.Sure() ==> SolePto(s.world, pto.id))
    ensures old(s.Steady()) && SeeActive(old(s.world)).Nothing? ==>
      f.Go? && s.Steady() && pto.id !in old(s.world.leaves) && Active(pto.state)
      && s.world == old(s.world).(leaves := old(s.world.leaves)[pto.id := Leave(PtoLeave, pto.state)])
  {
    var raised, applied, answer := s.MutateForward(CreatePto);
    if !raised {
      if s.Sure() { CreatedIsSole(Later(old(s.world), s.world), answer); }
      f, pto := ReadLeave(s, answer.id, PtoLeave);
      if f.Go? { return; }
      if s.request.ptoId.None? {
        :- Advance(s, Converting, AbsenceRefused, Set(answer.id));
      }
    }
    f, pto := ReadPto(s);
    if f.Go? && pto.Nothing? { f := Unsafe; }
  }

  /** How many approvals are still to come. */
  function ApprovalsLeft(state: LeaveState): nat {
    if state == Confirm then 2 else if state == Validate1 then 1 else 0
  }

  predicate Converted(r: Request) { r.state == Converting && r.step == PtoCreated && r.ptoId.Some? }

  /** A forward or compensating call on one leave, then the readback that decides: an error
      answer is believed only if the leave did not reach an expected state. */
  method CallAndVerify(s: Session, call: Call, id: LeaveId, kind: LeaveKind, expected: set<LeaveState>, back: bool)
    returns (f: Flow, seen: Sight, ghost answer: Answer)
    requires s.Valid()
    requires s.Sure() ==> CallPromise(s.world, call)
    modifies s`turn, s`world, s`run, s`forward, s`compensating
    ensures s.Valid()
    ensures s.forward == old(s.forward) + (if back then 0 else 1)
    ensures s.compensating == old(s.compensating) + (if back then 1 else 0)
    ensures f.Go? || f.Unsafe?
    ensures f.Go? ==> seen.Seen? && seen.id == id && seen.state in expected
    ensures f.Go? && s.honest ==> seen == SeeLeave(s.world, id, kind)
    ensures old(s.Steady()) && Possible(old(s.world), call) ==> s.Calm() && Performed(old(s.world), s.world, call, answer)
    ensures old(s.Steady()) && Possible(old(s.world), call) ==>
      var now := SeeLeave(s.world, id, kind); now.Seen? && now.state in expected ==> f.Go?
  {
    var raised: bool;
    if back {
      var r, _, a := s.MutateBack(call);
      raised, answer := r, a;
    } else {
      var r, _, a := s.MutateForward(call);
      raised, answer := r, a;
    }
    seen :- ReadLeave(s, id, kind);
    if raised && seen.state in expected {
      seen :- ReadLeave(s, id, kind);
    }
    f := if seen.state in expected then Go else Unsafe;
  }

  /** Moving the linked PTO from one active state to another keeps it the one match. */
  lemma MovedStaysOnCourse(w: World, id: LeaveId, state: LeaveState)
    requires OnCourse(w) && w.row.ptoId == Some(id) && w.row.step == PtoCreated && Active(state)
    ensures OnCourse(Moved(w, id, state)) && SeeActive(Moved(w, id, state)) == Seen(id, state)
  {
    ActiveAfterMove(w, id, state);
  }

  /** Renew, check everything again, and fence: the linked leave still is what was read. */
  method RecheckPto(s: Session, known: Sight) returns (f: Flow, pto: Sight)
    requires s.Valid() && Converted(s.request) && known.Seen?
    modifies s`turn, s`world, s`run, s`request
    ensures s.Valid() && SameWork(old(s.request), s.request)
    ensures f in {Go, StaleTransition, Unsafe, LowBalance}
    ensures f.StaleTransition? ==> !Held(s.world, s.me)
    ensures f.Go? ==> pto == Seen(s.request.ptoId.value, known.state)
    ensures f.Go? && s.Sure() ==> SolePto(s.world, pto.id) && OriginalOut(s.world)
    ensures f.Go? && s.Sure() ==> pto == SeeLeave(s.world, pto.id, PtoLeave)
    ensures old(s.Steady()) && OnCourse(old(s.world)) && known == SeeActive(old(s.world)) ==>
      (f.Go? || (f.LowBalance? && !s.Funded())) && s.Steady() && OnlyRenewed(old(s.world), s.world)
  {
    pto := known;
    :- RenewAndPreflight(s, known);
    pto :- ReadLeave(s, s.request.ptoId.value, PtoLeave);
    if pto.state != known.state { return Unsafe, pto; }
    f := Renewal(s);
  }

  /** Check again, then confirm a draft or approve what waits, and verify where it went. */
  method MovePto(s: Session, known: Sight) returns (f: Flow, pto: Sight)
    requires s.Valid() && Converted(s.request) && known.Seen? && known.state in {Draft, Confirm, Validate1}
    modifies s`turn, s`world, s`run, s`request, s`forward, s`compensating
    ensures s.Valid() && s.forward <= old(s.forward) + 1 && s.compensating == old(s.compensating)
    ensures f in {Go, StaleTransition, Unsafe, LowBalance} && SameWork(old(s.request), s.request)
    ensures f.StaleTransition? ==> !Held(s.world, s.me)
    ensures f.Go? ==> pto.Seen? && pto.id == s.request.ptoId.value && pto.state in StatesAfter(known.state)
    ensures f.Go? && s.Sure() ==> pto == SeeLeave(s.world, pto.id, PtoLeave)
    ensures old(s.Steady()) && OnCourse(old(s.world)) && known == SeeActive(old(s.world)) ==> (
      && (f.Go? || (f.LowBalance? && !s.Funded())) && s.Steady() && OnCourse(s.world)
      && (f.Go? ==> pto == SeeActive(s.world)))
  {
    pto :- RecheckPto(s, known);
    ghost var before, answer := s.world, Answer(Draft, 0);
    var call := if known.state == Draft then ConfirmLeave(pto.id) else ApproveLeave(pto.id);
    f, pto, answer := CallAndVerify(s, call, pto.id, PtoLeave, StatesAfter(known.state), false);
    if old(s.Steady()) && OnCourse(old(s.world)) && known == SeeActive(old(s.world)) {
      MovedStaysOnCourse(before, s.request.ptoId.value, answer.state);
    }
  }

  method ConfirmPto(s: Session, draft: Sight) returns (f: Flow, pto: Sight)
    requires s.Valid() && Converted(s.request) && draft.Seen? && draft.state == Draft
    modifies s`turn, s`world, s`run, s`request, s`forward, s`compensating
    ensures s.Valid() && s.forward <= old(s.forward) + 1 && s.compensating == old(s.compensating)
    ensures f in {Go, StaleTransition, Unsafe, LowBalance}
    ensures f.StaleTransition? ==> !Held(s.world, s.me)
    ensures Converted(s.request)
    ensures f.Go? ==> pto.Seen? && pto.state in {Confirm, Validate1, Validate}
    ensures f.Go? && s.Sure() ==> pto == SeeLeave(s.world, s.request.ptoId.value, PtoLeave)
    ensures old(s.Steady()) && OnCourse(old(s.world)) && draft == SeeActive(old(s.world)) ==>
      (f.Go? || (f.LowBalance? && !s.Funded())) && s.Steady() && OnCourse(s.world)
    ensures old(s.Steady()) && OnCourse(old(s.world)) && draft == SeeActive(old(s.world)) && f.Go? ==> pto == SeeActive(s.world)
  {
    pto :- MovePto(s, draft);
    f := Advance(s, Converting, PtoCreated, Unset);
  }

  function StatesAfter(state: LeaveState): set<LeaveState> {
    if state == Draft then {Confirm, Validate1, Validate}
    else if state == Confirm then {Validate1, Validate}
    else {Validate}
  }

  /** One approval: it must strictly advance the leave, and the row records the last one. */
  method ApproveOnce(s: Session, waiting: Sight) returns (f: Flow, pto: Sight)
    requires s.Valid() && Converted(s.request) && waiting.Seen? && waiting.state in {Confirm, Validate1}
    modifies s`turn, s`world, s`run, s`request, s`forward, s`compensating
    ensures s.Valid() && s.forward <= old(s.forward) + 1 && s.compensating == old(s.compensating)
    ensures f in {Go, StaleTransition, Unsafe, LowBalance}
    ensures f.StaleTransition? ==> !Held(s.world, s.me)
    ensures f.Go? ==> pto.Seen? && pto.state in StatesAfter(waiting.state) && s.request.ptoId.Some?
    ensures f.Go? && s.Sure() ==> pto == SeeLeave(s.world, s.request.ptoId.value, PtoLeave)
    ensures f.Go? ==> if pto.state == Validate then s.request.state == Converting && s.request.step == PtoApproved
                      else Converted(s.request)
    ensures !f.Go? ==> Converted(s.request)
    ensures old(s.Steady()) && OnCourse(old(s.world)) && waiting == SeeActive(old(s.world)) ==>
      (f.Go? || (f.LowBalance? && !s.Funded())) && s.Steady() && OnCourse(s.world)
    ensures old(s.Steady()) && OnCourse(old(s.world)) && waiting == SeeActive(old(s.world)) && f.Go? ==> pto == SeeActive(s.world)
  {
    pto :- MovePto(s, waiting);
    f := Advance(s, Converting, if pto.state == Validate then PtoApproved else PtoCreated, Unset);
  }

  method ApprovePto(s: Session) returns (f: Flow)
    requires s.Valid() && Converted(s.request)
    modifies s`turn, s`world, s`run, s`request, s`forward, s`compensating
    ensures s.Valid() && s.forward <= old(s.forward) + 3 && s.compensating == old(s.compensating)
    ensures f in {Go, StaleTransition, Unsafe, LowBalance}
    ensures f.StaleTransition? ==> !Held(s.world, s.me)
    ensures s.request.state == Converting && s.request.step != NotStarted
    ensures f.Go? ==> s.request.step == PtoApproved && s.request.ptoId.Some?
    ensures old(s.Steady()) && OnCourse(old(s.world)) ==> (f.Go? || (f.LowBalance? && !s.Funded())) && s.Steady() && OnCourse(s.world)
  {
    var pto: Sight;
    f, pto := ConfirmIfDraft(s);
    if !f.Go? { return; }
    pto :- ApproveSteps(s, pto);
    if pto.state != Validate { return Unsafe; }
    if s.request.step == PtoCreated {
      :- Advance(s, Converting, PtoApproved, Unset);
    }
    return Go;
  }

  /** The linked PTO, confirmed if it was a draft. */
  method ConfirmIfDraft(s: Session) returns (f: Flow, pto: Sight)
    requires s.Valid() && Converted(s.request)
    modifies s`turn, s`world, s`run, s`request, s`forward, s`compensating
    ensures s.Valid() && s.compensating == old(s.compensating) && s.forward <= old(s.forward) + 1
    ensures f in {Go, StaleTransition, Unsafe, LowBalance} && Converted(s.request)
    ensures f.StaleTransition? ==> !Held(s.world, s.me)
    ensures f.Go? ==> pto.Seen? && pto.state != Draft
    ensures f.Go? && s.Sure() ==> pto == SeeLeave(s.world, s.request.ptoId.value, PtoLeave)
    ensures old(s.Steady()) && OnCourse(old(s.world)) ==> (
      && (f.Go? || (f.LowBalance? && !s.Funded())) && s.Steady() && OnCourse(s.world)
      && (f.Go? ==> pto == SeeActive(s.world)))
  {
    f, pto := ReadLeave(s, s.request.ptoId.value, PtoLeave);
    if f.Go? && pto.state == Draft { f, pto := ConfirmPto(s, pto); }
  }

  /** The approval loop: one step after the other until none is left. */
  method ApproveSteps(s: Session, waiting: Sight) returns (f: Flow, pto: Sight)
    requires s.Valid() && Converted(s.request) && waiting.Seen?
    requires s.Sure() ==> SeeLeave(s.world, s.request.ptoId.value, PtoLeave) == waiting
    modifies s`turn, s`world, s`run, s`request, s`forward, s`compensating
    ensures s.Valid() && s.compensating == old(s.compensating)
    ensures s.forward <= old(s.forward) + ApprovalsLeft(waiting.state)
    ensures f in {Go, StaleTransition, Unsafe, LowBalance}
    ensures f.StaleTransition? ==> !Held(s.world, s.me)
    ensures s.request.state == Converting && s.request.step != NotStarted && s.request.ptoId.Some?
    ensures f.Go? ==> pto.Seen? && pto.state !in {Confirm, Validate1} && (pto.state == waiting.state || pto.state == Validate)
    ensures f.Go? ==> s.request.step == PtoCreated || (s.request.step == PtoApproved && pto.state == Validate)
    ensures f.Go? && s.request.step == PtoCreated && s.Sure() ==>
      SeeLeave(s.world, s.request.ptoId.value, PtoLeave) == pto
    ensures old(s.Steady()) && OnCourse(old(s.world)) && waiting == SeeActive(old(s.world)) ==>
      (f.Go? || (f.LowBalance? && !s.Funded())) && s.Steady() && OnCourse(s.world)
    ensures old(s.Steady()) && OnCourse(old(s.world)) && waiting == SeeActive(old(s.world)) && f.Go? ==>
      pto == SeeActive(s.world)
  {
    pto := waiting;
    while pto.state in {Confirm, Validate1}
      invariant s.Valid() && pto.Seen? && s.request.state == Converting && s.request.ptoId.Some?
      invariant pto.state == waiting.state || pto.state in {Validate1, Validate}
      invariant s.request.step == PtoCreated || (s.request.step == PtoApproved && pto.state == Validate)
      invariant s.request.step == PtoCreated && s.Sure() ==>
        SeeLeave(s.world, s.request.ptoId.value, PtoLeave) == pto
      invariant s.compensating == old(s.compensating)
      invariant old(s.Steady()) && OnCourse(old(s.world)) && waiting == SeeActive(old(s.world)) ==>
        s.Steady() && OnCourse(s.world) && pto == SeeActive(s.world)
      invariant s.forward + ApprovalsLeft(pto.state) <= old(s.forward) + ApprovalsLeft(waiting.state)
      decreases ApprovalsLeft(pto.state)
    {
      pto :- ApproveOnce(s, pto);
    }
    return Go, pto;
  }

  /** Somebody else has changed the attendance row that the finished conversion was to take over. */
  predicate LinkChanged(w: World) {
    w.row.state == Converting && w.row.step == PtoApproved && w.absence != Recorded(w.row.originalId)
  }

  /** Settle locally: the approved PTO, the link and the row in one transaction. */
  method Finalize(s: Session) returns (f: Flow)
    requires s.Valid() && s.request.state == Converting && s.request.step == PtoApproved && s.request.ptoId.Some?
    modifies s`turn, s`world, s`run, s`request
    ensures s.Valid()
    ensures f in {StaleTransition, Unsafe, LowBalance, Return(WasApproved)}
    ensures f.StaleTransition? ==> !Held(s.world, s.me) || LinkChanged(s.world)
    ensures f.Return? ==> s.request.state == Approved
    ensures f.Return? && s.honest ==> Settled(s.world)
    ensures !f.Return? ==> s.request.state == Converting && s.request.step == PtoApproved
    ensures old(s.Steady()) && OnCourse(old(s.world)) ==> f == Return(WasApproved) || (f.LowBalance? && !s.Funded() && s.Steady() && OnCourse(s.world))
    ensures f.Return? ==> exists k: nat :: PayOpen(s.env(k))
    ensures old(s.Steady()) && OnCourse(old(s.world)) ==> s.Steady()
  {
    var pto: Sight;
    f, pto := RecheckApproved(s);
    if !f.Go? { return; }
    var ok := s.Commit(FinalizeApproved(s.me, s.request.originalId, pto.id));
    f := if ok then Return(WasApproved) else if Held(s.world, s.me) then StaleTransition else Unsafe;
  }

  /** Renew and check everything again around the approved PTO. */
  method RecheckApproved(s: Session) returns (f: Flow, pto: Sight)
    requires s.Valid() && s.request.state == Converting && s.request.step == PtoApproved && s.request.ptoId.Some?
    modifies s`turn, s`world, s`run, s`request
    ensures s.Valid() && SameWork(old(s.request), s.request)
    ensures f in {Go, StaleTransition, Unsafe, LowBalance}
    ensures f.StaleTransition? ==> !Held(s.world, s.me)
    ensures f.Go? ==> pto == Seen(s.request.ptoId.value, Validate)
    ensures f.Go? && s.Sure() ==> SoleValidated(s.world, pto.id) && OriginalOut(s.world)
    ensures old(s.Steady()) && OnCourse(old(s.world)) ==>
      (f.Go? || (f.LowBalance? && !s.Funded())) && s.Steady() && OnlyRenewed(old(s.world), s.world)
    ensures f.Go? ==> exists k: nat :: PayOpen(s.env(k))
  {
    f, pto := ReadLeave(s, s.request.ptoId.value, PtoLeave);
    if !f.Go? { return; }
    :- RenewAndPreflight(s, pto);
    pto :- ReadLeave(s, s.request.ptoId.value, PtoLeave);
    f := if pto.state == Validate then Go else Unsafe;
  }

  // ---- compensation ---------------------------------------------------------------

  /** The facts compensation needs: the attendance row links the original, which exists, and at most
      one PTO is active, the linked one if there is a link. */
  predicate Recoverable(w: World) {
    var active := SeeActive(w);
    && w.row.state == Converting && w.absence == Recorded(w.row.originalId)
    && (w.row.originalId.Some? ==> SeeLeave(w, w.row.originalId.value, AbsenceLeave).Seen?)
    && !active.Doubtful?
    && (w.row.ptoId.Some? ==>
          SeeLeave(w, w.row.ptoId.value, PtoLeave).Seen? && (active.Seen? ==> active.id == w.row.ptoId.value))
  }

  /** No PTO is active any more; only the original is left to restore. */
  predicate Clean(w: World) { Recoverable(w) && SeeActive(w).Nothing? }

  /** The original is as given, and the call can take it to the expected states. */
  predicate Movable(w: World, from: Sight, call: Call, expected: set<LeaveState>) {
    && Clean(w) && from == SeeOriginal(w, w.row) && from.Seen? && Possible(w, call)
    && (if call.ResetLeave? then {Confirm} else StatesAfter(from.state)) <= expected
  }

  /** The original is as given, on its way to approval or there. */
  predicate Approvable(w: World, o: Sight) {
    Clean(w) && o == SeeOriginal(w, w.row) && o.Seen? && o.state in {Confirm, Validate1, Validate}
  }

  /** The PTO there is can still be closed. */
  predicate Closable(w: World) {
    SeeActive(w).Nothing? || (SeeActive(w).Seen? && SeeActive(w).state in {Draft, Confirm, Validate1})
  }

  lemma ActiveIsSeen(w: World, id: LeaveId)
    requires SeeLeave(w, id, PtoLeave).Seen? && Active(w.leaves[id].state)
    ensures !SeeActive(w).Nothing? && (SeeActive(w).Seen? ==> SeeActive(w).id == id)
  {
    assert id in ActivePto(w.leaves);
  }

  /** All active matches, whatever the row links. */
  method ReadActive(s: Session) returns (f: Flow, active: Sight)
    requires s.Valid()
    modifies s`turn, s`world, s`run
    ensures s.Valid() && Drift(s.me, old(s.world), s.world)
    ensures (f.Go? || f.Unsafe?) && (f.Go? ==> !active.Doubtful?)
    ensures f.Go? && s.honest ==> active == SeeActive(s.world)
    ensures s.Calm() ==> s.world == old(s.world) && (!SeeActive(s.world).Doubtful? ==> f.Go?)
  {
    var now := s.Wait();
    active := if !s.honest && now.told.Some? then now.told.value else SeeActive(s.world);
    f := if now.readFails || active.Doubtful? then Unsafe else Go;
  }

  /** `_recovery_view`: every identity and link that compensation depends on. */
  method RecoveryView(s: Session) returns (f: Flow, original: Sight, active: Sight)
    requires s.Valid()
    modifies s`turn, s`world, s`run
    ensures s.Valid() && Drift(s.me, old(s.world), s.world)
    ensures f.Go? || f.Unsafe?
    ensures f.Go? ==> !original.Doubtful? && !active.Doubtful?
    ensures f.Go? && s.Sure() ==>
      original == SeeOriginal(s.world, s.request) && active == SeeActive(s.world)
    ensures s.Calm() ==> s.world == old(s.world)
    ensures old(s.Steady()) && Recoverable(old(s.world)) ==> f.Go?
  {
    original, active := Nothing, Nothing;
    :- CheckLocal(s, s.request.originalId);
    original :- ReadOriginal(s);
    f, active := ReadActive(s);
    if !f.Go? { return; }
    if s.request.ptoId.Some? {
      var known :- ReadLeave(s, s.request.ptoId.value, PtoLeave);
      if s.honest && Active(known.state) { ActiveIsSeen(s.world, known.id); }
      if Active(known.state) && (active.Nothing? || active.id != known.id) { return Unsafe, original, active; }
    }
    f := Go;
  }

  /** `_recovery_step_fence`: store the same step again, only for the current owner. */
  method StepFence(s: Session) returns (f: Flow)
    requires s.Valid() && s.request.state == Converting
    modifies s`turn, s`world, s`run, s`request
    ensures s.Valid() && Kept(s.me, old(s.world), s.world)
    ensures f.Go? || f.StaleTransition?
    ensures f.StaleTransition? ==> !Held(s.world, s.me)
    ensures SameWork(old(s.request), s.request)
    ensures old(s.Steady()) ==> f.Go? && s.Steady() && s.world == old(s.world)
  {
    f := Advance(s, Converting, s.request.step,
                 if s.request.ptoId.Some? then Set(s.request.ptoId.value) else Unset);
  }

  /** Link the unlinked PTO that recovery found. */
  method AdoptForRecovery(s: Session, pto: Sight) returns (f: Flow)
    requires s.Valid() && s.request.state == Converting && pto.Seen?
    requires s.Sure() ==> pto == SeeActive(s.world)
    modifies s`turn, s`world, s`run, s`request
    ensures s.Valid() && s.request.state == Converting
    ensures f in {Go, StaleTransition, Unsafe}
    ensures f.StaleTransition? ==> !Held(s.world, s.me)
    ensures f.Go? ==> s.request.ptoId == Some(pto.id)
    ensures old(s.Steady()) && Recoverable(old(s.world)) && pto == SeeActive(old(s.world)) ==>
      f.Go? && s.Steady() && s.world == old(s.world).(row := old(s.world.row).(ptoId := Some(pto.id)))
  {
    if s.request.ptoId.Some? {
      return if s.request.ptoId.value == pto.id then Go else Unsafe;
    }
    if s.honest { s.Reachable(); }
    f := Advance(s, Converting, s.request.step, Set(pto.id));
  }

  /** Closing the one active PTO leaves none. */
  lemma ClosedIsRecoverable(w: World, id: LeaveId)
    requires Recoverable(w) && SeeActive(w).Seen? && SeeActive(w).id == id && w.row.ptoId == Some(id)
    ensures var after := Moved(w, id, Refuse);
      Recoverable(after) && SeeActive(after).Nothing? && SeeOriginal(after, after.row) == SeeOriginal(w, w.row)
  {
    ActiveAfterMove(w, id, Refuse);
  }

  /** Close a PTO that was created but not approved; an approved one is never touched. */
  method CloseIncompletePto(s: Session) returns (f: Flow)
    requires s.Valid() && s.request.state == Converting
    modifies s`turn, s`world, s`run, s`request, s`forward, s`compensating
    ensures s.Valid() && s.forward == old(s.forward) && s.compensating <= old(s.compensating) + 1
    ensures f in {Go, StaleTransition, Unsafe}
    ensures f.StaleTransition? ==> !Held(s.world, s.me)
    ensures f.Go? && s.Sure() ==> ActivePto(s.world.leaves) == {}
    ensures s.request.state == Converting
    ensures old(s.Steady()) && Recoverable(old(s.world)) ==> s.Steady() && Recoverable(s.world)
    ensures old(s.Steady()) && Recoverable(old(s.world)) && Closable(old(s.world)) ==> f.Go? && SeeActive(s.world).Nothing?
    ensures old(s.Steady()) && Recoverable(old(s.world)) && !Closable(old(s.world)) ==> f.Unsafe? && !Closable(s.world)
    ensures old(s.Steady()) && Recoverable(old(s.world)) ==> SeeOriginal(s.world, s.world.row) == SeeOriginal(old(s.world), old(s.world.row))
  {
    var _, active :- RecoveryView(s);
    if active.Nothing? { return Go; }
    :- AdoptForRecovery(s, active);
    if active.state !in {Draft, Confirm, Validate1} { return Unsafe; }
    :- RefuseIncomplete(s, active);
    var _, left :- RecoveryView(s);
    f := if left.Nothing? then Go else Unsafe;
  }

  /** Refuse the unapproved PTO and verify that it is closed. */
  method RefuseIncomplete(s: Session, active: Sight) returns (f: Flow)
    requires s.Valid() && s.request.state == Converting
    requires active.Seen? && active.state in {Draft, Confirm, Validate1} && s.request.ptoId == Some(active.id)
    modifies s`turn, s`world, s`run, s`request, s`forward, s`compensating
    ensures s.Valid() && s.forward == old(s.forward) && s.compensating <= old(s.compensating) + 1
    ensures f in {Go, StaleTransition, Unsafe} && SameWork(old(s.request), s.request)
    ensures f.StaleTransition? ==> !Held(s.world, s.me)
    ensures old(s.Steady()) && Recoverable(old(s.world)) && active == SeeActive(old(s.world)) ==> (
      && f.Go? && s.Steady() && Clean(s.world)
      && SeeOriginal(s.world, s.world.row) == SeeOriginal(old(s.world), old(s.world.row)))
  {
    f := FenceIncomplete(s, active);
    if !f.Go? { return; }
    if old(s.Steady()) && Recoverable(old(s.world)) && active == SeeActive(old(s.world)) {
      ClosedIsRecoverable(s.world, active.id);
    }
    var _, _ :- CallAndVerify(s, RefuseLeave(active.id), active.id, PtoLeave, {Cancel, Refuse}, true);
    f := StepFence(s);
  }

  /** Renew, look again, and fence the refusal of an unapproved PTO. */
  method FenceIncomplete(s: Session, active: Sight) returns (f: Flow)
    requires s.Valid() && s.request.state == Converting
    requires active.Seen? && active.state in {Draft, Confirm, Validate1} && s.request.ptoId == Some(active.id)
    modifies s`turn, s`world, s`run, s`request
    ensures s.Valid() && SameWork(old(s.request), s.request)
    ensures f in {Go, StaleTransition, Unsafe}
    ensures f.StaleTransition? ==> !Held(s.world, s.me)
    ensures f.Go? && s.Sure() ==> CallPromise(s.world, RefuseLeave(active.id))
    ensures old(s.Steady()) && Recoverable(old(s.world)) && active == SeeActive(old(s.world)) ==>
      f.Go? && s.Steady() && OnlyRenewed(old(s.world), s.world)
  {
    f := Renewal(s);
    if !f.Go? { return; }
    var _, again :- RecoveryView(s);
    if again != active { return Unsafe; }
    f := Renewal(s);
    if s.honest { s.Reachable(); }
  }

  /** Moving the original leaves the PTO matches as they are. */
  lemma MovedOriginalIsRecoverable(w: World, id: LeaveId, state: LeaveState)
    requires Recoverable(w) && w.row.originalId == Some(id) && SeeActive(w).Nothing?
    ensures var after := Moved(w, id, state);
      Recoverable(after) && SeeActive(after).Nothing? && SeeOriginal(after, after.row) == Seen(id, state)
  {
    ActiveAfterMove(w, id, state);
  }

  /** One compensating call on the original absence, with nothing else active. */
  method MoveOriginal(s: Session, from: Sight, call: Call, expected: set<LeaveState>)
    returns (f: Flow, moved: Sight)
    requires s.Valid() && s.request.state == Converting && from.Seen? && s.request.originalId == Some(from.id)
    requires call == ResetLeave(from.id) || call == ApproveLeave(from.id)
    modifies s`turn, s`world, s`run, s`request, s`forward, s`compensating
    ensures s.Valid() && s.forward == old(s.forward) && s.compensating <= old(s.compensating) + 1
    ensures f in {Go, StaleTransition, Unsafe}
    ensures f.StaleTransition? ==> !Held(s.world, s.me)
    ensures SameWork(old(s.request), s.request)
    ensures f.Go? ==> moved.Seen? && moved.id == from.id && moved.state in expected
    ensures old(s.Steady()) && Movable(old(s.world), from, call, expected) ==>
      f.Go? && s.Steady() && Clean(s.world) && moved == SeeOriginal(s.world, s.world.row)
  {
    moved := from;
    :- Renewal(s);
    var original, active :- RecoveryView(s);
    if active.Seen? || original != from { return Unsafe, moved; }
    :- Renewal(s);
    ghost var before, answer := s.world, Answer(Draft, 0);
    moved, answer :- CallAndVerify(s, call, from.id, AbsenceLeave, expected, true);
    if old(s.Steady()) && Movable(old(s.world), from, call, expected) {
      MovedOriginalIsRecoverable(before, from.id, if call.ResetLeave? then Confirm else answer.state);
    }
    f := StepFence(s);
  }

  /** Approve the reset original step by step. */
  method ApproveAgain(s: Session, reset: Sight) returns (f: Flow)
    requires s.Valid() && s.request.state == Converting
    requires reset.Seen? && s.request.originalId == Some(reset.id)
    modifies s`turn, s`world, s`run, s`request, s`forward, s`compensating
    ensures s.Valid() && s.forward == old(s.forward)
    ensures s.compensating <= old(s.compensating) + ApprovalsLeft(reset.state)
    ensures f in {Go, StaleTransition, Unsafe}
    ensures f.StaleTransition? ==> !Held(s.world, s.me)
    ensures s.request.state == Converting
    ensures old(s.Steady()) && Approvable(old(s.world), reset) ==>
      f.Go? && s.Steady() && Clean(s.world) && SeeOriginal(s.world, s.world.row) == Seen(reset.id, Validate)
  {
    var original := reset;
    while original.state in {Confirm, Validate1}
      invariant s.Valid() && s.request.state == Converting && s.forward == old(s.forward)
      invariant original.Seen? && s.request.originalId == Some(original.id)
      invariant s.compensating + ApprovalsLeft(original.state) <= old(s.compensating) + ApprovalsLeft(reset.state)
      invariant old(s.Steady()) && Approvable(old(s.world), reset) ==>
        s.Steady() && Approvable(s.world, original) && original.id == reset.id
      decreases ApprovalsLeft(original.state)
    {
      original :- MoveOriginal(s, original, ApproveLeave(original.id), StatesAfter(original.state));
    }
    return Go;
  }

  /** A refused or cancelled original is reset. */
  method ResetIfOut(s: Session, original: Sight) returns (f: Flow, reset: Sight)
    requires s.Valid() && s.request.state == Converting
    requires original.Seen? && s.request.originalId == Some(original.id)
    modifies s`turn, s`world, s`run, s`request, s`forward, s`compensating
    ensures s.Valid() && s.forward == old(s.forward) && SameWork(old(s.request), s.request)
    ensures f in {Go, StaleTransition, Unsafe}
    ensures f.StaleTransition? ==> !Held(s.world, s.me)
    ensures s.compensating <= old(s.compensating) + 1
    ensures f.Go? ==> reset.Seen? && reset.id == original.id
    ensures old(s.Steady()) && Restorable(old(s.world)) && original == SeeOriginal(old(s.world), old(s.world.row)) ==>
      f.Go? && s.Steady() && Approvable(s.world, reset)
  {
    reset := original;
    f := Go;
    if original.state in {Refuse, Cancel} {
      f, reset := MoveOriginal(s, original, ResetLeave(original.id), {Confirm, Validate1, Validate});
    }
  }

  /** There is no original, or it is in any state but draft. */
  predicate Restorable(w: World) {
    Clean(w) && OriginalNotDraft(w)
  }

  predicate OriginalNotDraft(w: World) {
    var o := SeeOriginal(w, w.row); o.Seen? ==> o.state != Draft
  }

  method RestoreOriginal(s: Session) returns (f: Flow)
    requires s.Valid() && s.request.state == Converting
    modifies s`turn, s`world, s`run, s`request, s`forward, s`compensating
    ensures s.Valid() && s.forward == old(s.forward) && s.compensating <= old(s.compensating) + 3
    ensures f in {Go, StaleTransition, Unsafe}
    ensures f.StaleTransition? ==> !Held(s.world, s.me)
    ensures s.request.state == Converting
    ensures f.Go? && s.Sure() ==> Restored(s.world)
    ensures old(s.Steady()) && Restorable(old(s.world)) ==> f.Go? && s.Steady() && s.world.row.state == Converting
  {
    var original, active :- RecoveryView(s);
    if active.Seen? { return Unsafe; }
    if s.request.originalId.None? { return Go; }
    if original.Nothing? || original.id != s.request.originalId.value { return Unsafe; }
    original :- ResetIfOut(s, original);
    if original.state !in {Confirm, Validate1, Validate} { return Unsafe; }
    :- ApproveAgain(s, original);
    original, active :- RecoveryView(s);
    f := if active.Nothing? && original.Seen? && original.state == Validate then Go else Unsafe;
  }

  method Compensate(s: Session) returns (r: Status)
    requires s.Valid() && s.request.state == Converting
    modifies s`turn, s`world, s`run, s`request, s`forward, s`compensating
    ensures s.Valid() && s.forward == old(s.forward) && s.compensating <= old(s.compensating) + 4
    ensures r == WasPending ==> s.request == s.world.row && s.request.state == Pending
    ensures r == WasPending && s.honest ==> Restored(s.world)
    ensures r == WasReview ==> s.world.row.state == NeedsReview && s.request.state == NeedsReview
    ensures r in {WasPending, WasReview, WasBusy}
    ensures r == WasBusy ==> !Held(s.world, s.me)
    ensures old(s.Steady()) && Recoverable(old(s.world)) && OriginalNotDraft(old(s.world)) ==>
      if Closable(old(s.world)) then r == WasPending else r == WasReview && !Closable(s.world)
    ensures old(s.Steady()) && Recoverable(old(s.world)) && OriginalNotDraft(old(s.world)) ==> s.Steady()
  {
    var f := CloseIncompletePto(s);
    if f.Go? { f := RestoreOriginal(s); }
    if f.Go? { f := CommitPending(s); }
    if f.Return? { return f.status; }
    if f.StaleTransition? { return WasBusy; }
    r := HandToReview(s);
  }

  // ---- one claim ------------------------------------------------------------------

  method AlreadyApproved(s: Session) returns (f: Flow)
    requires s.Valid() && s.request.state == Approved
    modifies s`turn, s`world, s`run
    ensures s.Valid()
    ensures f in {Unsafe, Return(WasReview), Return(WasApproved)}
    ensures f == Return(WasApproved) ==> s.request.ptoId.Some?
    ensures f == Return(WasApproved) && s.Sure() ==> SoleValidated(s.world, s.request.ptoId.value)
    ensures old(s.run.worlds) <= s.run.worlds
    ensures f == Return(WasApproved) ==>
      exists w :: w in s.run.worlds[|old(s.run.worlds)| - 1..] && w.absence == Recorded(s.request.ptoId)
  {
    if s.request.ptoId.None? { return Return(WasReview); }
    var now := s.Wait();
    if now.readFails || s.world.absence.Missing? { return Unsafe; }
    if s.world.absence.leave != s.request.ptoId { return Return(WasReview); }
    var pto :- ReadPto(s);
    f := Return(if pto.Seen? && pto.id == s.request.ptoId.value && pto.state == Validate then WasApproved else WasReview);
  }

  /** The whole guarded body of `_resume_claim`, before its exception handlers. */
  method Convert(s: Session) returns (f: Flow, touched: bool)
    requires s.Valid() && RowInv(s.request)
    modifies s`turn, s`world, s`run, s`request, s`forward, s`compensating
    ensures s.Valid() && s.forward <= old(s.forward) + 5 && s.compensating == old(s.compensating)
    ensures !f.Go? && f != Return(WasBusy)
    ensures f.StaleTransition? ==> !Held(s.world, s.me) || LinkChanged(s.world)
    ensures f == Return(WasApproved) && old(s.request.state) != Approved && s.honest ==> Settled(s.world)
    ensures f == Return(WasApproved) ==> s.request.state == Approved
    ensures f == Return(WasPending) ==> s.request.state == Pending
    ensures f == Return(WasPending) && s.honest ==> Restored(s.world)
    ensures f == Return(WasReview) ==> s.request.state in {Approved, NeedsReview}
    ensures f.LowBalance? ==> s.request.state in {Pending, Converting}
    ensures f.LowBalance? && (s.request.step != NotStarted || touched) ==> s.request.state == Converting
    ensures old(s.Steady()) && OnCourse(old(s.world)) && old(s.request.state) in {Pending, Converting} ==>
      f == Return(WasApproved) || (f.LowBalance? && !s.Funded() && s.Steady() && OnCourse(s.world))
    ensures f == Return(WasApproved) && old(s.request.state) != Approved ==> exists k: nat :: PayOpen(s.env(k))
    ensures old(s.Steady()) && OnCourse(old(s.world)) && old(s.request.state) in {Pending, Converting} ==> s.Steady()
    ensures (f.LowBalance? || f.Unsafe?) && !touched && s.request.step == NotStarted ==> s.forward == old(s.forward)
    ensures f == Return(WasApproved) && old(s.request.state) != Approved && old(s.request.ptoId).None? ==> exists k: nat :: s.env(k).available >= 1.0
  {
    touched := s.request.step != NotStarted;
    if s.request.state == Approved {
      f := AlreadyApproved(s);
      return;
    }
    if s.request.state == NeedsReview { return Return(WasReview), touched; }
    if s.request.state !in {Pending, Converting} { return Unsafe, touched; }
    f, touched := StartConversion(s);
    if !f.Go? { return; }
    f := ConvertRefused(s);
  }

  /** Whether an earlier claim has refused the original, as the row or Odoo shows. */
  method RefusedBefore(s: Session) returns (f: Flow, refused: bool)
    requires s.Valid()
    modifies s`turn, s`world, s`run
    ensures s.Valid() && Drift(s.me, old(s.world), s.world)
    ensures f.Go? || f.Unsafe?
    ensures s.request.step != NotStarted ==> refused
    ensures f.Go? && s.Sure() && s.request.state == Converting && s.request.step == NotStarted ==>
      (refused <==> SeeOriginal(s.world, s.request).Seen? && SeeOriginal(s.world, s.request).state == Refuse)
    ensures s.request.state == Pending && s.request.step == NotStarted ==> !refused
    ensures s.Calm() ==> s.world == old(s.world)
    ensures old(s.Steady()) && OnCourse(old(s.world)) ==> f.Go?
  {
    refused := s.request.step != NotStarted;
    f := Go;
    if s.request.state == Converting && s.request.step == NotStarted && s.request.originalId.Some? {
      var original: Sight;
      f, original := ReadOriginal(s);
      if !f.Go? { return; }
      refused := original.state == Refuse;
    }
  }

  /** The steps up to the refusal of the original absence. */
  method StartConversion(s: Session) returns (f: Flow, touched: bool)
    requires s.Valid() && s.request.state in {Pending, Converting} && RowInv(s.request)
    modifies s`turn, s`world, s`run, s`request, s`forward, s`compensating
    ensures s.Valid() && s.forward <= old(s.forward) + 1 && s.compensating == old(s.compensating)
    ensures f in {Go, StaleTransition, Unsafe, LowBalance, Return(WasPending)}
    ensures f.StaleTransition? ==> !Held(s.world, s.me)
    ensures f.Go? ==> s.request.state == Converting && s.request.step != NotStarted
    ensures f.Return? ==> s.request == s.world.row && s.request.state == Pending
    ensures f.Return? && s.honest ==> Restored(s.world)
    ensures f.LowBalance? ==> s.request.state in {Pending, Converting}
    ensures f.LowBalance? && (s.request.step != NotStarted || touched) ==> s.request.state == Converting
    ensures old(s.Steady()) && OnCourse(old(s.world)) ==> (f.Go? || (f.LowBalance? && !s.Funded())) && s.Steady() && OnCourse(s.world)
    ensures !touched ==> s.forward == old(s.forward)
    ensures f.Go? && old(s.request.ptoId).None? ==> exists k: nat :: s.env(k).available >= 1.0
  {
    f, touched := RefusedBefore(s);
    if !f.Go? { return; }
    f, touched := BeginConversion(s, touched);
  }

  /** Preflight, and take a pending request over. */
  method TakeOver(s: Session) returns (f: Flow)
    requires s.Valid() && s.request.state in {Pending, Converting} && RowInv(s.request)
    modifies s`turn, s`world, s`run, s`request
    ensures s.Valid() && f in {Go, StaleTransition, Unsafe, LowBalance}
    ensures f.StaleTransition? ==> !Held(s.world, s.me)
    ensures s.request.state in {Pending, Converting} && s.request.step == old(s.request.step)
    ensures f.Go? || old(s.request.state) == Converting ==> s.request.state == Converting
    ensures old(s.Steady()) && OnCourse(old(s.world)) ==>
      (f.Go? || (f.LowBalance? && !s.Funded())) && s.Steady() && OnCourse(s.world)
    ensures f.Go? && old(s.request.ptoId).None? ==> exists k: nat :: s.env(k).available >= 1.0
  {
    f := Preflight(s, Nothing);
    if !f.Go? { return; }
    if s.request.state == Pending {
      f := Advance(s, Converting, NotStarted, Unset);
    }
  }

  /** Preflight, take the request over, and refuse the original. */
  method BeginConversion(s: Session, wasRefused: bool) returns (f: Flow, touched: bool)
    requires s.Valid() && s.request.state in {Pending, Converting} && RowInv(s.request)
    requires s.request.step != NotStarted ==> wasRefused
    requires wasRefused ==> s.request.state == Converting
    modifies s`turn, s`world, s`run, s`request, s`forward, s`compensating
    ensures s.Valid() && s.forward <= old(s.forward) + 1 && s.compensating == old(s.compensating)
    ensures f in {Go, StaleTransition, Unsafe, LowBalance, Return(WasPending)}
    ensures f.StaleTransition? ==> !Held(s.world, s.me)
    ensures f.Go? ==> s.request.state == Converting && s.request.step != NotStarted
    ensures f.Return? ==> s.request == s.world.row && s.request.state == Pending
    ensures f.Return? && s.honest ==> Restored(s.world)
    ensures f.LowBalance? ==> s.request.state in {Pending, Converting}
    ensures f.LowBalance? && (s.request.step != NotStarted || touched) ==> s.request.state == Converting
    ensures old(s.Steady()) && OnCourse(old(s.world)) ==> (f.Go? || (f.LowBalance? && !s.Funded())) && s.Steady() && OnCourse(s.world)
    ensures !touched ==> s.forward == old(s.forward)
    ensures wasRefused ==> touched
    ensures f.Go? && old(s.request.ptoId).None? ==> exists k: nat :: s.env(k).available >= 1.0
  {
    touched := wasRefused;
    f := TakeOver(s);
    if !f.Go? { return; }
    if s.request.step == NotStarted {
      f, touched := RefuseOriginal(s, touched);
    }
  }

  /** The steps after the original absence is out. */
  method ConvertRefused(s: Session) returns (f: Flow)
    requires s.Valid() && s.request.state == Converting && s.request.step != NotStarted
    modifies s`turn, s`world, s`run, s`request, s`forward, s`compensating
    ensures s.Valid() && s.forward <= old(s.forward) + 4 && s.compensating == old(s.compensating)
    ensures f in {StaleTransition, Unsafe, LowBalance, Return(WasApproved)}
    ensures f.StaleTransition? ==> !Held(s.world, s.me) || LinkChanged(s.world)
    ensures f.Return? ==> s.request.state == Approved
    ensures f.Return? && s.honest ==> Settled(s.world)
    ensures !f.Return? ==> s.request.state == Converting && s.request.step != NotStarted
    ensures old(s.Steady()) && OnCourse(old(s.world)) ==> f == Return(WasApproved) || (f.LowBalance? && !s.Funded() && s.Steady() && OnCourse(s.world))
    ensures f.Return? ==> exists k: nat :: PayOpen(s.env(k))
    ensures old(s.Steady()) && OnCourse(old(s.world)) ==> s.Steady()
  {
    if s.request.step == AbsenceRefused {
      :- CreateOrAdoptPto(s);
    }
    if s.request.ptoId.None? { return Unsafe; }
    if s.request.step == PtoCreated {
      :- ApprovePto(s);
    }
    f := Finalize(s);
  }

  method PendingForLowBalance(s: Session) returns (r: Status)
    requires s.Valid()
    modifies s`turn, s`world, s`run, s`request
    ensures s.Valid()
    ensures r == WasPending || r == WasBusy
    ensures r == WasBusy ==> !Held(s.world, s.me)
    ensures r == WasPending && (old(s.request.state) == Pending || old(s.request.step) == NotStarted) ==>
      s.request.state == (if old(s.request.state) == Converting then Pending else old(s.request.state))
    ensures old(s.Steady()) ==> r == WasPending
    ensures old(s.Steady()) ==> s.Steady()
  {
    if s.request.state == Converting && s.request.step == NotStarted {
      var f := Advance(s, Pending, NotStarted, Unset);
      if !f.Go? { return WasBusy; }
    }
    return WasPending;
  }

  /** One claim terminates after at most nine leave mutations, whatever Odoo answers and
      whatever other owners do, even if its reads of leaves are untrue; told the truth, an approval
      it reports is settled.  A claim that keeps its lease leaves the conversion open, as busy, only
      when somebody else changed the attendance row of a finished one. */
  method ResumeClaim(s: Session) returns (r: Status)
    requires s.Valid() && RowInv(s.request)
    modifies s`turn, s`world, s`run, s`request, s`forward, s`compensating
    ensures s.Valid()
    ensures s.forward <= old(s.forward) + 5 && s.compensating <= old(s.compensating) + 4
    ensures r == WasApproved && old(s.request.state) != Approved && s.honest ==> Settled(s.world)
    ensures r == WasApproved ==> s.request.state == Approved
    ensures r == WasPending ==> s.request.state == Pending
    ensures r == WasReview ==> s.request.state !in {Pending, Converting}
    ensures r == WasBusy ==> !Held(s.world, s.me) || LinkChanged(s.world)
    ensures Held(s.world, s.me) && s.world.row.state == Converting ==> r == WasBusy && LinkChanged(s.world)
    ensures old(s.Steady()) && OnCourse(old(s.world)) && s.Funded() ==> r == WasApproved
    ensures old(s.Steady()) && OnCourse(old(s.world)) ==>
      r == WasApproved || (!s.Funded() && (r == WasPending || (r == WasReview && !Closable(s.world))))
    ensures r == WasApproved && old(s.request.state) != Approved ==> exists k: nat :: PayOpen(s.env(k))
    ensures old(s.Steady()) && OnCourse(old(s.world)) ==> s.Steady()
    ensures r == WasPending && s.forward > old(s.forward) && s.honest ==> Restored(s.world)
    ensures r == WasApproved && old(s.request.state) != Approved && old(s.request.ptoId).None? ==> exists k: nat :: s.env(k).available >= 1.0
  {
    var f, touched := Convert(s);
    match f
    case Return(status) => return status;
    case StaleTransition => return WasBusy;
    case LowBalance =>
      if s.request.step == NotStarted && !touched {
        r := PendingForLowBalance(s);
      } else {
        r := Compensate(s);
      }
    case Unsafe =>
      if s.request.state == Converting && (s.request.step != NotStarted || touched) {
        r := Compensate(s);
      } else {
        r := HandToReview(s);
      }
  }

  /** Work on the claimed request and release it.  `after` is the world in which the status was decided. */
  method WorkAndRelease(s: Session) returns (r: Status, ghost after: World)
    requires s.Valid() && RowInv(s.request) && Held(s.world, s.me)
    modifies s`turn, s`world, s`run, s`request, s`forward, s`compensating
    ensures s.Valid() && s.forward <= old(s.forward) + 5 && s.compensating <= old(s.compensating) + 4
    ensures after in s.run.worlds
    ensures r == WasBusy ==> !Held(after, s.me) || LinkChanged(after)
    ensures r == WasApproved && Held(after, s.me) ==> after.row.state == Approved
    ensures r == WasApproved && s.honest && old(s.request.state) != Approved ==> Settled(after)
    ensures r == WasPending && Held(after, s.me) ==> after.row.state == Pending
    ensures r == WasReview && Held(after, s.me) ==> after.row.state !in {Pending, Converting}
    ensures s.Calm() && OnCourse(old(s.world)) ==> s.world.row.lease.None?
    ensures s.Calm() && OnCourse(old(s.world)) && s.Funded() ==> r == WasApproved
    ensures r == WasApproved && old(s.request.state) != Approved ==> exists k: nat :: PayOpen(s.env(k))
    ensures r == WasApproved && old(s.request.state) != Approved && old(s.request.ptoId).None? ==> exists k: nat :: s.env(k).available >= 1.0
  {
    r := ResumeClaim(s);
    after := s.world;
    assert after in s.run.worlds;
    var _ := s.Commit(Release(s.me));
  }

  /** `approve`: claim any reachable request under a fresh owner, work, release. */
  method Approve(w: World, owner: Owner, env: nat -> Turn, honest: bool)
    returns (r: Status, s: Session, ghost after: World)
    requires Inv(w)
    ensures fresh(s) && s.me == owner && s.honest == honest && s.env == env && s.Valid()
    ensures s.forward <= 5 && s.compensating <= 4
    ensures !Accepts(w.row, Claim(owner), w.clock) ==> r == WasBusy && s.world == w
    ensures Accepts(w.row, Claim(owner), w.clock) ==> s.origin == Apply(w, Store(Claim(owner))) && after in s.run.worlds
    ensures Accepts(w.row, Claim(owner), w.clock) && r == WasBusy ==> !Held(after, owner) || LinkChanged(after)
    ensures r == WasApproved && Held(after, owner) ==> after.row.state == Approved
    ensures r == WasApproved && honest && w.row.state != Approved ==> Settled(after)
    ensures r == WasPending && Held(after, owner) ==> after.row.state == Pending
    ensures r == WasReview && Held(after, owner) ==> after.row.state !in {Pending, Converting}
    ensures Accepts(w.row, Claim(owner), w.clock) && s.Calm() && OnCourse(w) ==> s.world.row.lease.None?
    ensures Accepts(w.row, Claim(owner), w.clock) && honest && OnCourse(w) && r != WasApproved ==>
      exists k: nat :: !QuietTurn(env(k)) || env(k).available < 1.0
    ensures r == WasApproved && w.row.state != Approved ==> exists k: nat :: PayOpen(env(k))
    ensures r == WasApproved && w.row.state != Approved && w.row.ptoId.None? ==> exists k: nat :: env(k).available >= 1.0
  {
    s := new Session.Claim(w, owner, env, honest);
    after := w;
    if !Held(s.world, owner) { return WasBusy, s, after; }
    ClaimStaysOnCourse(w, owner);
    r, after := WorkAndRelease(s);
    assert honest && (forall k: nat :: QuietTurn(env(k)) && env(k).available >= 1.0) ==> s.Calm() && s.Funded();
  }

  lemma ClaimStaysOnCourse(w: World, owner: Owner)
    requires Enabled(w, Store(Claim(owner)))
    ensures OnCourse(w) ==> OnCourse(Apply(w, Store(Claim(owner))))
  {
  }
}
