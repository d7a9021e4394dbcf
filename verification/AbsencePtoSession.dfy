/** One lease owner's view of a run: between any two of its own effects, any number of
    other owners may act.  What the owner has read stays true exactly as long as it holds
    the lease; once lost, the lease never comes back. */
module AbsencePtoSession {
  import opened Prelude
  import opened AbsencePtoStore
  import opened AbsencePtoWorld

  /** The fate of one remote mutation. */
  datatype Outcome = Applied | AppliedAnswerLost | Dropped | DroppedSilently

  /** What a verified read of one leave shows. */
  datatype Sight = Nothing | Seen(id: LeaveId, state: LeaveState) | Doubtful

  /** One turn of the surroundings: what others do, how Odoo treats the next call, the answers
      of services outside this model, and an answer a read of a leave gets instead of the truth. */
  datatype Turn = Turn(
    others: seq<Effect>,
    outcome: Outcome,
    answer: (World, Call) -> Answer,
    readFails: bool,
    periodOpen: bool,
    typeUnchanged: bool,
    available: real,
    schemaFault: bool,
    told: Option<Sight>)

  /** Nobody interferes: no one else acts, the next call applies and is answered lawfully, nothing
      fails to be read, and the pay period and the PTO type are as they were. */
  ghost predicate QuietTurn(t: Turn) {
    && t.others == [] && t.outcome == Applied && !t.readFails && t.periodOpen && t.typeUnchanged
    && forall w, call | Possible(w, call) :: Lawful(w, call, t.answer(w, call))
  }

  /** Calls whose normal answer the code believes without reading back. */
  predicate Believed(call: Call) {
    call.CreatePto? || call.CreateTask? || call.PostMessage? || call.CloseTask?
  }

  /** `v` as it is found at the time of `w`, if nobody but the lease holder touched what the lease
      guards: the clock and the local records may differ. */
  function Later(v: World, w: World): World {
    v.(clock := w.clock, absence := w.absence, mirror := w.mirror)
  }

  /** From `v` to `w` only others acted: if `o` still holds the lease, only time passed and local
      records were edited. */
  predicate Drift(o: Owner, v: World, w: World) {
    w.clock >= v.clock && (Held(w, o) ==> Held(v, o) && w == Later(v, w))
  }

  /** The local records as a finalized approval leaves them. */
  predicate LocallyRecorded(w: World, op: Op)
    requires op.FinalizeApproved?
  {
    && w.absence == Recorded(Some(op.leave))
    && op.leave in w.mirror && w.mirror[op.leave] == Validate
    && (op.original.Some? && op.original.value in w.mirror && op.original.value != op.leave ==>
          w.mirror[op.original.value] == Refuse)
  }

  /** `o` committed `op` while holding the lease, with nothing of its own before it. */
  predicate Committed(o: Owner, v: World, w: World, op: Op) {
    && Held(v, o) && w.clock >= v.clock && Accepts(v.row, op, w.clock)
    && w == Later(v, w).(row := Next(v.row, op, w.clock))
    && (op.FinalizeApproved? ==> LocallyRecorded(w, op))
  }

  /** `o`'s remote mutation took effect while it held the lease. */
  predicate Happened(o: Owner, v: World, w: World, call: Call, a: Answer) {
    && Held(v, o) && Held(w, o) && Lawful(Later(v, w), call, a)
    && w == Perform(Later(v, w), call, a)
  }

  /** The call took effect at once, and nothing else happened. */
  predicate Performed(v: World, w: World, call: Call, a: Answer) {
    Lawful(v, call, a) && w == Perform(v, call, a)
  }

  /** An effect of another owner is time passing, an edit of local records, or ends `o`'s lease. */
  lemma OthersOnlyDrift(o: Owner, w: World, e: Effect)
    requires !By(e, o) && Enabled(w, e)
    ensures Drift(o, w, Apply(w, e))
  {
  }

  class Session {
    const me: Owner
    const env: nat -> Turn
    /** The world right after the claim. */
    ghost const origin: World
    /** Reads of leaves show the truth or fail; otherwise they may be told anything. */
    const honest: bool
    var turn: nat
    var world: World
    ghost var run: Run
    /** The caller's local copy of the row. */
    var request: Request
    /** Leave mutations issued so far, whether or not they took effect. */
    var forward: nat
    var compensating: nat

    ghost predicate Valid()
      reads this
    {
      && |run.worlds| > 0 && run.worlds[0] == origin && Last(run) == world
      && (Held(world, me) ==> request == world.row)
      && (honest ==> Legal(run) && Inv(origin))
    }

    /** The owner holds the lease and has been told the truth. */
    ghost predicate Sure()
      reads this
    {
      honest && Held(world, me)
    }

    /** Every turn is quiet, and reads are truthful. */
    ghost predicate Calm() { honest && forall k: nat :: QuietTurn(env(k)) }

    /** The balance always covers the day. */
    ghost predicate Funded() { forall k: nat :: env(k).available >= 1.0 }

    ghost predicate Steady()
      reads this
    {
      Calm() && Held(world, me)
    }

    /** Whatever has happened, the world is a reachable one. */
    lemma Reachable()
      requires Valid() && honest
      ensures Inv(world)
    {
      RunKeepsInv(run, |run.worlds| - 1);
    }

    /** `claim_request` in any reachable world; the owner is a fresh UUID. */
    constructor Claim(w: World, owner: Owner, env: nat -> Turn, honest: bool)
      requires Inv(w)
      ensures me == owner && this.env == env && this.honest == honest
      ensures Valid() && forward == 0 && compensating == 0
      ensures world == origin && request == world.row
      ensures Held(world, me) <==> Accepts(w.row, AbsencePtoStore.Claim(owner), w.clock)
      ensures world == (if Accepts(w.row, AbsencePtoStore.Claim(owner), w.clock)
                        then Apply(w, Store(AbsencePtoStore.Claim(owner))) else w)
    {
      me := owner;
      this.env := env;
      this.honest := honest;
      turn, forward, compensating := 0, 0, 0;
      var claimed := if Accepts(w.row, AbsencePtoStore.Claim(owner), w.clock)
        then Apply(w, Store(AbsencePtoStore.Claim(owner))) else w;
      origin, world, request := claimed, claimed, claimed.row;
      run := Run([claimed], []);
    }

    /** Others act until the caller's next effect or read. */
    method Wait() returns (now: Turn)
      requires Valid()
      modifies this`turn, this`world, this`run
      ensures Valid() && Drift(me, old(world), world) && old(run.worlds) <= run.worlds
      ensures now == env(old(turn)) && turn == old(turn) + 1
      ensures Calm() ==> world == old(world) && QuietTurn(now)
      ensures Funded() ==> now.available >= 1.0
    {
      now := env(turn);
      turn := turn + 1;
      var i := 0;
      while i < |now.others|
        invariant Valid() && Drift(me, old(world), world) && old(run.worlds) <= run.worlds
        invariant now.others == [] ==> world == old(world)
        invariant turn == old(turn) + 1
      {
        var e := now.others[i];
        if !By(e, me) && Enabled(world, e) && Promise(world, e) {
          OthersOnlyDrift(me, world, e);
          if honest { LegalExtends(run, e); }
          world, run := Apply(world, e), Extend(run, e);
        }
        i := i + 1;
      }
    }

    /** One local statement, which may find the lease lost. */
    method Commit(op: Op) returns (ok: bool)
      requires Valid() && op.owner == me && !op.Claim?
      requires Sure() ==> StorePromise(world, op)
      modifies this`turn, this`world, this`run, this`request
      ensures Valid() && old(run.worlds) <= run.worlds
      ensures ok ==> Committed(me, old(world), world, op) && request == world.row
      ensures !ok ==> Drift(me, old(world), world) && request == old(request)
      ensures !ok && Held(world, me) ==> !Enabled(world, Store(op))
      ensures old(Steady()) && Enabled(old(world), Store(op)) ==> ok && world == Apply(old(world), Store(op))
    {
      var _ := Wait();
      ok := Enabled(world, Store(op));
      if ok {
        if honest { LegalExtends(run, Store(op)); }
        world, run := Apply(world, Store(op)), Extend(run, Store(op));
        request := world.row;
      }
    }

    /** One remote mutation.  `raised` tells the caller nothing about whether it applied. */
    method Mutate(call: Call) returns (raised: bool, applied: bool, answer: Answer)
      requires Valid()
      requires Sure() ==> CallPromise(world, call)
      modifies this`turn, this`world, this`run
      ensures Valid()
      ensures applied ==> Happened(me, old(world), world, call, answer)
      ensures !applied ==> Drift(me, old(world), world)
      ensures !raised && Believed(call) ==> applied
      ensures old(Steady()) && Possible(old(world), call) ==> applied && !raised && Performed(old(world), world, call, answer)
    {
      var now := Wait();
      answer := now.answer(world, call);
      applied := (now.outcome == Applied || now.outcome == AppliedAnswerLost)
        && Enabled(world, Remote(me, call, answer));
      raised := now.outcome == AppliedAnswerLost || now.outcome == Dropped
        || (!applied && Believed(call));
      if applied { Take(call, answer); }
    }

    /** The mutation takes effect. */
    method Take(call: Call, answer: Answer)
      requires Valid() && Enabled(world, Remote(me, call, answer))
      requires honest ==> CallPromise(world, call)
      modifies this`world, this`run
      ensures Valid() && Performed(old(world), world, call, answer)
    {
      var e := Remote(me, call, answer);
      if honest { LegalExtends(run, e); }
      world, run := Apply(world, e), Extend(run, e);
    }

    method MutateForward(call: Call) returns (raised: bool, applied: bool, answer: Answer)
      requires Valid()
      requires Sure() ==> CallPromise(world, call)
      modifies this`turn, this`world, this`run, this`forward
      ensures Valid() && forward == old(forward) + 1
      ensures applied ==> Happened(me, old(world), world, call, answer)
      ensures !applied ==> Drift(me, old(world), world)
      ensures !raised && Believed(call) ==> applied
      ensures old(Steady()) && Possible(old(world), call) ==> applied && !raised && Performed(old(world), world, call, answer)
    {
      forward := forward + 1;
      raised, applied, answer := Mutate(call);
    }

    method MutateBack(call: Call) returns (raised: bool, applied: bool, answer: Answer)
      requires Valid()
      requires Sure() ==> CallPromise(world, call)
      modifies this`turn, this`world, this`run, this`compensating
      ensures Valid() && compensating == old(compensating) + 1
      ensures applied ==> Happened(me, old(world), world, call, answer)
      ensures !applied ==> Drift(me, old(world), world)
      ensures old(Steady()) && Possible(old(world), call) ==> applied && !raised && Performed(old(world), world, call, answer)
    {
      compensating := compensating + 1;
      raised, applied, answer := Mutate(call);
    }
  }
}
