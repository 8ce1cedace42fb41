/** What every step keeps: first without any hypothesis, then under the timing hypothesis (T). */
module IdempotencyInvariants {
  import opened Wrappers
  import opened Records
  import opened IdempotencyPort
  import opened IdempotencyProtocol

  // ---- without (T) ----

  /** The handler's publish was acknowledged, or it returned a status below 500. */
  predicate Won(q: Request) {
    q.published || Succeeded(q)
  }

  /** A sent command is the one its request's data calls for. */
  predicate WireOk(q: Request) {
    q.wire.Sent? ==>
      && (q.stage.Finished? ==> q.stage.failed)
      && match q.wire.cmd
         case SetNx(p) => q.birth.None? && p == InFlightRecord(q.hash, p.createdAt, p.expiresAt)
         case Promote(p) => q.birth.Some? && Succeeded(q) && p == CompletedRecord(p, HandlerResponse(q), p.expiresAt)
         case Remove => q.birth.Some? && !Won(q)
         case Get => true
  }

  /** One request's stage, outstanding command and outcome fit together. */
  predicate StageOk(q: Request) {
    match q.stage
    case Reserving => q.outcome.None? && !q.published &&
      ((q.wire == Quiet && q.birth.None?)
       || (q.wire.Sent? && q.wire.cmd.SetNx?)
       || (q.wire.Answered? && q.wire.reply.Tried? && (q.wire.reply.created <==> q.birth.Some?)))
    case Reading => q.outcome.None? && !q.published && q.birth.None? &&
      (q.wire == Quiet || q.wire == Sent(Get) || (q.wire.Answered? && q.wire.reply.Got?))
    case Handling => q.outcome.None? && q.birth.Some? && q.wire == Quiet
    case Completing => Succeeded(q) && q.birth.Some? &&
      (q.wire == Quiet || q.wire == Sent(Get) || (q.wire.Answered? && q.wire.reply.Got?))
    case Promoting(_) => Succeeded(q) && q.birth.Some? &&
      (q.wire == Quiet || q.wire == Answered(Scripted) || (q.wire.Sent? && q.wire.cmd.Promote?))
    case Releasing => q.birth.Some? && q.outcome.Some? && !Won(q) &&
      (q.wire == Quiet || q.wire == Sent(Remove) || q.wire == Answered(Scripted))
    case Finished(answer, _) => (Won(q) ==> q.birth.Some?) &&
      (if q.outcome.Some? then answer == q.outcome.value else answer.Failure? || answer.Replayed?)
    case Crashed => Won(q) ==> q.birth.Some?
  }

  predicate RequestOk(q: Request, window: nat, now: nat) {
    && StageOk(q) && WireOk(q)
    && (q.birth.Some? ==> q.birth.value.window <= window && q.birth.value.at <= now)
  }

  ghost predicate BaseInv(k: KeyState, now: nat) {
    forall r | r in k.reqs :: RequestOk(k.reqs[r], k.window, now)
  }

  /** Only the acting request changes. */
  lemma StepFrame(k: KeyState, e: Step, now: nat, ttl: nat)
    requires Enabled(k, e) && !e.Evict?
    ensures var k' := After(k, e, now, ttl);
      k'.reqs.Keys == k.reqs.Keys + {e.r} && forall r | r in k.reqs && r != e.r :: k'.reqs[r] == k.reqs[r]
    ensures !e.Take? ==> After(k, e, now, ttl) == k.(reqs := After(k, e, now, ttl).reqs)
  {
  }

  lemma TakeKeepsOk(k: KeyState, r: ReqId, now: nat, ttl: nat)
    requires Enabled(k, Take(r)) && RequestOk(k.reqs[r], k.window, now)
    ensures RequestOk(After(k, Take(r), now, ttl).reqs[r], k.window, now)
    ensures After(k, Take(r), now, ttl).window == k.window
  {
  }

  lemma SendKeepsOk(k: KeyState, e: Step, now: nat, ttl: nat)
    requires Enabled(k, e) && e.Send? && RequestOk(k.reqs[e.r], k.window, now)
    ensures RequestOk(After(k, e, now, ttl).reqs[e.r], k.window, now)
  {
  }

  lemma HearKeepsOk(k: KeyState, e: Step, now: nat, ttl: nat)
    requires Enabled(k, e) && e.Hear? && RequestOk(k.reqs[e.r], k.window, now)
    ensures RequestOk(After(k, e, now, ttl).reqs[e.r], k.window, now)
  {
  }

  lemma OtherKeepsOk(k: KeyState, e: Step, now: nat, ttl: nat)
    requires Enabled(k, e) && !e.Take? && !e.Send? && !e.Hear? && !e.Evict?
    requires e.Arrive? || RequestOk(k.reqs[e.r], k.window, now)
    ensures RequestOk(After(k, e, now, ttl).reqs[e.r], k.window, now)
  {
  }

  lemma BaseStep(k: KeyState, e: Step, now: nat, ttl: nat)
    requires BaseInv(k, now) && Enabled(k, e)
    ensures BaseInv(After(k, e, now, ttl), now)
  {
    if !e.Evict? {
      StepFrame(k, e, now, ttl);
      if e.Take? {
        TakeKeepsOk(k, e.r, now, ttl);
      } else if e.Send? {
        SendKeepsOk(k, e, now, ttl);
      } else if e.Hear? {
        HearKeepsOk(k, e, now, ttl);
      } else {
        OtherKeepsOk(k, e, now, ttl);
      }
    }
  }

  lemma BaseTick(k: KeyState, now: nat, later: nat)
    requires BaseInv(k, now) && now <= later
    ensures BaseInv(Ticked(k, later), later)
  {
  }

  // ---- under (T) ----

  predicate Live(q: Request) {
    MayWrite(q) || Won(q)
  }

  /** Whatever the owner has read or is about to write agrees with the record in the slot. */
  predicate Mine(q: Request, rec: Record) {
    && rec.state == InFlight
    && (q.stage.Completing? && q.wire.Answered? ==> q.wire.reply == Got(Some(rec)))
    && (q.stage.Promoting? ==> q.stage.seen == rec)
    && (q.wire.Sent? && q.wire.cmd.Promote? ==>
          q.wire.cmd.payload.requestHash == rec.requestHash && q.wire.cmd.payload.createdAt == rec.createdAt)
  }

  /** An IN_FLIGHT record's creator can still finish it, or its last store call failed, or it crashed. */
  predicate Accounted(q: Request) {
    MayWrite(q) || q.stage.Crashed? || (q.stage.Finished? && q.stage.failed)
  }

  /** The record belongs to the request that created it. */
  predicate Owned(k: KeyState, now: nat, ttl: nat) {
    k.slot.Some? ==>
      && k.creator in k.reqs
      && now <= k.slot.value.deadline
      && var q, rec := k.reqs[k.creator], k.slot.value.rec;
         && q.birth.Some? && q.birth.value.window == k.window
         && rec.requestHash == q.hash
         && (rec.state == InFlight ==> k.slot.value.deadline == q.birth.value.at + ttl && Accounted(q))
         && (rec.state == Completed ==>
               Succeeded(q) && rec == CompletedRecord(rec, HandlerResponse(q), rec.expiresAt))
  }

  /** A live request born in the current window is the record's creator. */
  ghost predicate Holding(k: KeyState) {
    forall r | r in k.reqs && Live(k.reqs[r]) && k.reqs[r].birth.Some? && k.reqs[r].birth.value.window == k.window ::
      k.slot.Some? && k.creator == r && (MayWrite(k.reqs[r]) ==> Mine(k.reqs[r], k.slot.value.rec))
  }

  /** A script that can still take effect in time was born in the current window. */
  ghost predicate Current(k: KeyState, now: nat, ttl: nat) {
    forall r | r in k.reqs && MayWrite(k.reqs[r]) && InTime(k.reqs[r], now, ttl) ::
      k.reqs[r].birth.value.window == k.window
  }

  /** No two live requests were born in the same window. */
  ghost predicate Alone(k: KeyState) {
    forall r1, r2 | r1 in k.reqs && r2 in k.reqs && Live(k.reqs[r1]) && Live(k.reqs[r2])
        && k.reqs[r1].birth.Some? && k.reqs[r2].birth.Some?
        && k.reqs[r1].birth.value.window == k.reqs[r2].birth.value.window ::
      r1 == r2
  }

  ghost predicate Inv(k: KeyState, now: nat, ttl: nat) {
    BaseInv(k, now) && Owned(k, now, ttl) && Holding(k) && Current(k, now, ttl) && Alone(k)
  }

  lemma InvTick(k: KeyState, now: nat, later: nat, ttl: nat)
    requires Inv(k, now, ttl) && now <= later
    ensures Inv(Ticked(k, later), later, ttl)
  {
  }

  /** The request keeps no more claims on the slot than before, and the ones it keeps still fit. */
  predicate Weaker(q: Request, q': Request, slot: Slot) {
    && q'.hash == q.hash && q'.birth == q.birth && (Succeeded(q) ==> q'.outcome == q.outcome)
    && (MayWrite(q') ==> MayWrite(q)) && (Live(q') ==> Live(q))
    && (slot.Some? && MayWrite(q') && Mine(q, slot.value.rec) ==> Mine(q', slot.value.rec))
    && (slot.Some? && Accounted(q) && (MayWrite(q) ==> Mine(q, slot.value.rec)) ==> Accounted(q'))
  }

  lemma InvWeaker(k: KeyState, r: ReqId, q': Request, now: nat, ttl: nat)
    requires Inv(k, now, ttl) && r in k.reqs && Weaker(k.reqs[r], q', k.slot)
    requires BaseInv(With(k, r, q'), now)
    ensures Inv(With(k, r, q'), now, ttl)
  {
  }

  lemma SendIsWeaker(k: KeyState, e: Step, now: nat, ttl: nat)
    requires Enabled(k, e) && e.Send? && RequestOk(k.reqs[e.r], k.window, now)
    ensures Weaker(k.reqs[e.r], After(k, e, now, ttl).reqs[e.r], k.slot)
  {
  }

  lemma HearIsWeaker(k: KeyState, e: Step, now: nat, ttl: nat)
    requires Enabled(k, e) && e.Hear? && RequestOk(k.reqs[e.r], k.window, now)
    ensures Weaker(k.reqs[e.r], After(k, e, now, ttl).reqs[e.r], k.slot)
  {
  }

  lemma OtherIsWeaker(k: KeyState, e: Step, now: nat, ttl: nat)
    requires Enabled(k, e) && !e.Evict? && !e.Arrive? && RequestOk(k.reqs[e.r], k.window, now)
    requires e.GiveUp? || e.Publish? || e.Return? || e.Panic? || e.Crash?
    ensures Weaker(k.reqs[e.r], After(k, e, now, ttl).reqs[e.r], k.slot)
  {
  }

  lemma InvClient(k: KeyState, e: Step, now: nat, ttl: nat)
    requires Inv(k, now, ttl) && Enabled(k, e) && !e.Take? && !e.Evict? && !e.Arrive?
    ensures Inv(After(k, e, now, ttl), now, ttl)
  {
    BaseStep(k, e, now, ttl);
    assert RequestOk(k.reqs[e.r], k.window, now);
    if e.Send? {
      SendIsWeaker(k, e, now, ttl);
    } else if e.Hear? {
      HearIsWeaker(k, e, now, ttl);
    } else {
      OtherIsWeaker(k, e, now, ttl);
    }
    InvWeaker(k, e.r, After(k, e, now, ttl).reqs[e.r], now, ttl);
  }

  lemma InvArrive(k: KeyState, r: ReqId, hash: Digest, now: nat, ttl: nat)
    requires Inv(k, now, ttl) && Enabled(k, Arrive(r, hash))
    ensures Inv(After(k, Arrive(r, hash), now, ttl), now, ttl)
  {
  }

  lemma InvEvict(k: KeyState, now: nat, ttl: nat)
    requires Inv(k, now, ttl) && Enabled(k, Evict) && Timely(k, Evict, now, ttl)
    ensures Inv(After(k, Evict, now, ttl), now, ttl)
  {
  }

  lemma InvGet(k: KeyState, r: ReqId, now: nat, ttl: nat)
    requires Inv(k, now, ttl) && Enabled(k, Take(r)) && k.reqs[r].wire.cmd.Get?
    ensures Inv(After(k, Take(r), now, ttl), now, ttl)
  {
    BaseStep(k, Take(r), now, ttl);
    assert RequestOk(k.reqs[r], k.window, now);
    var q' := k.reqs[r].(wire := Answered(Got(Stored(k.slot))));
    assert Weaker(k.reqs[r], q', k.slot);
    InvWeaker(k, r, q', now, ttl);
  }

  lemma InvRefused(k: KeyState, r: ReqId, now: nat, ttl: nat)
    requires Inv(k, now, ttl) && Enabled(k, Take(r)) && k.reqs[r].wire.cmd.SetNx? && k.slot.Some?
    ensures Inv(After(k, Take(r), now, ttl), now, ttl)
  {
  }

  lemma InvCreated(k: KeyState, r: ReqId, now: nat, ttl: nat)
    requires Inv(k, now, ttl) && Enabled(k, Take(r)) && k.reqs[r].wire.cmd.SetNx? && k.slot.None?
    ensures Inv(After(k, Take(r), now, ttl), now, ttl)
  {
  }

  /** A script taken in time meets its own IN_FLIGHT record. */
  lemma ScriptMeetsOwnRecord(k: KeyState, r: ReqId, now: nat, ttl: nat)
    requires Inv(k, now, ttl) && Enabled(k, Take(r)) && Timely(k, Take(r), now, ttl)
    requires k.reqs[r].wire.cmd.Promote? || k.reqs[r].wire.cmd.Remove?
    ensures MayWrite(k.reqs[r]) && k.reqs[r].birth.value.window == k.window
    ensures k.slot.Some? && k.creator == r && Mine(k.reqs[r], k.slot.value.rec)
  {
  }

  lemma InvPromote(k: KeyState, r: ReqId, now: nat, ttl: nat)
    requires Inv(k, now, ttl) && Enabled(k, Take(r)) && Timely(k, Take(r), now, ttl) && k.reqs[r].wire.cmd.Promote?
    ensures Inv(After(k, Take(r), now, ttl), now, ttl)
  {
  }

  lemma InvRemove(k: KeyState, r: ReqId, now: nat, ttl: nat)
    requires Inv(k, now, ttl) && Enabled(k, Take(r)) && Timely(k, Take(r), now, ttl) && k.reqs[r].wire.cmd.Remove?
    ensures Inv(After(k, Take(r), now, ttl), now, ttl)
  {
  }

  lemma InvStep(k: KeyState, e: Step, now: nat, ttl: nat)
    requires Inv(k, now, ttl) && Enabled(k, e) && Timely(k, e, now, ttl)
    ensures Inv(After(k, e, now, ttl), now, ttl)
  {
    match e {
      case Arrive(r, hash) => InvArrive(k, r, hash, now, ttl);
      case Evict => InvEvict(k, now, ttl);
      case Take(r) =>
        match k.reqs[r].wire.cmd {
          case SetNx(_) =>
            if k.slot.Some? { InvRefused(k, r, now, ttl); } else { InvCreated(k, r, now, ttl); }
          case Get => InvGet(k, r, now, ttl);
          case Promote(_) => InvPromote(k, r, now, ttl);
          case Remove => InvRemove(k, r, now, ttl);
        }
      case _ => InvClient(k, e, now, ttl);
    }
  }
}
