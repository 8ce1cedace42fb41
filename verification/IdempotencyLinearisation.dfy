/**
  Every store call that returned without an error is one atomic port operation: at one instant
  between the call and its return, on the record the key then held, with the answer the client got.
*/
module IdempotencyLinearisation {
  import opened Wrappers
  import opened Records
  import opened IdempotencyPort
  import opened IdempotencyProtocol
  import opened IdempotencyInvariants
  import opened IdempotencyTheorems

  /** Step `i` carries out a command of `r`. */
  predicate TakenAt(run: Run, i: nat, key: string, r: ReqId) {
    && i < |run.events| && i < |run.states| && run.events[i] == OnKey(key, Take(r))
    && r in KeyAt(run, i, key).reqs && KeyAt(run, i, key).reqs[r].wire.Sent?
  }

  // ---- Reserve, created ----

  lemma BirthStep(k: KeyState, e: Step, now: nat, ttl: nat, r: ReqId)
    requires BaseInv(k, now) && Enabled(k, e)
    requires r in After(k, e, now, ttl).reqs && After(k, e, now, ttl).reqs[r].birth.Some?
    ensures r in k.reqs && After(k, e, now, ttl).reqs[r].hash == k.reqs[r].hash
    ensures After(k, e, now, ttl).reqs[r].birth == k.reqs[r].birth ||
      (e == Take(r) && k.reqs[r].wire.cmd.SetNx? && k.slot.None?
       && k.reqs[r].wire.cmd.payload.requestHash == k.reqs[r].hash
       && After(k, e, now, ttl).reqs[r].birth == Some(Birth(now, k.window)))
  {
    if r in k.reqs {
      assert RequestOk(k.reqs[r], k.window, now);
    }
    if !e.Evict? {
      StepFrame(k, e, now, ttl);
    }
  }

  /** created=true: at the instant of its SETNX the key was free, and an atomic Reserve would have created this record. */
  lemma {:induction false} CreatedIsAtomic(run: Run, ttl: nat, n: nat, key: string, r: ReqId) returns (i: nat)
    requires TimelyRun(run, ttl) && n < |run.states|
    requires r in KeyAt(run, n, key).reqs && KeyAt(run, n, key).reqs[r].birth.Some?
    ensures i < n && TakenAt(run, i, key, r) && KeyAt(run, i, key).reqs[r].wire.cmd.SetNx?
    ensures var payload := KeyAt(run, i, key).reqs[r].wire.cmd.payload;
      && payload.requestHash == KeyAt(run, n, key).reqs[r].hash
      && Reserve(PortSlot(run, ttl, i, key), payload, run.states[i].now, ttl) == (KeyAt(run, i + 1, key).slot, true)
      && KeyAt(run, n, key).reqs[r].birth == Some(Birth(run.states[i].now, KeyAt(run, i, key).window))
  {
    i := n - 1;
    var k, q := KeyAt(run, i, key), KeyAt(run, n, key).reqs[r];
    OneKeyMoves(run, ttl, i, key);
    BaseAlways(run, ttl, i, key);
    RunRefinesPort(run, ttl, i, key);
    if Acts(run, i, key) {
      BirthStep(k, run.events[i].step, run.states[i].now, ttl, r);
    }
    if k.reqs[r].birth == q.birth {
      i := CreatedIsAtomic(run, ttl, i, key, r);
    }
  }

  // ---- Reserve, refused ----

  /** The request has been told which record the key holds. */
  predicate Informed(q: Request) {
    || (q.stage == Reading && q.wire.Answered? && q.wire.reply.Got? && q.wire.reply.found.Some?)
    || (q.stage.Finished? && !q.stage.failed && q.outcome.None?)
  }

  /** What it has been told, or answered its client, comes from `rec`. */
  predicate InformedOf(q: Request, rec: Record) {
    if q.stage.Finished? then q.stage.answer == Replay(rec, q.hash) else q.wire == Answered(Got(Some(rec)))
  }

  lemma InformedStep(k: KeyState, e: Step, now: nat, ttl: nat, r: ReqId)
    requires BaseInv(k, now) && Enabled(k, e)
    requires r in After(k, e, now, ttl).reqs && Informed(After(k, e, now, ttl).reqs[r])
    ensures r in k.reqs
    ensures
      if Informed(k.reqs[r]) then
        forall rec :: InformedOf(k.reqs[r], rec) ==> InformedOf(After(k, e, now, ttl).reqs[r], rec)
      else
        && e == Take(r) && k.reqs[r].stage == Reading && k.slot.Some?
        && InformedOf(After(k, e, now, ttl).reqs[r], k.slot.value.rec)
  {
    if r in k.reqs {
      assert RequestOk(k.reqs[r], k.window, now);
    }
    if !e.Evict? {
      StepFrame(k, e, now, ttl);
    }
  }

  /** created=false: at the instant of its GET the key held the record the client was answered from, and an atomic Reserve would have returned it. */
  lemma {:induction false} RefusedIsAtomic(run: Run, ttl: nat, n: nat, key: string, r: ReqId) returns (i: nat)
    requires TimelyRun(run, ttl) && n < |run.states|
    requires r in KeyAt(run, n, key).reqs && Informed(KeyAt(run, n, key).reqs[r])
    ensures i < n && TakenAt(run, i, key, r) && KeyAt(run, i, key).reqs[r].stage == Reading
    ensures var slot := PortSlot(run, ttl, i, key);
      && slot.Some? && InformedOf(KeyAt(run, n, key).reqs[r], slot.value.rec)
      && forall payload :: Reserve(slot, payload, run.states[i].now, ttl) == (slot, false)
  {
    i := n - 1;
    var k, q := KeyAt(run, i, key), KeyAt(run, n, key).reqs[r];
    OneKeyMoves(run, ttl, i, key);
    BaseAlways(run, ttl, i, key);
    RunRefinesPort(run, ttl, i, key);
    if Acts(run, i, key) {
      InformedStep(k, run.events[i].step, run.states[i].now, ttl, r);
    }
    if Informed(k.reqs[r]) {
      i := RefusedIsAtomic(run, ttl, i, key, r);
    }
  }

  /**
    What a client that was answered without a handler run has been told: 422, 409 or the stored
    response, by the record the key held at the instant of its GET; a replay only of a completed
    record of its own hash.
  */
  lemma AnswerTellsTheRecord(run: Run, ttl: nat, n: nat, key: string, r: ReqId) returns (i: nat)
    requires TimelyRun(run, ttl) && n < |run.states| && r in KeyAt(run, n, key).reqs
    requires var q := KeyAt(run, n, key).reqs[r]; q.stage.Finished? && !q.stage.failed && q.outcome.None?
    ensures i < n && TakenAt(run, i, key, r) && PortSlot(run, ttl, i, key).Some?
    ensures var q, rec := KeyAt(run, n, key).reqs[r], PortSlot(run, ttl, i, key).value.rec;
      q.stage.answer ==
        if rec.requestHash != q.hash then Failure(422)
        else if rec.state == InFlight then Failure(409)
        else Replayed(Response(
          if rec.statusCode == 0 then 200 else rec.statusCode, rec.headers["X-Idempotent-Replay" := "true"], rec.body))
  {
    i := RefusedIsAtomic(run, ttl, n, key, r);
    ReplayAnswers(PortSlot(run, ttl, i, key).value.rec, KeyAt(run, n, key).reqs[r].hash);
  }

  // ---- Complete and Release ----

  /** The request's Complete or Release has returned without an error, or is about to. */
  predicate Concluded(q: Request) {
    || (q.stage.Finished? && !q.stage.failed && q.outcome.Some?)
    || (q.stage.Completing? && q.wire == Answered(Got(None)))
    || (q.stage.Promoting? && q.wire == Answered(Scripted))
    || (q.stage.Releasing? && q.wire == Answered(Scripted))
  }

  lemma ConcludedStep(k: KeyState, e: Step, now: nat, ttl: nat, r: ReqId)
    requires BaseInv(k, now) && Enabled(k, e)
    requires r in After(k, e, now, ttl).reqs && Concluded(After(k, e, now, ttl).reqs[r])
    ensures r in k.reqs && After(k, e, now, ttl).reqs[r].outcome == k.reqs[r].outcome && k.reqs[r].outcome.Some?
    ensures Concluded(k.reqs[r]) ||
      (e == Take(r) &&
       if Succeeded(k.reqs[r])
       then k.reqs[r].wire.cmd.Promote? || (k.reqs[r].wire.cmd.Get? && k.slot.None?)
       else k.reqs[r].wire.cmd.Remove?)
  {
    if r in k.reqs {
      assert RequestOk(k.reqs[r], k.window, now);
    }
    if !e.Evict? {
      StepFrame(k, e, now, ttl);
    }
  }

  /** What the port does for a handler's outcome: Complete below 500, Release otherwise. */
  function Concluding(q: Request, slot: Slot, expires: Stamp, now: nat, ttl: nat): Slot {
    if Succeeded(q) then Complete(slot, HandlerResponse(q), expires, now, ttl) else Release(slot)
  }

  /** The step that concludes the call does to the slot what the port's operation does. */
  lemma ConcludesAtomically(k: KeyState, e: Step, now: nat, ttl: nat, r: ReqId) returns (expires: Stamp)
    requires Inv(k, now, ttl) && Enabled(k, e) && Timely(k, e, now, ttl) && e == Take(r)
    requires r in k.reqs && k.reqs[r].outcome.Some?
    requires
      if Succeeded(k.reqs[r])
      then k.reqs[r].wire.cmd.Promote? || (k.reqs[r].wire.cmd.Get? && k.slot.None?)
      else k.reqs[r].wire.cmd.Remove?
    ensures After(k, e, now, ttl).slot == Concluding(k.reqs[r], k.slot, expires, now, ttl)
  {
    StepRefinesPort(k, e, now, ttl);
    var cmd := k.reqs[r].wire.cmd;
    expires := if cmd.Promote? then cmd.payload.expiresAt else Stamp(0, 0, 0, 0, 0, 0, 0);
  }

  /** Step `i` concludes the call of `r`. */
  predicate ConcludesAt(run: Run, i: nat, key: string, r: ReqId) {
    && TakenAt(run, i, key, r)
    && var k := KeyAt(run, i, key);
       && k.reqs[r].outcome.Some?
       && if Succeeded(k.reqs[r])
          then k.reqs[r].wire.cmd.Promote? || (k.reqs[r].wire.cmd.Get? && k.slot.None?)
          else k.reqs[r].wire.cmd.Remove?
  }

  lemma {:induction false} ConclusionStep(run: Run, ttl: nat, n: nat, key: string, r: ReqId) returns (i: nat)
    requires IsRun(run, ttl) && n < |run.states|
    requires r in KeyAt(run, n, key).reqs && Concluded(KeyAt(run, n, key).reqs[r])
    ensures i < n && ConcludesAt(run, i, key, r)
    ensures KeyAt(run, i, key).reqs[r].outcome == KeyAt(run, n, key).reqs[r].outcome
  {
    i := n - 1;
    var k := KeyAt(run, i, key);
    OneKeyMoves(run, ttl, i, key);
    BaseAlways(run, ttl, i, key);
    if Acts(run, i, key) {
      ConcludedStep(k, run.events[i].step, run.states[i].now, ttl, r);
    }
    if Concluded(k.reqs[r]) {
      i := ConclusionStep(run, ttl, i, key, r);
    }
  }

  /** A Complete or Release that returned without an error is the atomic one at one instant before. */
  lemma ConclusionIsAtomic(run: Run, ttl: nat, n: nat, key: string, r: ReqId) returns (i: nat, expires: Stamp)
    requires TimelyRun(run, ttl) && n < |run.states|
    requires r in KeyAt(run, n, key).reqs && Concluded(KeyAt(run, n, key).reqs[r])
    ensures i < n && TakenAt(run, i, key, r)
    ensures KeyAt(run, i + 1, key).slot ==
      Concluding(KeyAt(run, n, key).reqs[r], PortSlot(run, ttl, i, key), expires, run.states[i].now, ttl)
  {
    i := ConclusionStep(run, ttl, n, key, r);
    OneKeyMoves(run, ttl, i, key);
    assert MovesInTime(run, ttl, i);
    InvAlways(run, ttl, i, key);
    RunRefinesPort(run, ttl, i, key);
    expires := ConcludesAtomically(KeyAt(run, i, key), run.events[i].step, run.states[i].now, ttl, r);
  }
}
