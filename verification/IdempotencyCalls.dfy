/** One store command of one request, as the steps it takes: sent, carried out, answered, or one of these missing. */
module IdempotencyCalls {
  import opened Wrappers
  import opened Records
  import opened RecordJson
  import opened IdempotencyPort
  import opened IdempotencyProtocol

  /** The clock readings a command is sent with. */
  datatype Times = Times(created: Stamp, expires: Stamp)

  predicate CanCall(k: KeyState, r: ReqId) {
    r in k.reqs && k.reqs[r].wire == Quiet && Calling(k.reqs[r].stage)
  }

  /** The request's current command is sent, carried out and answered. */
  function Exchanged(k: KeyState, r: ReqId, t: Times, now: nat, ttl: nat): KeyState
    requires CanCall(k, r)
  {
    var sent := After(k, Send(r, t.created, t.expires), now, ttl);
    var taken := After(sent, Take(r), now, ttl);
    After(taken, Hear(r), now, ttl)
  }

  /** The request's current command, with what can go wrong: it is not carried out, or its reply is lost. */
  function Called(k: KeyState, r: ReqId, fault: Fault, t: Times, now: nat, ttl: nat): KeyState
    requires CanCall(k, r)
  {
    match fault
    case NoFault => Exchanged(k, r, t, now, ttl)
    case Refused => After(k, GiveUp(r), now, ttl)
    case ReplyLost => After(After(After(k, Send(r, t.created, t.expires), now, ttl), Take(r), now, ttl), GiveUp(r), now, ttl)
  }

  /** The steps of a call. */
  function CallSteps(r: ReqId, fault: Fault, t: Times): seq<Step> {
    match fault
    case NoFault => [Send(r, t.created, t.expires), Take(r), Hear(r)]
    case Refused => [GiveUp(r)]
    case ReplyLost => [Send(r, t.created, t.expires), Take(r), GiveUp(r)]
  }

  // ---- what each command does when nothing goes wrong ----

  /** A request in its handler. */
  function Owner(hash: Digest, now: nat, window: nat): Request {
    Request(hash, Handling, Quiet, Some(Birth(now, window)), false, None)
  }

  /** A request that has just arrived. */
  function Arrived(hash: Digest): Request {
    Request(hash, Reserving, Quiet, None, false, None)
  }

  function Reserved(k: KeyState, r: ReqId, hash: Digest, t: Times, now: nat, ttl: nat): KeyState {
    With(k, r, Owner(hash, now, k.window)).(
      slot := Some(Entry(InFlightRecord(hash, t.created, t.expires), now + ttl)), creator := r)
  }

  /** The request has finished with its handler's answer. */
  function Ended(q: Request, failed: bool): Request {
    q.(stage := Finished(HandlerAnswer(q), failed))
  }

  lemma ExchangeReserves(k: KeyState, r: ReqId, hash: Digest, t: Times, now: nat, ttl: nat)
    requires k.slot.None? && r in k.reqs && k.reqs[r] == Arrived(hash)
    ensures Exchanged(k, r, t, now, ttl) == Reserved(k, r, hash, t, now, ttl)
  {
    assert Exchanged(k, r, t, now, ttl).reqs == Reserved(k, r, hash, t, now, ttl).reqs;
  }

  lemma ExchangeRefused(k: KeyState, r: ReqId, hash: Digest, t: Times, now: nat, ttl: nat)
    requires k.slot.Some? && r in k.reqs && k.reqs[r] == Arrived(hash)
    ensures Exchanged(k, r, t, now, ttl) == With(k, r, k.reqs[r].(stage := Reading))
  {
    assert Exchanged(k, r, t, now, ttl).reqs == k.reqs[r := k.reqs[r].(stage := Reading)];
  }

  lemma ExchangeFinds(k: KeyState, r: ReqId, t: Times, now: nat, ttl: nat)
    requires CanCall(k, r) && k.reqs[r].stage.Reading?
    ensures Exchanged(k, r, t, now, ttl) == With(k, r, k.reqs[r].(stage :=
      if k.slot.Some? then Finished(Replay(k.slot.value.rec, k.reqs[r].hash), false) else Finished(Failure(500), true)))
  {
    assert Exchanged(k, r, t, now, ttl).reqs == k.reqs[r := k.reqs[r].(stage :=
      if k.slot.Some? then Finished(Replay(k.slot.value.rec, k.reqs[r].hash), false) else Finished(Failure(500), true))];
  }

  lemma ExchangeReleases(k: KeyState, r: ReqId, t: Times, now: nat, ttl: nat)
    requires CanCall(k, r) && k.reqs[r].stage.Releasing? && k.slot.Some? && LooksInFlight(k.slot.value.rec)
    ensures Exchanged(k, r, t, now, ttl) == With(k, r, Ended(k.reqs[r], false)).(slot := None)
  {
    assert Exchanged(k, r, t, now, ttl).reqs == k.reqs[r := Ended(k.reqs[r], false)];
  }

  lemma ExchangeReads(k: KeyState, r: ReqId, t: Times, now: nat, ttl: nat)
    requires CanCall(k, r) && k.reqs[r].stage.Completing? && k.slot.Some?
    ensures Exchanged(k, r, t, now, ttl) == With(k, r, k.reqs[r].(stage := Promoting(k.slot.value.rec)))
  {
    assert Exchanged(k, r, t, now, ttl).reqs == k.reqs[r := k.reqs[r].(stage := Promoting(k.slot.value.rec))];
  }

  lemma ExchangePromotes(k: KeyState, r: ReqId, t: Times, now: nat, ttl: nat)
    requires CanCall(k, r) && k.reqs[r].stage.Promoting? && k.slot.Some?
    ensures Exchanged(k, r, t, now, ttl) ==
      With(k, r, Ended(k.reqs[r], false)).(
        slot := Some(Entry(CompletedRecord(k.reqs[r].stage.seen, HandlerResponse(k.reqs[r]), t.expires), now + ttl)))
  {
    assert Exchanged(k, r, t, now, ttl).reqs == k.reqs[r := Ended(k.reqs[r], false)];
  }

  // ---- several steps at one time ----

  /** These steps, one after another and at the same clock time, lead from `k` to `k'`. */
  ghost predicate LeadsTo(k: KeyState, steps: seq<Step>, now: nat, ttl: nat, k': KeyState)
    decreases |steps|
  {
    if |steps| == 0 then k' == k
    else Enabled(k, steps[0]) && LeadsTo(After(k, steps[0], now, ttl), steps[1..], now, ttl, k')
  }

  lemma {:induction false} LeadsOn(k: KeyState, a: seq<Step>, k1: KeyState, b: seq<Step>, k2: KeyState, now: nat, ttl: nat)
    requires LeadsTo(k, a, now, ttl, k1) && LeadsTo(k1, b, now, ttl, k2)
    ensures LeadsTo(k, a + b, now, ttl, k2)
    decreases |a|
  {
    if |a| == 0 {
      assert a + b == b;
    } else {
      assert (a + b)[1..] == a[1..] + b;
      LeadsOn(After(k, a[0], now, ttl), a[1..], k1, b, k2, now, ttl);
    }
  }

  lemma OneStep(k: KeyState, e: Step, now: nat, ttl: nat)
    requires Enabled(k, e)
    ensures LeadsTo(k, [e], now, ttl, After(k, e, now, ttl))
  {
    assert [e][1..] == [];
  }

  lemma ThreeSteps(k: KeyState, a: Step, b: Step, c: Step, now: nat, ttl: nat)
    requires Enabled(k, a) && Enabled(After(k, a, now, ttl), b)
    requires Enabled(After(After(k, a, now, ttl), b, now, ttl), c)
    ensures LeadsTo(k, [a, b, c], now, ttl, After(After(After(k, a, now, ttl), b, now, ttl), c, now, ttl))
  {
    OneStep(After(After(k, a, now, ttl), b, now, ttl), c, now, ttl);
    assert [a, b, c][1..] == [b, c] && [b, c][1..] == [c];
  }

  lemma CallLeads(k: KeyState, r: ReqId, fault: Fault, t: Times, now: nat, ttl: nat)
    requires CanCall(k, r)
    ensures LeadsTo(k, CallSteps(r, fault, t), now, ttl, Called(k, r, fault, t, now, ttl))
  {
    match fault {
      case NoFault => ThreeSteps(k, Send(r, t.created, t.expires), Take(r), Hear(r), now, ttl);
      case Refused => OneStep(k, GiveUp(r), now, ttl);
      case ReplyLost => ThreeSteps(k, Send(r, t.created, t.expires), Take(r), GiveUp(r), now, ttl);
    }
  }

  /** A call after other steps. */
  lemma CallOn(k0: KeyState, steps: seq<Step>, k: KeyState, r: ReqId, fault: Fault, t: Times, now: nat, ttl: nat)
    requires LeadsTo(k0, steps, now, ttl, k) && CanCall(k, r)
    ensures LeadsTo(k0, steps + CallSteps(r, fault, t), now, ttl, Called(k, r, fault, t, now, ttl))
  {
    CallLeads(k, r, fault, t, now, ttl);
    LeadsOn(k0, steps, k, CallSteps(r, fault, t), Called(k, r, fault, t, now, ttl), now, ttl);
  }
}
