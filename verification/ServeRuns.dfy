/**
  The ties between the request path run alone and the protocol: what `Edge.Serve` does to its key is
  a run of the state machine, and the wrapped handler meets the machine's hypothesis on handlers.
*/
module ServeRuns {
  import opened Wrappers
  import opened Records
  import opened RecordJson
  import opened IdempotencyPort
  import opened IdempotencyProtocol
  import opened IdempotencyCalls
  import M = Middleware
  import HR = HttpRecorder
  import PH = ResourceHandler

  // ---- the hypothesis on the handler ----

  /** What Provision does, as the calls it makes and whether its publish is acknowledged. */
  function ProvisionHandler(decodes: bool, accepts: bool, text: seq<Byte>): M.Handler {
    M.Handler(PH.JsonOps(PH.ProvisionStatus(decodes, accepts), text), false)
  }

  /** Whatever the headers, body and publisher do, Provision returns only what the protocol allows, and 202 only then. */
  lemma ProvisionMayReturn(base: HR.Headers, decodes: bool, accepts: bool, text: seq<Byte>)
    ensures var resp := M.Recorded(base, ProvisionHandler(decodes, accepts, text).ops);
      MayReturn(decodes && accepts, resp) && (resp.status == 202 <==> decodes && accepts)
  {
    PH.JsonTape(PH.ProvisionStatus(decodes, accepts), text, base);
  }

  // ---- one request alone ----

  /** The answer of a request whose handler came to `h`. */
  function RunAnswer(base: HR.Headers, h: M.Handler): Answer {
    if h.panics then Failure(500) else Fresh(M.Recorded(base, h.ops))
  }

  /** The answer of a whole request, and whether a store call failed it at the end. */
  function ServedAnswer(slot: Slot, base: HR.Headers, h: M.Handler, hash: Digest, reserve: (Fault, Fault)): Answer {
    if reserve.0 != NoFault then Failure(500)
    else if slot.None? then RunAnswer(base, h)
    else if reserve.1 != NoFault then Failure(500)
    else Replay(slot.value.rec, hash)
  }

  /** `r` has finished with `answer`, and the slot is `slot`. */
  predicate Served(k: KeyState, r: ReqId, slot: Slot, answer: Answer) {
    r in k.reqs && k.reqs[r].stage.Finished? && k.reqs[r].stage.answer == answer && k.slot == slot
  }

  /** The handler runs: it may publish, then it returns or panics. */
  lemma HandlerRuns(k: KeyState, r: ReqId, base: HR.Headers, h: M.Handler, published: bool, now: nat, ttl: nat)
    returns (steps: seq<Step>, k': KeyState)
    requires r in k.reqs && k.reqs[r].stage == Handling && !k.reqs[r].published
    requires published ==> !h.panics && MayReturn(true, M.Recorded(base, h.ops))
    ensures LeadsTo(k, steps, now, ttl, k')
    ensures k' == With(k, r, k.reqs[r].(
      stage := if M.Caches(h) then Completing else Releasing, published := published, outcome := Some(RunAnswer(base, h))))
  {
    var k1 := k;
    steps := [];
    if published {
      k1 := After(k, Publish(r), now, ttl);
      steps := [Publish(r)];
      OneStep(k, Publish(r), now, ttl);
    }
    var e := if h.panics then Panic(r) else Return(r, M.Recorded(base, h.ops));
    k' := After(k1, e, now, ttl);
    OneStep(k1, e, now, ttl);
    LeadsOn(k, steps, k1, [e], k', now, ttl);
    steps := steps + [e];
    assert k'.reqs == k.reqs[r := k'.reqs[r]];
  }

  lemma Releases(k: KeyState, r: ReqId, fault: Fault, t: Times, now: nat, ttl: nat)
    requires CanCall(k, r) && k.reqs[r].stage.Releasing? && k.slot.Some? && k.slot.value.rec.state == InFlight
    ensures Served(Called(k, r, fault, t, now, ttl), r, if fault == Refused then k.slot else None, HandlerAnswer(k.reqs[r]))
    ensures Called(k, r, fault, t, now, ttl).reqs[r].published == k.reqs[r].published
  {
    ExchangeReleases(k, r, t, now, ttl);
  }

  lemma ReadFails(k: KeyState, r: ReqId, fault: Fault, t: Times, now: nat, ttl: nat)
    requires CanCall(k, r) && k.reqs[r].stage.Completing? && fault != NoFault
    ensures Served(Called(k, r, fault, t, now, ttl), r, k.slot, HandlerAnswer(k.reqs[r]))
    ensures Called(k, r, fault, t, now, ttl).reqs[r].published == k.reqs[r].published
  {
  }

  lemma Promotes(k: KeyState, r: ReqId, fault: Fault, t: Times, now: nat, ttl: nat)
    requires CanCall(k, r) && k.reqs[r].stage.Promoting? && k.slot.Some?
    ensures Served(Called(k, r, fault, t, now, ttl), r,
      if fault == Refused then k.slot
      else Some(Entry(CompletedRecord(k.reqs[r].stage.seen, HandlerResponse(k.reqs[r]), t.expires), now + ttl)),
      HandlerAnswer(k.reqs[r]))
    ensures Called(k, r, fault, t, now, ttl).reqs[r].published == k.reqs[r].published
  {
    ExchangePromotes(k, r, t, now, ttl);
  }

  /** Complete's two commands with their faults. */
  lemma Completes(k: KeyState, r: ReqId, finish: (Fault, Fault), t: Times, now: nat, ttl: nat)
    returns (steps: seq<Step>, k': KeyState)
    requires CanCall(k, r) && k.reqs[r].stage.Completing? && k.slot.Some?
    ensures LeadsTo(k, steps, now, ttl, k')
    ensures Served(k', r,
      if finish.0 != NoFault || finish.1 == Refused then k.slot
      else Some(Entry(CompletedRecord(k.slot.value.rec, HandlerResponse(k.reqs[r]), t.expires), now + ttl)),
      HandlerAnswer(k.reqs[r]))
    ensures k'.reqs[r].published == k.reqs[r].published
  {
    var k1 := Called(k, r, finish.0, t, now, ttl);
    CallLeads(k, r, finish.0, t, now, ttl);
    steps, k' := CallSteps(r, finish.0, t), k1;
    if finish.0 != NoFault {
      ReadFails(k, r, finish.0, t, now, ttl);
    } else {
      ExchangeReads(k, r, t, now, ttl);
      k' := Called(k1, r, finish.1, t, now, ttl);
      CallOn(k, steps, k1, r, finish.1, t, now, ttl);
      steps := steps + CallSteps(r, finish.1, t);
      Promotes(k1, r, finish.1, t, now, ttl);
    }
  }

  /** From a created record on: the run, then Complete or Release with their faults. */
  lemma RunAndFinish(k: KeyState, r: ReqId, base: HR.Headers, h: M.Handler, call: M.Call, clock: M.Clock, published: bool,
                     finish: (Fault, Fault), now: nat, ttl: nat)
    returns (steps: seq<Step>, k': KeyState)
    requires r in k.reqs && k.reqs[r] == Owner(call.hash, now, k.window)
    requires k.slot == Some(Entry(InFlightRecord(call.hash, clock.now, clock.expires), now + ttl))
    requires published ==> !h.panics && MayReturn(true, M.Recorded(base, h.ops))
    ensures LeadsTo(k, steps, now, ttl, k')
    ensures Served(k', r, M.SlotAfterRun(base, h, call, clock, now, ttl, finish), RunAnswer(base, h))
    ensures k'.reqs[r].published == published
  {
    var k1;
    steps, k1 := HandlerRuns(k, r, base, h, published, now, ttl);
    var t := Times(clock.now, clock.completedExpires);
    var more;
    if M.Caches(h) {
      more, k' := Completes(k1, r, finish, t, now, ttl);
    } else {
      more, k' := CallSteps(r, finish.0, t), Called(k1, r, finish.0, t, now, ttl);
      CallLeads(k1, r, finish.0, t, now, ttl);
      Releases(k1, r, finish.0, t, now, ttl);
    }
    LeadsOn(k, steps, k1, more, k', now, ttl);
    steps := steps + more;
  }

  /** A refused request reads the record and is answered from it, or the GET fails. */
  lemma AnswersFromRecord(k: KeyState, r: ReqId, fault: Fault, t: Times, now: nat, ttl: nat)
    requires CanCall(k, r) && k.reqs[r].stage.Reading? && k.slot.Some?
    ensures Served(Called(k, r, fault, t, now, ttl), r, k.slot,
      if fault != NoFault then Failure(500) else Replay(k.slot.value.rec, k.reqs[r].hash))
  {
    ExchangeFinds(k, r, t, now, ttl);
  }

  /** The reservation call of a request that has just arrived. */
  lemma ReservationCall(k: KeyState, r: ReqId, hash: Digest, fault: Fault, t: Times, now: nat, ttl: nat)
    requires r in k.reqs && k.reqs[r] == Arrived(hash)
    ensures var k1 := Called(k, r, fault, t, now, ttl);
      if fault != NoFault then
        Served(k1, r, if fault == Refused then k.slot else Reserve(k.slot, InFlightRecord(hash, t.created, t.expires), now, ttl).0, Failure(500))
      else if k.slot.None? then k1 == Reserved(k, r, hash, t, now, ttl)
      else k1 == With(k, r, k.reqs[r].(stage := Reading))
  {
    if k.slot.None? {
      ExchangeReserves(k, r, hash, t, now, ttl);
    } else {
      ExchangeRefused(k, r, hash, t, now, ttl);
    }
  }

  /**
    For every handler, record and fault there are steps of one request, at one time, that end in the
    slot and the answer of a whole request run alone.
  */
  lemma ServeIsARun(k: KeyState, r: ReqId, base: HR.Headers, h: M.Handler, call: M.Call, clock: M.Clock, published: bool,
                    reserve: (Fault, Fault), finish: (Fault, Fault), now: nat, ttl: nat)
    returns (steps: seq<Step>, k': KeyState)
    requires r !in k.reqs
    requires published ==> !h.panics && MayReturn(true, M.Recorded(base, h.ops))
    ensures LeadsTo(k, steps, now, ttl, k')
    ensures Served(k', r, M.ServedSlot(k.slot, base, h, call, clock, now, ttl, reserve, finish),
                   ServedAnswer(k.slot, base, h, call.hash, reserve))
  {
    var t := Times(clock.now, clock.expires);
    var k1 := After(k, Arrive(r, call.hash), now, ttl);
    OneStep(k, Arrive(r, call.hash), now, ttl);
    var k2 := Called(k1, r, reserve.0, t, now, ttl);
    CallOn(k, [Arrive(r, call.hash)], k1, r, reserve.0, t, now, ttl);
    ReservationCall(k1, r, call.hash, reserve.0, t, now, ttl);
    steps, k' := [Arrive(r, call.hash)] + CallSteps(r, reserve.0, t), k2;
    if reserve.0 == NoFault && k.slot.None? {
      var more;
      more, k' := RunAndFinish(k2, r, base, h, call, clock, published, finish, now, ttl);
      LeadsOn(k, steps, k2, more, k', now, ttl);
      steps := steps + more;
    } else if reserve.0 == NoFault {
      AnswersFromRecord(k2, r, reserve.1, t, now, ttl);
      CallOn(k, steps, k2, r, reserve.1, t, now, ttl);
      k', steps := Called(k2, r, reserve.1, t, now, ttl), steps + CallSteps(r, reserve.1, t);
    }
  }

  /**
    Edge.Serve as a run of the protocol: whatever state `k` of its key the protocol has reached, the
    key it leaves in the store and the answer it gives are those of a run of one more request.
  */
  method ServeAlone(edge: M.Edge, w: HR.ResponseWriter, call: M.Call, h: M.Handler, clock: M.Clock,
                    reserve: (Fault, Fault), finish: (Fault, Fault), order: seq<string>,
                    ghost k: KeyState, ghost r: ReqId, ghost published: bool)
    returns (trail: M.Trail, panicked: bool, ghost steps: seq<Step>, ghost k': KeyState)
    requires edge.store.redis.Valid() && w.sent == HR.Sent(None, [])
    requires Lists(order, HR.Captured(HR.HeadersAfter(w.header, h.ops)))
    requires call.key != "" && call.isUuid && call.readable
    requires k.slot == edge.store.redis.SlotOf(call.key) && r !in k.reqs
    requires published ==> !h.panics && MayReturn(true, M.Recorded(w.header, h.ops))
    modifies edge.store.redis, w
    ensures LeadsTo(k, steps, edge.store.redis.now, edge.ttl, k') && k'.slot == edge.store.redis.SlotOf(call.key)
    ensures r in k'.reqs && k'.reqs[r].stage.Finished?
    ensures k'.reqs[r].stage.answer ==
      match trail
      case Rejected(status) => Failure(status)
      case Reused(existing) => Replay(existing, call.hash)
      case _ => RunAnswer(old(w.header), h)
  {
    ghost var base := w.header;
    trail, panicked := edge.Serve(w, call, h, clock, reserve, finish, order);
    steps, k' := ServeIsARun(k, r, base, h, call, clock, published, reserve, finish, edge.store.redis.now, edge.ttl);
  }
}

/** The late release on a record the wrapped route really stores. */
module AnswerRuns {
  import opened Wrappers
  import opened Records
  import opened RecordJson
  import opened IdempotencyPort
  import opened IdempotencyProtocol
  import opened IdempotencyTheorems
  import opened IdempotencyLateScript
  import M = Middleware
  import PH = ResourceHandler
  import PR = ProvisionRoute

  /**
    For every ttl and every client whose allowed Origin shows the word: a run in which one release,
    one millisecond late, deletes the record stored for that client's accepted request, and a second
    request publishes again in the same window.
  */
  lemma LateReleaseDeletesAnAnswer(ttl: nat, id: PR.Identity, allowedOrigins: seq<string>, origin: string, text: seq<Byte>)
    returns (run: Run, j: nat)
    requires PR.Allows(allowedOrigins, origin) && ShowsWord(origin)
    ensures IsRun(run, ttl) && LateByAtMost(run, ttl, 1) && !TimelyRun(run, ttl)
    ensures j < |run.events| && run.events[j] == OnKey(KEY, Take(0))
    ensures Stored(KeyAt(run, j, KEY).slot) ==
      Some(PR.StoredAnswer(InFlightRecord([], EPOCH, EPOCH), id, allowedOrigins, origin, 202, text, EPOCH))
    ensures KeyAt(run, j + 1, KEY).slot.None? && TwoPublished(KeyAt(run, |run.events|, KEY), 1, 2)
  {
    var resp := M.Recorded(PR.BaseHeaders(id, allowedOrigins, origin), PH.JsonOps(202, text));
    PH.JsonTape(202, text, PR.BaseHeaders(id, allowedOrigins, origin));
    PR.HeadersShowIff(id, allowedOrigins, origin);
    assert StoredBy1(resp) == PR.StoredAnswer(InFlightRecord([], EPOCH, EPOCH), id, allowedOrigins, origin, 202, text, EPOCH);
    run, j := LateReleaseDeletesACompletedRecord(ttl, resp);
  }
}
