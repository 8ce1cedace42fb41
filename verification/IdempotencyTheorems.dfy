/** The idempotency protocol's promises over whole runs. */
module IdempotencyTheorems {
  import opened Wrappers
  import opened Records
  import opened IdempotencyPort
  import opened IdempotencyProtocol
  import opened IdempotencyInvariants

  // ---- one key's view of a run ----

  function KeyAt(run: Run, i: nat, key: string): KeyState {
    if i < |run.states| && key in run.states[i].keys then run.states[i].keys[key] else EMPTY
  }

  predicate Acts(run: Run, i: nat, key: string) {
    i < |run.events| && run.events[i].OnKey? && run.events[i].key == key
  }

  /** Keys never interfere: a step of another key leaves this one alone, and only the clock touches all. */
  lemma OneKeyMoves(run: Run, ttl: nat, i: nat, key: string)
    requires IsRun(run, ttl) && i < |run.events|
    ensures var k, k' := KeyAt(run, i, key), KeyAt(run, i + 1, key);
      if Acts(run, i, key) then Enabled(k, run.events[i].step) && k' == After(k, run.events[i].step, run.states[i].now, ttl)
      else if run.events[i].Tick? then k' == Ticked(k, run.states[i + 1].now)
      else k' == k
    ensures run.states[i].now <= run.states[i + 1].now
    ensures !run.events[i].Tick? ==> run.states[i].now == run.states[i + 1].now
  {
    assert Moves(run, ttl, i);
  }

  lemma {:induction false} BaseAlways(run: Run, ttl: nat, i: nat, key: string)
    requires IsRun(run, ttl) && i < |run.states|
    ensures BaseInv(KeyAt(run, i, key), run.states[i].now)
  {
    if i > 0 {
      BaseAlways(run, ttl, i - 1, key);
      OneKeyMoves(run, ttl, i - 1, key);
      var k, now := KeyAt(run, i - 1, key), run.states[i - 1].now;
      if Acts(run, i - 1, key) {
        BaseStep(k, run.events[i - 1].step, now, ttl);
      } else {
        BaseTick(k, now, run.states[i].now);
      }
    }
  }

  lemma {:induction false} InvAlways(run: Run, ttl: nat, i: nat, key: string)
    requires TimelyRun(run, ttl) && i < |run.states|
    ensures Inv(KeyAt(run, i, key), run.states[i].now, ttl)
  {
    if i > 0 {
      InvAlways(run, ttl, i - 1, key);
      OneKeyMoves(run, ttl, i - 1, key);
      var k, now := KeyAt(run, i - 1, key), run.states[i - 1].now;
      if Acts(run, i - 1, key) {
        assert MovesInTime(run, ttl, i - 1);
        InvStep(k, run.events[i - 1].step, now, ttl);
      } else if run.events[i - 1].Tick? {
        InvTick(k, now, run.states[i].now, ttl);
      }
    }
  }

  // ---- counting, with no timing hypothesis ----

  /** At step `i` some SETNX on the key is answered "created". */
  predicate CreatesAt(run: Run, i: nat, key: string) {
    Acts(run, i, key) && run.events[i].step.Take? &&
    var r := run.events[i].step.r;
    r in KeyAt(run, i + 1, key).reqs && KeyAt(run, i + 1, key).reqs[r].wire == Answered(Tried(true))
  }

  /** At step `i` the key's record disappears: expired, evicted or deleted by a script. */
  predicate RemovesAt(run: Run, i: nat, key: string) {
    KeyAt(run, i, key).slot.Some? && KeyAt(run, i + 1, key).slot.None?
  }

  function Reservations(run: Run, n: nat, key: string): nat {
    if n == 0 then 0 else Reservations(run, n - 1, key) + if CreatesAt(run, n - 1, key) then 1 else 0
  }

  function Removals(run: Run, n: nat, key: string): nat {
    if n == 0 then 0 else Removals(run, n - 1, key) + if RemovesAt(run, n - 1, key) then 1 else 0
  }

  /** In every run, successful reservations are removals plus the record present: completion never revives a key. */
  lemma {:induction false} ReservationsBalanceRemovals(run: Run, ttl: nat, n: nat, key: string)
    requires IsRun(run, ttl) && n < |run.states|
    ensures Reservations(run, n, key) == Removals(run, n, key) + (if KeyAt(run, n, key).slot.Some? then 1 else 0)
  {
    if n > 0 {
      ReservationsBalanceRemovals(run, ttl, n - 1, key);
      OneKeyMoves(run, ttl, n - 1, key);
    }
  }

  // ---- exclusivity ----

  /** The handler's publish was acknowledged, or it answered below 500. */
  predicate PublishedOrBelow500(q: Request) {
    q.published || (q.outcome.Some? && q.outcome.value.Fresh? && q.outcome.value.resp.status < 500)
  }

  /** Of all requests whose reservation fell in one window, at most one publishes or answers below 500. */
  lemma OneWinnerPerWindow(run: Run, ttl: nat, i: nat, key: string, r1: ReqId, r2: ReqId)
    requires TimelyRun(run, ttl) && i < |run.states|
    requires r1 in KeyAt(run, i, key).reqs && r2 in KeyAt(run, i, key).reqs
    requires PublishedOrBelow500(KeyAt(run, i, key).reqs[r1]) && PublishedOrBelow500(KeyAt(run, i, key).reqs[r2])
    ensures KeyAt(run, i, key).reqs[r1].birth.Some? && KeyAt(run, i, key).reqs[r2].birth.Some?
    ensures KeyAt(run, i, key).reqs[r1].birth.value.window == KeyAt(run, i, key).reqs[r2].birth.value.window ==> r1 == r2
  {
    InvAlways(run, ttl, i, key);
    assert RequestOk(KeyAt(run, i, key).reqs[r1], KeyAt(run, i, key).window, run.states[i].now);
    assert RequestOk(KeyAt(run, i, key).reqs[r2], KeyAt(run, i, key).window, run.states[i].now);
  }

  predicate Settled(q: Request, q': Request) {
    && q'.birth == q.birth && q'.hash == q.hash
    && (q.published ==> q'.published) && (q.outcome.Some? ==> q'.outcome == q.outcome)
  }

  lemma SettledStep(k: KeyState, e: Step, now: nat, ttl: nat, r: ReqId)
    requires BaseInv(k, now) && Enabled(k, e) && r in k.reqs && k.reqs[r].birth.Some?
    ensures r in After(k, e, now, ttl).reqs && Settled(k.reqs[r], After(k, e, now, ttl).reqs[r])
  {
  }

  /** What a request has settled stays settled. */
  lemma {:induction false} SettledStays(run: Run, ttl: nat, i: nat, j: nat, key: string, r: ReqId)
    requires IsRun(run, ttl) && i <= j < |run.states|
    requires r in KeyAt(run, i, key).reqs && KeyAt(run, i, key).reqs[r].birth.Some?
    ensures r in KeyAt(run, j, key).reqs
    ensures Settled(KeyAt(run, i, key).reqs[r], KeyAt(run, j, key).reqs[r])
    decreases j
  {
    if i < j {
      SettledStays(run, ttl, i, j - 1, key, r);
      BaseAlways(run, ttl, j - 1, key);
      OneKeyMoves(run, ttl, j - 1, key);
      if Acts(run, j - 1, key) {
        SettledStep(KeyAt(run, j - 1, key), run.events[j - 1].step, run.states[j - 1].now, ttl, r);
      }
    }
  }

  /** The publisher acknowledges at most one message per key and window. */
  lemma OnePublishPerWindow(run: Run, ttl: nat, i: nat, j: nat, key: string)
    requires TimelyRun(run, ttl) && i < j && Acts(run, i, key) && Acts(run, j, key)
    requires run.events[i].step.Publish? && run.events[j].step.Publish?
    ensures var r1, r2 := run.events[i].step.r, run.events[j].step.r;
      && r1 in KeyAt(run, i, key).reqs && r2 in KeyAt(run, j, key).reqs
      && KeyAt(run, i, key).reqs[r1].birth.Some? && KeyAt(run, j, key).reqs[r2].birth.Some?
      && KeyAt(run, i, key).reqs[r1].birth.value.window != KeyAt(run, j, key).reqs[r2].birth.value.window
  {
    var r1, r2 := run.events[i].step.r, run.events[j].step.r;
    OneKeyMoves(run, ttl, i, key);
    OneKeyMoves(run, ttl, j, key);
    BaseAlways(run, ttl, i, key);
    BaseAlways(run, ttl, j, key);
    assert RequestOk(KeyAt(run, i, key).reqs[r1], KeyAt(run, i, key).window, run.states[i].now);
    assert RequestOk(KeyAt(run, j, key).reqs[r2], KeyAt(run, j, key).window, run.states[j].now);
    SettledStays(run, ttl, i + 1, j, key, r1);
    SettledStays(run, ttl, i + 1, j + 1, key, r1);
    if KeyAt(run, i, key).reqs[r1].birth.value.window == KeyAt(run, j, key).reqs[r2].birth.value.window {
      OneWinnerPerWindow(run, ttl, j + 1, key, r1, r2);
    }
  }

  /** At most one request is between "created" and its last script while that script can be in time. */
  lemma OneOwnerInTime(run: Run, ttl: nat, i: nat, key: string, r1: ReqId, r2: ReqId)
    requires TimelyRun(run, ttl) && i < |run.states|
    requires r1 in KeyAt(run, i, key).reqs && r2 in KeyAt(run, i, key).reqs
    requires MayWrite(KeyAt(run, i, key).reqs[r1]) && InTime(KeyAt(run, i, key).reqs[r1], run.states[i].now, ttl)
    requires MayWrite(KeyAt(run, i, key).reqs[r2]) && InTime(KeyAt(run, i, key).reqs[r2], run.states[i].now, ttl)
    ensures r1 == r2 && KeyAt(run, i, key).creator == r1
    ensures KeyAt(run, i, key).slot.Some? && KeyAt(run, i, key).slot.value.rec.state == InFlight
  {
    InvAlways(run, ttl, i, key);
    var k := KeyAt(run, i, key);
    assert Live(k.reqs[r1]) && Live(k.reqs[r2]);
  }

  /** Every IN_FLIGHT record is its creator's, which can still finish it, failed a store call, or crashed. */
  lemma InFlightIsAccountedFor(run: Run, ttl: nat, i: nat, key: string)
    requires TimelyRun(run, ttl) && i < |run.states|
    requires KeyAt(run, i, key).slot.Some? && KeyAt(run, i, key).slot.value.rec.state == InFlight
    ensures KeyAt(run, i, key).creator in KeyAt(run, i, key).reqs
    ensures var q := KeyAt(run, i, key).reqs[KeyAt(run, i, key).creator];
      MayWrite(q) || q.stage.Crashed? || (q.stage.Finished? && q.stage.failed)
  {
    InvAlways(run, ttl, i, key);
  }

  /** A client is answered what its own handler run came to, or an error or a replay if it ran none. */
  lemma AnswersAreTheHandlers(run: Run, ttl: nat, i: nat, key: string, r: ReqId)
    requires IsRun(run, ttl) && i < |run.states| && r in KeyAt(run, i, key).reqs
    requires KeyAt(run, i, key).reqs[r].stage.Finished?
    ensures var q := KeyAt(run, i, key).reqs[r];
      if q.outcome.Some? then q.stage.answer == q.outcome.value else q.stage.answer.Failure? || q.stage.answer.Replayed?
  {
    BaseAlways(run, ttl, i, key);
    assert RequestOk(KeyAt(run, i, key).reqs[r], KeyAt(run, i, key).window, run.states[i].now);
  }

  // ---- refinement of the port ----

  datatype PortOp =
    | OpReserve(payload: Record)
    | OpComplete(resp: Response, expires: Stamp)
    | OpRelease
    | OpRemove   // expiry or eviction

  function ApplyOp(slot: Slot, op: PortOp, now: nat, ttl: nat): Slot {
    match op
    case OpReserve(payload) => Reserve(slot, payload, now, ttl).0
    case OpComplete(resp, expires) => Complete(slot, resp, expires, now, ttl)
    case OpRelease => Release(slot)
    case OpRemove => None
  }

  /** The port operation that takes effect at a step of a key, if any. */
  function OpOf(k: KeyState, e: Step): Option<PortOp>
    requires Enabled(k, e)
  {
    match e
    case Take(r) =>
      (match k.reqs[r].wire.cmd
       case SetNx(payload) => Some(OpReserve(payload))
       case Promote(_) => Some(OpComplete(HandlerResponse(k.reqs[r]), k.reqs[r].wire.cmd.payload.expiresAt))
       case Remove => Some(OpRelease)
       case Get => None)
    case Evict => Some(OpRemove)
    case _ => None
  }

  /**
    Under (T) each command acts on the slot as one atomic port operation would, with the reply that
    operation has: Reserve at its SETNX or, when refused, at its GET; Complete at its script.
  */
  lemma StepRefinesPort(k: KeyState, e: Step, now: nat, ttl: nat)
    requires Inv(k, now, ttl) && Enabled(k, e) && Timely(k, e, now, ttl)
    ensures After(k, e, now, ttl).slot ==
      if OpOf(k, e).Some? then ApplyOp(k.slot, OpOf(k, e).value, now, ttl) else k.slot
    ensures e.Take? && k.reqs[e.r].wire.cmd.SetNx? ==>
      After(k, e, now, ttl).reqs[e.r].wire == Answered(Tried(Reserve(k.slot, k.reqs[e.r].wire.cmd.payload, now, ttl).1))
    ensures e.Take? && k.reqs[e.r].wire.cmd.Get? ==>
      After(k, e, now, ttl).reqs[e.r].wire == Answered(Got(Stored(k.slot)))
    ensures e.Take? && k.reqs[e.r].wire.cmd.Promote? ==> k.slot.Some? && k.slot.value.rec.state == InFlight
    ensures e.Take? && k.reqs[e.r].wire.cmd.Remove? ==> k.slot.Some? && After(k, e, now, ttl).slot.None?
  {
  }

  /** A Reserve whose GET finds nothing ends in an error and has changed nothing. */
  lemma EmptyGetIsAnError(k: KeyState, r: ReqId, now: nat, ttl: nat)
    requires Enabled(k, Take(r)) && k.reqs[r].stage == Reading && k.reqs[r].wire == Sent(Get) && k.slot.None?
    ensures var k1 := After(k, Take(r), now, ttl);
      && k1.slot == k.slot
      && Enabled(k1, Hear(r))
      && After(k1, Hear(r), now, ttl).slot == k.slot
      && After(k1, Hear(r), now, ttl).reqs[r].stage == Finished(Failure(500), true)
  {
  }

  /** The slot as the atomic port operations of the first `n` steps leave it. */
  function PortSlot(run: Run, ttl: nat, n: nat, key: string): Slot
    requires IsRun(run, ttl) && n < |run.states|
  {
    if n == 0 then None
    else
      var slot, i := PortSlot(run, ttl, n - 1, key), n - 1;
      OneKeyMoves(run, ttl, i, key);
      if run.events[i].Tick? then Expire(slot, run.events[i].now)
      else if Acts(run, i, key) && OpOf(KeyAt(run, i, key), run.events[i].step).Some?
      then ApplyOp(slot, OpOf(KeyAt(run, i, key), run.events[i].step).value, run.states[i].now, ttl)
      else slot
  }

  /** Over every timely run the two-command implementation leaves exactly what atomic operations leave. */
  lemma {:induction false} RunRefinesPort(run: Run, ttl: nat, n: nat, key: string)
    requires TimelyRun(run, ttl) && n < |run.states|
    ensures PortSlot(run, ttl, n, key) == KeyAt(run, n, key).slot
  {
    if n > 0 {
      var i := n - 1;
      RunRefinesPort(run, ttl, i, key);
      OneKeyMoves(run, ttl, i, key);
      assert MovesInTime(run, ttl, i);
      if Acts(run, i, key) {
        InvAlways(run, ttl, i, key);
        StepRefinesPort(KeyAt(run, i, key), run.events[i].step, run.states[i].now, ttl);
      } else if run.events[i].Tick? {
        assert run.states[n].now == run.events[i].now;
      }
    }
  }

  // ---- replay ----

  /** Nothing evicts the key between two points of a run. */
  ghost predicate NoEviction(run: Run, i: nat, j: nat, key: string) {
    forall m: nat | i <= m < j && Acts(run, m, key) :: !run.events[m].step.Evict?
  }

  lemma CompletedStep(k: KeyState, e: Step, now: nat, ttl: nat)
    requires Inv(k, now, ttl) && Enabled(k, e) && Timely(k, e, now, ttl) && !e.Evict?
    requires k.slot.Some? && k.slot.value.rec.state == Completed
    ensures After(k, e, now, ttl).slot == k.slot
  {
  }

  /** A completed record stays as it is until its deadline. */
  lemma {:induction false} CompletedStays(run: Run, ttl: nat, i: nat, j: nat, key: string)
    requires TimelyRun(run, ttl) && i <= j < |run.states| && NoEviction(run, i, j, key)
    requires KeyAt(run, i, key).slot.Some? && KeyAt(run, i, key).slot.value.rec.state == Completed
    requires run.states[j].now <= KeyAt(run, i, key).slot.value.deadline
    ensures KeyAt(run, j, key).slot == KeyAt(run, i, key).slot
    decreases j
  {
    if i < j {
      OneKeyMoves(run, ttl, j - 1, key);
      CompletedStays(run, ttl, i, j - 1, key);
      if Acts(run, j - 1, key) {
        assert MovesInTime(run, ttl, j - 1);
        InvAlways(run, ttl, j - 1, key);
        CompletedStep(KeyAt(run, j - 1, key), run.events[j - 1].step, run.states[j - 1].now, ttl);
      }
    }
  }

  /** A request that finds the completed record `rec`: it reserves nothing and runs no handler. */
  predicate Replaying(q: Request, rec: Record) {
    q.birth.None? &&
    match q.stage
    case Reserving => q.wire == Quiet || (q.wire.Sent? && q.wire.cmd.SetNx?) || q.wire == Answered(Tried(false))
    case Reading => q.wire == Quiet || q.wire == Sent(Get) || q.wire == Answered(Got(Some(rec)))
    case Finished(answer, failed) => answer == if failed then Failure(500) else Replay(rec, q.hash)
    case Crashed => true
    case _ => false
  }

  lemma ReplayingStep(k: KeyState, e: Step, now: nat, ttl: nat, r: ReqId)
    requires Enabled(k, e) && k.slot.Some? && r in k.reqs && Replaying(k.reqs[r], k.slot.value.rec)
    ensures r in After(k, e, now, ttl).reqs && Replaying(After(k, e, now, ttl).reqs[r], k.slot.value.rec)
  {
  }

  /** The request's SETNX has not been carried out. */
  predicate Unanswered(q: Request) {
    q.stage == Reserving && !q.wire.Answered?
  }

  lemma UnansweredReplays(run: Run, ttl: nat, i: nat, key: string, r: ReqId, rec: Record)
    requires IsRun(run, ttl) && i < |run.states|
    requires r in KeyAt(run, i, key).reqs && Unanswered(KeyAt(run, i, key).reqs[r])
    ensures Replaying(KeyAt(run, i, key).reqs[r], rec)
  {
    BaseAlways(run, ttl, i, key);
    assert RequestOk(KeyAt(run, i, key).reqs[r], KeyAt(run, i, key).window, run.states[i].now);
  }

  lemma ReplayingMove(run: Run, ttl: nat, i: nat, key: string, r: ReqId, rec: Record)
    requires IsRun(run, ttl) && i < |run.events| && Stored(KeyAt(run, i, key).slot) == Some(rec)
    requires r in KeyAt(run, i, key).reqs ==> Replaying(KeyAt(run, i, key).reqs[r], rec)
    requires r in KeyAt(run, i + 1, key).reqs
    ensures Replaying(KeyAt(run, i + 1, key).reqs[r], rec)
  {
    OneKeyMoves(run, ttl, i, key);
    if Acts(run, i, key) {
      if r in KeyAt(run, i, key).reqs {
        ReplayingStep(KeyAt(run, i, key), run.events[i].step, run.states[i].now, ttl, r);
      } else if !run.events[i].step.Evict? {
        StepFrame(KeyAt(run, i, key), run.events[i].step, run.states[i].now, ttl);
      }
    }
  }

  lemma ClockMoves(run: Run, ttl: nat, i: nat)
    requires IsRun(run, ttl) && i < |run.events|
    ensures run.states[i].now <= run.states[i + 1].now
  {
    assert Moves(run, ttl, i);
  }

  /**
    Once a response is stored, every request whose SETNX comes before the record's deadline ends
    in an error of the store or in the replay of that record; no handler runs.
  */
  lemma {:induction false} LaterRequestsReplay(run: Run, ttl: nat, i: nat, j: nat, key: string, r: ReqId)
    requires TimelyRun(run, ttl) && i <= j < |run.states| && NoEviction(run, i, j, key)
    requires KeyAt(run, i, key).slot.Some? && KeyAt(run, i, key).slot.value.rec.state == Completed
    requires run.states[j].now <= KeyAt(run, i, key).slot.value.deadline
    requires r in KeyAt(run, i, key).reqs ==> Unanswered(KeyAt(run, i, key).reqs[r])
    requires r in KeyAt(run, j, key).reqs
    ensures Replaying(KeyAt(run, j, key).reqs[r], KeyAt(run, i, key).slot.value.rec)
    decreases j
  {
    if i == j {
      UnansweredReplays(run, ttl, i, key, r, KeyAt(run, i, key).slot.value.rec);
    } else {
      ClockMoves(run, ttl, j - 1);
      CompletedStays(run, ttl, i, j - 1, key);
      if r in KeyAt(run, j - 1, key).reqs {
        LaterRequestsReplay(run, ttl, i, j - 1, key, r);
      }
      ReplayingMove(run, ttl, j - 1, key, r, KeyAt(run, i, key).slot.value.rec);
    }
  }

  /** A completed record holds the response its creator's handler returned, below 500, and its hash. */
  lemma CompletedHoldsTheResponse(run: Run, ttl: nat, i: nat, key: string)
    requires TimelyRun(run, ttl) && i < |run.states|
    requires KeyAt(run, i, key).slot.Some? && KeyAt(run, i, key).slot.value.rec.state == Completed
    ensures KeyAt(run, i, key).creator in KeyAt(run, i, key).reqs
    ensures var q, rec := KeyAt(run, i, key).reqs[KeyAt(run, i, key).creator], KeyAt(run, i, key).slot.value.rec;
      && q.outcome.Some? && q.outcome.value.Fresh? && q.outcome.value.resp.status < 500
      && rec.requestHash == q.hash
      && Response(rec.statusCode, rec.headers, rec.body) == q.outcome.value.resp
  {
    InvAlways(run, ttl, i, key);
  }

  /** A completion script taken in time stores its owner's response for `ttl` from then on. */
  lemma CompletionStores(run: Run, ttl: nat, i: nat, key: string)
    requires TimelyRun(run, ttl) && Acts(run, i, key) && run.events[i].step.Take?
    requires run.events[i].step.r in KeyAt(run, i, key).reqs
    requires KeyAt(run, i, key).reqs[run.events[i].step.r].wire.Sent?
    requires KeyAt(run, i, key).reqs[run.events[i].step.r].wire.cmd.Promote?
    ensures KeyAt(run, i + 1, key).slot.Some?
    ensures var q, e := KeyAt(run, i, key).reqs[run.events[i].step.r], KeyAt(run, i + 1, key).slot.value;
      && e.rec.state == Completed && e.deadline == run.states[i].now + ttl
      && e.rec.requestHash == q.hash && e.rec.statusCode < 500
      && q.outcome == Some(Fresh(Response(e.rec.statusCode, e.rec.headers, e.rec.body)))
      && e.rec.expiresAt == KeyAt(run, i, key).reqs[run.events[i].step.r].wire.cmd.payload.expiresAt
  {
    OneKeyMoves(run, ttl, i, key);
    assert MovesInTime(run, ttl, i);
    InvAlways(run, ttl, i, key);
    ScriptMeetsOwnRecord(KeyAt(run, i, key), run.events[i].step.r, run.states[i].now, ttl);
  }

  /**
    For `ttl` after a completion every request that has not been answered before, and whose store
    calls succeed, is answered by replaying the stored response; a different hash gets 422.
  */
  lemma RepliesForTtlAfterCompletion(run: Run, ttl: nat, i: nat, j: nat, key: string, r: ReqId)
    requires TimelyRun(run, ttl) && Acts(run, i, key) && run.events[i].step.Take?
    requires run.events[i].step.r in KeyAt(run, i, key).reqs
    requires KeyAt(run, i, key).reqs[run.events[i].step.r].wire.Sent?
    requires KeyAt(run, i, key).reqs[run.events[i].step.r].wire.cmd.Promote?
    requires i < j < |run.states| && NoEviction(run, i + 1, j, key) && run.states[j].now <= run.states[i].now + ttl
    requires r in KeyAt(run, i + 1, key).reqs ==> Unanswered(KeyAt(run, i + 1, key).reqs[r])
    requires r in KeyAt(run, j, key).reqs
    ensures var owner, q := KeyAt(run, i, key).reqs[run.events[i].step.r], KeyAt(run, j, key).reqs[r];
      && q.birth.None? && !q.stage.Handling?
      && (q.stage.Finished? && !q.stage.failed ==>
            if q.hash != owner.hash then q.stage.answer == Failure(422)
            else
              && q.stage.answer.Replayed? && owner.outcome.Some? && owner.outcome.value.Fresh?
              && owner.outcome.value.resp.status < 500
              && q.stage.answer.resp.body == owner.outcome.value.resp.body
              && (owner.outcome.value.resp.status != 0 ==> q.stage.answer.resp.status == owner.outcome.value.resp.status))
  {
    CompletionStores(run, ttl, i, key);
    LaterRequestsReplay(run, ttl, i + 1, j, key, r);
  }

  /** The request has been told `found` by its GET, or has been answered from it, or will never be answered. */
  predicate HasGot(q: Request, found: Option<Record>) {
    match q.stage
    case Reading => q.wire == Answered(Got(found))
    case Finished(answer, failed) =>
      if found.None? then answer == Failure(500) && failed
      else answer == if failed then Failure(500) else Replay(found.value, q.hash)
    case Crashed => true
    case _ => false
  }

  lemma GotStep(k: KeyState, e: Step, now: nat, ttl: nat, r: ReqId, found: Option<Record>)
    requires Enabled(k, e) && r in k.reqs && HasGot(k.reqs[r], found)
    ensures r in After(k, e, now, ttl).reqs && HasGot(After(k, e, now, ttl).reqs[r], found)
  {
  }

  lemma {:induction false} GotStays(run: Run, ttl: nat, j: nat, m: nat, key: string, r: ReqId, found: Option<Record>)
    requires IsRun(run, ttl) && j <= m < |run.states|
    requires r in KeyAt(run, j, key).reqs && HasGot(KeyAt(run, j, key).reqs[r], found)
    ensures r in KeyAt(run, m, key).reqs && HasGot(KeyAt(run, m, key).reqs[r], found)
    decreases m
  {
    if j < m {
      GotStays(run, ttl, j, m - 1, key, r, found);
      OneKeyMoves(run, ttl, m - 1, key);
      if Acts(run, m - 1, key) {
        GotStep(KeyAt(run, m - 1, key), run.events[m - 1].step, run.states[m - 1].now, ttl, r, found);
      }
    }
  }

  /** A completed record is what its key holds exactly up to its deadline; afterwards its window is over. */
  lemma {:induction false} HeldUntilDeadline(run: Run, ttl: nat, i: nat, g: nat, key: string)
    requires TimelyRun(run, ttl) && i <= g < |run.states| && NoEviction(run, i, g, key)
    requires KeyAt(run, i, key).slot.Some? && KeyAt(run, i, key).slot.value.rec.state == Completed
    ensures KeyAt(run, g, key).slot == KeyAt(run, i, key).slot
      <==> run.states[g].now <= KeyAt(run, i, key).slot.value.deadline
    ensures
      if run.states[g].now <= KeyAt(run, i, key).slot.value.deadline
      then KeyAt(run, g, key).window == KeyAt(run, i, key).window
      else KeyAt(run, g, key).window > KeyAt(run, i, key).window
    decreases g
  {
    InvAlways(run, ttl, g, key);
    if i < g {
      HeldUntilDeadline(run, ttl, i, g - 1, key);
      OneKeyMoves(run, ttl, g - 1, key);
      if Acts(run, g - 1, key) {
        assert MovesInTime(run, ttl, g - 1);
        InvAlways(run, ttl, g - 1, key);
        StepKeepsWindow(KeyAt(run, g - 1, key), run.events[g - 1].step, run.states[g - 1].now, ttl);
      }
    }
    if run.states[g].now <= KeyAt(run, i, key).slot.value.deadline {
      CompletedStays(run, ttl, i, g, key);
    }
  }

  lemma StepKeepsWindow(k: KeyState, e: Step, now: nat, ttl: nat)
    requires Enabled(k, e) && !e.Evict?
    ensures After(k, e, now, ttl).window == k.window
  {
  }

  /**
    What a refused request is answered, whenever its GET comes: the record the key holds at that
    instant, or an error if it holds none. That is the completed record if and only if the GET comes
    by its deadline; later it is nothing, or what another window holds.
  */
  lemma RefusedRequestsAnswer(run: Run, ttl: nat, i: nat, g: nat, m: nat, key: string, r: ReqId)
    requires TimelyRun(run, ttl) && i <= g < m < |run.states| && NoEviction(run, i, g, key)
    requires KeyAt(run, i, key).slot.Some? && KeyAt(run, i, key).slot.value.rec.state == Completed
    requires run.events[g] == OnKey(key, Take(r)) && r in KeyAt(run, g, key).reqs
    requires KeyAt(run, g, key).reqs[r].stage == Reading && KeyAt(run, g, key).reqs[r].wire == Sent(Get)
    ensures r in KeyAt(run, m, key).reqs && HasGot(KeyAt(run, m, key).reqs[r], Stored(KeyAt(run, g, key).slot))
    ensures KeyAt(run, g, key).slot == KeyAt(run, i, key).slot
      <==> run.states[g].now <= KeyAt(run, i, key).slot.value.deadline
    ensures run.states[g].now > KeyAt(run, i, key).slot.value.deadline ==>
      KeyAt(run, g, key).window > KeyAt(run, i, key).window
  {
    HeldUntilDeadline(run, ttl, i, g, key);
    OneKeyMoves(run, ttl, g, key);
    GotStays(run, ttl, g + 1, m, key, r, Stored(KeyAt(run, g, key).slot));
  }

  /** A request that has been refused: it has run no handler and has no command out but a GET. */
  predicate NeverRuns(q: Request) {
    && q.birth.None? && q.outcome.None? && !q.published
    && (q.wire.Sent? ==> q.wire.cmd.Get?)
    && match q.stage
       case Reserving => q.wire == Answered(Tried(false))
       case Reading => !q.wire.Answered? || q.wire.reply.Got?
       case Finished(answer, _) => !answer.Fresh?
       case Crashed => true
       case _ => false
  }

  lemma NeverRunsStep(k: KeyState, e: Step, now: nat, ttl: nat, r: ReqId)
    requires Enabled(k, e) && r in k.reqs && NeverRuns(k.reqs[r])
    ensures r in After(k, e, now, ttl).reqs && NeverRuns(After(k, e, now, ttl).reqs[r])
  {
  }

  /** In every run, with no hypothesis: a request whose SETNX was refused never runs the handler. */
  lemma {:induction false} RefusedNeverRuns(run: Run, ttl: nat, j: nat, m: nat, key: string, r: ReqId)
    requires IsRun(run, ttl) && j <= m < |run.states| && r in KeyAt(run, j, key).reqs
    requires KeyAt(run, j, key).reqs[r].stage == Reserving && KeyAt(run, j, key).reqs[r].wire == Answered(Tried(false))
    ensures r in KeyAt(run, m, key).reqs && NeverRuns(KeyAt(run, m, key).reqs[r])
    decreases m
  {
    if j == m {
      BaseAlways(run, ttl, j, key);
      assert RequestOk(KeyAt(run, j, key).reqs[r], KeyAt(run, j, key).window, run.states[j].now);
    } else {
      RefusedNeverRuns(run, ttl, j, m - 1, key, r);
      OneKeyMoves(run, ttl, m - 1, key);
      if Acts(run, m - 1, key) {
        NeverRunsStep(KeyAt(run, m - 1, key), run.events[m - 1].step, run.states[m - 1].now, ttl, r);
      }
    }
  }

  /** So, under (T), no request whose SETNX comes between a completion and its deadline ever runs the handler. */
  lemma LaterRequestsNeverRun(run: Run, ttl: nat, i: nat, j: nat, m: nat, key: string, r: ReqId)
    requires TimelyRun(run, ttl) && i <= j < m < |run.states| && NoEviction(run, i, j, key)
    requires KeyAt(run, i, key).slot.Some? && KeyAt(run, i, key).slot.value.rec.state == Completed
    requires run.states[j].now <= KeyAt(run, i, key).slot.value.deadline
    requires run.events[j] == OnKey(key, Take(r)) && r in KeyAt(run, j, key).reqs
    requires KeyAt(run, j, key).reqs[r].stage == Reserving && KeyAt(run, j, key).reqs[r].wire.Sent?
    ensures r in KeyAt(run, m, key).reqs && NeverRuns(KeyAt(run, m, key).reqs[r])
  {
    HeldUntilDeadline(run, ttl, i, j, key);
    BaseAlways(run, ttl, j, key);
    assert RequestOk(KeyAt(run, j, key).reqs[r], KeyAt(run, j, key).window, run.states[j].now);
    OneKeyMoves(run, ttl, j, key);
    RefusedNeverRuns(run, ttl, j + 1, m, key, r);
  }

  /** A request that has read the stored record before its deadline is answered from it, however late the answer. */
  lemma LateAnswersReplayToo(run: Run, ttl: nat, i: nat, j: nat, m: nat, key: string, r: ReqId)
    requires TimelyRun(run, ttl) && i <= j <= m < |run.states| && NoEviction(run, i, j, key)
    requires KeyAt(run, i, key).slot.Some? && KeyAt(run, i, key).slot.value.rec.state == Completed
    requires run.states[j].now <= KeyAt(run, i, key).slot.value.deadline
    requires r in KeyAt(run, i, key).reqs ==> Unanswered(KeyAt(run, i, key).reqs[r])
    requires r in KeyAt(run, j, key).reqs && KeyAt(run, j, key).reqs[r].stage.Reading?
    requires KeyAt(run, j, key).reqs[r].wire.Answered?
    ensures r in KeyAt(run, m, key).reqs && HasGot(KeyAt(run, m, key).reqs[r], Stored(KeyAt(run, i, key).slot))
  {
    LaterRequestsReplay(run, ttl, i, j, key, r);
    GotStays(run, ttl, j, m, key, r, Stored(KeyAt(run, i, key).slot));
  }

  /**
    What a replay looks like to the client, when distinct bodies have distinct digests: the same
    body gets the first response's status and body bytes, marked as a replay; another body gets 422.
  */
  lemma ReplayByBody(rec: Record, resp: Response, body: seq<Byte>, digest: seq<Byte> -> Digest, first: seq<Byte>)
    requires forall a, b | digest(a) == digest(b) :: a == b
    requires rec.state == Completed && rec.requestHash == digest(first)
    requires Response(rec.statusCode, rec.headers, rec.body) == resp
    ensures body != first ==> Replay(rec, digest(body)) == Failure(422)
    ensures body == first ==>
      && Replay(rec, digest(body)).Replayed?
      && var again := Replay(rec, digest(body)).resp;
         && again.status == (if resp.status == 0 then 200 else resp.status)
         && again.body == resp.body
         && again.headers == resp.headers["X-Idempotent-Replay" := "true"]
  {
  }

  /** What Complete copies from the record it read. */
  datatype Origin = Origin(hash: Digest, createdAt: Stamp)

  function OriginOf(slot: Slot): Origin
    requires slot.Some?
  {
    Origin(slot.value.rec.requestHash, slot.value.rec.createdAt)
  }

  lemma HashStep(k: KeyState, e: Step, now: nat, ttl: nat)
    requires Inv(k, now, ttl) && Enabled(k, e) && Timely(k, e, now, ttl)
    requires k.slot.Some? && After(k, e, now, ttl).slot.Some?
    ensures OriginOf(After(k, e, now, ttl).slot) == OriginOf(k.slot)
  {
  }

  lemma HashMove(run: Run, ttl: nat, i: nat, key: string)
    requires TimelyRun(run, ttl) && i < |run.events|
    requires KeyAt(run, i, key).slot.Some? && KeyAt(run, i + 1, key).slot.Some?
    ensures OriginOf(KeyAt(run, i + 1, key).slot) == OriginOf(KeyAt(run, i, key).slot)
  {
    OneKeyMoves(run, ttl, i, key);
    if Acts(run, i, key) {
      assert MovesInTime(run, ttl, i);
      InvAlways(run, ttl, i, key);
      HashStep(KeyAt(run, i, key), run.events[i].step, run.states[i].now, ttl);
    }
  }

  /** From reservation to removal a record keeps its hash and creation time. */
  lemma {:induction false} HashNeverChanges(run: Run, ttl: nat, i: nat, j: nat, key: string)
    requires TimelyRun(run, ttl) && i <= j < |run.states|
    requires forall m: nat | i <= m <= j :: KeyAt(run, m, key).slot.Some?
    ensures OriginOf(KeyAt(run, j, key).slot) == OriginOf(KeyAt(run, i, key).slot)
    decreases j
  {
    if i < j {
      HashNeverChanges(run, ttl, i, j - 1, key);
      HashMove(run, ttl, j - 1, key);
    }
  }
}
