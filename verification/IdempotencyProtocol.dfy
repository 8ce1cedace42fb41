/**
  Many requests, on any number of replicas, share one key's slot. Each request sends one Redis
  command at a time; a sent command takes effect later, or never, whether or not its client is
  still there to hear the reply. Every step below is atomic.
*/
module IdempotencyProtocol {
  import opened Wrappers
  import opened Records
  import opened IdempotencyPort

  type ReqId = nat

  datatype Command = SetNx(payload: Record) | Get | Promote(payload: Record) | Remove

  datatype Reply = Tried(created: bool) | Got(found: Option<Record>) | Scripted

  /** The request's current command: none, sent but without effect so far, or carried out. */
  datatype Wire = Quiet | Sent(cmd: Command) | Answered(reply: Reply)

  datatype Stage =
    | Reserving                                // SETNX of Reserve
    | Reading                                  // GET of Reserve, after a refused SETNX
    | Handling                                 // created=true: the handler runs
    | Completing                               // GET of Complete
    | Promoting(seen: Record)                  // script of Complete
    | Releasing                                // script of Release
    | Finished(answer: Answer, failed: bool)   // `failed`: the last store call returned an error
    | Crashed

  /** When, and in which window of the key, a request's SETNX created the record. */
  datatype Birth = Birth(at: nat, window: nat)

  datatype Request = Request(
    hash: Digest,
    stage: Stage,
    wire: Wire,
    birth: Option<Birth>,
    published: bool,           // the handler's publish was acknowledged
    outcome: Option<Answer>)   // what the handler run came to: its response, or 500 after a panic

  /** A window is the time between two removals of the key by expiry or eviction. */
  datatype KeyState = KeyState(
    slot: Slot,
    reqs: map<ReqId, Request>,
    creator: ReqId,
    window: nat)

  const EMPTY := KeyState(None, map[], 0, 0)

  datatype Step =
    | Arrive(r: ReqId, hash: Digest)
    | Send(r: ReqId, created: Stamp, expires: Stamp)
    | Take(r: ReqId)                       // Redis carries out the request's command
    | Hear(r: ReqId)                       // the client receives the reply
    | GiveUp(r: ReqId)                     // the client sees an error or a timeout instead
    | Publish(r: ReqId)                    // the handler's publish is acknowledged
    | Return(r: ReqId, resp: Response)
    | Panic(r: ReqId)
    | Crash(r: ReqId)
    | Evict

  predicate Calling(s: Stage) {
    s.Reserving? || s.Reading? || s.Completing? || s.Promoting? || s.Releasing?
  }

  predicate Alive(s: Stage) {
    !s.Finished? && !s.Crashed?
  }

  predicate Enabled(k: KeyState, e: Step) {
    match e
    case Arrive(r, _) => r !in k.reqs
    case Evict => k.slot.Some?
    case _ =>
      e.r in k.reqs &&
      var q := k.reqs[e.r];
      match e
      case Send(_, _, _) => Calling(q.stage) && q.wire == Quiet
      case Take(_) => q.wire.Sent?
      case Hear(_) => Calling(q.stage) && q.wire.Answered? && Expected(q.stage, q.wire.reply)
      case GiveUp(_) => Calling(q.stage)
      case Publish(_) => q.stage == Handling && !q.published
      case Return(_, resp) => q.stage == Handling && MayReturn(q.published, resp)
      case Panic(_) => q.stage == Handling && !q.published
      case Crash(_) => Alive(q.stage)
      case _ => false
  }

  /** The hypothesis on the handler: one whose publish was acknowledged answers 202. */
  predicate MayReturn(published: bool, resp: Response) {
    published ==> resp.status == 202
  }

  /** The reply shape a stage waits for. */
  predicate Expected(s: Stage, reply: Reply) {
    match s
    case Reserving => reply.Tried?
    case Reading => reply.Got?
    case Completing => reply.Got?
    case _ => reply.Scripted?
  }

  function HandlerAnswer(q: Request): Answer {
    if q.outcome.Some? then q.outcome.value else Failure(500)
  }

  function HandlerResponse(q: Request): Response {
    if q.outcome.Some? && q.outcome.value.Fresh? then q.outcome.value.resp else Response(0, map[], [])
  }

  /** The handler returned a status that is worth caching. */
  predicate Succeeded(q: Request) {
    q.outcome.Some? && q.outcome.value.Fresh? && ShouldCache(q.outcome.value.resp.status)
  }

  function CommandFor(q: Request, created: Stamp, expires: Stamp): Command
    requires Calling(q.stage)
  {
    match q.stage
    case Reserving => SetNx(InFlightRecord(q.hash, created, expires))
    case Promoting(seen) => Promote(CompletedRecord(seen, HandlerResponse(q), expires))
    case Releasing => Remove
    case _ => Get
  }

  function StageAfterReply(q: Request): Stage
    requires Calling(q.stage) && q.wire.Answered? && Expected(q.stage, q.wire.reply)
  {
    match q.stage
    case Reserving => if q.wire.reply.created then Handling else Reading
    case Reading =>
      if q.wire.reply.found.Some? then Finished(Replay(q.wire.reply.found.value, q.hash), false)
      else Finished(Failure(500), true)
    case Completing =>
      if q.wire.reply.found.Some? then Promoting(q.wire.reply.found.value)
      else Finished(HandlerAnswer(q), false)
    case _ => Finished(HandlerAnswer(q), false)
  }

  /** A failed Reserve is answered 500; a failed Complete or Release does not change the answer. */
  function AnswerAfterError(q: Request): Answer {
    if q.stage.Reserving? || q.stage.Reading? then Failure(500) else HandlerAnswer(q)
  }

  function With(k: KeyState, r: ReqId, q: Request): KeyState {
    k.(reqs := k.reqs[r := q])
  }

  /** Redis carries out the command `r` has sent. */
  function Carried(k: KeyState, r: ReqId, now: nat, ttl: nat): KeyState
    requires r in k.reqs && k.reqs[r].wire.Sent?
  {
    var q := k.reqs[r];
    match q.wire.cmd
    case SetNx(payload) =>
      var (slot, created) := IdempotencyPort.SetNx(k.slot, payload, now, ttl);
      var q' := q.(wire := Answered(Tried(created)));
      if created
      then With(k, r, q'.(birth := Some(Birth(now, k.window)))).(slot := slot, creator := r)
      else With(k, r, q')
    case Get => With(k, r, q.(wire := Answered(Got(Stored(k.slot)))))
    case Promote(payload) =>
      With(k, r, q.(wire := Answered(Scripted))).(slot := CompleteScript(k.slot, payload, now, ttl).0)
    case Remove =>
      With(k, r, q.(wire := Answered(Scripted))).(slot := ReleaseScript(k.slot).0)
  }

  function After(k: KeyState, e: Step, now: nat, ttl: nat): KeyState
    requires Enabled(k, e)
  {
    match e
    case Arrive(r, hash) => With(k, r, Request(hash, Reserving, Quiet, None, false, None))
    case Send(r, created, expires) =>
      With(k, r, k.reqs[r].(wire := Sent(CommandFor(k.reqs[r], created, expires))))
    case Take(r) => Carried(k, r, now, ttl)
    case Hear(r) => With(k, r, k.reqs[r].(stage := StageAfterReply(k.reqs[r]), wire := Quiet))
    case GiveUp(r) => With(k, r, k.reqs[r].(stage := Finished(AnswerAfterError(k.reqs[r]), true)))
    case Publish(r) => With(k, r, k.reqs[r].(published := true))
    case Return(r, resp) =>
      With(k, r, k.reqs[r].(
        stage := if ShouldCache(resp.status) then Completing else Releasing,
        outcome := Some(Fresh(resp))))
    case Panic(r) => With(k, r, k.reqs[r].(stage := Releasing, outcome := Some(Failure(500))))
    case Crash(r) => With(k, r, k.reqs[r].(stage := Crashed))
    case Evict => Removed(k)
  }

  /** The key is removed by expiry or eviction: a new window begins. */
  function Removed(k: KeyState): KeyState {
    k.(slot := None, window := k.window + 1)
  }

  /** The clock moves to `now`. */
  function Ticked(k: KeyState, now: nat): KeyState {
    if Expire(k.slot, now) != k.slot then Removed(k) else k
  }

  /**
    What the environment may do at any time: new requests, lost commands and replies, crashes,
    evictions; and a sent command may be carried out although its client has given up or crashed.
  */
  lemma AnythingCanHappen(k: KeyState, r: ReqId, hash: Digest, now: nat, ttl: nat)
    ensures r !in k.reqs ==> Enabled(k, Arrive(r, hash))
    ensures k.slot.Some? ==> Enabled(k, Evict) && After(k, Evict, now, ttl).slot == None
    ensures r in k.reqs && k.reqs[r].wire.Sent? ==> Enabled(k, Take(r))
    ensures r in k.reqs && !k.reqs[r].stage.Finished? && !k.reqs[r].stage.Crashed? ==>
      Enabled(k, Crash(r)) && After(k, Crash(r), now, ttl) == With(k, r, k.reqs[r].(stage := Crashed))
    ensures r in k.reqs && (k.reqs[r].stage.Reserving? || k.reqs[r].stage.Reading?) ==>
      && Enabled(k, GiveUp(r))
      && After(k, GiveUp(r), now, ttl) == With(k, r, k.reqs[r].(stage := Finished(Failure(500), true)))
    ensures r in k.reqs && (k.reqs[r].stage.Completing? || k.reqs[r].stage.Promoting? || k.reqs[r].stage.Releasing?) ==>
      && Enabled(k, GiveUp(r))
      && After(k, GiveUp(r), now, ttl) == With(k, r, k.reqs[r].(stage := Finished(HandlerAnswer(k.reqs[r]), true)))
    ensures r in k.reqs && k.reqs[r].stage == Handling && !k.reqs[r].published ==>
      Enabled(k, Publish(r)) && Enabled(k, Panic(r)) && forall resp :: Enabled(k, Return(r, resp))
  {
  }

  // ---- the timing hypothesis ----

  /** The request's completion or release script may still take effect. */
  predicate MayWrite(q: Request) {
    q.birth.Some? &&
    match q.stage
    case Reserving => q.wire == Answered(Tried(true))
    case Reading => false
    case Handling => true
    case Completing => true
    case Promoting(_) => !q.wire.Answered?
    case Releasing => !q.wire.Answered?
    case _ => q.wire.Sent? && (q.wire.cmd.Promote? || q.wire.cmd.Remove?)
  }

  predicate InTime(q: Request, now: nat, ttl: nat) {
    q.birth.Some? && now <= q.birth.value.at + ttl
  }

  /**
    (T): a completion or release script takes effect within `ttl` of its owner's SETNX, and no key
    is evicted while an owner could still use it. The shape of `Wire` says that a command takes
    effect at most once.
  */
  ghost predicate Timely(k: KeyState, e: Step, now: nat, ttl: nat)
    requires Enabled(k, e)
  {
    match e
    case Take(r) =>
      var cmd := k.reqs[r].wire.cmd;
      cmd.Promote? || cmd.Remove? ==> InTime(k.reqs[r], now, ttl)
    case Evict => forall r | r in k.reqs && MayWrite(k.reqs[r]) :: !InTime(k.reqs[r], now, ttl)
    case _ => true
  }

  // ---- all keys and the clock ----

  datatype System = System(now: nat, keys: map<string, KeyState>)

  datatype Event = OnKey(key: string, step: Step) | Tick(now: nat)

  predicate Possible(s: System, e: Event) {
    match e
    case OnKey(key, step) => key in s.keys && Enabled(s.keys[key], step)
    case Tick(now) => now > s.now
  }

  function Next(s: System, e: Event, ttl: nat): System
    requires Possible(s, e)
  {
    match e
    case OnKey(key, step) => s.(keys := s.keys[key := After(s.keys[key], step, s.now, ttl)])
    case Tick(now) => System(now, map key | key in s.keys :: Ticked(s.keys[key], now))
  }

  ghost predicate TimelyEvent(s: System, e: Event, ttl: nat)
    requires Possible(s, e)
  {
    e.OnKey? ==> Timely(s.keys[e.key], e.step, s.now, ttl)
  }

  datatype Run = Run(states: seq<System>, events: seq<Event>)

  predicate Moves(run: Run, ttl: nat, i: nat) {
    && i < |run.events| && i + 1 < |run.states|
    && Possible(run.states[i], run.events[i])
    && run.states[i + 1] == Next(run.states[i], run.events[i], ttl)
  }

  /** Any finite run from an empty key space, on any finite set of keys. */
  ghost predicate IsRun(run: Run, ttl: nat) {
    && |run.states| == |run.events| + 1
    && (forall key | key in run.states[0].keys :: run.states[0].keys[key] == EMPTY)
    && (forall i: nat | i < |run.events| :: Moves(run, ttl, i))
  }

  ghost predicate MovesInTime(run: Run, ttl: nat, i: nat) {
    Moves(run, ttl, i) && TimelyEvent(run.states[i], run.events[i], ttl)
  }

  /** Every step of the run meets (T). */
  ghost predicate TimelyRun(run: Run, ttl: nat) {
    IsRun(run, ttl) && forall i: nat | i < |run.events| :: MovesInTime(run, ttl, i)
  }
}
