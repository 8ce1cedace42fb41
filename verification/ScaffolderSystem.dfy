/**
  Any number of workers handle redelivered messages at once. An attempt is one delivery's handling;
  it sends one command at a time, and a sent command takes effect later or never, whether or not
  the worker is still there. The log records every effect on the shared services, in order.
*/
module ScaffolderSystem {
  import opened Wrappers
  import opened NameReservations
  import opened ScaffolderTasks

  type Id = nat

  /** An outcome as reported to Step Functions. */
  datatype Verdict = Success(claim: Reservation, replayed: bool) | Failure(code: string)

  datatype Effect =
    | Wrote(a: Id, msg: Id, claim: Reservation, outcome: Outcome)
    | Swept(name: string, at: int)
    | Accepted(a: Id, msg: Id, token: string, verdict: Verdict)
    | Deleted(a: Id, msg: Id)

  datatype Command = PutItem(claim: Reservation) | SendVerdict(token: string, verdict: Verdict) | DeleteMessage

  datatype Reply = PutDone(outcome: Outcome) | VerdictAccepted | VerdictRejected | MessageGone

  datatype Wire = Quiet | Sent(cmd: Command) | Answered(reply: Reply)

  datatype How = Left | Done | Escaped | Crashed

  datatype Stage =
    | Received
    | Claiming(claim: Reservation)
    | Reporting(verdict: Verdict)
    | Deleting(verdict: Verdict)
    | Ended(how: How)

  datatype Attempt = Attempt(msg: Id, stage: Stage, wire: Wire)

  datatype System = System(
    now: int,
    items: map<string, Item>,
    accepted: map<string, Verdict>,
    attempts: map<Id, Attempt>,
    log: seq<Effect>)

  /** What does not change during a run: the messages' bodies and the reservation TTL. */
  datatype Setting = Setting(bodies: map<Id, Body>, ttl: int)

  datatype Step =
    | Receive(a: Id, msg: Id)
    | Begin(a: Id, clock: int)        // the worker's clock may differ from the sweeper's
    | Send(a: Id)
    | Take(a: Id, accepts: bool)      // `accepts`: Step Functions still waits for this token
    | Hear(a: Id)
    | GiveUp(a: Id)                   // an exception instead of a reply, or shutdown
    | Crash(a: Id)
    | Sweep(name: string)
    | Tick(now: int)

  function TokenOf(env: Setting, msg: Id): string {
    if msg in env.bodies && env.bodies[msg].Envelope? then env.bodies[msg].token else ""
  }

  function Held(s: System, name: string): Option<Item> {
    if name in s.items then Some(s.items[name]) else None
  }

  predicate Calling(x: Stage) {
    x.Claiming? || x.Reporting? || x.Deleting?
  }

  predicate Enabled(env: Setting, s: System, e: Step) {
    match e
    case Receive(a, msg) => a !in s.attempts && msg in env.bodies
    case Sweep(name) => name in s.items && MaySweep(s.items[name], s.now)
    case Tick(now) => now >= s.now
    case _ =>
      e.a in s.attempts &&
      var x := s.attempts[e.a];
      match e
      case Begin(_, _) => x.stage == Received && x.msg in env.bodies
      case Send(_) => Calling(x.stage) && x.wire == Quiet
      case Take(_, _) => x.wire.Sent?
      case Hear(_) => Calling(x.stage) && x.wire.Answered? && Expected(x.stage, x.wire.reply)
      case GiveUp(_) => Calling(x.stage)
      case Crash(_) => !x.stage.Ended?
      case _ => false
  }

  predicate Expected(x: Stage, reply: Reply) {
    match x
    case Claiming(_) => reply.PutDone?
    case Reporting(_) => reply.VerdictAccepted? || reply.VerdictRejected?
    case _ => reply.MessageGone?
  }

  function CommandFor(env: Setting, x: Attempt): Command
    requires Calling(x.stage)
  {
    match x.stage
    case Claiming(claim) => PutItem(claim)
    case Reporting(verdict) => SendVerdict(TokenOf(env, x.msg), verdict)
    case Deleting(_) => DeleteMessage
  }

  /**
    An exception on the success path is caught and the message left; one thrown while reporting a
    failure is raised inside a catch block, leaves HandleAsync and stops the worker.
  */
  function AfterError(x: Stage): Stage
    requires Calling(x)
  {
    match x
    case Claiming(_) => Ended(Left)
    case Reporting(verdict) => Ended(if verdict.Failure? then Escaped else Left)
    case Deleting(verdict) => Ended(if verdict.Failure? then Escaped else Left)
  }

  function AfterReply(x: Stage, reply: Reply): Stage
    requires Calling(x) && Expected(x, reply)
  {
    match x
    case Claiming(claim) =>
      (match reply.outcome
       case Created => Reporting(Success(claim, false))
       case AlreadyHeldByThisRequest => Reporting(Success(claim, true))
       case NameAlreadyReserved => Reporting(Failure(NAME_ALREADY_RESERVED)))
    case Reporting(verdict) => if reply.VerdictAccepted? then Deleting(verdict) else AfterError(x)
    case Deleting(_) => Ended(Done)
  }

  ghost function Begun(env: Setting, x: Attempt, clock: int): Stage
    requires x.msg in env.bodies
  {
    match PlanFor(env.bodies[x.msg], clock, env.ttl)
    case LeaveMessage => Ended(Left)
    case Report(code) => Reporting(Failure(code))
    case Claim(r) => Claiming(r)
  }

  function With(s: System, a: Id, x: Attempt): System {
    s.(attempts := s.attempts[a := x])
  }

  /** A shared service carries out the command the attempt has sent. */
  function Carried(s: System, a: Id, accepts: bool): System
    requires a in s.attempts && s.attempts[a].wire.Sent?
  {
    var x := s.attempts[a];
    match x.wire.cmd
    case PutItem(claim) =>
      var (item, reply) := Put(Held(s, claim.name), ToItem(claim));
      With(s, a, x.(wire := Answered(PutDone(Decode(reply))))).(
        items := s.items[claim.name := item],
        log := s.log + [Wrote(a, x.msg, claim, Decode(reply))])
    case SendVerdict(token, verdict) =>
      if accepts && token !in s.accepted then
        With(s, a, x.(wire := Answered(VerdictAccepted))).(
          accepted := s.accepted[token := verdict],
          log := s.log + [Accepted(a, x.msg, token, verdict)])
      else With(s, a, x.(wire := Answered(VerdictRejected)))
    case DeleteMessage =>
      With(s, a, x.(wire := Answered(MessageGone))).(log := s.log + [Deleted(a, x.msg)])
  }

  ghost function After(env: Setting, s: System, e: Step): System
    requires Enabled(env, s, e)
  {
    match e
    case Receive(a, msg) => With(s, a, Attempt(msg, Received, Quiet))
    case Begin(a, clock) => With(s, a, s.attempts[a].(stage := Begun(env, s.attempts[a], clock)))
    case Send(a) => With(s, a, s.attempts[a].(wire := Sent(CommandFor(env, s.attempts[a]))))
    case Take(a, accepts) => Carried(s, a, accepts)
    case Hear(a) => With(s, a, s.attempts[a].(stage := AfterReply(s.attempts[a].stage, s.attempts[a].wire.reply), wire := Quiet))
    case GiveUp(a) => With(s, a, s.attempts[a].(stage := AfterError(s.attempts[a].stage)))
    case Crash(a) => With(s, a, s.attempts[a].(stage := Ended(Crashed)))
    case Sweep(name) => s.(items := s.items - {name}, log := s.log + [Swept(name, s.now)])
    case Tick(now) => s.(now := now)
  }

  /**
    What the environment may do at any time: deliver any message again, carry out a sent command
    although its worker is gone, lose commands and replies, stop workers, sweep what is due.
  */
  lemma AnythingCanHappen(env: Setting, s: System, a: Id, msg: Id, accepts: bool, name: string)
    ensures a !in s.attempts && msg in env.bodies ==> Enabled(env, s, Receive(a, msg))
    ensures a in s.attempts && s.attempts[a].wire.Sent? ==> Enabled(env, s, Take(a, accepts))
    ensures a in s.attempts && !s.attempts[a].stage.Ended? ==>
      Enabled(env, s, Crash(a)) && After(env, s, Crash(a)) == With(s, a, s.attempts[a].(stage := Ended(Crashed)))
    ensures a in s.attempts && s.attempts[a].stage.Claiming? ==>
      Enabled(env, s, GiveUp(a)) && After(env, s, GiveUp(a)) == With(s, a, s.attempts[a].(stage := Ended(Left)))
    ensures a in s.attempts && (s.attempts[a].stage.Reporting? || s.attempts[a].stage.Deleting?) ==>
      && Enabled(env, s, GiveUp(a))
      && After(env, s, GiveUp(a)) ==
           With(s, a, s.attempts[a].(stage := Ended(if s.attempts[a].stage.verdict.Failure? then Escaped else Left)))
    ensures name in s.items && s.items[name].expiresAt * 10_000_000 <= s.now ==>
      Enabled(env, s, Sweep(name)) && After(env, s, Sweep(name)).items == s.items - {name}
  {
  }

  datatype Run = Run(states: seq<System>, steps: seq<Step>)

  ghost predicate Moves(env: Setting, run: Run, i: nat) {
    && i < |run.steps| && i + 1 < |run.states|
    && Enabled(env, run.states[i], run.steps[i])
    && run.states[i + 1] == After(env, run.states[i], run.steps[i])
  }

  /** Any finite run from an empty table, at any starting time. */
  ghost predicate IsRun(env: Setting, run: Run) {
    && |run.states| == |run.steps| + 1
    && run.states[0] == System(run.states[0].now, map[], map[], map[], [])
    && (forall i: nat | i < |run.steps| :: Moves(env, run, i))
  }
}

/** What the log of every run looks like. */
module ScaffolderInvariants {
  import opened Wrappers
  import opened NameReservations
  import opened ScaffolderTasks
  import opened ScaffolderSystem

  /** Who holds a name after the logged effects, computed from the log alone. */
  function Holder(log: seq<Effect>, name: string): Option<Reservation> {
    if log == [] then None
    else
      var before, e := Holder(log[..|log| - 1], name), log[|log| - 1];
      match e
      case Wrote(_, _, claim, outcome) => if claim.name == name && outcome != NameAlreadyReserved then Some(claim) else before
      case Swept(n, _) => if n == name then None else before
      case _ => before
  }

  predicate Successful(e: Effect) {
    e.Wrote? && e.outcome != NameAlreadyReserved
  }

  /** The message asks for this claim at the clock reading the claim was made with. */
  ghost predicate Planned(env: Setting, msg: Id, claim: Reservation) {
    msg in env.bodies && PlanFor(env.bodies[msg], claim.createdAt, env.ttl) == Claim(claim)
  }

  /** An attempt's verdict is backed by its own put, or is the failure its message is planned as. */
  ghost predicate Backed(env: Setting, log: seq<Effect>, a: Id, msg: Id, v: Verdict) {
    match v
    case Success(claim, replayed) => Wrote(a, msg, claim, if replayed then AlreadyHeldByThisRequest else Created) in log
    case Failure(code) =>
      if code == NAME_ALREADY_RESERVED then exists claim :: Wrote(a, msg, claim, NameAlreadyReserved) in log
      else msg in env.bodies && PlanFor(env.bodies[msg], 0, env.ttl) == Report(code)
  }

  ghost predicate Verdicted(log: seq<Effect>, a: Id, msg: Id, token: string) {
    exists v :: Accepted(a, msg, token, v) in log
  }

  /** One effect fits the effects before it. */
  ghost predicate EffectOk(env: Setting, before: seq<Effect>, e: Effect) {
    match e
    case Wrote(_, msg, claim, outcome) => Planned(env, msg, claim) &&
      (match outcome
       case Created => Holder(before, claim.name).None?
       case AlreadyHeldByThisRequest =>
         Holder(before, claim.name).Some? && Holder(before, claim.name).value.requestId == claim.requestId
       case NameAlreadyReserved =>
         Holder(before, claim.name).Some? && Holder(before, claim.name).value.requestId != claim.requestId)
    case Swept(name, at) => Holder(before, name).Some? && MaySweep(ToItem(Holder(before, name).value), at)
    case Accepted(a, msg, token, v) =>
      token == TokenOf(env, msg) && Backed(env, before, a, msg, v) && forall b, m, w :: Accepted(b, m, token, w) !in before
    case Deleted(a, msg) => Verdicted(before, a, msg, TokenOf(env, msg))
  }

  ghost predicate EffectAt(env: Setting, log: seq<Effect>, i: nat)
    requires i < |log|
  {
    EffectOk(env, log[..i], log[i])
  }

  ghost predicate LogOk(env: Setting, log: seq<Effect>) {
    forall i: nat | i < |log| :: EffectAt(env, log, i)
  }

  ghost predicate AttemptOk(env: Setting, log: seq<Effect>, a: Id, x: Attempt) {
    && (x.stage == Received ==> x.wire == Quiet)
    && (x.stage.Claiming? ==>
          && Planned(env, x.msg, x.stage.claim)
          && (x.wire.Sent? ==> x.wire.cmd == PutItem(x.stage.claim))
          && (x.wire.Answered? ==> x.wire.reply.PutDone? && Wrote(a, x.msg, x.stage.claim, x.wire.reply.outcome) in log))
    && (x.stage.Reporting? ==>
          && Backed(env, log, a, x.msg, x.stage.verdict)
          && (x.wire.Sent? ==> x.wire.cmd == SendVerdict(TokenOf(env, x.msg), x.stage.verdict))
          && (x.wire == Answered(VerdictAccepted) ==> Verdicted(log, a, x.msg, TokenOf(env, x.msg))))
    && (x.stage.Deleting? ==>
          && Verdicted(log, a, x.msg, TokenOf(env, x.msg))
          && (x.wire.Sent? ==> x.wire.cmd == DeleteMessage))
    && (x.wire.Sent? && x.wire.cmd.PutItem? ==> Planned(env, x.msg, x.wire.cmd.claim))
    && (x.wire.Sent? && x.wire.cmd.SendVerdict? ==>
          x.wire.cmd.token == TokenOf(env, x.msg) && Backed(env, log, a, x.msg, x.wire.cmd.verdict))
    && (x.wire.Sent? && x.wire.cmd.DeleteMessage? ==> Verdicted(log, a, x.msg, TokenOf(env, x.msg)))
  }

  ghost predicate TableOk(s: System) {
    forall name: string ::
      Held(s, name) == if Holder(s.log, name).Some? then Some(ToItem(Holder(s.log, name).value)) else None
  }

  ghost predicate AcceptedOk(s: System) {
    forall a, msg, token, v | Accepted(a, msg, token, v) in s.log :: token in s.accepted && s.accepted[token] == v
  }

  ghost predicate Inv(env: Setting, s: System) {
    && LogOk(env, s.log) && TableOk(s) && AcceptedOk(s)
    && forall a | a in s.attempts :: AttemptOk(env, s.log, a, s.attempts[a])
  }

  // ---- the log only grows ----

  lemma AttemptGrows(env: Setting, log: seq<Effect>, e: Effect, a: Id, x: Attempt)
    requires AttemptOk(env, log, a, x)
    ensures AttemptOk(env, log + [e], a, x)
  {
  }

  lemma LogGrows(env: Setting, log: seq<Effect>, e: Effect)
    requires LogOk(env, log) && EffectOk(env, log, e)
    ensures LogOk(env, log + [e])
  {
    forall i: nat | i < |log + [e]|
      ensures EffectAt(env, log + [e], i)
    {
      if i < |log| {
        assert EffectAt(env, log, i);
        assert (log + [e])[..i] == log[..i];
      } else {
        assert (log + [e])[..i] == log;
      }
    }
  }

  lemma HolderGrows(log: seq<Effect>, e: Effect, name: string)
    ensures Holder(log + [e], name) ==
      match e
      case Wrote(_, _, claim, outcome) =>
        if claim.name == name && outcome != NameAlreadyReserved then Some(claim) else Holder(log, name)
      case Swept(n, _) => if n == name then None else Holder(log, name)
      case _ => Holder(log, name)
  {
  }

  // ---- steps ----

  /** The rest of the invariant follows once the new effect and the acting attempt are in order. */
  lemma InvWithEffect(env: Setting, s: System, s': System, e: Effect, a: Id)
    requires Inv(env, s) && s'.log == s.log + [e] && EffectOk(env, s.log, e)
    requires TableOk(s') && AcceptedOk(s')
    requires forall b | b in s'.attempts && b != a :: b in s.attempts && s'.attempts[b] == s.attempts[b]
    requires a in s'.attempts ==> AttemptOk(env, s'.log, a, s'.attempts[a])
    ensures Inv(env, s')
  {
    LogGrows(env, s.log, e);
    forall b | b in s'.attempts && b != a
      ensures AttemptOk(env, s'.log, b, s'.attempts[b])
    {
      AttemptGrows(env, s.log, e, b, s.attempts[b]);
    }
  }

  lemma PutKeepsInv(env: Setting, s: System, a: Id, accepts: bool)
    requires Inv(env, s) && a in s.attempts && s.attempts[a].wire.Sent? && s.attempts[a].wire.cmd.PutItem?
    ensures Inv(env, Carried(s, a, accepts))
  {
    var x, s' := s.attempts[a], Carried(s, a, accepts);
    var claim := x.wire.cmd.claim;
    var e := s'.log[|s.log|];
    DecodingIsExact(Held(s, claim.name), ToItem(claim));
    forall name: string
      ensures Held(s', name) == if Holder(s'.log, name).Some? then Some(ToItem(Holder(s'.log, name).value)) else None
    {
      HolderGrows(s.log, e, name);
      assert Held(s, name) == if Holder(s.log, name).Some? then Some(ToItem(Holder(s.log, name).value)) else None;
    }
    AttemptGrows(env, s.log, e, a, x);
    InvWithEffect(env, s, s', e, a);
  }

  lemma TableUntouched(s: System, s': System, e: Effect)
    requires TableOk(s) && s'.items == s.items && s'.log == s.log + [e] && !e.Wrote? && !e.Swept?
    ensures TableOk(s')
  {
    forall name: string
      ensures Held(s', name) == if Holder(s'.log, name).Some? then Some(ToItem(Holder(s'.log, name).value)) else None
    {
      HolderGrows(s.log, e, name);
      assert Held(s', name) == Held(s, name);
    }
  }

  lemma VerdictKeepsInv(env: Setting, s: System, a: Id, accepts: bool)
    requires Inv(env, s) && a in s.attempts && s.attempts[a].wire.Sent? && s.attempts[a].wire.cmd.SendVerdict?
    ensures Inv(env, Carried(s, a, accepts))
  {
    var x, s' := s.attempts[a], Carried(s, a, accepts);
    assert AttemptOk(env, s.log, a, x);
    if accepts && x.wire.cmd.token !in s.accepted {
      var e := Accepted(a, x.msg, x.wire.cmd.token, x.wire.cmd.verdict);
      TableUntouched(s, s', e);
      AttemptGrows(env, s.log, e, a, x);
      assert e in s'.log;
      InvWithEffect(env, s, s', e, a);
    }
  }

  lemma DeleteKeepsInv(env: Setting, s: System, a: Id, accepts: bool)
    requires Inv(env, s) && a in s.attempts && s.attempts[a].wire.Sent? && s.attempts[a].wire.cmd.DeleteMessage?
    ensures Inv(env, Carried(s, a, accepts))
  {
    var x, s' := s.attempts[a], Carried(s, a, accepts);
    var e := Deleted(a, x.msg);
    assert AttemptOk(env, s.log, a, x);
    TableUntouched(s, s', e);
    AttemptGrows(env, s.log, e, a, x);
    InvWithEffect(env, s, s', e, a);
  }

  lemma SweepKeepsInv(env: Setting, s: System, name: string)
    requires Inv(env, s) && Enabled(env, s, Sweep(name))
    ensures Inv(env, After(env, s, Sweep(name)))
  {
    var s', e := After(env, s, Sweep(name)), Swept(name, s.now);
    assert Held(s, name) == if Holder(s.log, name).Some? then Some(ToItem(Holder(s.log, name).value)) else None;
    forall n: string
      ensures Held(s', n) == if Holder(s'.log, n).Some? then Some(ToItem(Holder(s'.log, n).value)) else None
    {
      HolderGrows(s.log, e, n);
      assert Held(s, n) == if Holder(s.log, n).Some? then Some(ToItem(Holder(s.log, n).value)) else None;
    }
    LogGrows(env, s.log, e);
    forall b | b in s'.attempts
      ensures AttemptOk(env, s'.log, b, s'.attempts[b])
    {
      AttemptGrows(env, s.log, e, b, s.attempts[b]);
    }
  }

  lemma BeginKeepsOk(env: Setting, s: System, e: Step)
    requires Enabled(env, s, e) && e.Begin? && AttemptOk(env, s.log, e.a, s.attempts[e.a])
    ensures AttemptOk(env, s.log, e.a, After(env, s, e).attempts[e.a])
  {
    var x := s.attempts[e.a];
    var plan := PlanFor(env.bodies[x.msg], e.clock, env.ttl);
    if plan.Claim? {
      ClaimsAreAsked(env.bodies[x.msg], e.clock, env.ttl, plan.reservation);
    } else if plan.Report? {
      ReportsIgnoreTheClock(env.bodies[x.msg], e.clock, 0, env.ttl);
    }
  }

  lemma HearKeepsOk(env: Setting, s: System, e: Step)
    requires Enabled(env, s, e) && e.Hear? && AttemptOk(env, s.log, e.a, s.attempts[e.a])
    ensures AttemptOk(env, s.log, e.a, After(env, s, e).attempts[e.a])
  {
  }

  lemma WorkerKeepsOk(env: Setting, s: System, e: Step)
    requires Enabled(env, s, e) && (e.Send? || e.GiveUp? || e.Crash?) && AttemptOk(env, s.log, e.a, s.attempts[e.a])
    ensures AttemptOk(env, s.log, e.a, After(env, s, e).attempts[e.a])
  {
  }

  /** The rest of the invariant follows when only one attempt changes and the shared services do not. */
  lemma InvWithAttempt(env: Setting, s: System, s': System, a: Id)
    requires Inv(env, s) && s'.log == s.log && s'.items == s.items && s'.accepted == s.accepted
    requires forall b | b in s'.attempts && b != a :: b in s.attempts && s'.attempts[b] == s.attempts[b]
    requires a in s'.attempts ==> AttemptOk(env, s.log, a, s'.attempts[a])
    ensures Inv(env, s')
  {
    assert forall name: string :: Held(s', name) == Held(s, name);
  }

  /** Steps of a worker alone leave the shared services as they are. */
  lemma WorkerKeepsInv(env: Setting, s: System, e: Step)
    requires Inv(env, s) && Enabled(env, s, e) && !e.Take? && !e.Sweep? && !e.Tick?
    ensures Inv(env, After(env, s, e))
  {
    match e {
      case Receive(_, _) =>
      case Begin(_, _) => BeginKeepsOk(env, s, e);
      case Hear(_) => HearKeepsOk(env, s, e);
      case _ => WorkerKeepsOk(env, s, e);
    }
    InvWithAttempt(env, s, After(env, s, e), e.a);
  }

  lemma InvStep(env: Setting, s: System, e: Step)
    requires Inv(env, s) && Enabled(env, s, e)
    ensures Inv(env, After(env, s, e))
  {
    if e.Sweep? {
      SweepKeepsInv(env, s, e.name);
    } else if e.Take? {
      match s.attempts[e.a].wire.cmd {
        case PutItem(_) => PutKeepsInv(env, s, e.a, e.accepts);
        case SendVerdict(_, _) => VerdictKeepsInv(env, s, e.a, e.accepts);
        case DeleteMessage => DeleteKeepsInv(env, s, e.a, e.accepts);
      }
    } else if e.Tick? {
      assert forall name: string :: Held(After(env, s, e), name) == Held(s, name);
    } else {
      WorkerKeepsInv(env, s, e);
    }
  }

  lemma {:induction false} InvAlways(env: Setting, run: Run, i: nat)
    requires IsRun(env, run) && i < |run.states|
    ensures Inv(env, run.states[i])
  {
    if i > 0 {
      InvAlways(env, run, i - 1);
      assert Moves(env, run, i - 1);
      InvStep(env, run.states[i - 1], run.steps[i - 1]);
    }
  }
}
