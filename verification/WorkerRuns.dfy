/** The tie between HandleAsync run alone and the workers' protocol: its handling of a delivery is a run of the state machine. */
module WorkerRuns {
  import opened Wrappers
  import opened NameReservations
  import opened ScaffolderTasks
  import opened ScaffolderSystem
  import W = TaskQueueWorker

  // ---- several steps ----

  /** These steps, one after another, lead from `s` to `s'`. */
  ghost predicate LeadsTo(env: Setting, s: System, steps: seq<Step>, s': System)
    decreases |steps|
  {
    if |steps| == 0 then s' == s
    else Enabled(env, s, steps[0]) && LeadsTo(env, After(env, s, steps[0]), steps[1..], s')
  }

  lemma {:induction false} LeadsOn(env: Setting, s: System, a: seq<Step>, s1: System, b: seq<Step>, s2: System)
    requires LeadsTo(env, s, a, s1) && LeadsTo(env, s1, b, s2)
    ensures LeadsTo(env, s, a + b, s2)
    decreases |a|
  {
    if |a| == 0 {
      assert a + b == b;
    } else {
      assert (a + b)[1..] == a[1..] + b;
      LeadsOn(env, After(env, s, a[0]), a[1..], s1, b, s2);
    }
  }

  lemma OneStep(env: Setting, s: System, e: Step)
    requires Enabled(env, s, e)
    ensures LeadsTo(env, s, [e], After(env, s, e))
  {
    assert [e][1..] == [];
  }

  lemma StepOn(env: Setting, s: System, steps: seq<Step>, s1: System, e: Step)
    requires LeadsTo(env, s, steps, s1) && Enabled(env, s1, e)
    ensures LeadsTo(env, s, steps + [e], After(env, s1, e))
  {
    OneStep(env, s1, e);
    LeadsOn(env, s, steps, s1, [e], After(env, s1, e));
  }

  // ---- one command with what can go wrong ----

  predicate CanCall(s: System, a: Id) {
    a in s.attempts && s.attempts[a].wire == Quiet && Calling(s.attempts[a].stage)
  }

  function CallSteps(a: Id, fault: Fault): seq<Step> {
    match fault
    case NoFault => [Send(a), Take(a, true), Hear(a)]
    case Refused => [GiveUp(a)]
    case ReplyLost => [Send(a), Take(a, true), GiveUp(a)]
  }

  /** The command is sent and carried out. */
  ghost function Taken(env: Setting, s: System, a: Id): System
    requires CanCall(s, a)
  {
    After(env, After(env, s, Send(a)), Take(a, true))
  }

  ghost function Called(env: Setting, s: System, a: Id, fault: Fault): System
    requires CanCall(s, a)
  {
    match fault
    case NoFault => After(env, Taken(env, s, a), Hear(a))
    case Refused => After(env, s, GiveUp(a))
    case ReplyLost => After(env, Taken(env, s, a), GiveUp(a))
  }

  lemma CallOn(env: Setting, s0: System, steps: seq<Step>, s: System, a: Id, fault: Fault)
    requires LeadsTo(env, s0, steps, s) && CanCall(s, a)
    ensures LeadsTo(env, s0, steps + CallSteps(a, fault), Called(env, s, a, fault))
  {
    if fault == Refused {
      StepOn(env, s0, steps, s, GiveUp(a));
    } else {
      var sent := After(env, s, Send(a));
      StepOn(env, s0, steps, s, Send(a));
      StepOn(env, s0, steps + [Send(a)], sent, Take(a, true));
      var last := if fault == NoFault then Hear(a) else GiveUp(a);
      StepOn(env, s0, steps + [Send(a)] + [Take(a, true)], Taken(env, s, a), last);
      assert steps + [Send(a)] + [Take(a, true)] + [last] == steps + CallSteps(a, fault);
    }
  }

  // ---- what each command does ----

  /** The messages deleted so far. */
  function Gone(log: seq<Effect>): set<Id> {
    if |log| == 0 then {}
    else Gone(log[..|log| - 1]) + if log[|log| - 1].Deleted? then {log[|log| - 1].msg} else {}
  }

  lemma GoneGrows(log: seq<Effect>, e: Effect)
    ensures Gone(log + [e]) == Gone(log) + if e.Deleted? then {e.msg} else {}
  {
    assert (log + [e])[..|log|] == log;
  }

  /** The shared services of a state, as one worker sees them. */
  ghost function SharedOf(env: Setting, s: System): W.Shared {
    W.Shared(s.items, s.accepted, env.bodies.Keys - Gone(s.log))
  }

  /** The attempt is at `stage`, with nothing under way. */
  predicate At(s: System, a: Id, msg: Id, stage: Stage) {
    a in s.attempts && s.attempts[a].msg == msg && s.attempts[a].stage == stage && (Calling(stage) ==> s.attempts[a].wire == Quiet)
  }

  /** The verdict that follows a put's outcome. */
  function VerdictAfter(claim: Reservation, outcome: Outcome): Verdict {
    match outcome
    case Created => Success(claim, false)
    case AlreadyHeldByThisRequest => Success(claim, true)
    case NameAlreadyReserved => Failure(NAME_ALREADY_RESERVED)
  }

  /** What an exception makes of an attempt that is reporting or deleting. */
  function Thrown(v: Verdict): Stage {
    Stage.Ended(if v.Failure? then Escaped else Left)
  }

  lemma PutTaken(env: Setting, s: System, a: Id, msg: Id, claim: Reservation)
    requires At(s, a, msg, Claiming(claim))
    ensures var (item, reply) := Put(Held(s, claim.name), ToItem(claim));
      Taken(env, s, a) == s.(
        attempts := s.attempts[a := Attempt(msg, Claiming(claim), Answered(PutDone(Decode(reply))))],
        items := s.items[claim.name := item],
        log := s.log + [Wrote(a, msg, claim, Decode(reply))])
  {
    var (item, reply) := Put(Held(s, claim.name), ToItem(claim));
    assert Taken(env, s, a).attempts == s.attempts[a := Attempt(msg, Claiming(claim), Answered(PutDone(Decode(reply))))];
  }

  lemma PutCall(env: Setting, s: System, a: Id, msg: Id, claim: Reservation, fault: Fault)
    requires At(s, a, msg, Claiming(claim))
    ensures var s', (item, reply) := Called(env, s, a, fault), Put(Held(s, claim.name), ToItem(claim));
      && At(s', a, msg, if fault == NoFault then Reporting(VerdictAfter(claim, Decode(reply))) else Stage.Ended(Left))
      && SharedOf(env, s') == SharedOf(env, s).(
           items := if fault == Refused then s.items else s.items[claim.name := item])
  {
    PutTaken(env, s, a, msg, claim);
    GoneGrows(s.log, Wrote(a, msg, claim, Decode(Put(Held(s, claim.name), ToItem(claim)).1)));
  }

  lemma VerdictTaken(env: Setting, s: System, a: Id, msg: Id, v: Verdict)
    requires At(s, a, msg, Reporting(v))
    ensures var token := TokenOf(env, msg);
      Taken(env, s, a) ==
        if token in s.accepted
        then s.(attempts := s.attempts[a := Attempt(msg, Reporting(v), Answered(VerdictRejected))])
        else s.(
          attempts := s.attempts[a := Attempt(msg, Reporting(v), Answered(VerdictAccepted))],
          accepted := s.accepted[token := v],
          log := s.log + [Accepted(a, msg, token, v)])
  {
    var reply := if TokenOf(env, msg) in s.accepted then VerdictRejected else VerdictAccepted;
    assert Taken(env, s, a).attempts == s.attempts[a := Attempt(msg, Reporting(v), Answered(reply))];
  }

  lemma VerdictCall(env: Setting, s: System, a: Id, msg: Id, v: Verdict, fault: Fault)
    requires At(s, a, msg, Reporting(v))
    ensures var s', token := Called(env, s, a, fault), TokenOf(env, msg);
      && At(s', a, msg, if fault == NoFault && token !in s.accepted then Deleting(v) else Thrown(v))
      && SharedOf(env, s') == SharedOf(env, s).(
           accepted := if fault == Refused || token in s.accepted then s.accepted else s.accepted[token := v])
  {
    VerdictTaken(env, s, a, msg, v);
    GoneGrows(s.log, Accepted(a, msg, TokenOf(env, msg), v));
  }

  lemma DeletionTaken(env: Setting, s: System, a: Id, msg: Id, v: Verdict)
    requires At(s, a, msg, Deleting(v))
    ensures Taken(env, s, a) == s.(
      attempts := s.attempts[a := Attempt(msg, Deleting(v), Answered(MessageGone))],
      log := s.log + [Deleted(a, msg)])
  {
    assert Taken(env, s, a).attempts == s.attempts[a := Attempt(msg, Deleting(v), Answered(MessageGone))];
  }

  lemma DeleteCall(env: Setting, s: System, a: Id, msg: Id, v: Verdict, fault: Fault)
    requires At(s, a, msg, Deleting(v))
    ensures var s' := Called(env, s, a, fault);
      && At(s', a, msg, if fault == NoFault then Stage.Ended(Done) else Thrown(v))
      && SharedOf(env, s') == SharedOf(env, s).(
           present := SharedOf(env, s).present - if fault == Refused then {} else {msg})
  {
    DeletionTaken(env, s, a, msg, v);
    GoneGrows(s.log, Deleted(a, msg));
  }

  // ---- a delivery ----

  /** A delivery's attempt, planned. */
  ghost function Started(env: Setting, s: System, a: Id, d: W.Delivery): System
    requires a !in s.attempts && d.msg in env.bodies
  {
    After(env, After(env, s, Receive(a, d.msg)), Begin(a, d.luck.clock))
  }

  lemma Starts(env: Setting, s: System, a: Id, d: W.Delivery)
    requires a !in s.attempts && d.msg in env.bodies
    ensures LeadsTo(env, s, [Receive(a, d.msg), Begin(a, d.luck.clock)], Started(env, s, a, d))
    ensures SharedOf(env, Started(env, s, a, d)) == SharedOf(env, s)
    ensures At(Started(env, s, a, d), a, d.msg,
      match PlanFor(env.bodies[d.msg], d.luck.clock, env.ttl)
      case LeaveMessage => Stage.Ended(Left)
      case Report(code) => Reporting(Failure(code))
      case Claim(r) => Claiming(r))
  {
    OneStep(env, s, Receive(a, d.msg));
    StepOn(env, s, [Receive(a, d.msg)], After(env, s, Receive(a, d.msg)), Begin(a, d.luck.clock));
    assert [Receive(a, d.msg)] + [Begin(a, d.luck.clock)] == [Receive(a, d.msg), Begin(a, d.luck.clock)];
  }

  /** The services after the report and the deletion of a verdict. */
  ghost function Reported(s: W.Shared, token: string, msg: Id, v: Verdict, luck: W.Luck): W.Shared {
    W.Shared(
      s.items,
      if luck.send == Refused || token in s.accepted then s.accepted else s.accepted[token := v],
      if W.Heard(token, s, luck) && luck.delete != Refused then s.present - {msg} else s.present)
  }

  /** Reporting a verdict and deleting the message. */
  lemma ReportsAndDeletes(env: Setting, s0: System, steps: seq<Step>, s: System, a: Id, msg: Id, v: Verdict, luck: W.Luck)
    returns (steps': seq<Step>, s': System)
    requires LeadsTo(env, s0, steps, s) && At(s, a, msg, Reporting(v))
    ensures LeadsTo(env, s0, steps', s')
    ensures SharedOf(env, s') == Reported(SharedOf(env, s), TokenOf(env, msg), msg, v, luck)
    ensures At(s', a, msg,
      if !W.Heard(TokenOf(env, msg), SharedOf(env, s), luck) || luck.delete != NoFault then Thrown(v) else Stage.Ended(Done))
  {
    CallOn(env, s0, steps, s, a, luck.send);
    VerdictCall(env, s, a, msg, v, luck.send);
    s', steps' := Called(env, s, a, luck.send), steps + CallSteps(a, luck.send);
    if W.Heard(TokenOf(env, msg), SharedOf(env, s), luck) {
      var s1 := s';
      CallOn(env, s0, steps', s1, a, luck.delete);
      DeleteCall(env, s1, a, msg, v, luck.delete);
      s', steps' := Called(env, s1, a, luck.delete), steps' + CallSteps(a, luck.delete);
    }
  }

  /**
    HandleAsync as a run of the protocol: from every state there are steps of one new attempt that
    change the shared services as HandleAsync does, and it throws exactly when the attempt ends with
    an escaping exception.
  */
  lemma HandlingIsARun(env: Setting, s: System, a: Id, d: W.Delivery) returns (steps: seq<Step>, s': System)
    requires a !in s.attempts && d.msg in env.bodies
    ensures LeadsTo(env, s, steps, s') && SharedOf(env, s') == W.Handled(env, SharedOf(env, s), d)
    ensures a in s'.attempts && s'.attempts[a].stage.Ended?
    ensures s'.attempts[a].stage.how == Escaped <==> W.Throws(env, SharedOf(env, s), d)
  {
    var s1, plan := Started(env, s, a, d), PlanFor(env.bodies[d.msg], d.luck.clock, env.ttl);
    Starts(env, s, a, d);
    steps, s' := [Receive(a, d.msg), Begin(a, d.luck.clock)], s1;
    match plan {
      case LeaveMessage =>
      case Report(code) =>
        steps, s' := ReportsAndDeletes(env, s, steps, s1, a, d.msg, Failure(code), d.luck);
      case Claim(r) =>
        var s2 := Called(env, s1, a, d.luck.put);
        CallOn(env, s, steps, s1, a, d.luck.put);
        PutCall(env, s1, a, d.msg, r, d.luck.put);
        steps, s' := steps + CallSteps(a, d.luck.put), s2;
        if d.luck.put == NoFault {
          var v := VerdictAfter(r, Decode(Put(Held(s1, r.name), ToItem(r)).1));
          steps, s' := ReportsAndDeletes(env, s, steps, s2, a, d.msg, v, d.luck);
        }
    }
  }

  // ---- a worker's whole run ----

  lemma {:induction false} Unused(ids: set<Id>) returns (a: Id)
    ensures forall b | b in ids :: b < a
  {
    if ids == {} {
      a := 0;
    } else {
      var one :| one in ids;
      var rest := Unused(ids - {one});
      a := if rest <= one then one + 1 else rest;
      forall b | b in ids
        ensures b < a
      {
        assert b == one || b in ids - {one};
      }
    }
  }

  /** So is the handling of any deliveries, one after another: what ExecuteAsync leaves, a run of the protocol leaves. */
  lemma {:induction false} FollowingIsARun(env: Setting, s: System, ds: seq<W.Delivery>) returns (steps: seq<Step>, s': System)
    ensures LeadsTo(env, s, steps, s') && SharedOf(env, s') == W.Following(env, SharedOf(env, s), ds)
    decreases |ds|
  {
    if ds == [] {
      steps, s' := [], s;
    } else {
      var last := ds[|ds| - 1];
      steps, s' := FollowingIsARun(env, s, ds[..|ds| - 1]);
      if last.msg in env.bodies {
        var a := Unused(s'.attempts.Keys);
        var more, s2 := HandlingIsARun(env, s', a, last);
        LeadsOn(env, s, steps, s', more, s2);
        steps, s' := steps + more, s2;
      }
    }
  }
}
