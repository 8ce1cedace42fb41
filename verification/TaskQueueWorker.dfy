/** The worker's handling of one message, and its polling loop. */
module TaskQueueWorker {
  import opened Wrappers
  import opened NameReservations
  import opened ScaffolderTasks
  import opened ScaffolderSystem

  /** Step Functions: the outcomes it has accepted, and the tokens it still waits for. */
  class StepFunctions {
    var accepted: map<string, Verdict>

    constructor ()
      ensures accepted == map[]
    {
      accepted := map[];
    }

    /** SendTaskSuccess or SendTaskFailure; a token is good once. */
    method Send(token: string, verdict: Verdict, fault: Fault) returns (err: bool)
      modifies this
      ensures err <==> fault != NoFault || token in old(accepted)
      ensures accepted ==
        if fault == Refused || token in old(accepted) then old(accepted) else old(accepted)[token := verdict]
    {
      err := fault != NoFault || token in accepted;
      if fault != Refused && token !in accepted {
        accepted := accepted[token := verdict];
      }
    }
  }

  /** The messages the state machine has sent, and those not deleted since. */
  class TaskQueue {
    const bodies: map<Id, Body>
    var present: set<Id>

    constructor (bodies: map<Id, Body>)
      ensures this.bodies == bodies && present == bodies.Keys
    {
      this.bodies, present := bodies, bodies.Keys;
    }

    method Delete(msg: Id, fault: Fault) returns (err: bool)
      modifies this
      ensures err <==> fault != NoFault
      ensures present == if fault == Refused then old(present) else old(present) - {msg}
    {
      err := fault != NoFault;
      if fault != Refused {
        present := present - {msg};
      }
    }
  }

  /** What happens to a delivery's three calls, and the clock reading it makes. */
  datatype Luck = Luck(clock: int, put: Fault, send: Fault, delete: Fault)

  datatype Delivery = Delivery(msg: Id, luck: Luck)

  /** A receive: a caught AmazonSQSException, any other exception, shutdown, or messages. */
  datatype Poll = ReceiveFails | ReceiveThrows | Cancelled | Batch(deliveries: seq<Delivery>)

  /** A HandleAsync call returns, or an exception leaves it. */
  datatype Exit = Returned | Threw

  // ---- what handling a delivery does to the shared services ----

  /** What the worker shares: the table, the accepted outcomes and the messages on the queue. */
  datatype Shared = Shared(items: map<string, Item>, accepted: map<string, Verdict>, present: set<Id>)

  ghost function HeldFor(plan: Plan, items: map<string, Item>): Option<Item> {
    if plan.Claim? && plan.reservation.name in items then Some(items[plan.reservation.name]) else None
  }

  /** The verdict the worker sends, if it gets that far. */
  ghost function VerdictOf(plan: Plan, held: Option<Item>, put: Fault): Option<Verdict> {
    match plan
    case LeaveMessage => None
    case Report(code) => Some(Failure(code))
    case Claim(r) =>
      if put != NoFault then None
      else match Decode(NameReservations.Put(held, ToItem(r)).1)
        case Created => Some(Success(r, false))
        case AlreadyHeldByThisRequest => Some(Success(r, true))
        case NameAlreadyReserved => Some(Failure(NAME_ALREADY_RESERVED))
  }

  ghost function Verdicts(env: Setting, s: Shared, d: Delivery): Option<Verdict>
    requires d.msg in env.bodies
  {
    var plan := PlanFor(env.bodies[d.msg], d.luck.clock, env.ttl);
    VerdictOf(plan, HeldFor(plan, s.items), d.luck.put)
  }

  /** Step Functions takes the verdict and its answer arrives. */
  predicate Heard(token: string, s: Shared, luck: Luck) {
    luck.send == NoFault && token !in s.accepted
  }

  /**
    The services after one delivery: the table changes by the planned put, the message's token gains
    the verdict unless it has one, and the message goes only if that was heard.
  */
  ghost function Handled(env: Setting, s: Shared, d: Delivery): Shared {
    if d.msg !in env.bodies then s
    else
      var body := env.bodies[d.msg];
      var plan, verdict := PlanFor(body, d.luck.clock, env.ttl), Verdicts(env, s, d);
      var items := if plan.Claim? && d.luck.put != Refused
        then s.items[plan.reservation.name := NameReservations.Put(HeldFor(plan, s.items), ToItem(plan.reservation)).0]
        else s.items;
      if verdict.None? then Shared(items, s.accepted, s.present)
      else Shared(
        items,
        if d.luck.send == Refused || body.token in s.accepted then s.accepted else s.accepted[body.token := verdict.value],
        if Heard(body.token, s, d.luck) && d.luck.delete != Refused then s.present - {d.msg} else s.present)
  }

  /** Exceptions escape only while a failure is reported. */
  ghost predicate Throws(env: Setting, s: Shared, d: Delivery) {
    && d.msg in env.bodies
    && Verdicts(env, s, d).Some? && Verdicts(env, s, d).value.Failure?
    && (!Heard(env.bodies[d.msg].token, s, d.luck) || d.luck.delete != NoFault)
  }

  // ---- handling in so many words ----

  /** The message is to be reported as this failure: planned so, or its name held by another request. */
  ghost predicate Fails(env: Setting, s: Shared, d: Delivery, code: string) {
    d.msg in env.bodies &&
    var plan := PlanFor(env.bodies[d.msg], d.luck.clock, env.ttl);
    || plan == Report(code)
    || (plan.Claim? && d.luck.put == NoFault && code == "NAME_ALREADY_RESERVED"
        && plan.reservation.name in s.items && s.items[plan.reservation.name].requestId != plan.reservation.requestId)
  }

  /** The message's name is claimed, anew or again, and the put was answered. */
  ghost predicate Succeeds(env: Setting, s: Shared, d: Delivery, claim: Reservation, replayed: bool) {
    && d.msg in env.bodies && PlanFor(env.bodies[d.msg], d.luck.clock, env.ttl) == Claim(claim) && d.luck.put == NoFault
    && (replayed <==> claim.name in s.items)
    && (replayed ==> s.items[claim.name].requestId == claim.requestId)
  }

  /** Which verdict is sent. */
  lemma VerdictsIff(env: Setting, s: Shared, d: Delivery, code: string, claim: Reservation, replayed: bool)
    requires d.msg in env.bodies
    ensures Verdicts(env, s, d) == Some(Failure(code)) <==> Fails(env, s, d, code)
    ensures Verdicts(env, s, d) == Some(Success(claim, replayed)) <==> Succeeds(env, s, d, claim, replayed)
  {
  }

  /**
    One delivery, when the services answer and the token is still waited for: a failure is accepted
    with its code, a success with its claim; either way the message goes and nothing is thrown. With
    nothing to report, nothing changes but a put whose reply was lost.
  */
  lemma HandlingWithoutFaults(env: Setting, s: Shared, d: Delivery, code: string, claim: Reservation, replayed: bool)
    requires d.msg in env.bodies && d.luck.send == d.luck.delete == NoFault
    requires env.bodies[d.msg].Envelope? ==> env.bodies[d.msg].token !in s.accepted
    ensures !Throws(env, s, d)
    ensures Fails(env, s, d, code) ==>
      && env.bodies[d.msg].Envelope?
      && Handled(env, s, d) == Shared(s.items, s.accepted[env.bodies[d.msg].token := Failure(code)], s.present - {d.msg})
    ensures Succeeds(env, s, d, claim, replayed) ==>
      && env.bodies[d.msg].Envelope?
      && Handled(env, s, d) == Shared(
           s.items[claim.name := ToItem(claim)],
           s.accepted[env.bodies[d.msg].token := Success(claim, replayed)], s.present - {d.msg})
    ensures PlanFor(env.bodies[d.msg], d.luck.clock, env.ttl) == LeaveMessage ==> Handled(env, s, d) == s
  {
    VerdictsIff(env, s, d, code, claim, replayed);
    if Fails(env, s, d, code) && PlanFor(env.bodies[d.msg], d.luck.clock, env.ttl).Claim? {
      assert s.items[PlanFor(env.bodies[d.msg], d.luck.clock, env.ttl).reservation.name :=
        s.items[PlanFor(env.bodies[d.msg], d.luck.clock, env.ttl).reservation.name]] == s.items;
    }
  }

  /** With faults: the message stays unless its outcome was accepted and the answer heard; an exception leaves only from a failure. */
  lemma HandlingWithFaults(env: Setting, s: Shared, d: Delivery)
    requires d.msg in env.bodies && env.bodies[d.msg].Envelope?
    ensures d.luck.send != NoFault || env.bodies[d.msg].token in s.accepted || d.luck.delete == Refused ==>
      Handled(env, s, d).present == s.present
    ensures d.luck.send == Refused || env.bodies[d.msg].token in s.accepted ==> Handled(env, s, d).accepted == s.accepted
    ensures d.luck.put == Refused ==> Handled(env, s, d).items == s.items
    ensures Throws(env, s, d) <==>
      && (exists code :: Fails(env, s, d, code))
      && (d.luck.send != NoFault || env.bodies[d.msg].token in s.accepted || d.luck.delete != NoFault)
  {
    if Throws(env, s, d) {
      var code := Verdicts(env, s, d).value.code;
      VerdictsIff(env, s, d, code, Reservation("", "", 0, 0), false);
    }
    if code :| Fails(env, s, d, code) {
      VerdictsIff(env, s, d, code, Reservation("", "", 0, 0), false);
    }
  }

  class Worker {
    const table: Table
    const functions: StepFunctions
    const queue: TaskQueue
    const ttl: int

    constructor (table: Table, functions: StepFunctions, queue: TaskQueue, ttl: int)
      ensures this.table == table && this.functions == functions && this.queue == queue && this.ttl == ttl
    {
      this.table, this.functions, this.queue, this.ttl := table, functions, queue, ttl;
    }

    function Now(): Shared
      reads table, functions, queue
    {
      Shared(table.items, functions.accepted, queue.present)
    }

    function Env(): Setting {
      Setting(queue.bodies, ttl)
    }

    /** HandleAsync */
    method HandleAsync(d: Delivery) returns (exit: Exit)
      requires d.msg in queue.bodies
      modifies table, functions, queue
      ensures Now() == Handled(Env(), old(Now()), d)
      ensures exit == Threw <==> Throws(Env(), old(Now()), d)
    {
      exit := Returned;
      var body, luck := queue.bodies[d.msg], d.luck;
      var plan := MakePlan(body, luck.clock, ttl);
      if plan.LeaveMessage? {
        return;
      }
      if plan.Report? {
        exit := FailAsync(d.msg, body, plan.code, luck);
        return;
      }
      var outcome, err := table.Reserve(plan.reservation, luck.put);
      if err {
        return;
      }
      if outcome == NameAlreadyReserved {
        exit := FailAsync(d.msg, body, NAME_ALREADY_RESERVED, luck);
        return;
      }
      err := functions.Send(body.token, Success(plan.reservation, outcome == AlreadyHeldByThisRequest), luck.send);
      if err {
        return;
      }
      err := queue.Delete(d.msg, luck.delete);
    }

    /** FailAsync, called from a catch block: its own exceptions are not caught. */
    method FailAsync(msg: Id, body: Body, code: string, luck: Luck) returns (exit: Exit)
      requires body.Envelope?
      modifies functions, queue
      ensures functions.accepted ==
        if luck.send == Refused || body.token in old(functions.accepted) then old(functions.accepted)
        else old(functions.accepted)[body.token := Failure(code)]
      ensures queue.present ==
        if luck.send != NoFault || body.token in old(functions.accepted) || luck.delete == Refused
        then old(queue.present) else old(queue.present) - {msg}
      ensures exit == Threw <==>
        luck.send != NoFault || body.token in old(functions.accepted) || luck.delete != NoFault
    {
      var err := functions.Send(body.token, Failure(code), luck.send);
      if err {
        return Threw;
      }
      err := queue.Delete(msg, luck.delete);
      exit := if err then Threw else Returned;
    }

    /**
      ExecuteAsync: the deliveries of its polls in order, until handling one throws or the worker is
      cancelled. An exception leaves it exactly then, or when a receive throws what it does not catch.
    */
    method ExecuteAsync(polls: seq<Poll>) returns (escaped: bool, ghost stopped: bool, ghost n: nat)
      modifies table, functions, queue
      ensures Course(Now(), n, stopped) == CourseOf(Env(), old(Now()), Deliveries(polls))
      ensures escaped <==> stopped || ReceiveEnds(polls)
      // Poll by poll: whatever ends the loop first decides whether an exception leaves it.
      ensures stopped ==> escaped && n > 0 && n <= |Deliveries(polls)|
      ensures !stopped ==> n == |Deliveries(polls)|
      ensures forall i: nat | FirstEnd(polls, i) && !stopped ::
        n == Before(polls, i) && (escaped <==> i < |polls| && polls[i] == ReceiveThrows)
    {
      escaped, stopped, n := false, false, 0;
      LoopEnds(polls);
      CourseFollows(Env(), Now(), Deliveries(polls));
      ghost var whole := CourseOf(Env(), Now(), Deliveries(polls));
      for i := 0 to |polls|
        invariant !escaped && !stopped && (ReceiveEnds(polls) <==> ReceiveEnds(polls[i..]))
        invariant whole == Further(CourseOf(Env(), Now(), Deliveries(polls[i..])), n)
      {
        assert polls[i..][1..] == polls[i + 1..];
        match polls[i] {
          case ReceiveFails =>
          case ReceiveThrows =>
            escaped := true;
            return;
          case Cancelled => return;
          case Batch(deliveries) =>
            ghost var m := 0;
            CourseOn(Env(), Now(), deliveries, Deliveries(polls[i + 1..]));
            escaped, m := HandleBatch(deliveries);
            stopped, n := escaped, n + m;
            if escaped {
              return;
            }
        }
      }
    }

    /** The inner loop over one poll's messages. */
    method HandleBatch(deliveries: seq<Delivery>) returns (stopped: bool, ghost n: nat)
      modifies table, functions, queue
      ensures Course(Now(), n, stopped) == CourseOf(Env(), old(Now()), deliveries)
    {
      stopped, n := false, 0;
      for j := 0 to |deliveries|
        invariant !stopped && n == j
        invariant CourseOf(Env(), old(Now()), deliveries) == Further(CourseOf(Env(), Now(), deliveries[j..]), j)
      {
        assert deliveries[j..][1..] == deliveries[j + 1..];
        n := n + 1;
        if deliveries[j].msg in queue.bodies {
          var exit := HandleAsync(deliveries[j]);
          if exit == Threw {
            stopped := true;
            return;
          }
        }
      }
    }
  }

  // ---- whole runs of one worker ----

  /** The first receive that ends the loop is one that throws. */
  predicate ReceiveEnds(polls: seq<Poll>) {
    if polls == [] then false
    else match polls[0]
      case ReceiveFails => ReceiveEnds(polls[1..])
      case ReceiveThrows => true
      case Cancelled => false
      case Batch(_) => ReceiveEnds(polls[1..])
  }

  /** The deliveries a worker gets to before it is cancelled or a receive throws. */
  function Deliveries(polls: seq<Poll>): seq<Delivery> {
    if polls == [] then []
    else match polls[0]
      case ReceiveFails => Deliveries(polls[1..])
      case ReceiveThrows => []
      case Cancelled => []
      case Batch(ds) => ds + Deliveries(polls[1..])
  }

  /** What handling deliveries in order comes to: the services, how many were handled, and whether the last of them threw. */
  datatype Course = Course(s: Shared, handled: nat, stopped: bool)

  function Further(c: Course, n: nat): Course {
    c.(handled := c.handled + n)
  }

  ghost function CourseOf(env: Setting, s: Shared, ds: seq<Delivery>): Course
    decreases |ds|
  {
    if |ds| == 0 then Course(s, 0, false)
    else if Throws(env, s, ds[0]) then Course(Handled(env, s, ds[0]), 1, true)
    else Further(CourseOf(env, Handled(env, s, ds[0]), ds[1..]), 1)
  }

  /** A course that has not stopped goes on with the next deliveries. */
  lemma {:induction false} CourseOn(env: Setting, s: Shared, a: seq<Delivery>, b: seq<Delivery>)
    ensures var c := CourseOf(env, s, a);
      CourseOf(env, s, a + b) == if c.stopped then c else Further(CourseOf(env, c.s, b), c.handled)
    decreases |a|
  {
    if |a| == 0 {
      assert a + b == b;
    } else {
      assert (a + b)[1..] == a[1..] + b;
      CourseOn(env, Handled(env, s, a[0]), a[1..], b);
    }
  }

  function MessagesOf(p: Poll): seq<Delivery> {
    if p.Batch? then p.deliveries else []
  }

  /** Poll `i` is the first that ends the loop, or there is none and `i` is their number. */
  predicate FirstEnd(polls: seq<Poll>, i: nat) {
    && i <= |polls| && (forall k | 0 <= k < i :: polls[k] != Cancelled && polls[k] != ReceiveThrows)
    && (i < |polls| ==> polls[i] == Cancelled || polls[i] == ReceiveThrows)
  }

  lemma LoopEnds(polls: seq<Poll>)
    ensures forall i: nat | FirstEnd(polls, i) ::
      |Deliveries(polls)| == Before(polls, i) && (ReceiveEnds(polls) <==> i < |polls| && polls[i] == ReceiveThrows)
  {
    forall i: nat | FirstEnd(polls, i)
      ensures |Deliveries(polls)| == Before(polls, i)
      ensures ReceiveEnds(polls) <==> i < |polls| && polls[i] == ReceiveThrows
    {
      DeliveriesEnd(polls, i);
    }
  }

  /** How many messages the polls before poll `i` have brought. */
  function Before(polls: seq<Poll>, i: nat): nat
    requires i <= |polls|
  {
    if i == 0 then 0 else Before(polls, i - 1) + |MessagesOf(polls[i - 1])|
  }

  lemma {:induction false} BeforeTail(polls: seq<Poll>, i: nat)
    requires 0 < i <= |polls|
    ensures Before(polls, i) == |MessagesOf(polls[0])| + Before(polls[1..], i - 1)
  {
    if i > 1 {
      BeforeTail(polls, i - 1);
    }
  }

  /** Message `j` of poll `i`, if no poll before it ends the loop, is the delivery at the position given by the messages before it. */
  lemma {:induction false} PositionOf(polls: seq<Poll>, i: nat, j: nat)
    requires i < |polls| && polls[i].Batch? && j < |polls[i].deliveries|
    requires forall k | 0 <= k < i :: polls[k] != Cancelled && polls[k] != ReceiveThrows
    ensures Before(polls, i) + j < |Deliveries(polls)|
    ensures Deliveries(polls)[Before(polls, i) + j] == polls[i].deliveries[j]
    decreases i
  {
    if i > 0 {
      PositionOf(polls[1..], i - 1, j);
      BeforeTail(polls, i);
    }
  }

  /** The deliveries end with the first poll that ends the loop; failed receives neither end it nor bring any. */
  lemma {:induction false} DeliveriesEnd(polls: seq<Poll>, i: nat)
    requires i <= |polls| && forall k | 0 <= k < i :: polls[k] != Cancelled && polls[k] != ReceiveThrows
    requires i < |polls| ==> polls[i] == Cancelled || polls[i] == ReceiveThrows
    ensures |Deliveries(polls)| == Before(polls, i)
    ensures ReceiveEnds(polls) <==> i < |polls| && polls[i] == ReceiveThrows
    decreases i
  {
    if i > 0 {
      DeliveriesEnd(polls[1..], i - 1);
      BeforeTail(polls, i);
    }
  }

  ghost function Following(env: Setting, s: Shared, ds: seq<Delivery>): Shared {
    if ds == [] then s else Handled(env, Following(env, s, ds[..|ds| - 1]), ds[|ds| - 1])
  }

  /** Handling the `k`th delivery stops the worker. */
  ghost predicate Stops(env: Setting, s: Shared, ds: seq<Delivery>, k: nat)
    requires k < |ds|
  {
    Throws(env, Following(env, s, ds[..k]), ds[k])
  }

  lemma {:induction false} FollowingOn(env: Setting, s: Shared, a: seq<Delivery>, b: seq<Delivery>)
    ensures Following(env, s, a + b) == Following(env, Following(env, s, a), b)
  {
    if b == [] {
      assert a + b == a;
    } else {
      assert (a + b)[..|a + b| - 1] == a + b[..|b| - 1];
      FollowingOn(env, s, a, b[..|b| - 1]);
    }
  }

  /** Each delivery is handled in the state the ones before it have left. */
  lemma FollowingStep(env: Setting, s: Shared, ds: seq<Delivery>, k: nat)
    requires k < |ds|
    ensures Following(env, s, ds[..0]) == s
    ensures Following(env, s, ds[..k + 1]) == Handled(env, Following(env, s, ds[..k]), ds[k])
  {
    assert ds[..k + 1][..k] == ds[..k];
  }

  /**
    Every message of every batch is handled, in order, unless an earlier one threw: message `j` of
    poll `i`, when no poll before it ends the loop.
  */
  lemma EveryMessageIsHandled(env: Setting, s: Shared, polls: seq<Poll>, i: nat, j: nat)
    requires i < |polls| && polls[i].Batch? && j < |polls[i].deliveries|
    requires forall k | 0 <= k < i :: polls[k] != Cancelled && polls[k] != ReceiveThrows
    ensures var ds, at, c := Deliveries(polls), Before(polls, i) + j, CourseOf(env, s, Deliveries(polls));
      && at < |ds| && ds[at] == polls[i].deliveries[j]
      && (c.handled <= at ==> c.stopped && 0 < c.handled && Throws(env, Following(env, s, ds[..c.handled - 1]), ds[c.handled - 1]))
      && Following(env, s, ds[..at + 1]) == Handled(env, Following(env, s, ds[..at]), polls[i].deliveries[j])
  {
    var ds := Deliveries(polls);
    var c := CourseOf(env, s, ds);
    PositionOf(polls, i, j);
    CourseFollows(env, s, ds);
    FollowingStep(env, s, ds, Before(polls, i) + j);
    if c.stopped {
      CourseStopsFirst(env, s, ds, c.handled - 1);
    }
  }

  lemma CourseStep(env: Setting, s: Shared, d: Delivery, rest: seq<Delivery>, n: nat)
    requires n <= |rest|
    ensures Following(env, s, ([d] + rest)[..n + 1]) == Following(env, Handled(env, s, d), rest[..n])
    ensures n < |rest| ==> (Stops(env, s, [d] + rest, n + 1) <==> Stops(env, Handled(env, s, d), rest, n))
  {
    assert ([d] + rest)[..n + 1] == [d] + rest[..n];
    FollowingOn(env, s, [d], rest[..n]);
    assert [d][..0] == [];
  }

  /** A course leaves what its deliveries leave, in order; it handles all of them unless it stopped. */
  lemma {:induction false} CourseFollows(env: Setting, s: Shared, ds: seq<Delivery>)
    ensures var c := CourseOf(env, s, ds);
      && c.handled <= |ds| && (if c.stopped then c.handled > 0 else c.handled == |ds|)
      && c.s == Following(env, s, ds[..c.handled])
    decreases |ds|
  {
    if |ds| > 0 {
      var d, rest := ds[0], ds[1..];
      assert ds == [d] + rest;
      CourseStep(env, s, d, rest, 0);
      if !Throws(env, s, d) {
        CourseFollows(env, Handled(env, s, d), rest);
        CourseStep(env, s, d, rest, CourseOf(env, Handled(env, s, d), rest).handled);
      }
    }
  }

  lemma FirstStops(env: Setting, s: Shared, ds: seq<Delivery>)
    requires |ds| > 0
    ensures Stops(env, s, ds, 0) <==> Throws(env, s, ds[0])
  {
    assert ds[..0] == [];
  }

  /** A course ends right after the first delivery that throws. */
  lemma {:induction false} CourseStopsFirst(env: Setting, s: Shared, ds: seq<Delivery>, k: nat)
    requires k < CourseOf(env, s, ds).handled <= |ds|
    ensures Stops(env, s, ds, k) <==> CourseOf(env, s, ds).stopped && k == CourseOf(env, s, ds).handled - 1
    decreases |ds|
  {
    var d, rest := ds[0], ds[1..];
    FirstStops(env, s, ds);
    if !Throws(env, s, d) {
      CourseFollows(env, Handled(env, s, d), rest);
      if k > 0 {
        assert ds == [d] + rest;
        CourseStopsFirst(env, Handled(env, s, d), rest, k - 1);
        CourseStep(env, s, d, rest, k - 1);
      }
    }
  }

  /** Accepted outcomes never change, and a name's holder never changes (the sweeper does not run here). */
  ghost predicate Kept(s: Shared, s': Shared) {
    && (forall t | t in s.accepted :: t in s'.accepted && s'.accepted[t] == s.accepted[t])
    && (forall n | n in s.items :: n in s'.items && s'.items[n].requestId == s.items[n].requestId)
  }

  /** Every message gone since then has an outcome accepted for its own token. */
  ghost predicate GoneIsReported(env: Setting, s: Shared, s': Shared) {
    && s'.present <= s.present
    && forall m | m in s.present && m !in s'.present ::
         m in env.bodies && env.bodies[m].Envelope? && env.bodies[m].token in s'.accepted
  }

  lemma HandledKeeps(env: Setting, s: Shared, d: Delivery)
    ensures Kept(s, Handled(env, s, d)) && GoneIsReported(env, s, Handled(env, s, d))
  {
  }

  /** Whatever is delivered, in whatever order and however often. */
  lemma {:induction false} RunKeeps(env: Setting, s: Shared, ds: seq<Delivery>)
    ensures Kept(s, Following(env, s, ds)) && GoneIsReported(env, s, Following(env, s, ds))
  {
    if ds != [] {
      var front := ds[..|ds| - 1];
      RunKeeps(env, s, front);
      HandledKeeps(env, Following(env, s, front), ds[|ds| - 1]);
    }
  }

  /** A failure of this message was accepted but the message is still there, and another delivery comes to the same failure. */
  ghost predicate FailureStands(env: Setting, s: Shared, msg: Id) {
    && msg in env.bodies && msg in s.present && env.bodies[msg].Envelope? && env.bodies[msg].token in s.accepted
    && var plan := PlanFor(env.bodies[msg], 0, env.ttl);
       match plan
       case LeaveMessage => false
       case Report(_) => true
       case Claim(r) => r.name in s.items && s.items[r.name].requestId != r.requestId
  }

  /** The clock reading changes only the times of a plan. */
  lemma PlansDifferInTime(body: Body, clock: int, later: int, ttl: int)
    ensures match PlanFor(body, clock, ttl)
      case LeaveMessage => PlanFor(body, later, ttl).LeaveMessage?
      case Report(code) => PlanFor(body, later, ttl) == Report(code)
      case Claim(r) => PlanFor(body, later, ttl) == Claim(Reservation(r.name, r.requestId, later, later + ttl))
  {
  }

  lemma FailureStandsStays(env: Setting, s: Shared, msg: Id, d: Delivery)
    requires FailureStands(env, s, msg)
    ensures FailureStands(env, Handled(env, s, d), msg)
  {
    HandledKeeps(env, s, d);
  }

  /** Every redelivery then throws, unless its put fails before the conflict shows. */
  lemma StandingFailureThrows(env: Setting, s: Shared, d: Delivery)
    requires FailureStands(env, s, d.msg)
    ensures Throws(env, s, d) <==> PlanFor(env.bodies[d.msg], 0, env.ttl).Report? || d.luck.put == NoFault
  {
    PlansDifferInTime(env.bodies[d.msg], 0, d.luck.clock, env.ttl);
  }

  lemma {:induction false} FailureStandsThroughout(env: Setting, s: Shared, msg: Id, ds: seq<Delivery>)
    requires FailureStands(env, s, msg)
    ensures FailureStands(env, Following(env, s, ds), msg)
  {
    if ds != [] {
      var front := ds[..|ds| - 1];
      FailureStandsThroughout(env, s, msg, front);
      FailureStandsStays(env, Following(env, s, front), msg, ds[|ds| - 1]);
    }
  }

  /**
    Once any failure of a message has been accepted but its deletion lost, the message is never
    deleted however often it comes back, among whatever other deliveries, and each redelivery stops
    the worker: always for a failure that needs no store, and for NAME_ALREADY_RESERVED whenever
    the put is answered.
  */
  lemma RedeliveredFailureStopsTheWorker(env: Setting, s: Shared, first: Delivery, ds: seq<Delivery>, k: nat)
    requires first.msg in env.bodies && first.msg in s.present
    requires Verdicts(env, s, first).Some? && Verdicts(env, s, first).value.Failure?
    requires Heard(env.bodies[first.msg].token, s, first.luck) && first.luck.delete == Refused
    requires k < |ds| && ds[k].msg == first.msg
    ensures Throws(env, s, first)
    ensures first.msg in Following(env, Handled(env, s, first), ds).present
    ensures Stops(env, Handled(env, s, first), ds, k) <==>
      PlanFor(env.bodies[first.msg], 0, env.ttl).Report? || ds[k].luck.put == NoFault
  {
    var s1 := Handled(env, s, first);
    PlansDifferInTime(env.bodies[first.msg], first.luck.clock, 0, env.ttl);
    assert FailureStands(env, s1, first.msg);
    FailureStandsThroughout(env, s1, first.msg, ds);
    FailureStandsThroughout(env, s1, first.msg, ds[..k]);
    StandingFailureThrows(env, Following(env, s1, ds[..k]), ds[k]);
  }
}
