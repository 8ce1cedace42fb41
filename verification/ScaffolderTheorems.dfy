/** The scaffolder's promises over whole runs of workers, redeliveries, crashes and sweeps. */
module ScaffolderTheorems {
  import opened Wrappers
  import opened NameReservations
  import opened ScaffolderTasks
  import opened ScaffolderSystem
  import opened ScaffolderInvariants

  // ---- who holds a name ----

  ghost predicate SweptBetween(log: seq<Effect>, i: nat, j: nat, name: string) {
    exists k: nat :: i < k < j && k < |log| && log[k].Swept? && log[k].name == name
  }

  lemma HolderStep(env: Setting, before: seq<Effect>, e: Effect, name: string)
    requires EffectOk(env, before, e) && Holder(before, name).Some? && !(e.Swept? && e.name == name)
    ensures Holder(before + [e], name).Some?
    ensures Holder(before + [e], name).value.requestId == Holder(before, name).value.requestId
  {
  }

  lemma UnsweptBefore(log: seq<Effect>, i: nat, j: nat, name: string)
    requires i < j - 1 && j <= |log| && !SweptBetween(log, i, j, name)
    ensures !SweptBetween(log, i, j - 1, name) && !(log[j - 1].Swept? && log[j - 1].name == name)
  {
  }

  lemma HolderAt(log: seq<Effect>, j: nat, name: string)
    requires 0 < j <= |log|
    ensures Holder(log[..j], name) == Holder(log[..j - 1] + [log[j - 1]], name)
  {
    assert log[..j] == log[..j - 1] + [log[j - 1]];
  }

  /** A holder stays until a sweep: later writers with another request id are refused. */
  lemma {:induction false} HolderStays(env: Setting, log: seq<Effect>, i: nat, j: nat)
    requires LogOk(env, log) && i < j <= |log| && Successful(log[i])
    requires !SweptBetween(log, i, j, log[i].claim.name)
    ensures Holder(log[..j], log[i].claim.name).Some?
    ensures Holder(log[..j], log[i].claim.name).value.requestId == log[i].claim.requestId
    decreases j
  {
    var name, before, e := log[i].claim.name, log[..j - 1], log[j - 1];
    HolderAt(log, j, name);
    if i == j - 1 {
      HolderGrows(before, e, name);
    } else {
      UnsweptBefore(log, i, j, name);
      HolderStays(env, log, i, j - 1);
      assert EffectAt(env, log, j - 1);
      HolderStep(env, before, e, name);
    }
  }

  /** Two successful writes of one name by different requests have a sweep of that name between them. */
  lemma WritersAreSweptApart(env: Setting, log: seq<Effect>, i: nat, j: nat)
    requires LogOk(env, log) && i < j < |log| && Successful(log[i]) && Successful(log[j])
    requires log[i].claim.name == log[j].claim.name && log[i].claim.requestId != log[j].claim.requestId
    ensures SweptBetween(log, i, j, log[i].claim.name)
  {
    assert EffectAt(env, log, j);
    if !SweptBetween(log, i, j, log[i].claim.name) {
      HolderStays(env, log, i, j);
    }
  }

  /** The put's claim is what its message asks for. */
  ghost predicate Asked(env: Setting, e: Effect)
    requires e.Wrote?
  {
    e.msg in env.bodies && Asks(env.bodies[e.msg], env.ttl, e.claim)
  }

  /** In every run, whatever a worker puts is what the message it handles asks for. */
  lemma PutsAreAsked(env: Setting, run: Run, n: nat, i: nat)
    requires IsRun(env, run) && n < |run.states| && i < |run.states[n].log| && run.states[n].log[i].Wrote?
    ensures Asked(env, run.states[n].log[i])
  {
    InvAlways(env, run, n);
    var log := run.states[n].log;
    assert EffectAt(env, log, i);
    ClaimsAreAsked(env.bodies[log[i].msg], log[i].claim.createdAt, env.ttl, log[i].claim);
  }

  /** Effect `m` reports the put that is effect `i`: the same delivery of the same message, and the same claim. */
  predicate Reports(log: seq<Effect>, m: nat, i: nat) {
    && i < m < |log| && log[m].Accepted? && log[m].verdict.Success?
    && log[i].Wrote? && log[i].a == log[m].a && log[i].msg == log[m].msg && log[i].claim == log[m].verdict.claim
    && log[i].outcome == if log[m].verdict.replayed then AlreadyHeldByThisRequest else Created
  }

  lemma BackingPut(env: Setting, log: seq<Effect>, m: nat) returns (i: nat)
    requires LogOk(env, log) && m < |log| && log[m].Accepted? && log[m].verdict.Success?
    ensures Reports(log, m, i)
  {
    assert EffectAt(env, log, m);
    var put := Wrote(log[m].a, log[m].msg, log[m].verdict.claim,
                     if log[m].verdict.replayed then AlreadyHeldByThisRequest else Created);
    assert put in log[..m];
    i :| i < m && log[..m][i] == put;
  }

  /**
    In every run: if two requests both have success accepted for the same name, a sweep of that
    name lies between the writes behind those two reports. The names and request ids are those of
    the two messages.
  */
  lemma SuccessesAreSweptApart(env: Setting, run: Run, n: nat, m1: nat, m2: nat) returns (i: nat, j: nat)
    requires IsRun(env, run) && n < |run.states|
    requires var log := run.states[n].log;
      && m1 < |log| && m2 < |log| && log[m1].Accepted? && log[m2].Accepted?
      && log[m1].verdict.Success? && log[m2].verdict.Success?
      && log[m1].verdict.claim.name == log[m2].verdict.claim.name
      && log[m1].verdict.claim.requestId != log[m2].verdict.claim.requestId
    ensures var log := run.states[n].log;
      && Reports(log, m1, i) && Asked(env, log[i])
      && Reports(log, m2, j) && Asked(env, log[j])
      && (SweptBetween(log, i, j, log[i].claim.name) || SweptBetween(log, j, i, log[i].claim.name))
  {
    InvAlways(env, run, n);
    var log := run.states[n].log;
    i := BackingPut(env, log, m1);
    j := BackingPut(env, log, m2);
    PutsAreAsked(env, run, n, i);
    PutsAreAsked(env, run, n, j);
    if i < j {
      WritersAreSweptApart(env, log, i, j);
    } else {
      WritersAreSweptApart(env, log, j, i);
    }
  }

  // ---- counting ----

  function Creations(log: seq<Effect>, name: string): nat {
    if log == [] then 0
    else Creations(log[..|log| - 1], name) +
         var e := log[|log| - 1];
         if e.Wrote? && e.outcome == Created && e.claim.name == name then 1 else 0
  }

  function Sweeps(log: seq<Effect>, name: string): nat {
    if log == [] then 0
    else Sweeps(log[..|log| - 1], name) +
         var e := log[|log| - 1];
         if e.Swept? && e.name == name then 1 else 0
  }

  lemma LogFront(env: Setting, log: seq<Effect>)
    requires LogOk(env, log) && log != []
    ensures LogOk(env, log[..|log| - 1]) && EffectOk(env, log[..|log| - 1], log[|log| - 1])
  {
    var front := log[..|log| - 1];
    assert EffectAt(env, log, |log| - 1);
    forall i: nat | i < |front|
      ensures EffectAt(env, front, i)
    {
      assert EffectAt(env, log, i);
      assert front[..i] == log[..i];
    }
  }

  lemma {:induction false} CreationsBalance(env: Setting, log: seq<Effect>, name: string)
    requires LogOk(env, log)
    ensures Creations(log, name) == Sweeps(log, name) + if Holder(log, name).Some? then 1 else 0
  {
    if log != [] {
      LogFront(env, log);
      CreationsBalance(env, log[..|log| - 1], name);
    }
  }

  /** In every run, per name: puts that created the item are sweeps plus the item held now. */
  lemma CreationsBalanceSweeps(env: Setting, run: Run, n: nat, name: string)
    requires IsRun(env, run) && n < |run.states|
    ensures Creations(run.states[n].log, name)
      == Sweeps(run.states[n].log, name) + if name in run.states[n].items then 1 else 0
  {
    InvAlways(env, run, n);
    CreationsBalance(env, run.states[n].log, name);
    assert Held(run.states[n], name).Some? <==> Holder(run.states[n].log, name).Some?;
  }

  // ---- the deletion rule ----

  /** Every deleted message had an outcome for its own token accepted before, from the delivery that deletes it. */
  lemma DeletedWasReported(env: Setting, run: Run, n: nat, m: nat) returns (i: nat)
    requires IsRun(env, run) && n < |run.states| && m < |run.states[n].log| && run.states[n].log[m].Deleted?
    ensures var log := run.states[n].log;
      && i < m && log[i].Accepted? && log[i].a == log[m].a
      && log[i].msg == log[m].msg && log[i].token == TokenOf(env, log[m].msg)
  {
    InvAlways(env, run, n);
    var log := run.states[n].log;
    assert EffectAt(env, log, m);
    var token := TokenOf(env, log[m].msg);
    var v :| Accepted(log[m].a, log[m].msg, token, v) in log[..m];
    i :| i < m && log[..m][i] == Accepted(log[m].a, log[m].msg, token, v);
  }

  /**
    An accepted success tells the truth about the table: the put of this delivery of this message took
    effect before, for the name and request id the message carries, and the replay flag says whether
    the name was held.
  */
  lemma AcceptedIsTrue(env: Setting, run: Run, n: nat, m: nat) returns (i: nat)
    requires IsRun(env, run) && n < |run.states| && m < |run.states[n].log|
    requires run.states[n].log[m].Accepted? && run.states[n].log[m].verdict.Success?
    ensures var log := run.states[n].log;
      && Reports(log, m, i) && Asked(env, log[i]) && log[m].token == TokenOf(env, log[m].msg)
      && (log[m].verdict.replayed <==> Holder(log[..i], log[i].claim.name).Some?)
  {
    InvAlways(env, run, n);
    var log := run.states[n].log;
    i := BackingPut(env, log, m);
    PutsAreAsked(env, run, n, i);
    assert EffectAt(env, log, i);
    assert EffectAt(env, log, m);
  }

  /**
    So does an accepted NAME_ALREADY_RESERVED: at the instant `i` of this message's put the name was
    held by what effect `h` had put, and that was asked for by a message with another request id.
  */
  lemma AcceptedConflictIsTrue(env: Setting, run: Run, n: nat, m: nat) returns (i: nat, h: nat)
    requires IsRun(env, run) && n < |run.states| && m < |run.states[n].log|
    requires run.states[n].log[m].Accepted? && run.states[n].log[m].verdict == Failure("NAME_ALREADY_RESERVED")
    ensures var log := run.states[n].log;
      && i < m && log[i].Wrote? && log[i].a == log[m].a && log[i].msg == log[m].msg && Asked(env, log[i])
      && LastWrite(log, h, i, log[i].claim.name) && Asked(env, log[h])
      && Holder(log[..i], log[i].claim.name) == Some(log[h].claim)
      && log[h].claim.requestId != log[i].claim.requestId
  {
    InvAlways(env, run, n);
    var log := run.states[n].log;
    assert EffectAt(env, log, m);
    var claim :| Wrote(log[m].a, log[m].msg, claim, NameAlreadyReserved) in log[..m];
    i :| i < m && log[..m][i] == Wrote(log[m].a, log[m].msg, claim, NameAlreadyReserved);
    assert EffectAt(env, log, i);
    h := HolderIsLastWriter(log, i, claim.name);
    PutsAreAsked(env, run, n, i);
    PutsAreAsked(env, run, n, h);
  }

  /** Any other accepted failure is the one the message is planned as, at every clock reading. */
  lemma AcceptedFailureIsPlanned(env: Setting, run: Run, n: nat, m: nat, clock: int)
    requires IsRun(env, run) && n < |run.states| && m < |run.states[n].log| && run.states[n].log[m].Accepted?
    requires run.states[n].log[m].verdict.Failure? && run.states[n].log[m].verdict.code != "NAME_ALREADY_RESERVED"
    ensures run.states[n].log[m].msg in env.bodies
    ensures PlanFor(env.bodies[run.states[n].log[m].msg], clock, env.ttl) == Report(run.states[n].log[m].verdict.code)
  {
    InvAlways(env, run, n);
    var log := run.states[n].log;
    assert EffectAt(env, log, m);
    ReportsIgnoreTheClock(env.bodies[log[m].msg], 0, clock, env.ttl);
  }

  /** Step Functions accepts at most one outcome per token. */
  lemma OneOutcomePerToken(env: Setting, run: Run, n: nat, m1: nat, m2: nat)
    requires IsRun(env, run) && n < |run.states| && m1 < m2 < |run.states[n].log|
    requires run.states[n].log[m1].Accepted? && run.states[n].log[m2].Accepted?
    ensures run.states[n].log[m1].token != run.states[n].log[m2].token
  {
    InvAlways(env, run, n);
    var log := run.states[n].log;
    assert EffectAt(env, log, m2);
    assert log[..m2][m1] == log[m1];
    assert Accepted(log[m1].a, log[m1].msg, log[m1].token, log[m1].verdict) in log[..m2];
  }

  // ---- the lease ----

  /** `i` is the last successful write of the name before position `m`. */
  ghost predicate LastWrite(log: seq<Effect>, i: nat, m: nat, name: string) {
    && i < m <= |log| && Successful(log[i]) && log[i].claim.name == name
    && forall k: nat | i < k < m :: !(Successful(log[k]) && log[k].claim.name == name)
  }

  lemma {:induction false} HolderIsLastWriter(log: seq<Effect>, m: nat, name: string) returns (i: nat)
    requires m <= |log| && Holder(log[..m], name).Some?
    ensures LastWrite(log, i, m, name) && log[i].claim == Holder(log[..m], name).value
  {
    assert m > 0;
    var e := log[m - 1];
    HolderAt(log, m, name);
    HolderGrows(log[..m - 1], e, name);
    if Successful(e) && e.claim.name == name {
      i := m - 1;
    } else {
      i := HolderIsLastWriter(log, m - 1, name);
    }
  }

  /**
    In every run, whatever the workers' clocks and the order of concurrent replays: no sweep comes a
    second or more before the expiry of the last successful writer, its clock reading plus the TTL.
  */
  lemma SweepRespectsTheLastWriter(env: Setting, run: Run, n: nat, m: nat) returns (i: nat)
    requires IsRun(env, run) && n < |run.states| && m < |run.states[n].log| && run.states[n].log[m].Swept?
    ensures var log := run.states[n].log;
      && LastWrite(log, i, m, log[m].name) && Asked(env, log[i])
      && log[i].claim.expiresAt == log[i].claim.createdAt + env.ttl
      && log[m].at + 10_000_000 > log[i].claim.expiresAt
  {
    InvAlways(env, run, n);
    var log := run.states[n].log;
    assert EffectAt(env, log, m);
    i := HolderIsLastWriter(log, m, log[m].name);
    LeaseHolds(log[i].claim, log[m].at);
    PutsAreAsked(env, run, n, i);
  }

  // ---- the lease of an earlier report ----

  /** From this state on and without a further write, no sweep of the name comes a second or more before `expiry`. */
  ghost predicate Honours(env: Setting, s: System, name: string, expiry: int) {
    forall at: int | Enabled(env, s, Tick(at)) && Enabled(env, After(env, s, Tick(at)), Sweep(name)) :: at + TICKS > expiry
  }

  /** The stored second is not smaller, in the clock readings of the reporting and of the last writer; or the expiry is due. */
  predicate KeepsReport(reportClock: int, writeClock: int, ttl: int, now: int) {
    Seconds(reportClock + ttl) <= Seconds(writeClock + ttl) || now + TICKS > reportClock + ttl
  }

  lemma HonoursIff(env: Setting, s: System, name: string, expiry: int)
    requires name in s.items
    ensures Honours(env, s, name, expiry) <==> Seconds(expiry) <= s.items[name].expiresAt || s.now + TICKS > expiry
  {
    EarliestSweep(s.items[name], s.now, expiry);
    forall at: int | at >= s.now
      ensures Enabled(env, After(env, s, Tick(at)), Sweep(name)) <==> MaySweep(s.items[name], at)
    {
    }
    if Honours(env, s, name, expiry) {
      forall at: int | at >= s.now && MaySweep(s.items[name], at)
        ensures at + TICKS > expiry
      {
        assert Enabled(env, s, Tick(at));
      }
    }
  }

  /**
    In every reached state that holds the name: the lease of an accepted report is honoured from then
    on if and only if the last successful writer's clock keeps it.
  */
  lemma ReportHoldsIff(env: Setting, run: Run, n: nat, m: nat) returns (i: nat)
    requires IsRun(env, run) && n < |run.states| && m < |run.states[n].log|
    requires run.states[n].log[m].Accepted? && run.states[n].log[m].verdict.Success?
    requires run.states[n].log[m].verdict.claim.name in run.states[n].items
    ensures var s, report := run.states[n], run.states[n].log[m].verdict.claim;
      && LastWrite(s.log, i, |s.log|, report.name)
      && report.expiresAt == report.createdAt + env.ttl
      && (Honours(env, s, report.name, report.expiresAt)
          <==> KeepsReport(report.createdAt, s.log[i].claim.createdAt, env.ttl, s.now))
  {
    InvAlways(env, run, n);
    var s, report := run.states[n], run.states[n].log[m].verdict.claim;
    var p := BackingPut(env, s.log, m);
    PutsAreAsked(env, run, n, p);
    assert Held(s, report.name).Some? && s.log[..|s.log|] == s.log;
    i := HolderIsLastWriter(s.log, |s.log|, report.name);
    PutsAreAsked(env, run, n, i);
    HonoursIff(env, s, report.name, report.expiresAt);
  }

  /**
    The same, decided before the write: a put that takes effect leaves an accepted report of the name
    honoured if and only if the clock reading it was planned with keeps it.
  */
  lemma WriteKeepsReportIff(env: Setting, run: Run, n: nat, m: nat)
    requires IsRun(env, run) && n < |run.steps| && run.steps[n].Take? && m < |run.states[n].log|
    requires run.states[n].log[m].Accepted? && run.states[n].log[m].verdict.Success?
    requires var s, a := run.states[n], run.steps[n].a;
      && a in s.attempts && s.attempts[a].wire.Sent? && s.attempts[a].wire.cmd.PutItem?
      && s.attempts[a].wire.cmd.claim.name == s.log[m].verdict.claim.name
      && Put(Held(s, s.log[m].verdict.claim.name), ToItem(s.attempts[a].wire.cmd.claim)).1.Replaced?
    ensures var s, report := run.states[n], run.states[n].log[m].verdict.claim;
      n + 1 < |run.states| &&
      (Honours(env, run.states[n + 1], report.name, report.expiresAt)
       <==> KeepsReport(report.createdAt, s.attempts[run.steps[n].a].wire.cmd.claim.createdAt, env.ttl, s.now))
  {
    assert Moves(env, run, n);
    assert run.states[n + 1].log[m] == run.states[n].log[m];
    var i := ReportHoldsIff(env, run, n + 1, m);
    var s' := run.states[n + 1];
    assert Successful(s'.log[|s'.log| - 1]);
  }
}
