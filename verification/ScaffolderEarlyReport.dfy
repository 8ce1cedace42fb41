/**
  A replay that read its clock early but writes late shortens the lease another worker has already
  reported: the sweep can come up to a whole TTL before that reported expiry, with no clock ever ahead.
*/
module ScaffolderEarlyReport {
  import opened Wrappers
  import ApplicationNames
  import Strings
  import opened NameReservations
  import opened ScaffolderTasks
  import opened ScaffolderSystem

  const NAME := "abc"

  const BODY := Envelope("token", Some(RESERVE_NAME), Command(Some(NAME), Some("req-1")))

  function Redelivered(ttl: int): Setting {
    Setting(map[0 := BODY], ttl)
  }

  function ClaimAt(clock: int, ttl: int): Reservation {
    Reservation(NAME, "req-1", clock, clock + ttl)
  }

  lemma PlanIsClaim(clock: int, ttl: int)
    requires ttl > 0
    ensures PlanFor(BODY, clock, ttl) == Claim(ClaimAt(clock, ttl))
  {
    assert ApplicationNames.NameShape(NAME);
    Strings.TrimOfTrimmed(Strings.UnicodeSpace, NAME);
    ApplicationNames.ParseAcceptsIff(Some(NAME));
    assert "req-1"[0] == 'r' && 'r' in "req-1";
  }

  ghost predicate Reaches(env: Setting, run: Run, s: System) {
    IsRun(env, run) && run.states[|run.steps|] == s
  }

  lemma Extended(env: Setting, run: Run, s: System, e: Step) returns (run': Run)
    requires Reaches(env, run, s) && Enabled(env, s, e)
    ensures Reaches(env, run', After(env, s, e))
  {
    run' := Run(run.states + [After(env, s, e)], run.steps + [e]);
    forall i: nat | i < |run'.steps|
      ensures Moves(env, run', i)
    {
      if i < |run.steps| {
        assert Moves(env, run, i);
      }
    }
  }

  lemma BegunIsClaiming(env: Setting, clock: int)
    requires env == Redelivered(env.ttl) && env.ttl > 0
    ensures 0 in env.bodies && Begun(env, Attempt(0, Received, Quiet), clock) == Claiming(ClaimAt(clock, env.ttl))
  {
    assert env.bodies[0] == BODY;
    PlanIsClaim(clock, env.ttl);
  }

  /** Receiving and beginning, for any setting whose message 0 is begun as this stage. */
  lemma BeginsAs(env: Setting, s: System, a: Id, clock: int, stage: Stage)
    requires 0 in env.bodies && Begun(env, Attempt(0, Received, Quiet), clock) == stage && a !in s.attempts
    ensures Enabled(env, s, Receive(a, 0)) && Enabled(env, After(env, s, Receive(a, 0)), Begin(a, clock))
    ensures After(env, After(env, s, Receive(a, 0)), Begin(a, clock)) == With(s, a, Attempt(0, stage, Quiet))
  {
    assert After(env, After(env, s, Receive(a, 0)), Begin(a, clock)).attempts == s.attempts[a := Attempt(0, stage, Quiet)];
  }

  /** A delivery of the message is planned at `clock`, ready to write. */
  lemma Begins(env: Setting, run: Run, s: System, a: Id, clock: int) returns (run': Run, s': System)
    requires Reaches(env, run, s) && env == Redelivered(env.ttl) && env.ttl > 0 && a !in s.attempts
    ensures Reaches(env, run', s')
    ensures s' == With(s, a, Attempt(0, Claiming(ClaimAt(clock, env.ttl)), Quiet))
  {
    BegunIsClaiming(env, clock);
    BeginsAs(env, s, a, clock, Claiming(ClaimAt(clock, env.ttl)));
    var s1 := After(env, s, Receive(a, 0));
    run' := Extended(env, run, s, Receive(a, 0));
    run' := Extended(env, run', s1, Begin(a, clock));
    s' := After(env, s1, Begin(a, clock));
  }

  /** The attempt's put takes effect. */
  lemma Writes(env: Setting, run: Run, s: System, a: Id, clock: int) returns (run': Run, s': System)
    requires Reaches(env, run, s) && a in s.attempts
    requires s.attempts[a] == Attempt(0, Claiming(ClaimAt(clock, env.ttl)), Quiet)
    requires Held(s, NAME).Some? ==> Held(s, NAME).value.requestId == "req-1"
    ensures Reaches(env, run', s')
    ensures var outcome := if NAME in s.items then AlreadyHeldByThisRequest else Created;
      && s'.items == s.items[NAME := ToItem(ClaimAt(clock, env.ttl))]
      && s'.log == s.log + [Wrote(a, 0, ClaimAt(clock, env.ttl), outcome)]
      && s'.attempts == s.attempts[a := s.attempts[a].(wire := Answered(PutDone(outcome)))]
      && s'.accepted == s.accepted && s'.now == s.now
  {
    run' := Extended(env, run, s, Send(a));
    var s1 := After(env, s, Send(a));
    run' := Extended(env, run', s1, Take(a, true));
    s' := After(env, s1, Take(a, true));
  }

  /** The attempt hears that its put created the item and has success accepted. */
  lemma Reports(env: Setting, run: Run, s: System, a: Id, claim: Reservation) returns (run': Run, s': System)
    requires Reaches(env, run, s) && env == Redelivered(env.ttl) && a in s.attempts && "token" !in s.accepted
    requires s.attempts[a] == Attempt(0, Claiming(claim), Answered(PutDone(Created)))
    ensures Reaches(env, run', s')
    ensures s'.items == s.items && s'.now == s.now && s'.log == s.log + [Accepted(a, 0, "token", Success(claim, false))]
    ensures s'.attempts.Keys == s.attempts.Keys && forall b | b in s.attempts && b != a :: s'.attempts[b] == s.attempts[b]
  {
    run' := Extended(env, run, s, Hear(a));
    var s1 := After(env, s, Hear(a));
    run' := Extended(env, run', s1, Send(a));
    var s2 := After(env, s1, Send(a));
    run' := Extended(env, run', s2, Take(a, true));
    s' := After(env, s2, Take(a, true));
  }

  /** For every positive TTL and every `lag` up to it: a run that sweeps the name `lag` before an accepted report's expiry. */
  lemma SweepCanPrecedeAReport(ttl: int, lag: nat) returns (run: Run)
    requires 0 < ttl && lag <= ttl
    ensures IsRun(Redelivered(ttl), run)
    ensures var log := run.states[|run.steps|].log;
      && |log| == 4 && log[1].Accepted? && log[1].verdict.Success? && log[3].Swept?
      && log[3].name == log[1].verdict.claim.name
      && log[3].at + lag == log[1].verdict.claim.expiresAt
  {
    var env, s := Redelivered(ttl), System(ttl, map[], map[], map[], []);
    run := Run([s], []);
    run, s := Begins(env, run, s, 0, 0);
    run, s := Begins(env, run, s, 1, lag);
    run, s := Writes(env, run, s, 1, lag);
    run, s := Reports(env, run, s, 1, ClaimAt(lag, ttl));
    run, s := Writes(env, run, s, 0, 0);
    assert s.items[NAME] == ToItem(ClaimAt(0, ttl));
    run := Extended(env, run, s, Sweep(NAME));
  }
}
