/**
  The timing hypothesis is tight: for every TTL there is a run in which one release script takes
  effect one millisecond too late and two requests of the same window both publish, whether the
  record it deletes is in flight or already completed.
*/
module IdempotencyLateScript {
  import opened Wrappers
  import opened Records
  import opened RecordJson
  import opened IdempotencyPort
  import opened IdempotencyProtocol
  import opened IdempotencyTheorems
  import opened IdempotencyCalls

  const KEY := "6e9f4a1c-3d0b-4f6e-9a57-2b8c1d7e5f30"

  const EPOCH := Stamp(1970, 1, 1, 0, 0, 0, 0)

  const EPOCHS := Times(EPOCH, EPOCH)

  /** Only the one key, no eviction, and every script takes effect within `ttl + slack` of its owner's SETNX. */
  ghost predicate LateByAtMost(run: Run, ttl: nat, slack: nat)
    requires IsRun(run, ttl)
  {
    && (forall i: nat | i < |run.events| && run.events[i].OnKey? :: run.events[i].key == KEY)
    && forall i: nat | i < |run.events| && Acts(run, i, KEY) && Moves(run, ttl, i) ::
      match run.events[i].step
      case Take(r) =>
        var q := KeyAt(run, i, KEY).reqs[r];
        q.wire.cmd.Promote? || q.wire.cmd.Remove? ==> InTime(q, run.states[i].now, ttl + slack)
      case Evict => false
      case _ => true
  }

  /** A run on the single key that has reached time `now` and state `k`. */
  ghost predicate Reaches(run: Run, ttl: nat, slack: nat, now: nat, k: KeyState) {
    && IsRun(run, ttl) && LateByAtMost(run, ttl, slack)
    && run.states[|run.events|] == System(now, map[KEY := k])
  }

  /** `run'` begins with `run`. */
  predicate Continues(run: Run, run': Run) {
    run.states <= run'.states && run.events <= run'.events
  }

  function Extend(run: Run, e: Event, next: System): Run {
    Run(run.states + [next], run.events + [e])
  }

  lemma ExtendKeepsRun(run: Run, ttl: nat, slack: nat, e: Event)
    requires IsRun(run, ttl) && LateByAtMost(run, ttl, slack) && Possible(run.states[|run.events|], e)
    requires e.OnKey? ==> e.key == KEY && !e.step.Evict?
    requires e.OnKey? && e.step.Take? ==>
      var s := run.states[|run.events|];
      var q := s.keys[KEY].reqs[e.step.r];
      q.wire.cmd.Promote? || q.wire.cmd.Remove? ==> InTime(q, s.now, ttl + slack)
    ensures var run' := Extend(run, e, Next(run.states[|run.events|], e, ttl));
      IsRun(run', ttl) && LateByAtMost(run', ttl, slack)
  {
    var run' := Extend(run, e, Next(run.states[|run.events|], e, ttl));
    forall i: nat | i < |run'.events|
      ensures Moves(run', ttl, i)
    {
      if i < |run.events| {
        assert Moves(run, ttl, i);
      }
    }
    forall i: nat | i < |run.events|
      ensures KeyAt(run', i, KEY) == KeyAt(run, i, KEY) && Acts(run', i, KEY) == Acts(run, i, KEY)
    {
      assert Moves(run, ttl, i);
    }
  }

  lemma Extended(run: Run, ttl: nat, slack: nat, now: nat, k: KeyState, step: Step) returns (run': Run)
    requires Reaches(run, ttl, slack, now, k) && Enabled(k, step) && !step.Evict?
    requires step.Take? && (k.reqs[step.r].wire.cmd.Promote? || k.reqs[step.r].wire.cmd.Remove?) ==>
      InTime(k.reqs[step.r], now, ttl + slack)
    ensures Reaches(run', ttl, slack, now, After(k, step, now, ttl)) && |run'.events| == |run.events| + 1
    ensures Continues(run, run') && run'.events[|run.events|] == OnKey(KEY, step)
  {
    var e := OnKey(KEY, step);
    var s := run.states[|run.events|];
    ExtendKeepsRun(run, ttl, slack, e);
    run' := Extend(run, e, Next(s, e, ttl));
    assert Next(s, e, ttl).keys == map[KEY := After(k, step, now, ttl)];
  }

  lemma Waits(run: Run, ttl: nat, slack: nat, now: nat, k: KeyState, later: nat) returns (run': Run)
    requires Reaches(run, ttl, slack, now, k) && now < later
    ensures Reaches(run', ttl, slack, later, Ticked(k, later)) && Continues(run, run')
  {
    var s := run.states[|run.events|];
    ExtendKeepsRun(run, ttl, slack, Tick(later));
    run' := Extend(run, Tick(later), Next(s, Tick(later), ttl));
    assert Next(s, Tick(later), ttl).keys == map[KEY := Ticked(k, later)];
  }

  // ---- one exchange with Redis ----

  /** A run that goes on from this one passes through its last state. */
  lemma Passes(run: Run, run': Run, ttl: nat, slack: nat, now: nat, k: KeyState)
    requires Reaches(run, ttl, slack, now, k) && Continues(run, run')
    ensures |run.events| < |run'.states| && run'.states[|run.events|] == System(now, map[KEY := k])
    ensures KeyAt(run', |run.events|, KEY) == k
  {
    assert run'.states[|run.events|] == run.states[|run.events|];
  }

  lemma Exchange(run: Run, ttl: nat, slack: nat, now: nat, k: KeyState, r: ReqId) returns (run': Run)
    requires Reaches(run, ttl, slack, now, k) && CanCall(k, r)
    requires k.reqs[r].stage.Promoting? || k.reqs[r].stage.Releasing? ==> InTime(k.reqs[r], now, ttl + slack)
    ensures Reaches(run', ttl, slack, now, Exchanged(k, r, EPOCHS, now, ttl)) && Continues(run, run')
    ensures |run'.events| == |run.events| + 3 && run'.events[|run.events| + 1] == OnKey(KEY, Take(r))
    ensures KeyAt(run', |run.events| + 1, KEY) == After(k, Send(r, EPOCH, EPOCH), now, ttl)
    ensures run'.states[|run.events| + 1].now == now
    ensures KeyAt(run', |run.events| + 2, KEY).slot == Exchanged(k, r, EPOCHS, now, ttl).slot
  {
    var sent := After(k, Send(r, EPOCH, EPOCH), now, ttl);
    var taken := After(sent, Take(r), now, ttl);
    var run1 := Extended(run, ttl, slack, now, k, Send(r, EPOCH, EPOCH));
    var run2 := Extended(run1, ttl, slack, now, sent, Take(r));
    run' := Extended(run2, ttl, slack, now, taken, Hear(r));
    Passes(run1, run', ttl, slack, now, sent);
    Passes(run2, run', ttl, slack, now, taken);
    assert run'.events[|run1.events|] == run2.events[|run1.events|];
  }

  // ---- what the requests of the runs do ----

  /** A request that finds the key free gets it and enters its handler. */
  lemma Reserves(run: Run, ttl: nat, slack: nat, now: nat, k: KeyState, r: ReqId) returns (run': Run)
    requires Reaches(run, ttl, slack, now, k) && k.slot.None? && r !in k.reqs
    ensures Reaches(run', ttl, slack, now, Reserved(k, r, [], EPOCHS, now, ttl)) && Continues(run, run')
  {
    var k1 := After(k, Arrive(r, []), now, ttl);
    assert CanCall(k1, r) && Exchanged(k1, r, EPOCHS, now, ttl) == Reserved(k, r, [], EPOCHS, now, ttl) by {
      ExchangeReserves(k1, r, [], EPOCHS, now, ttl);
      assert Reserved(k1, r, [], EPOCHS, now, ttl).reqs == Reserved(k, r, [], EPOCHS, now, ttl).reqs;
    }
    run' := Extended(run, ttl, slack, now, k, Arrive(r, []));
    run' := Exchange(run', ttl, slack, now, k1, r);
  }

  /** An owner whose handler failed releases whatever looks in flight by then, whoever stored it, at step `j`. */
  lemma FailsAndReleases(run: Run, ttl: nat, slack: nat, now: nat, k: KeyState, r: ReqId) returns (run': Run, k': KeyState, j: nat)
    requires Reaches(run, ttl, slack, now, k) && k.slot.Some? && LooksInFlight(k.slot.value.rec)
    requires r in k.reqs && k.reqs[r] == Owner([], 0, 0) && now <= ttl + slack
    ensures Reaches(run', ttl, slack, now, k') && Continues(run, run')
    ensures k'.slot.None? && k'.window == k.window && k'.reqs.Keys == k.reqs.Keys
    ensures forall s | s in k.reqs && s != r :: k'.reqs[s] == k.reqs[s]
    ensures j < |run'.events| && run'.events[j] == OnKey(KEY, Take(r))
    ensures KeyAt(run', j, KEY).slot == k.slot && KeyAt(run', j + 1, KEY).slot.None?
  {
    var failed := Response(500, map[], []);
    var k1 := After(k, Return(r, failed), now, ttl);
    var run1 := Extended(run, ttl, slack, now, k, Return(r, failed));
    run' := Exchange(run1, ttl, slack, now, k1, r);
    ExchangeReleases(k1, r, EPOCHS, now, ttl);
    k', j := Exchanged(k1, r, EPOCHS, now, ttl), |run1.events| + 1;
  }

  /** 202 has been returned, the record read, and the promotion is next. */
  function ReadBack(k: KeyState, r: ReqId, now: nat, resp: Response): KeyState {
    With(k, r, Answered202(now, k.window, resp).(stage := Promoting(InFlightRecord([], EPOCH, EPOCH))))
  }

  lemma Returns(run: Run, ttl: nat, slack: nat, now: nat, k: KeyState, r: ReqId, resp: Response) returns (run': Run)
    requires Reaches(run, ttl, slack, now, k) && r in k.reqs && resp.status == 202
    requires k.reqs[r] == Owner([], now, k.window).(published := true)
    requires k.slot == Some(Entry(InFlightRecord([], EPOCH, EPOCH), now + ttl))
    ensures Reaches(run', ttl, slack, now, ReadBack(k, r, now, resp)) && Continues(run, run')
  {
    var k1 := After(k, Return(r, resp), now, ttl);
    assert CanCall(k1, r) && Exchanged(k1, r, EPOCHS, now, ttl) == ReadBack(k, r, now, resp) by {
      ExchangeReads(k1, r, EPOCHS, now, ttl);
      assert With(k1, r, k1.reqs[r].(stage := Promoting(k1.slot.value.rec))).reqs == ReadBack(k, r, now, resp).reqs;
    }
    run' := Extended(run, ttl, slack, now, k, Return(r, resp));
    run' := Exchange(run', ttl, slack, now, k1, r);
  }

  /** An owner whose handler published and answered 202 stores its response in time. */
  lemma Completes(run: Run, ttl: nat, slack: nat, now: nat, k: KeyState, r: ReqId, resp: Response) returns (run': Run)
    requires Reaches(run, ttl, slack, now, k) && r in k.reqs && resp.status == 202
    requires k.reqs[r] == Owner([], now, k.window).(published := true)
    requires k.slot == Some(Entry(InFlightRecord([], EPOCH, EPOCH), now + ttl))
    ensures Reaches(run', ttl, slack, now, Completed202(k, r, now, ttl, resp)) && Continues(run, run')
  {
    var k2 := ReadBack(k, r, now, resp);
    assert CanCall(k2, r) && Exchanged(k2, r, EPOCHS, now, ttl) == Completed202(k, r, now, ttl, resp) by {
      ExchangePromotes(k2, r, EPOCHS, now, ttl);
      assert With(k2, r, Ended(k2.reqs[r], false)).reqs == Completed202(k, r, now, ttl, resp).reqs;
    }
    run' := Returns(run, ttl, slack, now, k, r, resp);
    run' := Exchange(run', ttl, slack, now, k2, r);
  }

  function Completed202(k: KeyState, r: ReqId, now: nat, ttl: nat, resp: Response): KeyState {
    With(k, r, Answered202(now, k.window, resp)).(
      slot := Some(Entry(CompletedRecord(InFlightRecord([], EPOCH, EPOCH), resp, EPOCH), now + ttl)))
  }

  function Answered202(now: nat, window: nat, resp: Response): Request {
    Request([], Finished(Fresh(resp), false), Quiet, Some(Birth(now, window)), true, Some(Fresh(resp)))
  }

  /** A request that finds the key free reserves it and publishes. */
  lemma Publishes(run: Run, ttl: nat, slack: nat, now: nat, k: KeyState, r: ReqId) returns (run': Run, k': KeyState)
    requires Reaches(run, ttl, slack, now, k) && k.slot.None? && r !in k.reqs
    ensures Reaches(run', ttl, slack, now, k') && Continues(run, run')
    ensures k' == Reserved(k, r, [], EPOCHS, now, ttl).(reqs := k.reqs[r := Owner([], now, k.window).(published := true)])
  {
    run' := Reserves(run, ttl, slack, now, k, r);
    var k1 := Reserved(k, r, [], EPOCHS, now, ttl);
    run' := Extended(run', ttl, slack, now, k1, Publish(r));
    k' := After(k1, Publish(r), now, ttl);
    assert k'.reqs == k.reqs[r := Owner([], now, k.window).(published := true)];
  }

  /** 0 reserves and stalls; its record expires; 1 reserves and publishes in the next window. */
  lemma SecondOwner(ttl: nat) returns (run: Run, k: KeyState)
    ensures Reaches(run, ttl, 1, ttl + 1, k)
    ensures k == KeyState(
      Some(Entry(InFlightRecord([], EPOCH, EPOCH), ttl + 1 + ttl)),
      map[0 := Owner([], 0, 0), 1 := Owner([], ttl + 1, 1).(published := true)], 1, 1)
  {
    run := Run([System(0, map[KEY := EMPTY])], []);
    run := Reserves(run, ttl, 1, 0, EMPTY, 0);
    k := Reserved(EMPTY, 0, [], EPOCHS, 0, ttl);
    run := Waits(run, ttl, 1, 0, k, ttl + 1);
    k := Ticked(k, ttl + 1);
    assert k == KeyState(None, map[0 := Owner([], 0, 0)], 0, 1);
    run, k := Publishes(run, ttl, 1, ttl + 1, k, 1);
  }

  /** Two requests of one window have published. */
  predicate TwoPublished(k: KeyState, r1: ReqId, r2: ReqId) {
    && r1 in k.reqs && r2 in k.reqs && r1 != r2 && k.reqs[r1].published && k.reqs[r2].published
    && k.reqs[r1].birth.Some? && k.reqs[r2].birth.Some? && k.reqs[r1].birth.value.window == k.reqs[r2].birth.value.window
  }

  lemma TwoPublishedIsLate(run: Run, ttl: nat, now: nat, k: KeyState)
    requires Reaches(run, ttl, 1, now, k) && TwoPublished(k, 1, 2)
    ensures KeyAt(run, |run.events|, KEY) == k && !TimelyRun(run, ttl)
  {
    if TimelyRun(run, ttl) {
      OneWinnerPerWindow(run, ttl, |run.events|, KEY, 1, 2);
    }
  }

  /** The run: 0 reserves and stalls; the key expires; 1 reserves and publishes; 0 releases; 2 reserves and publishes. */
  lemma OneMillisecondLateBreaksExclusion(ttl: nat) returns (run: Run)
    ensures IsRun(run, ttl) && LateByAtMost(run, ttl, 1) && !TimelyRun(run, ttl)
    ensures TwoPublished(KeyAt(run, |run.events|, KEY), 1, 2)
  {
    var k;
    run, k := SecondOwner(ttl);
    var j;
    run, k, j := FailsAndReleases(run, ttl, 1, ttl + 1, k, 0);
    run, k := Publishes(run, ttl, 1, ttl + 1, k, 2);
    TwoPublishedIsLate(run, ttl, ttl + 1, k);
  }

  /** What 1 has stored in the runs below. */
  function StoredBy1(resp: Response): Record {
    CompletedRecord(InFlightRecord([], EPOCH, EPOCH), resp, EPOCH)
  }

  /**
    The same with any completed record that looks in flight: 1 has published, answered 202 and stored
    its response; the release of 0, one millisecond late, deletes it; 2 reserves and publishes again
    in the same window.
  */
  lemma LateReleaseDeletesACompletedRecord(ttl: nat, resp: Response) returns (run: Run, j: nat)
    requires resp.status == 202 && LooksInFlight(StoredBy1(resp))
    ensures IsRun(run, ttl) && LateByAtMost(run, ttl, 1) && !TimelyRun(run, ttl)
    ensures j < |run.events| && run.events[j] == OnKey(KEY, Take(0))
    ensures Stored(KeyAt(run, j, KEY).slot) == Some(StoredBy1(resp)) && KeyAt(run, j + 1, KEY).slot.None?
    ensures var k := KeyAt(run, |run.events|, KEY);
      TwoPublished(k, 1, 2) && k.reqs[1].stage == Finished(Fresh(resp), false)
  {
    var k;
    run, k := SecondOwner(ttl);
    run := Completes(run, ttl, 1, ttl + 1, k, 1, resp);
    k := Completed202(k, 1, ttl + 1, ttl, resp);
    var released;
    released, k, j := FailsAndReleases(run, ttl, 1, ttl + 1, k, 0);
    run, k := Publishes(released, ttl, 1, ttl + 1, k, 2);
    SameStart(released, run, j);
    TwoPublishedIsLate(run, ttl, ttl + 1, k);
  }

  lemma SameStart(run: Run, run': Run, j: nat)
    requires Continues(run, run') && j + 1 < |run.states| && j < |run.events|
    ensures KeyAt(run', j, KEY) == KeyAt(run, j, KEY) && KeyAt(run', j + 1, KEY) == KeyAt(run, j + 1, KEY)
    ensures run'.events[j] == run.events[j] && run'.states[j].now == run.states[j].now
  {
    StartOf(run, run', j);
    StartOf(run, run', j + 1);
  }

  // ---- a late reader ----

  lemma OnTimeIsTimely(run: Run, ttl: nat)
    requires IsRun(run, ttl) && LateByAtMost(run, ttl, 0)
    ensures TimelyRun(run, ttl)
  {
    forall i: nat | i < |run.events|
      ensures MovesInTime(run, ttl, i)
    {
      assert Moves(run, ttl, i);
      if run.events[i].OnKey? {
        assert run.events[i].key == KEY && Acts(run, i, KEY);
      }
    }
  }

  /** The time passes to `later`, if it is not that late already. */
  lemma WaitsUntil(run: Run, ttl: nat, slack: nat, now: nat, k: KeyState, later: nat) returns (run': Run)
    requires Reaches(run, ttl, slack, now, k) && now <= later && Ticked(k, later) == k
    ensures Reaches(run', ttl, slack, later, k) && Continues(run, run')
  {
    run' := run;
    if now < later {
      run' := Waits(run, ttl, slack, now, k, later);
    }
  }

  /** A request finds the key taken: its SETNX is refused at the run's next step but one. */
  lemma IsRefused(run: Run, ttl: nat, slack: nat, now: nat, k: KeyState, r: ReqId) returns (run': Run, k': KeyState, j: nat)
    requires Reaches(run, ttl, slack, now, k) && k.slot.Some? && r !in k.reqs
    ensures Reaches(run', ttl, slack, now, k') && Continues(run, run')
    ensures k' == With(k, r, Request([], Reading, Quiet, None, false, None))
    ensures |run.events| < j < |run'.events| && run'.events[j] == OnKey(KEY, Take(r)) && run'.states[j].now == now
    ensures r in KeyAt(run', j, KEY).reqs && KeyAt(run', j, KEY).reqs[r].stage == Reserving
  {
    var k1 := After(k, Arrive(r, []), now, ttl);
    var run1 := Extended(run, ttl, slack, now, k, Arrive(r, []));
    run' := Exchange(run1, ttl, slack, now, k1, r);
    ExchangeRefused(k1, r, [], EPOCHS, now, ttl);
    k', j := Exchanged(k1, r, EPOCHS, now, ttl), |run1.events| + 1;
    assert k'.reqs == k.reqs[r := Request([], Reading, Quiet, None, false, None)];
  }

  lemma NothingEvicts(run: Run, ttl: nat, slack: nat, i: nat)
    requires IsRun(run, ttl) && LateByAtMost(run, ttl, slack)
    ensures NoEviction(run, i, |run.events|, KEY)
  {
    forall m: nat | i <= m < |run.events| && Acts(run, m, KEY)
      ensures !run.events[m].step.Evict?
    {
      assert Moves(run, ttl, m);
    }
  }

  /** 1 has published, answered 202 and stored its response, all at time 0. */
  lemma FirstStores(ttl: nat, resp: Response) returns (run: Run, k: KeyState)
    requires resp.status == 202
    ensures Reaches(run, ttl, 0, 0, k) && k.slot == Some(Entry(StoredBy1(resp), ttl)) && 2 !in k.reqs
  {
    run := Run([System(0, map[KEY := EMPTY])], []);
    run, k := Publishes(run, ttl, 0, 0, EMPTY, 1);
    run := Completes(run, ttl, 0, 0, k, 1, resp);
    k := Completed202(k, 1, 0, ttl, resp);
  }

  /** A refused request whose GET comes after the record has expired, at step `g`. */
  lemma ReadsTooLate(run: Run, ttl: nat, slack: nat, now: nat, k: KeyState, r: ReqId, later: nat)
    returns (run': Run, k': KeyState, g: nat)
    requires Reaches(run, ttl, slack, now, k) && k.slot.Some? && k.slot.value.deadline < later && now < later
    requires r in k.reqs && k.reqs[r] == Request([], Reading, Quiet, None, false, None)
    ensures Reaches(run', ttl, slack, later, k') && Continues(run, run') && |run.events| < g < |run'.events|
    ensures run'.events[g] == OnKey(KEY, Take(r)) && run'.states[g].now == later
    ensures r in k'.reqs && k'.reqs[r].stage == Finished(Failure(500), true)
  {
    var k1 := Ticked(k, later);
    var run1 := Waits(run, ttl, slack, now, k, later);
    run' := Exchange(run1, ttl, slack, later, k1, r);
    ExchangeFinds(k1, r, EPOCHS, later, ttl);
    k', g := Exchanged(k1, r, EPOCHS, later, ttl), |run1.events| + 1;
  }

  /**
    The bound on replays is tight in a timely run: 1 stores its response at `i`; 2 has its SETNX
    refused at the very deadline, step `j`, and its GET carried out one millisecond later, step `g`;
    it is answered 500 although nothing failed and the record was there when it was refused.
  */
  lemma LateReaderMissesTheRecord(ttl: nat, resp: Response) returns (run: Run, i: nat, j: nat, g: nat)
    requires resp.status == 202
    ensures TimelyRun(run, ttl) && i <= j < g < |run.events| && NoEviction(run, i, |run.events|, KEY)
    ensures KeyAt(run, i, KEY).slot == Some(Entry(StoredBy1(resp), ttl))
    ensures run.events[j] == OnKey(KEY, Take(2)) && run.states[j].now == ttl
    ensures 2 in KeyAt(run, j, KEY).reqs && KeyAt(run, j, KEY).reqs[2].stage == Reserving
    ensures run.events[g] == OnKey(KEY, Take(2)) && run.states[g].now == ttl + 1
    ensures var k := KeyAt(run, |run.events|, KEY);
      2 in k.reqs && k.reqs[2].stage == Finished(Failure(500), true)
  {
    var first, k := FirstStores(ttl, resp);
    i := |first.events|;
    var second := WaitsUntil(first, ttl, 0, 0, k, ttl);
    var third, k3;
    third, k3, j := IsRefused(second, ttl, 0, ttl, k, 2);
    var k4;
    run, k4, g := ReadsTooLate(third, ttl, 0, ttl, k3, 2, ttl + 1);
    Passes(first, run, ttl, 0, 0, k);
    Passes(run, run, ttl, 0, ttl + 1, k4);
    SameStart(third, run, j);
    OnTimeIsTimely(run, ttl);
    NothingEvicts(run, ttl, 0, i);
  }

  lemma StartOf(run: Run, run': Run, i: nat)
    requires Continues(run, run') && i < |run.states|
    ensures KeyAt(run', i, KEY) == KeyAt(run, i, KEY)
  {
    assert run'.states[i] == run.states[i];
  }
}
