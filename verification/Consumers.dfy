/** The provisioner's consumer loops. What the brokers answer is a schedule given to each run. */
module Consumers {
  /** The three counters. */
  class Metrics {
    var received: nat
    var processed: nat
    var failed: nat

    constructor ()
      ensures received == processed == failed == 0
    {
      received, processed, failed := 0, 0, 0;
    }

    /** Received is Processed plus Failed plus what is left of the batch in hand. */
    predicate Balanced(rest: nat)
      reads this
    {
      received == processed + failed + rest
    }
  }

  // ---- Kafka ----

  datatype Commit = Committed | NotCommitted | CommittedReplyLost

  /** One turn of the fetch loop, as the environment decides it. */
  datatype KafkaTurn =
    | FetchFails
    | Cancelled
    | Fetched(commit: Commit)
    | CrashBeforeCommit
    | CrashAfterCommit

  /** One partition for one consumer group. */
  class Partition {
    const records: seq<bool>   // which offsets hold a record
    var committed: nat         // where the group resumes
    ghost var processed: set<nat>

    constructor (records: seq<bool>)
      ensures this.records == records && committed == 0 && processed == {}
    {
      this.records, committed, processed := records, 0, {};
    }

    /** Every record at an offset below `n` has been processed. */
    ghost predicate ProcessedBelow(n: nat)
      reads this
    {
      n <= |records| && forall o: nat | o < n && records[o] :: o in processed
    }

    /** Offset safety: nothing below the committed offset was skipped. */
    ghost predicate Safe()
      reads this
    {
      ProcessedBelow(committed)
    }

    /** The next offset with a record, or the end of the log. */
    method NextRecord(position: nat) returns (offset: nat)
      requires position <= |records|
      ensures offset == Next(records, position)
    {
      offset := position;
      while offset < |records| && !records[offset]
        invariant position <= offset <= |records| && Next(records, position) == Next(records, offset)
      {
        offset := offset + 1;
      }
    }
  }

  function Next(records: seq<bool>, position: nat): (offset: nat)
    requires position <= |records|
    ensures position <= offset <= |records| && (offset < |records| ==> records[offset])
    ensures forall o: nat | position <= o < offset :: !records[o]
    decreases |records| - position
  {
    if position == |records| || records[position] then position else Next(records, position + 1)
  }

  /** How many offsets in `[a, b)` hold a record. */
  function Records(records: seq<bool>, a: nat, b: nat): nat
    requires a <= b <= |records|
  {
    if a == b then 0 else Records(records, a, b - 1) + if records[b - 1] then 1 else 0
  }

  lemma {:induction false} RecordsAdd(records: seq<bool>, a: nat, b: nat, c: nat)
    requires a <= b <= c <= |records|
    ensures Records(records, a, c) == Records(records, a, b) + Records(records, b, c)
  {
    if b < c {
      RecordsAdd(records, a, b, c - 1);
    }
  }

  lemma {:induction false} NoRecords(records: seq<bool>, b: nat, c: nat)
    requires b <= c <= |records| && forall o: nat | b <= o < c :: !records[o]
    ensures Records(records, b, c) == 0
  {
    if b < c {
      NoRecords(records, b, c - 1);
    }
  }

  /** How far a session has come: where the group would resume, what it fetches next, and whether it is over. */
  datatype Session = Session(committed: nat, position: nat, ended: bool)

  predicate Within(s: Session, records: seq<bool>) {
    s.committed <= s.position <= |records|
  }

  /** One turn of a session that is not over. */
  function Turned(records: seq<bool>, s: Session, t: KafkaTurn): (r: Session)
    requires Within(s, records)
    ensures Within(r, records) && s.committed <= r.committed && s.position <= r.position
  {
    var offset := Next(records, s.position);
    match t
    case FetchFails => s
    case Cancelled => s.(ended := true)
    case Fetched(commit) =>
      if offset == |records| then s
      else Session(if commit == NotCommitted then s.committed else offset + 1, offset + 1, false)
    case CrashBeforeCommit => if offset == |records| then s else Session(s.committed, offset + 1, true)
    case CrashAfterCommit => if offset == |records| then s else Session(offset + 1, offset + 1, true)
  }

  /** A session from `start`, after these turns. */
  function SessionAfter(records: seq<bool>, start: nat, turns: seq<KafkaTurn>): (s: Session)
    requires start <= |records|
    ensures Within(s, records) && start <= s.committed
  {
    if turns == [] then Session(start, start, false)
    else
      var s := SessionAfter(records, start, turns[..|turns| - 1]);
      if s.ended then s else Turned(records, s, turns[|turns| - 1])
  }

  lemma {:induction false} EndedStays(records: seq<bool>, start: nat, turns: seq<KafkaTurn>, n: nat)
    requires start <= |records| && n <= |turns| && SessionAfter(records, start, turns[..n]).ended
    ensures SessionAfter(records, start, turns) == SessionAfter(records, start, turns[..n])
  {
    if n == |turns| {
      assert turns[..n] == turns;
    } else {
      assert turns[..|turns| - 1][..n] == turns[..n];
      EndedStays(records, start, turns[..|turns| - 1], n);
    }
  }

  /** How many of the turns fetch a record and come to this commit, before the session is over. */
  function Fetches(records: seq<bool>, start: nat, turns: seq<KafkaTurn>, commit: Commit): nat
    requires start <= |records|
  {
    if turns == [] then 0
    else
      var front, s := turns[..|turns| - 1], SessionAfter(records, start, turns[..|turns| - 1]);
      Fetches(records, start, front, commit) +
        if !s.ended && turns[|turns| - 1] == Fetched(commit) && Next(records, s.position) < |records| then 1 else 0
  }

  lemma {:induction false} NoFetchAfterEnd(records: seq<bool>, start: nat, turns: seq<KafkaTurn>, n: nat, commit: Commit)
    requires start <= |records| && n <= |turns| && SessionAfter(records, start, turns[..n]).ended
    ensures Fetches(records, start, turns, commit) == Fetches(records, start, turns[..n], commit)
  {
    if n == |turns| {
      assert turns[..n] == turns;
    } else {
      assert turns[..|turns| - 1][..n] == turns[..n];
      NoFetchAfterEnd(records, start, turns[..|turns| - 1], n, commit);
      EndedStays(records, start, turns[..|turns| - 1], n);
    }
  }

  /** One more turn of a session that is not over. */
  lemma TurnOn(records: seq<bool>, start: nat, turns: seq<KafkaTurn>, n: nat)
    requires start <= |records| && n < |turns| && !SessionAfter(records, start, turns[..n]).ended
    ensures var s := SessionAfter(records, start, turns[..n]);
      && SessionAfter(records, start, turns[..n + 1]) == Turned(records, s, turns[n])
      && forall commit :: Fetches(records, start, turns[..n + 1], commit) ==
           Fetches(records, start, turns[..n], commit) + if turns[n] == Fetched(commit) && Next(records, s.position) < |records| then 1 else 0
  {
    assert turns[..n + 1][..n] == turns[..n];
  }

  /** A session that is over stays as it is and fetches nothing more. */
  lemma OverIsOver(records: seq<bool>, start: nat, turns: seq<KafkaTurn>, n: nat)
    requires start <= |records| && n <= |turns| && SessionAfter(records, start, turns[..n]).ended
    ensures SessionAfter(records, start, turns) == SessionAfter(records, start, turns[..n])
    ensures forall commit :: Fetches(records, start, turns, commit) == Fetches(records, start, turns[..n], commit)
  {
    EndedStays(records, start, turns, n);
    forall commit
      ensures Fetches(records, start, turns, commit) == Fetches(records, start, turns[..n], commit)
    {
      NoFetchAfterEnd(records, start, turns, n, commit);
    }
  }

  /** One turn: the next record at or after the position, if there is one, and what the commit makes of it. */
  lemma TurnIs(records: seq<bool>, s: Session, offset: nat, commit: Commit)
    requires Within(s, records) && s.position <= offset < |records| && records[offset]
    requires forall o: nat | s.position <= o < offset :: !records[o]
    ensures Turned(records, s, Fetched(commit)) ==
      Session(if commit == NotCommitted then s.committed else offset + 1, offset + 1, false)
    ensures Turned(records, s, CrashBeforeCommit) == Session(s.committed, offset + 1, true)
    ensures Turned(records, s, CrashAfterCommit) == Session(offset + 1, offset + 1, true)
    ensures Turned(records, s, FetchFails) == s && Turned(records, s, Cancelled) == s.(ended := true)
  {
  }

  function RecordsIn(records: seq<bool>, a: nat, b: nat): set<nat>
    requires a <= b <= |records|
  {
    set o: nat | a <= o < b && records[o]
  }

  /** The loop's body: fetch, process, commit, count. */
  method RunTurn(p: Partition, m: Metrics, t: KafkaTurn, position: nat) returns (crashed: bool, next: nat)
    requires p.committed <= position && p.ProcessedBelow(position) && m.Balanced(0) && t != Cancelled
    modifies p, m
    ensures p.ProcessedBelow(next) && position <= next
    ensures Session(p.committed, next, crashed) == Turned(p.records, Session(old(p.committed), position, false), t)
    ensures p.processed == old(p.processed) + RecordsIn(p.records, position, next)
    ensures m.received == old(m.received) + Records(p.records, position, next)
    ensures m.Balanced(if crashed then 1 else 0)
    ensures m.processed == old(m.processed) + if t == Fetched(Committed) && Next(p.records, position) < |p.records| then 1 else 0
    ensures m.failed == old(m.failed) +
      if (t == Fetched(NotCommitted) || t == Fetched(CommittedReplyLost)) && Next(p.records, position) < |p.records| then 1 else 0
  {
    crashed, next := false, position;
    if t == FetchFails {
      return;
    }
    var offset := p.NextRecord(position);
    if offset == |p.records| {
      return;
    }
    NoRecords(p.records, position, offset);
    next := offset + 1;
    m.received := m.received + 1;
    p.processed := p.processed + {offset};
    match t {
      case CrashBeforeCommit =>
        crashed := true;
      case CrashAfterCommit =>
        p.committed := next;
        crashed := true;
      case Fetched(Committed) =>
        p.committed := next;
        m.processed := m.processed + 1;
      case Fetched(NotCommitted) =>
        m.failed := m.failed + 1;
      case Fetched(CommittedReplyLost) =>
        p.committed := next;
        m.failed := m.failed + 1;
    }
  }

  /**
    RunKafka: one session of one consumer, from the committed offset until the schedule ends, the
    context is cancelled or the process crashes. It receives each record up to its last position once.
  */
  method RunKafka(p: Partition, m: Metrics, schedule: seq<KafkaTurn>) returns (crashed: bool, position: nat)
    requires p.Safe() && m.Balanced(0)
    modifies p, m
    ensures p.Safe() && old(p.committed) <= p.committed <= position <= |p.records|
    ensures var s := SessionAfter(p.records, old(p.committed), schedule); s.committed == p.committed && s.position == position
    ensures p.processed == old(p.processed) + RecordsIn(p.records, old(p.committed), position)
    ensures m.received == old(m.received) + Records(p.records, old(p.committed), position)
    ensures m.Balanced(if crashed then 1 else 0)
    ensures m.processed == old(m.processed) + Fetches(p.records, old(p.committed), schedule, Committed)
    ensures m.failed == old(m.failed)
      + Fetches(p.records, old(p.committed), schedule, NotCommitted)
      + Fetches(p.records, old(p.committed), schedule, CommittedReplyLost)
  {
    crashed, position := false, p.committed;
    var start := p.committed;
    for turn := 0 to |schedule|
      invariant m.Balanced(0) && !crashed
      invariant start <= p.committed <= position && p.ProcessedBelow(position)
      invariant SessionAfter(p.records, start, schedule[..turn]) == Session(p.committed, position, false)
      invariant p.processed == old(p.processed) + RecordsIn(p.records, start, position)
      invariant m.received == old(m.received) + Records(p.records, start, position)
      invariant m.processed == old(m.processed) + Fetches(p.records, start, schedule[..turn], Committed)
      invariant m.failed == old(m.failed)
        + Fetches(p.records, start, schedule[..turn], NotCommitted)
        + Fetches(p.records, start, schedule[..turn], CommittedReplyLost)
    {
      TurnOn(p.records, start, schedule, turn);
      if schedule[turn] == Cancelled {
        OverIsOver(p.records, start, schedule, turn + 1);
        return;
      }
      ghost var before := position;
      crashed, position := RunTurn(p, m, schedule[turn], position);
      RecordsAdd(p.records, start, before, position);
      if crashed {
        OverIsOver(p.records, start, schedule, turn + 1);
        return;
      }
    }
    assert schedule[..|schedule|] == schedule;
  }

  /** Where the group resumes after these sessions, and the furthest position any of them reached. */
  function SessionsAfter(records: seq<bool>, start: nat, sessions: seq<seq<KafkaTurn>>): (r: (nat, nat))
    requires start <= |records|
    ensures start <= r.0 <= r.1 <= |records|
  {
    if sessions == [] then (start, start)
    else
      var before := SessionsAfter(records, start, sessions[..|sessions| - 1]);
      var s := SessionAfter(records, before.0, sessions[|sessions| - 1]);
      (s.committed, if s.position < before.1 then before.1 else s.position)
  }

  /**
    Any number of sessions, each restarted from the committed offset with fresh counters: exactly the
    records up to the furthest position reached are processed, so nothing below the committed offset
    is ever skipped.
  */
  method RunSessions(p: Partition, sessions: seq<seq<KafkaTurn>>) returns (furthest: nat)
    requires p.Safe()
    modifies p
    ensures p.Safe() && (p.committed, furthest) == SessionsAfter(p.records, old(p.committed), sessions)
    ensures p.processed == old(p.processed) + RecordsIn(p.records, old(p.committed), furthest)
  {
    furthest := p.committed;
    for i := 0 to |sessions|
      invariant p.Safe() && (p.committed, furthest) == SessionsAfter(p.records, old(p.committed), sessions[..i])
      invariant p.processed == old(p.processed) + RecordsIn(p.records, old(p.committed), furthest)
    {
      assert sessions[..i + 1][..i] == sessions[..i];
      var m := new Metrics();
      var crashed, position := RunKafka(p, m, sessions[i]);
      furthest := if position < furthest then furthest else position;
    }
    assert sessions[..|sessions|] == sessions;
  }

  /** With every commit lost, a session commits nothing; with every commit made, it commits all it has fetched. */
  lemma {:induction false} CommitsDecideProgress(records: seq<bool>, start: nat, turns: seq<KafkaTurn>)
    requires start <= |records|
    ensures var s := SessionAfter(records, start, turns);
      && ((forall t | t in turns :: t !in {Fetched(Committed), Fetched(CommittedReplyLost), CrashAfterCommit}) ==> s.committed == start)
      && ((forall t | t in turns :: t !in {Fetched(NotCommitted), CrashBeforeCommit}) ==> s.committed == s.position)
  {
    if turns != [] {
      var front, last := turns[..|turns| - 1], turns[|turns| - 1];
      assert last in turns && forall t | t in front :: t in turns;
      CommitsDecideProgress(records, start, front);
    }
  }

  // ---- SQS ----

  datatype Deletion = Deleted | NotDeleted | DeletedReplyLost

  /** A message in a batch and what becomes of its deletion. */
  datatype Delivery = Delivery(id: nat, deletion: Deletion)

  /** One turn of the outer loop; a crash comes after `handled` messages of the batch. */
  datatype Poll = PollFails | Stopped | Batch(messages: seq<Delivery>) | CrashIn(messages: seq<Delivery>, handled: nat)

  class Queue {
    var deleted: set<nat>
    ghost var processed: set<nat>

    /** Deletion safety: a deleted message has been processed. */
    ghost predicate Safe()
      reads this
    {
      deleted <= processed
    }
  }

  /** The deliveries a run of these polls receives. */
  function Received(polls: seq<Poll>): seq<Delivery> {
    if polls == [] then [] else Received(polls[..|polls| - 1]) + Messages(polls[|polls| - 1])
  }

  function Messages(poll: Poll): seq<Delivery> {
    if poll.Batch? || poll.CrashIn? then poll.messages else []
  }

  function Unfinished(poll: Poll): nat {
    if poll.CrashIn? && poll.handled < |poll.messages| then |poll.messages| - poll.handled else 0
  }

  /** The run ends at this poll. */
  predicate Ends(poll: Poll) {
    poll == Stopped || poll.CrashIn?
  }

  /** What has been counted as processed and failed, and the messages processed and deleted. */
  datatype Tally = Tally(processed: nat, failed: nat, seen: set<nat>, deleted: set<nat>)

  ghost function TallyOf(q: Queue, m: Metrics): Tally
    reads q, m
  {
    Tally(m.processed, m.failed, q.processed, q.deleted)
  }

  /** The tally after one more message. */
  function Handled(t: Tally, d: Delivery): Tally {
    match d.deletion
    case Deleted => Tally(t.processed + 1, t.failed, t.seen + {d.id}, t.deleted + {d.id})
    case NotDeleted => Tally(t.processed, t.failed + 1, t.seen + {d.id}, t.deleted)
    case DeletedReplyLost => Tally(t.processed, t.failed + 1, t.seen + {d.id}, t.deleted + {d.id})
  }

  /** The tally after these messages, in order. */
  function Tallied(t: Tally, ds: seq<Delivery>): Tally {
    if |ds| == 0 then t else Handled(Tallied(t, ds[..|ds| - 1]), ds[|ds| - 1])
  }

  lemma {:induction false} TalliedOn(t: Tally, a: seq<Delivery>, b: seq<Delivery>)
    ensures Tallied(t, a + b) == Tallied(Tallied(t, a), b)
  {
    if |b| == 0 {
      assert a + b == a;
    } else {
      assert (a + b)[..|a + b| - 1] == a + b[..|b| - 1];
      TalliedOn(t, a, b[..|b| - 1]);
    }
  }

  /** How many of these messages had this deletion. */
  function WithDeletion(ds: seq<Delivery>, deletion: Deletion): nat {
    if |ds| == 0 then 0 else WithDeletion(ds[..|ds| - 1], deletion) + if ds[|ds| - 1].deletion == deletion then 1 else 0
  }

  /** Processed counts the deletions that succeeded, Failed those that did not or whose reply was lost. */
  lemma {:induction false} TallyCounts(t: Tally, ds: seq<Delivery>)
    ensures Tallied(t, ds).processed == t.processed + WithDeletion(ds, Deleted)
    ensures Tallied(t, ds).failed == t.failed + WithDeletion(ds, NotDeleted) + WithDeletion(ds, DeletedReplyLost)
  {
    if |ds| > 0 {
      TallyCounts(t, ds[..|ds| - 1]);
    }
  }

  /** Every message handled is counted once and processed; those whose deletion was carried out are deleted, and only those. */
  lemma {:induction false} TallyMeans(t: Tally, ds: seq<Delivery>)
    ensures var t' := Tallied(t, ds);
      && t'.processed + t'.failed == t.processed + t.failed + |ds|
      && (forall id :: id in t'.seen <==> id in t.seen || exists d | d in ds :: d.id == id)
      && (forall id :: id in t'.deleted <==> id in t.deleted || exists d | d in ds :: d.id == id && d.deletion != NotDeleted)
  {
    if |ds| > 0 {
      var front, last := ds[..|ds| - 1], ds[|ds| - 1];
      TallyMeans(t, front);
      assert forall d :: d in ds <==> d in front || d == last;
    }
  }

  /**
    RunSQS: handles the polls until the context is cancelled or the process crashes. Received exceeds
    Processed plus Failed by the unfinished rest of the batch, which is none unless it crashed.
    `handled` is what it received without that rest.
  */
  method RunSQS(q: Queue, m: Metrics, polls: seq<Poll>) returns (n: nat, rest: nat, ghost handled: seq<Delivery>)
    requires q.Safe() && m.Balanced(0)
    modifies q, m
    ensures n <= |polls| && q.Safe() && m.Balanced(rest)
    ensures forall k: nat | k + 1 < n :: polls[k] != Stopped && !polls[k].CrashIn?
    ensures n < |polls| ==> n > 0 && (polls[n - 1] == Stopped || polls[n - 1].CrashIn?)
    ensures rest ==
      if n > 0 && polls[n - 1].CrashIn? && polls[n - 1].handled < |polls[n - 1].messages|
      then |polls[n - 1].messages| - polls[n - 1].handled else 0
    ensures |handled| + rest == |Received(polls[..n])| && handled <= Received(polls[..n])
    ensures TallyOf(q, m) == Tallied(old(TallyOf(q, m)), handled)
  {
    n, rest, handled := 0, 0, [];
    while n < |polls|
      invariant n <= |polls| && q.Safe() && m.Balanced(0) && rest == 0
      invariant forall k: nat | k < n :: !Ends(polls[k])
      invariant handled == Received(polls[..n]) && TallyOf(q, m) == Tallied(old(TallyOf(q, m)), handled)
    {
      var poll := polls[n];
      ReceivedStep(polls, n);
      n := n + 1;
      if poll == Stopped {
        return;
      }
      if poll.PollFails? {
        continue;
      }
      rest := Unfinished(poll);
      var first := |poll.messages| - rest;
      RunBatch(q, m, poll.messages, first);
      TalliedOn(old(TallyOf(q, m)), handled, poll.messages[..first]);
      handled := handled + poll.messages[..first];
      if poll.CrashIn? {
        return;
      }
      assert poll.messages[..first] == poll.messages;
    }
    assert polls[..n] == polls;
  }

  /** What each turn of the outer loop adds to the messages received. */
  lemma ReceivedIs(polls: seq<Poll>, messages: seq<Delivery>, handled: nat)
    ensures Received([]) == [] && Received(polls + [Batch(messages)]) == Received(polls) + messages
    ensures Received(polls + [CrashIn(messages, handled)]) == Received(polls) + messages
    ensures Received(polls + [PollFails]) == Received(polls) && Received(polls + [Stopped]) == Received(polls)
  {
    assert forall p :: (polls + [p])[..|polls|] == polls;
  }

  lemma ReceivedStep(polls: seq<Poll>, n: nat)
    requires n < |polls|
    ensures Received(polls[..n + 1]) == Received(polls[..n]) + Messages(polls[n])
  {
    assert polls[..n + 1][..n] == polls[..n];
  }

  /** The inner loop, up to any point inside the batch: the counters are short by exactly the messages left. */
  method RunBatch(q: Queue, m: Metrics, batch: seq<Delivery>, handled: nat)
    requires q.Safe() && m.Balanced(0) && handled <= |batch|
    modifies q, m
    ensures q.Safe() && m.Balanced(|batch| - handled)
    ensures TallyOf(q, m) == Tallied(old(TallyOf(q, m)), batch[..handled])
  {
    m.received := m.received + |batch|;
    for j := 0 to handled
      invariant q.Safe() && m.Balanced(|batch| - j)
      invariant TallyOf(q, m) == Tallied(old(TallyOf(q, m)), batch[..j])
    {
      var message := batch[j];
      assert batch[..j + 1][..j] == batch[..j];
      q.processed := q.processed + {message.id};
      match message.deletion {
        case Deleted =>
          q.deleted := q.deleted + {message.id};
          m.processed := m.processed + 1;
        case NotDeleted =>
          m.failed := m.failed + 1;
        case DeletedReplyLost =>
          q.deleted := q.deleted + {message.id};
          m.failed := m.failed + 1;
      }
    }
  }
}
