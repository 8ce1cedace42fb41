/** A task message, and what the worker's dispatcher makes of it before anything is written. */
module ScaffolderTasks {
  import opened Wrappers
  import ApplicationNames
  import Strings
  import opened NameReservations

  /** The task's payload: absent, not bindable to the command, or what JSON binding makes of it. */
  datatype Input = Missing | Unbindable | Command(applicationName: Option<string>, requestId: Option<string>)

  /** A message body: not JSON, without a token, or an envelope. */
  datatype Body = Unparseable | NoToken | Envelope(token: string, task: Option<string>, input: Input)

  function ToLower(c: char): char {
    if 'A' <= c <= 'Z' then c + ('a' - 'A') else c
  }

  predicate SameIgnoringCase(a: string, b: string) {
    |a| == |b| && forall i | 0 <= i < |a| :: ToLower(a[i]) == ToLower(b[i])
  }

  const RESERVE_NAME := "ReserveName"

  predicate IsBlank(s: Option<string>) {
    s.None? || forall c | c in s.value :: Strings.UnicodeSpace(c)
  }

  const UNKNOWN_TASK := "UNKNOWN_TASK"
  const INVALID_TASK_PAYLOAD := "INVALID_TASK_PAYLOAD"
  const INVALID_APPLICATION_NAME := "INVALID_APPLICATION_NAME"
  const NAME_ALREADY_RESERVED := "NAME_ALREADY_RESERVED"

  /** What comes of a message before the store is asked. */
  datatype Plan =
    | LeaveMessage                 // nothing to report, or an exception that is no task failure
    | Report(code: string)         // a failure to report
    | Claim(reservation: Reservation)

  /** HandleAsync, DispatchAsync and the use case up to the store call. */
  ghost function PlanFor(body: Body, clock: int, ttl: int): Plan {
    match body
    case Unparseable => LeaveMessage
    case NoToken => LeaveMessage
    case Envelope(_, task, input) =>
      if task.None? then LeaveMessage
      else if !SameIgnoringCase(task.value, RESERVE_NAME) then Report(UNKNOWN_TASK)
      else if input.Missing? then LeaveMessage
      else if input.Unbindable? then Report(INVALID_TASK_PAYLOAD)
      else
        var name := ApplicationNames.Parse(input.applicationName);
        if name.Err? then Report(INVALID_APPLICATION_NAME)
        else
          var id := if input.requestId.Some? then input.requestId.value else "";
          match Open(name.value, id, IsBlank(input.requestId), clock, ttl)
          case Err(_) => LeaveMessage
          case Ok(r) => Claim(r)
  }

  /** The claim is the one this message asks for: its own name and request id, for the configured time. */
  ghost predicate Asks(body: Body, ttl: int, claim: Reservation) {
    && body.Envelope? && body.input.Command?
    && ApplicationNames.Parse(body.input.applicationName) == Ok(claim.name)
    && body.input.requestId == Some(claim.requestId)
    && ttl > 0 && claim.expiresAt == claim.createdAt + ttl
  }

  /** A message is planned as a claim exactly when it is a known task that asks for it; its creation time is the clock reading. */
  lemma ClaimsAreAsked(body: Body, clock: int, ttl: int, claim: Reservation)
    ensures PlanFor(body, clock, ttl) == Claim(claim) <==>
      && Asks(body, ttl, claim) && claim.createdAt == clock
      && body.task.Some? && SameIgnoringCase(body.task.value, RESERVE_NAME) && !IsBlank(body.input.requestId)
  {
  }

  /** A claimed name is a DNS label that parses to itself. */
  lemma ClaimsAreValid(body: Body, clock: int, ttl: int)
    requires PlanFor(body, clock, ttl).Claim?
    ensures var name := PlanFor(body, clock, ttl).reservation.name;
      ApplicationNames.IsLabel(name) && ApplicationNames.Parse(Some(name)) == Ok(name)
  {
    ApplicationNames.ParsedNamesAreLabels(body.input.applicationName);
  }

  /** A failure that needs no store is the same at every clock reading, and never a name conflict. */
  lemma ReportsIgnoreTheClock(body: Body, clock: int, later: int, ttl: int)
    requires PlanFor(body, clock, ttl).Report?
    ensures PlanFor(body, later, ttl) == PlanFor(body, clock, ttl)
    ensures PlanFor(body, clock, ttl).code != NAME_ALREADY_RESERVED
  {
    assert |NAME_ALREADY_RESERVED| == 21;
  }

  // ---- the plans in so many words ----

  /** The letter, in either case. */
  predicate IsLetter(c: char, lower: char, upper: char) {
    c == lower || c == upper
  }

  /** The one task this build knows, letter by letter in either case. */
  predicate NamesReserveName(task: string) {
    && |task| == 11
    && IsLetter(task[0], 'r', 'R') && IsLetter(task[1], 'e', 'E') && IsLetter(task[2], 's', 'S')
    && IsLetter(task[3], 'e', 'E') && IsLetter(task[4], 'r', 'R') && IsLetter(task[5], 'v', 'V')
    && IsLetter(task[6], 'e', 'E') && IsLetter(task[7], 'n', 'N') && IsLetter(task[8], 'a', 'A')
    && IsLetter(task[9], 'm', 'M') && IsLetter(task[10], 'e', 'E')
  }

  /** The two names agree at a position, up to case. */
  predicate AgreeAt(task: string, i: nat)
    requires |task| == 11 && i < 11
  {
    ToLower(task[i]) == ToLower("ReserveName"[i])
  }

  lemma LetterAt(task: string, i: nat, lower: char, upper: char)
    requires |task| == 11 && i < 11 && 'a' <= lower <= 'z' && upper as int == lower as int - 32
    requires "ReserveName"[i] == lower || "ReserveName"[i] == upper
    ensures AgreeAt(task, i) <==> IsLetter(task[i], lower, upper)
  {
  }

  lemma AgreeEverywhere(task: string)
    requires |task| == 11
    ensures SameIgnoringCase(task, RESERVE_NAME) <==>
      && AgreeAt(task, 0) && AgreeAt(task, 1) && AgreeAt(task, 2) && AgreeAt(task, 3) && AgreeAt(task, 4) && AgreeAt(task, 5)
      && AgreeAt(task, 6) && AgreeAt(task, 7) && AgreeAt(task, 8) && AgreeAt(task, 9) && AgreeAt(task, 10)
  {
    assert forall i | 0 <= i < 11 :: AgreeAt(task, i) <==> ToLower(task[i]) == ToLower(RESERVE_NAME[i]);
  }

  lemma KnownTaskIff(task: string)
    ensures SameIgnoringCase(task, RESERVE_NAME) <==> NamesReserveName(task)
  {
    if |task| == 11 {
      AgreeEverywhere(task);
      LetterAt(task, 0, 'r', 'R');
      LetterAt(task, 1, 'e', 'E');
      LetterAt(task, 2, 's', 'S');
      LetterAt(task, 3, 'e', 'E');
      LetterAt(task, 4, 'r', 'R');
      LetterAt(task, 5, 'v', 'V');
      LetterAt(task, 6, 'e', 'E');
      LetterAt(task, 7, 'n', 'N');
      LetterAt(task, 8, 'a', 'A');
      LetterAt(task, 9, 'm', 'M');
      LetterAt(task, 10, 'e', 'E');
    }
  }

  /** The message names the known task. */
  predicate Known(body: Body) {
    body.Envelope? && body.task.Some? && NamesReserveName(body.task.value)
  }

  /** A message is left on the queue, whatever is to be reported of it, exactly in these cases. */
  ghost predicate IsLeft(body: Body, ttl: int) {
    || !body.Envelope?
    || body.task.None?
    || (NamesReserveName(body.task.value) && body.input.Missing?)
    || (NamesReserveName(body.task.value) && body.input.Command?
        && ApplicationNames.Parse(body.input.applicationName).Ok? && (IsBlank(body.input.requestId) || ttl <= 0))
  }

  /** Which message is planned as what, with the codes that are reported. */
  lemma PlansIff(body: Body, clock: int, ttl: int)
    ensures PlanFor(body, clock, ttl) == LeaveMessage <==> IsLeft(body, ttl)
    ensures PlanFor(body, clock, ttl) == Report("UNKNOWN_TASK")
      <==> body.Envelope? && body.task.Some? && !NamesReserveName(body.task.value)
    ensures PlanFor(body, clock, ttl) == Report("INVALID_TASK_PAYLOAD") <==> Known(body) && body.input.Unbindable?
    ensures PlanFor(body, clock, ttl) == Report("INVALID_APPLICATION_NAME")
      <==> Known(body) && body.input.Command? && ApplicationNames.Parse(body.input.applicationName).Err?
    ensures PlanFor(body, clock, ttl).Claim? <==>
      && Known(body) && body.input.Command? && ApplicationNames.Parse(body.input.applicationName).Ok?
      && !IsBlank(body.input.requestId) && ttl > 0
  {
    if body.Envelope? && body.task.Some? {
      KnownTaskIff(body.task.value);
    }
    assert "UNKNOWN_TASK"[0] == 'U' && "INVALID_TASK_PAYLOAD"[0] == 'I' && "INVALID_APPLICATION_NAME"[0] == 'I';
    assert |"INVALID_TASK_PAYLOAD"| == 20 && |"INVALID_APPLICATION_NAME"| == 24;
  }

  /** A request id is blank if it is missing or has no character but white space. */
  lemma BlankIff(s: Option<string>)
    ensures IsBlank(s) <==> s == None || forall i | 0 <= i < |s.value| :: Strings.UnicodeSpace(s.value[i])
  {
  }

  /** The code of a name that is held by another request. */
  lemma ConflictCode()
    ensures NAME_ALREADY_RESERVED == "NAME_ALREADY_RESERVED"
  {
  }

  method MakePlan(body: Body, clock: int, ttl: int) returns (plan: Plan)
    ensures plan == PlanFor(body, clock, ttl)
    ensures plan == LeaveMessage <==> IsLeft(body, ttl)
    ensures plan == Report("UNKNOWN_TASK") <==> body.Envelope? && body.task.Some? && !NamesReserveName(body.task.value)
    ensures plan == Report("INVALID_TASK_PAYLOAD") <==> Known(body) && body.input.Unbindable?
    ensures plan == Report("INVALID_APPLICATION_NAME")
      <==> Known(body) && body.input.Command? && ApplicationNames.Parse(body.input.applicationName).Err?
    ensures plan.Claim? ==> Known(body) && Asks(body, ttl, plan.reservation) && plan.reservation.createdAt == clock
  {
    PlansIff(body, clock, ttl);
    if !body.Envelope? || body.task.None? {
      return LeaveMessage;
    }
    if !SameIgnoringCase(body.task.value, RESERVE_NAME) {
      return Report(UNKNOWN_TASK);
    }
    if body.input.Missing? {
      return LeaveMessage;
    }
    if body.input.Unbindable? {
      return Report(INVALID_TASK_PAYLOAD);
    }
    var name := ApplicationNames.ParseName(body.input.applicationName);
    if name.Err? {
      return Report(INVALID_APPLICATION_NAME);
    }
    var id := if body.input.requestId.Some? then body.input.requestId.value else "";
    var reservation := Open(name.value, id, IsBlank(body.input.requestId), clock, ttl);
    return if reservation.Ok? then Claim(reservation.value) else LeaveMessage;
  }
}
