/** The response recorder of the idempotency middleware, on a model of net/http's response writer. */
module HttpRecorder {
  import opened Wrappers
  import opened Records
  import opened IdempotencyPort

  type Headers = map<string, seq<string>>

  // ---- net/http's response writer ----

  /** 1xx statuses other than 101 are sent ahead of the final one and do not end the header. */
  predicate Informational(status: nat) {
    100 <= status <= 199 && status != 101
  }

  predicate BodyAllowed(status: nat) {
    !(100 <= status <= 199) && status != 204 && status != 304
  }

  /** What has gone to the client: the final status, if any, and the body. */
  datatype Sent = Sent(status: Option<nat>, body: seq<Byte>)

  function SendHeader(s: Sent, code: nat): Sent {
    if s.status.Some? || Informational(code) then s else s.(status := Some(code))
  }

  function SendBody(s: Sent, b: seq<Byte>): Sent {
    var s1 := if s.status.None? then s.(status := Some(200)) else s;
    if BodyAllowed(s1.status.value) then s1.(body := s1.body + b) else s1
  }

  /** The server sends 200 for a handler that has set no final status. */
  function FinalStatus(s: Sent): nat {
    if s.status.Some? then s.status.value else 200
  }

  /** The statuses without a body, and those that do not end the header, as net/http has them. */
  lemma StatusClasses(status: nat)
    ensures BodyAllowed(status) <==> status < 100 || (status > 199 && status != 204 && status != 304)
    ensures Informational(status) <==> status == 100 || 102 <= status <= 199
    ensures FinalStatus(Sent(None, [])) == 200
  {
  }

  class ResponseWriter {
    var header: Headers
    var sent: Sent

    constructor (header: Headers)
      ensures this.header == header && sent == Sent(None, [])
    {
      this.header, sent := header, Sent(None, []);
    }

    method SetHeader(k: string, v: string)
      modifies this
      ensures header == old(header)[k := [v]] && sent == old(sent)
    {
      header := header[k := [v]];
    }

    method WriteHeader(code: nat)
      modifies this
      ensures header == old(header) && sent == SendHeader(old(sent), code)
    {
      sent := SendHeader(sent, code);
    }

    method Write(b: seq<Byte>)
      modifies this
      ensures header == old(header) && sent == SendBody(old(sent), b)
    {
      sent := SendBody(sent, b);
    }
  }

  // ---- the recorder ----

  datatype Op = SetHeader(k: string, v: string) | WriteHeader(code: nat) | Write(b: seq<Byte>)

  datatype Tape = Tape(status: nat, body: seq<Byte>, wroteHeader: bool)

  const BLANK := Tape(200, [], false)

  /** A handler's calls, as the recorder keeps them. */
  function TapeOf(ops: seq<Op>): Tape {
    if ops == [] then BLANK
    else
      var t := TapeOf(ops[..|ops| - 1]);
      match ops[|ops| - 1]
      case SetHeader(_, _) => t
      case WriteHeader(code) => if t.wroteHeader then t else Tape(code, t.body, true)
      case Write(b) => Tape(t.status, t.body + b, true)
  }

  /** The same calls, as the recorder forwards them: one WriteHeader at most, then the writes. */
  function SentOf(ops: seq<Op>): Sent {
    if ops == [] then Sent(None, [])
    else
      var s, t := SentOf(ops[..|ops| - 1]), TapeOf(ops[..|ops| - 1]);
      match ops[|ops| - 1]
      case SetHeader(_, _) => s
      case WriteHeader(code) => if t.wroteHeader then s else SendHeader(s, code)
      case Write(b) => SendBody(if t.wroteHeader then s else SendHeader(s, 200), b)
  }

  function HeadersAfter(base: Headers, ops: seq<Op>): Headers {
    if ops == [] then base
    else
      var h := HeadersAfter(base, ops[..|ops| - 1]);
      match ops[|ops| - 1]
      case SetHeader(k, v) => h[k := [v]]
      case _ => h
  }

  /** The status set by the first call that sets one. */
  function FirstStatus(ops: seq<Op>): nat {
    if ops == [] then 200
    else match ops[0]
      case SetHeader(_, _) => FirstStatus(ops[1..])
      case WriteHeader(code) => code
      case Write(_) => 200
  }

  function Written(ops: seq<Op>): seq<Byte> {
    if ops == [] then []
    else Written(ops[..|ops| - 1]) + (if ops[|ops| - 1].Write? then ops[|ops| - 1].b else [])
  }

  /** The first status: 200 if there is none or a write comes first, else the one written first. */
  lemma {:induction false} FirstStatusIs(ops: seq<Op>, i: nat)
    requires i <= |ops| && forall j | 0 <= j < i :: ops[j].SetHeader?
    requires i < |ops| ==> !ops[i].SetHeader?
    ensures FirstStatus(ops) == if i < |ops| && ops[i].WriteHeader? then ops[i].code else 200
  {
    if i > 0 {
      FirstStatusIs(ops[1..], i - 1);
    }
  }

  /** The body is what the writes append, in order. */
  lemma WrittenAppends(a: seq<Op>, op: Op)
    ensures Written([]) == [] && Written(a + [op]) == Written(a) + if op.Write? then op.b else []
  {
    assert (a + [op])[..|a|] == a;
  }

  /** Some call sets the status. */
  predicate Sets(ops: seq<Op>) {
    exists op | op in ops :: !op.SetHeader?
  }

  lemma {:induction false} FirstStatusAppend(ops: seq<Op>, op: Op)
    ensures Sets(ops + [op]) <==> Sets(ops) || !op.SetHeader?
    ensures !Sets(ops) ==> FirstStatus(ops) == 200
    ensures FirstStatus(ops + [op]) ==
      if !Sets(ops) && op.WriteHeader? then op.code else FirstStatus(ops)
  {
    assert op in ops + [op];
    assert forall o :: o in ops + [op] <==> o in ops || o == op;
    if ops == [] {
      assert [op][1..] == [];
    } else {
      assert (ops + [op])[1..] == ops[1..] + [op];
      FirstStatusAppend(ops[1..], op);
      assert forall o :: o in ops <==> o == ops[0] || o in ops[1..];
    }
  }

  lemma {:induction false} TapeHolds(ops: seq<Op>)
    ensures TapeOf(ops).body == Written(ops)
    ensures TapeOf(ops).status == FirstStatus(ops)
    ensures TapeOf(ops).wroteHeader <==> Sets(ops)
  {
    if ops != [] {
      var front, last := ops[..|ops| - 1], ops[|ops| - 1];
      TapeHolds(front);
      assert ops == front + [last];
      FirstStatusAppend(front, last);
    }
  }

  lemma {:induction false} UnsetIsUnwritten(ops: seq<Op>)
    requires !Sets(ops)
    ensures Written(ops) == [] && SentOf(ops) == Sent(None, []) && !TapeOf(ops).wroteHeader
  {
    if ops != [] {
      var front, last := ops[..|ops| - 1], ops[|ops| - 1];
      assert last in ops;
      assert forall o | o in front :: o in ops;
      UnsetIsUnwritten(front);
    }
  }

  lemma {:induction false} UnsetIsDefault(ops: seq<Op>)
    requires !Sets(ops)
    ensures FirstStatus(ops) == 200
  {
    if ops != [] {
      assert ops[0] in ops;
      assert forall o | o in ops[1..] :: o in ops;
      UnsetIsDefault(ops[1..]);
    }
  }

  lemma {:induction false} SentHolds(ops: seq<Op>)
    ensures Sets(ops) && !Informational(FirstStatus(ops)) ==> SentOf(ops).status == Some(FirstStatus(ops))
    ensures Sets(ops) && Informational(FirstStatus(ops)) ==> SentOf(ops).status in {None, Some(200)}
    ensures SentOf(ops).body == if BodyAllowed(FinalStatus(SentOf(ops))) then Written(ops) else []
  {
    if ops != [] {
      var front, last := ops[..|ops| - 1], ops[|ops| - 1];
      assert ops == front + [last];
      FirstStatusAppend(front, last);
      TapeHolds(front);
      SentHolds(front);
      if !Sets(front) {
        UnsetIsUnwritten(front);
      }
    }
  }

  /**
    The recorder captures exactly what the client was sent, for every sequence of calls, if and only
    if the first status is not an informational one and no body is written to a status without one.
  */
  lemma CaptureIsExactIff(ops: seq<Op>)
    ensures TapeOf(ops).status == FinalStatus(SentOf(ops)) && TapeOf(ops).body == SentOf(ops).body
      <==> !Informational(FirstStatus(ops)) && (BodyAllowed(FirstStatus(ops)) || Written(ops) == [])
  {
    TapeHolds(ops);
    SentHolds(ops);
    if !Sets(ops) {
      UnsetIsUnwritten(ops);
      UnsetIsDefault(ops);
    }
  }

  class Recorder {
    const w: ResponseWriter
    var status: nat
    var body: seq<Byte>
    var wroteHeader: bool

    predicate Valid()
      reads this
    {
      !wroteHeader ==> status == 200
    }

    constructor (w: ResponseWriter)
      ensures Valid() && this.w == w && Now() == BLANK
    {
      this.w, status, body, wroteHeader := w, 200, [], false;
    }

    function Now(): Tape
      reads this
    {
      Tape(status, body, wroteHeader)
    }

    method WriteHeader(code: nat)
      requires Valid()
      modifies this, w
      ensures Valid() && w.header == old(w.header)
      ensures Now() == if old(wroteHeader) then old(Now()) else Tape(code, old(body), true)
      ensures w.sent == if old(wroteHeader) then old(w.sent) else SendHeader(old(w.sent), code)
    {
      if wroteHeader {
        return;
      }
      status := code;
      wroteHeader := true;
      w.WriteHeader(code);
    }

    method Write(b: seq<Byte>)
      requires Valid()
      modifies this, w
      ensures Valid() && w.header == old(w.header)
      ensures Now() == Tape(old(status), old(body) + b, true)
      ensures w.sent == SendBody(if old(wroteHeader) then old(w.sent) else SendHeader(old(w.sent), 200), b)
    {
      if !wroteHeader {
        WriteHeader(200);
      }
      body := body + b;
      w.Write(b);
    }

    /** The handler runs against the recorder. */
    method Run(ops: seq<Op>)
      requires Now() == BLANK && w.sent == Sent(None, [])
      modifies this, w
      ensures Valid() && Now() == TapeOf(ops) && w.sent == SentOf(ops) && w.header == HeadersAfter(old(w.header), ops)
    {
      for i := 0 to |ops|
        invariant Now() == TapeOf(ops[..i]) && w.sent == SentOf(ops[..i])
        invariant w.header == HeadersAfter(old(w.header), ops[..i])
        invariant Valid()
      {
        assert ops[..i + 1][..i] == ops[..i];
        match ops[i] {
          case SetHeader(k, v) => w.SetHeader(k, v);
          case WriteHeader(code) => WriteHeader(code);
          case Write(b) => Write(b);
        }
      }
      assert ops[..|ops|] == ops;
    }

    /** The loop over the header map ends in the same map whatever order it visits the keys in. */
    method CapturedHeaders() returns (out: map<string, string>)
      ensures out == Captured(w.header)
    {
      out := map[];
      var todo := w.header.Keys;
      while todo != {}
        invariant todo <= w.header.Keys
        invariant out == Captured(map k | k in w.header && k !in todo :: w.header[k])
        decreases |todo|
      {
        var k :| k in todo;
        todo := todo - {k};
        if k !in PER_REQUEST && w.header[k] != [] {
          out := out[k := w.header[k][0]];
        }
      }
      assert (map k | k in w.header && k !in todo :: w.header[k]) == w.header;
    }
  }

  // ---- without the recorder ----

  /** The same calls made on the writer itself. */
  function DirectSent(ops: seq<Op>): Sent {
    if ops == [] then Sent(None, [])
    else
      var s := DirectSent(ops[..|ops| - 1]);
      match ops[|ops| - 1]
      case SetHeader(_, _) => s
      case WriteHeader(code) => SendHeader(s, code)
      case Write(b) => SendBody(s, b)
  }

  method RunDirectly(w: ResponseWriter, ops: seq<Op>)
    requires w.sent == Sent(None, [])
    modifies w
    ensures w.sent == DirectSent(ops) && w.header == HeadersAfter(old(w.header), ops)
  {
    for i := 0 to |ops|
      invariant w.sent == DirectSent(ops[..i]) && w.header == HeadersAfter(old(w.header), ops[..i])
    {
      assert ops[..i + 1][..i] == ops[..i];
      match ops[i] {
        case SetHeader(k, v) => w.SetHeader(k, v);
        case WriteHeader(code) => w.WriteHeader(code);
        case Write(b) => w.Write(b);
      }
    }
    assert ops[..|ops|] == ops;
  }

  /** What the client sees is the same. */
  predicate SameToClient(a: Sent, b: Sent) {
    FinalStatus(a) == FinalStatus(b) && a.body == b.body
  }

  /** The status of the first call that ends the header: a write, or a status that is not informational. */
  function FirstFinal(ops: seq<Op>): Option<nat> {
    if ops == [] then None
    else
      var before := FirstFinal(ops[..|ops| - 1]);
      if before.Some? then before
      else match ops[|ops| - 1]
        case SetHeader(_, _) => None
        case WriteHeader(code) => if Informational(code) then None else Some(code)
        case Write(_) => Some(200)
  }

  lemma {:induction false} DirectHolds(ops: seq<Op>)
    ensures DirectSent(ops).status == FirstFinal(ops)
    ensures DirectSent(ops).body == if BodyAllowed(FinalStatus(DirectSent(ops))) then Written(ops) else []
    ensures FirstFinal(ops).None? ==> Written(ops) == []
  {
    if ops != [] {
      DirectHolds(ops[..|ops| - 1]);
    }
  }

  lemma {:induction false} FirstIsFinal(ops: seq<Op>)
    requires !Informational(FirstStatus(ops))
    ensures FirstFinal(ops) == if Sets(ops) then Some(FirstStatus(ops)) else None
  {
    if ops != [] {
      var front, last := ops[..|ops| - 1], ops[|ops| - 1];
      assert ops == front + [last];
      FirstStatusAppend(front, last);
      if Informational(FirstStatus(front)) {
        UnsetIsDefault(front);
      }
      FirstIsFinal(front);
    }
  }

  /**
    The client sees the same with and without the recorder if and only if the first status is not
    informational, or no later call sets a final status other than 200.
  */
  lemma RecorderIsTransparentIff(ops: seq<Op>)
    ensures SameToClient(SentOf(ops), DirectSent(ops)) <==>
      !Informational(FirstStatus(ops)) || FirstFinal(ops) in {None, Some(200)}
    ensures !Informational(FirstStatus(ops)) ==> SentOf(ops) == DirectSent(ops)
  {
    SentHolds(ops);
    DirectHolds(ops);
    if !Sets(ops) {
      UnsetIsDefault(ops);
      UnsetIsUnwritten(ops);
    }
    if !Informational(FirstStatus(ops)) {
      FirstIsFinal(ops);
    }
  }

  /** A handler that sends early hints and then an error: the client of the recorder is told 200. */
  lemma EarlyHintsHideAnError()
    ensures var ops := [WriteHeader(103), WriteHeader(404)];
      FinalStatus(DirectSent(ops)) == 404 && FinalStatus(SentOf(ops)) == 200
  {
    var ops := [WriteHeader(103), WriteHeader(404)];
    assert ops[..1] == [WriteHeader(103)] && ops[..1][..0] == [];
  }

  // ---- headers ----

  /** Hop-by-hop and per-request headers, which are never stored. */
  const PER_REQUEST := {"Date", "X-Request-Id", "X-Response-Time", "Content-Length", "Transfer-Encoding", "Connection"}

  function Captured(h: Headers): map<string, string> {
    map k | k in h && k !in PER_REQUEST && h[k] != [] :: h[k][0]
  }

  /** `over` laid over `base`. */
  function Overlay(base: Headers, over: map<string, string>): Headers {
    map k | k in base.Keys + over.Keys :: if k in over then [over[k]] else base[k]
  }

  /** The six headers that are dropped; every other one with a value is stored by its first. */
  lemma CapturedIs(h: Headers, k: string)
    ensures k in Captured(h) <==>
      && k in h && |h[k]| > 0
      && k != "Date" && k != "X-Request-Id" && k != "X-Response-Time"
      && k != "Content-Length" && k != "Transfer-Encoding" && k != "Connection"
    ensures k in Captured(h) ==> Captured(h)[k] == h[k][0]
  {
  }

  /**
    A replay carries the current request's own per-request headers, every other header of the first
    response reduced to its first value, and the replay mark.
  */
  lemma ReplayHeaders(first: Headers, current: Headers, k: string)
    ensures var again := Overlay(current, Captured(first)[REPLAY_HEADER := "true"]);
      && again[REPLAY_HEADER] == ["true"]
      && (k in PER_REQUEST && k in current ==> again[k] == current[k])
      && (k in PER_REQUEST && k !in current ==> k !in again)
      && (k in first && k !in PER_REQUEST && k != REPLAY_HEADER && first[k] != [] ==> again[k] == [first[k][0]])
  {
  }

  /** A header of the first response comes back unchanged if and only if it had exactly one value. */
  lemma HeaderComesBackIff(first: Headers, current: Headers, k: string)
    requires k in first && k !in PER_REQUEST && k != REPLAY_HEADER && first[k] != []
    ensures Overlay(current, Captured(first)[REPLAY_HEADER := "true"])[k] == first[k] <==> |first[k]| == 1
  {
  }
}
