/** The request path of the idempotency middleware, one request after another. */
module Middleware {
  import opened Wrappers
  import opened Records
  import opened RecordJson
  import opened IdempotencyPort
  import opened HttpRecorder
  import RS = RedisStore

  /** A request: its key header, whether that is a UUID, whether its body could be read, and the digest. */
  datatype Call = Call(key: string, isUuid: bool, readable: bool, hash: Digest)

  /** What the next handler does: a list of writer calls, then a return or a panic. */
  datatype Handler = Handler(ops: seq<Op>, panics: bool)

  /** The clock readings: Reserve's creation and expiry times, and Complete's expiry time. */
  datatype Clock = Clock(now: Stamp, expires: Stamp, completedExpires: Stamp)

  /** What one call came to. */
  datatype Trail = PassedOn | Rejected(status: nat) | Reused(existing: Record) | Ran

  method RespondWithError(w: ResponseWriter, status: nat)
    requires status >= 400 && w.sent == Sent(None, [])
    modifies w
    ensures w.header == old(w.header)["Content-Type" := ["application/json"]]
    ensures w.sent == Sent(Some(status), [])
  {
    w.SetHeader("Content-Type", "application/json");
    w.WriteHeader(status);
  }

  /** The writer calls a replay makes for a stored response. */
  function ReplaySent(resp: Response): Sent {
    var s := SendHeader(Sent(None, []), resp.status);
    if resp.body == [] then s else SendBody(s, resp.body)
  }

  ghost predicate Delivers(w: ResponseWriter, base: Headers, a: Answer)
    reads w
  {
    match a
    case Failure(status) =>
      && w.sent == Sent(Some(status), [])
      && w.header == (if status == 409 then base["Retry-After" := ["1"]] else base)["Content-Type" := ["application/json"]]
    case Replayed(resp) => w.header == Overlay(base, resp.headers) && w.sent == ReplaySent(resp)
    case Fresh(_) => false
  }

  function Except(m: map<string, string>, todo: set<string>): map<string, string> {
    map k | k in m && k !in todo :: m[k]
  }

  lemma LayStep(base: Headers, stored: map<string, string>, todo: set<string>, k: string)
    requires k in todo && k in stored
    ensures Overlay(base, Except(stored, todo - {k})) == Overlay(base, Except(stored, todo))[k := [stored[k]]]
  {
  }

  lemma LayNone(base: Headers, stored: map<string, string>)
    ensures Overlay(base, Except(stored, stored.Keys)) == base
  {
  }

  lemma LayAll(stored: map<string, string>)
    ensures Except(stored, {}) == stored
  {
  }

  /** The loop over the stored headers ends in the same map whatever order it visits them in. */
  method LayOver(w: ResponseWriter, stored: map<string, string>)
    modifies w
    ensures w.header == Overlay(old(w.header), stored) && w.sent == old(w.sent)
  {
    var todo := stored.Keys;
    LayNone(w.header, stored);
    while todo != {}
      invariant todo <= stored.Keys && w.sent == old(w.sent)
      invariant w.header == Overlay(old(w.header), Except(stored, todo))
      decreases |todo|
    {
      var k :| k in todo;
      LayStep(old(w.header), stored, todo, k);
      todo := todo - {k};
      w.SetHeader(k, stored[k]);
    }
    LayAll(stored);
  }

  /** A replayed response in so many words. */
  lemma ReplayedInWords(base: Headers, existing: Record, status: nat, header: Headers, sent: Sent)
    requires status == if existing.statusCode == 0 then 200 else existing.statusCode
    requires header == Overlay(base, existing.headers["X-Idempotent-Replay" := "true"])
    requires sent == ReplaySent(Response(status, map[], existing.body))
    ensures status >= 200 && status != 204 && status != 304 ==> sent == Sent(Some(status), existing.body)
    ensures forall k :: k in header <==> k in base || k in existing.headers || k == "X-Idempotent-Replay"
    ensures header["X-Idempotent-Replay"] == ["true"]
    ensures forall k | k in existing.headers && k != "X-Idempotent-Replay" :: header[k] == [existing.headers[k]]
    ensures forall k | k in base && k !in existing.headers && k != "X-Idempotent-Replay" :: header[k] == base[k]
  {
  }

  /** replayCachedResponse, for a record that was found. */
  method ReplayCached(w: ResponseWriter, existing: Record, hash: Digest)
    requires w.sent == Sent(None, [])
    modifies w
    ensures Delivers(w, old(w.header), Replay(existing, hash))
    // 422 for another body, whatever the state; 409 and when to come back while the first request runs.
    ensures existing.requestHash != hash ==>
      w.sent == Sent(Some(422), []) && w.header == old(w.header)["Content-Type" := ["application/json"]]
    ensures existing.requestHash == hash && existing.state == InFlight ==>
      && w.sent == Sent(Some(409), [])
      && w.header == old(w.header)["Retry-After" := ["1"]]["Content-Type" := ["application/json"]]
    // Otherwise the stored status, body and headers, marked as a replay (ReplayedInWords).
    ensures existing.requestHash == hash && existing.state == Completed ==>
      && w.header == Overlay(old(w.header), existing.headers["X-Idempotent-Replay" := "true"])
      && w.sent == ReplaySent(Response(if existing.statusCode == 0 then 200 else existing.statusCode, map[], existing.body))
  {
    if existing.requestHash != hash {
      RespondWithError(w, 422);
      return;
    }
    if existing.state == InFlight {
      w.SetHeader("Retry-After", "1");
      RespondWithError(w, 409);
      return;
    }
    LayOver(w, existing.headers);
    w.SetHeader(REPLAY_HEADER, "true");
    assert w.header == Overlay(old(w.header), existing.headers[REPLAY_HEADER := "true"]);
    var status := existing.statusCode;
    if status == 0 {
      status := 200;
    }
    w.WriteHeader(status);
    if |existing.body| > 0 {
      w.Write(existing.body);
    }
  }

  /** The response a finished handler run leaves in the recorder. */
  function Recorded(base: Headers, ops: seq<Op>): Response {
    Response(TapeOf(ops).status, Captured(HeadersAfter(base, ops)), TapeOf(ops).body)
  }

  /** The middleware completes the reservation rather than releasing it. */
  predicate Caches(h: Handler) {
    !h.panics && ShouldCache(TapeOf(h.ops).status)
  }

  /** The key's slot after a run of the handler on a free key; `finish` are the faults of the completion or release. */
  function SlotAfterRun(base: Headers, h: Handler, call: Call, clock: Clock, now: nat, ttl: nat,
                        finish: (Fault, Fault)): Slot {
    var reserved := InFlightRecord(call.hash, clock.now, clock.expires);
    var lost := if Caches(h) then finish.0 != NoFault || finish.1 == Refused else finish.0 == Refused;
    if lost then Some(Entry(reserved, now + ttl))
    else if !Caches(h) then None
    else Some(Entry(CompletedRecord(reserved, Recorded(base, h.ops), clock.completedExpires), now + ttl))
  }

  /** The key's slot after a whole request with a valid key and a readable body. */
  function ServedSlot(slot: Slot, base: Headers, h: Handler, call: Call, clock: Clock, now: nat, ttl: nat,
                      reserve: (Fault, Fault), finish: (Fault, Fault)): Slot {
    if reserve.0 == NoFault && slot.None? then SlotAfterRun(base, h, call, clock, now, ttl, finish)
    else if reserve.0 == ReplyLost then Reserve(slot, InFlightRecord(call.hash, clock.now, clock.expires), now, ttl).0
    else slot
  }

  /** The client's headers after a run; a failed completion is marked, too late to be sent. */
  function HeadersAfterRun(base: Headers, h: Handler, finish: (Fault, Fault)): Headers {
    if Caches(h) && finish != (NoFault, NoFault)
    then HeadersAfter(base, h.ops)["X-Idempotent-Cache" := ["store-failed"]]
    else HeadersAfter(base, h.ops)
  }

  class Edge {
    const store: RS.Store
    const ttl: nat

    constructor (store: RS.Store, ttl: nat)
      ensures this.store == store && this.ttl == ttl
    {
      this.store, this.ttl := store, ttl;
    }

    /**
      IdempotencyMiddleware. `reserve` are the faults of Reserve's two commands, `finish` those of the
      completion or release; `order` lists the captured headers.
    */
    method Serve(w: ResponseWriter, call: Call, h: Handler, clock: Clock,
                 reserve: (Fault, Fault), finish: (Fault, Fault), order: seq<string>)
      returns (trail: Trail, panicked: bool)
      requires store.redis.Valid() && w.sent == Sent(None, [])
      requires Lists(order, Captured(HeadersAfter(w.header, h.ops)))
      modifies store.redis, w
      ensures store.redis.Valid() && store.redis.OnlyTouches(call.key)
      // A panic of the handler leaves the middleware again.
      ensures panicked <==> h.panics && (trail == PassedOn || trail == Ran)
      // Without a key the request passes straight through.
      ensures call.key == "" <==> trail == PassedOn
      ensures trail == PassedOn ==>
        w.sent == DirectSent(h.ops) && w.header == HeadersAfter(old(w.header), h.ops) && store.redis.db == old(store.redis.db)
      // A key that is no UUID, a body that cannot be read, or a failed Reserve: the handler does not run.
      ensures trail.Rejected? ==> w.sent == Sent(Some(trail.status), []) && w.header == old(w.header)["Content-Type" := ["application/json"]]
      ensures trail.Rejected? ==> trail.status in {400, 500}
      ensures trail == Rejected(400) <==> call.key != "" && (!call.isUuid || !call.readable)
      ensures trail == Rejected(400) ==> store.redis.db == old(store.redis.db)
      ensures call.key != "" && call.isUuid && call.readable ==>
        (trail == Rejected(500) <==>
          reserve.0 != NoFault || (old(store.redis.SlotOf(call.key)).Some? && reserve.1 != NoFault))
      ensures trail == Rejected(500) ==>
        store.redis.SlotOf(call.key) ==
          if reserve.0 == ReplyLost
          then Reserve(old(store.redis.SlotOf(call.key)), InFlightRecord(call.hash, clock.now, clock.expires), store.redis.now, ttl).0
          else old(store.redis.SlotOf(call.key))
      // A key in use: its record answers, and stays as it is.
      ensures trail.Reused? ==>
        && old(store.redis.SlotOf(call.key)).Some? && trail.existing == old(store.redis.SlotOf(call.key)).value.rec
        && store.redis.SlotOf(call.key) == old(store.redis.SlotOf(call.key))
        && Delivers(w, old(w.header), Replay(trail.existing, call.hash))
      // The same with the numbers, when nothing fails: below 500 the response is stored, from 500 on the key is free again.
      ensures trail == Ran && finish == (NoFault, NoFault) && !h.panics && FirstStatus(h.ops) < 500 ==>
        store.redis.SlotOf(call.key) == Some(Entry(
          Record(Completed, call.hash, FirstStatus(h.ops), Captured(HeadersAfter(old(w.header), h.ops)), Written(h.ops),
                 clock.now, clock.completedExpires),
          store.redis.now + ttl))
      ensures trail == Ran && finish == (NoFault, NoFault) && (h.panics || FirstStatus(h.ops) >= 500) ==>
        store.redis.SlotOf(call.key) == None
      ensures trail == Ran && finish != (NoFault, NoFault) && !h.panics && FirstStatus(h.ops) < 500 ==>
        w.header == HeadersAfter(old(w.header), h.ops)["X-Idempotent-Cache" := ["store-failed"]]
      // A free key: the handler runs once; its response is stored if it is below 500, unless the store fails.
      ensures trail == Ran ==> old(store.redis.SlotOf(call.key)).None? && w.sent == SentOf(h.ops)
      ensures trail == Ran ==>
        && store.redis.SlotOf(call.key) == SlotAfterRun(old(w.header), h, call, clock, store.redis.now, ttl, finish)
        && w.header == HeadersAfterRun(old(w.header), h, finish)
      ensures call.key != "" && call.isUuid && call.readable ==>
        store.redis.SlotOf(call.key) ==
          ServedSlot(old(store.redis.SlotOf(call.key)), old(w.header), h, call, clock, store.redis.now, ttl, reserve, finish)
      ensures call.key != "" && call.isUuid && call.readable && reserve == (NoFault, NoFault) ==>
        trail == if old(store.redis.SlotOf(call.key)).Some? then Reused(old(store.redis.SlotOf(call.key)).value.rec) else Ran
    {
      if call.key == "" {
        RunDirectly(w, h.ops);
        return PassedOn, h.panics;
      }
      if !call.isUuid || !call.readable {
        RespondWithError(w, 400);
        return Rejected(400), false;
      }
      var existing, created, err := store.Reserve(call.key, call.hash, clock.now, clock.expires, ttl, reserve.0, reserve.1);
      if err {
        RespondWithError(w, 500);
        return Rejected(500), false;
      }
      if !created {
        ReplayCached(w, existing.value, call.hash);
        return Reused(existing.value), false;
      }
      TapeHolds(h.ops);
      FinishRun(w, call, h, clock, finish, order);
      return Ran, h.panics;
    }

    /** The part after a successful reservation: run the handler, then complete or release. */
    method FinishRun(w: ResponseWriter, call: Call, h: Handler, clock: Clock, finish: (Fault, Fault), order: seq<string>)
      requires store.redis.Valid() && w.sent == Sent(None, [])
      requires Lists(order, Captured(HeadersAfter(w.header, h.ops)))
      requires store.redis.SlotOf(call.key) ==
        Some(Entry(InFlightRecord(call.hash, clock.now, clock.expires), store.redis.now + ttl))
      modifies store.redis, w
      ensures store.redis.Valid() && store.redis.OnlyTouches(call.key)
      ensures w.sent == SentOf(h.ops) && w.header == HeadersAfterRun(old(w.header), h, finish)
      ensures store.redis.SlotOf(call.key) == SlotAfterRun(old(w.header), h, call, clock, store.redis.now, ttl, finish)
    {
      var err;
      var recorder := new Recorder(w);
      recorder.Run(h.ops);
      if h.panics {
        err := store.Release(call.key, finish.0);
      } else if ShouldCache(recorder.status) {
        var headers := recorder.CapturedHeaders();
        err := store.Complete(call.key, Response(recorder.status, headers, recorder.body), order,
                              clock.completedExpires, ttl, finish.0, finish.1);
        if err {
          w.SetHeader("X-Idempotent-Cache", "store-failed");
        }
      } else {
        err := store.Release(call.key, finish.0);
      }
    }
  }

  /**
    A replay sends the client the final status and the body bytes the first response sent, whatever
    the handler did. (net/http panics on a status below 100, so such a handler does not return.)
  */
  lemma ReplaySendsTheSame(existing: Record, base: Headers, ops: seq<Op>, expires: Stamp, hash: Digest)
    requires FirstStatus(ops) >= 100 && existing.requestHash == hash
    ensures var again := Replay(CompletedRecord(existing, Recorded(base, ops), expires), hash);
      && again.Replayed?
      && FinalStatus(ReplaySent(again.resp)) == FinalStatus(SentOf(ops))
      && ReplaySent(again.resp).body == SentOf(ops).body
  {
    TapeHolds(ops);
    SentHolds(ops);
    if !Sets(ops) {
      UnsetIsUnwritten(ops);
      UnsetIsDefault(ops);
    }
  }

  /** A retry within the TTL of a cacheable first response runs no handler and gets that response again. */
  method RetryIsReplayed(edge: Edge, w1: ResponseWriter, w2: ResponseWriter, call: Call, h1: Handler, h2: Handler,
                         clock: Clock, order1: seq<string>, order2: seq<string>, wait: nat)
    returns (first: Trail, second: Trail)
    requires edge.store.redis.Valid() && w1 != w2 && w1.sent == Sent(None, []) && w2.sent == Sent(None, [])
    requires call.key != "" && call.isUuid && call.readable && edge.store.redis.SlotOf(call.key).None?
    requires !h1.panics && ShouldCache(FirstStatus(h1.ops)) && FirstStatus(h1.ops) >= 100 && wait <= edge.ttl
    requires Lists(order1, Captured(HeadersAfter(w1.header, h1.ops)))
    requires Lists(order2, Captured(HeadersAfter(w2.header, h2.ops)))
    modifies edge.store.redis, w1, w2
    ensures first == Ran && second.Reused?
    ensures w1.sent == SentOf(h1.ops)
    ensures FinalStatus(w2.sent) == FinalStatus(w1.sent) && w2.sent.body == w1.sent.body
    ensures w2.header ==
      Overlay(old(w2.header), Captured(HeadersAfter(old(w1.header), h1.ops))[REPLAY_HEADER := "true"])
  {
    ghost var base := w1.header;
    var ok := (NoFault, NoFault);
    var panicked;
    first, panicked := edge.Serve(w1, call, h1, clock, ok, ok, order1);
    TapeHolds(h1.ops);
    edge.store.redis.Sleep(wait);
    second, panicked := edge.Serve(w2, call, h2, clock, ok, ok, order2);
    ReplaySendsTheSame(InFlightRecord(call.hash, clock.now, clock.expires), base, h1.ops, clock.completedExpires, call.hash);
  }
}

/** The provisioning endpoint: the status tells whether the publish was acknowledged. */
module ResourceHandler {
  import opened Records
  import opened HttpRecorder

  class Publisher {
    var acknowledged: nat

    /** `accepts` says whether the queue acknowledges this message. */
    method Publish(accepts: bool) returns (err: bool)
      modifies this
      ensures err <==> !accepts
      ensures acknowledged == old(acknowledged) + if accepts then 1 else 0
    {
      err := !accepts;
      if accepts {
        acknowledged := acknowledged + 1;
      }
    }
  }

  function ProvisionStatus(decodes: bool, accepts: bool): nat {
    if !decodes then 400 else if accepts then 202 else 500
  }

  /** Provision: `decodes` says whether the body decodes and validates; `text` is the JSON written. */
  method Provision(rec: Recorder, p: Publisher, decodes: bool, accepts: bool, text: seq<Byte>)
    requires rec.Now() == BLANK
    modifies rec, rec.w, p
    ensures rec.w.header == HeadersAfter(old(rec.w.header), JsonOps(rec.status, text))
    ensures rec.Now() == TapeOf(JsonOps(rec.status, text))
    ensures rec.status == ProvisionStatus(decodes, accepts)
    ensures p.acknowledged == old(p.acknowledged) + if decodes && accepts then 1 else 0
    ensures rec.status == 202 <==> p.acknowledged == old(p.acknowledged) + 1
    ensures rec.status in {202, 400, 500} && rec.wroteHeader && rec.body == text
    ensures rec.status == 400 <==> !decodes
    ensures rec.status == 500 <==> decodes && p.acknowledged == old(p.acknowledged)
  {
    if !decodes {
      Respond(rec, 400, text);
      return;
    }
    var err := p.Publish(accepts);
    if err {
      Respond(rec, 500, text);
      return;
    }
    Respond(rec, 202, text);
  }

  /** The calls RespondWithJSON makes. */
  function JsonOps(status: nat, text: seq<Byte>): seq<Op> {
    [SetHeader("Content-Type", "application/json"), WriteHeader(status), Write(text)]
  }

  lemma JsonTape(status: nat, text: seq<Byte>, base: Headers)
    ensures TapeOf(JsonOps(status, text)) == Tape(status, text, true)
    ensures HeadersAfter(base, JsonOps(status, text)) == base["Content-Type" := ["application/json"]]
  {
    var ops := JsonOps(status, text);
    var one, two := [ops[0]], [ops[0], ops[1]];
    assert ops[..2] == two && two[..1] == one && one[..0] == [];
    assert TapeOf(one) == BLANK && TapeOf(two) == Tape(status, [], true);
    assert HeadersAfter(base, one) == HeadersAfter(base, [])["Content-Type" := ["application/json"]];
    assert HeadersAfter(base, two) == HeadersAfter(base, one);
  }

  method Respond(rec: Recorder, status: nat, text: seq<Byte>)
    requires rec.Now() == BLANK
    modifies rec, rec.w
    ensures rec.Now() == Tape(status, text, true) == TapeOf(JsonOps(status, text))
    ensures rec.w.header == HeadersAfter(old(rec.w.header), JsonOps(status, text))
  {
    JsonTape(status, text, rec.w.header);
    rec.w.SetHeader("Content-Type", "application/json");
    rec.WriteHeader(status);
    rec.Write(text);
  }
}

/** The middleware chain. */
module MiddlewareChain {
  /** The first middleware is outermost. */
  function Wrapped<H>(ms: seq<H -> H>, handler: H): H {
    if ms == [] then handler else ms[0](Wrapped(ms[1..], handler))
  }

  /** ChainMiddleware */
  method Chain<H>(handler: H, ms: seq<H -> H>) returns (h: H)
    ensures h == Wrapped(ms, handler)
  {
    h := handler;
    var i := |ms|;
    while i > 0
      invariant 0 <= i <= |ms| && h == Wrapped(ms[i..], handler)
    {
      i := i - 1;
      assert ms[i..][1..] == ms[i + 1..];
      h := ms[i](h);
    }
    assert ms[0..] == ms;
  }

  /** No middleware leaves the handler as it is; each wraps what the ones after it make. */
  lemma WrappedIs<H>(m: H -> H, ms: seq<H -> H>, handler: H)
    ensures Wrapped([], handler) == handler
    ensures Wrapped([m], handler) == m(handler)
    ensures Wrapped([m] + ms, handler) == m(Wrapped(ms, handler))
  {
    assert ([m] + ms)[1..] == ms && [m][1..] == [];
  }

  /** Chaining two lists is chaining the second inside the first. */
  lemma {:induction false} WrappedAppend<H>(a: seq<H -> H>, b: seq<H -> H>, handler: H)
    ensures Wrapped(a + b, handler) == Wrapped(a, Wrapped(b, handler))
  {
    if a == [] {
      assert a + b == b;
    } else {
      assert (a + b)[1..] == a[1..] + b;
      WrappedAppend(a[1..], b, handler);
    }
  }
}
