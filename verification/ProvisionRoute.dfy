/**
  The one route the idempotency middleware wraps, with the middlewares that set headers before it:
  standard headers, then CORS, then the idempotency middleware, then Provision.
*/
module ProvisionRoute {
  import opened Wrappers
  import opened Records
  import opened RecordJson
  import opened RecordJsonProofs
  import opened QuotedSearch
  import opened IdempotencyPort
  import opened HttpRecorder
  import opened Middleware
  import opened ResourceHandler
  import RS = RedisStore

  // ---- standard headers ----

  /** The request id: the client's, else the gateway's trace id, else a generated one. */
  function RequestId(own: string, trace: string, generated: string): string {
    if own != "" then own else if trace != "" then trace else generated
  }

  const CACHE_CONTROL := "no-store, no-cache, must-revalidate"

  function StandardHeaders(base: Headers, requestId: string, now: string): Headers {
    base["X-Request-Id" := [requestId]]["X-Content-Type-Options" := ["nosniff"]]["X-Frame-Options" := ["DENY"]]
        ["X-Xss-Protection" := ["1; mode=block"]]["Cache-Control" := [CACHE_CONTROL]]
        ["Pragma" := ["no-cache"]]["X-Api-Version" := ["v1"]]["X-Response-Time" := [now]]
  }

  /** StandardHeadersMiddleware, with header names in canonical form. */
  method SetStandardHeaders(w: ResponseWriter, own: string, trace: string, generated: string, now: string)
    modifies w
    ensures w.sent == old(w.sent)
    ensures w.header == StandardHeaders(old(w.header), RequestId(own, trace, generated), now)
    ensures "X-Request-Id" in w.header && w.header["X-Request-Id"] ==
      if |own| > 0 then [own] else if |trace| > 0 then [trace] else [generated]
    ensures forall k | k != "X-Request-Id" && k != "X-Response-Time" && k !in {"X-Content-Type-Options", "X-Frame-Options",
        "X-Xss-Protection", "Cache-Control", "Pragma", "X-Api-Version"} ::
      (k in w.header <==> k in old(w.header)) && (k in w.header ==> w.header[k] == old(w.header)[k])
  {
    var requestId := own;
    if requestId == "" {
      requestId := trace;
    }
    if requestId == "" {
      requestId := generated;
    }
    w.SetHeader("X-Request-Id", requestId);
    w.SetHeader("X-Content-Type-Options", "nosniff");
    w.SetHeader("X-Frame-Options", "DENY");
    w.SetHeader("X-Xss-Protection", "1; mode=block");
    w.SetHeader("Cache-Control", CACHE_CONTROL);
    w.SetHeader("Pragma", "no-cache");
    w.SetHeader("X-Api-Version", "v1");
    w.SetHeader("X-Response-Time", now);
  }

  // ---- CORS ----

  const EXPOSED := "X-Request-Id, X-API-Version, X-RateLimit-Limit, X-RateLimit-Remaining, X-RateLimit-Reset"

  /** The header names a browser may read. */
  lemma ExposedIs()
    ensures EXPOSED == "X-Request-Id, X-API-Version, X-RateLimit-Limit, X-RateLimit-Remaining, X-RateLimit-Reset"
  {
  }

  const ALLOW_ORIGIN := "Access-Control-Allow-Origin"
  const ALLOW_CREDENTIALS := "Access-Control-Allow-Credentials"
  const EXPOSE_HEADERS := "Access-Control-Expose-Headers"

  predicate Allows(allowedOrigins: seq<string>, origin: string) {
    origin != "" && ("*" in allowedOrigins || origin in allowedOrigins)
  }

  function CorsHeaders(base: Headers, allowedOrigins: seq<string>, origin: string): Headers {
    if !Allows(allowedOrigins, origin) then base
    else base[ALLOW_ORIGIN := [origin]][ALLOW_CREDENTIALS := ["true"]][EXPOSE_HEADERS := [EXPOSED]]
  }

  /** CORSMiddleware on a request that is no preflight: an allowed origin comes back as the client wrote it. */
  method SetCorsHeaders(w: ResponseWriter, allowedOrigins: seq<string>, origin: string)
    modifies w
    ensures w.sent == old(w.sent) && w.header == CorsHeaders(old(w.header), allowedOrigins, origin)
    ensures origin == "" || (origin !in allowedOrigins && "*" !in allowedOrigins) ==> w.header == old(w.header)
    ensures |origin| > 0 && (origin in allowedOrigins || "*" in allowedOrigins) ==>
      && w.header.Keys == old(w.header).Keys + {"Access-Control-Allow-Origin", "Access-Control-Allow-Credentials",
                                                "Access-Control-Expose-Headers"}
      && w.header["Access-Control-Allow-Origin"] == [origin] && w.header["Access-Control-Allow-Credentials"] == ["true"]
      && w.header["Access-Control-Expose-Headers"] == [EXPOSED]
  {
    var allowed := IsListed(allowedOrigins, origin);
    if allowed && origin != "" {
      w.SetHeader(ALLOW_ORIGIN, origin);
      w.SetHeader(ALLOW_CREDENTIALS, "true");
      w.SetHeader(EXPOSE_HEADERS, EXPOSED);
    }
  }

  method IsListed(allowedOrigins: seq<string>, origin: string) returns (allowed: bool)
    ensures allowed <==> "*" in allowedOrigins || origin in allowedOrigins
  {
    allowed := false;
    for i := 0 to |allowedOrigins|
      invariant !allowed && "*" !in allowedOrigins[..i] && origin !in allowedOrigins[..i]
    {
      if allowedOrigins[i] == "*" || allowedOrigins[i] == origin {
        return true;
      }
    }
  }

  // ---- the route ----

  /** No stored record holds a per-request header. */
  ghost predicate Tidy(redis: RS.Redis)
    reads redis
  {
    forall key: string :: TidySlot(redis.SlotOf(key))
  }

  predicate TidySlot(slot: Slot) {
    slot.Some? ==> slot.value.rec.headers.Keys !! PER_REQUEST
  }

  lemma RunLeavesTidy(base: Headers, h: Handler, call: Call, clock: Clock, now: nat, ttl: nat, finish: (Fault, Fault))
    ensures TidySlot(SlotAfterRun(base, h, call, clock, now, ttl, finish))
  {
  }

  /** The handler sets no per-request header, as Provision does not. */
  predicate SetsNone(ops: seq<Op>) {
    forall op | op in ops && op.SetHeader? :: op.k !in PER_REQUEST
  }

  lemma {:induction false} KeepsPerRequest(base: Headers, ops: seq<Op>, k: string)
    requires SetsNone(ops) && k in PER_REQUEST && k in base
    ensures k in HeadersAfter(base, ops) && HeadersAfter(base, ops)[k] == base[k]
  {
    if ops != [] {
      assert ops[|ops| - 1] in ops && forall op | op in ops[..|ops| - 1] :: op in ops;
      KeepsPerRequest(base, ops[..|ops| - 1], k);
    }
  }

  /** The identity of the current request: what its client sent, and the time. */
  datatype Identity = Identity(own: string, trace: string, generated: string, now: string)

  /** The headers every response of the route starts from. */
  function BaseHeaders(id: Identity, allowedOrigins: seq<string>, origin: string): Headers {
    CorsHeaders(StandardHeaders(map[], RequestId(id.own, id.trace, id.generated), id.now), allowedOrigins, origin)
  }

  /** The response is traced and timed as this request's. */
  predicate CarriesIdentity(header: Headers, id: Identity) {
    && "X-Request-Id" in header && header["X-Request-Id"] == [RequestId(id.own, id.trace, id.generated)]
    && "X-Response-Time" in header && header["X-Response-Time"] == [id.now]
  }

  /** What carrying the identity means, by the three sources of the id. */
  lemma IdentityIs(header: Headers, id: Identity)
    requires CarriesIdentity(header, id)
    ensures |id.own| > 0 ==> header["X-Request-Id"] == [id.own]
    ensures |id.own| == 0 && |id.trace| > 0 ==> header["X-Request-Id"] == [id.trace]
    ensures |id.own| == 0 && |id.trace| == 0 ==> header["X-Request-Id"] == [id.generated]
    ensures header["X-Response-Time"] == [id.now]
  {
  }

  /** The values every response starts with, written out. */
  lemma StandardValues(requestId: string, now: string)
    ensures var h := StandardHeaders(map[], requestId, now);
      && h.Keys == {"X-Request-Id", "X-Content-Type-Options", "X-Frame-Options", "X-Xss-Protection", "Cache-Control",
                    "Pragma", "X-Api-Version", "X-Response-Time"}
      && h["X-Content-Type-Options"] == ["nosniff"] && h["X-Frame-Options"] == ["DENY"]
      && h["X-Xss-Protection"] == ["1; mode=block"] && h["Cache-Control"] == ["no-store, no-cache, must-revalidate"]
      && h["Pragma"] == ["no-cache"] && h["X-Api-Version"] == ["v1"]
  {
  }

  lemma BaseCarriesIdentity(id: Identity, allowedOrigins: seq<string>, origin: string)
    ensures CarriesIdentity(BaseHeaders(id, allowedOrigins, origin), id)
  {
  }

  lemma RunCarriesIdentity(base: Headers, id: Identity, h: Handler, finish: (Fault, Fault))
    requires CarriesIdentity(base, id) && SetsNone(h.ops)
    ensures CarriesIdentity(HeadersAfter(base, h.ops), id) && CarriesIdentity(HeadersAfterRun(base, h, finish), id)
  {
    KeepsPerRequest(base, h.ops, "X-Request-Id");
    KeepsPerRequest(base, h.ops, "X-Response-Time");
  }

  lemma AnswerCarriesIdentity(base: Headers, id: Identity, existing: Record, hash: Digest, header: Headers)
    requires CarriesIdentity(base, id) && existing.headers.Keys !! PER_REQUEST
    requires match Replay(existing, hash)
      case Replayed(resp) => header == Overlay(base, resp.headers)
      case Failure(status) =>
        header == (if status == 409 then base["Retry-After" := ["1"]] else base)["Content-Type" := ["application/json"]]
      case Fresh(_) => false
    ensures CarriesIdentity(header, id)
  {
    assert "X-Request-Id" in PER_REQUEST && "X-Response-Time" in PER_REQUEST;
  }

  /**
    The whole chain. Whatever comes of the request - passed on, rejected, replayed or run - its
    response carries its own id and time, never those of the response it replays; and the store
    never comes to hold a per-request header.
  */
  method Serve(edge: Edge, w: ResponseWriter, id: Identity, allowedOrigins: seq<string>, origin: string,
               call: Call, h: Handler, clock: Clock, reserve: (Fault, Fault), finish: (Fault, Fault),
               order: seq<string>)
    returns (trail: Trail, panicked: bool)
    requires edge.store.redis.Valid() && Tidy(edge.store.redis)
    requires w.sent.status.None? && w.sent.body == [] && w.header == map[] && SetsNone(h.ops)
    requires Lists(order, Captured(HeadersAfter(BaseHeaders(id, allowedOrigins, origin), h.ops)))
    modifies edge.store.redis, w
    ensures edge.store.redis.Valid() && Tidy(edge.store.redis)
    ensures CarriesIdentity(w.header, id)
  {
    SetStandardHeaders(w, id.own, id.trace, id.generated, id.now);
    SetCorsHeaders(w, allowedOrigins, origin);
    ghost var base := w.header;
    BaseCarriesIdentity(id, allowedOrigins, origin);
    RunCarriesIdentity(base, id, h, finish);
    trail, panicked := edge.Serve(w, call, h, clock, reserve, finish, order);
    if trail.Reused? {
      AnswerCarriesIdentity(base, id, trail.existing, call.hash, w.header);
    }
    RunLeavesTidy(base, h, call, clock, edge.store.redis.now, edge.ttl, finish);
    assert TidySlot(old(edge.store.redis.SlotOf(call.key)));
    assert TidySlot(edge.store.redis.SlotOf(call.key));
  }

  // ---- when the route stores a completed record that looks in flight ----

  /** No header that is stored shows the word. */
  predicate HidesWord(h: Headers) {
    forall k | k in h && k !in PER_REQUEST && h[k] != [] :: !ShowsWord(k) && !ShowsWord(h[k][0])
  }

  lemma SetHidesWord(h: Headers, k: string, v: string)
    requires HidesWord(h) && (k in PER_REQUEST || (!ShowsWord(k) && !ShowsWord(v)))
    ensures HidesWord(h[k := [v]])
  {
  }

  /** A text that does not end in the word's last letter hides it. */
  lemma LiteralHidesWord(h: Headers, k: string, v: string)
    requires HidesWord(h) && k != [] && v != [] && Last(k) != 'T' && Last(v) != 'T'
    ensures HidesWord(h[k := [v]])
  {
    MemberNamesHideWord(k);
    MemberNamesHideWord(v);
    SetHidesWord(h, k, v);
  }

  lemma StandardHidesWord(requestId: string, now: string)
    ensures HidesWord(StandardHeaders(map[], requestId, now))
  {
    var h: Headers := map[];
    SetHidesWord(h, "X-Request-Id", requestId);
    h := h["X-Request-Id" := [requestId]];
    LiteralHidesWord(h, "X-Content-Type-Options", "nosniff");
    h := h["X-Content-Type-Options" := ["nosniff"]];
    LiteralHidesWord(h, "X-Frame-Options", "DENY");
    h := h["X-Frame-Options" := ["DENY"]];
    LiteralHidesWord(h, "X-Xss-Protection", "1; mode=block");
    h := h["X-Xss-Protection" := ["1; mode=block"]];
    LiteralHidesWord(h, "Cache-Control", CACHE_CONTROL);
    h := h["Cache-Control" := [CACHE_CONTROL]];
    LiteralHidesWord(h, "Pragma", "no-cache");
    h := h["Pragma" := ["no-cache"]];
    LiteralHidesWord(h, "X-Api-Version", "v1");
    h := h["X-Api-Version" := ["v1"]];
    SetHidesWord(h, "X-Response-Time", now);
  }

  lemma CorsHidesWord(base: Headers, allowedOrigins: seq<string>, origin: string)
    requires HidesWord(base) && !ShowsWord(origin)
    ensures HidesWord(CorsHeaders(base, allowedOrigins, origin))
  {
    MemberNamesHideWord(ALLOW_ORIGIN);
    SetHidesWord(base, ALLOW_ORIGIN, origin);
    var h := base[ALLOW_ORIGIN := [origin]];
    LiteralHidesWord(h, ALLOW_CREDENTIALS, "true");
    LiteralHidesWord(h[ALLOW_CREDENTIALS := ["true"]], EXPOSE_HEADERS, EXPOSED);
  }

  lemma BaseHidesWord(id: Identity, allowedOrigins: seq<string>, origin: string)
    requires !(Allows(allowedOrigins, origin) && ShowsWord(origin))
    ensures HidesWord(BaseHeaders(id, allowedOrigins, origin))
  {
    StandardHidesWord(RequestId(id.own, id.trace, id.generated), id.now);
    if Allows(allowedOrigins, origin) {
      CorsHidesWord(StandardHeaders(map[], RequestId(id.own, id.trace, id.generated), id.now), allowedOrigins, origin);
    }
  }

  predicate SomeHeaderShows(headers: map<string, string>) {
    exists k | k in headers :: ShowsWord(k) || ShowsWord(headers[k])
  }

  lemma HiddenIsNotCaptured(h: Headers)
    requires HidesWord(h)
    ensures !SomeHeaderShows(Captured(h))
  {
  }

  lemma OriginIsCaptured(h: Headers, origin: string)
    requires ALLOW_ORIGIN in h && h[ALLOW_ORIGIN] == [origin]
    ensures ALLOW_ORIGIN in Captured(h) && Captured(h)[ALLOW_ORIGIN] == origin
  {
  }

  lemma CorsKeepsOrigin(base: Headers, allowedOrigins: seq<string>, origin: string)
    requires Allows(allowedOrigins, origin)
    ensures var h := CorsHeaders(base, allowedOrigins, origin);
      ALLOW_ORIGIN in h && h[ALLOW_ORIGIN] == [origin]
  {
  }

  lemma HeadersShowIff(id: Identity, allowedOrigins: seq<string>, origin: string)
    ensures
      var h := BaseHeaders(id, allowedOrigins, origin)["Content-Type" := ["application/json"]];
      SomeHeaderShows(Captured(h)) <==> Allows(allowedOrigins, origin) && ShowsWord(origin)
  {
    var base := BaseHeaders(id, allowedOrigins, origin);
    var h := base["Content-Type" := ["application/json"]];
    if Allows(allowedOrigins, origin) && ShowsWord(origin) {
      CorsKeepsOrigin(StandardHeaders(map[], RequestId(id.own, id.trace, id.generated), id.now), allowedOrigins, origin);
      OriginIsCaptured(h, origin);
    } else {
      BaseHidesWord(id, allowedOrigins, origin);
      LiteralHidesWord(base, "Content-Type", "application/json");
      HiddenIsNotCaptured(h);
    }
  }

  /** The record Complete stores for an answer of Provision. */
  function StoredAnswer(existing: Record, id: Identity, allowedOrigins: seq<string>, origin: string,
                        status: nat, text: seq<Byte>, expires: Stamp): Record {
    CompletedRecord(existing, Recorded(BaseHeaders(id, allowedOrigins, origin), JsonOps(status, text)), expires)
  }

  /**
    For every answer of Provision, every client and every list of allowed origins: the release
    script takes the stored record for an in-flight one if and only if the request's own, allowed
    Origin is the word or ends in a quote and the word.
  */
  lemma StoredLooksInFlightIff(existing: Record, id: Identity, allowedOrigins: seq<string>, origin: string,
                               status: nat, text: seq<Byte>, expires: Stamp, order: seq<string>)
    requires Lists(order, StoredAnswer(existing, id, allowedOrigins, origin, status, text, expires).headers)
    ensures Contains(Marshal(StoredAnswer(existing, id, allowedOrigins, origin, status, text, expires), order), NEEDLE)
      <==> Allows(allowedOrigins, origin) && ShowsWord(origin)
  {
    var rec := StoredAnswer(existing, id, allowedOrigins, origin, status, text, expires);
    SearchIsExact(rec, order);
    JsonTape(status, text, BaseHeaders(id, allowedOrigins, origin));
    HeadersShowIff(id, allowedOrigins, origin);
    assert LooksInFlight(rec) <==> SomeHeaderShows(rec.headers);
  }

  /** With the default list of origins, a client that sends Origin: IN_FLIGHT has its accepted request stored so. */
  lemma OriginCanLookInFlight(existing: Record, id: Identity, text: seq<Byte>, expires: Stamp, order: seq<string>)
    requires Lists(order, StoredAnswer(existing, id, ["*"], "IN_FLIGHT", 202, text, expires).headers)
    ensures var rec := StoredAnswer(existing, id, ["*"], "IN_FLIGHT", 202, text, expires);
      && rec.state == Completed && rec.statusCode == 202 && rec.body == text
      && ALLOW_ORIGIN in rec.headers && rec.headers[ALLOW_ORIGIN] == "IN_FLIGHT"
      && Contains(Marshal(rec, order), NEEDLE)
  {
    var base := BaseHeaders(id, ["*"], WORD);
    JsonTape(202, text, base);
    CorsKeepsOrigin(StandardHeaders(map[], RequestId(id.own, id.trace, id.generated), id.now), ["*"], WORD);
    OriginIsCaptured(base["Content-Type" := ["application/json"]], WORD);
    StoredLooksInFlightIff(existing, id, ["*"], WORD, 202, text, expires, order);
  }
}
