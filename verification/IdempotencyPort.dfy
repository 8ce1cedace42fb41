/**
  The port contract as atomic operations on one key's slot, and the Redis commands the adapter
  uses to implement it. Times are milliseconds; a slot's deadline is its Redis TTL.
*/
module IdempotencyPort {
  import opened Wrappers
  import opened Records
  import opened RecordJson

  datatype Entry = Entry(rec: Record, deadline: nat)

  type Slot = Option<Entry>

  function Stored(slot: Slot): Option<Record> {
    if slot.Some? then Some(slot.value.rec) else None
  }

  // ---- the port: what each operation does in one step ----

  /** Creates an IN_FLIGHT record or leaves the slot alone; the flag says which. */
  function Reserve(slot: Slot, payload: Record, now: nat, ttl: nat): (Slot, bool) {
    if slot.None? then (Some(Entry(payload, now + ttl)), true) else (slot, false)
  }

  /** Promotes an IN_FLIGHT record to COMPLETED with the captured response. */
  function Complete(slot: Slot, resp: Response, expires: Stamp, now: nat, ttl: nat): Slot {
    if slot.Some? && slot.value.rec.state == InFlight
    then Some(Entry(CompletedRecord(slot.value.rec, resp, expires), now + ttl))
    else slot
  }

  /** Removes an IN_FLIGHT record. */
  function Release(slot: Slot): Slot {
    if slot.Some? && slot.value.rec.state == InFlight then None else slot
  }

  // ---- the Redis commands ----

  /** SET key payload NX PX ttl */
  function SetNx(slot: Slot, payload: Record, now: nat, ttl: nat): (Slot, bool) {
    match slot
    case Some(_) => (slot, false)
    case None => (Some(Entry(payload, now + ttl)), true)
  }

  /** The complete script tests only that the key exists. */
  function CompleteScript(slot: Slot, payload: Record, now: nat, ttl: nat): (Slot, nat) {
    if slot.None? then (None, 0) else (Some(Entry(payload, now + ttl)), 1)
  }

  /** The release script tests the record's text; `LooksInFlight` is when its search hits. */
  function ReleaseScript(slot: Slot): (Slot, nat) {
    if slot.None? then (None, 0)
    else if LooksInFlight(slot.value.rec) then (None, 1)
    else (slot, 0)
  }

  /** A key is gone once the clock has passed its deadline. */
  function Expire(slot: Slot, now: nat): Slot {
    if slot.Some? && now > slot.value.deadline then None else slot
  }

  // ---- the middleware's decisions ----

  const REPLAY_HEADER := "X-Idempotent-Replay"

  /** What a client is sent: an error, the handler's own response, or a replayed one. */
  datatype Answer = Failure(status: nat) | Fresh(resp: Response) | Replayed(resp: Response)

  predicate ShouldCache(status: nat) {
    (if status == 0 then 200 else status) < 500
  }

  /** replayCachedResponse */
  function Replay(existing: Record, hash: Digest): Answer {
    if existing.requestHash != hash then Failure(422)
    else if existing.state == InFlight then Failure(409)
    else Replayed(Response(
      if existing.statusCode == 0 then 200 else existing.statusCode,
      existing.headers[REPLAY_HEADER := "true"],
      existing.body))
  }

  // ---- the decisions with their numbers ----

  /** A response is worth replaying exactly below 500. */
  lemma CachedBelow500(status: nat)
    ensures ShouldCache(status) <==> status < 500
  {
  }

  /** 422 for another body; for the same body 409 while the first request runs, and its response afterwards. */
  lemma ReplayAnswers(existing: Record, hash: Digest)
    ensures existing.requestHash != hash ==> Replay(existing, hash) == Failure(422)
    ensures existing.requestHash == hash && existing.state == InFlight ==> Replay(existing, hash) == Failure(409)
    ensures existing.requestHash == hash && existing.state == Completed ==>
      Replay(existing, hash) == Replayed(Response(
        if existing.statusCode == 0 then 200 else existing.statusCode,
        existing.headers["X-Idempotent-Replay" := "true"], existing.body))
  {
  }

  /** A new record is in flight and holds the hash and the two times, and nothing of a response. */
  lemma ReservedHolds(hash: Digest, created: Stamp, expires: Stamp)
    ensures var rec := InFlightRecord(hash, created, expires);
      && rec.state == InFlight && rec.requestHash == hash && rec.createdAt == created && rec.expiresAt == expires
      && rec.statusCode == 0 && rec.headers == map[] && rec.body == []
  {
  }

  /** A completed record takes hash and creation time from the one it replaces and the rest from the completion. */
  lemma CompletedHolds(existing: Record, resp: Response, expires: Stamp)
    ensures var rec := CompletedRecord(existing, resp, expires);
      && rec.state == Completed && rec.requestHash == existing.requestHash && rec.createdAt == existing.createdAt
      && rec.statusCode == resp.status && rec.headers == resp.headers && rec.body == resp.body
      && rec.expiresAt == expires
  {
  }

  /** The port in so many words: what each operation does to a free key, an in-flight and a completed record. */
  lemma PortOperations(payload: Record, e: Entry, resp: Response, expires: Stamp, now: nat, ttl: nat)
    ensures Reserve(None, payload, now, ttl) == (Some(Entry(payload, now + ttl)), true)
    ensures Reserve(Some(e), payload, now, ttl) == (Some(e), false)
    ensures Complete(None, resp, expires, now, ttl) == None && Release(None) == None
    ensures e.rec.state == InFlight ==>
      && Complete(Some(e), resp, expires, now, ttl) == Some(Entry(CompletedRecord(e.rec, resp, expires), now + ttl))
      && Release(Some(e)) == None
    ensures e.rec.state == Completed ==>
      Complete(Some(e), resp, expires, now, ttl) == Some(e) && Release(Some(e)) == Some(e)
  {
  }
}
