/** The Redis adapter, one command after another, against the port's atomic operations. */
module RedisStore {
  import opened Wrappers
  import opened Records
  import opened RecordJson
  import opened RecordJsonProofs
  import IdempotencyPort

  type Slot = IdempotencyPort.Slot

  /** A stored value: the record and the order of its header keys determine the text Redis holds. */
  datatype Cell = Cell(rec: Record, order: seq<string>, deadline: nat)

  /** The test of releaseScript, made on the stored text. */
  method TextLooksInFlight(rec: Record, order: seq<string>) returns (hit: bool)
    requires Lists(order, rec.headers)
    ensures hit <==> LooksInFlight(rec)
  {
    hit := Contains(Marshal(rec, order), NEEDLE);
    SearchIsExact(rec, order);
  }

  class Redis {
    var db: map<string, Cell>
    var now: nat

    ghost predicate Valid()
      reads this
    {
      forall key | key in db :: Lists(db[key].order, db[key].rec.headers)
    }

    /** What a client can see under a key: expired cells are gone. */
    function SlotOf(key: string): Slot
      reads this
    {
      if key in db && now <= db[key].deadline then Some(IdempotencyPort.Entry(db[key].rec, db[key].deadline)) else None
    }

    /** Every other key looks the same. */
    twostate predicate OnlyTouches(key: string)
      reads this
    {
      now == old(now) && forall other: string | other != key :: SlotOf(other) == old(SlotOf(other))
    }

    constructor ()
      ensures Valid() && now == 0 && forall key :: SlotOf(key) == None
    {
      db, now := map[], 0;
    }

    method Sleep(ms: nat)
      requires Valid()
      modifies this
      ensures Valid() && now == old(now) + ms
      ensures forall key :: SlotOf(key) == IdempotencyPort.Expire(old(SlotOf(key)), now)
    {
      now := now + ms;
    }

    method SetNX(key: string, rec: Record, order: seq<string>, ttl: nat, fault: Fault)
      returns (ok: bool, err: bool)
      requires Valid() && Lists(order, rec.headers)
      modifies this
      ensures Valid() && OnlyTouches(key)
      ensures err <==> fault != NoFault
      ensures fault == Refused ==> SlotOf(key) == old(SlotOf(key))
      ensures fault != Refused ==> SlotOf(key) == IdempotencyPort.SetNx(old(SlotOf(key)), rec, now, ttl).0
      ensures !err ==> ok == IdempotencyPort.SetNx(old(SlotOf(key)), rec, now, ttl).1
    {
      ok, err := false, fault != NoFault;
      if fault != Refused && SlotOf(key).None? {
        db := db[key := Cell(rec, order, now + ttl)];
        ok := true;
      }
    }

    method Get(key: string, fault: Fault) returns (found: Option<Record>, err: bool)
      requires Valid()
      ensures err <==> fault != NoFault
      ensures !err ==> found == IdempotencyPort.Stored(SlotOf(key))
    {
      found, err := IdempotencyPort.Stored(SlotOf(key)), fault != NoFault;
    }

    /** completeScript */
    method RunComplete(key: string, rec: Record, order: seq<string>, ttl: nat, fault: Fault)
      returns (err: bool)
      requires Valid() && Lists(order, rec.headers)
      modifies this
      ensures Valid() && OnlyTouches(key)
      ensures err <==> fault != NoFault
      ensures SlotOf(key) ==
        if fault == Refused then old(SlotOf(key)) else IdempotencyPort.CompleteScript(old(SlotOf(key)), rec, now, ttl).0
    {
      err := fault != NoFault;
      if fault != Refused && SlotOf(key).Some? {
        db := db[key := Cell(rec, order, now + ttl)];
      }
    }

    /** releaseScript: the test is on the stored text. */
    method RunRelease(key: string, fault: Fault) returns (err: bool)
      requires Valid()
      modifies this
      ensures Valid() && OnlyTouches(key)
      ensures err <==> fault != NoFault
      ensures SlotOf(key) ==
        if fault == Refused then old(SlotOf(key)) else IdempotencyPort.ReleaseScript(old(SlotOf(key))).0
    {
      err := fault != NoFault;
      if fault != Refused && SlotOf(key).Some? {
        var hit := TextLooksInFlight(db[key].rec, db[key].order);
        if hit {
          db := map k | k in db && k != key :: db[k];
        }
      }
    }
  }

  /** No header name or value is the word, or ends in a quote and the word. */
  predicate NoHeaderShows(headers: map<string, string>) {
    forall k | k in headers :: !ShowsWord(k) && !ShowsWord(headers[k])
  }

  class Store {
    const redis: Redis

    constructor (redis: Redis)
      ensures this.redis == redis
    {
      this.redis := redis;
    }

    /**
      Reserve. Without faults it is the port's operation, returning the record the key then holds;
      with one, it is an error that has reserved at most what the port's operation would.
    */
    method Reserve(key: string, hash: Digest, now: Stamp, expires: Stamp, ttl: nat, f1: Fault, f2: Fault)
      returns (existing: Option<Record>, created: bool, err: bool)
      requires redis.Valid()
      modifies redis
      ensures redis.Valid() && redis.OnlyTouches(key)
      ensures !err ==>
        (redis.SlotOf(key), created)
        == IdempotencyPort.Reserve(old(redis.SlotOf(key)), InFlightRecord(hash, now, expires), redis.now, ttl)
      ensures !err ==> redis.SlotOf(key).Some? && existing == Some(redis.SlotOf(key).value.rec)
      ensures !err ==> (created <==> old(redis.SlotOf(key)).None?)
      ensures !err && created ==>
        redis.SlotOf(key) == Some(IdempotencyPort.Entry(Record(InFlight, hash, 0, map[], [], now, expires), redis.now + ttl))
      ensures !err && !created ==> redis.SlotOf(key) == old(redis.SlotOf(key))
      ensures err <==> f1 != NoFault || (old(redis.SlotOf(key)).Some? && f2 != NoFault)
      ensures err ==> !created
      ensures err && f1 == ReplyLost ==>
        redis.SlotOf(key)
        == IdempotencyPort.Reserve(old(redis.SlotOf(key)), InFlightRecord(hash, now, expires), redis.now, ttl).0
      ensures err && f1 != ReplyLost ==> redis.SlotOf(key) == old(redis.SlotOf(key))
    {
      var env := InFlightRecord(hash, now, expires);
      var ok;
      ok, err := redis.SetNX(key, env, [], ttl, f1);
      existing, created := None, false;
      if err {
        return;
      }
      if ok {
        existing, created := Some(env), true;
        return;
      }
      existing, err := redis.Get(key, f2);
    }

    /**
      Complete. The record keeps the hash and creation time that were read; a missing record is not
      an error and is not created.
    */
    method Complete(key: string, resp: Response, order: seq<string>, expires: Stamp, ttl: nat, f1: Fault, f2: Fault)
      returns (err: bool)
      requires redis.Valid() && Lists(order, resp.headers)
      modifies redis
      ensures redis.Valid() && redis.OnlyTouches(key)
      ensures old(redis.SlotOf(key)).None? ==> redis.SlotOf(key).None?
      ensures old(redis.SlotOf(key)).Some? && f1 == NoFault && f2 != Refused ==>
        redis.SlotOf(key)
        == Some(IdempotencyPort.Entry(
             Record(Completed, old(redis.SlotOf(key)).value.rec.requestHash, resp.status, resp.headers, resp.body,
                    old(redis.SlotOf(key)).value.rec.createdAt, expires),
             redis.now + ttl))
      ensures f1 != NoFault || f2 == Refused ==> redis.SlotOf(key) == old(redis.SlotOf(key))
      ensures !err && (old(redis.SlotOf(key)).Some? ==> old(redis.SlotOf(key)).value.rec.state == InFlight) ==>
        redis.SlotOf(key) == IdempotencyPort.Complete(old(redis.SlotOf(key)), resp, expires, redis.now, ttl)
      ensures err <==> f1 != NoFault || (old(redis.SlotOf(key)).Some? && f2 != NoFault)
    {
      var found;
      found, err := redis.Get(key, f1);
      if err || found.None? {
        return;
      }
      var env := CompletedRecord(found.value, resp, expires);
      err := redis.RunComplete(key, env, order, ttl, f2);
    }

    /** Release. It removes a record in flight and leaves a completed one, and is the port's operation on every record whose header strings do not show the word. */
    method Release(key: string, fault: Fault) returns (err: bool)
      requires redis.Valid()
      modifies redis
      ensures redis.Valid() && redis.OnlyTouches(key)
      ensures err <==> fault != NoFault
      ensures old(redis.SlotOf(key)).None? ==> redis.SlotOf(key).None?
      ensures fault != Refused && old(redis.SlotOf(key)).Some? && old(redis.SlotOf(key)).value.rec.state == InFlight ==>
        redis.SlotOf(key).None?
      ensures var was := old(redis.SlotOf(key));
        was.Some? && was.value.rec.state == Completed && NoHeaderShows(was.value.rec.headers) ==> redis.SlotOf(key) == was
      ensures redis.SlotOf(key) ==
        if fault == Refused then old(redis.SlotOf(key)) else IdempotencyPort.ReleaseScript(old(redis.SlotOf(key))).0
      ensures fault != Refused && (old(redis.SlotOf(key)).Some? ==>
          var rec := old(redis.SlotOf(key)).value.rec;
          rec.state == InFlight || forall k | k in rec.headers :: !ShowsWord(k) && !ShowsWord(rec.headers[k])) ==>
        redis.SlotOf(key) == IdempotencyPort.Release(old(redis.SlotOf(key)))
    {
      err := redis.RunRelease(key, fault);
    }
  }
}
