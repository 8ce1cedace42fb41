/** A name reservation, its table item, and the conditional put that claims the name. */
module NameReservations {
  import opened Wrappers

  /** .NET ticks (100 ns) in a second; a DateTimeOffset is a number of ticks. */
  const TICKS := 10_000_000

  datatype Reservation = Reservation(name: string, requestId: string, createdAt: int, expiresAt: int)

  datatype OpenError = BlankRequestId | BadTtl

  /** NameReservation.Open; `blank` is string.IsNullOrWhiteSpace of the request id. */
  function Open(name: string, requestId: string, blank: bool, now: int, ttl: int): Result<Reservation, OpenError> {
    if blank then Err(BlankRequestId)
    else if ttl <= 0 then Err(BadTtl)
    else Ok(Reservation(name, requestId, now, now + ttl))
  }

  /** The attributes the condition and the TTL sweeper look at. */
  datatype Item = Item(requestId: string, expiresAt: int)

  /** ToUnixTimeSeconds rounds down. */
  function Seconds(ticks: int): int {
    ticks / TICKS
  }

  function ToItem(r: Reservation): Item {
    Item(r.requestId, Seconds(r.expiresAt))
  }

  /** A reservation needs a request id and a positive TTL, and expires that long after the clock reading. */
  lemma OpensIff(name: string, requestId: string, blank: bool, now: int, ttl: int)
    ensures Open(name, requestId, blank, now, ttl) ==
      if blank then Err(BlankRequestId)
      else if ttl > 0 then Ok(Reservation(name, requestId, now, now + ttl))
      else Err(BadTtl)
  {
  }

  /** The item holds the request id and the whole second the reservation expires in: 10,000,000 ticks each, rounded down. */
  lemma ItemHoldsTheSecond(r: Reservation)
    ensures ToItem(r).requestId == r.requestId
    ensures ToItem(r).expiresAt * 10_000_000 <= r.expiresAt < (ToItem(r).expiresAt + 1) * 10_000_000
  {
  }

  // ---- the conditional write ----

  /** PutItem's answer: the item it replaced, or the failed condition with the item that stands. */
  datatype PutReply = Replaced(before: Option<Item>) | ConditionFailed(standing: Item)

  /** PutItem with "attribute_not_exists(PK) OR RequestId = :requestId". It never looks at ExpiresAt. */
  function Put(held: Option<Item>, item: Item): (Item, PutReply) {
    if held.None? || held.value.requestId == item.requestId then (item, Replaced(held))
    else (held.value, ConditionFailed(held.value))
  }

  datatype Outcome = Created | AlreadyHeldByThisRequest | NameAlreadyReserved

  /** How ReserveAsync reads the answer. */
  function Decode(reply: PutReply): Outcome {
    match reply
    case Replaced(before) => if before.Some? then AlreadyHeldByThisRequest else Created
    case ConditionFailed(_) => NameAlreadyReserved
  }

  /** The outcome tells exactly who held the name at the instant of the put; a conflict writes nothing. */
  lemma DecodingIsExact(held: Option<Item>, item: Item)
    ensures var (after, reply) := Put(held, item);
      && (Decode(reply) == Created <==> held.None?)
      && (Decode(reply) == AlreadyHeldByThisRequest <==> held.Some? && held.value.requestId == item.requestId)
      && (Decode(reply) == NameAlreadyReserved <==> held.Some? && held.value.requestId != item.requestId)
      && (Decode(reply) == NameAlreadyReserved ==> Some(after) == held)
      && (Decode(reply) != NameAlreadyReserved ==> after == item)
  {
  }

  class Table {
    var items: map<string, Item>

    constructor ()
      ensures items == map[]
    {
      items := map[];
    }

    function Held(name: string): Option<Item>
      reads this
    {
      if name in items then Some(items[name]) else None
    }

    /** ReserveAsync */
    method Reserve(r: Reservation, fault: Fault) returns (outcome: Outcome, err: bool)
      modifies this
      ensures err <==> fault != NoFault
      ensures fault == Refused ==> items == old(items)
      ensures fault != Refused ==> items == old(items)[r.name := Put(old(Held(r.name)), ToItem(r)).0]
      ensures !err ==> outcome == Decode(Put(old(Held(r.name)), ToItem(r)).1)
    {
      outcome, err := NameAlreadyReserved, fault != NoFault;
      if fault == Refused {
        return;
      }
      var item := ToItem(r);
      var reply: PutReply;
      if r.name in items && items[r.name].requestId != item.requestId {
        reply := ConditionFailed(items[r.name]);
      } else {
        reply := Replaced(Held(r.name));
        items := items[r.name := item];
      }
      outcome := Decode(reply);
    }
  }

  // ---- the lease ----

  /** The sweeper may delete an item once the current epoch second has reached its ExpiresAt. */
  predicate MaySweep(item: Item, now: int) {
    item.expiresAt <= Seconds(now)
  }

  /** An item may be swept once the second of its expiry has begun, and not before. */
  lemma SweepableIff(item: Item, now: int)
    ensures MaySweep(item, now) <==> item.expiresAt * 10_000_000 <= now
  {
  }

  /** No sweep comes a second or more before the expiry that the stored item's writer reported. */
  lemma LeaseHolds(r: Reservation, now: int)
    requires MaySweep(ToItem(r), now)
    ensures now + 10_000_000 > r.expiresAt
  {
  }

  /**
    From `now` on, every permitted sweep of a stored item respects an expiry up to a second, if and
    only if the stored second is not smaller than the expiry's or the expiry is due within a second.
  */
  lemma EarliestSweep(item: Item, now: int, expiry: int)
    ensures (forall at: int | at >= now && MaySweep(item, at) :: at + TICKS > expiry)
      <==> Seconds(expiry) <= item.expiresAt || now + TICKS > expiry
  {
    var first := if item.expiresAt * TICKS < now then now else item.expiresAt * TICKS;
    assert MaySweep(item, first);
    if Seconds(expiry) <= item.expiresAt {
      forall at: int | at >= now && MaySweep(item, at)
        ensures at + TICKS > expiry
      {
        assert Seconds(expiry) <= Seconds(at);
      }
    }
  }
}
