/**
 Whole runs of the rate limiter: requests and prunings in any order, at times that do not go back. The bounded and
 pruned map answers as a map that never forgets, as long as no eviction throws away a bucket that has not refilled.
 */
module RateLimitRuns {
  import opened Wrappers
  import opened TokenBuckets
  import opened RateLimit

  datatype Event = Arrival(request: Request, now: int) | Timer(now: int)

  function Keys(r: Request): set<Key> {
    if r.read then {ReadIp(r.ip)} + (if r.user.Some? then {ReadUser(r.user.value)} else {})
    else if r.user.Some? then {WriteUser(r.user.value)} else {}
  }

  function AllKeys(events: seq<Event>): set<Key> {
    if events == [] then {}
    else (if events[0].Arrival? then Keys(events[0].request) else {}) + AllKeys(events[1..])
  }

  predicate InTime(events: seq<Event>, from: int) {
    events == [] || (from <= events[0].now && InTime(events[1..], events[0].now))
  }

  /** One event; without pruning, the timer does nothing. */
  function Step(s: Store, e: Event, maxKeys: int, pruning: bool): (Store, Option<Reply>) {
    match e
    case Arrival(request, now) =>
      var (t, reply) := Answer(s, request, maxKeys, now);
      (t, Some(reply))
    case Timer(now) => (if pruning then Pruned(s, now) else s, None)
  }

  function Replies(s: Store, events: seq<Event>, maxKeys: int, pruning: bool): seq<Option<Reply>>
    decreases |events|
  {
    if events == [] then []
    else
      var (t, reply) := Step(s, events[0], maxKeys, pruning);
      [reply] + Replies(t, events[1..], maxKeys, pruning)
  }

  // ----- What every step keeps -----

  /** A bucket of its key's configuration, last used at now or before. */
  predicate Healthy(k: Key, b: Bucket, now: int) {
    b.capacity == Capacity(k) && b.rate == Rate(k) && Sound(b) && b.last <= now
  }

  /** All buckets healthy, and all keys among the given ones. */
  ghost predicate Fine(s: Store, keys: set<Key>, now: int) {
    && Listed(s.buckets.Keys, s.order)
    && s.buckets.Keys <= keys
    && forall k | k in s.buckets :: Healthy(k, s.buckets[k], now)
  }

  lemma {:induction false} NoMoreThan(order: seq<Key>, keys: set<Key>)
    requires forall k | k in order :: k in keys
    requires forall i, j | 0 <= i < j < |order| :: order[i] != order[j]
    ensures |order| <= |keys|
  {
    if order != [] {
      var last := order[|order| - 1];
      assert forall k | k in order[..|order| - 1] :: k in order && k != last;
      NoMoreThan(order[..|order| - 1], keys - {last});
    }
  }

  /** A map that has room for all keys never evicts. */
  lemma RoomForAll(s: Store, k: Key, keys: set<Key>, maxKeys: int, now: int)
    requires Listed(s.buckets.Keys, s.order) && s.buckets.Keys <= keys && k in keys && |keys| <= maxKeys
    ensures WithBucket(s, k, maxKeys, now) ==
      if k in s.buckets then s else Store(s.buckets[k := New(k, now)], s.order + [k])
  {
    if k !in s.buckets {
      NoMoreThan(s.order, keys - {k});
    }
  }

  /** The charge finds its key, or room for it. */
  predicate Fits(s: Store, k: Key, maxKeys: int) {
    k in s.buckets || |s.order| < maxKeys
  }

  /** What the charge of k evicts, if anything, is not j's bucket, or one that has refilled. */
  predicate Spares(s: Store, k: Key, j: Key, maxKeys: int, now: int) {
    Fits(s, k, maxKeys) || s.order == [] || s.order[0] != j
    || (j in s.buckets && Refilled(s.buckets[j], now) == s.buckets[j].capacity)
  }

  /** The buckets after room has been made. */
  function Room(s: Store, k: Key, maxKeys: int): Store {
    if Fits(s, k, maxKeys) then s else WithoutOldest(s)
  }

  lemma WithBucketIs(s: Store, k: Key, maxKeys: int, now: int)
    ensures WithBucket(s, k, maxKeys, now) == if k in s.buckets then s
      else Store(Room(s, k, maxKeys).buckets[k := New(k, now)], Room(s, k, maxKeys).order + [k])
  {
  }

  lemma RoomIsFine(s: Store, k: Key, keys: set<Key>, maxKeys: int, now: int)
    requires Fine(s, keys, now)
    ensures Fine(Room(s, k, maxKeys), keys, now)
  {
    hide Listed, Healthy;
    if s.order != [] {
      DropListed(s.buckets.Keys, s.order);
      assert (s.buckets - {s.order[0]}).Keys == s.buckets.Keys - {s.order[0]};
    }
  }

  lemma ChargeIsFine(s: Store, k: Key, keys: set<Key>, maxKeys: int, now: int)
    requires Fine(s, keys, now) && k in keys
    ensures Fine(Charge(s, k, maxKeys, now).0, keys, now)
  {
    hide Listed, Sound, Refilled, Capacity, Rate, WithBucket, Room;
    RoomIsFine(s, k, keys, maxKeys, now);
    WithBucketIs(s, k, maxKeys, now);
    var room, t := Room(s, k, maxKeys), WithBucket(s, k, maxKeys, now);
    if k !in s.buckets {
      NotInRoom(s, k, maxKeys);
      AppendListed(room.buckets.Keys, room.order, k);
      assert t.buckets.Keys == room.buckets.Keys + {k};
      NewIsHealthy(k, now);
    }
    TakeKeepsSound(t.buckets[k], 1.0, now);
    assert Charge(s, k, maxKeys, now).0.buckets.Keys == t.buckets.Keys;
  }

  lemma NotInRoom(s: Store, k: Key, maxKeys: int)
    requires k !in s.buckets
    ensures k !in Room(s, k, maxKeys).buckets
  {
  }

  lemma NewIsHealthy(k: Key, now: int)
    ensures Healthy(k, New(k, now), now)
  {
  }

  lemma LaterIsFine(s: Store, keys: set<Key>, now: int, later: int)
    requires Fine(s, keys, now) && now <= later
    ensures Fine(s, keys, later)
  {
  }

  lemma PrunedIsFine(s: Store, keys: set<Key>, now: int)
    requires Fine(s, keys, now)
    ensures Fine(Pruned(s, now), keys, now)
  {
    hide Listed, Busy, Healthy;
    BusyIsListed(s, now);
  }

  // ----- Pruning is invisible -----

  /** A key the pruned map lacks would have a full bucket. */
  predicate FullIfMissing(p: Store, u: Store, now: int) {
    && p.buckets.Keys <= u.buckets.Keys
    && forall k | k in u.buckets ::
      if k in p.buckets then p.buckets[k] == u.buckets[k] else Refilled(u.buckets[k], now) == u.buckets[k].capacity
  }

  lemma FullLater(b: Bucket, now: int, later: int)
    requires Sound(b) && now <= later && Refilled(b, now) == b.capacity
    ensures Refilled(b, later) == b.capacity
  {
    GainAdds(b.rate, now - b.last, later - now);
    GainIsNotNegative(b.rate, later - now);
  }

  lemma FullLaterAll(p: Store, u: Store, keys: set<Key>, now: int, later: int)
    requires FullIfMissing(p, u, now) && Fine(u, keys, now) && now <= later
    ensures FullIfMissing(p, u, later)
  {
    hide Sound, Refilled;
    forall k | k in u.buckets && k !in p.buckets
      ensures Refilled(u.buckets[k], later) == u.buckets[k].capacity
    {
      FullLater(u.buckets[k], now, later);
    }
  }

  /** Every configured bucket fills up within a minute, so one idle for half an hour is full. */
  lemma IdleIsFull(k: Key, b: Bucket, now: int)
    requires Healthy(k, b, now) && IsIdle(b, now)
    ensures Refilled(b, now) == b.capacity
  {
    GainAdds(b.rate, 60000, now - b.last - 60000);
    GainIsNotNegative(b.rate, now - b.last - 60000);
    assert Gain(b.rate, 60000) == 60.0 * b.rate == b.capacity;
  }

  lemma TakenWhenFull(k: Key, b: Bucket, now: int)
    requires Healthy(k, b, now) && Refilled(b, now) == b.capacity
    ensures Granted(b, 1.0, now) == Granted(New(k, now), 1.0, now)
    ensures Taken(b, 1.0, now) == Taken(New(k, now), 1.0, now)
  {
    FullStaysFull(New(k, now), now);
  }

  lemma RoomAlike(p: Store, u: Store, k: Key, maxKeys: int, now: int)
    requires FullIfMissing(p, u, now) && (p.order != [] ==> Spares(p, k, p.order[0], maxKeys, now))
    ensures FullIfMissing(Room(p, k, maxKeys), u, now)
  {
    hide Refilled;
  }

  /** If nothing unrefilled is evicted, the pruned map and one with room for all keys answer a charge alike. */
  lemma ChargeAlike(p: Store, u: Store, k: Key, keys: set<Key>, maxKeys: int, big: int, now: int)
    requires Fine(p, keys, now) && Fine(u, keys, now) && FullIfMissing(p, u, now)
    requires k in keys && |keys| <= big && (p.order != [] ==> Spares(p, k, p.order[0], maxKeys, now))
    ensures Charge(p, k, maxKeys, now).1 == Charge(u, k, big, now).1
    ensures FullIfMissing(Charge(p, k, maxKeys, now).0, Charge(u, k, big, now).0, now)
  {
    hide Listed, Sound, Refilled, Capacity, Rate, Taken, Granted, WithBucket, New, RetryAfter, Room;
    WithBucketIs(p, k, maxKeys, now);
    RoomForAll(u, k, keys, big, now);
    RoomAlike(p, u, k, maxKeys, now);
    ChargeIsFine(p, k, keys, maxKeys, now);
    ChargeIsFine(u, k, keys, big, now);
    if k !in p.buckets {
      NotInRoom(p, k, maxKeys);
      if k in u.buckets {
        TakenWhenFull(k, u.buckets[k], now);
      }
    }
  }

  /** No charge of the answer evicts k before it has refilled. */
  predicate SparesAnswer(s: Store, r: Request, k: Key, maxKeys: int, now: int) {
    if r.read then
      if r.user.None? then Spares(s, ReadIp(r.ip), k, maxKeys, now)
      else
        var (t, reply) := Charge(s, ReadUser(r.user.value), maxKeys, now);
        && Spares(s, ReadUser(r.user.value), k, maxKeys, now)
        && (reply == Next ==> Spares(t, ReadIp(r.ip), k, maxKeys, now))
    else r.user.Some? ==> Spares(s, WriteUser(r.user.value), k, maxKeys, now)
  }

  predicate SparesStep(s: Store, e: Event, k: Key, maxKeys: int) {
    e.Arrival? ==> SparesAnswer(s, e.request, k, maxKeys, e.now)
  }

  /** No step of the run evicts k before it has refilled. */
  predicate SparesRun(s: Store, events: seq<Event>, k: Key, maxKeys: int)
    decreases |events|
  {
    events == [] ||
    (SparesStep(s, events[0], k, maxKeys) && SparesRun(Step(s, events[0], maxKeys, true).0, events[1..], k, maxKeys))
  }

  lemma SparesFirst(s: Store, events: seq<Event>, maxKeys: int)
    requires events != [] && forall k :: SparesRun(s, events, k, maxKeys)
    ensures forall k :: SparesStep(s, events[0], k, maxKeys)
    ensures forall k :: SparesRun(Step(s, events[0], maxKeys, true).0, events[1..], k, maxKeys)
  {
    hide SparesStep, Step;
    forall k
      ensures SparesStep(s, events[0], k, maxKeys)
      ensures SparesRun(Step(s, events[0], maxKeys, true).0, events[1..], k, maxKeys)
    {
      assert SparesRun(s, events, k, maxKeys);
    }
  }

  lemma AnswerAlike(p: Store, u: Store, r: Request, keys: set<Key>, maxKeys: int, big: int, now: int)
    requires Fine(p, keys, now) && Fine(u, keys, now) && FullIfMissing(p, u, now)
    requires Keys(r) <= keys && |keys| <= big && forall k :: SparesAnswer(p, r, k, maxKeys, now)
    ensures var (p', reply) := Answer(p, r, maxKeys, now); var (u', same) := Answer(u, r, big, now);
      reply == same && Fine(p', keys, now) && Fine(u', keys, now) && FullIfMissing(p', u', now)
  {
    hide Fine, FullIfMissing, Charge, Spares;
    assert p.order != [] ==> SparesAnswer(p, r, p.order[0], maxKeys, now);
    if r.read {
      var p', u' := p, u;
      if r.user.Some? {
        ChargeBoth(p, u, ReadUser(r.user.value), keys, maxKeys, big, now);
        p', u' := Charge(p, ReadUser(r.user.value), maxKeys, now).0, Charge(u, ReadUser(r.user.value), big, now).0;
        assert p'.order != [] ==> SparesAnswer(p, r, p'.order[0], maxKeys, now);
      }
      if r.user.None? || Charge(p, ReadUser(r.user.value), maxKeys, now).1 == Next {
        ChargeBoth(p', u', ReadIp(r.ip), keys, maxKeys, big, now);
      }
    } else if r.user.Some? {
      ChargeBoth(p, u, WriteUser(r.user.value), keys, maxKeys, big, now);
    }
  }

  lemma ChargeBoth(p: Store, u: Store, k: Key, keys: set<Key>, maxKeys: int, big: int, now: int)
    requires Fine(p, keys, now) && Fine(u, keys, now) && FullIfMissing(p, u, now)
    requires k in keys && |keys| <= big && (p.order != [] ==> Spares(p, k, p.order[0], maxKeys, now))
    ensures Charge(p, k, maxKeys, now).1 == Charge(u, k, big, now).1
    ensures FullIfMissing(Charge(p, k, maxKeys, now).0, Charge(u, k, big, now).0, now)
    ensures Fine(Charge(p, k, maxKeys, now).0, keys, now) && Fine(Charge(u, k, big, now).0, keys, now)
  {
    hide Fine, FullIfMissing, Charge, Spares;
    ChargeAlike(p, u, k, keys, maxKeys, big, now);
    ChargeIsFine(p, k, keys, maxKeys, now);
    ChargeIsFine(u, k, keys, big, now);
  }

  lemma PruneAlike(p: Store, u: Store, keys: set<Key>, now: int)
    requires Fine(p, keys, now) && FullIfMissing(p, u, now)
    ensures FullIfMissing(Pruned(p, now), u, now)
  {
    hide Listed, Busy, Refilled, IsIdle, Healthy;
    forall k | k in p.buckets && IsIdle(p.buckets[k], now)
      ensures Refilled(u.buckets[k], now) == u.buckets[k].capacity
    {
      IdleIsFull(k, p.buckets[k], now);
    }
  }

  lemma {:induction false} SameReplies(
    p: Store, u: Store, events: seq<Event>, keys: set<Key>, maxKeys: int, big: int, now: int)
    requires Fine(p, keys, now) && Fine(u, keys, now) && FullIfMissing(p, u, now)
    requires AllKeys(events) <= keys && |keys| <= big && InTime(events, now)
    requires forall k :: SparesRun(p, events, k, maxKeys)
    ensures Replies(p, events, maxKeys, true) == Replies(u, events, big, false)
    decreases |events|
  {
    hide Fine, FullIfMissing, Answer, Pruned, SparesAnswer;
    if events != [] {
      var at := events[0].now;
      SparesFirst(p, events, maxKeys);
      LaterIsFine(p, keys, now, at);
      LaterIsFine(u, keys, now, at);
      FullLaterAll(p, u, keys, now, at);
      if events[0].Arrival? {
        forall k
          ensures SparesAnswer(p, events[0].request, k, maxKeys, at)
        {
          assert SparesStep(p, events[0], k, maxKeys);
        }
        AnswerAlike(p, u, events[0].request, keys, maxKeys, big, at);
      } else {
        PrunedIsFine(p, keys, at);
        PruneAlike(p, u, keys, at);
      }
      SameReplies(Step(p, events[0], maxKeys, true).0, Step(u, events[0], big, false).0, events[1..],
                  keys, maxKeys, big, at);
    }
  }

  /**
   From start, a limiter that keeps at most maxKeys buckets and prunes whenever the timer fires gives the same
   replies, Retry-After included, as one that keeps every bucket for ever, as long as it never evicts a bucket that
   has not refilled, however many keys come and go.
   */
  lemma PruningIsInvisible(events: seq<Event>, maxKeys: int, big: int, start: int)
    requires InTime(events, start) && |AllKeys(events)| <= big && forall k :: SparesRun(EMPTY, events, k, maxKeys)
    ensures Replies(EMPTY, events, maxKeys, true) == Replies(EMPTY, events, big, false)
  {
    SameReplies(EMPTY, EMPTY, events, AllKeys(events), maxKeys, big, start);
  }

  /** In particular when the pruned map is never full when a new key comes. */
  ghost predicate NoEvictions(s: Store, events: seq<Event>, maxKeys: int)
    decreases |events|
  {
    events == [] ||
    (&& (events[0].Arrival? ==> FitsAll(s, events[0].request, maxKeys, events[0].now))
     && NoEvictions(Step(s, events[0], maxKeys, true).0, events[1..], maxKeys))
  }

  ghost predicate FitsAll(s: Store, r: Request, maxKeys: int, now: int) {
    if r.read then
      if r.user.None? then Fits(s, ReadIp(r.ip), maxKeys)
      else
        var (t, reply) := Charge(s, ReadUser(r.user.value), maxKeys, now);
        Fits(s, ReadUser(r.user.value), maxKeys) && (reply == Next ==> Fits(t, ReadIp(r.ip), maxKeys))
    else r.user.Some? ==> Fits(s, WriteUser(r.user.value), maxKeys)
  }

  lemma {:induction false} NoEvictionsSpare(s: Store, events: seq<Event>, k: Key, maxKeys: int)
    requires NoEvictions(s, events, maxKeys)
    ensures SparesRun(s, events, k, maxKeys)
    decreases |events|
  {
    hide Step, Charge;
    if events != [] {
      NoEvictionsSpare(Step(s, events[0], maxKeys, true).0, events[1..], k, maxKeys);
    }
  }
}
