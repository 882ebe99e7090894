/**
 What a key can spend in a run. A stretch takes no more of a key's tokens than its capacity plus what it refills in
 that time, unless the map evicts that very key's bucket before it has refilled; whatever happens to all other keys
 does not matter. And whenever such a bucket is evicted, a burst right after breaks the bound.
 */
module RateLimitBudget {
  import opened Wrappers
  import opened TokenBuckets
  import opened RateLimit
  import opened RateLimitRuns

  // ----- Runs -----

  /** The store after a run. */
  function After(s: Store, events: seq<Event>, maxKeys: int): Store
    decreases |events|
  {
    if events == [] then s else After(Step(s, events[0], maxKeys, true).0, events[1..], maxKeys)
  }

  function LastTime(events: seq<Event>, from: int): int {
    if events == [] then from else events[|events| - 1].now
  }

  /** How many requests that the key pays for were let through. */
  function LetThrough(s: Store, events: seq<Event>, maxKeys: int, k: Key): nat
    decreases |events|
  {
    if events == [] then 0
    else
      var (t, reply) := Step(s, events[0], maxKeys, true);
      (if events[0].Arrival? && k in Keys(events[0].request) && reply == Some(Next) then 1 else 0)
      + LetThrough(t, events[1..], maxKeys, k)
  }

  /** Whether a request takes a token of k: a user's reads pay first, even if the address then refuses. */
  predicate Takes(s: Store, r: Request, k: Key, maxKeys: int, now: int) {
    && k in Keys(r)
    && (if k.ReadUser? then Charge(s, k, maxKeys, now).1 else Answer(s, r, maxKeys, now).1) == Next
  }

  predicate TakesOne(s: Store, e: Event, k: Key, maxKeys: int) {
    e.Arrival? && Takes(s, e.request, k, maxKeys, e.now)
  }

  /** How many tokens of k the run takes. */
  function TokensTaken(s: Store, events: seq<Event>, maxKeys: int, k: Key): nat
    decreases |events|
  {
    if events == [] then 0
    else
      (if TakesOne(s, events[0], k, maxKeys) then 1 else 0)
      + TokensTaken(Step(s, events[0], maxKeys, true).0, events[1..], maxKeys, k)
  }

  /** A request let through has taken a token; only a user's reads can take one and be refused. */
  lemma {:induction false} LetThroughIsTaken(s: Store, events: seq<Event>, maxKeys: int, k: Key)
    ensures LetThrough(s, events, maxKeys, k) <= TokensTaken(s, events, maxKeys, k)
    ensures !k.ReadUser? ==> LetThrough(s, events, maxKeys, k) == TokensTaken(s, events, maxKeys, k)
    decreases |events|
  {
    hide Charge;
    if events != [] {
      LetThroughIsTaken(Step(s, events[0], maxKeys, true).0, events[1..], maxKeys, k);
    }
  }

  // ----- What a key can spend -----

  /** A key without a bucket has a full one to come. */
  function Level(s: Store, k: Key, now: int): real {
    if k in s.buckets then Refilled(s.buckets[k], now) else Capacity(k)
  }

  lemma LevelIsNotNegative(s: Store, k: Key, keys: set<Key>, now: int)
    requires Fine(s, keys, now)
    ensures 0.0 <= Level(s, k, now) <= Capacity(k)
  {
    hide Listed;
    if k in s.buckets {
      GainIsNotNegative(Rate(k), now - s.buckets[k].last);
    }
  }

  /** Waiting refills, up to the capacity. */
  lemma WaitingGains(s: Store, k: Key, keys: set<Key>, now: int, later: int)
    requires Fine(s, keys, now) && now <= later
    ensures Level(s, k, later) == Least(Capacity(k), Level(s, k, now) + Gain(Rate(k), later - now))
  {
    hide Listed;
    GainIsNotNegative(Rate(k), later - now);
    if k in s.buckets {
      GainAdds(Rate(k), now - s.buckets[k].last, later - now);
    }
  }

  lemma RoomLevel(s: Store, k: Key, j: Key, keys: set<Key>, maxKeys: int, now: int)
    requires Fine(s, keys, now)
    ensures var level := Level(Room(s, k, maxKeys), j, now);
      if Spares(s, k, j, maxKeys, now) then level == Level(s, j, now)
      else k !in s.buckets && j != k && level == Capacity(j) > Level(s, j, now)
  {
    hide Listed;
    LevelIsNotNegative(s, j, keys, now);
    if s.order != [] {
      assert s.order[0] in s.buckets by {
        OldestIsThere(s);
      }
    }
  }

  lemma OldestIsThere(s: Store)
    requires Listed(s.buckets.Keys, s.order) && s.order != []
    ensures s.order[0] in s.buckets
  {
    assert s.order[0] in s.order;
  }

  function One(taken: bool): real {
    if taken then 1.0 else 0.0
  }

  /**
   A charge takes one token of its key if it is granted, and of no other key; only an eviction of an unrefilled bucket
   adds to what another key can spend.
   */
  lemma ChargeLevel(s: Store, k: Key, j: Key, keys: set<Key>, maxKeys: int, now: int)
    requires Fine(s, keys, now) && k in keys
    ensures var (t, reply) := Charge(s, k, maxKeys, now);
      && Fine(t, keys, now)
      && (reply == Next <==> Level(s, k, now) >= 1.0)
      && if Spares(s, k, j, maxKeys, now) then Level(t, j, now) == Level(s, j, now) - One(j == k && reply == Next)
         else j != k && Level(t, j, now) == Capacity(j) > Level(s, j, now)
  {
    hide Listed, WithBucket, Room, Spares, Gain;
    RoomLevel(s, k, j, keys, maxKeys, now);
    RoomLevel(s, k, k, keys, maxKeys, now);
    WithBucketIs(s, k, maxKeys, now);
    ChargeIsFine(s, k, keys, maxKeys, now);
    GainIsZero(Rate(k));
    LevelIsNotNegative(s, k, keys, now);
    if k !in s.buckets {
      NotInRoom(s, k, maxKeys);
    }
  }

  /** So does a request, which takes at most one token of a key. */
  lemma AnswerLevel(s: Store, r: Request, k: Key, keys: set<Key>, maxKeys: int, now: int)
    requires Fine(s, keys, now) && Keys(r) <= keys
    ensures var t, taken := Answer(s, r, maxKeys, now).0, One(Takes(s, r, k, maxKeys, now));
      && Fine(t, keys, now)
      && if SparesAnswer(s, r, k, maxKeys, now) then Level(t, k, now) + taken == Level(s, k, now)
         else Level(t, k, now) + taken > Level(s, k, now) && Level(t, k, now) in {Capacity(k), Capacity(k) - 1.0}
  {
    hide Fine, Charge, Level, Spares, Capacity;
    LevelIsNotNegative(s, k, keys, now);
    CapacityIsOne(k);
    if r.read {
      var t := s;
      if r.user.Some? {
        ChargeLevel(s, ReadUser(r.user.value), k, keys, maxKeys, now);
        ChargeLevel(s, ReadUser(r.user.value), ReadIp(r.ip), keys, maxKeys, now);
        t := Charge(s, ReadUser(r.user.value), maxKeys, now).0;
      }
      if r.user.None? || Charge(s, ReadUser(r.user.value), maxKeys, now).1 == Next {
        ChargeLevel(t, ReadIp(r.ip), k, keys, maxKeys, now);
        LevelIsNotNegative(Charge(t, ReadIp(r.ip), maxKeys, now).0, k, keys, now);
      }
    } else if r.user.Some? {
      ChargeLevel(s, WriteUser(r.user.value), k, keys, maxKeys, now);
    }
  }

  lemma CapacityIsOne(k: Key)
    ensures Capacity(k) >= 1.0
  {
  }

  /** Pruning costs nobody anything. */
  lemma PrunedLevel(s: Store, k: Key, keys: set<Key>, now: int)
    requires Fine(s, keys, now)
    ensures Level(Pruned(s, now), k, now) == Level(s, k, now)
  {
    hide Listed, Busy, Refilled, Healthy, IsIdle;
    if k in s.buckets && IsIdle(s.buckets[k], now) {
      IdleIsFull(k, s.buckets[k], now);
      HealthyCapacity(k, s.buckets[k], now);
    }
  }

  lemma HealthyCapacity(k: Key, b: Bucket, now: int)
    requires Healthy(k, b, now)
    ensures b.capacity == Capacity(k)
  {
  }

  ghost predicate EventKeys(e: Event, keys: set<Key>) {
    e.Arrival? ==> Keys(e.request) <= keys
  }

  /** What a step takes from a key's level, if it spares the key; and what an eviction makes of it. */
  lemma StepLevel(s: Store, e: Event, k: Key, keys: set<Key>, maxKeys: int, now: int)
    requires Fine(s, keys, now) && EventKeys(e, keys) && now <= e.now
    ensures var t, taken := Step(s, e, maxKeys, true).0, One(TakesOne(s, e, k, maxKeys));
      && Fine(s, keys, e.now) && Fine(t, keys, e.now)
      && if SparesStep(s, e, k, maxKeys) then Level(t, k, e.now) + taken == Level(s, k, e.now)
         else Level(t, k, e.now) + taken > Level(s, k, e.now) && Level(t, k, e.now) in {Capacity(k), Capacity(k) - 1.0}
  {
    hide Fine, Answer, Pruned, Keys, Level, SparesAnswer, Capacity, Takes;
    LaterIsFine(s, keys, now, e.now);
    if e.Arrival? {
      AnswerLevel(s, e.request, k, keys, maxKeys, e.now);
    } else {
      PrunedIsFine(s, keys, e.now);
      PrunedLevel(s, k, keys, e.now);
    }
  }

  // ----- Every key keeps to its budget -----

  lemma {:induction false} SpendsAtMost(
    s: Store, events: seq<Event>, k: Key, keys: set<Key>, maxKeys: int, now: int)
    requires Fine(s, keys, now) && AllKeys(events) <= keys && InTime(events, now) && SparesRun(s, events, k, maxKeys)
    ensures TokensTaken(s, events, maxKeys, k) as real
      <= Level(s, k, now) + Gain(Rate(k), LastTime(events, now) - now)
    decreases |events|
  {
    hide Fine, Step, Gain, Keys, SparesStep, TakesOne, Level;
    if events == [] {
      GainIsZero(Rate(k));
      LevelIsNotNegative(s, k, keys, now);
    } else {
      var at := events[0].now;
      WaitingGains(s, k, keys, now, at);
      StepLevel(s, events[0], k, keys, maxKeys, now);
      SpendsAtMost(Step(s, events[0], maxKeys, true).0, events[1..], k, keys, maxKeys, at);
      GainAdds(Rate(k), at - now, LastTime(events, now) - at);
      assert LastTime(events, now) == LastTime(events[1..], at);
    }
  }

  lemma {:induction false} RunIsFine(s: Store, events: seq<Event>, keys: set<Key>, maxKeys: int, now: int)
    requires Fine(s, keys, now) && AllKeys(events) <= keys && InTime(events, now)
    ensures Fine(After(s, events, maxKeys), keys, LastTime(events, now)) && now <= LastTime(events, now)
    decreases |events|
  {
    hide Fine, Step, Keys, Level;
    if events != [] {
      var at := events[0].now;
      StepLevel(s, events[0], ReadIp(""), keys, maxKeys, now);
      RunIsFine(Step(s, events[0], maxKeys, true).0, events[1..], keys, maxKeys, at);
      assert LastTime(events, now) == LastTime(events[1..], at);
    }
  }

  /** What a key may spend in a stretch: its capacity, and what it refills in that time. */
  function Budget(events: seq<Event>, k: Key): real
    requires events != []
  {
    Capacity(k) + Gain(Rate(k), LastTime(events, 0) - events[0].now)
  }

  /**
   In any stretch of any run, with pruning and with whatever went before, a key spends at most its budget as long as
   the stretch does not evict this key's own bucket before it has refilled. Other keys' evictions do not matter.
   */
  lemma BudgetKept(earlier: seq<Event>, events: seq<Event>, k: Key, maxKeys: int, start: int)
    requires InTime(earlier, start) && events != [] && InTime(events, LastTime(earlier, start))
    requires SparesRun(After(EMPTY, earlier, maxKeys), events, k, maxKeys)
    ensures var s := After(EMPTY, earlier, maxKeys);
      LetThrough(s, events, maxKeys, k) as real <= TokensTaken(s, events, maxKeys, k) as real <= Budget(events, k)
  {
    hide LetThrough, TokensTaken, After, Gain, SparesRun;
    var keys := AllKeys(earlier) + AllKeys(events);
    var s := After(EMPTY, earlier, maxKeys);
    RunIsFine(EMPTY, earlier, keys, maxKeys, start);
    LaterIsFine(s, keys, LastTime(earlier, start), events[0].now);
    SpendsAtMost(s, events, k, keys, maxKeys, events[0].now);
    LevelIsNotNegative(s, k, keys, events[0].now);
    LetThroughIsTaken(s, events, maxKeys, k);
  }

  // ----- Runs in two parts -----

  lemma {:induction false} InTwo(s: Store, a: seq<Event>, b: seq<Event>, maxKeys: int, k: Key)
    ensures After(s, a + b, maxKeys) == After(After(s, a, maxKeys), b, maxKeys)
    ensures TokensTaken(s, a + b, maxKeys, k) ==
      TokensTaken(s, a, maxKeys, k) + TokensTaken(After(s, a, maxKeys), b, maxKeys, k)
    ensures SparesRun(s, a + b, k, maxKeys) <==>
      SparesRun(s, a, k, maxKeys) && SparesRun(After(s, a, maxKeys), b, k, maxKeys)
    decreases |a|
  {
    hide Step, TakesOne, SparesStep;
    if a == [] {
      assert a + b == b;
    } else {
      assert (a + b)[1..] == a[1..] + b;
      InTwo(Step(s, a[0], maxKeys, true).0, a[1..], b, maxKeys, k);
    }
  }

  lemma {:induction false} TimeInTwo(a: seq<Event>, b: seq<Event>, from: int)
    ensures InTime(a + b, from) <==> InTime(a, from) && InTime(b, LastTime(a, from))
    ensures AllKeys(a + b) == AllKeys(a) + AllKeys(b)
    ensures LastTime(a + b, from) == LastTime(b, LastTime(a, from))
    decreases |a|
  {
    if a == [] {
      assert a + b == b;
    } else {
      assert (a + b)[1..] == a[1..] + b;
      TimeInTwo(a[1..], b, a[0].now);
      assert LastTime(a, from) == LastTime(a[1..], a[0].now);
      assert LastTime(a + b, from) == LastTime((a + b)[1..], a[0].now);
    }
  }

  // ----- Bursts -----

  /** A request that is charged to k first; one for a user's reads is charged to an address too. */
  function Asking(k: Key, ip: string): (r: Request)
    ensures k in Keys(r)
  {
    match k
    case ReadUser(user) => Request(true, Some(user), ip)
    case ReadIp(address) => Request(true, None, address)
    case WriteUser(user) => Request(false, Some(user), ip)
  }

  function Repeated(r: Request, n: nat, now: int): seq<Event> {
    if n == 0 then [] else [Arrival(r, now)] + Repeated(r, n - 1, now)
  }

  lemma {:induction false} RepeatedAtOnce(r: Request, n: nat, now: int)
    ensures InTime(Repeated(r, n, now), now) && LastTime(Repeated(r, n, now), now) == now
    ensures AllKeys(Repeated(r, n, now)) <= Keys(r)
    decreases n
  {
    hide Keys;
    if n > 0 {
      var rest := Repeated(r, n - 1, now);
      assert Repeated(r, n, now)[1..] == rest;
      RepeatedAtOnce(r, n - 1, now);
      assert LastTime(Repeated(r, n, now), now) == LastTime(rest, now);
    }
  }

  lemma AskingTakes(s: Store, k: Key, ip: string, keys: set<Key>, maxKeys: int, now: int)
    requires Fine(s, keys, now) && Keys(Asking(k, ip)) <= keys
    ensures Takes(s, Asking(k, ip), k, maxKeys, now) <==> Level(s, k, now) >= 1.0
  {
    hide Fine, Charge, Level, Spares;
    ChargeLevel(s, k, k, keys, maxKeys, now);
  }

  /** As many requests at once as a key has tokens take them all, whatever is evicted meanwhile. */
  lemma {:induction false} BurstTakes(s: Store, k: Key, ip: string, n: nat, keys: set<Key>, maxKeys: int, now: int)
    requires Fine(s, keys, now) && Keys(Asking(k, ip)) <= keys && Level(s, k, now) >= n as real
    ensures TokensTaken(s, Repeated(Asking(k, ip), n, now), maxKeys, k) == n
    decreases n
  {
    hide Fine, Level, Step, Takes, Asking, Keys, SparesStep, Capacity;
    if n > 0 {
      var events := Repeated(Asking(k, ip), n, now);
      AskingTakes(s, k, ip, keys, maxKeys, now);
      StepLevel(s, events[0], k, keys, maxKeys, now);
      assert events[1..] == Repeated(Asking(k, ip), n - 1, now);
      BurstTakes(Step(s, events[0], maxKeys, true).0, k, ip, n - 1, keys, maxKeys, now);
    }
  }

  // ----- An eviction breaks the bound -----

  function StartOf(events: seq<Event>, i: nat, now: int): int {
    if i < |events| then events[i].now else now
  }

  /** While a key is spared, some stretch up to now has taken all that is missing from what the key could spend. */
  lemma {:induction false} TightStretch(
    events: seq<Event>, k: Key, keys: set<Key>, maxKeys: int, start: int, now: int) returns (i: nat)
    requires InTime(events, start) && LastTime(events, start) <= now && AllKeys(events) <= keys
    requires SparesRun(EMPTY, events, k, maxKeys)
    ensures i <= |events|
    ensures TokensTaken(After(EMPTY, events[..i], maxKeys), events[i..], maxKeys, k) as real
      == Capacity(k) + Gain(Rate(k), now - StartOf(events, i, now)) - Level(After(EMPTY, events, maxKeys), k, now)
    decreases |events|
  {
    hide Fine, Step, Gain, Keys, SparesStep, TakesOne, Capacity, TokensTaken, After, SparesRun, Level;
    i := |events|;
    var s := After(EMPTY, events, maxKeys);
    if Level(s, k, now) == Capacity(k) {
      GainIsZero(Rate(k));
      assert events[i..] == [];
      NoneTaken(After(EMPTY, events[..i], maxKeys), maxKeys, k);
    } else {
      if events == [] {
        EmptyIsFull(k, maxKeys, now);
      }
      var n := |events| - 1;
      var front, e := events[..n], events[n];
      assert events == front + [e];
      TimeInTwo(front, [e], start);
      InTwo(EMPTY, front, [e], maxKeys, k);
      i := TightStretch(front, k, keys, maxKeys, start, e.now);
      var before := After(EMPTY, front, maxKeys);
      EmptyIsFine(keys, start);
      RunIsFine(EMPTY, front, keys, maxKeys, start);
      OneStep(before, e, maxKeys, k);
      StepLevel(before, e, k, keys, maxKeys, LastTime(front, start));
      WaitingGains(s, k, keys, e.now, now);
      assert events[..i] == front[..i] && events[i..] == front[i..] + [e];
      assert front == front[..i] + front[i..];
      InTwo(EMPTY, front[..i], front[i..], maxKeys, k);
      InTwo(After(EMPTY, front[..i], maxKeys), front[i..], [e], maxKeys, k);
      GainAdds(Rate(k), e.now - StartOf(front, i, e.now), now - e.now);
    }
  }

  lemma NoneTaken(s: Store, maxKeys: int, k: Key)
    ensures TokensTaken(s, [], maxKeys, k) == 0
  {
  }

  lemma EmptyIsFull(k: Key, maxKeys: int, now: int)
    ensures Level(After(EMPTY, [], maxKeys), k, now) == Capacity(k)
  {
  }

  lemma EmptyIsFine(keys: set<Key>, now: int)
    ensures Fine(EMPTY, keys, now)
  {
  }

  lemma OneStep(s: Store, e: Event, maxKeys: int, k: Key)
    ensures After(s, [e], maxKeys) == Step(s, e, maxKeys, true).0
    ensures TokensTaken(s, [e], maxKeys, k) == if TakesOne(s, e, k, maxKeys) then 1 else 0
    ensures SparesRun(s, [e], k, maxKeys) <==> SparesStep(s, e, k, maxKeys)
  {
    hide Step, TakesOne, SparesStep;
    assert [e][1..] == [];
    assert After(Step(s, e, maxKeys, true).0, [], maxKeys) == Step(s, e, maxKeys, true).0;
  }

  lemma {:induction false} FirstUnspared(s: Store, events: seq<Event>, k: Key, maxKeys: int) returns (p: nat)
    requires !SparesRun(s, events, k, maxKeys)
    ensures p < |events| && SparesRun(s, events[..p], k, maxKeys)
    ensures !SparesStep(After(s, events[..p], maxKeys), events[p], k, maxKeys)
    decreases |events|
  {
    hide Step, SparesStep;
    p := 0;
    if SparesStep(s, events[0], k, maxKeys) {
      var rest := FirstUnspared(Step(s, events[0], maxKeys, true).0, events[1..], k, maxKeys);
      p := rest + 1;
      assert events[..p][1..] == events[1..][..rest];
    } else {
      assert events[..0] == [];
    }
  }

  /** The first p events of a run and then, at the time of the last, n requests of k. */
  function Probed(events: seq<Event>, p: nat, k: Key, ip: string, n: nat, start: int): seq<Event>
    requires p <= |events|
  {
    events[..p] + Repeated(Asking(k, ip), n, LastTime(events[..p], start))
  }

  /** The stretch of a run from its event i on takes no more than k's budget. */
  predicate Keeps(run: seq<Event>, i: nat, k: Key, maxKeys: int)
    requires i < |run|
  {
    TokensTaken(After(EMPTY, run[..i], maxKeys), run[i..], maxKeys, k) as real <= Budget(run[i..], k)
  }

  /**
   If a run evicts a key before it has refilled, then a burst of requests right after that eviction takes more than the
   key's budget in some stretch, whichever the key.
   */
  lemma EvictionBreaksBudget(events: seq<Event>, k: Key, ip: string, maxKeys: int, start: int)
    returns (p: nat, n: nat, i: nat)
    requires InTime(events, start) && !SparesRun(EMPTY, events, k, maxKeys)
    ensures p <= |events| && i < |Probed(events, p, k, ip, n, start)|
    ensures !Keeps(Probed(events, p, k, ip, n, start), i, k, maxKeys)
  {
    hide Fine, Step, Gain, Keys, SparesStep, TakesOne, TokensTaken, After, SparesRun, Level, InTime, LastTime;
    hide Capacity, EventKeys, Repeated, AllKeys;
    var at := FirstUnspared(EMPTY, events, k, maxKeys);
    var front, e := events[..at], events[at];
    p := at + 1;
    var keys := AllKeys(events[..p]) + Keys(Asking(k, ip));
    PrefixInTime(events, at, start);
    EventKeysGrow(e, AllKeys(events[..p]), keys);
    i := TightStretch(front, k, keys, maxKeys, start, e.now);
    n := BurstAfter(front, e, k, ip, keys, maxKeys, start);
    var more := [e] + Repeated(Asking(k, ip), n, e.now);
    var run := Probed(events, p, k, ip, n, start);
    assert run == front + more && run[..i] == front[..i] && run[i..] == front[i..] + more;
    InTwo(EMPTY, front[..i], front[i..], maxKeys, k);
    assert front == front[..i] + front[i..];
    InTwo(After(EMPTY, front[..i], maxKeys), front[i..], more, maxKeys, k);
    ProbeEnds(front[i..], e, Asking(k, ip), n);
  }

  lemma EventKeysGrow(e: Event, keys: set<Key>, all: set<Key>)
    requires EventKeys(e, keys) && keys <= all
    ensures EventKeys(e, all)
  {
  }

  /** The step that evicts, and a burst after it, take more together than the key could spend before. */
  lemma BurstAfter(front: seq<Event>, e: Event, k: Key, ip: string, keys: set<Key>, maxKeys: int, start: int)
    returns (n: nat)
    requires InTime(front, start) && LastTime(front, start) <= e.now && AllKeys(front) <= keys
    requires EventKeys(e, keys) && Keys(Asking(k, ip)) <= keys
    requires !SparesStep(After(EMPTY, front, maxKeys), e, k, maxKeys)
    ensures var s, more := After(EMPTY, front, maxKeys), [e] + Repeated(Asking(k, ip), n, e.now);
      TokensTaken(s, more, maxKeys, k) as real > Level(s, k, e.now)
  {
    hide Fine, Step, Keys, SparesStep, TakesOne, TokensTaken, After, SparesRun, Level, InTime, LastTime, EventKeys;
    var s := After(EMPTY, front, maxKeys);
    EmptyIsFine(keys, start);
    RunIsFine(EMPTY, front, keys, maxKeys, start);
    StepLevel(s, e, k, keys, maxKeys, LastTime(front, start));
    var t := Step(s, e, maxKeys, true).0;
    n := WholeLevel(t, k, e.now);
    BurstTakes(t, k, ip, n, keys, maxKeys, e.now);
    OneStep(s, e, maxKeys, k);
    InTwo(s, [e], Repeated(Asking(k, ip), n, e.now), maxKeys, k);
  }

  lemma WholeLevel(s: Store, k: Key, now: int) returns (n: nat)
    requires Level(s, k, now) in {Capacity(k), Capacity(k) - 1.0}
    ensures Level(s, k, now) == n as real
  {
    hide Level;
    n := Level(s, k, now).Floor;
  }

  lemma PrefixInTime(events: seq<Event>, at: nat, start: int)
    requires InTime(events, start) && at < |events|
    ensures InTime(events[..at], start) && LastTime(events[..at], start) <= events[at].now
    ensures LastTime(events[..at + 1], start) == events[at].now
    ensures AllKeys(events[..at]) <= AllKeys(events[..at + 1]) && EventKeys(events[at], AllKeys(events[..at + 1]))
  {
    hide Keys;
    var front, rest := events[..at], events[at..];
    assert events == front + rest && rest[0] == events[at] && events[..at + 1] == front + [events[at]];
    TimeInTwo(front, rest, start);
    TimeInTwo(front, [events[at]], start);
    assert AllKeys([events[at]]) == (if events[at].Arrival? then Keys(events[at].request) else {}) + AllKeys([]);
  }

  lemma ProbeEnds(stretch: seq<Event>, e: Event, r: Request, n: nat)
    ensures LastTime(stretch + ([e] + Repeated(r, n, e.now)), 0) == e.now
    ensures (stretch + ([e] + Repeated(r, n, e.now)))[0].now == StartOf(stretch, 0, e.now)
  {
    TimeInTwo(stretch, [e] + Repeated(r, n, e.now), 0);
    TimeInTwo([e], Repeated(r, n, e.now), LastTime(stretch, 0));
    RepeatedAtOnce(r, n, e.now);
  }

  /** A burst of writes or of an address's reads charges one key only, which never evicts itself. */
  lemma {:induction false} BurstSpares(s: Store, k: Key, ip: string, n: nat, keys: set<Key>, maxKeys: int, now: int)
    requires Fine(s, keys, now) && Keys(Asking(k, ip)) <= keys && !k.ReadUser?
    ensures SparesRun(s, Repeated(Asking(k, ip), n, now), k, maxKeys)
    decreases n
  {
    hide Fine, Spares, Level, Charge, Step;
    if n > 0 {
      var events := Repeated(Asking(k, ip), n, now);
      ChargeLevel(s, k, k, keys, maxKeys, now);
      StepLevel(s, events[0], k, keys, maxKeys, now);
      assert events[1..] == Repeated(Asking(k, ip), n - 1, now);
      BurstSpares(Step(s, events[0], maxKeys, true).0, k, ip, n - 1, keys, maxKeys, now);
    }
  }

  /** While a run spares a key, no burst after any part of it breaks the key's budget in any stretch. */
  lemma SparedKeepsBudget(events: seq<Event>, p: nat, k: Key, ip: string, n: nat, i: nat, maxKeys: int, start: int)
    requires InTime(events, start) && !k.ReadUser? && SparesRun(EMPTY, events, k, maxKeys)
    requires p <= |events| && i < |Probed(events, p, k, ip, n, start)|
    ensures Keeps(Probed(events, p, k, ip, n, start), i, k, maxKeys)
  {
    hide Fine, Gain, Keys, TokensTaken, After, SparesRun, InTime, LastTime, Repeated;
    var front, last := events[..p], LastTime(events[..p], start);
    var burst := Repeated(Asking(k, ip), n, last);
    var run := front + burst;
    var keys := AllKeys(front) + Keys(Asking(k, ip));
    assert events == front + events[p..] && run == run[..i] + run[i..];
    TimeInTwo(front, events[p..], start);
    InTwo(EMPTY, front, events[p..], maxKeys, k);
    RepeatedAtOnce(Asking(k, ip), n, last);
    TimeInTwo(front, burst, start);
    EmptyIsFine(keys, start);
    RunIsFine(EMPTY, front, keys, maxKeys, start);
    BurstSpares(After(EMPTY, front, maxKeys), k, ip, n, keys, maxKeys, last);
    InTwo(EMPTY, front, burst, maxKeys, k);
    TimeInTwo(run[..i], run[i..], start);
    InTwo(EMPTY, run[..i], run[i..], maxKeys, k);
    BudgetKept(run[..i], run[i..], k, maxKeys, start);
  }

  /**
   The exact condition for writes and for reads by address, whose tokens are the requests let through: a key keeps to
   its budget in every stretch of a run, and of every burst that could follow a part of it, if and only if the run
   never evicts this key's bucket before it has refilled.
   */
  lemma BudgetKeptExactly(events: seq<Event>, k: Key, ip: string, maxKeys: int, start: int)
    requires InTime(events, start) && !k.ReadUser?
    ensures SparesRun(EMPTY, events, k, maxKeys) <==>
      forall p: nat, n: nat, i: nat | p <= |events| && i < |Probed(events, p, k, ip, n, start)| ::
        Keeps(Probed(events, p, k, ip, n, start), i, k, maxKeys)
  {
    hide SparesRun, Keeps, Probed, InTime;
    if SparesRun(EMPTY, events, k, maxKeys) {
      forall p: nat, n: nat, i: nat | p <= |events| && i < |Probed(events, p, k, ip, n, start)|
        ensures Keeps(Probed(events, p, k, ip, n, start), i, k, maxKeys)
      {
        SparedKeepsBudget(events, p, k, ip, n, i, maxKeys, start);
      }
    } else {
      var p, n, i := EvictionBreaksBudget(events, k, ip, maxKeys, start);
    }
  }
}
