/**
 What an eviction does when the bucket it throws away has not refilled: requests can be found whose replies give it
 away, and a client can spend its budget twice.
 */
module RateLimitEviction {
  import opened Wrappers
  import opened TokenBuckets
  import opened RateLimit
  import opened RateLimitRuns
  import opened RateLimitBudget

  function AllNext(n: nat): seq<Option<Reply>> {
    if n == 0 then [] else [Some(Next)] + AllNext(n - 1)
  }

  lemma AskingPasses(s: Store, k: Key, ip: string, keys: set<Key>, maxKeys: int, now: int)
    requires Fine(s, keys, now) && Keys(Asking(k, ip)) <= keys
    requires Level(s, k, now) >= 1.0 && (k.ReadUser? ==> Level(s, ReadIp(ip), now) >= 1.0)
    ensures var (t, reply) := Answer(s, Asking(k, ip), maxKeys, now);
      && reply == Next && Fine(t, keys, now)
      && Level(t, k, now) >= Level(s, k, now) - 1.0
      && (k.ReadUser? ==> Level(t, ReadIp(ip), now) >= Level(s, ReadIp(ip), now) - 1.0)
  {
    hide Fine, Charge, Level, Spares;
    ChargeLevel(s, k, k, keys, maxKeys, now);
    if k.ReadUser? {
      var t := Charge(s, k, maxKeys, now).0;
      ChargeLevel(s, k, ReadIp(ip), keys, maxKeys, now);
      ChargeLevel(t, ReadIp(ip), k, keys, maxKeys, now);
      ChargeLevel(t, ReadIp(ip), ReadIp(ip), keys, maxKeys, now);
    }
  }

  /** As many requests at once as there are tokens all pass, whatever is evicted meanwhile. */
  lemma {:induction false} AllPass(s: Store, k: Key, ip: string, n: nat, keys: set<Key>, maxKeys: int, now: int)
    requires Fine(s, keys, now) && Keys(Asking(k, ip)) <= keys
    requires Level(s, k, now) >= n as real && (k.ReadUser? ==> Level(s, ReadIp(ip), now) >= n as real)
    ensures Replies(s, Repeated(Asking(k, ip), n, now), maxKeys, true) == AllNext(n)
    decreases n
  {
    hide Fine, Level, Answer, Asking, Keys;
    if n > 0 {
      var events := Repeated(Asking(k, ip), n, now);
      AskingPasses(s, k, ip, keys, maxKeys, now);
      assert events[1..] == Repeated(Asking(k, ip), n - 1, now);
      AllPass(Answer(s, Asking(k, ip), maxKeys, now).0, k, ip, n - 1, keys, maxKeys, now);
    }
  }

  /** A map with room for all keys spares them all. */
  lemma RoomSpares(s: Store, r: Request, k: Key, keys: set<Key>, big: int, now: int)
    requires Fine(s, keys, now) && Keys(r) <= keys && |keys| <= big
    ensures SparesAnswer(s, r, k, big, now)
  {
    hide Listed, Charge, Healthy;
    RoomFits(s, keys, big);
    if r.read && r.user.Some? {
      ChargeLevel(s, ReadUser(r.user.value), k, keys, big, now);
      RoomFits(Charge(s, ReadUser(r.user.value), big, now).0, keys, big);
    }
  }

  lemma RoomFits(s: Store, keys: set<Key>, big: int)
    requires Listed(s.buckets.Keys, s.order) && s.buckets.Keys <= keys && |keys| <= big
    ensures forall k | k in keys :: Fits(s, k, big)
  {
    forall k | k in keys
      ensures Fits(s, k, big)
    {
      if k !in s.buckets {
        NoMoreThan(s.order, keys - {k});
      }
    }
  }

  /** With fewer tokens than requests, and no eviction, not all of them pass. */
  lemma {:induction false} NotAllPass(s: Store, k: Key, ip: string, n: nat, keys: set<Key>, big: int, now: int)
    requires Fine(s, keys, now) && Keys(Asking(k, ip)) <= keys && |keys| <= big && Level(s, k, now) < n as real
    ensures Replies(s, Repeated(Asking(k, ip), n, now), big, false) != AllNext(n)
    decreases n
  {
    hide Fine, Level, Answer, Asking, Keys, Takes, SparesAnswer;
    LevelIsNotNegative(s, k, keys, now);
    var r, events := Asking(k, ip), Repeated(Asking(k, ip), n, now);
    var (t, reply) := Answer(s, r, big, now);
    RoomSpares(s, r, k, keys, big, now);
    AnswerLevel(s, r, k, keys, big, now);
    if reply == Next {
      NextTakes(s, r, k, big, now);
    }
    assert events[1..] == Repeated(r, n - 1, now);
    if reply == Next {
      NotAllPass(t, k, ip, n - 1, keys, big, now);
      assert AllNext(n)[1..] == AllNext(n - 1);
    } else {
      assert Replies(s, events, big, false)[0] == Some(reply);
    }
  }

  lemma NextTakes(s: Store, r: Request, k: Key, maxKeys: int, now: int)
    requires k in Keys(r) && Answer(s, r, maxKeys, now).1 == Next
    ensures Takes(s, r, k, maxKeys, now)
  {
    hide Charge;
  }

  /** An address that none of the keys is about. */
  lemma LongAddress(keys: set<Key>) returns (ip: string)
    ensures forall k | k in keys && k.ReadIp? :: |k.ip| < |ip|
    decreases |keys|
  {
    ip := "x";
    if keys != {} {
      var k :| k in keys;
      ip := LongAddress(keys - {k});
      if k.ReadIp? && |k.ip| >= |ip| {
        ip := k.ip + "x";
      }
    }
  }

  lemma FreshLevel(s: Store, ip: string, keys: set<Key>, now: int)
    requires Fine(s, keys, now) && forall k | k in keys && k.ReadIp? :: |k.ip| < |ip|
    ensures ReadIp(ip) !in keys && Level(s, ReadIp(ip), now) == 600.0
  {
  }

  lemma MoreKeysFine(s: Store, keys: set<Key>, all: set<Key>, now: int)
    requires Fine(s, keys, now) && keys <= all
    ensures Fine(s, all, now)
  {
  }

  /** A key that can spend more here than there is told by as many requests as it can pay here. */
  lemma Probe(p: Store, u: Store, k: Key, n: nat, keys: set<Key>, maxKeys: int, big: int, now: int)
    returns (more: seq<Event>)
    requires Fine(p, keys, now) && Fine(u, keys, now) && k in keys && |keys| < big
    requires Level(u, k, now) < n as real <= Level(p, k, now)
    ensures InTime(more, now) && Replies(p, more, maxKeys, true) != Replies(u, more, big, false)
  {
    hide Charge, Level, Fine, Replies, Repeated, InTime;
    var ip := LongAddress(keys);
    var all := keys + {ReadIp(ip)};
    FreshLevel(p, ip, keys, now);
    MoreKeysFine(p, keys, all, now);
    MoreKeysFine(u, keys, all, now);
    LevelIsNotNegative(p, k, keys, now);
    assert Keys(Asking(k, ip)) <= all;
    AllPass(p, k, ip, n, all, maxKeys, now);
    NotAllPass(u, k, ip, n, all, big, now);
    more := Repeated(Asking(k, ip), n, now);
    RepeatedAtOnce(Asking(k, ip), n, now);
  }

  lemma LevelsAlike(p: Store, u: Store, k: Key, keys: set<Key>, now: int)
    requires Fine(p, keys, now) && Fine(u, keys, now) && FullIfMissing(p, u, now)
    ensures Level(p, k, now) == Level(u, k, now)
  {
    hide Refilled;
  }

  /** With the same levels and the same reply, the same tokens are taken. */
  lemma TakesAlike(p: Store, u: Store, r: Request, k: Key, keys: set<Key>, maxKeys: int, big: int, now: int)
    requires Fine(p, keys, now) && Fine(u, keys, now) && Keys(r) <= keys && Level(p, k, now) == Level(u, k, now)
    requires Answer(p, r, maxKeys, now).1 == Answer(u, r, big, now).1
    ensures Takes(p, r, k, maxKeys, now) == Takes(u, r, k, big, now)
  {
    hide Fine, Level, Charge, Answer, Spares;
    if k in Keys(r) {
      ChargeLevel(p, k, k, keys, maxKeys, now);
      ChargeLevel(u, k, k, keys, big, now);
    }
  }

  lemma UnsparedIsKnown(s: Store, r: Request, k: Key, keys: set<Key>, maxKeys: int, now: int)
    requires Fine(s, keys, now) && Keys(r) <= keys && !SparesAnswer(s, r, k, maxKeys, now)
    ensures k in keys
  {
    hide Charge, Healthy;
    assert s.order != [] ==> s.order[0] in s.order;
    if r.read && r.user.Some? {
      var t := Charge(s, ReadUser(r.user.value), maxKeys, now).0;
      ChargeLevel(s, ReadUser(r.user.value), k, keys, maxKeys, now);
      assert t.order != [] ==> t.order[0] in t.order;
    }
  }

  /**
   A request that evicts an unrefilled bucket shows: after it, requests can be found to which the bounded map replies
   otherwise than one that keeps every bucket, unless it did so already.
   */
  lemma EvictionShowsNow(p: Store, u: Store, r: Request, k: Key, keys: set<Key>, maxKeys: int, big: int, now: int)
    returns (more: seq<Event>)
    requires Fine(p, keys, now) && Fine(u, keys, now) && FullIfMissing(p, u, now)
    requires Keys(r) <= keys && |keys| < big && !SparesAnswer(p, r, k, maxKeys, now)
    ensures InTime(more, now)
    ensures Replies(p, [Arrival(r, now)] + more, maxKeys, true) != Replies(u, [Arrival(r, now)] + more, big, false)
  {
    hide Charge, Level, Fine, FullIfMissing, SparesAnswer, Answer, Takes, Capacity, Replies;
    var (p', reply) := Answer(p, r, maxKeys, now);
    var (u', same) := Answer(u, r, big, now);
    more := [];
    if reply == same {
      UnsparedIsKnown(p, r, k, keys, maxKeys, now);
      LevelsAlike(p, u, k, keys, now);
      AnswerLevel(p, r, k, keys, maxKeys, now);
      RoomSpares(u, r, k, keys, big, now);
      AnswerLevel(u, r, k, keys, big, now);
      TakesAlike(p, u, r, k, keys, maxKeys, big, now);
      var n := WholeLevel(p', k, now);
      more := Probe(p', u', k, n, keys, maxKeys, big, now);
    }
    DifferNowOrLater(p, u, Arrival(r, now), more, maxKeys, big);
  }

  /** What differs now or later differs. */
  lemma DifferNowOrLater(p: Store, u: Store, e: Event, rest: seq<Event>, maxKeys: int, big: int)
    requires Step(p, e, maxKeys, true).1 != Step(u, e, big, false).1
      || Replies(Step(p, e, maxKeys, true).0, rest, maxKeys, true)
         != Replies(Step(u, e, big, false).0, rest, big, false)
    ensures Replies(p, [e] + rest, maxKeys, true) != Replies(u, [e] + rest, big, false)
  {
    hide Step;
    assert ([e] + rest)[1..] == rest;
    var here, there := Replies(p, [e] + rest, maxKeys, true), Replies(u, [e] + rest, big, false);
    assert here[1..] == Replies(Step(p, e, maxKeys, true).0, rest, maxKeys, true);
    assert there[1..] == Replies(Step(u, e, big, false).0, rest, big, false);
  }

  lemma {:induction false} EvictionShowsFrom(
    p: Store, u: Store, events: seq<Event>, k: Key, keys: set<Key>, maxKeys: int, big: int, now: int)
    returns (n: nat, more: seq<Event>)
    requires Fine(p, keys, now) && Fine(u, keys, now) && FullIfMissing(p, u, now)
    requires AllKeys(events) <= keys && |keys| < big && InTime(events, now) && !SparesRun(p, events, k, maxKeys)
    ensures n <= |events| && InTime(events[..n] + more, now)
    ensures Replies(p, events[..n] + more, maxKeys, true) != Replies(u, events[..n] + more, big, false)
    decreases |events|
  {
    hide Fine, FullIfMissing, Answer, Pruned, SparesAnswer, Keys, Replies;
    var e, at := events[0], events[0].now;
    LaterIsFine(p, keys, now, at);
    LaterIsFine(u, keys, now, at);
    FullLaterAll(p, u, keys, now, at);
    if e.Arrival? && exists j :: !SparesAnswer(p, e.request, j, maxKeys, at) {
      var j :| !SparesAnswer(p, e.request, j, maxKeys, at);
      n := 1;
      more := EvictionShowsNow(p, u, e.request, j, keys, maxKeys, big, at);
      assert events[..1] == [e] && ([e] + more)[1..] == more;
    } else {
      if e.Arrival? {
        AnswerAlike(p, u, e.request, keys, maxKeys, big, at);
      } else {
        PrunedIsFine(p, keys, at);
        PruneAlike(p, u, keys, at);
      }
      var p', u' := Step(p, e, maxKeys, true).0, Step(u, e, big, false).0;
      n, more := EvictionShowsFrom(p', u', events[1..], k, keys, maxKeys, big, at);
      n := n + 1;
      var rest := events[1..][..n - 1] + more;
      assert events[..n] + more == [e] + rest && ([e] + rest)[1..] == rest;
      DifferNowOrLater(p, u, e, rest, maxKeys, big);
    }
  }

  /**
   The converse of PruningIsInvisible: if a run evicts some key before its bucket has refilled, then after that eviction
   requests can be found by which the bounded map is told from one that keeps every bucket.
   */
  lemma EvictionShows(events: seq<Event>, k: Key, maxKeys: int, big: int, start: int)
    returns (n: nat, more: seq<Event>)
    requires InTime(events, start) && |AllKeys(events)| < big && !SparesRun(EMPTY, events, k, maxKeys)
    ensures n <= |events| && InTime(events[..n] + more, start)
    ensures Replies(EMPTY, events[..n] + more, maxKeys, true) != Replies(EMPTY, events[..n] + more, big, false)
  {
    hide Replies, InTime, SparesRun;
    n, more := EvictionShowsFrom(EMPTY, EMPTY, events, k, AllKeys(events), maxKeys, big, start);
  }

  /**
   With the map full, a request by a new key makes the oldest key forget: its next take is granted, even where it
   was refused before.
   */
  lemma EvictionForgives(s: Store, newcomer: Key, maxKeys: int, now: int)
    requires Listed(s.buckets.Keys, s.order) && s.order != [] && |s.order| >= maxKeys
    requires newcomer !in s.buckets
    ensures s.order[0] in s.order
    ensures Charge(s, s.order[0], maxKeys, now).1 == Next <==> Granted(s.buckets[s.order[0]], 1.0, now)
    ensures Charge(Charge(s, newcomer, maxKeys, now).0, s.order[0], maxKeys, now).1 == Next
  {
    var t := Charge(s, newcomer, maxKeys, now).0;
    assert s.order[0] in s.order;
    assert s.order[0] !in t.buckets;
    FullStaysFull(New(s.order[0], now), now);
  }

  // ----- A budget spent twice -----

  function Name(i: nat): (name: string)
    ensures |name| == i
  {
    if i == 0 then "" else Name(i - 1) + "x"
  }

  /** One write each by users i + 1 to n. */
  function Newcomers(i: nat, n: nat): seq<Event>
    decreases n - i
  {
    if i >= n then [] else [Arrival(Request(false, Some(Name(i + 1)), ""), 0)] + Newcomers(i + 1, n)
  }

  /** User 0 writes thirty times, then so many others as the map holds write once, then user 0 again thirty times. */
  function TwiceTheBudget(maxKeys: nat): seq<Event> {
    var burst := Repeated(Asking(WriteUser(Name(0)), ""), 30, 0);
    burst + Newcomers(0, maxKeys) + burst
  }

  lemma {:induction false} NewcomersAtZero(i: nat, n: nat)
    ensures InTime(Newcomers(i, n), 0) && LastTime(Newcomers(i, n), 0) == 0
    decreases n - i
  {
    if i < n {
      NewcomersAtZero(i + 1, n);
      assert Newcomers(i, n)[1..] == Newcomers(i + 1, n);
      assert LastTime(Newcomers(i, n), 0) == LastTime(Newcomers(i + 1, n), 0);
    }
  }

  /** The map holds user 0, oldest, and users up to i. */
  ghost predicate Filled(s: Store, i: nat) {
    && |s.order| == i + 1 && s.order[0] == WriteUser(Name(0))
    && forall j: nat | j > i :: WriteUser(Name(j)) !in s.buckets
  }

  lemma {:induction false} BurstFills(s: Store, n: nat, maxKeys: nat)
    requires s == EMPTY || (Filled(s, 0) && WriteUser(Name(0)) in s.buckets)
    requires n > 0 && maxKeys >= 1
    ensures Filled(After(s, Repeated(Asking(WriteUser(Name(0)), ""), n, 0), maxKeys), 0)
    decreases n
  {
    var r := Asking(WriteUser(Name(0)), "");
    var events := Repeated(r, n, 0);
    assert events[1..] == Repeated(r, n - 1, 0);
    var t := Step(s, events[0], maxKeys, true).0;
    if n == 1 {
      assert After(t, [], maxKeys) == t;
    } else {
      BurstFills(t, n - 1, maxKeys);
    }
  }

  lemma {:induction false} NewcomersEvict(s: Store, i: nat, maxKeys: nat)
    requires Filled(s, i) && i < maxKeys
    ensures WriteUser(Name(0)) !in After(s, Newcomers(i, maxKeys), maxKeys).buckets
    decreases maxKeys - i
  {
    hide Taken, Granted, RetryAfter;
    var events := Newcomers(i, maxKeys);
    var t := Step(s, events[0], maxKeys, true).0;
    assert events[1..] == Newcomers(i + 1, maxKeys);
    if i + 1 < maxKeys {
      NewcomersEvict(t, i + 1, maxKeys);
    } else {
      assert Newcomers(i + 1, maxKeys) == [] && After(t, [], maxKeys) == t;
    }
  }

  /** Whatever the map holds, a budget of 30 writes can be spent twice at one instant. */
  lemma BudgetBroken(maxKeys: nat)
    requires maxKeys >= 1
    ensures var k := WriteUser(Name(0));
      LetThrough(EMPTY, TwiceTheBudget(maxKeys), maxKeys, k) as real >= 60.0 > Capacity(k) + Gain(Rate(k), 0)
  {
    hide LetThrough, TokensTaken, After, Answer, Newcomers, Repeated, Name, InTime, LastTime;
    var k := WriteUser(Name(0));
    var burst, others := Repeated(Asking(k, ""), 30, 0), Newcomers(0, maxKeys);
    var keys := {k} + AllKeys(burst + others);
    var full := After(EMPTY, burst, maxKeys);
    var evicted := After(EMPTY, burst + others, maxKeys);
    InTwo(EMPTY, burst + others, burst, maxKeys, k);
    InTwo(EMPTY, burst, others, maxKeys, k);
    LetThroughIsTaken(EMPTY, TwiceTheBudget(maxKeys), maxKeys, k);
    BurstFills(EMPTY, 30, maxKeys);
    NewcomersEvict(full, 0, maxKeys);
    RepeatedAtOnce(Asking(k, ""), 30, 0);
    NewcomersAtZero(0, maxKeys);
    TimeInTwo(burst, others, 0);
    EmptyIsFine(keys, 0);
    RunIsFine(EMPTY, burst + others, keys, maxKeys, 0);
    BurstTakes(EMPTY, k, "", 30, keys, maxKeys, 0);
    BurstTakes(evicted, k, "", 30, keys, maxKeys, 0);
    GainIsZero(Rate(k));
  }
}
