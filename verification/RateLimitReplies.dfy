/**
 What a client is told: who is let through at first and how often, who refuses, and that Retry-After is the shortest
 wait that helps.
 */
module RateLimitReplies {
  import opened Wrappers
  import opened TokenBuckets
  import opened RateLimit
  import opened RateLimitRuns
  import opened RateLimitBudget
  import opened RateLimitEviction

  // ----- Retry-After -----

  /** After n whole seconds, and not before, a charge of the key is granted, if nothing else happens to it. */
  ghost predicate GrantedFrom(s: Store, k: Key, n: int, maxKeys: int, now: int) {
    forall seconds: nat :: Charge(s, k, maxKeys, now + 1000 * seconds).1 == Next <==> seconds >= n
  }

  lemma ChargeRefusal(s: Store, k: Key, keys: set<Key>, maxKeys: int, now: int)
    requires Fine(s, keys, now) && k in keys && Charge(s, k, maxKeys, now).1 != Next
    ensures var (t, reply) := Charge(s, k, maxKeys, now);
      reply.TooMany? && reply.retryAfter >= 1 && GrantedFrom(t, k, reply.retryAfter, maxKeys, now)
  {
    hide Listed, WithBucket, Granted, Refilled, RetryAfter;
    var b := BucketOf(s, k, keys, maxKeys, now);
    var (t, reply) := Charge(s, k, maxKeys, now);
    var after := Taken(b, 1.0, now);
    assert t.buckets[k] == after && !Granted(b, 1.0, now);
    RefusalWaits(b, now);
    TakeKeepsSound(b, 1.0, now);
    forall seconds: nat
      ensures Charge(t, k, maxKeys, now + 1000 * seconds).1 == Next <==> seconds >= reply.retryAfter
    {
      RetryAfterIsLeast(after, seconds);
      KeyStays(t, k, maxKeys, now + 1000 * seconds);
    }
  }

  /** The bucket that a charge takes from: the key's own, or a new one. */
  lemma BucketOf(s: Store, k: Key, keys: set<Key>, maxKeys: int, now: int) returns (b: Bucket)
    requires Fine(s, keys, now)
    ensures b == WithBucket(s, k, maxKeys, now).buckets[k] && Sound(b) && b.last <= now && b.capacity >= 1.0
  {
    hide Listed;
    b := WithBucket(s, k, maxKeys, now).buckets[k];
    CapacityIsOne(k);
  }

  lemma KeyStays(s: Store, k: Key, maxKeys: int, now: int)
    requires k in s.buckets
    ensures WithBucket(s, k, maxKeys, now) == s
  {
  }

  /** The key that refuses a request: the user of a read that has nothing left, or else the last key charged. */
  function Refuser(s: Store, r: Request, now: int): Option<Key> {
    if r.read then
      if r.user.Some? && Level(s, ReadUser(r.user.value), now) < 1.0 then Some(ReadUser(r.user.value))
      else Some(ReadIp(r.ip))
    else if r.user.Some? then Some(WriteUser(r.user.value)) else None
  }

  /**
   A refused request has a key that refuses it and has less than a token; the reply's Retry-After is at least a second,
   and the least number of whole seconds after which a charge of that key is granted.
   */
  lemma RefusalTells(s: Store, r: Request, keys: set<Key>, maxKeys: int, now: int)
    requires Fine(s, keys, now) && Keys(r) <= keys && Answer(s, r, maxKeys, now).1 != Next
    ensures Refuser(s, r, now).Some?
    ensures var (t, reply) := Answer(s, r, maxKeys, now); var k := Refuser(s, r, now).value;
      && k in Keys(r) && Level(s, k, now) < 1.0
      && reply.TooMany? && reply.retryAfter >= 1 && GrantedFrom(t, k, reply.retryAfter, maxKeys, now)
  {
    hide Fine, Charge, Level, Spares, GrantedFrom;
    if r.read {
      var s1 := s;
      if r.user.Some? {
        var u := ReadUser(r.user.value);
        ChargeLevel(s, u, u, keys, maxKeys, now);
        ChargeLevel(s, u, ReadIp(r.ip), keys, maxKeys, now);
        if Charge(s, u, maxKeys, now).1 != Next {
          ChargeRefusal(s, u, keys, maxKeys, now);
          return;
        }
        s1 := Charge(s, u, maxKeys, now).0;
      }
      ChargeLevel(s1, ReadIp(r.ip), ReadIp(r.ip), keys, maxKeys, now);
      ChargeRefusal(s1, ReadIp(r.ip), keys, maxKeys, now);
    } else {
      var k := WriteUser(r.user.value);
      ChargeLevel(s, k, k, keys, maxKeys, now);
      ChargeRefusal(s, k, keys, maxKeys, now);
    }
  }

  /** So in every run from start, with prunings and evictions anywhere. */
  lemma RunRefusals(events: seq<Event>, r: Request, maxKeys: int, start: int, now: int)
    requires InTime(events, start) && LastTime(events, start) <= now
    requires Answer(After(EMPTY, events, maxKeys), r, maxKeys, now).1 != Next
    ensures var s := After(EMPTY, events, maxKeys); var (t, reply) := Answer(s, r, maxKeys, now);
      && Refuser(s, r, now).Some?
      && reply.TooMany? && reply.retryAfter >= 1
      && GrantedFrom(t, Refuser(s, r, now).value, reply.retryAfter, maxKeys, now)
  {
    hide Fine, Answer, Refuser, GrantedFrom, Keys, InTime, After;
    var keys := AllKeys(events) + Keys(r);
    EmptyIsFine(keys, start);
    RunIsFine(EMPTY, events, keys, maxKeys, start);
    LaterIsFine(After(EMPTY, events, maxKeys), keys, LastTime(events, start), now);
    RefusalTells(After(EMPTY, events, maxKeys), r, keys, maxKeys, now);
  }

  // ----- The budgets in numbers -----

  /** Reads a user, reads an address and writes a user at one instant. */
  function AtOnce(k: Key): nat {
    match k
    case ReadUser(_) => 100
    case ReadIp(_) => 600
    case WriteUser(_) => 30
  }

  /** At start, a key's requests all pass exactly up to that number; a minute refills it. */
  lemma BudgetInNumbers(k: Key, ip: string, n: nat, maxKeys: int, now: int)
    requires maxKeys >= 2
    ensures Replies(EMPTY, Repeated(Asking(k, ip), n, now), maxKeys, true) == AllNext(n) <==> n <= AtOnce(k)
    ensures Gain(Rate(k), 60000) == AtOnce(k) as real
  {
    hide Replies, Repeated, AllNext, Level;
    var keys := Keys(Asking(k, ip));
    EmptyIsFine(keys, now);
    AtStart(k, ip, now);
    if n <= AtOnce(k) {
      AllPass(EMPTY, k, ip, n, keys, maxKeys, now);
    } else {
      NeverPruned(EMPTY, Asking(k, ip), n, maxKeys, now);
      NotAllPass(EMPTY, k, ip, n, keys, maxKeys, now);
    }
  }

  lemma AtStart(k: Key, ip: string, now: int)
    ensures Level(EMPTY, k, now) == AtOnce(k) as real && |Keys(Asking(k, ip))| <= 2
    ensures k.ReadUser? ==> Level(EMPTY, ReadIp(ip), now) == 600.0
  {
  }

  /** Without a timer event, pruning makes no difference. */
  lemma {:induction false} NeverPruned(s: Store, r: Request, n: nat, maxKeys: int, now: int)
    ensures Replies(s, Repeated(r, n, now), maxKeys, true) == Replies(s, Repeated(r, n, now), maxKeys, false)
    decreases n
  {
    hide Answer;
    if n > 0 {
      assert Repeated(r, n, now)[1..] == Repeated(r, n - 1, now);
      NeverPruned(Answer(s, r, maxKeys, now).0, r, n - 1, maxKeys, now);
    }
  }

  /** A pruning forgets exactly the keys untouched for more than half an hour, and keeps the others in order. */
  lemma PrunedIs(s: Store, now: int, k: Key)
    requires Listed(s.buckets.Keys, s.order)
    ensures k in Pruned(s, now).buckets <==> k in s.buckets && now - s.buckets[k].last <= 1800000
    ensures k in Pruned(s, now).buckets ==> Pruned(s, now).buckets[k] == s.buckets[k]
    ensures Listed(Pruned(s, now).buckets.Keys, Pruned(s, now).order)
    ensures forall j | Earlier(Pruned(s, now).order, j, k) :: Earlier(s.order, j, k)
  {
    BusyIsListed(s, now);
    forall j | Earlier(Pruned(s, now).order, j, k)
      ensures Earlier(s.order, j, k)
    {
      BusyOrder(s, s.order, now, j, k);
    }
  }

  ghost predicate Earlier(order: seq<Key>, j: Key, k: Key) {
    exists a, b | 0 <= a < b < |order| :: order[a] == j && order[b] == k
  }

  lemma {:induction false} BusyOrder(s: Store, order: seq<Key>, now: int, j: Key, k: Key)
    requires (forall a, b | 0 <= a < b < |order| :: order[a] != order[b]) && Earlier(Busy(s, order, now), j, k)
    ensures Earlier(order, j, k)
  {
    if order != [] {
      var front, busy := order[..|order| - 1], Busy(s, order[..|order| - 1], now);
      var a, b :| 0 <= a < b < |Busy(s, order, now)| && Busy(s, order, now)[a] == j && Busy(s, order, now)[b] == k;
      if b < |busy| {
        assert Earlier(busy, j, k);
        BusyOrder(s, front, now, j, k);
        var c, d :| 0 <= c < d < |front| && front[c] == j && front[d] == k;
        assert order[c] == j && order[d] == k;
      } else {
        BusyKeys(s, front, now);
        assert busy[a] in busy;
        var c :| 0 <= c < |front| && front[c] == j;
        assert order[c] == j && order[|order| - 1] == k;
      }
    }
  }
}
