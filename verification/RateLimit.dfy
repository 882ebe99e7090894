/**
 The rate limiter in front of the API: one token bucket a key, kept in a bounded and periodically pruned map, where a
 new key takes the place of the oldest when the map is full.
 */
module RateLimit {
  import opened Wrappers
  import opened TokenBuckets

  /** The keys read:u:<id>, read:ip:<address> and write:u:<id>. */
  datatype Key = ReadUser(user: string) | ReadIp(ip: string) | WriteUser(user: string)

  function Capacity(k: Key): (c: real)
    ensures c >= 1.0
  {
    match k
    case ReadUser(_) => 100.0
    case ReadIp(_) => 600.0
    case WriteUser(_) => 30.0
  }

  function Rate(k: Key): Positive {
    match k
    case ReadUser(_) => 100.0 / 60.0
    case ReadIp(_) => 10.0
    case WriteUser(_) => 30.0 / 60.0
  }

  const IDLE_MS := 30 * 60 * 1000

  datatype Request = Request(read: bool, user: Option<string>, ip: string)

  datatype Reply = Next | TooMany(retryAfter: int)

  // ----- On values -----

  /** The map of buckets and the order in which it iterates its keys. */
  datatype Store = Store(buckets: map<Key, Bucket>, order: seq<Key>)

  const EMPTY := Store(map[], [])

  ghost predicate Listed(keys: set<Key>, order: seq<Key>) {
    && (forall k :: k in keys <==> k in order)
    && (forall i, j | 0 <= i < j < |order| :: order[i] != order[j])
  }

  function New(k: Key, now: int): Bucket {
    Bucket(Capacity(k), Rate(k), Capacity(k), now)
  }

  function WithoutOldest(s: Store): Store {
    if s.order == [] then s else Store(s.buckets - {s.order[0]}, s.order[1..])
  }

  /** getBucket: a new key takes the place of the oldest when the map is full. */
  function WithBucket(s: Store, k: Key, maxKeys: int, now: int): (t: Store)
    ensures k in t.buckets
  {
    if k in s.buckets then s
    else
      var room := if |s.order| >= maxKeys then WithoutOldest(s) else s;
      Store(room.buckets[k := New(k, now)], room.order + [k])
  }

  /** One take(1) from a key's bucket. */
  function Charge(s: Store, k: Key, maxKeys: int, now: int): (Store, Reply) {
    var t := WithBucket(s, k, maxKeys, now);
    var b := t.buckets[k];
    var after := Taken(b, 1.0, now);
    (t.(buckets := t.buckets[k := after]),
     if Granted(b, 1.0, now) then Next else TooMany(RetryAfter(after)))
  }

  /** applyAuto: reads pay by user, if known, and then by address; writes pay by user. */
  function Answer(s: Store, r: Request, maxKeys: int, now: int): (Store, Reply) {
    if r.read then
      if r.user.None? then Charge(s, ReadIp(r.ip), maxKeys, now)
      else
        var (t, reply) := Charge(s, ReadUser(r.user.value), maxKeys, now);
        if reply != Next then (t, reply) else Charge(t, ReadIp(r.ip), maxKeys, now)
    else if r.user.None? then (s, Next)
    else Charge(s, WriteUser(r.user.value), maxKeys, now)
  }

  predicate IsIdle(b: Bucket, now: int) {
    now - b.last > IDLE_MS
  }

  function Busy(s: Store, order: seq<Key>, now: int): seq<Key> {
    if order == [] then []
    else
      var last := order[|order| - 1];
      Busy(s, order[..|order| - 1], now)
      + (if last in s.buckets && IsIdle(s.buckets[last], now) then [] else [last])
  }

  /** The timer: buckets untouched for half an hour go. */
  function Pruned(s: Store, now: int): Store {
    Store(map k | k in s.buckets && !IsIdle(s.buckets[k], now) :: s.buckets[k], Busy(s, s.order, now))
  }

  lemma DropListed(keys: set<Key>, order: seq<Key>)
    requires Listed(keys, order) && order != []
    ensures Listed(keys - {order[0]}, order[1..])
  {
    assert forall k | k in order :: k == order[0] || k in order[1..];
  }

  lemma AppendListed(keys: set<Key>, order: seq<Key>, k: Key)
    requires Listed(keys, order) && k !in keys
    ensures Listed(keys + {k}, order + [k])
  {
    assert forall i | 0 <= i < |order| :: order[i] in order;
  }

  /** The keys left while pruning, when the ones in left are still to be looked at. */
  ghost function Kept(s: Store, left: seq<Key>, now: int): set<Key> {
    set k | k in s.buckets && (k in left || !IsIdle(s.buckets[k], now))
  }

  lemma PruneStarts(s: Store, now: int)
    requires Listed(s.buckets.Keys, s.order)
    ensures Kept(s, s.order[0..], now) == s.buckets.Keys && Busy(s, s.order[..0], now) == []
  {
  }

  lemma KeptStep(s: Store, i: nat, now: int)
    requires Listed(s.buckets.Keys, s.order) && i < |s.order|
    ensures s.order[i] in s.buckets && s.order[i] in Kept(s, s.order[i..], now)
    ensures Kept(s, s.order[i + 1..], now)
      == Kept(s, s.order[i..], now) - (if IsIdle(s.buckets[s.order[i]], now) then {s.order[i]} else {})
  {
    var rest := s.order[i + 1..];
    assert s.order[i..] == [s.order[i]] + rest;
    assert forall j | 0 <= j < |rest| :: rest[j] == s.order[i + 1 + j];
    assert s.order[i] !in rest;
    assert s.order[i] in s.order;
  }

  lemma BusyStep(s: Store, i: nat, now: int)
    requires i < |s.order|
    ensures Busy(s, s.order[..i + 1], now) == Busy(s, s.order[..i], now)
      + (if s.order[i] in s.buckets && IsIdle(s.buckets[s.order[i]], now) then [] else [s.order[i]])
  {
    assert s.order[..i + 1][..i] == s.order[..i];
  }

  /** Deleting the idle entries while walking through the map leaves the pruned map. */
  lemma PruneEnds(s: Store, c: Store, now: int)
    requires Listed(s.buckets.Keys, s.order)
    requires c.buckets.Keys == Kept(s, s.order[|s.order|..], now)
    requires forall k | k in c.buckets :: k in s.buckets && c.buckets[k] == s.buckets[k]
    requires c.order == Busy(s, s.order[..|s.order|], now)
    ensures c == Pruned(s, now) && Listed(c.buckets.Keys, c.order)
  {
    hide Listed;
    assert s.order[..|s.order|] == s.order;
    BusyIsListed(s, now);
    assert c.buckets.Keys == Pruned(s, now).buckets.Keys;
  }

  // ----- In place -----

  class Limiter {
    const maxKeys: int
    var buckets: map<Key, TokenBucket>
    var order: seq<Key>

    ghost predicate Valid()
      reads this
    {
      && Listed(buckets.Keys, order)
      && (forall j, k | j in buckets && k in buckets && j != k :: buckets[j] != buckets[k])
      && (forall k | k in buckets :: buckets[k].refillPerSec == Rate(k))
    }

    ghost function Repr(): set<object>
      reads this
    {
      set k | k in buckets :: buckets[k]
    }

    function Contents(): Store
      reads this, Repr()
    {
      Store(map k | k in buckets :: buckets[k].Value(), order)
    }

    constructor (maxKeys: int)
      ensures Valid() && Contents() == EMPTY && this.maxKeys == maxKeys && Repr() == {}
    {
      this.maxKeys := maxKeys;
      buckets := map[];
      order := [];
    }

    method DropOldest()
      requires Valid()
      modifies this
      ensures Valid() && Contents() == WithoutOldest(old(Contents()))
      ensures forall j | j in buckets :: j in old(buckets) && buckets[j] == old(buckets[j])
    {
      hide Listed;
      if |order| > 0 {
        var oldest := order[0];
        DropListed(buckets.Keys, order);
        buckets := buckets - {oldest};
        order := order[1..];
        assert buckets.Keys == old(buckets.Keys) - {oldest};
      }
    }

    method AddBucket(k: Key, now: int)
      requires Valid() && k !in buckets
      modifies this
      ensures Valid() && Contents() == Store(old(Contents()).buckets[k := New(k, now)], old(order) + [k])
      ensures buckets.Keys == old(buckets.Keys) + {k} && fresh(buckets[k])
      ensures forall j | j in old(buckets) :: buckets[j] == old(buckets[j])
    {
      hide Listed;
      var b := new TokenBucket(Capacity(k), Rate(k), now);
      AppendListed(buckets.Keys, order, k);
      buckets := buckets[k := b];
      order := order + [k];
      assert buckets.Keys == old(buckets.Keys) + {k};
    }

    method GetBucket(k: Key, now: int) returns (b: TokenBucket)
      requires Valid()
      modifies this
      ensures Valid() && Contents() == WithBucket(old(Contents()), k, maxKeys, now)
      ensures k in buckets && buckets[k] == b && fresh(Repr() - old(Repr()))
    {
      hide Listed, WithoutOldest, New;
      if k !in buckets {
        if |order| >= maxKeys {
          DropOldest();
        }
        AddBucket(k, now);
      }
      b := buckets[k];
    }

    method Pay(k: Key, now: int) returns (reply: Reply)
      requires Valid()
      modifies this, Repr()
      ensures Valid() && fresh(Repr() - old(Repr()))
      ensures (Contents(), reply) == Charge(old(Contents()), k, maxKeys, now)
    {
      hide Listed, WithBucket, Taken, Granted, RetryAfter;
      var b := GetBucket(k, now);
      ghost var mid := Contents();
      var ok := b.Take(1.0, now);
      assert Contents().buckets == mid.buckets[k := Taken(mid.buckets[k], 1.0, now)];
      if ok {
        reply := Next;
      } else {
        var seconds := b.RetryAfterSec();
        reply := TooMany(seconds);
      }
    }

    method Handle(r: Request, now: int) returns (reply: Reply)
      requires Valid()
      modifies this, Repr()
      ensures Valid() && fresh(Repr() - old(Repr()))
      ensures (Contents(), reply) == Answer(old(Contents()), r, maxKeys, now)
    {
      reply := Next;
      if r.read {
        if r.user.Some? {
          reply := Pay(ReadUser(r.user.value), now);
          if reply != Next {
            return;
          }
        }
        reply := Pay(ReadIp(r.ip), now);
      } else if r.user.Some? {
        reply := Pay(WriteUser(r.user.value), now);
      }
    }

    method Prune(now: int)
      requires Valid()
      modifies this
      ensures Valid() && Contents() == Pruned(old(Contents()), now)
      ensures forall k | k in buckets :: k in old(buckets) && buckets[k] == old(buckets[k])
    {
      hide Listed, Kept, Busy, Pruned;
      var entries, i := order, 0;
      ghost var before := Contents();
      assert before.buckets.Keys == buckets.Keys;
      PruneStarts(before, now);
      order := [];
      while i < |entries|
        invariant 0 <= i <= |entries| && entries == before.order
        invariant forall k | k in buckets :: k in old(buckets) && buckets[k] == old(buckets[k])
        invariant buckets.Keys == Kept(before, entries[i..], now)
        invariant order == Busy(before, entries[..i], now)
      {
        var k := entries[i];
        KeptStep(before, i, now);
        BusyStep(before, i, now);
        if now - buckets[k].lastRefill > IDLE_MS {
          buckets := buckets - {k};
        } else {
          order := order + [k];
        }
        i := i + 1;
      }
      PruneEnds(before, Contents(), now);
    }
  }

  lemma {:induction false} BusyKeys(s: Store, order: seq<Key>, now: int)
    requires forall i, j | 0 <= i < j < |order| :: order[i] != order[j]
    ensures var busy := Busy(s, order, now);
      && (forall k :: k in busy <==> k in order && !(k in s.buckets && IsIdle(s.buckets[k], now)))
      && (forall i, j | 0 <= i < j < |busy| :: busy[i] != busy[j])
  {
    if order != [] {
      var front := order[..|order| - 1];
      BusyKeys(s, front, now);
      assert forall k | k in front :: k != order[|order| - 1];
      var rest := Busy(s, front, now);
      assert forall i | 0 <= i < |rest| :: rest[i] in rest;
    }
  }

  lemma BusyIsListed(s: Store, now: int)
    requires Listed(s.buckets.Keys, s.order)
    ensures Listed(Pruned(s, now).buckets.Keys, Pruned(s, now).order)
  {
    BusyKeys(s, s.order, now);
  }
}
