/**
 The token bucket: tokens stay within the capacity, no window of time grants more than capacity plus refill, a full
 bucket refuses nothing that keeps to that bound, and Retry-After is the shortest sufficient wait.
 Times are in milliseconds, tokens are real.
 */
module TokenBuckets {

  type Positive = x: real | x > 0.0 witness 1.0

  datatype Bucket = Bucket(capacity: real, rate: Positive, tokens: real, last: int)

  predicate Sound(b: Bucket) {
    0.0 <= b.tokens <= b.capacity
  }

  /** What a rate a second yields in so many milliseconds. */
  function Gain(rate: real, ms: int): real {
    ms as real / 1000.0 * rate
  }

  function Least(x: real, y: real): (m: real)
    ensures m <= x && m <= y && (m == x || m == y)
  {
    if x < y then x else y
  }

  function Refilled(b: Bucket, now: int): real {
    Least(b.capacity, b.tokens + Gain(b.rate, now - b.last))
  }

  /** One take: whether it is granted, and the bucket it leaves. */
  function Granted(b: Bucket, n: real, now: int): bool {
    Refilled(b, now) >= n
  }

  function Taken(b: Bucket, n: real, now: int): Bucket {
    b.(tokens := if Granted(b, n, now) then Refilled(b, now) - n else Refilled(b, now), last := now)
  }

  function Ceil(x: real): int {
    -(-x).Floor
  }

  function RetryAfter(b: Bucket): int {
    Ceil((1.0 - b.tokens) / b.rate)
  }

  class TokenBucket {
    const capacity: real
    const refillPerSec: Positive
    var tokens: real
    var lastRefill: int

    function Value(): Bucket
      reads this
    {
      Bucket(capacity, refillPerSec, tokens, lastRefill)
    }

    constructor (capacity: real, refillPerSec: Positive, now: int)
      ensures Value() == Bucket(capacity, refillPerSec, capacity, now)
    {
      this.capacity := capacity;
      this.refillPerSec := refillPerSec;
      tokens := capacity;
      lastRefill := now;
    }

    method Take(n: real, now: int) returns (ok: bool)
      modifies this
      ensures ok == Granted(old(Value()), n, now) && Value() == Taken(old(Value()), n, now)
    {
      var elapsed := (now - lastRefill) as real / 1000.0;
      tokens := Least(capacity, tokens + elapsed * refillPerSec);
      lastRefill := now;
      if tokens >= n {
        tokens := tokens - n;
        return true;
      }
      return false;
    }

    method RetryAfterSec() returns (seconds: int)
      ensures seconds == RetryAfter(Value())
    {
      var deficit := 1.0 - tokens;
      seconds := Ceil(deficit / refillPerSec);
    }
  }

  lemma GainAdds(rate: real, a: int, b: int)
    ensures Gain(rate, a) + Gain(rate, b) == Gain(rate, a + b)
  {
    assert (a + b) as real / 1000.0 == a as real / 1000.0 + b as real / 1000.0;
  }

  lemma GainIsNotNegative(rate: Positive, ms: int)
    requires ms >= 0
    ensures Gain(rate, ms) >= 0.0
  {
  }

  lemma TakeKeepsSound(b: Bucket, n: real, now: int)
    requires Sound(b) && b.last <= now && n >= 0.0
    ensures Sound(Taken(b, n, now))
  {
    GainIsNotNegative(b.rate, now - b.last);
  }

  // ----- Retry-After -----

  lemma CeilIsLeast(x: real, n: int)
    ensures x <= n as real <==> Ceil(x) <= n
  {
  }

  lemma GainOfSeconds(b: Bucket, seconds: int)
    ensures b.tokens + Gain(b.rate, 1000 * seconds) >= 1.0 <==> (1.0 - b.tokens) / b.rate <= seconds as real
  {
    assert Gain(b.rate, 1000 * seconds) == seconds as real * b.rate by {
      assert (1000 * seconds) as real / 1000.0 == seconds as real;
    }
    var x := (1.0 - b.tokens) / b.rate;
    assert x * b.rate == 1.0 - b.tokens;
    if x <= seconds as real {
      assert (seconds as real - x) * b.rate >= 0.0;
    } else {
      assert (x - seconds as real) * b.rate > 0.0;
    }
  }

  /** retryAfterSec is the least number of whole seconds after which an undisturbed take(1) is granted. */
  lemma RetryAfterIsLeast(b: Bucket, seconds: int)
    requires Sound(b) && b.capacity >= 1.0
    ensures Granted(b, 1.0, b.last + 1000 * seconds) <==> RetryAfter(b) <= seconds
  {
    GainOfSeconds(b, seconds);
    CeilIsLeast((1.0 - b.tokens) / b.rate, seconds);
  }

  /** After a refusal the wait is at least a second. */
  lemma RefusalWaits(b: Bucket, now: int)
    requires Sound(b) && b.capacity >= 1.0 && !Granted(b, 1.0, now)
    ensures RetryAfter(Taken(b, 1.0, now)) >= 1
  {
    var c := Taken(b, 1.0, now);
    assert (1.0 - c.tokens) / c.rate > 0.0;
    CeilIsLeast((1.0 - c.tokens) / c.rate, 0);
  }

  // ----- Windows -----

  /** A call of take. */
  datatype Call = Call(n: real, now: int)

  predicate InOrder(calls: seq<Call>) {
    && (forall i | 0 <= i < |calls| :: calls[i].n >= 0.0)
    && (forall i, j | 0 <= i <= j < |calls| :: calls[i].now <= calls[j].now)
  }

  function AfterAll(b: Bucket, calls: seq<Call>): Bucket {
    if calls == [] then b
    else
      var before := AfterAll(b, calls[..|calls| - 1]);
      Taken(before, calls[|calls| - 1].n, calls[|calls| - 1].now)
  }

  predicate GrantedAt(b: Bucket, calls: seq<Call>, i: nat)
    requires i < |calls|
  {
    Granted(AfterAll(b, calls[..i]), calls[i].n, calls[i].now)
  }

  /** The tokens granted by calls i to j - 1 of a history. */
  function GrantedBetween(b: Bucket, calls: seq<Call>, i: nat, j: nat): real
    requires i <= j <= |calls|
  {
    if i == j then 0.0
    else GrantedBetween(b, calls, i, j - 1) + (if GrantedAt(b, calls, j - 1) then calls[j - 1].n else 0.0)
  }

  /** The tokens asked for by calls i to j - 1. */
  function Asked(calls: seq<Call>, i: nat, j: nat): real
    requires i <= j <= |calls|
  {
    if i == j then 0.0 else Asked(calls, i, j - 1) + calls[j - 1].n
  }

  lemma OneMore(b: Bucket, calls: seq<Call>, i: nat)
    requires i < |calls|
    ensures AfterAll(b, calls[..i + 1]) == Taken(AfterAll(b, calls[..i]), calls[i].n, calls[i].now)
  {
    assert calls[..i + 1][..i] == calls[..i];
  }

  lemma {:induction false} StaysSound(b: Bucket, calls: seq<Call>, i: nat)
    requires Sound(b) && InOrder(calls) && i <= |calls| && (calls == [] || b.last <= calls[0].now)
    ensures var c := AfterAll(b, calls[..i]);
      Sound(c) && c.capacity == b.capacity && c.rate == b.rate && c.last == if i == 0 then b.last else calls[i - 1].now
  {
    hide InOrder;
    if i > 0 {
      StaysSound(b, calls, i - 1);
      OneMore(b, calls, i - 1);
      CallsInOrder(calls, i - 1);
      TakeKeepsSound(AfterAll(b, calls[..i - 1]), calls[i - 1].n, calls[i - 1].now);
    }
  }

  lemma CallsInOrder(calls: seq<Call>, i: nat)
    requires InOrder(calls) && i < |calls|
    ensures calls[0].now <= calls[i].now && calls[i].n >= 0.0 && (i > 0 ==> calls[i - 1].now <= calls[i].now)
  {
  }

  /** A take pays with tokens, and waiting yields at most the gain. */
  lemma TakePays(b: Bucket, n: real, now: int)
    ensures Taken(b, n, now).tokens + (if Granted(b, n, now) then n else 0.0)
      <= b.tokens + Gain(b.rate, now - b.last)
    ensures Taken(b, n, now).tokens + (if Granted(b, n, now) then n else 0.0) <= b.capacity
  {
  }

  lemma {:induction false} WindowPays(b: Bucket, calls: seq<Call>, i: nat, j: nat)
    requires Sound(b) && InOrder(calls) && i < j <= |calls| && b.last <= calls[0].now
    ensures GrantedBetween(b, calls, i, j) + AfterAll(b, calls[..j]).tokens
      <= b.capacity + Gain(b.rate, calls[j - 1].now - calls[i].now)
    decreases j
  {
    hide InOrder, Gain, AfterAll, Granted, Taken, Sound;
    var before := AfterAll(b, calls[..j - 1]);
    StaysSound(b, calls, j - 1);
    OneMore(b, calls, j - 1);
    TakePays(before, calls[j - 1].n, calls[j - 1].now);
    if i + 1 < j {
      WindowPays(b, calls, i, j - 1);
      GainAdds(b.rate, calls[j - 2].now - calls[i].now, calls[j - 1].now - calls[j - 2].now);
    } else {
      GainIsZero(b.rate);
      assert GrantedBetween(b, calls, i, j - 1) == 0.0;
    }
  }

  lemma GainIsZero(rate: real)
    ensures Gain(rate, 0) == 0.0
  {
  }

  /** Any stretch of calls of any history is granted at most capacity plus what the time between them refills. */
  lemma {:induction false} WindowBound(b: Bucket, calls: seq<Call>, i: nat, j: nat)
    requires Sound(b) && InOrder(calls) && i < j <= |calls| && b.last <= calls[0].now
    ensures GrantedBetween(b, calls, i, j) <= b.capacity + Gain(b.rate, calls[j - 1].now - calls[i].now)
  {
    WindowPays(b, calls, i, j);
    StaysSound(b, calls, j);
  }

  // ----- Conforming callers are never refused -----

  ghost predicate AllGranted(b: Bucket, calls: seq<Call>, k: nat)
    requires k <= |calls|
  {
    forall i | 0 <= i < k :: GrantedAt(b, calls, i)
  }

  /** No stretch of the first k calls asks for more than capacity plus refill. */
  ghost predicate Conforms(b: Bucket, calls: seq<Call>, k: nat)
    requires k <= |calls|
  {
    forall i, j | 0 <= i < j <= k :: Asked(calls, i, j) <= b.capacity + Gain(b.rate, calls[j - 1].now - calls[i].now)
  }

  lemma {:induction false} GrantedIsAsked(b: Bucket, calls: seq<Call>, i: nat, j: nat)
    requires i <= j <= |calls| && forall k | i <= k < j :: GrantedAt(b, calls, k)
    ensures GrantedBetween(b, calls, i, j) == Asked(calls, i, j)
  {
    if i < j {
      GrantedIsAsked(b, calls, i, j - 1);
    }
  }

  /** While nothing is refused, the tokens left are those of a window ending at the last call. */
  lemma {:induction false} TightestWindow(b: Bucket, calls: seq<Call>, k: nat) returns (i: nat)
    requires Sound(b) && InOrder(calls) && 0 < k <= |calls| && b.last <= calls[0].now
    requires b.tokens == b.capacity && AllGranted(b, calls, k - 1)
    ensures i < k
    ensures Refilled(AfterAll(b, calls[..k - 1]), calls[k - 1].now) - calls[k - 1].n
      == b.capacity + Gain(b.rate, calls[k - 1].now - calls[i].now) - Asked(calls, i, k)
  {
    hide InOrder, Gain, Sound;
    StaysSound(b, calls, k - 1);
    GainIsZero(b.rate);
    var before := AfterAll(b, calls[..k - 1]);
    i := k - 1;
    assert Asked(calls, i, k) == Asked(calls, i, i) + calls[i].n;
    if k == 1 {
      FullStaysFull(b, calls[0].now);
      assert calls[..0] == [];
    } else if Refilled(before, calls[k - 1].now) != b.capacity {
      i := TightestWindow(b, calls, k - 1);
      assert AfterAll(b, calls[..k - 1]).tokens
        == Refilled(AfterAll(b, calls[..k - 2]), calls[k - 2].now) - calls[k - 2].n by {
        OneMore(b, calls, k - 2);
        assert GrantedAt(b, calls, k - 2);
      }
      GainAdds(b.rate, calls[k - 2].now - calls[i].now, calls[k - 1].now - calls[k - 2].now);
    }
  }

  lemma FullStaysFull(b: Bucket, now: int)
    requires Sound(b) && b.tokens == b.capacity && b.last <= now
    ensures Refilled(b, now) == b.capacity
  {
    GainIsNotNegative(b.rate, now - b.last);
  }

  /** Starting full, no call is refused exactly when no stretch of calls asks for more than the bound allows. */
  lemma {:induction false} ConformingIsNeverRefused(b: Bucket, calls: seq<Call>, k: nat)
    requires Sound(b) && InOrder(calls) && k <= |calls| && (calls == [] || b.last <= calls[0].now)
    requires b.tokens == b.capacity
    ensures AllGranted(b, calls, k) <==> Conforms(b, calls, k)
  {
    hide InOrder, Gain, Sound, AfterAll, Granted;
    if AllGranted(b, calls, k) {
      forall i, j | 0 <= i < j <= k
        ensures Asked(calls, i, j) <= b.capacity + Gain(b.rate, calls[j - 1].now - calls[i].now)
      {
        WindowBound(b, calls, i, j);
        GrantedIsAsked(b, calls, i, j);
      }
    } else {
      NotAllGranted(b, calls, k);
    }
  }

  lemma {:induction false} NotAllGranted(b: Bucket, calls: seq<Call>, k: nat)
    requires Sound(b) && InOrder(calls) && k <= |calls| && (calls == [] || b.last <= calls[0].now)
    requires b.tokens == b.capacity && !AllGranted(b, calls, k)
    ensures !Conforms(b, calls, k)
  {
    hide InOrder, Gain, Sound, AfterAll;
    if AllGranted(b, calls, k - 1) {
      assert !GrantedAt(b, calls, k - 1);
      var i := TightestWindow(b, calls, k);
      assert Asked(calls, i, k) > b.capacity + Gain(b.rate, calls[k - 1].now - calls[i].now);
    } else {
      NotAllGranted(b, calls, k - 1);
    }
  }
}
