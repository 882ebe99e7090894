/**
 The consumer group's pending entries list and what readPending recovers from it. Entry ids are positions in
 the stream; a consumer's pending ids are a set.
 */
module RedisStreams {

  type Id = nat

  const RECOVERY_LIMIT := 1000

  /** The ids of `pel` from lo up to but not including hi, ascending. */
  function Ascending(pel: set<Id>, lo: Id, hi: Id): (ids: seq<Id>)
    decreases hi - lo
    ensures forall id :: id in ids <==> lo <= id < hi && id in pel
    ensures Increasing(ids)
  {
    if lo >= hi then []
    else
      var rest := Ascending(pel, lo + 1, hi);
      assert forall j | 0 <= j < |rest| :: rest[j] in rest;
      if lo in pel then [lo] + rest else rest
  }

  predicate Increasing(ids: seq<Id>) {
    forall i, j | 0 <= i < j < |ids| :: ids[i] < ids[j]
  }

  function Take(ids: seq<Id>, n: nat): seq<Id> {
    if |ids| <= n then ids else ids[..n]
  }

  /** XPENDING stream group 0 + 1000 consumer. */
  function XPending(pel: set<Id>, end: Id): seq<Id> {
    Take(Ascending(pel, 0, end), RECOVERY_LIMIT)
  }

  /** XRANGE stream first last, then the filter on the pending ids. */
  function Recovered(ids: seq<Id>): seq<Id> {
    if ids == [] || ids[0] > ids[|ids| - 1] then []
    else Ascending((set id | id in ids), ids[0], ids[|ids| - 1] + 1)
  }

  /** readPending, for a stream of `end` entries. */
  function ReadPending(pel: set<Id>, end: Id): seq<Id> {
    Recovered(XPending(pel, end))
  }

  lemma {:induction false} IncreasingUnique(a: seq<Id>, b: seq<Id>)
    requires Increasing(a) && Increasing(b)
    requires forall id :: id in a <==> id in b
    ensures a == b
  {
    IncreasingLength(a);
    IncreasingLength(b);
    assert Members(a) == Members(b);
    if a != [] {
      assert a[0] in a && a[0] in b;
      assert b[0] in b && b[0] in a;
      assert a[0] == b[0];
      forall id
        ensures id in a[1..] <==> id in b[1..]
      {
        if id in a[1..] { assert id in a && id > a[0]; }
        if id in b[1..] { assert id in b && id > b[0]; }
      }
      IncreasingUnique(a[1..], b[1..]);
    }
  }

  /** Reading the range and filtering it gives back exactly the ids XPENDING listed. */
  lemma ReadPendingIsXPending(pel: set<Id>, end: Id)
    ensures ReadPending(pel, end) == XPending(pel, end)
    ensures forall id | id in ReadPending(pel, end) :: id < end && id in pel
  {
    var ids := XPending(pel, end);
    if ids != [] {
      IncreasingUnique(Recovered(ids), ids);
    }
  }

  function Members(ids: seq<Id>): set<Id> {
    set id | id in ids
  }

  lemma {:induction false} IncreasingLength(ids: seq<Id>)
    requires Increasing(ids)
    ensures |Members(ids)| == |ids|
  {
    if ids != [] {
      var front, last := ids[..|ids| - 1], ids[|ids| - 1];
      IncreasingLength(front);
      assert ids == front + [last];
      assert Members(ids) == Members(front) + {last};
      assert last !in front;
    }
  }

  /** Recovery re-reads the oldest pending entries, and all of them exactly when there are at most 1000. */
  lemma RecoveryIsComplete(pel: set<Id>, end: Id)
    requires forall id | id in pel :: id < end
    ensures var ids := ReadPending(pel, end);
      && (forall id | id in ids :: id in pel)
      && (forall id, other | id in ids && other in pel && other !in ids :: id < other)
      && (Members(ids) == pel <==> |pel| <= 1000)
  {
    ReadPendingIsXPending(pel, end);
    var all, ids := Ascending(pel, 0, end), XPending(pel, end);
    assert Members(all) == pel;
    IncreasingLength(all);
    IncreasingLength(ids);
  }
}
