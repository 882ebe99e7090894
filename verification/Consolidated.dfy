/**
 The organisation's activity report: one query over the points of all its vehicles, in whatever order the table has
 them, with a window for each vehicle ordered by device time. Each vehicle's row is its own activity report.
 */
module Consolidated {
  import opened Wrappers
  import opened SqlLogic
  import opened Reports
  import opened Activity

  type Vehicle = nat

  /** A row of gps_points joined with its vehicle. */
  datatype Row = Row(vehicle: Vehicle, point: Point)

  /** The rows of one vehicle, as the table has them: a window's partition, a group, or a WHERE vehicle_id = v. */
  function Of(g: seq<Row>, v: Vehicle): seq<Point> {
    if g == [] then [] else (if g[0].vehicle == v then [g[0].point] else []) + Of(g[1..], v)
  }

  /** LEAD(device_time) OVER (ORDER BY device_time), for the row at a time: the least later time, if any. */
  function NextTime(ps: seq<Point>, time: real): (next: Option<real>)
    ensures next.None? ==> forall p | p in ps :: p.time <= time
    ensures next.Some? ==> next.value > time && exists p | p in ps :: p.time == next.value
    ensures next.Some? ==> forall p | p in ps && p.time > time :: next.value <= p.time
  {
    if ps == [] then None
    else
      var rest := NextTime(ps[1..], time);
      assert forall p | p in ps :: p == ps[0] || p in ps[1..];
      if ps[0].time > time && (rest.None? || ps[0].time < rest.value) then Some(ps[0].time) else rest
  }

  /** CASE WHEN category THEN duration_seconds ELSE 0 END, in a partition. */
  function Share(p: Point, partition: seq<Point>, category: Point -> Bool3): real {
    if category(p) == Some(true) then Seconds(p, NextTime(partition, p.time)) else 0.0
  }

  /** The sum over the group of one vehicle, among the rows g of a table, of the durations that the windows give. */
  function GroupTime(g: seq<Row>, table: seq<Row>, v: Vehicle, category: Point -> Bool3): real {
    if g == [] then 0.0
    else
      (if g[0].vehicle == v then Share(g[0].point, Of(table, g[0].vehicle), category) else 0.0)
      + GroupTime(g[1..], table, v, category)
  }

  /** The report's row of a vehicle; GROUP BY makes one for the vehicles that have points. */
  function ConsolidatedRow(g: seq<Row>, v: Vehicle): Option<Report> {
    if Of(g, v) == [] then None
    else Some(Report(
      Some(GroupTime(g, g, v, IsRunning)), Some(GroupTime(g, g, v, IsIdle)), Some(GroupTime(g, g, v, IsStopped)),
      Distance(Of(g, v))))
  }

  // ----- Sums do not depend on the order -----

  function Total(ps: seq<Point>, partition: seq<Point>, category: Point -> Bool3): real {
    if ps == [] then 0.0 else Share(ps[0], partition, category) + Total(ps[1..], partition, category)
  }

  lemma {:induction false} GroupTimeIs(g: seq<Row>, table: seq<Row>, v: Vehicle, category: Point -> Bool3)
    ensures GroupTime(g, table, v, category) == Total(Of(g, v), Of(table, v), category)
  {
    hide Share;
    if g != [] {
      GroupTimeIs(g[1..], table, v, category);
      if g[0].vehicle == v {
        assert Of(g, v)[1..] == Of(g[1..], v);
      } else {
        assert Of(g, v) == Of(g[1..], v);
      }
    }
  }

  lemma {:induction false} TotalInTwo(a: seq<Point>, b: seq<Point>, partition: seq<Point>, category: Point -> Bool3)
    ensures Total(a + b, partition, category) == Total(a, partition, category) + Total(b, partition, category)
  {
    hide Share;
    if a == [] {
      assert a + b == b;
    } else {
      assert (a + b)[1..] == a[1..] + b;
      TotalInTwo(a[1..], b, partition, category);
    }
  }

  /** The place of x in a sequence, and what the others add up to. */
  lemma TakeOut<T>(b: seq<T>, x: T) returns (i: nat)
    requires x in b
    ensures i < |b| && b[i] == x && b == b[..i] + ([x] + b[i + 1..])
    ensures multiset(b[..i] + b[i + 1..]) == multiset(b) - multiset{x}
  {
    i :| 0 <= i < |b| && b[i] == x;
    assert b == b[..i] + ([x] + b[i + 1..]);
    assert multiset(b) == multiset(b[..i]) + multiset{x} + multiset(b[i + 1..]);
  }

  lemma Behead<T>(a: seq<T>)
    requires a != []
    ensures a[0] in a && multiset(a[1..]) == multiset(a) - multiset{a[0]}
  {
    assert a == [a[0]] + a[1..];
  }

  lemma {:induction false} TotalPermutes(a: seq<Point>, b: seq<Point>, partition: seq<Point>, category: Point -> Bool3)
    requires multiset(a) == multiset(b)
    ensures Total(a, partition, category) == Total(b, partition, category)
  {
    hide Share;
    SameElements(a, b);
    if a == [] {
      assert b == [] by {
        assert |multiset(b)| == 0;
      }
    } else {
      Behead(a);
      var i := TakeOut(b, a[0]);
      TotalPermutes(a[1..], b[..i] + b[i + 1..], partition, category);
      TotalInTwo(b[..i], b[i + 1..], partition, category);
      TotalInTwo(b[..i], [a[0]] + b[i + 1..], partition, category);
      assert ([a[0]] + b[i + 1..])[1..] == b[i + 1..];
    }
  }

  lemma SameElements<T>(a: seq<T>, b: seq<T>)
    requires multiset(a) == multiset(b)
    ensures forall x :: x in a <==> x in b
  {
    assert forall x :: x in a <==> x in multiset(a);
    assert forall x :: x in b <==> x in multiset(b);
  }

  lemma NextTimePermutes(a: seq<Point>, b: seq<Point>, time: real)
    requires forall p :: p in a <==> p in b
    ensures NextTime(a, time) == NextTime(b, time)
  {
  }

  /** In a partition sorted by time, the next row's time is the least later one. */
  lemma NextIsLead(h: seq<Point>, i: nat)
    requires Ordered(h) && i < |h|
    ensures NextTime(h, h[i].time) == Lead(h, i)
  {
    if i + 1 < |h| {
      assert h[i + 1] in h;
    }
  }

  /** So the total over a partition in any order is the sum of getActivity over it in time order. */
  lemma {:induction false} TotalIsTime(h: seq<Point>, partition: seq<Point>, category: Point -> Bool3, i: nat)
    requires Ordered(h) && i <= |h| && forall p :: p in h <==> p in partition
    ensures Total(h[i..], partition, category) == TimeFrom(h, category, i)
    decreases |h| - i
  {
    hide Seconds, NextTime, Lead, Ordered;
    if i < |h| {
      assert h[i..][1..] == h[i + 1..];
      NextIsLead(h, i);
      NextTimePermutes(h, partition, h[i].time);
      TotalIsTime(h, partition, category, i + 1);
    }
  }

  // ----- Nor does the distance -----

  lemma DistancePermutes(a: seq<Point>, b: seq<Point>)
    requires forall p :: p in a <==> p in b
    ensures Distance(a) == Distance(b)
  {
    hide Max, Min, Odometers;
    forall x
      ensures x in Odometers(a) <==> x in Odometers(b)
    {
      OdometersOf(a, x);
      OdometersOf(b, x);
    }
    MaxIs(Odometers(a));
    MaxIs(Odometers(b));
    MinIs(Odometers(a));
    MinIs(Odometers(b));
  }

  /**
   Whatever the order of the table, each vehicle's row is what getActivity gives for that vehicle alone, whose points
   it sees in time order; a vehicle without points has none.
   */
  lemma ConsolidatedIsActivity(g: seq<Row>, v: Vehicle, h: seq<Point>)
    requires Ordered(h) && multiset(h) == multiset(Of(g, v))
    ensures ConsolidatedRow(g, v) == if h == [] then None else Some(GetActivity(h))
  {
    hide Ordered, Of, GroupTime, TimeFrom, Distance, IsRunning, IsIdle, IsStopped;
    SameElements(h, Of(g, v));
    DistancePermutes(h, Of(g, v));
    assert |h| == |multiset(h)| == |Of(g, v)|;
    VehicleTime(g, v, h, IsRunning);
    VehicleTime(g, v, h, IsIdle);
    VehicleTime(g, v, h, IsStopped);
  }

  lemma VehicleTime(g: seq<Row>, v: Vehicle, h: seq<Point>, category: Point -> Bool3)
    requires Ordered(h) && multiset(h) == multiset(Of(g, v))
    ensures GroupTime(g, g, v, category) == TimeFrom(h, category, 0)
  {
    hide Ordered, Of, GroupTime, TimeFrom, Total;
    GroupTimeIs(g, g, v, category);
    SameElements(h, Of(g, v));
    TotalPermutes(h, Of(g, v), Of(g, v), category);
    TotalIsTime(h, Of(g, v), category, 0);
    assert h[0..] == h;
  }
}
