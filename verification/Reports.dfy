/**
 The report queries over one vehicle's points in time order, against what they promise: maximal runs longer than a
 threshold, time split into categories without loss, and one row a vehicle equal to that vehicle's own report.
 */
module Reports {
  import opened Wrappers
  import opened SqlLogic
  import opened Islands

  /** A gps_points row; nullable columns are options. */
  datatype Point = Point(
    time: real, lat: real, lng: real, speed: Option<real>, ignition: Option<bool>, odometer: Option<real>)

  /** The points of one vehicle are unique by device time, so the queries see them strictly ordered. */
  predicate Ordered(h: seq<Point>) {
    forall i, j | 0 <= i < j < |h| :: h[i].time < h[j].time
  }

  // ----- Flags -----

  function IsMoving(p: Point): Bool3 {
    Or3(Is(p.ignition, true), Above(p.speed, 0.0))
  }

  function IsStopped(p: Point): Bool3 {
    And3(Equals(p.speed, 0.0), Or3(Is(p.ignition, false), IsNull(p.ignition)))
  }

  function Faster(limit: real): Point -> Bool3 {
    (p: Point) => Above(p.speed, limit)
  }

  // In words, apart from NULLs: a comparison with one is not true.

  predicate Moving(p: Point) {
    p.ignition == Some(true) || (p.speed.Some? && p.speed.value > 0.0)
  }

  predicate Halted(p: Point) {
    p.speed == Some(0.0) && p.ignition != Some(true)
  }

  function Over(limit: real): Point -> bool {
    (p: Point) => p.speed.Some? && p.speed.value > limit
  }

  lemma FlagsInWords(p: Point, limit: real)
    ensures IsMoving(p) == Some(true) <==> Moving(p)
    ensures IsStopped(p) == Some(true) <==> Halted(p)
    ensures Faster(limit)(p) == Some(true) <==> Over(limit)(p)
  {
  }

  function Flags(h: seq<Point>, flag: Point -> Bool3): (flags: seq<Bool3>)
    ensures |flags| == |h|
    ensures forall i | 0 <= i < |h| :: flags[i] == flag(h[i])
  {
    seq(|h|, i requires 0 <= i < |h| => flag(h[i]))
  }

  // ----- GROUP BY, HAVING and the aggregates -----

  function Pick(h: seq<Point>, rows: seq<nat>): (ps: seq<Point>)
    requires forall k | k in rows :: k < |h|
    ensures |ps| == |rows|
  {
    if rows == [] then []
    else
      assert rows[0] in rows && forall k | k in rows[1..] :: k in rows;
      [h[rows[0]]] + Pick(h, rows[1..])
  }

  function Earliest(ps: seq<Point>): Point
    requires ps != []
  {
    if |ps| == 1 then ps[0]
    else
      var e := Earliest(ps[1..]);
      if e.time < ps[0].time then e else ps[0]
  }

  function Latest(ps: seq<Point>): Point
    requires ps != []
  {
    if |ps| == 1 then ps[0]
    else
      var l := Latest(ps[1..]);
      if l.time < ps[0].time then ps[0] else l
  }

  function Span(ps: seq<Point>): real {
    if ps == [] then 0.0 else Latest(ps).time - Earliest(ps).time
  }

  function GroupPoints(h: seq<Point>, groups: seq<seq<nat>>, longer: real): seq<seq<Point>>
    requires forall g, k | g in groups && k in g :: k < |h|
  {
    if groups == [] then []
    else
      var last := groups[|groups| - 1];
      assert last in groups;
      var ps := Pick(h, last);
      GroupPoints(h, groups[..|groups| - 1], longer) + (if Span(ps) > longer then [ps] else [])
  }

  /**
   The point groups a query keeps: flagged rows by island, spanning more than the threshold. They come by island id,
   which KeptAreLongRuns and RunsKeptAre show to be the order of start times that the queries ask for.
   */
  function Kept(h: seq<Point>, flag: Point -> Bool3, longer: real): seq<seq<Point>> {
    var flags := Flags(h, flag);
    GroupsInRange(flags);
    GroupPoints(h, Groups(flags), longer)
  }

  function Odometers(ps: seq<Point>): seq<Option<real>> {
    seq(|ps|, i requires 0 <= i < |ps| => ps[i].odometer)
  }

  function Speeds(ps: seq<Point>): seq<Option<real>> {
    seq(|ps|, i requires 0 <= i < |ps| => ps[i].speed)
  }

  function Distance(ps: seq<Point>): Option<real> {
    Minus(Max(Odometers(ps)), Min(Odometers(ps)))
  }

  lemma OdometersOf(ps: seq<Point>, x: Option<real>)
    ensures x in Odometers(ps) <==> exists p | p in ps :: p.odometer == x
  {
    if x in Odometers(ps) {
      var i :| 0 <= i < |ps| && Odometers(ps)[i] == x;
      assert ps[i] in ps;
    }
    if p :| p in ps && p.odometer == x {
      var i :| 0 <= i < |ps| && ps[i] == p;
      assert Odometers(ps)[i] == x;
    }
  }

  /** MAX(odometer) - MIN(odometer): the difference of two of the odometer readings, with all others between them. */
  ghost predicate Travelled(ps: seq<Point>, d: Option<real>) {
    if d.None? then forall p | p in ps :: p.odometer.None?
    else
      exists low, high |
        (exists p | p in ps :: p.odometer == Some(low)) && (exists p | p in ps :: p.odometer == Some(high)) ::
        && d.value == high - low && forall p | p in ps && p.odometer.Some? :: low <= p.odometer.value <= high
  }

  lemma DistanceIs(ps: seq<Point>)
    ensures Travelled(ps, Distance(ps))
  {
    hide Max, Min, Odometers;
    var xs := Odometers(ps);
    MaxIs(xs);
    MinIs(xs);
    forall p | p in ps
      ensures p.odometer in xs
    {
      OdometersOf(ps, p.odometer);
    }
    if Distance(ps).Some? {
      OdometersOf(ps, Max(xs));
      OdometersOf(ps, Min(xs));
      var low, high := Min(xs).value, Max(xs).value;
      assert (exists p | p in ps :: p.odometer == Some(low)) && (exists p | p in ps :: p.odometer == Some(high));
    } else {
      forall p | p in ps
        ensures p.odometer.None?
      {
        assert p.odometer in xs;
      }
    }
  }

  /** The greatest speed, and the one that the known speeds balance around. */
  ghost predicate Fastest(ps: seq<Point>, m: Option<real>) {
    if m.None? then forall p | p in ps :: p.speed.None?
    else (exists p | p in ps :: p.speed == m) && forall p | p in ps && p.speed.Some? :: p.speed.value <= m.value
  }

  function SpeedExcess(ps: seq<Point>, value: real): real {
    if ps == [] then 0.0
    else
      var last := ps[|ps| - 1];
      SpeedExcess(ps[..|ps| - 1], value) + (if last.speed.Some? then last.speed.value - value else 0.0)
  }

  ghost predicate Average(ps: seq<Point>, a: Option<real>) {
    if a.None? then forall p | p in ps :: p.speed.None? else SpeedExcess(ps, a.value) == 0.0
  }

  lemma SpeedsOf(ps: seq<Point>, x: Option<real>)
    ensures x in Speeds(ps) <==> exists p | p in ps :: p.speed == x
  {
    if x in Speeds(ps) {
      var i :| 0 <= i < |ps| && Speeds(ps)[i] == x;
      assert ps[i] in ps;
    }
    if p :| p in ps && p.speed == x {
      var i :| 0 <= i < |ps| && ps[i] == p;
      assert Speeds(ps)[i] == x;
    }
  }

  lemma {:induction false} SpeedExcessIs(ps: seq<Point>, value: real)
    ensures SpeedExcess(ps, value) == Excess(Speeds(ps), value)
  {
    if ps != [] {
      SpeedExcessIs(ps[..|ps| - 1], value);
      assert Speeds(ps)[..|ps| - 1] == Speeds(ps[..|ps| - 1]);
    }
  }

  lemma SpeedsAre(ps: seq<Point>)
    ensures Fastest(ps, Max(Speeds(ps))) && Average(ps, Avg(Speeds(ps)))
  {
    hide Max, Avg, Speeds, Excess, SpeedExcess;
    MaxIs(Speeds(ps));
    AvgIs(Speeds(ps));
    forall p | p in ps
      ensures p.speed in Speeds(ps)
    {
      SpeedsOf(ps, p.speed);
    }
    if Max(Speeds(ps)).Some? {
      SpeedsOf(ps, Max(Speeds(ps)));
    }
    if Avg(Speeds(ps)).Some? {
      SpeedExcessIs(ps, Avg(Speeds(ps)).value);
    }
  }

  datatype Trip = Trip(start: real, end: real, startLat: real, startLng: real, endLat: real, endLng: real,
                       maxSpeed: Option<real>, avgSpeed: Option<real>, distance: Option<real>, duration: real)

  function TripRow(ps: seq<Point>): Trip
    requires ps != []
  {
    Trip(Earliest(ps).time, Latest(ps).time, Earliest(ps).lat, Earliest(ps).lng, Latest(ps).lat, Latest(ps).lng,
         Max(Speeds(ps)), Avg(Speeds(ps)), Distance(ps), Span(ps))
  }

  datatype Stop = Stop(start: real, end: real, lat: real, lng: real, duration: real)

  function StopRow(ps: seq<Point>): Stop
    requires ps != []
  {
    Stop(Earliest(ps).time, Latest(ps).time, Earliest(ps).lat, Earliest(ps).lng, Span(ps))
  }

  function MapRows<R>(groups: seq<seq<Point>>, row: seq<Point> --> R): seq<R>
    requires forall ps | ps in groups :: row.requires(ps)
  {
    seq(|groups|, i requires 0 <= i < |groups| => row(groups[i]))
  }

  lemma {:induction false} KeptNotEmpty(h: seq<Point>, groups: seq<seq<nat>>, longer: real)
    requires longer >= 0.0 && forall g, k | g in groups && k in g :: k < |h|
    ensures forall ps | ps in GroupPoints(h, groups, longer) :: ps != []
  {
    if groups != [] {
      KeptNotEmpty(h, groups[..|groups| - 1], longer);
    }
  }

  lemma GroupsInRange(flags: seq<Bool3>)
    ensures forall g, k | g in Groups(flags) && k in g :: k < |flags|
  {
    GroupsAreRuns(flags);
    RangesInRange(Runs(flags), |flags|);
  }

  lemma {:induction false} RangesInRange(runs: seq<Run>, n: nat)
    requires forall r | r in runs :: r.hi <= n
    ensures forall g, k | g in Ranges(runs) && k in g :: k < n
  {
    if runs != [] {
      RangesInRange(runs[..|runs| - 1], n);
      RangeMembers(runs[|runs| - 1].lo, runs[|runs| - 1].hi);
      assert runs[|runs| - 1] in runs;
    }
  }

  lemma {:induction false} RangeMembers(lo: nat, hi: nat)
    ensures forall k | k in Range(lo, hi) :: lo <= k < hi
    decreases hi - lo
  {
    if lo < hi {
      RangeMembers(lo + 1, hi);
    }
  }

  function Trips(h: seq<Point>): seq<Trip> {
    var groups := Kept(h, IsMoving, 60.0);
    GroupsInRange(Flags(h, IsMoving));
    KeptNotEmpty(h, Groups(Flags(h, IsMoving)), 60.0);
    MapRows(groups, ps requires ps != [] => TripRow(ps))
  }

  function Stoppages(h: seq<Point>): seq<Stop> {
    var groups := Kept(h, IsStopped, 60.0);
    GroupsInRange(Flags(h, IsStopped));
    KeptNotEmpty(h, Groups(Flags(h, IsStopped)), 60.0);
    MapRows(groups, ps requires ps != [] => StopRow(ps))
  }

  function Overspeeding(h: seq<Point>, limit: real): seq<(Stop, Option<real>, Option<real>)> {
    var flag := Faster(limit);
    var groups := Kept(h, flag, 0.0);
    GroupsInRange(Flags(h, flag));
    KeptNotEmpty(h, Groups(Flags(h, flag)), 0.0);
    MapRows(groups, ps requires ps != [] => (StopRow(ps), Max(Speeds(ps)), Avg(Speeds(ps))))
  }

  // ----- Islands reports are the long maximal runs -----

  function Length(h: seq<Point>, r: Run): real
    requires r.lo < r.hi <= |h|
  {
    h[r.hi - 1].time - h[r.lo].time
  }

  function LongRuns(h: seq<Point>, runs: seq<Run>, longer: real): (long: seq<Run>)
    requires forall r | r in runs :: r.lo < r.hi <= |h|
    ensures forall r :: r in long <==> r in runs && Length(h, r) > longer
  {
    if runs == [] then []
    else
      var last := runs[|runs| - 1];
      LongRuns(h, runs[..|runs| - 1], longer) + (if Length(h, last) > longer then [last] else [])
  }

  function PointsOf(h: seq<Point>, runs: seq<Run>): seq<seq<Point>>
    requires forall r | r in runs :: r.lo < r.hi <= |h|
  {
    seq(|runs|, i requires 0 <= i < |runs| => h[runs[i].lo..runs[i].hi])
  }

  lemma {:induction false} PickRange(h: seq<Point>, lo: nat, hi: nat)
    requires lo <= hi <= |h|
    ensures (forall k | k in Range(lo, hi) :: k < |h|) && Pick(h, Range(lo, hi)) == h[lo..hi]
    decreases hi - lo
  {
    RangeMembers(lo, hi);
    if lo < hi {
      PickRange(h, lo + 1, hi);
      assert Range(lo, hi)[1..] == Range(lo + 1, hi);
    }
  }

  /** In time order, the earliest point is the first and the latest the last. */
  lemma {:induction false} EndsOfRun(ps: seq<Point>)
    requires ps != [] && Ordered(ps)
    ensures Earliest(ps) == ps[0] && Latest(ps) == ps[|ps| - 1]
  {
    if |ps| > 1 {
      EndsOfRun(ps[1..]);
    }
  }

  lemma RunPoints(h: seq<Point>, r: Run)
    requires Ordered(h) && r.lo < r.hi <= |h|
    ensures forall k | k in Range(r.lo, r.hi) :: k < |h|
    ensures Pick(h, Range(r.lo, r.hi)) == h[r.lo..r.hi]
    ensures Span(h[r.lo..r.hi]) == Length(h, r)
  {
    hide Pick, Range, Earliest, Latest;
    PickRange(h, r.lo, r.hi);
    EndsOfRun(h[r.lo..r.hi]);
  }

  lemma {:induction false} GroupPointsAreRuns(h: seq<Point>, runs: seq<Run>, longer: real)
    requires Ordered(h) && forall r | r in runs :: r.lo < r.hi <= |h|
    ensures forall g, k | g in Ranges(runs) && k in g :: k < |h|
    ensures GroupPoints(h, Ranges(runs), longer) == PointsOf(h, LongRuns(h, runs, longer))
  {
    hide Span, Pick, Range, Ordered, Length;
    RangesInRange(runs, |h|);
    if runs != [] {
      var last := runs[|runs| - 1];
      assert last in runs;
      GroupPointsAreRuns(h, runs[..|runs| - 1], longer);
      RunPoints(h, last);
      assert Ranges(runs)[..|Ranges(runs)| - 1] == Ranges(runs[..|runs| - 1]);
      assert Ranges(runs)[|Ranges(runs)| - 1] == Range(last.lo, last.hi);
    }
  }

  lemma EarlierStart(runs: seq<Run>, r: Run)
    requires Ascending(runs) && runs != [] && r in runs[..|runs| - 1]
    ensures r.lo < runs[|runs| - 1].lo
  {
  }

  lemma {:induction false} LongRunsAscend(h: seq<Point>, runs: seq<Run>, longer: real)
    requires Ascending(runs) && forall r | r in runs :: r.lo < r.hi <= |h|
    ensures Ascending(LongRuns(h, runs, longer))
  {
    hide Length;
    if runs != [] {
      var front := LongRuns(h, runs[..|runs| - 1], longer);
      LongRunsAscend(h, runs[..|runs| - 1], longer);
      var last := runs[|runs| - 1];
      forall i | 0 <= i < |front|
        ensures front[i].lo < last.lo
      {
        assert front[i] in front;
        EarlierStart(runs, front[i]);
      }
    }
  }

  /** The maximal runs of a flag that last longer than a threshold, from first to last. */
  function RunsKept(h: seq<Point>, flag: Point -> Bool3, longer: real): (runs: seq<Run>)
    ensures forall r | r in runs :: r.lo < r.hi <= |h|
  {
    LongRuns(h, Runs(Flags(h, flag)), longer)
  }

  /** Runs whose rows all carry the flag, apart from each other and in order. */
  ghost predicate Apart(flags: seq<Bool3>, runs: seq<Run>) {
    && (forall r | r in runs :: r.lo < r.hi <= |flags| && forall k | r.lo <= k < r.hi :: On(flags, k))
    && (forall a, b | 0 <= a < b < |runs| :: runs[a].hi < runs[b].lo)
  }

  lemma OnInside(flags: seq<Bool3>, r: Run)
    requires Maximal(flags, r)
    ensures r.lo < r.hi <= |flags| && forall k | r.lo <= k < r.hi :: On(flags, k)
  {
  }

  lemma RunsKeptAre(h: seq<Point>, flag: Point -> Bool3, longer: real)
    ensures forall r :: r in RunsKept(h, flag, longer) <==> Maximal(Flags(h, flag), r) && Length(h, r) > longer
    ensures Apart(Flags(h, flag), RunsKept(h, flag, longer))
  {
    hide Length, LongRuns, RunsFrom, Maximal;
    var flags, runs := Flags(h, flag), RunsKept(h, flag, longer);
    RunsAreMaximal(flags, 0);
    LongRunsAscend(h, Runs(flags), longer);
    forall a, b | 0 <= a < b < |runs|
      ensures runs[a].hi < runs[b].lo
    {
      assert runs[a] in runs && runs[b] in runs;
      RunsAreDisjoint(flags, runs[a], runs[b]);
    }
    forall r | r in runs
      ensures r.lo < r.hi <= |flags| && forall k | r.lo <= k < r.hi :: On(flags, k)
    {
      OnInside(flags, r);
    }
  }

  /** What a query keeps is exactly the maximal runs of its flag that last longer than its threshold, in order. */
  lemma KeptAreLongRuns(h: seq<Point>, flag: Point -> Bool3, longer: real)
    requires Ordered(h)
    ensures Kept(h, flag, longer) == PointsOf(h, RunsKept(h, flag, longer))
  {
    hide GroupPoints, Ordered, PointsOf, LongRuns;
    var flags := Flags(h, flag);
    GroupsAreRuns(flags);
    GroupPointsAreRuns(h, Runs(flags), longer);
  }

  /** A row starts where its run's first point is and ends where its last is, and sums its points up. */
  ghost predicate IsTripOf(t: Trip, h: seq<Point>, r: Run)
    requires r.lo < r.hi <= |h|
  {
    var ps, first, last := h[r.lo..r.hi], h[r.lo], h[r.hi - 1];
    && t.start == first.time && t.startLat == first.lat && t.startLng == first.lng
    && t.end == last.time && t.endLat == last.lat && t.endLng == last.lng
    && t.duration == last.time - first.time
    && Fastest(ps, t.maxSpeed) && Average(ps, t.avgSpeed) && Travelled(ps, t.distance)
  }

  predicate IsStopOf(s: Stop, h: seq<Point>, r: Run)
    requires r.lo < r.hi <= |h|
  {
    && s.start == h[r.lo].time && s.end == h[r.hi - 1].time && s.lat == h[r.lo].lat && s.lng == h[r.lo].lng
    && s.duration == h[r.hi - 1].time - h[r.lo].time
  }

  lemma RowsOfRun(h: seq<Point>, r: Run)
    requires Ordered(h) && r.lo < r.hi <= |h|
    ensures IsTripOf(TripRow(h[r.lo..r.hi]), h, r) && IsStopOf(StopRow(h[r.lo..r.hi]), h, r)
  {
    hide Max, Avg, Speeds, Distance, Earliest, Latest, Fastest, Average, Travelled;
    EndsOfRun(h[r.lo..r.hi]);
    SpeedsAre(h[r.lo..r.hi]);
    DistanceIs(h[r.lo..r.hi]);
  }

  /** The points from lo up to but not including hi all meet a condition, and neither neighbour does. */
  predicate RunOf(h: seq<Point>, r: Run, holds: Point -> bool) {
    && r.lo < r.hi <= |h|
    && (forall k | r.lo <= k < r.hi :: holds(h[k]))
    && (r.lo == 0 || !holds(h[r.lo - 1]))
    && (r.hi == |h| || !holds(h[r.hi]))
  }

  lemma MaximalInWords(h: seq<Point>, flag: Point -> Bool3, holds: Point -> bool)
    requires forall p :: flag(p) == Some(true) <==> holds(p)
    ensures forall r :: Maximal(Flags(h, flag), r) <==> RunOf(h, r, holds)
  {
    var flags := Flags(h, flag);
    assert forall k | 0 <= k < |h| :: On(flags, k) <==> holds(h[k]);
    forall r
      ensures Maximal(flags, r) <==> RunOf(h, r, holds)
    {
      OneMaximal(h, flags, holds, r);
    }
  }

  lemma OneMaximal(h: seq<Point>, flags: seq<Bool3>, holds: Point -> bool, r: Run)
    requires |flags| == |h| && forall k | 0 <= k < |h| :: On(flags, k) <==> holds(h[k])
    ensures Maximal(flags, r) <==> RunOf(h, r, holds)
  {
    hide On;
  }

  lemma FlagsAre()
    ensures forall p :: IsMoving(p) == Some(true) <==> Moving(p)
    ensures forall p :: IsStopped(p) == Some(true) <==> Halted(p)
    ensures forall p, limit :: Faster(limit)(p) == Some(true) <==> Over(limit)(p)
  {
    forall p, limit
      ensures IsMoving(p) == Some(true) <==> Moving(p)
      ensures IsStopped(p) == Some(true) <==> Halted(p)
      ensures Faster(limit)(p) == Some(true) <==> Over(limit)(p)
    {
      FlagsInWords(p, limit);
    }
  }

  /** Of the runs a query keeps, each ends before the next one starts. */
  lemma RunsInTime(h: seq<Point>, flag: Point -> Bool3, longer: real)
    requires Ordered(h)
    ensures var runs := RunsKept(h, flag, longer);
      && (forall i | 0 <= i < |runs| :: runs[i] in runs)
      && forall i, j | 0 <= i < j < |runs| :: h[runs[i].hi - 1].time < h[runs[j].lo].time
  {
    hide Maximal, RunsKept, Flags, On;
    RunsKeptAre(h, flag, longer);
    var runs := RunsKept(h, flag, longer);
    assert forall i | 0 <= i < |runs| :: runs[i] in runs;
  }

  lemma KeptRow(h: seq<Point>, flag: Point -> Bool3, longer: real, i: nat)
    requires Ordered(h) && i < |RunsKept(h, flag, longer)|
    ensures var r := RunsKept(h, flag, longer)[i];
      r in RunsKept(h, flag, longer) && i < |Kept(h, flag, longer)| && Kept(h, flag, longer)[i] == h[r.lo..r.hi]
  {
    hide Ordered, Kept, RunsKept;
    KeptAreLongRuns(h, flag, longer);
  }

  /**
   getTrips returns one row for each maximal moving run longer than a minute, none other, in time order and apart;
   the row starts where the run's first point is and ends where its last is.
   */
  lemma TripsAreMovingRuns(h: seq<Point>)
    requires Ordered(h)
    ensures var runs := RunsKept(h, IsMoving, 60.0);
      && (forall r :: r in runs <==> RunOf(h, r, Moving) && h[r.hi - 1].time - h[r.lo].time > 60.0)
      && |Trips(h)| == |runs|
      && (forall i | 0 <= i < |runs| :: runs[i] in runs && IsTripOf(Trips(h)[i], h, runs[i]))
      && (forall i, j | 0 <= i < j < |runs| :: Trips(h)[i].end < Trips(h)[j].start)
  {
    hide Ordered, Kept, Maximal, RunsKept, Flags, Groups, TripRow, RunOf, Moving, IsMoving;
    hide Fastest, Average, Travelled;
    var runs := RunsKept(h, IsMoving, 60.0);
    FlagsAre();
    MaximalInWords(h, IsMoving, Moving);
    RunsKeptAre(h, IsMoving, 60.0);
    RunsInTime(h, IsMoving, 60.0);
    KeptAreLongRuns(h, IsMoving, 60.0);
    forall i | 0 <= i < |runs|
      ensures runs[i] in runs && Trips(h)[i] == TripRow(h[runs[i].lo..runs[i].hi])
      ensures IsTripOf(TripRow(h[runs[i].lo..runs[i].hi]), h, runs[i])
    {
      KeptRow(h, IsMoving, 60.0, i);
      RowsOfRun(h, runs[i]);
    }
  }

  /** getStoppages, likewise, for maximal stopped runs longer than a minute. */
  lemma StoppagesAreStoppedRuns(h: seq<Point>)
    requires Ordered(h)
    ensures var runs := RunsKept(h, IsStopped, 60.0);
      && (forall r :: r in runs <==> RunOf(h, r, Halted) && h[r.hi - 1].time - h[r.lo].time > 60.0)
      && |Stoppages(h)| == |runs|
      && (forall i | 0 <= i < |runs| :: runs[i] in runs && IsStopOf(Stoppages(h)[i], h, runs[i]))
      && (forall i, j | 0 <= i < j < |runs| :: Stoppages(h)[i].end < Stoppages(h)[j].start)
  {
    hide Ordered, Kept, Maximal, RunsKept, Flags, Groups, StopRow, RunOf, Halted, IsStopped;
    var runs := RunsKept(h, IsStopped, 60.0);
    FlagsAre();
    MaximalInWords(h, IsStopped, Halted);
    RunsKeptAre(h, IsStopped, 60.0);
    RunsInTime(h, IsStopped, 60.0);
    KeptAreLongRuns(h, IsStopped, 60.0);
    forall i | 0 <= i < |runs|
      ensures runs[i] in runs && Stoppages(h)[i] == StopRow(h[runs[i].lo..runs[i].hi])
      ensures IsStopOf(StopRow(h[runs[i].lo..runs[i].hi]), h, runs[i])
    {
      KeptRow(h, IsStopped, 60.0, i);
      RowsOfRun(h, runs[i]);
    }
  }

  lemma LongerThanAPoint(h: seq<Point>, flags: seq<Bool3>)
    requires Ordered(h) && |flags| == |h|
    ensures forall r | Maximal(flags, r) :: Length(h, r) > 0.0 <==> r.lo + 1 < r.hi
  {
  }

  /** getOverspeeding, likewise, for maximal runs above the limit of more than one point. */
  lemma OverspeedingAreFastRuns(h: seq<Point>, limit: real)
    requires Ordered(h)
    ensures var runs := RunsKept(h, Faster(limit), 0.0);
      && (forall r :: r in runs <==> RunOf(h, r, Over(limit)) && r.lo + 1 < r.hi)
      && |Overspeeding(h, limit)| == |runs|
      && (forall i | 0 <= i < |runs| ::
        && runs[i] in runs
        && var row, ps := Overspeeding(h, limit)[i], h[runs[i].lo..runs[i].hi];
        && IsStopOf(row.0, h, runs[i]) && Fastest(ps, row.1) && Average(ps, row.2))
      && (forall i, j | 0 <= i < j < |runs| :: Overspeeding(h, limit)[i].0.end < Overspeeding(h, limit)[j].0.start)
  {
    hide Ordered, Kept, Maximal, RunsKept, Flags, Groups, Max, Avg, Speeds, StopRow, RunOf, Over, Faster;
    hide Fastest, Average, Travelled;
    var flag := Faster(limit);
    FlagsAre();
    MaximalInWords(h, flag, Over(limit));
    var runs := RunsKept(h, flag, 0.0);
    RunsKeptAre(h, flag, 0.0);
    RunsInTime(h, flag, 0.0);
    KeptAreLongRuns(h, flag, 0.0);
    FlagsLength(h, flag);
    LongerThanAPoint(h, Flags(h, flag));
    forall i | 0 <= i < |runs|
      ensures runs[i] in runs
      ensures var ps := h[runs[i].lo..runs[i].hi];
        && Overspeeding(h, limit)[i] == (StopRow(ps), Max(Speeds(ps)), Avg(Speeds(ps)))
        && Fastest(ps, Max(Speeds(ps))) && Average(ps, Avg(Speeds(ps)))
        && IsStopOf(StopRow(ps), h, runs[i])
    {
      KeptRow(h, flag, 0.0, i);
      RowsOfRun(h, runs[i]);
      SpeedsAre(h[runs[i].lo..runs[i].hi]);
    }
  }

  lemma FlagsLength(h: seq<Point>, flag: Point -> Bool3)
    ensures |Flags(h, flag)| == |h|
  {
  }
}
