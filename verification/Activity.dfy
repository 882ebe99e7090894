/**
 The activity queries: every second between two points of a vehicle goes to one category at most, trips and
 stoppages fit in their categories, the organisation report gives each vehicle its own report, and the ignition
 events are enough to rebuild the ignition column.
 */
module Activity {
  import opened Wrappers
  import opened SqlLogic
  import opened Islands
  import opened Reports

  // ----- getActivity -----

  function IsRunning(p: Point): Bool3 {
    Above(p.speed, 0.0)
  }

  function IsIdle(p: Point): Bool3 {
    And3(Equals(p.speed, 0.0), Is(p.ignition, true))
  }

  /** COALESCE(EXTRACT(EPOCH FROM LEAD(device_time) - device_time), 0), for a row whose successor's time is lead. */
  function Seconds(p: Point, lead: Option<real>): real {
    var d := Minus(lead, Some(p.time));
    if d.None? then 0.0 else d.value
  }

  function Lead(h: seq<Point>, i: nat): Option<real> {
    if i + 1 < |h| then Some(h[i + 1].time) else None
  }

  /** SUM(CASE WHEN category THEN duration_seconds ELSE 0 END), over the rows from i on. */
  function TimeFrom(h: seq<Point>, category: Point -> Bool3, i: nat): real
    requires i <= |h|
    decreases |h| - i
  {
    if i == |h| then 0.0
    else (if category(h[i]) == Some(true) then Seconds(h[i], Lead(h, i)) else 0.0) + TimeFrom(h, category, i + 1)
  }

  /** A row of the activity report; the sums are NULL over no points. */
  datatype Report = Report(
    running: Option<real>, idle: Option<real>, stopped: Option<real>, distance: Option<real>)

  function GetActivity(h: seq<Point>): Report {
    if h == [] then Report(None, None, None, None)
    else Report(Some(TimeFrom(h, IsRunning, 0)), Some(TimeFrom(h, IsIdle, 0)), Some(TimeFrom(h, IsStopped, 0)),
                Distance(h))
  }

  // ----- Time is conserved -----

  /** The speeds that fall in a category. */
  function SpeedKnown(p: Point): Bool3 {
    Some(p.speed.Some? && p.speed.value >= 0.0)
  }

  predicate AllKnown(h: seq<Point>, i: nat) {
    forall k | i <= k < |h| - 1 :: SpeedKnown(h[k]) == Some(true)
  }

  lemma OneCategory(p: Point)
    ensures (if IsRunning(p) == Some(true) then 1 else 0) + (if IsIdle(p) == Some(true) then 1 else 0)
         + (if IsStopped(p) == Some(true) then 1 else 0) == (if SpeedKnown(p) == Some(true) then 1 else 0)
  {
  }

  lemma {:induction false} CategoriesAddUp(h: seq<Point>, i: nat)
    requires i <= |h|
    ensures TimeFrom(h, IsRunning, i) + TimeFrom(h, IsIdle, i) + TimeFrom(h, IsStopped, i)
         == TimeFrom(h, SpeedKnown, i)
    decreases |h| - i
  {
    hide IsRunning, IsIdle, IsStopped, SpeedKnown, Seconds;
    if i < |h| {
      OneCategory(h[i]);
      CategoriesAddUp(h, i + 1);
    }
  }

  lemma {:induction false} KnownTime(h: seq<Point>, i: nat)
    requires Ordered(h) && i < |h|
    ensures TimeFrom(h, SpeedKnown, i) <= h[|h| - 1].time - h[i].time
    ensures TimeFrom(h, SpeedKnown, i) == h[|h| - 1].time - h[i].time <==> AllKnown(h, i)
    decreases |h| - i
  {
    if i + 1 < |h| {
      KnownTime(h, i + 1);
      assert AllKnown(h, i) <==> SpeedKnown(h[i]) == Some(true) && AllKnown(h, i + 1);
    }
  }

  /**
   Running, idle and stopped seconds never exceed the time from first to last point, and add up to it exactly
   when every point but the last has a speed that is not NULL and not negative.
   */
  lemma TimeConserved(h: seq<Point>)
    requires Ordered(h) && h != []
    ensures var r, total := GetActivity(h), h[|h| - 1].time - h[0].time;
      && r.running.Some? && r.idle.Some? && r.stopped.Some?
      && r.running.value + r.idle.value + r.stopped.value <= total
      && (r.running.value + r.idle.value + r.stopped.value == total <==>
          forall k | 0 <= k < |h| - 1 :: h[k].speed.Some? && h[k].speed.value >= 0.0)
  {
    hide TimeFrom;
    CategoriesAddUp(h, 0);
    KnownTime(h, 0);
    assert AllKnown(h, 0) <==> forall k | 0 <= k < |h| - 1 :: h[k].speed.Some? && h[k].speed.value >= 0.0;
  }

  // ----- Each category on its own -----

  predicate Driving(p: Point) {
    p.speed.Some? && p.speed.value > 0.0
  }

  predicate Idling(p: Point) {
    p.speed == Some(0.0) && p.ignition == Some(true)
  }

  /** The time from each of the first n points to the next, where the point meets a condition. */
  function Spent(h: seq<Point>, holds: Point -> bool, n: nat): real
    requires n <= |h|
  {
    if n <= 1 then 0.0
    else Spent(h, holds, n - 1) + (if holds(h[n - 2]) then h[n - 1].time - h[n - 2].time else 0.0)
  }

  lemma {:induction false} SpentIs(h: seq<Point>, category: Point -> Bool3, holds: Point -> bool, n: nat)
    requires 1 <= n <= |h| && forall p :: category(p) == Some(true) <==> holds(p)
    ensures TimeFrom(h, category, 0) == Spent(h, holds, n) + TimeFrom(h, category, n - 1)
  {
    if n > 1 {
      SpentIs(h, category, holds, n - 1);
    }
  }

  lemma AllSpent(h: seq<Point>, category: Point -> Bool3, holds: Point -> bool)
    requires h != [] && forall p :: category(p) == Some(true) <==> holds(p)
    ensures TimeFrom(h, category, 0) == Spent(h, holds, |h|)
  {
    hide Spent;
    SpentIs(h, category, holds, |h|);
    LastTakesNoTime(h, category);
  }

  lemma LastTakesNoTime(h: seq<Point>, category: Point -> Bool3)
    requires h != []
    ensures TimeFrom(h, category, |h| - 1) == 0.0
  {
  }

  lemma CategoriesInWords()
    ensures forall p :: IsRunning(p) == Some(true) <==> Driving(p)
    ensures forall p :: IsIdle(p) == Some(true) <==> Idling(p)
    ensures forall p :: IsStopped(p) == Some(true) <==> Halted(p)
  {
    FlagsAre();
  }

  /**
   What the report says: time counts as running after a point with a known speed above 0, as idle after one with speed
   0 and the ignition known to be on, as stopped after one with speed 0 otherwise; without points all is NULL.
   */
  lemma ActivityIs(h: seq<Point>)
    ensures h == [] ==> GetActivity(h) == Report(None, None, None, None)
    ensures h != [] ==>
      var r := GetActivity(h);
      && r.running == Some(Spent(h, Driving, |h|)) && r.idle == Some(Spent(h, Idling, |h|))
      && r.stopped == Some(Spent(h, Halted, |h|)) && Travelled(h, r.distance)
  {
    hide TimeFrom, Spent, IsRunning, IsIdle, IsStopped, Driving, Idling, Halted, Distance, Travelled;
    DistanceIs(h);
    CategoriesInWords();
    if h != [] {
      AllSpent(h, IsRunning, Driving);
      AllSpent(h, IsIdle, Idling);
      AllSpent(h, IsStopped, Halted);
    }
  }

  lemma {:induction false} NothingSpent(h: seq<Point>, holds: Point -> bool, n: nat)
    requires n <= |h| && forall p | p in h :: !holds(p)
    ensures Spent(h, holds, n) == 0.0
  {
    if n > 1 {
      NothingSpent(h, holds, n - 1);
    }
  }

  /** A vehicle that never moved has no running time, and one whose ignition was never on no idle time. */
  lemma NeverMovedNeverIdle(h: seq<Point>)
    requires h != []
    ensures (forall p | p in h :: p.speed.Some? ==> p.speed.value <= 0.0) ==> GetActivity(h).running == Some(0.0)
    ensures (forall p | p in h :: p.ignition != Some(true)) ==> GetActivity(h).idle == Some(0.0)
  {
    hide GetActivity, Spent;
    ActivityIs(h);
    if forall p | p in h :: p.speed.Some? ==> p.speed.value <= 0.0 {
      NothingSpent(h, Driving, |h|);
    }
    if forall p | p in h :: p.ignition != Some(true) {
      NothingSpent(h, Idling, |h|);
    }
  }

  // ----- Trips and stoppages fit -----

  function TotalLength(h: seq<Point>, runs: seq<Run>): real
    requires forall r | r in runs :: r.lo < r.hi <= |h|
  {
    if runs == [] then 0.0
    else
      assert runs[|runs| - 1] in runs;
      TotalLength(h, runs[..|runs| - 1]) + Length(h, runs[|runs| - 1])
  }

  /** The category's time between two rows. */
  function TimeBetween(h: seq<Point>, category: Point -> Bool3, i: nat, j: nat): real
    requires i <= j <= |h|
  {
    TimeFrom(h, category, i) - TimeFrom(h, category, j)
  }

  lemma {:induction false} TimeIsNotNegative(h: seq<Point>, category: Point -> Bool3, i: nat, j: nat)
    requires Ordered(h) && i <= j <= |h|
    ensures TimeBetween(h, category, i, j) >= 0.0
    decreases |h| - i
  {
    if i < j {
      TimeIsNotNegative(h, category, i + 1, j);
    }
  }

  lemma {:induction false} RunFits(h: seq<Point>, category: Point -> Bool3, lo: nat, hi: nat)
    requires Ordered(h) && lo < hi <= |h|
    requires forall k | lo <= k < hi :: category(h[k]) == Some(true)
    ensures h[hi - 1].time - h[lo].time <= TimeBetween(h, category, lo, hi)
    decreases hi - lo
  {
    if lo + 1 < hi {
      RunFits(h, category, lo + 1, hi);
    } else {
      TimeIsNotNegative(h, category, lo, hi);
    }
  }

  lemma LastApart(h: seq<Point>, category: Point -> Bool3, runs: seq<Run>)
    requires Apart(Flags(h, category), runs)
    ensures forall r | r in runs :: r.lo < r.hi <= |h|
    ensures runs != [] ==>
      var front, last := runs[..|runs| - 1], runs[|runs| - 1];
      && Apart(Flags(h, category), front)
      && (forall r | r in front :: r.hi <= last.lo)
      && last.lo < last.hi <= |h|
      && forall k | last.lo <= k < last.hi :: category(h[k]) == Some(true)
  {
    if runs != [] {
      var flags, front, last := Flags(h, category), runs[..|runs| - 1], runs[|runs| - 1];
      assert last in runs;
      forall k | last.lo <= k < last.hi
        ensures category(h[k]) == Some(true)
      {
        assert On(flags, k);
      }
      forall r | r in front
        ensures r in runs && r.hi <= last.lo
      {
        var k :| 0 <= k < |front| && front[k] == r;
        assert runs[k].hi < runs[|runs| - 1].lo;
      }
    }
  }

  lemma {:induction false} RunsFit(h: seq<Point>, category: Point -> Bool3, runs: seq<Run>, n: nat)
    requires Ordered(h) && n <= |h| && Apart(Flags(h, category), runs)
    requires forall r | r in runs :: r.hi <= n
    ensures TotalLength(h, runs) <= TimeBetween(h, category, 0, n)
  {
    hide TimeFrom, Ordered, Apart;
    LastApart(h, category, runs);
    if runs == [] {
      TimeIsNotNegative(h, category, 0, n);
    } else {
      var front, last := runs[..|runs| - 1], runs[|runs| - 1];
      assert last in runs;
      RunsFit(h, category, front, last.lo);
      RunFits(h, category, last.lo, last.hi);
      TimeIsNotNegative(h, category, last.hi, n);
    }
  }

  lemma {:induction false} MovingOrStopped(h: seq<Point>, i: nat)
    requires Ordered(h) && i < |h|
    ensures TimeFrom(h, IsMoving, i) + TimeFrom(h, IsStopped, i) <= h[|h| - 1].time - h[i].time
    decreases |h| - i
  {
    if i + 1 < |h| {
      MovingOrStopped(h, i + 1);
    }
  }

  function TripTime(trips: seq<Trip>): real {
    if trips == [] then 0.0 else TripTime(trips[..|trips| - 1]) + trips[|trips| - 1].duration
  }

  function StopTime(stops: seq<Stop>): real {
    if stops == [] then 0.0 else StopTime(stops[..|stops| - 1]) + stops[|stops| - 1].duration
  }

  lemma {:induction false} TripTimeIs(h: seq<Point>, trips: seq<Trip>, runs: seq<Run>)
    requires |trips| == |runs| && forall r | r in runs :: r.lo < r.hi <= |h|
    requires forall i | 0 <= i < |runs| :: runs[i] in runs && trips[i].duration == Length(h, runs[i])
    ensures TripTime(trips) == TotalLength(h, runs)
  {
    if runs != [] {
      TripTimeIs(h, trips[..|trips| - 1], runs[..|runs| - 1]);
    }
  }

  lemma {:induction false} StopTimeIs(h: seq<Point>, stops: seq<Stop>, runs: seq<Run>)
    requires |stops| == |runs| && forall r | r in runs :: r.lo < r.hi <= |h|
    requires forall i | 0 <= i < |runs| :: runs[i] in runs && stops[i].duration == Length(h, runs[i])
    ensures StopTime(stops) == TotalLength(h, runs)
  {
    if runs != [] {
      StopTimeIs(h, stops[..|stops| - 1], runs[..|runs| - 1]);
    }
  }

  /** The stoppages' durations fit in the stopped seconds, the trips' in what is left of the history. */
  lemma TripsAndStoppagesFit(h: seq<Point>)
    requires Ordered(h) && h != []
    ensures var stopped := GetActivity(h).stopped;
      && stopped.Some?
      && StopTime(Stoppages(h)) <= stopped.value
      && TripTime(Trips(h)) + stopped.value <= h[|h| - 1].time - h[0].time
  {
    hide TimeFrom, RunsKept, Trips, Stoppages, Maximal, Length;
    var trips, stops := RunsKept(h, IsMoving, 60.0), RunsKept(h, IsStopped, 60.0);
    TripDurations(h);
    StopDurations(h);
    TripTimeIs(h, Trips(h), trips);
    StopTimeIs(h, Stoppages(h), stops);
    RunsKeptAre(h, IsMoving, 60.0);
    RunsKeptAre(h, IsStopped, 60.0);
    RunsFit(h, IsMoving, trips, |h|);
    RunsFit(h, IsStopped, stops, |h|);
    MovingOrStopped(h, 0);
    NothingAfter(h, IsMoving);
    NothingAfter(h, IsStopped);
  }

  lemma NothingAfter(h: seq<Point>, category: Point -> Bool3)
    ensures TimeFrom(h, category, |h|) == 0.0
  {
  }

  lemma TripDurations(h: seq<Point>)
    requires Ordered(h)
    ensures var runs := RunsKept(h, IsMoving, 60.0);
      && |Trips(h)| == |runs|
      && forall i | 0 <= i < |runs| :: runs[i] in runs && Trips(h)[i].duration == Length(h, runs[i])
  {
    hide RunOf, RunsKept, Trips, Fastest, Average, Travelled;
    TripsAreMovingRuns(h);
  }

  lemma StopDurations(h: seq<Point>)
    requires Ordered(h)
    ensures var runs := RunsKept(h, IsStopped, 60.0);
      && |Stoppages(h)| == |runs|
      && forall i | 0 <= i < |runs| :: runs[i] in runs && Stoppages(h)[i].duration == Length(h, runs[i])
  {
    hide RunOf, RunsKept, Stoppages;
    StoppagesAreStoppedRuns(h);
  }

  /** With speeds known and not negative, trips fit in the running and idle seconds. */
  lemma TripsFitInRunningAndIdle(h: seq<Point>)
    requires Ordered(h) && h != [] && forall k | 0 <= k < |h| :: h[k].speed.Some? && h[k].speed.value >= 0.0
    ensures var r := GetActivity(h);
      && r.running.Some? && r.idle.Some?
      && TripTime(Trips(h)) <= r.running.value + r.idle.value
  {
    hide Trips, TimeFrom, TripTime;
    TimeConserved(h);
    TripsAndStoppagesFit(h);
  }

  function FastTime(rows: seq<(Stop, Option<real>, Option<real>)>): real {
    if rows == [] then 0.0 else FastTime(rows[..|rows| - 1]) + rows[|rows| - 1].0.duration
  }

  lemma {:induction false} FastTimeIs(h: seq<Point>, rows: seq<(Stop, Option<real>, Option<real>)>, runs: seq<Run>)
    requires |rows| == |runs| && forall r | r in runs :: r.lo < r.hi <= |h|
    requires forall i | 0 <= i < |runs| :: runs[i] in runs && rows[i].0.duration == Length(h, runs[i])
    ensures FastTime(rows) == TotalLength(h, runs)
  {
    if runs != [] {
      FastTimeIs(h, rows[..|rows| - 1], runs[..|runs| - 1]);
    }
  }

  lemma FastDurations(h: seq<Point>, limit: real)
    requires Ordered(h)
    ensures var runs := RunsKept(h, Faster(limit), 0.0);
      && |Overspeeding(h, limit)| == |runs|
      && forall i | 0 <= i < |runs| :: runs[i] in runs && Overspeeding(h, limit)[i].0.duration == Length(h, runs[i])
  {
    hide RunOf, RunsKept, Overspeeding, Fastest, Average;
    OverspeedingAreFastRuns(h, limit);
  }

  lemma {:induction false} FasterIsRunning(h: seq<Point>, limit: real, i: nat)
    requires Ordered(h) && limit >= 0.0 && i <= |h|
    ensures TimeFrom(h, Faster(limit), i) <= TimeFrom(h, IsRunning, i)
    decreases |h| - i
  {
    if i < |h| {
      FasterIsRunning(h, limit, i + 1);
    }
  }

  /** The time spent above any limit fits in the running seconds. */
  lemma OverspeedingFitsInRunning(h: seq<Point>, limit: real)
    requires Ordered(h) && h != [] && limit >= 0.0
    ensures var r := GetActivity(h); r.running.Some? && FastTime(Overspeeding(h, limit)) <= r.running.value
  {
    hide TimeFrom, RunsKept, Overspeeding, Maximal, Length, FastTime;
    var runs := RunsKept(h, Faster(limit), 0.0);
    FastDurations(h, limit);
    FastTimeIs(h, Overspeeding(h, limit), runs);
    RunsKeptAre(h, Faster(limit), 0.0);
    RunsFit(h, Faster(limit), runs, |h|);
    FasterIsRunning(h, limit, 0);
    NothingAfter(h, Faster(limit));
  }

  // ----- getIgnitionEvents -----

  datatype Event = Event(time: real, lat: real, lng: real, on: bool)

  /** ignition IS NOT NULL AND (prev_ignition IS NULL OR prev_ignition != ignition). */
  predicate IsEvent(h: seq<Point>, i: nat)
    requires i < |h|
  {
    var previous := if i == 0 then None else h[i - 1].ignition;
    && IsNull(h[i].ignition) == Some(false)
    && Or3(IsNull(previous), Differs(previous, h[i].ignition)) == Some(true)
  }

  /** The events among the first n rows. */
  function EventsTo(h: seq<Point>, n: nat): seq<Event>
    requires n <= |h|
  {
    if n == 0 then []
    else if !IsEvent(h, n - 1) then EventsTo(h, n - 1)
    else
      var p := h[n - 1];
      EventsTo(h, n - 1) + [Event(p.time, p.lat, p.lng, Is(p.ignition, true) == Some(true))]
  }

  function IgnitionEvents(h: seq<Point>): seq<Event> {
    EventsTo(h, |h|)
  }

  /** What a reader of the report takes the ignition to be at a time: as the last event up to then left it. */
  function IgnitionAt(events: seq<Event>, time: real): Option<bool> {
    if events == [] then None
    else if events[|events| - 1].time <= time then Some(events[|events| - 1].on)
    else IgnitionAt(events[..|events| - 1], time)
  }

  function Reads(on: bool): Point -> Bool3 {
    (p: Point) => Is(p.ignition, on)
  }

  /** A row is reported exactly when a maximal run of its ignition value starts there. */
  lemma EventsStartRuns(h: seq<Point>, i: nat)
    requires i < |h|
    ensures IsEvent(h, i) <==>
      h[i].ignition.Some? && exists hi: nat :: Maximal(Flags(h, Reads(h[i].ignition.value)), Run(i, hi))
  {
    if h[i].ignition.Some? {
      var flags := Flags(h, Reads(h[i].ignition.value));
      if IsEvent(h, i) {
        assert Maximal(flags, Run(i, RunEnd(flags, i)));
      }
    }
  }

  /** The event tells when and where the row is and what its ignition turned to. */
  predicate Tells(e: Event, p: Point) {
    e.time == p.time && e.lat == p.lat && e.lng == p.lng && p.ignition == Some(e.on)
  }

  /** The rows that are reported, from first to last. */
  function EventRows(h: seq<Point>, n: nat): (rows: seq<nat>)
    requires n <= |h|
    ensures forall i :: i in rows <==> 0 <= i < n && IsEvent(h, i)
    ensures forall j, k | 0 <= j < k < |rows| :: rows[j] < rows[k]
  {
    if n == 0 then []
    else
      var front := EventRows(h, n - 1);
      assert forall j | 0 <= j < |front| :: front[j] in front;
      front + (if IsEvent(h, n - 1) then [n - 1] else [])
  }

  /** The events are those rows, one each and in order. */
  lemma {:induction false} EventsAre(h: seq<Point>, n: nat)
    requires n <= |h|
    ensures |EventsTo(h, n)| == |EventRows(h, n)|
    ensures forall k | 0 <= k < |EventRows(h, n)| ::
      EventRows(h, n)[k] in EventRows(h, n) && Tells(EventsTo(h, n)[k], h[EventRows(h, n)[k]])
  {
    hide IsEvent;
    if n > 0 {
      EventsAre(h, n - 1);
      if IsEvent(h, n - 1) {
        EventIgnition(h, n - 1);
      }
    }
  }

  lemma EventIgnition(h: seq<Point>, i: nat)
    requires i < |h| && IsEvent(h, i)
    ensures h[i].ignition.Some?
  {
  }

  lemma {:induction false} EventsSoFar(h: seq<Point>, n: nat, time: real)
    requires Ordered(h) && n <= |h|
    ensures forall e | e in EventsTo(h, n) :: n > 0 && e.time <= h[n - 1].time
    ensures n > 0 && h[n - 1].ignition.Some? && h[n - 1].time <= time ==>
      IgnitionAt(EventsTo(h, n), time) == h[n - 1].ignition
  {
    if n > 0 {
      EventsSoFar(h, n - 1, time);
    }
  }

  lemma {:induction false} LaterEvents(h: seq<Point>, n: nat, m: nat, time: real)
    requires Ordered(h) && n <= m <= |h| && forall k | n <= k < m :: time < h[k].time
    ensures IgnitionAt(EventsTo(h, m), time) == IgnitionAt(EventsTo(h, n), time)
    decreases m
  {
    if n < m {
      LaterEvents(h, n, m - 1, time);
      if IsEvent(h, m - 1) {
        var events := EventsTo(h, m);
        assert events[|events| - 1].time == h[m - 1].time && events[..|events| - 1] == EventsTo(h, m - 1);
      }
    }
  }

  /** The events lose nothing: at every point whose ignition is known, the last event up to its time tells it. */
  lemma EventsRebuildIgnition(h: seq<Point>, i: nat)
    requires Ordered(h) && i < |h| && h[i].ignition.Some?
    ensures IgnitionAt(IgnitionEvents(h), h[i].time) == h[i].ignition
  {
    EventsSoFar(h, i + 1, h[i].time);
    LaterEvents(h, i + 1, |h|, h[i].time);
  }
}
