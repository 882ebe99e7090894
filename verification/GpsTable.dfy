/**
 The gps_points table: INSERT ... ON CONFLICT (vehicle_id, device_time) DO NOTHING, one row at a time and as
 one statement with numbered placeholders; which rows and statements PostgreSQL takes; and when the statement does
 what the rows would have done one by one.
 */
module GpsTable {
  import opened Numbers
  import opened Wrappers

  /** What JSON and the vehicle lookup give; missing fields are Null, objects and arrays are sent as text. */
  datatype Value = Null | Text(text: string) | Number(number: real) | Flag(flag: bool)

  datatype Point = Point(
    vehicleId: Value, lat: Value, lng: Value, speed: Value, direction: Value, odometer: Value, fuel: Value,
    ignition: Value, satellites: Value, gsmSignal: Value, battery: Value, voltage: Value,
    isLive: Value, deviceTime: Value)

  /**
   The database outside the model: which vehicles exist, by the number that their UUID is, and how PostgreSQL reads
   values for a column's type; several texts may be read as one UUID, and several as one instant.
   */
  datatype Reader = Reader(
    vehicle: Value -> Option<nat>, timestamp: Value -> Option<int>, flag: string -> bool,
    integer: string -> Option<int>, decimal: string -> Option<real>)

  /** Vehicle and device time as the columns hold them. */
  type Key = (Option<nat>, Option<int>)
  type Table = map<Key, Point>

  function KeyOf(r: Reader, p: Point): Key {
    (r.vehicle(p.vehicleId), r.timestamp(p.deviceTime))
  }

  // ----- What the columns take -----

  /** SMALLINT and INTEGER: a number with a fraction is refused, not rounded. */
  predicate FitsInteger(r: Reader, v: Value, bound: int) {
    match v
    case Null => true
    case Number(x) => x == x.Floor as real && -bound <= x.Floor < bound
    case Text(t) => r.integer(t).Some? && -bound <= r.integer(t).value < bound
    case Flag(_) => false
  }

  /** DECIMAL: rounded to the column's scale, then below its bound. */
  predicate FitsDecimal(r: Reader, v: Value, scale: int, bound: real)
    requires scale > 0
  {
    match v
    case Null => true
    case Number(x) => -bound < ToFixed(x, scale) < bound
    case Text(t) => r.decimal(t).Some? && -bound < ToFixed(r.decimal(t).value, scale) < bound
    case Flag(_) => false
  }

  predicate FitsBoolean(r: Reader, v: Value) {
    match v
    case Null => true
    case Number(x) => x == 0.0 || x == 1.0
    case Text(t) => r.flag(t)
    case Flag(_) => true
  }

  const SMALL := 0x8000
  const LARGE := 0x8000_0000

  /** The row passes the types and NOT NULLs of gps_points, and its vehicle exists. */
  predicate Storable(r: Reader, p: Point) {
    && p.vehicleId != Null && r.vehicle(p.vehicleId).Some?
    && p.lat != Null && FitsDecimal(r, p.lat, 10000000, 1000.0)
    && p.lng != Null && FitsDecimal(r, p.lng, 10000000, 1000.0)
    && FitsInteger(r, p.speed, SMALL) && FitsInteger(r, p.direction, SMALL) && FitsInteger(r, p.odometer, LARGE)
    && FitsDecimal(r, p.fuel, 100, 10000.0) && FitsBoolean(r, p.ignition)
    && FitsInteger(r, p.satellites, SMALL) && FitsInteger(r, p.gsmSignal, SMALL) && FitsInteger(r, p.battery, SMALL)
    && FitsDecimal(r, p.voltage, 100, 1000.0) && FitsBoolean(r, p.isLive)
    && p.deviceTime != Null && r.timestamp(p.deviceTime).Some?
  }

  /** A fractional speed and a missing device time are refused, however texts are read. */
  lemma FractionIsRefused(r: Reader, p: Point)
    ensures p.speed == Number(45.5) ==> !Storable(r, p)
    ensures p.deviceTime == Null ==> !Storable(r, p)
  {
    assert (45.5).Floor == 45;
  }

  predicate Whole(v: Value, low: real, high: real) {
    v.Number? && v.number == v.number.Floor as real && low <= v.number <= high
  }

  /** What the columns say of a row of plain numbers, column by column. */
  lemma NumbersStored(r: Reader, p: Point)
    requires p.lat.Number? && p.lng.Number? && p.fuel.Number? && p.voltage.Number? && p.speed.Number?
    requires p.direction.Number? && p.odometer.Number? && p.satellites.Number? && p.gsmSignal.Number?
    requires p.battery.Number? && p.ignition.Flag? && p.isLive.Flag?
    ensures Storable(r, p) <==>
      && p.vehicleId != Null && r.vehicle(p.vehicleId).Some? && p.deviceTime != Null && r.timestamp(p.deviceTime).Some?
      && -1000.0 < ToFixed(p.lat.number, 10000000) < 1000.0 && -1000.0 < ToFixed(p.lng.number, 10000000) < 1000.0
      && -10000.0 < ToFixed(p.fuel.number, 100) < 10000.0 && -1000.0 < ToFixed(p.voltage.number, 100) < 1000.0
      && Whole(p.speed, -32768.0, 32767.0) && Whole(p.direction, -32768.0, 32767.0)
      && Whole(p.satellites, -32768.0, 32767.0) && Whole(p.gsmSignal, -32768.0, 32767.0)
      && Whole(p.battery, -32768.0, 32767.0) && Whole(p.odometer, -2147483648.0, 2147483647.0)
  {
    hide ToFixed, FitsInteger, Whole;
    IntegersFit(r, p.speed);
    IntegersFit(r, p.direction);
    IntegersFit(r, p.satellites);
    IntegersFit(r, p.gsmSignal);
    IntegersFit(r, p.battery);
    IntegersFit(r, p.odometer);
  }

  lemma IntegersFit(r: Reader, v: Value)
    requires v.Number?
    ensures FitsInteger(r, v, SMALL) <==> Whole(v, -32768.0, 32767.0)
    ensures FitsInteger(r, v, LARGE) <==> Whole(v, -2147483648.0, 2147483647.0)
  {
  }

  /** Booleans are refused where numbers go, and of numbers only 0 and 1 are taken for booleans. */
  lemma KindsStored(r: Reader, p: Point, x: real)
    ensures (exists v | v in [p.lat, p.lng, p.speed, p.direction, p.odometer, p.fuel, p.satellites, p.gsmSignal,
                              p.battery, p.voltage] :: v.Flag?) ==> !Storable(r, p)
    ensures Storable(r, p.(ignition := Number(x))) <==>
      (x == 0.0 || x == 1.0) && Storable(r, p.(ignition := Flag(true)))
    ensures Storable(r, p.(isLive := Number(x))) <==>
      (x == 0.0 || x == 1.0) && Storable(r, p.(isLive := Flag(true)))
    ensures Storable(r, p.(ignition := Flag(false))) <==> Storable(r, p.(ignition := Null))
  {
  }

  /** A text is taken as the number or boolean that PostgreSQL reads in it, and refused if it reads none. */
  lemma TextsStored(r: Reader, p: Point, t: string)
    ensures Storable(r, p.(speed := Text(t))) <==>
      r.integer(t).Some? && Storable(r, p.(speed := Number(r.integer(t).value as real)))
    ensures Storable(r, p.(odometer := Text(t))) <==>
      r.integer(t).Some? && Storable(r, p.(odometer := Number(r.integer(t).value as real)))
    ensures Storable(r, p.(lat := Text(t))) <==>
      r.decimal(t).Some? && Storable(r, p.(lat := Number(r.decimal(t).value)))
    ensures Storable(r, p.(voltage := Text(t))) <==>
      r.decimal(t).Some? && Storable(r, p.(voltage := Number(r.decimal(t).value)))
    ensures Storable(r, p.(ignition := Text(t))) <==> r.flag(t) && Storable(r, p.(ignition := Flag(true)))
  {
  }

  /** Position, vehicle and time must be there; everything else may be missing. */
  lemma MissingColumns(r: Reader, p: Point)
    ensures p.lat == Null || p.lng == Null || p.vehicleId == Null || p.deviceTime == Null ==> !Storable(r, p)
    ensures Storable(r, p) ==> Storable(r, p.(speed := Null, direction := Null, odometer := Null, fuel := Null,
      ignition := Null, satellites := Null, gsmSignal := Null, battery := Null, voltage := Null, isLive := Null))
  {
  }

  // ----- Inserts -----

  /** The effect of a row that is taken. */
  function Insert(r: Reader, t: Table, p: Point): Table {
    if KeyOf(r, p) in t then t else t[KeyOf(r, p) := p]
  }

  function InsertAll(r: Reader, t: Table, ps: seq<Point>): Table
    decreases ps
  {
    if ps == [] then t else InsertAll(r, Insert(r, t, ps[0]), ps[1..])
  }

  lemma {:induction false} InsertAllConcat(r: Reader, t: Table, ps: seq<Point>, qs: seq<Point>)
    ensures InsertAll(r, t, ps + qs) == InsertAll(r, InsertAll(r, t, ps), qs)
    decreases ps
  {
    if ps == [] {
      assert ps + qs == qs;
    } else {
      assert (ps + qs)[1..] == ps[1..] + qs;
      InsertAllConcat(r, Insert(r, t, ps[0]), ps[1..], qs);
    }
  }

  /** Index of the first row with key k, or |ps|. */
  function FirstWith(r: Reader, ps: seq<Point>, k: Key): (i: nat)
    ensures i <= |ps|
    ensures i < |ps| ==> KeyOf(r, ps[i]) == k
    ensures forall j | 0 <= j < i :: KeyOf(r, ps[j]) != k
  {
    if ps == [] then 0 else if KeyOf(r, ps[0]) == k then 0 else 1 + FirstWith(r, ps[1..], k)
  }

  /** What the inserted rows leave behind: old rows stay, and of the new ones each key keeps its first. */
  lemma {:induction false} InsertAllLookup(r: Reader, t: Table, ps: seq<Point>, k: Key)
    ensures k in InsertAll(r, t, ps) <==> k in t || FirstWith(r, ps, k) < |ps|
    ensures k in t ==> InsertAll(r, t, ps)[k] == t[k]
    ensures k !in t && FirstWith(r, ps, k) < |ps| ==> InsertAll(r, t, ps)[k] == ps[FirstWith(r, ps, k)]
    decreases ps
  {
    if ps != [] {
      InsertAllLookup(r, Insert(r, t, ps[0]), ps[1..], k);
    }
  }

  // ----- Repeated inserts -----

  /** The distinct rows of ps in the order of their first occurrence. */
  function Distinct(ps: seq<Point>): (ds: seq<Point>)
    ensures forall p :: p in ds <==> p in ps
    ensures forall i, j | 0 <= i < j < |ds| :: ds[i] != ds[j]
  {
    if ps == [] then []
    else
      var front := Distinct(ps[..|ps| - 1]);
      var last := ps[|ps| - 1];
      assert ps == ps[..|ps| - 1] + [last];
      if last in front then front else front + [last]
  }

  lemma KnownKey(r: Reader, ps: seq<Point>, p: Point)
    requires p in ps
    ensures KeyOf(r, p) in InsertAll(r, map[], ps)
  {
    InsertAllLookup(r, map[], ps, KeyOf(r, p));
    var i :| 0 <= i < |ps| && ps[i] == p;
  }

  /** However often rows are inserted again, the table is that of each distinct row inserted once, first come first. */
  lemma {:induction false} RepeatsDoNotMatter(r: Reader, ps: seq<Point>)
    ensures InsertAll(r, map[], ps) == InsertAll(r, map[], Distinct(ps))
  {
    if ps != [] {
      var front, last := ps[..|ps| - 1], ps[|ps| - 1];
      assert ps == front + [last];
      InsertAllConcat(r, map[], front, [last]);
      RepeatsDoNotMatter(r, front);
      if last in Distinct(front) {
        KnownKey(r, front, last);
      } else {
        InsertAllConcat(r, map[], Distinct(front), [last]);
      }
    }
  }

  // ----- The statement built by savePointsBatch -----

  const COLUMNS := 14

  function Columns(p: Point): (vs: seq<Value>)
    ensures |vs| == COLUMNS
  {
    [p.vehicleId, p.lat, p.lng, p.speed, p.direction, p.odometer, p.fuel, p.ignition, p.satellites,
     p.gsmSignal, p.battery, p.voltage, p.isLive, p.deviceTime]
  }

  function RowOf(vs: seq<Value>): Point
    requires |vs| == COLUMNS
  {
    Point(vs[0], vs[1], vs[2], vs[3], vs[4], vs[5], vs[6], vs[7], vs[8], vs[9], vs[10], vs[11], vs[12], vs[13])
  }

  /** The VALUES list: each row a list of placeholder numbers, counted from 1. */
  datatype Statement = Statement(rows: seq<seq<nat>>, values: seq<Value>)

  predicate InRange(s: Statement, r: nat)
    requires r < |s.rows|
  {
    |s.rows[r]| == COLUMNS && forall i | 0 <= i < COLUMNS :: 1 <= s.rows[r][i] <= |s.values|
  }

  predicate Bindable(s: Statement) {
    forall r | 0 <= r < |s.rows| :: InRange(s, r)
  }

  /** What PostgreSQL binds a row of placeholders to. */
  function Bound(s: Statement, r: nat): Point
    requires r < |s.rows| && InRange(s, r)
  {
    RowOf(seq(COLUMNS, i requires 0 <= i < COLUMNS => s.values[s.rows[r][i] - 1]))
  }

  function Row(p: nat): seq<nat> {
    [p, p + 1, p + 2, p + 3, p + 4, p + 5, p + 6, p + 7, p + 8, p + 9, p + 10, p + 11, p + 12, p + 13]
  }

  function AllColumns(ps: seq<Point>): (vs: seq<Value>)
    ensures |vs| == COLUMNS * |ps|
  {
    if ps == [] then [] else AllColumns(ps[..|ps| - 1]) + Columns(ps[|ps| - 1])
  }

  lemma {:induction false} ColumnsOfOne(ps: seq<Point>, r: nat)
    requires r < |ps|
    ensures COLUMNS * r + COLUMNS <= |AllColumns(ps)|
    ensures AllColumns(ps)[COLUMNS * r..COLUMNS * r + COLUMNS] == Columns(ps[r])
  {
    hide Columns;
    var front := ps[..|ps| - 1];
    if r < |front| {
      ColumnsOfOne(front, r);
    }
  }

  /** Every row of the statement is bound to the columns of its own point. */
  method BuildInsert(points: seq<Point>) returns (s: Statement)
    ensures Bindable(s) && |s.rows| == |points| && |s.values| == COLUMNS * |points|
    ensures forall r | 0 <= r < |points| :: Bound(s, r) == points[r]
  {
    hide Columns, Row, RowOf;
    var values: seq<Value> := [];
    var placeholders: seq<seq<nat>> := [];
    var p := 1;
    for k := 0 to |points|
      invariant p == COLUMNS * k + 1 && values == AllColumns(points[..k]) && |placeholders| == k
      invariant forall r | 0 <= r < k :: placeholders[r] == Row(COLUMNS * r + 1)
    {
      placeholders := placeholders + [Row(p)];
      p := p + COLUMNS;
      assert points[..k + 1][..k] == points[..k];
      values := values + Columns(points[k]);
    }
    assert points[..|points|] == points;
    s := Statement(placeholders, values);
    forall r | 0 <= r < |points|
      ensures InRange(s, r) && Bound(s, r) == points[r]
    {
      ColumnsOfOne(points, r);
      RowInRange(s, r);
      BoundColumns(s, r, points[r]);
    }
  }

  lemma RowInRange(s: Statement, r: nat)
    requires r < |s.rows| && s.rows[r] == Row(COLUMNS * r + 1) && COLUMNS * r + COLUMNS <= |s.values|
    ensures InRange(s, r)
  {
  }

  lemma BoundColumns(s: Statement, r: nat, p: Point)
    requires r < |s.rows| && s.rows[r] == Row(COLUMNS * r + 1)
    requires COLUMNS * r + COLUMNS <= |s.values|
    requires s.values[COLUMNS * r..COLUMNS * r + COLUMNS] == Columns(p)
    requires InRange(s, r)
    ensures Bound(s, r) == p
  {
    var vs := seq(COLUMNS, i requires 0 <= i < COLUMNS => s.values[s.rows[r][i] - 1]);
    assert vs == Columns(p) by {
      forall i | 0 <= i < COLUMNS
        ensures vs[i] == Columns(p)[i]
      {
        assert Row(COLUMNS * r + 1)[i] == COLUMNS * r + 1 + i;
        assert s.values[COLUMNS * r..COLUMNS * r + COLUMNS][i] == Columns(p)[i];
      }
    }
  }

  /** The rows PostgreSQL inserts for a statement, in order. */
  ghost function StatementRows(s: Statement): seq<Point>
    requires Bindable(s)
  {
    seq(|s.rows|, r requires 0 <= r < |s.rows| => Bound(s, r))
  }

  // ----- When the batch does what the rows do -----

  /** The wire protocol counts the parameters of a statement in 16 bits. */
  const MAX_PARAMETERS := 65535
  const MAX_ROWS := MAX_PARAMETERS / COLUMNS

  ghost predicate AllStorable(r: Reader, ps: seq<Point>) {
    forall p | p in ps :: Storable(r, p)
  }

  /** One refused row, or a parameter too many, and the whole statement stores nothing. */
  ghost predicate Acceptable(r: Reader, ps: seq<Point>) {
    |ps| <= MAX_ROWS && AllStorable(r, ps)
  }

  /** 14 parameters a row leave room for 4681 rows. */
  lemma AcceptableIs(r: Reader, ps: seq<Point>)
    ensures Acceptable(r, ps) <==> |ps| <= 4681 && forall p | p in ps :: Storable(r, p)
  {
  }

  /** savePoint for each row. */
  function RowByRow(r: Reader, t: Table, ps: seq<Point>): Table
    decreases ps
  {
    if ps == [] then t else RowByRow(r, if Storable(r, ps[0]) then Insert(r, t, ps[0]) else t, ps[1..])
  }

  /** savePointsBatch. */
  ghost function InOneStatement(r: Reader, t: Table, ps: seq<Point>): Table {
    if Acceptable(r, ps) then InsertAll(r, t, ps) else t
  }

  lemma {:induction false} StorableRowByRow(r: Reader, t: Table, ps: seq<Point>)
    requires AllStorable(r, ps)
    ensures RowByRow(r, t, ps) == InsertAll(r, t, ps)
    decreases ps
  {
    hide Storable;
    if ps != [] {
      assert ps[0] in ps && forall p | p in ps[1..] :: p in ps;
      StorableRowByRow(r, Insert(r, t, ps[0]), ps[1..]);
    }
  }

  lemma {:induction false} RowByRowAdds(r: Reader, t: Table, ps: seq<Point>)
    ensures t.Keys <= RowByRow(r, t, ps).Keys
    ensures RowByRow(r, t, ps) == t <==> forall p | p in ps :: Storable(r, p) ==> KeyOf(r, p) in t
    decreases ps
  {
    hide Storable;
    if ps != [] {
      var next := if Storable(r, ps[0]) then Insert(r, t, ps[0]) else t;
      RowByRowAdds(r, next, ps[1..]);
      assert forall p | p in ps[1..] :: p in ps;
      assert forall p | p in ps :: p == ps[0] || p in ps[1..];
      assert ps[0] in ps;
      assert Storable(r, ps[0]) && KeyOf(r, ps[0]) !in t ==> KeyOf(r, ps[0]) in RowByRow(r, t, ps);
    }
  }

  /**
   The multi-row insert does what savePoint does row by row exactly when PostgreSQL takes the statement, or savePoint
   would have added nothing either.
   */
  lemma BatchIsRowByRow(r: Reader, t: Table, ps: seq<Point>)
    ensures InOneStatement(r, t, ps) == RowByRow(r, t, ps)
      <==> Acceptable(r, ps) || forall p | p in ps :: Storable(r, p) ==> KeyOf(r, p) in t
  {
    hide Storable, RowByRow, InsertAll;
    RowByRowAdds(r, t, ps);
    if AllStorable(r, ps) {
      StorableRowByRow(r, t, ps);
    }
  }

  /** One row without a device time takes the row before it down with it. */
  lemma OneRefusedRowLosesAll(r: Reader, good: Point, bad: Point)
    requires Storable(r, good) && bad.deviceTime == Null
    ensures InOneStatement(r, map[], [good, bad]) == map[]
    ensures RowByRow(r, map[], [good, bad]) == map[KeyOf(r, good) := good]
  {
    FractionIsRefused(r, bad);
    assert bad in [good, bad];
    assert [good, bad][1..] == [bad] && [bad][1..] == [];
    assert RowByRow(r, map[KeyOf(r, good) := good], [bad]) == map[KeyOf(r, good) := good];
  }

  lemma OneRow(r: Reader, t: Table, p: Point)
    ensures Acceptable(r, [p]) <==> Storable(r, p)
    ensures RowByRow(r, t, [p]) == InOneStatement(r, t, [p]) == if Storable(r, p) then Insert(r, t, p) else t
  {
    hide Storable;
    assert p in [p] && [p][1..] == [];
    var after := if Storable(r, p) then Insert(r, t, p) else t;
    assert RowByRow(r, after, []) == after;
    if Storable(r, p) {
      StorableRowByRow(r, t, [p]);
    }
  }

  /** The database as the writer uses it; a refused statement throws and changes nothing. */
  class GpsModel {
    const reader: Reader
    var table: Table

    constructor (reader: Reader, table: Table)
      ensures this.reader == reader && this.table == table
    {
      this.reader := reader;
      this.table := table;
    }

    method SavePoint(p: Point) returns (ok: bool)
      modifies this`table
      ensures ok == Storable(reader, p)
      ensures table == RowByRow(reader, old(table), [p]) == InOneStatement(reader, old(table), [p])
    {
      hide Storable;
      OneRow(reader, table, p);
      ok := Storable(reader, p);
      if ok && KeyOf(reader, p) !in table {
        table := table[KeyOf(reader, p) := p];
      }
    }

    /** A statement's bound rows, in order, each dropped when its key is taken; all of them or none. */
    method Execute(s: Statement) returns (ok: bool)
      requires Bindable(s) && |s.values| == COLUMNS * |s.rows|
      modifies this`table
      ensures ok <==> Acceptable(reader, StatementRows(s))
      ensures table == InOneStatement(reader, old(table), StatementRows(s))
    {
      hide Bound, InRange, Storable;
      ghost var points := StatementRows(s);
      if |s.values| > MAX_PARAMETERS {
        return false;
      }
      var next := table;
      for r := 0 to |s.rows|
        invariant next == InsertAll(reader, table, points[..r]) && AllStorable(reader, points[..r])
        invariant table == old(table)
      {
        assert points[..r + 1] == points[..r] + [points[r]];
        InsertAllConcat(reader, table, points[..r], [points[r]]);
        if !Storable(reader, Bound(s, r)) {
          assert points[r] in points;
          return false;
        }
        if KeyOf(reader, Bound(s, r)) !in next {
          next := next[KeyOf(reader, Bound(s, r)) := Bound(s, r)];
        }
      }
      assert points[..|points|] == points;
      table := next;
      ok := true;
    }

    /** The multi-row insert stores all rows or none; it throws exactly when PostgreSQL does not take it. */
    method SavePointsBatch(points: seq<Point>) returns (ok: bool)
      modifies this`table
      ensures ok <==> Acceptable(reader, points)
      ensures table == InOneStatement(reader, old(table), points)
    {
      hide Storable;
      if |points| == 0 {
        return true;
      }
      if |points| == 1 {
        assert points == [points[0]];
        OneRow(reader, table, points[0]);
        ok := SavePoint(points[0]);
        return;
      }
      var s := BuildInsert(points);
      assert StatementRows(s) == points;
      ok := Execute(s);
    }
  }
}
