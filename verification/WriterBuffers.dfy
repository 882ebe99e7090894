/**
 The writer's memory: rows for gps_points, rows for vehicle_latest_state and stream ids to acknowledge, three
 buffers that are filled together, swapped out together for a flush, and put back together when it fails.
 */
module WriterBuffers {
  import opened Wrappers
  import opened GpsTable
  import RedisStreams

  type Id = RedisStreams.Id

  /** The JSON of a tracking entry. */
  datatype Reading = Reading(
    imei: Value, lat: Value, lng: Value, speed: Value, fuel: Value, ignition: Value, voltage: Value,
    direction: Value, odometer: Value, satellites: Value, gsmSignal: Value, battery: Value,
    deviceTime: Value, isLive: Option<bool>)

  /** A stream entry's data field: text JSON.parse rejects, the text null, which has no fields, or a reading. */
  datatype Payload = Malformed | JsonNull | Parsed(reading: Reading)

  datatype LatestState = LatestState(
    vehicleId: Value, lat: Value, lng: Value, speed: Value, direction: Value, fuel: Value,
    ignition: Value, voltage: Value, odometer: Value, satellites: Value, gsmSignal: Value)

  function PointRow(vehicle: Value, r: Reading): Point {
    Point(vehicle, r.lat, r.lng, r.speed, r.direction, r.odometer, r.fuel, r.ignition, r.satellites,
          r.gsmSignal, r.battery, r.voltage, Flag(r.isLive != Some(false)), r.deviceTime)
  }

  function StateRow(vehicle: Value, r: Reading): LatestState {
    LatestState(vehicle, r.lat, r.lng, r.speed, r.direction, r.fuel, r.ignition, r.voltage, r.odometer,
                r.satellites, r.gsmSignal)
  }

  /** What a stored row says of a reading, column by column. */
  predicate Records(p: Point, vehicle: Value, r: Reading) {
    && p.vehicleId == vehicle && p.lat == r.lat && p.lng == r.lng && p.speed == r.speed && p.direction == r.direction
    && p.odometer == r.odometer && p.fuel == r.fuel && p.ignition == r.ignition && p.satellites == r.satellites
    && p.gsmSignal == r.gsmSignal && p.battery == r.battery && p.voltage == r.voltage && p.deviceTime == r.deviceTime
    && (p.isLive == Flag(false) <==> r.isLive == Some(false)) && (p.isLive == Flag(true) <==> r.isLive != Some(false))
  }

  /** The vehicle's latest state says the same wherever it has the column. */
  predicate Agrees(s: LatestState, p: Point) {
    && s.vehicleId == p.vehicleId && s.lat == p.lat && s.lng == p.lng && s.speed == p.speed
    && s.direction == p.direction && s.fuel == p.fuel && s.ignition == p.ignition && s.voltage == p.voltage
    && s.odometer == p.odometer && s.satellites == p.satellites && s.gsmSignal == p.gsmSignal
  }

  lemma RowsRecord(vehicle: Value, r: Reading)
    ensures Records(PointRow(vehicle, r), vehicle, r) && Agrees(StateRow(vehicle, r), PointRow(vehicle, r))
  {
  }

  datatype Batch = Batch(points: seq<Point>, states: seq<LatestState>, acks: seq<Id>)

  const EMPTY := Batch([], [], [])

  function Push(b: Batch, vehicle: Value, r: Reading, id: Id): Batch {
    Batch(b.points + [PointRow(vehicle, r)], b.states + [StateRow(vehicle, r)], b.acks + [id])
  }

  /** One UPSERT may not touch a row of vehicle_latest_state twice. */
  ghost predicate OneRowEach(r: Reader, states: seq<LatestState>) {
    forall i, j | 0 <= i < j < |states| :: r.vehicle(states[i].vehicleId) != r.vehicle(states[j].vehicleId)
  }

  /** PostgreSQL can take both statements of a flush; a state's columns take what the point's columns take. */
  ghost predicate Flushable(r: Reader, b: Batch) {
    Acceptable(r, b.points) && OneRowEach(r, b.states)
  }

  /** A failed flush goes back in front of what has arrived since. */
  function Requeue(failed: Batch, b: Batch): Batch {
    Batch(failed.points + b.points, failed.states + b.states, failed.acks + b.acks)
  }

  /** Entries buffered one after the other. */
  function PushAll(b: Batch, entries: seq<(Value, Reading, Id)>): Batch {
    if entries == [] then b
    else
      var last := entries[|entries| - 1];
      Push(PushAll(b, entries[..|entries| - 1]), last.0, last.1, last.2)
  }

  /** A flush that fails leaves no trace: whatever came in meanwhile, the buffer is as if it had not been tried. */
  lemma {:induction false} FailedFlushIsUndone(b: Batch, entries: seq<(Value, Reading, Id)>)
    ensures Requeue(b, PushAll(EMPTY, entries)) == PushAll(b, entries)
  {
    if entries != [] {
      FailedFlushIsUndone(b, entries[..|entries| - 1]);
    }
  }

  /** At every index the three buffers speak of the same stream entry and of a vehicle it was resolved to. */
  ghost predicate Aligned(b: Batch, stream: seq<Payload>, resolved: set<(Id, Value)>) {
    && |b.points| == |b.states| == |b.acks|
    && forall i | 0 <= i < |b.acks| ::
      && b.acks[i] < |stream| && stream[b.acks[i]].Parsed?
      && (b.acks[i], b.states[i].vehicleId) in resolved
      && b.states[i] == StateRow(b.states[i].vehicleId, stream[b.acks[i]].reading)
      && b.points[i] == PointRow(b.states[i].vehicleId, stream[b.acks[i]].reading)
  }

  /** So at every index the two rows of an entry record its reading and agree. */
  lemma AlignedRecords(b: Batch, stream: seq<Payload>, resolved: set<(Id, Value)>, i: nat)
    requires Aligned(b, stream, resolved) && i < |b.acks|
    ensures |b.points| == |b.states| == |b.acks| && b.acks[i] < |stream| && stream[b.acks[i]].Parsed?
    ensures (b.acks[i], b.points[i].vehicleId) in resolved
    ensures Records(b.points[i], b.points[i].vehicleId, stream[b.acks[i]].reading) && Agrees(b.states[i], b.points[i])
  {
    RowsRecord(b.states[i].vehicleId, stream[b.acks[i]].reading);
  }

  lemma PushAligned(b: Batch, vehicle: Value, id: Id, stream: seq<Payload>, resolved: set<(Id, Value)>)
    requires Aligned(b, stream, resolved) && id < |stream| && stream[id].Parsed?
    ensures Aligned(Push(b, vehicle, stream[id].reading, id), stream, resolved + {(id, vehicle)})
  {
  }

  lemma RequeueAligned(failed: Batch, b: Batch, stream: seq<Payload>, resolved: set<(Id, Value)>)
    requires Aligned(failed, stream, resolved) && Aligned(b, stream, resolved)
    ensures Aligned(Requeue(failed, b), stream, resolved)
  {
    var r := Requeue(failed, b);
    forall i | 0 <= i < |r.acks|
      ensures r.acks[i] < |stream| && stream[r.acks[i]].Parsed? && (r.acks[i], r.states[i].vehicleId) in resolved
      ensures r.states[i] == StateRow(r.states[i].vehicleId, stream[r.acks[i]].reading)
      ensures r.points[i] == PointRow(r.states[i].vehicleId, stream[r.acks[i]].reading)
    {
      var n := |failed.acks|;
      if i < n {
        assert r.acks[i] == failed.acks[i] && r.states[i] == failed.states[i] && r.points[i] == failed.points[i];
      } else {
        assert r.acks[i] == b.acks[i - n] && r.states[i] == b.states[i - n] && r.points[i] == b.points[i - n];
      }
    }
  }

  lemma GrowAligned(
    b: Batch, stream: seq<Payload>, resolved: set<(Id, Value)>, stream': seq<Payload>, resolved': set<(Id, Value)>)
    requires Aligned(b, stream, resolved) && stream <= stream' && resolved <= resolved'
    ensures Aligned(b, stream', resolved')
  {
  }

  /** The module variables of the writer, and its synchronous stretches between two awaits. */
  class Writer {
    var pointBuffer: seq<Point>
    var stateBuffer: seq<LatestState>
    var pendingAcks: seq<Id>

    constructor ()
      ensures Buffers() == EMPTY
    {
      pointBuffer, stateBuffer, pendingAcks := [], [], [];
    }

    function Buffers(): Batch
      reads this
    {
      Batch(pointBuffer, stateBuffer, pendingAcks)
    }

    /** processBatch, after an entry's vehicle is known. The flush is due on a full buffer or when time is up. */
    method Buffer(vehicle: Value, r: Reading, id: Id, maxRows: nat, timeUp: bool) returns (due: bool)
      modifies this
      ensures Buffers() == Push(old(Buffers()), vehicle, r, id)
      ensures |pointBuffer| == |old(pointBuffer)| + 1 && |stateBuffer| == |old(stateBuffer)| + 1
      ensures Records(pointBuffer[|old(pointBuffer)|], vehicle, r)
      ensures Agrees(stateBuffer[|old(stateBuffer)|], pointBuffer[|old(pointBuffer)|])
      ensures due <==> |pointBuffer| >= maxRows || timeUp
    {
      RowsRecord(vehicle, r);
      pointBuffer := pointBuffer + [PointRow(vehicle, r)];
      stateBuffer := stateBuffer + [StateRow(vehicle, r)];
      pendingAcks := pendingAcks + [id];
      due := |pointBuffer| >= maxRows || timeUp;
    }

    /** flushNow, up to its first await: the batch is taken before anything is written. */
    method TakeAll() returns (taken: Batch)
      modifies this
      ensures taken == old(Buffers()) && Buffers() == EMPTY
    {
      taken := Batch(pointBuffer, stateBuffer, pendingAcks);
      pointBuffer := [];
      stateBuffer := [];
      pendingAcks := [];
    }

    /** flushNow, when a write has thrown. */
    method PutBack(failed: Batch)
      modifies this
      ensures Buffers() == Requeue(failed, old(Buffers()))
    {
      pointBuffer := failed.points + pointBuffer;
      stateBuffer := failed.states + stateBuffer;
      pendingAcks := failed.acks + pendingAcks;
    }
  }
}
