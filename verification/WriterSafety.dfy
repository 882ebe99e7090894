/**
 What the writer guarantees in every run: nothing is acknowledged before it is stored, nothing is stored that was not
 delivered or that the columns refuse, no entry is in two places of the process's memory, and repeated flushes leave
 the table as if each row had been inserted once.
 */
module WriterSafety {
  import opened GpsTable
  import opened WriterBuffers
  import opened WriterMemory
  import opened WriterProtocol
  import RedisStreams

  // ----- No row without an entry -----

  /** The row was made from a delivered entry and a vehicle it was resolved to. */
  ghost predicate FromStream(s: State, p: Point) {
    exists id: Id, v :: (id, v) in s.resolved && RowFor(s, p, id, v)
  }

  ghost predicate RowFor(s: State, p: Point, id: Id, v: Value) {
    Delivered(s, id) && id < |s.stream| && s.stream[id].Parsed? && p == PointRow(v, s.stream[id].reading)
  }

  ghost predicate AllFromStream(s: State, ps: seq<Point>) {
    forall p | p in ps :: FromStream(s, p)
  }

  ghost predicate RowsFromStream(s: State) {
    && AllFromStream(s, s.log)
    && forall ps | ps in s.issued :: AllFromStream(s, ps)
  }

  lemma BatchFromStream(s: State, b: Batch)
    requires Aligned(b, s.stream, s.resolved) && forall id | id in b.acks :: Delivered(s, id)
    ensures AllFromStream(s, b.points)
  {
    forall p | p in b.points ensures FromStream(s, p) {
      var i :| 0 <= i < |b.points| && b.points[i] == p;
      assert b.acks[i] in b.acks;
      assert (b.acks[i], b.states[i].vehicleId) in s.resolved && RowFor(s, p, b.acks[i], b.states[i].vehicleId);
    }
  }

  lemma BufferFromStream(s: State)
    requires Inv(s) && OnePlace(s)
    ensures AllFromStream(s, s.buffer.points)
  {
    assert forall id | id in s.buffer.acks :: id in Memory(s);
    BatchFromStream(s, s.buffer);
  }

  lemma FlightFromStream(s: State, k: nat)
    requires Inv(s) && OnePlace(s) && k < |s.flights|
    ensures AllFromStream(s, s.flights[k].batch.points)
  {
    FlightIdsAt(s.flights, k);
    assert FlightOk(s, s.flights[k]);
    assert forall id | id in s.flights[k].batch.acks :: id in Memory(s);
    BatchFromStream(s, s.flights[k].batch);
  }

  lemma PushFromStream(s: State, vehicle: Value)
    requires Inv(s) && OnePlace(s) && Enabled(s, Resolved(vehicle, false))
    ensures var id := s.consumer.ids[0];
      var s' := s.(resolved := s.resolved + {(id, vehicle)});
      AllFromStream(s', Push(s.buffer, vehicle, s.stream[id].reading, id).points)
  {
    var id := s.consumer.ids[0];
    var s' := s.(resolved := s.resolved + {(id, vehicle)});
    BufferFromStream(s);
    FromStreamStays(s, s');
    assert id in Rest(s.consumer) && id in Memory(s);
    assert (id, vehicle) in s'.resolved && RowFor(s', PointRow(vehicle, s.stream[id].reading), id, vehicle);
  }

  lemma FromStreamStays(s: State, s': State)
    requires s.stream <= s'.stream && s.base == s'.base && s.cursor <= s'.cursor && s.resolved <= s'.resolved
    ensures forall ps | AllFromStream(s, ps) :: AllFromStream(s', ps)
  {
    forall p | FromStream(s, p) ensures FromStream(s', p) {
      var id: Id, v :| (id, v) in s.resolved && RowFor(s, p, id, v);
      assert (id, v) in s'.resolved && RowFor(s', p, id, v);
    }
  }

  /** The log grows by rows of a flight or of a statement sent before. */
  lemma WhatIsLogged(s: State, a: Action)
    requires Enabled(s, a)
    ensures var s' := Apply(s, a);
      && s.stream <= s'.stream && s.base == s'.base && s.cursor <= s'.cursor && s.resolved <= s'.resolved
      && (a.Resolved? ==> s'.resolved == s.resolved + {(s.consumer.ids[0], a.vehicle)})
      && s'.log == (if a.Commit? then s.log + s.flights[a.k].batch.points
                    else if a.LateCommit? then s.log + a.points else s.log)
  {
    hide Push, Requeue, Range, Without, RedisStreams.Members, RedisStreams.ReadPending;
  }

  /** New statements carry the buffer. */
  lemma WhatIsSent(s: State, a: Action)
    requires Enabled(s, a)
    ensures var s' := Apply(s, a);
      || s'.issued == s.issued || s'.issued == s.issued + {s.buffer.points}
      || (a.Resolved? && s'.issued == s.issued + {
            Push(s.buffer, a.vehicle, s.stream[s.consumer.ids[0]].reading, s.consumer.ids[0]).points})
  {
    hide Push;
  }

  lemma StepRows(s: State, a: Action)
    requires Inv(s) && OnePlace(s) && RowsFromStream(s) && Enabled(s, a)
    ensures RowsFromStream(Apply(s, a))
  {
    hide Inv, OnePlace, Push, FromStream, Apply;
    WhatIsLogged(s, a);
    WhatIsSent(s, a);
    FromStreamStays(s, Apply(s, a));
    BufferFromStream(s);
    if a.Commit? {
      FlightFromStream(s, a.k);
    } else if a.Resolved? {
      PushFromStream(s, a.vehicle);
      FromStreamStays(s.(resolved := s.resolved + {(s.consumer.ids[0], a.vehicle)}), Apply(s, a));
    }
  }

  // ----- Every run -----

  /** What gps_points holds. */
  ghost function GpsPoints(s: State): Table {
    InsertAll(s.reader, map[], s.log)
  }

  /** The entry makes a storable row under a vehicle its IMEI was resolved to, and the row's key is in the table. */
  ghost predicate InTable(s: State, id: Id) {
    id < |s.stream| && s.stream[id].Parsed? &&
    exists v :: && (id, v) in s.resolved && Storable(s.reader, PointRow(v, s.stream[id].reading))
                && KeyOf(s.reader, PointRow(v, s.stream[id].reading)) in GpsPoints(s)
  }

  lemma StepSafe(s: State, a: Action)
    requires Inv(s) && OnePlace(s) && RowsFromStream(s) && Enabled(s, a)
    ensures Inv(Apply(s, a)) && OnePlace(Apply(s, a)) && RowsFromStream(Apply(s, a))
  {
    hide Inv, OnePlace, RowsFromStream, Apply;
    StepInv(s, a);
    StepOnePlace(s, a);
    StepRows(s, a);
  }

  lemma {:induction false} RunSafe(s: State, actions: seq<Action>)
    requires Inv(s) && OnePlace(s) && RowsFromStream(s) && CanRun(s, actions)
    ensures var s' := RunAll(s, actions); Inv(s') && OnePlace(s') && RowsFromStream(s')
    decreases actions
  {
    hide Inv, OnePlace, RowsFromStream, Apply, Enabled;
    if actions != [] {
      StepSafe(s, actions[0]);
      RunSafe(Apply(s, actions[0]), actions[1..]);
    }
  }

  lemma InitialSafe(s: State)
    requires Initial(s)
    ensures Inv(s) && OnePlace(s) && RowsFromStream(s)
  {
    InitialInv(s);
  }

  /** Acknowledged entries are in the table, or are malformed, or had no registered vehicle. */
  lemma AcknowledgedIsStored(s: State, actions: seq<Action>, id: Id)
    requires Initial(s) && CanRun(s, actions) && id in RunAll(s, actions).acked
    ensures var s' := RunAll(s, actions);
      id < |s'.stream| && (s'.stream[id].Malformed? || id in s'.unregistered || InTable(s', id))
  {
    InitialSafe(s);
    RunSafe(s, actions);
    var s' := RunAll(s, actions);
    assert MayAck(s', id);
    if Stored(s', id) {
      var v :| (id, v) in s'.resolved && PointRow(v, s'.stream[id].reading) in s'.log;
      KnownKey(s'.reader, s'.log, PointRow(v, s'.stream[id].reading));
    }
  }

  /**
   Nothing that the columns refuse is ever acknowledged: an entry whose IMEI was always found registered, and whose
   row is storable under none of the vehicles it was resolved to, stays pending in every run.
   */
  lemma RefusedIsNeverAcknowledged(s: State, actions: seq<Action>, id: Id)
    requires Initial(s) && CanRun(s, actions)
    requires var s' := RunAll(s, actions);
      && id < |s'.stream| && id !in s'.unregistered && s'.stream[id].Parsed?
      && forall v | (id, v) in s'.resolved :: !Storable(s'.reader, PointRow(v, s'.stream[id].reading))
    ensures id !in RunAll(s, actions).acked
  {
    if id in RunAll(s, actions).acked {
      AcknowledgedIsStored(s, actions, id);
    }
  }

  /** Redis keeps each delivered entry as pending or as acknowledged. */
  lemma RedisAccounts(s: State, actions: seq<Action>)
    requires Initial(s) && CanRun(s, actions)
    ensures var s' := RunAll(s, actions);
      s'.pel !! s'.acked && forall id :: id in s'.pel || id in s'.acked <==> s'.base <= id < s'.cursor
  {
    InitialSafe(s);
    RunSafe(s, actions);
  }

  /**
   The table holds each distinct committed row's key once, with the row that came first, and every row in it
   was made from a delivered entry and is one that the columns take.
   */
  lemma TableIsFirstCommits(s: State, actions: seq<Action>)
    requires Initial(s) && CanRun(s, actions)
    ensures var s' := RunAll(s, actions);
      && GpsPoints(s') == InsertAll(s'.reader, map[], Distinct(s'.log))
      && (forall k | k in GpsPoints(s') ::
        && FirstWith(s'.reader, s'.log, k) < |s'.log| && GpsPoints(s')[k] == s'.log[FirstWith(s'.reader, s'.log, k)]
        && FromStream(s', GpsPoints(s')[k]) && Storable(s'.reader, GpsPoints(s')[k]))
  {
    InitialSafe(s);
    RunSafe(s, actions);
    var s' := RunAll(s, actions);
    RepeatsDoNotMatter(s'.reader, s'.log);
    forall k | k in GpsPoints(s')
      ensures FirstWith(s'.reader, s'.log, k) < |s'.log| && GpsPoints(s')[k] == s'.log[FirstWith(s'.reader, s'.log, k)]
      ensures FromStream(s', GpsPoints(s')[k]) && Storable(s'.reader, GpsPoints(s')[k])
    {
      InsertAllLookup(s'.reader, map[], s'.log, k);
      assert s'.log[FirstWith(s'.reader, s'.log, k)] in s'.log;
    }
  }

  /** The entry was delivered and resolved to the vehicle, and the row records its reading, column by column. */
  ghost predicate IsRecordOf(s: State, p: Point, id: Id, v: Value) {
    && s.base <= id < s.cursor && id < |s.stream| && s.stream[id].Parsed? && (id, v) in s.resolved
    && Records(p, v, s.stream[id].reading)
  }

  /** Every row of gps_points records the reading of a delivered entry, under a vehicle that it was resolved to. */
  lemma TableRecords(s: State, actions: seq<Action>, k: Key)
    requires Initial(s) && CanRun(s, actions) && k in GpsPoints(RunAll(s, actions))
    ensures var s' := RunAll(s, actions);
      && (exists id: Id, v :: IsRecordOf(s', GpsPoints(s')[k], id, v))
      && k == (s'.reader.vehicle(GpsPoints(s')[k].vehicleId), s'.reader.timestamp(GpsPoints(s')[k].deviceTime))
  {
    TableIsFirstCommits(s, actions);
    var s' := RunAll(s, actions);
    var p := GpsPoints(s')[k];
    var id: Id, v :| (id, v) in s'.resolved && RowFor(s', p, id, v);
    RowsRecord(v, s'.stream[id].reading);
    assert IsRecordOf(s', p, id, v);
    InsertAllLookup(s'.reader, map[], s'.log, k);
  }

  /** So does every row that waits in the buffer or in a flush, with a row for vehicle_latest_state that agrees. */
  lemma MemoryRecords(s: State, actions: seq<Action>, b: Batch, i: nat)
    requires Initial(s) && CanRun(s, actions) && i < |b.acks|
    requires var s' := RunAll(s, actions);
      b == s'.buffer || exists k :: 0 <= k < |s'.flights| && s'.flights[k].batch == b
    ensures var s' := RunAll(s, actions);
      && |b.points| == |b.states| == |b.acks| && IsRecordOf(s', b.points[i], b.acks[i], b.points[i].vehicleId)
      && Agrees(b.states[i], b.points[i])
  {
    hide Aligned, OnePlace, Accounted, AllStorable, SetMayAck, AllMayAck;
    InitialSafe(s);
    RunSafe(s, actions);
    var s' := RunAll(s, actions);
    InHand(s', b);
    AlignedRecords(b, s'.stream, s'.resolved, i);
    assert b.acks[i] in b.acks;
  }

  lemma InHand(s: State, b: Batch)
    requires Inv(s) && OnePlace(s) && (b == s.buffer || exists k :: 0 <= k < |s.flights| && s.flights[k].batch == b)
    ensures Aligned(b, s.stream, s.resolved) && forall id | id in b.acks :: s.base <= id < s.cursor
  {
    hide Aligned, Accounted, AllStorable, SetMayAck, AllMayAck, FlightIds, LoopIds;
    if b == s.buffer {
      assert forall id | id in b.acks :: id in multiset(s.buffer.acks) && id in Memory(s);
    } else {
      var k :| 0 <= k < |s.flights| && s.flights[k].batch == b;
      FlightIdsAt(s.flights, k);
      assert forall id | id in b.acks :: id in multiset(b.acks) && id in FlightIds(s.flights) && id in Memory(s);
      assert FlightOk(s, s.flights[k]);
    }
  }

  /** Two rows of the table are never of one vehicle and one instant. */
  lemma OneRowAnInstant(s: State, actions: seq<Action>, j: Key, k: Key)
    requires Initial(s) && CanRun(s, actions)
    requires var t := GpsPoints(RunAll(s, actions)); j in t && k in t
    requires var s' := RunAll(s, actions);
      && s'.reader.vehicle(GpsPoints(s')[j].vehicleId) == s'.reader.vehicle(GpsPoints(s')[k].vehicleId)
      && s'.reader.timestamp(GpsPoints(s')[j].deviceTime) == s'.reader.timestamp(GpsPoints(s')[k].deviceTime)
    ensures j == k
  {
    TableRecords(s, actions, j);
    TableRecords(s, actions, k);
  }

  /**
   What an acknowledgement says: the entry was malformed, or of an IMEI found unregistered, or the table has a row of a
   vehicle that it was resolved to and of its device time.
   */
  lemma AcknowledgedHasRow(s: State, actions: seq<Action>, id: Id)
    requires Initial(s) && CanRun(s, actions) && id in RunAll(s, actions).acked
    ensures var s' := RunAll(s, actions);
      && id < |s'.stream|
      && (s'.stream[id].Malformed? || id in s'.unregistered ||
          (s'.stream[id].Parsed? && exists v, k ::
            && (id, v) in s'.resolved && k in GpsPoints(s')
            && s'.reader.vehicle(GpsPoints(s')[k].vehicleId) == s'.reader.vehicle(v)
            && s'.reader.timestamp(GpsPoints(s')[k].deviceTime)
               == s'.reader.timestamp(s'.stream[id].reading.deviceTime)))
  {
    AcknowledgedIsStored(s, actions, id);
    var s' := RunAll(s, actions);
    if InTable(s', id) && id !in s'.unregistered && !s'.stream[id].Malformed? {
      var v :| (id, v) in s'.resolved && KeyOf(s'.reader, PointRow(v, s'.stream[id].reading)) in GpsPoints(s');
      var k := KeyOf(s'.reader, PointRow(v, s'.stream[id].reading));
      RowsRecord(v, s'.stream[id].reading);
      TableRecords(s, actions, k);
    }
  }

  /** At no time is an entry in two of: the rest of a batch, its ids to return, the buffer and the flushes. */
  lemma NoEntryTwice(s: State, actions: seq<Action>, id: Id)
    requires Initial(s) && CanRun(s, actions)
    ensures Memory(RunAll(s, actions))[id] <= 1
  {
    InitialSafe(s);
    RunSafe(s, actions);
    var s' := RunAll(s, actions);
    assert id in Memory(s') ==> Memory(s')[id] == 1;
  }

  lemma {:induction false} RunConcat(s: State, a: seq<Action>, b: seq<Action>)
    requires CanRun(s, a) && CanRun(RunAll(s, a), b)
    ensures CanRun(s, a + b) && RunAll(s, a + b) == RunAll(RunAll(s, a), b)
    decreases a
  {
    hide Apply, Enabled;
    if a == [] {
      assert a + b == b;
    } else {
      assert (a + b)[1..] == a[1..] + b;
      RunConcat(Apply(s, a[0]), a[1..], b);
    }
  }

  lemma OneStep(s: State, a: Action)
    requires Enabled(s, a)
    ensures CanRun(s, [a]) && RunAll(s, [a]) == Apply(s, a)
  {
    hide Apply, Enabled;
    assert [a][1..] == [];
    assert RunAll(Apply(s, a), []) == Apply(s, a);
  }

  lemma TwoSteps(s: State, a: Action, b: Action)
    requires Enabled(s, a) && Enabled(Apply(s, a), b)
    ensures CanRun(s, [a, b]) && RunAll(s, [a, b]) == Apply(Apply(s, a), b)
  {
    hide Apply, Enabled;
    OneStep(s, a);
    OneStep(Apply(s, a), b);
    RunConcat(s, [a], [b]);
    assert [a] + [b] == [a, b];
  }

  /** After any run and a crash, recovery hands processBatch every pending entry exactly when there are at most 1000. */
  lemma RestartRecovers(s: State, actions: seq<Action>)
    requires Initial(s) && CanRun(s, actions)
    ensures var restart := actions + [Crash, Recover(true)];
      && CanRun(s, restart)
      && var s' := RunAll(s, restart);
         && s'.pel == RunAll(s, actions).pel
         && s'.consumer.Looping? && RedisStreams.Increasing(s'.consumer.ids)
         && (RedisStreams.Members(s'.consumer.ids) == s'.pel <==> |s'.pel| <= 1000)
  {
    InitialSafe(s);
    RunSafe(s, actions);
    var m := RunAll(s, actions);
    TwoSteps(m, Crash, Recover(true));
    RunConcat(s, actions, [Crash, Recover(true)]);
    RedisStreams.RecoveryIsComplete(m.pel, |m.stream|);
    RedisStreams.ReadPendingIsXPending(m.pel, |m.stream|);
  }
}
