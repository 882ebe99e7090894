/**
 A batch that PostgreSQL cannot take sticks, with everything in it, for as long as the process lives; and two points of
 one vehicle, read one after the other, are such a batch.
 */
module WriterRefusal {
  import opened GpsTable
  import opened WriterBuffers
  import opened WriterProtocol
  import opened WriterMemory
  import opened WriterSafety
  import opened WriterRetention
  import RedisStreams

  /** One of the batches: the buffer, or the k-th flush. */
  ghost predicate IsBatch(s: State, b: Batch) {
    b == s.buffer || exists k :: 0 <= k < |s.flights| && s.flights[k].batch == b
  }

  /** The entry waits in a batch that PostgreSQL does not take. */
  ghost predicate Stuck(s: State, id: Id) {
    exists b :: IsBatch(s, b) && id in b.acks && !Flushable(s.reader, b)
  }

  lemma MoreRowsStay(r: Reader, a: seq<Point>, b: seq<Point>)
    ensures Acceptable(r, a + b) ==> Acceptable(r, a) && Acceptable(r, b)
  {
    hide Storable;
    assert forall p | p in a || p in b :: p in a + b;
  }

  lemma MoreStatesStay(r: Reader, a: seq<LatestState>, b: seq<LatestState>)
    ensures OneRowEach(r, a + b) ==> OneRowEach(r, a) && OneRowEach(r, b)
  {
    var c := a + b;
    if OneRowEach(r, c) {
      assert forall i | 0 <= i < |a| :: c[i] == a[i];
      forall i, j | 0 <= i < j < |b|
        ensures r.vehicle(b[i].vehicleId) != r.vehicle(b[j].vehicleId)
      {
        assert c[|a| + i] == b[i] && c[|a| + j] == b[j];
      }
    }
  }

  /** What is put in front of a batch, or behind it, does not make it acceptable. */
  lemma RequeueSticks(r: Reader, a: Batch, b: Batch)
    ensures !Flushable(r, a) || !Flushable(r, b) ==> !Flushable(r, Requeue(a, b))
  {
    hide Acceptable, OneRowEach;
    MoreRowsStay(r, a.points, b.points);
    MoreStatesStay(r, a.states, b.states);
  }

  lemma PushIsRequeue(b: Batch, vehicle: Value, r: Reading, id: Id)
    ensures Push(b, vehicle, r, id) == Requeue(b, Batch([PointRow(vehicle, r)], [StateRow(vehicle, r)], [id]))
  {
  }

  lemma EmptyFlushes(r: Reader)
    ensures Flushable(r, EMPTY) && forall id :: id !in EMPTY.acks
  {
  }

  /** Where a batch goes in a step: it stays, or it is taken up into another. */
  lemma BatchSticks(s: State, a: Action, b: Batch) returns (c: Batch)
    requires Inv(s) && Enabled(s, a) && !Exits(s, a) && IsBatch(s, b) && !Flushable(s.reader, b)
    ensures IsBatch(Apply(s, a), c) && !Flushable(s.reader, c) && forall id | id in b.acks :: id in c.acks
  {
    hide Flushable, Inv, Push, Requeue, LoopHead;
    EmptyFlushes(s.reader);
    var s' := Apply(s, a);
    c := b;
    if b == s.buffer {
      c := BufferSticks(s, a);
    } else {
      var k :| 0 <= k < |s.flights| && s.flights[k].batch == b;
      c := FlightSticks(s, a, k);
    }
  }

  lemma FlightAt(s: State, k: nat)
    requires k < |s.flights|
    ensures IsBatch(s, s.flights[k].batch)
  {
  }

  lemma BufferSticks(s: State, a: Action) returns (c: Batch)
    requires Enabled(s, a) && !Exits(s, a) && !Flushable(s.reader, s.buffer)
    ensures IsBatch(Apply(s, a), c) && !Flushable(s.reader, c) && forall id | id in s.buffer.acks :: id in c.acks
  {
    hide Flushable, Push, Requeue, LoopHead, RedisStreams.ReadPending, RedisStreams.Members, Range, Memory;
    var s' := Apply(s, a);
    if a.NextEntry? {
      LoopHeadLoop(s);
    }
    c := s'.buffer;
    if a.TimerFires? || a.Signal? {
      FlightAt(s', |s.flights|);
      c := s.buffer;
    } else if a.Resolved? {
      c := PushSticks(s, a.vehicle, a.timeUp);
    } else if (a.PointsReply? || a.StatesReply?) && !a.ok {
      RequeueSticks(s.reader, s.flights[a.k].batch, s.buffer);
      RequeueHolds(s.flights[a.k].batch, s.buffer);
    }
  }

  lemma RequeueHolds(a: Batch, b: Batch)
    ensures forall id | id in a.acks || id in b.acks :: id in Requeue(a, b).acks
  {
  }

  lemma PushSticks(s: State, vehicle: Value, timeUp: bool) returns (c: Batch)
    requires Enabled(s, Resolved(vehicle, timeUp)) && !Flushable(s.reader, s.buffer)
    ensures IsBatch(Buffered(s, vehicle, timeUp), c) && !Flushable(s.reader, c)
    ensures forall id | id in s.buffer.acks :: id in c.acks
  {
    hide Flushable, Push, Requeue;
    var id := s.consumer.ids[0];
    var r := s.stream[id].reading;
    var one := Batch([PointRow(vehicle, r)], [StateRow(vehicle, r)], [id]);
    c := Push(s.buffer, vehicle, r, id);
    PushIsRequeue(s.buffer, vehicle, r, id);
    RequeueSticks(s.reader, s.buffer, one);
    RequeueHolds(s.buffer, one);
    var s' := Buffered(s, vehicle, timeUp);
    if c != s'.buffer {
      FlightAt(s', |s.flights|);
    }
  }

  lemma FlightOkAt(s: State, k: nat)
    requires Inv(s) && k < |s.flights|
    ensures FlightOk(s, s.flights[k])
  {
    hide FlightOk, Accounted, Aligned, MayAck;
  }

  /** A refused batch is not the one that a good reply or the end of a back-off concerns. */
  lemma NotReturning(s: State, a: Action, k: nat)
    requires Inv(s) && Enabled(s, a) && k < |s.flights| && !Flushable(s.reader, s.flights[k].batch)
    ensures (a.StatesReply? && a.ok) || a.BackedOff? ==> a.k != k
  {
    hide Inv, Acceptable, OneRowEach, Aligned;
    FlightOkAt(s, k);
    EmptyFlushes(s.reader);
  }

  lemma ReturnKeeps(s: State, k: nat, ids: seq<Id>, j: nat)
    requires j < |s.flights| && k < |s.flights| && j != k && !s.flights[k].owner.ByShutdown?
    requires s.flights[k].owner.ByBatch? ==> s.consumer.Flushing?
    ensures IsBatch(Return(s, k, ids), s.flights[j].batch)
  {
    hide RedisStreams.Members;
    FlightAt(Return(s, k, ids), if j < k then j else j - 1);
  }

  lemma FailSticks(s: State, k: nat) returns (c: Batch)
    requires k < |s.flights| && !Flushable(s.reader, s.flights[k].batch)
    ensures IsBatch(Fail(s, k), c) && !Flushable(s.reader, c)
    ensures forall id | id in s.flights[k].batch.acks :: id in c.acks
  {
    hide Flushable, Requeue;
    c := Fail(s, k).buffer;
    RequeueSticks(s.reader, s.flights[k].batch, s.buffer);
    RequeueHolds(s.flights[k].batch, s.buffer);
  }

  /** All other steps leave the flush where it is, with its batch. */
  lemma FlightKept(s: State, a: Action, k: nat)
    requires Enabled(s, a) && !Exits(s, a) && k < |s.flights|
    requires !(((a.PointsReply? || a.StatesReply?) && !a.ok && a.k == k) || (a.StatesReply? && a.ok) || a.BackedOff?)
    ensures IsBatch(Apply(s, a), s.flights[k].batch)
  {
    hide Push, Requeue, LoopHead, RedisStreams.ReadPending, RedisStreams.Members, Range, Memory, Acceptable, OneRowEach;
    if a.NextEntry? {
      LoopHeadLoop(s);
    }
    FlightAt(Apply(s, a), k);
  }

  lemma FlightSticks(s: State, a: Action, k: nat) returns (c: Batch)
    requires Inv(s) && Enabled(s, a) && !Exits(s, a) && k < |s.flights| && !Flushable(s.reader, s.flights[k].batch)
    ensures IsBatch(Apply(s, a), c) && !Flushable(s.reader, c)
    ensures forall id | id in s.flights[k].batch.acks :: id in c.acks
  {
    hide Inv, Flushable, Return, Fail, IsBatch, Acceptable, OneRowEach, Memory;
    NotReturning(s, a, k);
    c := s.flights[k].batch;
    if (a.PointsReply? || a.StatesReply?) && !a.ok && a.k == k {
      c := FailSticks(s, k);
    } else if a.StatesReply? && a.ok {
      ReturnKeeps(s, a.k, s.flights[a.k].batch.acks, k);
    } else if a.BackedOff? {
      ReturnKeeps(s, a.k, [], k);
    } else {
      FlightKept(s, a, k);
    }
  }

  /** The ids of a batch are in memory. */
  lemma BatchInMemory(s: State, b: Batch)
    requires IsBatch(s, b)
    ensures forall id | id in b.acks :: id in Memory(s)
  {
    hide FlightIds;
    if b != s.buffer {
      var k :| 0 <= k < |s.flights| && s.flights[k].batch == b;
      FlightIdsAt(s.flights, k);
    }
  }

  lemma {:induction false} InFlights(fs: seq<Flight>, k: nat)
    requires k < |fs|
    ensures forall id | id in fs[k].batch.acks :: id in FlightIds(fs)
  {
    hide FlightIds;
    FlightIdsAt(fs, k);
  }

  /** An entry of another batch counts once more than those of the k-th flush. */
  lemma BothCount(s: State, k: nat, b: Batch, id: Id)
    requires k < |s.flights| && IsBatch(s, b) && b != s.flights[k].batch && id in b.acks
    ensures Memory(s)[id] >= multiset(s.flights[k].batch.acks)[id] + 1
  {
    hide FlightIds, LoopIds, Without;
    FlightIdsAt(s.flights, k);
    if b != s.buffer {
      var j :| 0 <= j < |s.flights| && s.flights[j].batch == b;
      OtherFlight(s.flights, k, j, id);
    }
  }

  /** An entry of a refused batch is in none of the statements that are committed meanwhile. */
  lemma RefusedIsNotCommitted(s: State, k: nat, b: Batch, id: Id)
    requires OnePlace(s) && Enabled(s, Commit(k))
    requires IsBatch(s, b) && id in b.acks && !Acceptable(s.reader, b.points)
    ensures id !in s.flights[k].batch.acks
  {
    hide Memory, Acceptable;
    BothCount(s, k, b, id);
  }

  lemma OtherFlight(fs: seq<Flight>, k: nat, j: nat, id: Id)
    requires k < |fs| && j < |fs| && j != k && id in fs[j].batch.acks
    ensures id in FlightIds(Without(fs, k))
  {
    hide FlightIds;
    var rest := Without(fs, k);
    var i := if j < k then j else j - 1;
    assert rest[i] == fs[j];
    InFlights(rest, i);
  }

  /** XACK is sent only ids that leave the memory with the step. */
  lemma SentLeaves(s: State, a: Action)
    requires Enabled(s, a)
    ensures forall id | id in Apply(s, a).sent :: id in s.sent || id in Leaving(s, a)
  {
    hide Memory, LoopIds, Push, Requeue, Range, Without, RedisStreams.ReadPending;
  }

  lemma StuckStep(s: State, a: Action, id: Id)
    requires Inv(s) && OnePlace(s) && Enabled(s, a) && !Exits(s, a) && Stuck(s, id)
    ensures Stuck(Apply(s, a), id) && id in Memory(Apply(s, a))
    ensures id in Apply(s, a).sent ==> id in s.sent
    ensures Apply(s, a).reader == s.reader
  {
    hide Inv, Memory, Apply, Leaving, Enabled, Exits, Flushable, IsBatch, OnePlace, Entering;
    var b :| IsBatch(s, b) && id in b.acks && !Flushable(s.reader, b);
    var c := BatchSticks(s, a, b);
    SameReader(s, a);
    BatchInMemory(Apply(s, a), c);
    SentLeaves(s, a);
    Parts(s, a);
  }

  lemma SameReader(s: State, a: Action)
    requires Enabled(s, a)
    ensures Apply(s, a).reader == s.reader && s.stream <= Apply(s, a).stream
  {
    hide Push, Requeue, Range, Without, RedisStreams.Members, RedisStreams.ReadPending;
  }

  /**
   A batch that PostgreSQL does not take, for one unstorable row, a parameter too many or a repeated vehicle, sticks:
   in every run without crash or shutdown, whatever else happens, each of its entries stays in such a batch and is
   not sent to XACK.
   */
  lemma {:induction false} RefusedBatchSticks(s: State, actions: seq<Action>, id: Id)
    requires Inv(s) && OnePlace(s) && RowsFromStream(s) && NoShutdown(s) && Stuck(s, id)
    requires CanRun(s, actions) && forall a | a in actions :: !a.Crash? && !a.Signal?
    ensures var s' := RunAll(s, actions); Stuck(s', id) && id in Memory(s') && (id in s'.sent ==> id in s.sent)
    decreases actions
  {
    hide Inv, OnePlace, RowsFromStream, NoShutdown, Apply, Enabled, Stuck, Memory;
    if actions == [] {
      StuckInMemory(s, id);
    } else {
      var a := actions[0];
      assert a in actions && forall b | b in actions[1..] :: b in actions;
      NoExit(s, a);
      StuckStep(s, a, id);
      StepSafe(s, a);
      RefusedBatchSticks(Apply(s, a), actions[1..], id);
    }
  }

  lemma StuckInMemory(s: State, id: Id)
    requires Stuck(s, id)
    ensures id in Memory(s)
  {
    hide Memory, IsBatch, Flushable;
    var b :| IsBatch(s, b) && id in b.acks && !Flushable(s.reader, b);
    BatchInMemory(s, b);
  }

  lemma NoExit(s: State, a: Action)
    requires NoShutdown(s) && Enabled(s, a) && !a.Crash? && !a.Signal?
    ensures NoShutdown(Apply(s, a)) && !Exits(s, a)
  {
    hide Push, Requeue, Range, RedisStreams.Members, RedisStreams.ReadPending;
  }

  /** Two entries of one vehicle in the buffer are enough, and so is one fractional speed. */
  lemma OrdinaryBatchesStick(r: Reader, v: Value, a: Reading, b: Reading, i: Id, j: Id)
    ensures !Flushable(r, Push(Push(EMPTY, v, a, i), v, b, j))
    ensures a.speed == Number(45.5) ==> !Flushable(r, Push(EMPTY, v, a, i))
  {
    hide Storable;
    var two := Push(Push(EMPTY, v, a, i), v, b, j);
    assert two.states[0].vehicleId == two.states[1].vehicleId;
    var one := Push(EMPTY, v, a, i);
    assert one.points[0] in one.points;
    FractionIsRefused(r, one.points[0]);
  }

  // ----- An ordinary run that ends so -----

  /** A writer starts and reads two entries; both IMEIs are found to belong to the same vehicle. */
  function OrdinaryRun(v: Value, a: Reading, b: Reading): seq<Action> {
    [Publish(Parsed(a)), Publish(Parsed(b)), Recover(true), NextEntry, ReadNew(2, true),
     NextEntry, Resolved(v, false), NextEntry, Resolved(v, false)]
  }

  ghost predicate Reaches(s: State, actions: seq<Action>, t: State) {
    CanRun(s, actions) && RunAll(s, actions) == t
  }

  lemma Onwards(s: State, actions: seq<Action>, t: State, a: Action, u: State)
    requires Reaches(s, actions, t) && Enabled(t, a) && Apply(t, a) == u
    ensures Reaches(s, actions + [a], u)
  {
    hide Apply, Enabled;
    OneStep(t, a);
    RunConcat(s, actions, [a]);
  }

  lemma NothingToRecover(end: Id)
    ensures RedisStreams.ReadPending({}, end) == []
  {
    RedisStreams.ReadPendingIsXPending({}, end);
    if RedisStreams.ReadPending({}, end) != [] {
      TailWithin(RedisStreams.ReadPending({}, end));
    }
  }

  /** Up to the delivery of the two entries. */
  lemma TwoDelivered(s: State, a: Reading, b: Reading)
    requires Initial(s)
    ensures Reaches(s, [Publish(Parsed(a)), Publish(Parsed(b)), Recover(true), NextEntry, ReadNew(2, true)],
      s.(stream := s.stream + [Parsed(a)] + [Parsed(b)], cursor := s.base + 2, pel := {s.base, s.base + 1},
         consumer := Looping([s.base, s.base + 1], [])))
  {
    hide Reaches, RedisStreams.ReadPending;
    var s1 := s.(stream := s.stream + [Parsed(a)]);
    var s2 := s.(stream := s.stream + [Parsed(a)] + [Parsed(b)]);
    var s3 := s2.(consumer := Looping([], []));
    NothingToRecover(|s2.stream|);
    FromHere(s);
    Onwards(s, [], s, Publish(Parsed(a)), s1);
    Onwards(s, [] + [Publish(Parsed(a))], s1, Publish(Parsed(b)), s2);
    assert [] + [Publish(Parsed(a))] + [Publish(Parsed(b))] == [Publish(Parsed(a)), Publish(Parsed(b))];
    Onwards(s, [Publish(Parsed(a)), Publish(Parsed(b))], s2, Recover(true), s3);
    Onwards(s, [Publish(Parsed(a)), Publish(Parsed(b))] + [Recover(true)], s3, NextEntry, s2.(consumer := Idle));
    var s5 := s2.(cursor := s.base + 2, pel := {s.base, s.base + 1}, consumer := Looping([s.base, s.base + 1], []));
    assert Range(s.base, 2) == [s.base, s.base + 1];
    assert Apply(s2.(consumer := Idle), ReadNew(2, true)) == s5;
    Onwards(s, [Publish(Parsed(a)), Publish(Parsed(b))] + [Recover(true)] + [NextEntry], s2.(consumer := Idle),
            ReadNew(2, true), s5);
    assert [Publish(Parsed(a)), Publish(Parsed(b))] + [Recover(true)] + [NextEntry] + [ReadNew(2, true)]
      == [Publish(Parsed(a)), Publish(Parsed(b)), Recover(true), NextEntry, ReadNew(2, true)];
  }

  lemma FromHere(s: State)
    ensures Reaches(s, [], s)
  {
  }

  ghost predicate TwoInWork(s: State, a: Reading, b: Reading) {
    && s.base + 1 < |s.stream| && s.stream[s.base] == Parsed(a) && s.stream[s.base + 1] == Parsed(b)
    && s.consumer == Looping([s.base, s.base + 1], []) && s.buffer == EMPTY && s.flights == []
  }

  /** Both are buffered, and a flush may or may not have begun. */
  lemma TwoBuffered(s: State, v: Value, a: Reading, b: Reading) returns (t: State)
    requires TwoInWork(s, a, b) && s.maxRows > 1
    ensures Reaches(s, [NextEntry, Resolved(v, false), NextEntry, Resolved(v, false)], t)
    ensures t.reader == s.reader && t.sent == s.sent && NoShutdown(t)
    ensures IsBatch(t, Push(Push(EMPTY, v, a, s.base), v, b, s.base + 1))
  {
    hide Reaches;
    var one := Push(EMPTY, v, a, s.base);
    var s1 := s.(consumer := Resolving([s.base, s.base + 1], []));
    var s2 := s.(consumer := Looping([s.base + 1], []), buffer := one, resolved := s.resolved + {(s.base, v)});
    var s3 := s2.(consumer := Resolving([s.base + 1], []));
    t := Buffered(s3, v, false);
    FromHere(s);
    Onwards(s, [], s, NextEntry, s1);
    assert s1.consumer.ids[1..] == [s.base + 1];
    Onwards(s, [] + [NextEntry], s1, Resolved(v, false), s2);
    Onwards(s, [] + [NextEntry] + [Resolved(v, false)], s2, NextEntry, s3);
    Onwards(s, [] + [NextEntry] + [Resolved(v, false)] + [NextEntry], s3, Resolved(v, false), t);
    assert [] + [NextEntry] + [Resolved(v, false)] + [NextEntry] + [Resolved(v, false)]
      == [NextEntry, Resolved(v, false), NextEntry, Resolved(v, false)];
    var two := Push(one, v, b, s.base + 1);
    if t.buffer != two {
      FlightAt(t, 0);
    }
  }

  /** Nothing need go wrong: two points of one vehicle in one read end in a batch that PostgreSQL does not take. */
  lemma OrdinaryRunEndsStuck(s: State, v: Value, a: Reading, b: Reading)
    requires Initial(s) && s.maxRows > 1
    ensures CanRun(s, OrdinaryRun(v, a, b))
    ensures var t := RunAll(s, OrdinaryRun(v, a, b));
      Stuck(t, s.base) && Stuck(t, s.base + 1) && t.sent == {} && NoShutdown(t)
  {
    hide CanRun, RunAll, IsBatch, Flushable;
    var first := [Publish(Parsed(a)), Publish(Parsed(b)), Recover(true), NextEntry, ReadNew(2, true)];
    var second := [NextEntry, Resolved(v, false), NextEntry, Resolved(v, false)];
    TwoDelivered(s, a, b);
    var m := s.(stream := s.stream + [Parsed(a)] + [Parsed(b)], cursor := s.base + 2, pel := {s.base, s.base + 1},
                consumer := Looping([s.base, s.base + 1], []));
    var t := TwoBuffered(m, v, a, b);
    RunConcat(s, first, second);
    assert first + second == OrdinaryRun(v, a, b);
    OrdinaryBatchesStick(s.reader, v, a, b, s.base, s.base + 1);
    var two := Push(Push(EMPTY, v, a, s.base), v, b, s.base + 1);
    assert s.base in two.acks && s.base + 1 in two.acks;
  }

  /** And neither entry is acknowledged in whatever follows without crash or shutdown. */
  lemma OrdinaryRunSticks(s: State, v: Value, a: Reading, b: Reading, more: seq<Action>, id: Id)
    requires Initial(s) && s.maxRows > 1 && id in {s.base, s.base + 1}
    requires CanRun(s, OrdinaryRun(v, a, b)) && CanRun(RunAll(s, OrdinaryRun(v, a, b)), more)
    requires forall c | c in more :: !c.Crash? && !c.Signal?
    ensures var t := RunAll(RunAll(s, OrdinaryRun(v, a, b)), more); Stuck(t, id) && id !in t.sent && id !in t.acked
  {
    hide OnePlace, RowsFromStream, NoShutdown, Stuck, CanRun, RunAll;
    var t := RunAll(s, OrdinaryRun(v, a, b));
    OrdinaryRunEndsStuck(s, v, a, b);
    InitialSafe(s);
    RunSafe(s, OrdinaryRun(v, a, b));
    RefusedBatchSticks(t, more, id);
    RunInv(t, more);
  }
}
