/**
 What gets through and what never does. An entry that no registered vehicle makes storable is never acknowledged by
 any process, and a recovery can clear what is pending exactly when there is no such entry.
 */
module WriterRecovery {
  import opened Wrappers
  import opened GpsTable
  import opened WriterBuffers
  import opened WriterProtocol
  import opened WriterMemory
  import opened WriterSafety
  import opened WriterRetention
  import opened WriterRefusal
  import RedisStreams

  // ----- Entries that never get through -----

  /** The vehicle registered for an IMEI. */
  type Registry = Value -> Option<Value>

  ghost predicate Known(s: State, ids: seq<Id>) {
    ids != [] && ids[0] < |s.stream| && s.stream[ids[0]].Parsed?
  }

  /** The vehicle lookups, when they answer, answer what is registered. */
  ghost predicate Follows(s: State, a: Action, reg: Registry)
    requires Enabled(s, a)
  {
    && (a.Resolved? ==> reg(s.stream[s.consumer.ids[0]].reading.imei) == Some(a.vehicle))
    && (a.NotRegistered? ==> Known(s, s.consumer.ids) && reg(s.stream[s.consumer.ids[0]].reading.imei) == None)
  }

  ghost predicate CanFollow(s: State, actions: seq<Action>, reg: Registry)
    decreases actions
  {
    actions == [] ||
    (Enabled(s, actions[0]) && Follows(s, actions[0], reg) && CanFollow(Apply(s, actions[0]), actions[1..], reg))
  }

  /** What can be said of an entry beforehand: it needs no row, or it makes a storable one. */
  ghost predicate Clearable(s: State, reg: Registry, id: Id) {
    id < |s.stream| &&
    match s.stream[id]
    case Malformed => true
    case JsonNull => false
    case Parsed(r) => reg(r.imei).None? || Storable(s.reader, PointRow(reg(r.imei).value, r))
  }

  ghost predicate AllClearable(s: State, reg: Registry, ids: seq<Id>) {
    forall id | id in ids :: Clearable(s, reg, id)
  }

  /** Each row of the batch is the one its entry makes under the registered vehicle. */
  ghost predicate BatchFollows(s: State, reg: Registry, b: Batch) {
    && |b.points| == |b.acks|
    && forall i | 0 <= i < |b.acks| ::
      && b.acks[i] < |s.stream| && s.stream[b.acks[i]].Parsed?
      && var r := s.stream[b.acks[i]].reading;
      && reg(r.imei).Some? && b.points[i] == PointRow(reg(r.imei).value, r)
  }

  ghost predicate FlightsFollow(s: State, reg: Registry, fs: seq<Flight>) {
    forall k | 0 <= k < |fs| :: BatchFollows(s, reg, fs[k].batch)
  }

  ghost predicate LoopFollows(s: State, reg: Registry) {
    && AllClearable(s, reg, ToAck(s.consumer))
    && (s.consumer.SavingRaw? && s.consumer.ids != [] ==> Clearable(s, reg, s.consumer.ids[0]))
  }

  /** The memory holds rows of registered vehicles only, and returns ids of clearable entries only. */
  ghost predicate MemoryFollows(s: State, reg: Registry) {
    LoopFollows(s, reg) && BatchFollows(s, reg, s.buffer) && FlightsFollow(s, reg, s.flights)
  }

  lemma ClearableStays(s: State, s': State, reg: Registry)
    requires s.stream <= s'.stream && s.reader == s'.reader
    ensures forall id | Clearable(s, reg, id) :: Clearable(s', reg, id)
    ensures forall b | BatchFollows(s, reg, b) :: BatchFollows(s', reg, b)
  {
    hide Storable;
  }

  /** The entries of a batch that has been taken are clearable. */
  lemma TakenIsClearable(s: State, reg: Registry, b: Batch)
    requires BatchFollows(s, reg, b) && AllStorable(s.reader, b.points)
    ensures AllClearable(s, reg, b.acks)
  {
    hide Storable;
    forall id | id in b.acks
      ensures Clearable(s, reg, id)
    {
      var i :| 0 <= i < |b.acks| && b.acks[i] == id;
      assert b.points[i] in b.points;
    }
  }

  lemma ClearableBoth(s: State, reg: Registry, a: seq<Id>, b: seq<Id>)
    requires AllClearable(s, reg, a) && AllClearable(s, reg, b)
    ensures AllClearable(s, reg, a + b)
  {
    hide Clearable;
  }

  lemma ClearableOne(s: State, reg: Registry, id: Id)
    requires Clearable(s, reg, id)
    ensures AllClearable(s, reg, [id])
  {
    hide Clearable;
  }

  lemma ClearableNone(s: State, reg: Registry)
    ensures AllClearable(s, reg, []) && BatchFollows(s, reg, EMPTY) && FlightsFollow(s, reg, [])
  {
  }

  lemma RequeueFollows(s: State, reg: Registry, a: Batch, b: Batch)
    requires BatchFollows(s, reg, a) && BatchFollows(s, reg, b)
    ensures BatchFollows(s, reg, Requeue(a, b))
  {
    var c, n := Requeue(a, b), |a.acks|;
    forall i | 0 <= i < |c.acks|
      ensures c.acks[i] == (if i < n then a.acks[i] else b.acks[i - n])
      ensures c.points[i] == (if i < n then a.points[i] else b.points[i - n])
    {
    }
  }

  lemma PushFollows(s: State, reg: Registry, vehicle: Value)
    requires Enabled(s, Resolved(vehicle, false)) && Follows(s, Resolved(vehicle, false), reg)
    requires BatchFollows(s, reg, s.buffer)
    ensures var id := s.consumer.ids[0]; BatchFollows(s, reg, Push(s.buffer, vehicle, s.stream[id].reading, id))
  {
    var id := s.consumer.ids[0];
    var r := s.stream[id].reading;
    PushIsRequeue(s.buffer, vehicle, r, id);
    RequeueFollows(s, reg, s.buffer, Batch([PointRow(vehicle, r)], [StateRow(vehicle, r)], [id]));
  }

  lemma FlightsFollowPlus(s: State, reg: Registry, fs: seq<Flight>, f: Flight)
    requires FlightsFollow(s, reg, fs) && BatchFollows(s, reg, f.batch)
    ensures FlightsFollow(s, reg, fs + [f])
  {
    hide BatchFollows;
  }

  lemma FlightsFollowUpdated(s: State, reg: Registry, fs: seq<Flight>, k: nat, f: Flight)
    requires FlightsFollow(s, reg, fs) && BatchFollows(s, reg, f.batch) && k < |fs|
    ensures FlightsFollow(s, reg, fs[k := f])
  {
    hide BatchFollows;
  }

  lemma FlightsFollowWithout(s: State, reg: Registry, fs: seq<Flight>, k: nat)
    requires FlightsFollow(s, reg, fs) && k < |fs|
    ensures FlightsFollow(s, reg, Without(fs, k)) && BatchFollows(s, reg, fs[k].batch)
  {
    hide BatchFollows;
    assert forall j | 0 <= j < |Without(fs, k)| :: Without(fs, k)[j] == fs[if j < k then j else j + 1];
  }

  lemma AllFollowsStays(s: State, s': State, reg: Registry)
    requires MemoryFollows(s, reg) && s.stream <= s'.stream && s.reader == s'.reader
    ensures BatchFollows(s', reg, s.buffer) && FlightsFollow(s', reg, s.flights)
    ensures AllClearable(s', reg, ToAck(s.consumer))
    ensures s.consumer.SavingRaw? && s.consumer.ids != [] ==> Clearable(s', reg, s.consumer.ids[0])
  {
    hide BatchFollows, Clearable;
    ClearableStays(s, s', reg);
  }

  lemma LoopHeadFollows(s: State, reg: Registry)
    requires MemoryFollows(s, reg) && Enabled(s, NextEntry)
    ensures MemoryFollows(LoopHead(s), reg)
  {
    hide BatchFollows, FlightsFollow, AllClearable, RedisStreams.Members;
    var s', c := LoopHead(s), s.consumer;
    AllFollowsStays(s, s', reg);
    ClearableNone(s', reg);
    if c.ids != [] && s.stream[c.ids[0]].Malformed? {
      ClearableOne(s', reg, c.ids[0]);
      ClearableBoth(s', reg, c.acked, [c.ids[0]]);
    }
  }

  lemma LoopKeepsFollowing(s: State, a: Action, reg: Registry)
    requires MemoryFollows(s, reg) && Enabled(s, a) && Follows(s, a, reg) && OfTheLoop(a) && !a.Resolved?
    ensures MemoryFollows(Apply(s, a), reg)
  {
    hide BatchFollows, FlightsFollow, AllClearable, LoopHead, Range, RedisStreams.Members, RedisStreams.ReadPending;
    if a.NextEntry? {
      LoopHeadFollows(s, reg);
    } else {
      var s' := Apply(s, a);
      AllFollowsStays(s, s', reg);
      ClearableNone(s', reg);
      if a.RawSaved? {
        ClearableOne(s', reg, s.consumer.ids[0]);
        ClearableBoth(s', reg, s.consumer.acked, [s.consumer.ids[0]]);
      }
    }
  }

  lemma BeginFlushFollows(s: State, reg: Registry, owner: Owner)
    requires MemoryFollows(s, reg)
    ensures MemoryFollows(BeginFlush(s, owner), reg)
  {
    hide BatchFollows, FlightsFollow, AllClearable, Clearable;
    var s' := BeginFlush(s, owner);
    AllFollowsStays(s, s', reg);
    ClearableNone(s', reg);
    FlightsFollowPlus(s', reg, s.flights, Flight(owner, s.buffer, SavingPoints(false)));
  }

  lemma ResolvedFollows(s: State, reg: Registry, vehicle: Value, timeUp: bool)
    requires MemoryFollows(s, reg)
    requires Enabled(s, Resolved(vehicle, timeUp)) && Follows(s, Resolved(vehicle, timeUp), reg)
    ensures MemoryFollows(Buffered(s, vehicle, timeUp), reg)
  {
    hide BatchFollows, FlightsFollow, AllClearable, Clearable, BeginFlush, Push;
    var c := s.consumer;
    var b := Push(s.buffer, vehicle, s.stream[c.ids[0]].reading, c.ids[0]);
    var filled := s.(buffer := b, resolved := s.resolved + {(c.ids[0], vehicle)});
    PushFollows(s, reg, vehicle);
    AllFollowsStays(s, filled, reg);
    ClearableStays(s, filled, reg);
    var flushing, looping := Flushing(c.ids[1..], c.acked), Looping(c.ids[1..], c.acked);
    AllFollowsStays(s, filled.(consumer := flushing), reg);
    AllFollowsStays(s, filled.(consumer := looping), reg);
    ClearableStays(s, filled.(consumer := flushing), reg);
    ClearableStays(s, filled.(consumer := looping), reg);
    BeginFlushFollows(filled.(consumer := flushing), reg, ByBatch);
  }

  lemma FailFollows(s: State, reg: Registry, k: nat)
    requires MemoryFollows(s, reg) && k < |s.flights|
    ensures MemoryFollows(Fail(s, k), reg)
  {
    hide BatchFollows, FlightsFollow, AllClearable, Clearable, Requeue;
    var s' := Fail(s, k);
    AllFollowsStays(s, s', reg);
    ClearableNone(s', reg);
    FlightsFollowWithout(s', reg, s.flights, k);
    RequeueFollows(s', reg, s.flights[k].batch, s.buffer);
    FlightsFollowUpdated(s', reg, s.flights, k, s'.flights[k]);
  }

  lemma StageFollows(s: State, reg: Registry, k: nat, stage: Stage)
    requires MemoryFollows(s, reg) && k < |s.flights|
    ensures MemoryFollows(StageTo(s, k, stage), reg)
  {
    hide BatchFollows, FlightsFollow, AllClearable, Clearable;
    var s' := StageTo(s, k, stage);
    AllFollowsStays(s, s', reg);
    FlightsFollowWithout(s', reg, s.flights, k);
    FlightsFollowUpdated(s', reg, s.flights, k, s'.flights[k]);
  }

  lemma RestartFollows(s: State, reg: Registry)
    ensures MemoryFollows(Restart(s), reg)
  {
    hide BatchFollows, FlightsFollow, AllClearable, Clearable;
    ClearableNone(Restart(s), reg);
  }

  lemma ReturnFollows(s: State, reg: Registry, k: nat, ids: seq<Id>)
    requires MemoryFollows(s, reg) && k < |s.flights| && (s.flights[k].owner.ByBatch? ==> s.consumer.Flushing?)
    requires AllClearable(s, reg, ids)
    ensures MemoryFollows(Return(s, k, ids), reg)
  {
    hide BatchFollows, FlightsFollow, AllClearable, Clearable, Restart, Without, RedisStreams.Members;
    var s' := Return(s, k, ids);
    RestartFollows(s.(flights := Without(s.flights, k)), reg);
    if !s.flights[k].owner.ByShutdown? {
      AllFollowsStays(s, s', reg);
      FlightsFollowWithout(s', reg, s.flights, k);
      ClearableBoth(s, reg, ToAck(s.consumer), ids);
      SameClearable(s, s', reg, ToAck(s.consumer) + ids);
    }
  }

  lemma SameClearable(s: State, s': State, reg: Registry, ids: seq<Id>)
    requires AllClearable(s, reg, ids) && s.stream <= s'.stream && s.reader == s'.reader
    ensures AllClearable(s', reg, ids)
  {
    hide Clearable;
    ClearableStays(s, s', reg);
  }

  lemma FlushKeepsFollowing(s: State, a: Action, reg: Registry)
    requires Inv(s) && MemoryFollows(s, reg) && Enabled(s, a) && OfAFlush(a)
    ensures MemoryFollows(Apply(s, a), reg)
  {
    hide Inv, MemoryFollows, BeginFlush, Return, Fail, StageTo, Acceptable, OneRowEach;
    match a
    case TimerFires => BeginFlushFollows(s, reg, ByTimer);
    case Commit(k) =>
      StageFollows(s, reg, k, SavingPoints(true));
      SameMemoryFollows(StageTo(s, k, SavingPoints(true)), Apply(s, a), reg);
    case PointsReply(k, ok) =>
      StageFollows(s, reg, k, SavingStates);
      FailFollows(s, reg, k);
    case StatesReply(k, ok) =>
      FailFollows(s, reg, k);
      if ok {
        FlightTaken(s, reg, k);
        ReturnFollows(s, reg, k, s.flights[k].batch.acks);
      }
    case BackedOff(k) =>
      ClearableNone(s, reg);
      ReturnFollows(s, reg, k, []);
  }

  lemma FlightTaken(s: State, reg: Registry, k: nat)
    requires Inv(s) && MemoryFollows(s, reg) && k < |s.flights| && s.flights[k].stage.SavingStates?
    ensures AllClearable(s, reg, s.flights[k].batch.acks)
  {
    hide Inv, AllClearable, BatchFollows, Aligned;
    FlightOkAt(s, k);
    FlightsFollowWithout(s, reg, s.flights, k);
    TakenIsClearable(s, reg, s.flights[k].batch);
  }

  lemma SameMemoryFollows(s: State, s': State, reg: Registry)
    requires MemoryFollows(s, reg) && s.stream <= s'.stream && s.reader == s'.reader
    requires s'.consumer == s.consumer && s'.buffer == s.buffer && s'.flights == s.flights
    ensures MemoryFollows(s', reg)
  {
    hide BatchFollows, FlightsFollow, AllClearable, Clearable;
    AllFollowsStays(s, s', reg);
  }

  lemma {:induction false} StepFollows(s: State, a: Action, reg: Registry)
    requires Inv(s) && MemoryFollows(s, reg) && Enabled(s, a) && Follows(s, a, reg)
    ensures MemoryFollows(Apply(s, a), reg)
  {
    hide Inv, MemoryFollows, BeginFlush, Return, Fail, StageTo, Buffered, LoopHead, Restart, Follows, Deliver;
    if a.Resolved? {
      ResolvedFollows(s, reg, a.vehicle, a.timeUp);
    } else if OfTheLoop(a) {
      LoopKeepsFollowing(s, a, reg);
    } else if OfAFlush(a) {
      FlushKeepsFollowing(s, a, reg);
    } else if a.Signal? {
      SignalFollows(s, reg);
    } else if a.Crash? {
      RestartFollows(s, reg);
    } else {
      SameMemoryFollows(s, Apply(s, a), reg);
    }
  }

  lemma SignalFollows(s: State, reg: Registry)
    requires MemoryFollows(s, reg)
    ensures MemoryFollows(Apply(s, Signal), reg)
  {
    hide MemoryFollows, BeginFlush, Restart;
    if s.buffer.points == [] {
      RestartFollows(s, reg);
    } else {
      BeginFlushFollows(s, reg, ByShutdown);
      SameMemoryFollows(BeginFlush(s, ByShutdown), Apply(s, Signal), reg);
    }
  }

  /** What leaves the memory for XACK is clearable. */
  lemma AckedIsClearable(s: State, a: Action, reg: Registry)
    requires Inv(s) && MemoryFollows(s, reg) && Enabled(s, a) && !Exits(s, a) && !Throws(a)
    ensures forall id | id in Leaving(s, a) :: Clearable(s, reg, id)
  {
    hide Inv, Memory, LoopIds, Clearable, BatchFollows, FlightsFollow;
    if a.StatesReply? && a.ok {
      FlightTaken(s, reg, a.k);
    }
  }

  lemma ClearableSame(s: State, a: Action, reg: Registry, id: Id)
    requires Enabled(s, a) && id < |s.stream|
    ensures Clearable(Apply(s, a), reg, id) <==> Clearable(s, reg, id)
  {
    hide Storable, Apply;
    SameReader(s, a);
  }

  lemma UnclearableStep(s: State, a: Action, reg: Registry, id: Id)
    requires Inv(s) && OnePlace(s) && MemoryFollows(s, reg) && NoShutdown(s)
    requires Enabled(s, a) && Follows(s, a, reg) && Calm(a)
    requires id in Memory(s) && id < |s.stream| && !Clearable(s, reg, id)
    ensures id in Memory(Apply(s, a)) && id < |Apply(s, a).stream| && !Clearable(Apply(s, a), reg, id)
  {
    hide Inv, OnePlace, MemoryFollows, Memory, Apply, Leaving, Enabled, Exits, Follows, Clearable, Entering;
    CalmKeepsRunning(s, a);
    AckedIsClearable(s, a, reg);
    Parts(s, a);
    SameReader(s, a);
    ClearableSame(s, a, reg, id);
  }

  /** An entry that is not clearable stays in the process's hands in every calm run. */
  lemma {:induction false} UnclearableStays(s: State, actions: seq<Action>, reg: Registry, id: Id)
    requires Inv(s) && OnePlace(s) && RowsFromStream(s) && MemoryFollows(s, reg) && NoShutdown(s)
    requires CanFollow(s, actions, reg) && forall a | a in actions :: Calm(a)
    requires id in Memory(s) && id < |s.stream| && !Clearable(s, reg, id)
    ensures CanRun(s, actions) && id in Memory(RunAll(s, actions))
    decreases actions
  {
    hide Inv, OnePlace, RowsFromStream, MemoryFollows, NoShutdown, Memory, Apply, Enabled, Follows, Clearable, Calm;
    if actions != [] {
      var a := actions[0];
      assert a in actions && forall b | b in actions[1..] :: b in actions;
      UnclearableStep(s, a, reg, id);
      StepSafe(s, a);
      StepFollows(s, a, reg);
      CalmKeepsRunning(s, a);
      UnclearableStays(Apply(s, a), actions[1..], reg, id);
    }
  }

  lemma SentStep(s: State, a: Action, reg: Registry)
    requires Inv(s) && MemoryFollows(s, reg) && Enabled(s, a)
    requires forall id | id in s.sent :: Clearable(s, reg, id)
    ensures forall id | id in Apply(s, a).sent :: Clearable(Apply(s, a), reg, id)
  {
    hide Inv, MemoryFollows, Memory, Apply, Leaving, Enabled, Exits, Clearable, Acks;
    WhatIsAcked(s, a);
    SentLeaves(s, a);
    SameReader(s, a);
    ClearableStays(s, Apply(s, a), reg);
    if !Exits(s, a) && !Throws(a) {
      AckedIsClearable(s, a, reg);
    }
  }

  lemma {:induction false} RunSendsClearable(s: State, actions: seq<Action>, reg: Registry)
    requires Inv(s) && OnePlace(s) && RowsFromStream(s) && MemoryFollows(s, reg) && CanFollow(s, actions, reg)
    requires forall id | id in s.sent :: Clearable(s, reg, id)
    ensures CanRun(s, actions)
    ensures var s' := RunAll(s, actions); forall id | id in s'.sent :: Clearable(s', reg, id)
    decreases actions
  {
    hide Inv, OnePlace, RowsFromStream, MemoryFollows, Apply, Enabled, Follows, Clearable;
    if actions == [] {
      assert RunAll(s, actions) == s;
    } else {
      var a := actions[0];
      SentStep(s, a, reg);
      StepSafe(s, a);
      StepFollows(s, a, reg);
      RunSendsClearable(Apply(s, a), actions[1..], reg);
      assert RunAll(s, actions) == RunAll(Apply(s, a), actions[1..]);
    }
  }

  /** In every run, crashes and failures included, only clearable entries are ever acknowledged. */
  lemma OnlyClearableIsAcknowledged(s: State, actions: seq<Action>, reg: Registry, id: Id)
    requires Initial(s) && CanFollow(s, actions, reg)
    ensures CanRun(s, actions)
    ensures id in RunAll(s, actions).acked ==> Clearable(RunAll(s, actions), reg, id)
  {
    hide CanFollow, CanRun, RunAll, Clearable;
    InitialSafe(s);
    ClearableNone(s, reg);
    RunSendsClearable(s, actions, reg);
    RunSafe(s, actions);
  }

  // ----- Clearing what is pending -----

  ghost predicate Plan(s: State, actions: seq<Action>, reg: Registry) {
    CanFollow(s, actions, reg) && forall a | a in actions :: Calm(a)
  }

  lemma {:induction false} FollowRuns(s: State, actions: seq<Action>, reg: Registry)
    requires CanFollow(s, actions, reg)
    ensures CanRun(s, actions)
    decreases actions
  {
    hide Apply, Enabled, Follows;
    if actions != [] {
      FollowRuns(Apply(s, actions[0]), actions[1..], reg);
    }
  }

  lemma {:induction false} FollowConcat(s: State, a: seq<Action>, b: seq<Action>, reg: Registry)
    requires CanFollow(s, a, reg) && CanRun(s, a) && CanFollow(RunAll(s, a), b, reg)
    ensures CanFollow(s, a + b, reg) && CanRun(s, a + b) && CanRun(RunAll(s, a), b)
    ensures RunAll(s, a + b) == RunAll(RunAll(s, a), b)
    decreases a
  {
    hide Apply, Enabled, Follows;
    if a == [] {
      assert a + b == b;
      FollowRuns(s, b, reg);
    } else {
      assert (a + b)[1..] == a[1..] + b;
      FollowConcat(Apply(s, a[0]), a[1..], b, reg);
    }
  }

  lemma PlanConcat(s: State, a: seq<Action>, b: seq<Action>, reg: Registry)
    requires Plan(s, a, reg) && CanRun(s, a) && Plan(RunAll(s, a), b, reg)
    ensures Plan(s, a + b, reg) && CanRun(s, a + b) && CanRun(RunAll(s, a), b)
    ensures RunAll(s, a + b) == RunAll(RunAll(s, a), b)
  {
    hide CanFollow, CanRun, RunAll;
    FollowConcat(s, a, b, reg);
  }

  lemma PlanNothing(s: State, reg: Registry)
    ensures Plan(s, [], reg) && CanRun(s, []) && RunAll(s, []) == s
  {
  }

  lemma PlanStep(s: State, a: Action, reg: Registry)
    requires Enabled(s, a) && Follows(s, a, reg) && Calm(a)
    ensures Plan(s, [a], reg) && CanRun(s, [a]) && RunAll(s, [a]) == Apply(s, a)
  {
    hide Apply, Enabled, Follows;
    OneStep(s, a);
    assert [a][1..] == [];
    assert CanFollow(Apply(s, a), [], reg);
  }

  lemma PlanTwo(s: State, a: Action, b: Action, reg: Registry)
    requires Enabled(s, a) && Follows(s, a, reg) && Calm(a)
    requires Enabled(Apply(s, a), b) && Follows(Apply(s, a), b, reg) && Calm(b)
    ensures Plan(s, [a, b], reg) && CanRun(s, [a, b]) && RunAll(s, [a, b]) == Apply(Apply(s, a), b)
  {
    hide Apply, Enabled, Follows, Plan, CanRun, RunAll;
    PlanStep(s, a, reg);
    PlanStep(Apply(s, a), b, reg);
    PlanConcat(s, [a], [b], reg);
    assert [a] + [b] == [a, b];
  }

  /** The consumer is about to work through ids, and the process holds nothing else. */
  ghost predicate Ready(s: State, ids: seq<Id>, acked: seq<Id>) {
    && s.consumer == Looping(ids, acked) && s.buffer == EMPTY && s.flights == []
    && forall id | id in ids :: id < |s.stream|
  }

  ghost predicate SameServers(s: State, s': State) {
    s'.stream == s.stream && s'.pel == s.pel && s'.acked == s.acked && s.sent <= s'.sent && s'.reader == s.reader
  }

  lemma TakeUp(s: State, ids: seq<Id>, acked: seq<Id>, reg: Registry, vehicle: Value)
    requires Ready(s, ids, acked) && ids != [] && ids[0] in ids && s.stream[ids[0]].Parsed?
    requires reg(s.stream[ids[0]].reading.imei) == Some(vehicle)
    ensures var actions := [NextEntry, Resolved(vehicle, true)];
      var b := Push(EMPTY, vehicle, s.stream[ids[0]].reading, ids[0]);
      && Plan(s, actions, reg) && CanRun(s, actions)
      && var s' := RunAll(s, actions);
         s'.flights == [Flight(ByBatch, b, SavingPoints(false))] && s'.consumer == Flushing(ids[1..], acked)
         && s'.buffer == EMPTY && SameServers(s, s')
  {
    hide Plan, CanRun, RunAll;
    PlanTwo(s, NextEntry, Resolved(vehicle, true), reg);
  }

  lemma LandStates(s: State, b: Batch, ids: seq<Id>, acked: seq<Id>)
    requires s.flights == [Flight(ByBatch, b, SavingPoints(false))]
    requires s.consumer == Flushing(ids, acked) && s.buffer == EMPTY
    requires Flushable(s.reader, b)
    ensures Enabled(s, Commit(0)) && Enabled(Apply(s, Commit(0)), PointsReply(0, true))
    ensures var s1 := Apply(Apply(s, Commit(0)), PointsReply(0, true));
      && Enabled(s1, StatesReply(0, true))
      && var s2 := Apply(s1, StatesReply(0, true));
         s2.flights == [] && s2.consumer == Looping(ids, acked + b.acks) && s2.buffer == EMPTY && SameServers(s, s2)
  {
    hide Acceptable, OneRowEach, RedisStreams.Members;
    LandPoints(s, b);
    LandReturns(Apply(Apply(s, Commit(0)), PointsReply(0, true)), b, ids, acked);
  }

  lemma LandPoints(s: State, b: Batch)
    requires s.flights == [Flight(ByBatch, b, SavingPoints(false))] && Acceptable(s.reader, b.points)
    ensures Enabled(s, Commit(0)) && Enabled(Apply(s, Commit(0)), PointsReply(0, true))
    ensures var s1 := Apply(Apply(s, Commit(0)), PointsReply(0, true));
      && s1.flights == [Flight(ByBatch, b, SavingStates)] && SameServers(s, s1) && s1.reader == s.reader
      && s1.consumer == s.consumer && s1.buffer == s.buffer
  {
    hide Acceptable;
  }

  lemma LandReturns(s: State, b: Batch, ids: seq<Id>, acked: seq<Id>)
    requires s.flights == [Flight(ByBatch, b, SavingStates)] && s.consumer == Flushing(ids, acked) && s.buffer == EMPTY
    requires OneRowEach(s.reader, b.states)
    ensures Enabled(s, StatesReply(0, true))
    ensures var t := Apply(s, StatesReply(0, true));
      t.flights == [] && t.consumer == Looping(ids, acked + b.acks) && t.buffer == EMPTY && SameServers(s, t)
  {
    hide OneRowEach, RedisStreams.Members;
  }

  lemma Land(s: State, b: Batch, ids: seq<Id>, acked: seq<Id>, reg: Registry)
    requires s.flights == [Flight(ByBatch, b, SavingPoints(false))]
    requires s.consumer == Flushing(ids, acked) && s.buffer == EMPTY
    requires Flushable(s.reader, b)
    ensures var actions := [Commit(0), PointsReply(0, true)] + [StatesReply(0, true)];
      && Plan(s, actions, reg) && CanRun(s, actions)
      && var s' := RunAll(s, actions);
         s'.flights == [] && s'.consumer == Looping(ids, acked + b.acks) && s'.buffer == EMPTY && SameServers(s, s')
  {
    hide Plan, CanRun, RunAll, Apply, Enabled, Acceptable, OneRowEach;
    LandStates(s, b, ids, acked);
    PlanTwo(s, Commit(0), PointsReply(0, true), reg);
    PlanStep(Apply(Apply(s, Commit(0)), PointsReply(0, true)), StatesReply(0, true), reg);
    PlanConcat(s, [Commit(0), PointsReply(0, true)], [StatesReply(0, true)], reg);
  }

  lemma OneIsFlushable(r: Reader, v: Value, reading: Reading, id: Id)
    requires Storable(r, PointRow(v, reading))
    ensures Flushable(r, Push(EMPTY, v, reading, id))
  {
    hide Storable;
    var b := Push(EMPTY, v, reading, id);
    assert b.points == [PointRow(v, reading)];
  }

  /** One storable entry, without failures: resolve, flush, commit, both replies. */
  lemma StoreOne(s: State, ids: seq<Id>, acked: seq<Id>, reg: Registry) returns (actions: seq<Action>)
    requires Ready(s, ids, acked) && ids != [] && ids[0] in ids && s.stream[ids[0]].Parsed?
    requires Clearable(s, reg, ids[0]) && reg(s.stream[ids[0]].reading.imei).Some?
    ensures Plan(s, actions, reg) && CanRun(s, actions)
    ensures Ready(RunAll(s, actions), ids[1..], acked + [ids[0]]) && SameServers(s, RunAll(s, actions))
  {
    hide Plan, CanRun, RunAll, Apply, Enabled, Storable, Flushable;
    var r := s.stream[ids[0]].reading;
    var vehicle := reg(r.imei).value;
    var up := [NextEntry, Resolved(vehicle, true)];
    var land := [Commit(0), PointsReply(0, true)] + [StatesReply(0, true)];
    TailWithin(ids);
    TakeUp(s, ids, acked, reg, vehicle);
    OneIsFlushable(s.reader, vehicle, r, ids[0]);
    Land(RunAll(s, up), Push(EMPTY, vehicle, r, ids[0]), ids[1..], acked, reg);
    PlanConcat(s, up, land, reg);
    actions := up + land;
  }

  /** An entry that needs no row: malformed, or of no registered vehicle. */
  lemma DropOne(s: State, ids: seq<Id>, acked: seq<Id>, reg: Registry) returns (actions: seq<Action>)
    requires Ready(s, ids, acked) && ids != [] && ids[0] in ids
    requires s.stream[ids[0]].Malformed? || (s.stream[ids[0]].Parsed? && reg(s.stream[ids[0]].reading.imei).None?)
    ensures Plan(s, actions, reg) && CanRun(s, actions)
    ensures Ready(RunAll(s, actions), ids[1..], acked + [ids[0]]) && SameServers(s, RunAll(s, actions))
  {
    hide Plan, CanRun, RunAll;
    TailWithin(ids);
    if s.stream[ids[0]].Malformed? {
      actions := [NextEntry];
      PlanStep(s, NextEntry, reg);
    } else {
      PlanTwo(s, NextEntry, NotRegistered, reg);
      var s' := Apply(Apply(s, NextEntry), NotRegistered);
      PlanStep(s', RawSaved, reg);
      PlanConcat(s, [NextEntry, NotRegistered], [RawSaved], reg);
      actions := [NextEntry, NotRegistered] + [RawSaved];
    }
  }

  lemma {:induction false} StoreAll(s: State, ids: seq<Id>, acked: seq<Id>, reg: Registry)
    returns (actions: seq<Action>)
    requires Ready(s, ids, acked) && AllClearable(s, reg, ids)
    ensures Plan(s, actions, reg) && CanRun(s, actions)
    ensures Ready(RunAll(s, actions), [], acked + ids) && SameServers(s, RunAll(s, actions))
    decreases ids
  {
    hide Plan, CanRun, RunAll, Apply, Enabled, Storable;
    if ids == [] {
      actions := [];
      PlanNothing(s, reg);
      assert acked + [] == acked;
    } else {
      TailWithin(ids);
      var first;
      if s.stream[ids[0]].Parsed? && reg(s.stream[ids[0]].reading.imei).Some? {
        first := StoreOne(s, ids, acked, reg);
      } else {
        first := DropOne(s, ids, acked, reg);
      }
      var m := RunAll(s, first);
      var more := StoreAll(m, ids[1..], acked + [ids[0]], reg);
      PlanConcat(s, first, more, reg);
      assert acked + [ids[0]] + ids[1..] == acked + ids;
      actions := first + more;
    }
  }

  /** The batch is done: XACK takes effect, and the loop is back to reading. */
  lemma Finish(s: State, ids: seq<Id>, reg: Registry) returns (actions: seq<Action>)
    requires Ready(s, [], ids) && RedisStreams.Members(ids) == s.pel
    ensures Plan(s, actions, reg) && CanRun(s, actions)
    ensures var s' := RunAll(s, actions); Quiescent(s') && s'.pel == {} && s'.acked == s.acked + s.pel
  {
    hide Plan, CanRun, RunAll;
    if ids == [] {
      actions := [NextEntry];
      PlanStep(s, NextEntry, reg);
    } else {
      var xack := ApplyAck(RedisStreams.Members(ids));
      PlanTwo(s, NextEntry, xack, reg);
      PlanStep(Apply(Apply(s, NextEntry), xack), AckReply(true), reg);
      PlanConcat(s, [NextEntry, xack], [AckReply(true)], reg);
      actions := [NextEntry, xack] + [AckReply(true)];
    }
  }

  /** After a crash and a recovery of at most 1000 entries, all clearable: a calm plan that clears them. */
  lemma ClearPlan(s: State, reg: Registry) returns (more: seq<Action>)
    requires Inv(s) && |s.pel| <= 1000 && forall id | id in s.pel :: Clearable(s, reg, id)
    ensures CanRun(s, [Crash, Recover(true)])
    ensures var r := RunAll(s, [Crash, Recover(true)]);
      Plan(r, more, reg) && CanRun(r, more)
      && Quiescent(RunAll(r, more)) && RunAll(r, more).pel == {} && RunAll(r, more).acked == s.acked + s.pel
  {
    hide Plan, CanRun, RunAll, Inv, Clearable;
    var ids := Restarted(s, reg);
    var r := RunAll(s, [Crash, Recover(true)]);
    var storing := StoreAll(r, ids, [], reg);
    assert [] + ids == ids;
    var finish := Finish(RunAll(r, storing), ids, reg);
    PlanConcat(r, storing, finish, reg);
    more := storing + finish;
  }

  lemma Restarted(s: State, reg: Registry) returns (ids: seq<Id>)
    requires Inv(s) && |s.pel| <= 1000 && forall id | id in s.pel :: Clearable(s, reg, id)
    ensures CanRun(s, [Crash, Recover(true)]) && RedisStreams.Members(ids) == s.pel
    ensures var r := RunAll(s, [Crash, Recover(true)]);
      Ready(r, ids, []) && SameServers(s, r) && AllClearable(r, reg, ids)
  {
    hide CanRun, RunAll, Clearable;
    TwoSteps(s, Crash, Recover(true));
    RedisStreams.RecoveryIsComplete(s.pel, |s.stream|);
    RedisStreams.ReadPendingIsXPending(s.pel, |s.stream|);
    ids := RedisStreams.ReadPending(s.pel, |s.stream|);
    ClearableStays(s, RunAll(s, [Crash, Recover(true)]), reg);
  }

  /**
   After any run whatever, with at most 1000 entries pending: a crash and a recovery can be carried on calmly until the
   process has nothing left to do exactly when every pending entry is clearable; and then nothing is left pending.
   */
  lemma RecoveryClearsExactly(s: State, before: seq<Action>, reg: Registry)
    requires Initial(s) && CanRun(s, before) && |RunAll(s, before).pel| <= 1000
    ensures CanRun(RunAll(s, before), [Crash, Recover(true)])
    ensures var m := RunAll(s, before); var r := RunAll(m, [Crash, Recover(true)]);
      (exists more :: Plan(r, more, reg) && CanRun(r, more) && Quiescent(RunAll(r, more)))
      <==> forall id | id in m.pel :: Clearable(m, reg, id)
  {
    hide CanRun, RunAll, Plan, Inv, OnePlace, RowsFromStream, Clearable, Quiescent, Memory;
    InitialSafe(s);
    RunSafe(s, before);
    var m := RunAll(s, before);
    RecoveryRetains(m);
    var r := RunAll(m, [Crash, Recover(true)]);
    if forall id | id in m.pel :: Clearable(m, reg, id) {
      var more := ClearPlan(m, reg);
      assert Plan(r, more, reg) && CanRun(r, more) && Quiescent(RunAll(r, more));
    } else {
      var id :| id in m.pel && !Clearable(m, reg, id);
      forall more | Plan(r, more, reg) && CanRun(r, more)
        ensures !Quiescent(RunAll(r, more))
      {
        UnclearableBlocks(m, reg, id, more);
      }
    }
  }

  lemma UnclearableBlocks(m: State, reg: Registry, id: Id, more: seq<Action>)
    requires Inv(m) && OnePlace(m) && RowsFromStream(m) && |m.pel| <= 1000
    requires id in m.pel && !Clearable(m, reg, id)
    requires CanRun(m, [Crash, Recover(true)])
    requires var r := RunAll(m, [Crash, Recover(true)]); Plan(r, more, reg) && CanRun(r, more)
    ensures !Quiescent(RunAll(RunAll(m, [Crash, Recover(true)]), more))
  {
    hide CanRun, RunAll, CanFollow, OnePlace, RowsFromStream, Clearable, Memory;
    var r := RunAll(m, [Crash, Recover(true)]);
    RecoveryRetains(m);
    RunSafe(m, [Crash, Recover(true)]);
    RecoveredFollows(m, reg);
    RecoveredSame(m, reg, id);
    UnclearableStays(r, more, reg, id);
    QuietIsEmpty(RunAll(r, more));
  }

  lemma RecoveredFollows(m: State, reg: Registry)
    requires CanRun(m, [Crash, Recover(true)])
    ensures MemoryFollows(RunAll(m, [Crash, Recover(true)]), reg)
  {
    hide CanRun, RunAll, BatchFollows, FlightsFollow, AllClearable;
    TwoSteps(m, Crash, Recover(true));
    ClearableNone(RunAll(m, [Crash, Recover(true)]), reg);
  }

  lemma RecoveredSame(m: State, reg: Registry, id: Id)
    requires Inv(m) && id in m.pel && CanRun(m, [Crash, Recover(true)])
    ensures var r := RunAll(m, [Crash, Recover(true)]);
      id < |r.stream| && (Clearable(r, reg, id) <==> Clearable(m, reg, id))
  {
    hide CanRun, RunAll, Storable;
    TwoSteps(m, Crash, Recover(true));
  }

  /**
   Whatever has happened, at most 1000 pending entries, all of them clearable, can always be cleared: after a crash
   and a recovery in which nothing fails, every entry that was pending is acknowledged.
   */
  lemma PendingCanBeCleared(s: State, actions: seq<Action>, reg: Registry) returns (more: seq<Action>)
    requires Initial(s) && CanRun(s, actions) && |RunAll(s, actions).pel| <= 1000
    requires forall id | id in RunAll(s, actions).pel :: Clearable(RunAll(s, actions), reg, id)
    ensures CanRun(s, actions + more)
    ensures RunAll(s, actions + more).pel == {}
    ensures RunAll(s, actions + more).acked == RunAll(s, actions).acked + RunAll(s, actions).pel
  {
    hide CanRun, RunAll, Inv, OnePlace, RowsFromStream, Plan, Clearable;
    InitialSafe(s);
    RunSafe(s, actions);
    var m := RunAll(s, actions);
    var plan := ClearPlan(m, reg);
    RunConcat(m, [Crash, Recover(true)], plan);
    more := [Crash, Recover(true)] + plan;
    RunConcat(s, actions, more);
  }
}
