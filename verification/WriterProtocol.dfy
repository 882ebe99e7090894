/**
 The writer as a state machine, cut at every await: consumer loop, timer flushes that overlap it, shutdown flush,
 crash and restart, with every database and Redis call free to fail, and a statement or an XACK whose reply
 was lost free to take effect later. What is proved holds in every run.
 */
module WriterProtocol {
  import opened GpsTable
  import opened WriterBuffers
  import RedisStreams

  /** Where flushNow waits. `saved` says whether the insert has been committed, which the writer cannot see. */
  datatype Stage = SavingPoints(saved: bool) | SavingStates | BackingOff

  datatype Owner = ByBatch | ByTimer | ByShutdown

  datatype Flight = Flight(owner: Owner, batch: Batch, stage: Stage)

  /** Where the consumer loop waits. `ids` is the rest of the batch, `acked` the ids processBatch will return. */
  datatype Consumer =
    | Down
    | Idle
    | Pausing
    | Looping(ids: seq<Id>, acked: seq<Id>)
    | Resolving(ids: seq<Id>, acked: seq<Id>)
    | SavingRaw(ids: seq<Id>, acked: seq<Id>)
    | Flushing(ids: seq<Id>, acked: seq<Id>)
    | Acking

  datatype State = State(
    // Redis: the stream, the first and the next entry to deliver, pending and acknowledged ids, ids in any XACK sent
    stream: seq<Payload>, base: Id, cursor: Id, pel: set<Id>, acked: set<Id>, sent: set<Id>,
    // PostgreSQL: what it takes, rows in commit order, and the inserts ever sent
    reader: Reader, log: seq<Point>, issued: set<seq<Point>>,
    // the writer process
    maxRows: nat, buffer: Batch, flights: seq<Flight>, consumer: Consumer, stopped: bool,
    // history: entries whose IMEI was found unregistered, and the vehicles entries were resolved to
    unregistered: set<Id>, resolved: set<(Id, Value)>)

  const BATCH_SIZE := 200

  datatype Action =
    | Publish(payload: Payload)
    | Recover(ok: bool)
    | ReadNew(n: nat, ok: bool)
    | Resume
    | NextEntry
    | EntryThrows
    | Resolved(vehicle: Value, timeUp: bool)
    | NotRegistered
    | ResolveFails
    | RawSaved
    | AckReply(ok: bool)
    | TimerFires
    | Commit(k: nat)
    | PointsReply(k: nat, ok: bool)
    | StatesReply(k: nat, ok: bool)
    | BackedOff(k: nat)
    | LateCommit(points: seq<Point>)
    | ApplyAck(ids: set<Id>)
    | Signal
    | Crash

  // ----- The pieces of a step -----

  /** The process is gone; Redis and PostgreSQL keep what they have. */
  function Restart(s: State): State {
    s.(buffer := EMPTY, flights := [], consumer := Down, stopped := false)
  }

  /** flushNow up to its first await. */
  function BeginFlush(s: State, owner: Owner): State {
    s.(buffer := EMPTY,
       flights := s.flights + [Flight(owner, s.buffer, SavingPoints(false))],
       issued := s.issued + {s.buffer.points})
  }

  function Without(fs: seq<Flight>, k: nat): seq<Flight>
    requires k < |fs|
  {
    fs[..k] + fs[k + 1..]
  }

  /** flushNow of flight k returns ids to whoever awaits it. A shutdown flush exits without acknowledging. */
  function Return(s: State, k: nat, ids: seq<Id>): State
    requires k < |s.flights| && (s.flights[k].owner.ByBatch? ==> s.consumer.Flushing?)
  {
    var s' := s.(flights := Without(s.flights, k));
    match s.flights[k].owner
    case ByBatch => s'.(consumer := Looping(s.consumer.ids, s.consumer.acked + ids))
    case ByTimer => s'.(sent := s.sent + RedisStreams.Members(ids))
    case ByShutdown => Restart(s')
  }

  /** A write of flight k throws: requeue, then back off. */
  function Fail(s: State, k: nat): State
    requires k < |s.flights|
  {
    s.(buffer := Requeue(s.flights[k].batch, s.buffer),
       flights := s.flights[k := s.flights[k].(batch := EMPTY, stage := BackingOff)])
  }

  function StageTo(s: State, k: nat, stage: Stage): State
    requires k < |s.flights|
  {
    s.(flights := s.flights[k := s.flights[k].(stage := stage)])
  }

  function Range(from: nat, n: nat): (ids: seq<Id>)
    ensures |ids| == n && forall i | 0 <= i < n :: ids[i] == from + i
    ensures forall id :: id in ids <==> from <= id < from + n
  {
    if n == 0 then [] else Range(from, n - 1) + [from + n - 1]
  }

  /** XREADGROUP with >: the next n entries become pending, whether or not the reply arrives. */
  function Deliver(s: State, n: nat): State {
    s.(cursor := s.cursor + n, pel := s.pel + RedisStreams.Members(Range(s.cursor, n)))
  }

  /** The head of processBatch's loop, and its end. */
  function LoopHead(s: State): State
    requires s.consumer.Looping?
    requires s.consumer.ids != [] ==> s.consumer.ids[0] < |s.stream| && !s.stream[s.consumer.ids[0]].JsonNull?
  {
    var c := s.consumer;
    if c.ids == [] then
      if c.acked == [] then s.(consumer := Idle)
      else s.(consumer := Acking, sent := s.sent + RedisStreams.Members(c.acked))
    else if s.stream[c.ids[0]].Malformed? then s.(consumer := Looping(c.ids[1..], c.acked + [c.ids[0]]))
    else s.(consumer := Resolving(c.ids, c.acked))
  }

  function Buffered(s: State, vehicle: Value, timeUp: bool): State
    requires s.consumer.Resolving? && s.consumer.ids != []
    requires s.consumer.ids[0] < |s.stream| && s.stream[s.consumer.ids[0]].Parsed?
  {
    var c := s.consumer;
    var s' := s.(buffer := Push(s.buffer, vehicle, s.stream[c.ids[0]].reading, c.ids[0]),
                 resolved := s.resolved + {(c.ids[0], vehicle)});
    if |s'.buffer.points| >= s.maxRows || timeUp
    then BeginFlush(s'.(consumer := Flushing(c.ids[1..], c.acked)), ByBatch)
    else s'.(consumer := Looping(c.ids[1..], c.acked))
  }

  /** A flush begins exactly when the new row fills the buffer or the time is up, and it takes the whole buffer. */
  lemma FlushIsDue(s: State, vehicle: Value, timeUp: bool)
    requires s.consumer.Resolving? && s.consumer.ids != []
    requires s.consumer.ids[0] < |s.stream| && s.stream[s.consumer.ids[0]].Parsed?
    ensures var t := Buffered(s, vehicle, timeUp);
      && (t.consumer.Flushing? <==> |s.buffer.points| + 1 >= s.maxRows || timeUp)
      && (t.consumer.Flushing? ==>
          && t.buffer == EMPTY && |t.flights| == |s.flights| + 1
          && |t.flights[|s.flights|].batch.points| == |s.buffer.points| + 1)
      && (!t.consumer.Flushing? ==> |t.buffer.points| == |s.buffer.points| + 1 && t.flights == s.flights)
  {
  }

  // ----- Steps and runs -----

  ghost predicate Enabled(s: State, a: Action) {
    match a
    case Publish(_) => true
    case Recover(_) => s.consumer.Down?
    case ReadNew(n, _) => s.consumer.Idle? && !s.stopped && n <= BATCH_SIZE && s.cursor + n <= |s.stream|
    case Resume => s.consumer.Pausing?
    case NextEntry =>
      && s.consumer.Looping?
      && (s.consumer.ids != [] ==> s.consumer.ids[0] < |s.stream| && !s.stream[s.consumer.ids[0]].JsonNull?)
    case EntryThrows =>
      && s.consumer.Looping? && s.consumer.ids != []
      && s.consumer.ids[0] < |s.stream| && s.stream[s.consumer.ids[0]].JsonNull?
    case Resolved(_, _) =>
      && s.consumer.Resolving? && s.consumer.ids != []
      && s.consumer.ids[0] < |s.stream| && s.stream[s.consumer.ids[0]].Parsed?
    case NotRegistered => s.consumer.Resolving? && s.consumer.ids != []
    case ResolveFails => s.consumer.Resolving?
    case RawSaved => s.consumer.SavingRaw? && s.consumer.ids != []
    case AckReply(_) => s.consumer.Acking?
    case TimerFires => s.buffer.points != [] && !s.stopped
    case Commit(k) =>
      k < |s.flights| && s.flights[k].stage == SavingPoints(false) && Acceptable(s.reader, s.flights[k].batch.points)
    case PointsReply(k, ok) => k < |s.flights| && s.flights[k].stage.SavingPoints? && (ok ==> s.flights[k].stage.saved)
    case StatesReply(k, ok) =>
      && k < |s.flights| && s.flights[k].stage.SavingStates? && (s.flights[k].owner.ByBatch? ==> s.consumer.Flushing?)
      && (ok ==> OneRowEach(s.reader, s.flights[k].batch.states))
    case BackedOff(k) =>
      k < |s.flights| && s.flights[k].stage.BackingOff? && (s.flights[k].owner.ByBatch? ==> s.consumer.Flushing?)
    case LateCommit(points) => points in s.issued && Acceptable(s.reader, points)
    case ApplyAck(ids) => ids <= s.sent
    case Signal => true
    case Crash => true
  }

  ghost function Apply(s: State, a: Action): State
    requires Enabled(s, a)
  {
    match a
    case Publish(payload) => s.(stream := s.stream + [payload])
    case Recover(ok) =>
      if !ok then s.(consumer := Idle)
      else s.(consumer := Looping(RedisStreams.ReadPending(s.pel, |s.stream|), []))
    case ReadNew(n, ok) =>
      if !ok then Deliver(s, n).(consumer := Pausing)
      else Deliver(s, n).(consumer := Looping(Range(s.cursor, n), []))
    case Resume => s.(consumer := Idle)
    case NextEntry => LoopHead(s)
    case EntryThrows => s.(consumer := Pausing)
    case Resolved(vehicle, timeUp) => Buffered(s, vehicle, timeUp)
    case NotRegistered =>
      s.(consumer := SavingRaw(s.consumer.ids, s.consumer.acked), unregistered := s.unregistered + {s.consumer.ids[0]})
    case ResolveFails => s.(consumer := Pausing)
    case RawSaved => s.(consumer := Looping(s.consumer.ids[1..], s.consumer.acked + [s.consumer.ids[0]]))
    case AckReply(ok) => s.(consumer := if ok then Idle else Pausing)
    case TimerFires => BeginFlush(s, ByTimer)
    case Commit(k) => StageTo(s, k, SavingPoints(true)).(log := s.log + s.flights[k].batch.points)
    case PointsReply(k, ok) => if ok then StageTo(s, k, SavingStates) else Fail(s, k)
    case StatesReply(k, ok) => if ok then Return(s, k, s.flights[k].batch.acks) else Fail(s, k)
    case BackedOff(k) => Return(s, k, [])
    case LateCommit(points) => s.(log := s.log + points)
    case ApplyAck(ids) => s.(pel := s.pel - ids, acked := s.acked + (s.pel * ids))
    case Signal => if s.buffer.points == [] then Restart(s) else BeginFlush(s, ByShutdown).(stopped := true)
    case Crash => Restart(s)
  }

  ghost predicate CanRun(s: State, actions: seq<Action>)
    decreases actions
  {
    actions == [] || (Enabled(s, actions[0]) && CanRun(Apply(s, actions[0]), actions[1..]))
  }

  ghost function RunAll(s: State, actions: seq<Action>): State
    requires CanRun(s, actions)
    decreases actions
  {
    if actions == [] then s else RunAll(Apply(s, actions[0]), actions[1..])
  }

  /** A group created at `base` on a stream that may already hold entries; nothing delivered or stored yet. */
  ghost predicate Initial(s: State) {
    && s.base == s.cursor == |s.stream|
    && s.pel == {} && s.acked == {} && s.sent == {} && s.unregistered == {} && s.resolved == {}
    && s.log == [] && s.issued == {}
    && s.buffer == EMPTY && s.flights == [] && s.consumer.Down? && !s.stopped
  }

  /** A process asked to stop reads nothing more; the one started after it reads on where Redis is. */
  lemma StopsAndReadsOn(s: State, n: nat, ok: bool)
    ensures !Enabled(Apply(s, Signal), ReadNew(n, ok)) && !Enabled(Apply(s, Signal), TimerFires)
    ensures n <= 200 && s.cursor + n <= |s.stream| ==>
      var started := Apply(Apply(s, Crash), Recover(false));
      Enabled(started, ReadNew(n, ok)) && Apply(started, ReadNew(n, ok)).cursor == s.cursor + n
  {
    hide Range, RedisStreams.Members;
  }

  /** The timer can flush whatever is buffered, all of it. */
  lemma TimerFlushes(s: State)
    requires s.buffer.points != [] && !s.stopped
    ensures Enabled(s, TimerFires)
    ensures var t := Apply(s, TimerFires);
      && t.buffer == EMPTY && t.consumer == s.consumer && |t.flights| == |s.flights| + 1
      && t.flights[|s.flights|].batch == s.buffer && t.flights[|s.flights|].owner == ByTimer
  {
  }

  // ----- What may be acknowledged -----

  /** A row made from the entry, for a vehicle it was resolved to, has been committed. */
  ghost predicate Stored(s: State, id: Id) {
    id < |s.stream| && s.stream[id].Parsed? &&
    exists v :: (id, v) in s.resolved && PointRow(v, s.stream[id].reading) in s.log
  }

  ghost predicate MayAck(s: State, id: Id) {
    id < |s.stream| && (s.stream[id].Malformed? || id in s.unregistered || Stored(s, id))
  }

  ghost predicate AllMayAck(s: State, ids: seq<Id>) {
    forall id | id in ids :: MayAck(s, id)
  }

  ghost function Rest(c: Consumer): seq<Id> {
    match c
    case Looping(ids, _) => ids
    case Resolving(ids, _) => ids
    case SavingRaw(ids, _) => ids
    case Flushing(ids, _) => ids
    case _ => []
  }

  ghost function ToAck(c: Consumer): seq<Id> {
    match c
    case Looping(_, acked) => acked
    case Resolving(_, acked) => acked
    case SavingRaw(_, acked) => acked
    case Flushing(_, acked) => acked
    case _ => []
  }

  ghost predicate FlightOk(s: State, f: Flight) {
    && Aligned(f.batch, s.stream, s.resolved)
    && (f.stage.SavingStates? || f.stage == SavingPoints(true) ==>
      Acceptable(s.reader, f.batch.points) && forall p | p in f.batch.points :: p in s.log)
    && (f.stage.BackingOff? ==> f.batch == EMPTY)
  }

  /** Redis: delivered entries are pending or acknowledged, never both. */
  ghost predicate Accounted(s: State) {
    && s.base <= s.cursor <= |s.stream|
    && s.acked <= s.sent
    && s.pel !! s.acked
    && forall id :: id in s.pel || id in s.acked <==> s.base <= id < s.cursor
  }

  ghost predicate FlightsOk(s: State, fs: seq<Flight>) {
    forall k | 0 <= k < |fs| :: FlightOk(s, fs[k])
  }

  ghost predicate Within(ids: seq<Id>, end: Id) {
    forall id | id in ids :: id < end
  }

  ghost predicate SetMayAck(s: State, ids: set<Id>) {
    forall id | id in ids :: MayAck(s, id)
  }

  ghost predicate RawIsUnregistered(s: State) {
    s.consumer.SavingRaw? && s.consumer.ids != [] ==> s.consumer.ids[0] in s.unregistered
  }

  ghost predicate Inv(s: State) {
    && Accounted(s)
    && Aligned(s.buffer, s.stream, s.resolved)
    && FlightsOk(s, s.flights)
    && Within(Rest(s.consumer), |s.stream|)
    && RawIsUnregistered(s)
    && AllMayAck(s, ToAck(s.consumer))
    && SetMayAck(s, s.sent)
    && AllStorable(s.reader, s.log)
  }

  lemma InitialInv(s: State)
    requires Initial(s)
    ensures Inv(s)
  {
  }

  // ----- Every step keeps the invariant -----

  /** s' knows at least what s knows. */
  ghost predicate Extends(s: State, s': State) {
    && s.stream <= s'.stream
    && s.unregistered <= s'.unregistered
    && s.resolved <= s'.resolved
    && s.log <= s'.log
    && s.reader == s'.reader
  }

  lemma MayAckStays(s: State, s': State, id: Id)
    requires Extends(s, s') && MayAck(s, id)
    ensures MayAck(s', id)
  {
    if Stored(s, id) {
      var v :| (id, v) in s.resolved && PointRow(v, s.stream[id].reading) in s.log;
      assert (id, v) in s'.resolved && PointRow(v, s'.stream[id].reading) in s'.log;
    }
  }

  lemma AlignedStays(b: Batch, s: State, s': State)
    requires Extends(s, s') && Aligned(b, s.stream, s.resolved)
    ensures Aligned(b, s'.stream, s'.resolved)
  {
    GrowAligned(b, s.stream, s.resolved, s'.stream, s'.resolved);
  }

  lemma FlightsStay(s: State, s': State, fs: seq<Flight>)
    requires Extends(s, s') && FlightsOk(s, fs)
    ensures FlightsOk(s', fs)
  {
    hide Aligned;
    forall k | 0 <= k < |fs|
      ensures FlightOk(s', fs[k])
    {
      AlignedStays(fs[k].batch, s, s');
    }
  }

  /** What holds of the writer's memory and of the ids to acknowledge still holds when more is known. */
  lemma AllStays(s: State, s': State)
    requires Inv(s) && Extends(s, s')
    ensures Aligned(s.buffer, s'.stream, s'.resolved) && FlightsOk(s', s.flights)
    ensures Within(Rest(s.consumer), |s'.stream|) && AllMayAck(s', ToAck(s.consumer)) && SetMayAck(s', s.sent)
  {
    hide Aligned, FlightsOk, MayAck, Accounted;
    AlignedStays(s.buffer, s, s');
    FlightsStay(s, s', s.flights);
    forall id | MayAck(s, id)
      ensures MayAck(s', id)
    {
      MayAckStays(s, s', id);
    }
  }

  lemma WithinTail(ids: seq<Id>, end: Id)
    requires Within(ids, end) && ids != []
    ensures ids[0] < end && Within(ids[1..], end)
  {
    TailWithin(ids);
  }

  lemma MayAckBoth(s: State, a: seq<Id>, b: seq<Id>)
    requires AllMayAck(s, a) && AllMayAck(s, b)
    ensures AllMayAck(s, a + b)
  {
    hide MayAck;
  }

  lemma MayAckOne(s: State, id: Id)
    requires MayAck(s, id)
    ensures AllMayAck(s, [id])
  {
    hide MayAck;
  }

  lemma MayAckNone(s: State)
    ensures AllMayAck(s, []) && Within([], |s.stream|)
  {
  }

  lemma MaySend(s: State, sent: set<Id>, ids: seq<Id>)
    requires SetMayAck(s, sent) && AllMayAck(s, ids)
    ensures SetMayAck(s, sent + RedisStreams.Members(ids))
  {
    hide MayAck;
  }

  /** The ids of an aligned batch whose rows are committed may be acknowledged. */
  lemma StoredBatch(s: State, b: Batch)
    requires Aligned(b, s.stream, s.resolved) && forall p | p in b.points :: p in s.log
    ensures AllMayAck(s, b.acks)
  {
    forall id | id in b.acks ensures MayAck(s, id) {
      var i :| 0 <= i < |b.acks| && b.acks[i] == id;
      assert b.points[i] in b.points;
      var v := b.states[i].vehicleId;
      assert (id, v) in s.resolved && PointRow(v, s.stream[id].reading) in s.log;
    }
  }

  lemma TailWithin(ids: seq<Id>)
    requires ids != []
    ensures ids[0] in ids && forall id | id in ids[1..] :: id in ids
  {
  }

  lemma EmptyIsAligned(s: State)
    ensures Aligned(EMPTY, s.stream, s.resolved)
  {
  }

  lemma FlightsPlus(s: State, fs: seq<Flight>, f: Flight)
    requires FlightsOk(s, fs) && FlightOk(s, f)
    ensures FlightsOk(s, fs + [f])
  {
    hide FlightOk;
  }

  lemma FlightsUpdated(s: State, fs: seq<Flight>, k: nat, f: Flight)
    requires FlightsOk(s, fs) && FlightOk(s, f) && k < |fs|
    ensures FlightsOk(s, fs[k := f])
  {
    hide FlightOk;
  }

  lemma FlightsWithout(s: State, fs: seq<Flight>, k: nat)
    requires FlightsOk(s, fs) && k < |fs|
    ensures FlightsOk(s, Without(fs, k))
  {
    hide FlightOk;
    assert forall j | 0 <= j < |Without(fs, k)| :: Without(fs, k)[j] == fs[if j < k then j else j + 1];
  }

  lemma FlightIsOk(s: State, k: nat)
    requires FlightsOk(s, s.flights) && k < |s.flights|
    ensures FlightOk(s, s.flights[k])
  {
  }

  lemma BeginFlushInv(s: State, owner: Owner)
    requires Inv(s)
    ensures Inv(BeginFlush(s, owner))
  {
    hide Aligned, FlightsOk, AllMayAck, SetMayAck, Within, RedisStreams.Members;
    var s' := BeginFlush(s, owner);
    AllStays(s, s');
    EmptyIsAligned(s');
    FlightsPlus(s', s.flights, Flight(owner, s.buffer, SavingPoints(false)));
  }

  lemma RestartInv(s: State)
    requires Inv(s)
    ensures Inv(Restart(s))
  {
    hide Aligned, AllMayAck, SetMayAck, Within, FlightOk;
    var s' := Restart(s);
    AllStays(s, s');
    EmptyIsAligned(s');
    MayAckNone(s');
  }

  lemma ReturnInv(s: State, k: nat, ids: seq<Id>)
    requires Inv(s) && k < |s.flights| && (s.flights[k].owner.ByBatch? ==> s.consumer.Flushing?)
    requires AllMayAck(s, ids)
    ensures Inv(Return(s, k, ids))
  {
    hide Aligned, FlightsOk, AllMayAck, SetMayAck, Within, Restart, Without, MayAck;
    var less := s.(flights := Without(s.flights, k));
    FlightsWithout(s, s.flights, k);
    AllStays(s, less);
    FlightsStay(s, less, Without(s.flights, k));
    match s.flights[k].owner
    case ByBatch =>
      var s' := Return(s, k, ids);
      MayAckBoth(s, s.consumer.acked, ids);
      SameKnowledge(s, s', s.consumer.acked + ids);
      AllStays(s, s');
      FlightsStay(s, s', Without(s.flights, k));
    case ByTimer =>
      var s' := Return(s, k, ids);
      MaySend(s, s.sent, ids);
      SendsMore(s, s', s'.sent);
      AllStays(s, s');
      FlightsStay(s, s', Without(s.flights, k));
      AccountedSent(s, s');
    case ByShutdown =>
      RestartInv(less);
  }

  lemma SameKnowledge(s: State, s': State, ids: seq<Id>)
    requires Extends(s, s') && AllMayAck(s, ids)
    ensures AllMayAck(s', ids)
  {
    hide MayAck;
    forall id | id in ids
      ensures MayAck(s', id)
    {
      MayAckStays(s, s', id);
    }
  }

  lemma SendsMore(s: State, s': State, ids: set<Id>)
    requires Extends(s, s') && SetMayAck(s, ids)
    ensures SetMayAck(s', ids)
  {
    hide MayAck;
    forall id | id in ids
      ensures MayAck(s', id)
    {
      MayAckStays(s, s', id);
    }
  }

  lemma AccountedSent(s: State, s': State)
    requires Accounted(s) && s.sent <= s'.sent && |s.stream| <= |s'.stream|
    requires s'.base == s.base && s'.cursor == s.cursor && s'.pel == s.pel && s'.acked == s.acked
    ensures Accounted(s')
  {
  }

  lemma FailInv(s: State, k: nat)
    requires Inv(s) && k < |s.flights|
    ensures Inv(Fail(s, k))
  {
    hide Aligned, FlightsOk, AllMayAck, SetMayAck, Within, Requeue;
    var s' := Fail(s, k);
    FlightIsOk(s, k);
    RequeueAligned(s.flights[k].batch, s.buffer, s.stream, s.resolved);
    AllStays(s, s');
    EmptyIsAligned(s');
    FlightsUpdated(s', s.flights, k, s'.flights[k]);
  }

  /** Redis keeps its accounts when it delivers. */
  lemma DeliverAccounted(s: State, n: nat)
    requires Accounted(s) && s.cursor + n <= |s.stream|
    ensures Accounted(Deliver(s, n)) && Within(Range(s.cursor, n), |s.stream|)
  {
  }

  lemma RecoveredWithin(s: State)
    requires Accounted(s)
    ensures Within(RedisStreams.ReadPending(s.pel, |s.stream|), |s.stream|)
  {
    RedisStreams.ReadPendingIsXPending(s.pel, |s.stream|);
  }

  lemma ConsumerInv(s: State, a: Action)
    requires Inv(s) && Enabled(s, a)
    requires a.Recover? || a.Resume? || a.EntryThrows? || a.NotRegistered? || a.ResolveFails? || a.RawSaved?
      || a.AckReply?
    ensures Inv(Apply(s, a))
  {
    hide Aligned, FlightsOk, AllMayAck, SetMayAck, Within, Accounted, RedisStreams.ReadPending;
    var s' := Apply(s, a);
    AllStays(s, s');
    MayAckNone(s');
    SameAccounts(s, s');
    if a.Recover? {
      RecoveredWithin(s);
    } else if a.RawSaved? {
      WithinTail(s.consumer.ids, |s.stream|);
      MayAckOne(s', s.consumer.ids[0]);
      MayAckBoth(s', s.consumer.acked, [s.consumer.ids[0]]);
    }
  }

  lemma SameAccounts(s: State, s': State)
    requires Accounted(s) && s'.sent == s.sent && s'.stream == s.stream
    requires s'.base == s.base && s'.cursor == s.cursor && s'.pel == s.pel && s'.acked == s.acked
    ensures Accounted(s')
  {
  }

  lemma ReadNewInv(s: State, n: nat, ok: bool)
    requires Inv(s) && Enabled(s, ReadNew(n, ok))
    ensures Inv(Apply(s, ReadNew(n, ok)))
  {
    hide Aligned, FlightsOk, AllMayAck, SetMayAck, Within, Accounted, Range, RedisStreams.Members;
    var s', d := Apply(s, ReadNew(n, ok)), Deliver(s, n);
    AllStays(s, s');
    MayAckNone(s');
    DeliverAccounted(s, n);
    SameAccounts(d, s');
  }

  lemma LoopHeadInv(s: State)
    requires Inv(s) && Enabled(s, NextEntry)
    ensures Inv(LoopHead(s))
  {
    hide Aligned, FlightsOk, AllMayAck, SetMayAck, Within, Accounted, Extends, RedisStreams.Members;
    var s', c := LoopHead(s), s.consumer;
    LoopHeadExtends(s);
    AllStays(s, s');
    MayAckNone(s');
    if c.ids == [] && c.acked != [] {
      MaySend(s, s.sent, c.acked);
      SendsMore(s, s', s'.sent);
      AccountedSent(s, s');
    } else {
      SameAccounts(s, s');
    }
    if c.ids != [] {
      WithinTail(c.ids, |s.stream|);
      if s.stream[c.ids[0]].Malformed? {
        MayAckOne(s', c.ids[0]);
        MayAckBoth(s', c.acked, [c.ids[0]]);
      }
    }
  }

  lemma LoopHeadExtends(s: State)
    requires Enabled(s, NextEntry)
    ensures Extends(s, LoopHead(s)) && Extends(LoopHead(s), s)
  {
  }

  lemma BufferedInv(s: State, vehicle: Value, timeUp: bool)
    requires Inv(s) && Enabled(s, Resolved(vehicle, timeUp))
    ensures Inv(Buffered(s, vehicle, timeUp))
  {
    hide Inv, Push, BeginFlush;
    var c := s.consumer;
    var b := Push(s.buffer, vehicle, s.stream[c.ids[0]].reading, c.ids[0]);
    var filled := s.(buffer := b, resolved := s.resolved + {(c.ids[0], vehicle)});
    FilledInv(s, vehicle, Looping(c.ids[1..], c.acked));
    FilledInv(s, vehicle, Flushing(c.ids[1..], c.acked));
    BeginFlushInv(filled.(consumer := Flushing(c.ids[1..], c.acked)), ByBatch);
  }

  lemma FilledInv(s: State, vehicle: Value, consumer: Consumer)
    requires Inv(s) && Enabled(s, Resolved(vehicle, false)) && !consumer.SavingRaw?
    requires Rest(consumer) == s.consumer.ids[1..] && ToAck(consumer) == s.consumer.acked
    ensures var id := s.consumer.ids[0];
      Inv(s.(buffer := Push(s.buffer, vehicle, s.stream[id].reading, id),
             resolved := s.resolved + {(id, vehicle)}, consumer := consumer))
  {
    hide Aligned, FlightsOk, AllMayAck, SetMayAck, Within, Accounted, Push;
    var id := s.consumer.ids[0];
    var s' := s.(buffer := Push(s.buffer, vehicle, s.stream[id].reading, id),
                 resolved := s.resolved + {(id, vehicle)}, consumer := consumer);
    PushAligned(s.buffer, vehicle, id, s.stream, s.resolved);
    AllStays(s, s');
    WithinTail(s.consumer.ids, |s.stream|);
    SameAccounts(s, s');
  }

  lemma CommitInv(s: State, k: nat)
    requires Inv(s) && Enabled(s, Commit(k))
    ensures Inv(Apply(s, Commit(k)))
  {
    hide Aligned, FlightsOk, AllMayAck, SetMayAck, Within, Accounted;
    var s' := Apply(s, Commit(k));
    AllStays(s, s');
    SameAccounts(s, s');
    FlightIsOk(s, k);
    AlignedStays(s.flights[k].batch, s, s');
    FlightsUpdated(s', s.flights, k, s'.flights[k]);
  }

  lemma ReplyInv(s: State, a: Action)
    requires Inv(s) && Enabled(s, a) && (a.PointsReply? || a.StatesReply? || a.BackedOff?)
    ensures Inv(Apply(s, a))
  {
    hide Aligned, FlightsOk, AllMayAck, SetMayAck, Within, Accounted, Return, Fail;
    match a
    case PointsReply(k, ok) =>
      if ok {
        var s' := Apply(s, a);
        AllStays(s, s');
        SameAccounts(s, s');
        FlightIsOk(s, k);
        FlightsUpdated(s', s.flights, k, s'.flights[k]);
      } else {
        FailInv(s, k);
      }
    case StatesReply(k, ok) =>
      if ok {
        FlightIsOk(s, k);
        StoredBatch(s, s.flights[k].batch);
        ReturnInv(s, k, s.flights[k].batch.acks);
      } else {
        FailInv(s, k);
      }
    case BackedOff(k) =>
      MayAckNone(s);
      ReturnInv(s, k, []);
  }

  lemma ServerInv(s: State, a: Action)
    requires Inv(s) && Enabled(s, a) && (a.Publish? || a.LateCommit? || a.ApplyAck?)
    ensures Inv(Apply(s, a))
  {
    hide Aligned, FlightsOk, AllMayAck, SetMayAck, Within;
    AllStays(s, Apply(s, a));
  }

  lemma SignalInv(s: State)
    requires Inv(s)
    ensures Inv(Apply(s, Signal))
  {
    hide Aligned, FlightsOk, AllMayAck, SetMayAck, Within, Accounted, BeginFlush, Restart;
    if s.buffer.points == [] {
      RestartInv(s);
    } else {
      BeginFlushInv(s, ByShutdown);
      var s' := BeginFlush(s, ByShutdown);
      AllStays(s', s'.(stopped := true));
      SameAccounts(s', s'.(stopped := true));
    }
  }

  lemma {:induction false} StepInv(s: State, a: Action)
    requires Inv(s) && Enabled(s, a)
    ensures Inv(Apply(s, a))
  {
    hide Inv, BeginFlush, LoopHead, Buffered, Restart, Return, Fail;
    match a
    case Publish(_) => ServerInv(s, a);
    case LateCommit(_) => ServerInv(s, a);
    case ApplyAck(_) => ServerInv(s, a);
    case NextEntry => LoopHeadInv(s);
    case Resolved(vehicle, timeUp) => BufferedInv(s, vehicle, timeUp);
    case TimerFires => BeginFlushInv(s, ByTimer);
    case Commit(k) => CommitInv(s, k);
    case PointsReply(_, _) => ReplyInv(s, a);
    case StatesReply(_, _) => ReplyInv(s, a);
    case BackedOff(_) => ReplyInv(s, a);
    case Signal => SignalInv(s);
    case Crash => RestartInv(s);
    case Recover(_) => ConsumerInv(s, a);
    case ReadNew(n, ok) => ReadNewInv(s, n, ok);
    case Resume => ConsumerInv(s, a);
    case EntryThrows => ConsumerInv(s, a);
    case NotRegistered => ConsumerInv(s, a);
    case ResolveFails => ConsumerInv(s, a);
    case RawSaved => ConsumerInv(s, a);
    case AckReply(_) => ConsumerInv(s, a);
  }

  lemma {:induction false} RunInv(s: State, actions: seq<Action>)
    requires Inv(s) && CanRun(s, actions)
    ensures Inv(RunAll(s, actions))
    decreases actions
  {
    hide Inv, Apply, Enabled;
    if actions != [] {
      StepInv(s, actions[0]);
      RunInv(Apply(s, actions[0]), actions[1..]);
    }
  }
}
