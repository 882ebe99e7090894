/**
 Where the writer keeps the entries it works on, and the law that every step obeys: what was in memory, with what
 comes in, is what stays in memory, with what goes. Nothing is forgotten and nothing is kept twice.
 */
module WriterMemory {
  import opened GpsTable
  import opened WriterBuffers
  import opened WriterProtocol
  import RedisStreams

  type Ids = multiset<Id>

  ghost function FlightIds(fs: seq<Flight>): Ids {
    if fs == [] then multiset{} else multiset(fs[0].batch.acks) + FlightIds(fs[1..])
  }

  /** What processBatch holds: the rest of its batch and the ids it will return. */
  ghost function LoopIds(c: Consumer): Ids {
    multiset(Rest(c)) + multiset(ToAck(c))
  }

  /** The stream entries the process has not done with, wherever it keeps them. */
  ghost function Memory(s: State): Ids {
    LoopIds(s.consumer) + multiset(s.buffer.acks) + FlightIds(s.flights)
  }

  /** The ids a delivery or a recovery hands to processBatch. */
  ghost function Handed(s: State, a: Action): seq<Id>
    requires a.Recover? || a.ReadNew?
  {
    if !a.ok then [] else if a.Recover? then RedisStreams.ReadPending(s.pel, |s.stream|) else Range(s.cursor, a.n)
  }

  ghost function Entering(s: State, a: Action): Ids {
    if a.Recover? || a.ReadNew? then multiset(Handed(s, a)) else multiset{}
  }

  /** The process ends: it crashes, or its shutdown flush is over. */
  ghost predicate Exits(s: State, a: Action)
    requires Enabled(s, a)
  {
    || a.Crash?
    || (a.Signal? && s.buffer.points == [])
    || (a.StatesReply? && a.ok && s.flights[a.k].owner.ByShutdown?)
    || (a.BackedOff? && s.flights[a.k].owner.ByShutdown?)
  }

  /** processBatch is left by an exception: a lookup that throws, or an entry whose JSON is null. */
  predicate Throws(a: Action) {
    a.ResolveFails? || a.EntryThrows?
  }

  /** The step puts ids into an XACK: at the end of a batch, or after a timer's flush. */
  ghost predicate Acks(s: State, a: Action)
    requires Enabled(s, a)
  {
    || (a.NextEntry? && s.consumer.ids == [])
    || (a.StatesReply? && a.ok && s.flights[a.k].owner.ByTimer?)
  }

  /** What leaves the memory in a step. */
  ghost function Leaving(s: State, a: Action): Ids
    requires Enabled(s, a)
  {
    if Exits(s, a) then Memory(s)
    else if Throws(a) then LoopIds(s.consumer)
    else if a.NextEntry? && s.consumer.ids == [] then multiset(s.consumer.acked)
    else if a.StatesReply? && a.ok && s.flights[a.k].owner.ByTimer? then multiset(s.flights[a.k].batch.acks)
    else multiset{}
  }

  // ----- Multisets -----

  lemma Exchange(a: Ids, b: Ids, c: Ids)
    ensures a + b + c == a + c + b
  {
  }

  lemma Regroup(a: Ids, b: Ids, c: Ids)
    ensures a + (b + c) == a + b + c
  {
  }

  lemma HeadAndTail(ids: seq<Id>)
    requires ids != []
    ensures multiset(ids) == multiset{ids[0]} + multiset(ids[1..])
  {
    assert ids == [ids[0]] + ids[1..];
  }

  lemma {:induction false} FlightIdsConcat(fs: seq<Flight>, gs: seq<Flight>)
    ensures FlightIds(fs + gs) == FlightIds(fs) + FlightIds(gs)
  {
    if fs == [] {
      assert fs + gs == gs;
    } else {
      assert (fs + gs)[1..] == fs[1..] + gs;
      FlightIdsConcat(fs[1..], gs);
    }
  }

  lemma FlightIdsOne(f: Flight)
    ensures FlightIds([f]) == multiset(f.batch.acks)
  {
  }

  lemma FlightIdsAt(fs: seq<Flight>, k: nat)
    requires k < |fs|
    ensures FlightIds(fs) == FlightIds(Without(fs, k)) + multiset(fs[k].batch.acks)
  {
    hide FlightIds;
    var front, rest := fs[..k], fs[k + 1..];
    assert fs == front + [fs[k]] + rest;
    FlightIdsConcat(front + [fs[k]], rest);
    FlightIdsConcat(front, [fs[k]]);
    FlightIdsConcat(front, rest);
    FlightIdsOne(fs[k]);
    Exchange(FlightIds(front), multiset(fs[k].batch.acks), FlightIds(rest));
  }

  lemma FlightIdsUpdate(fs: seq<Flight>, k: nat, f: Flight)
    requires k < |fs|
    ensures FlightIds(fs[k := f]) == FlightIds(Without(fs, k)) + multiset(f.batch.acks)
  {
    assert Without(fs[k := f], k) == Without(fs, k);
    FlightIdsAt(fs[k := f], k);
  }

  // ----- Conservation -----

  lemma BeginFlushMemory(s: State, owner: Owner)
    ensures Memory(BeginFlush(s, owner)) == Memory(s)
  {
    hide FlightIds, LoopIds;
    var f := Flight(owner, s.buffer, SavingPoints(false));
    FlightIdsConcat(s.flights, [f]);
    FlightIdsOne(f);
    Exchange(LoopIds(s.consumer), multiset(s.buffer.acks), FlightIds(s.flights));
    Regroup(LoopIds(s.consumer), FlightIds(s.flights), multiset(s.buffer.acks));
  }

  lemma NothingInMemory(s: State)
    ensures Memory(Restart(s)) == multiset{}
  {
  }

  lemma LoopAcked(rest: seq<Id>, acked: seq<Id>, ids: seq<Id>)
    ensures LoopIds(Looping(rest, acked + ids)) == LoopIds(Flushing(rest, acked)) + multiset(ids)
  {
    Regroup(multiset(rest), multiset(acked), multiset(ids));
  }

  /** A flush that returns to processBatch hands over its ids; one that returns to the timer sends them. */
  lemma ReturnMemory(s: State, k: nat, ids: seq<Id>)
    requires k < |s.flights| && (s.flights[k].owner.ByBatch? ==> s.consumer.Flushing?)
    requires ids == s.flights[k].batch.acks
    ensures s.flights[k].owner.ByBatch? ==> Memory(Return(s, k, ids)) == Memory(s)
    ensures s.flights[k].owner.ByTimer? ==> Memory(Return(s, k, ids)) + multiset(ids) == Memory(s)
    ensures s.flights[k].owner.ByShutdown? ==> Memory(Return(s, k, ids)) == multiset{}
  {
    hide FlightIds, Without, LoopIds, Restart, RedisStreams.Members;
    FlightIdsAt(s.flights, k);
    var rest, here := FlightIds(Without(s.flights, k)), multiset(ids);
    var buffered, loop := multiset(s.buffer.acks), LoopIds(s.consumer);
    Regroup(loop + buffered, rest, here);
    match s.flights[k].owner
    case ByBatch =>
      LoopAcked(s.consumer.ids, s.consumer.acked, ids);
      assert Memory(Return(s, k, ids)) == loop + here + buffered + rest;
      Exchange(loop, here, buffered);
      Exchange(loop + buffered, here, rest);
    case ByTimer =>
    case ByShutdown =>
      NothingInMemory(s.(flights := Without(s.flights, k)));
  }

  lemma RequeueIds(failed: Batch, b: Batch)
    ensures multiset(Requeue(failed, b).acks) == multiset(failed.acks) + multiset(b.acks)
  {
  }

  lemma FailMemory(s: State, k: nat)
    requires k < |s.flights|
    ensures Memory(Fail(s, k)) == Memory(s)
  {
    hide FlightIds, Without, LoopIds, Requeue;
    FlightIdsAt(s.flights, k);
    FlightIdsUpdate(s.flights, k, s.flights[k].(batch := EMPTY, stage := BackingOff));
    var rest, failed := FlightIds(Without(s.flights, k)), multiset(s.flights[k].batch.acks);
    var buffered, loop := multiset(s.buffer.acks), LoopIds(s.consumer);
    RequeueIds(s.flights[k].batch, s.buffer);
    assert Memory(Fail(s, k)) == loop + (failed + buffered) + rest;
    Regroup(loop, failed, buffered);
    Exchange(loop, failed, buffered);
    Exchange(loop + buffered, failed, rest);
    Regroup(loop + buffered, rest, failed);
  }

  lemma StageMemory(s: State, k: nat, stage: Stage)
    requires k < |s.flights|
    ensures Memory(StageTo(s, k, stage)) == Memory(s)
  {
    hide FlightIds, Without;
    FlightIdsAt(s.flights, k);
    FlightIdsUpdate(s.flights, k, s.flights[k].(stage := stage));
  }

  /** The first entry of the batch moves into the buffer. */
  lemma PushMemory(s: State, vehicle: Value, c: Consumer)
    requires Enabled(s, Resolved(vehicle, false))
    requires Rest(c) == s.consumer.ids[1..] && ToAck(c) == s.consumer.acked
    ensures var id := s.consumer.ids[0];
      Memory(s.(buffer := Push(s.buffer, vehicle, s.stream[id].reading, id), consumer := c,
                resolved := s.resolved + {(id, vehicle)})) == Memory(s)
  {
    hide FlightIds;
    var id, c0 := s.consumer.ids[0], s.consumer;
    HeadAndTail(c0.ids);
    assert LoopIds(c0) == multiset{id} + multiset(c0.ids[1..]) + multiset(c0.acked);
    Exchange(multiset{id}, multiset(c0.ids[1..]), multiset(c0.acked));
    MoveHead(multiset{id}, multiset(c0.ids[1..]), multiset(c0.acked), multiset(s.buffer.acks), FlightIds(s.flights));
  }

  lemma MoveHead(head: Ids, rest: Ids, acked: Ids, buffered: Ids, flying: Ids)
    ensures rest + acked + (buffered + head) + flying == head + rest + acked + buffered + flying
  {
  }

  lemma BufferedMemory(s: State, vehicle: Value, timeUp: bool)
    requires Enabled(s, Resolved(vehicle, timeUp))
    ensures Memory(Buffered(s, vehicle, timeUp)) == Memory(s)
  {
    hide Memory, Push, BeginFlush;
    var c := s.consumer;
    var b := Push(s.buffer, vehicle, s.stream[c.ids[0]].reading, c.ids[0]);
    PushMemory(s, vehicle, Looping(c.ids[1..], c.acked));
    PushMemory(s, vehicle, Flushing(c.ids[1..], c.acked));
    var resolved := s.resolved + {(c.ids[0], vehicle)};
    BeginFlushMemory(s.(buffer := b, consumer := Flushing(c.ids[1..], c.acked), resolved := resolved), ByBatch);
  }

  /** An entry that needs no row moves to the ids that processBatch returns. */
  lemma Dropped(ids: seq<Id>, acked: seq<Id>)
    requires ids != []
    ensures LoopIds(Looping(ids[1..], acked + [ids[0]])) == multiset(ids) + multiset(acked)
  {
    HeadAndTail(ids);
    Exchange(multiset{ids[0]}, multiset(ids[1..]), multiset(acked));
    assert multiset(acked + [ids[0]]) == multiset(acked) + multiset{ids[0]};
    MoveOne(multiset{ids[0]}, multiset(ids[1..]), multiset(acked));
  }

  lemma MoveOne(head: Ids, rest: Ids, acked: Ids)
    ensures rest + (acked + head) == head + rest + acked
  {
  }

  lemma LoopHeadLoop(s: State)
    requires Enabled(s, NextEntry)
    ensures var s' := LoopHead(s); s'.buffer == s.buffer && s'.flights == s.flights
    ensures LoopIds(LoopHead(s).consumer) + (if s.consumer.ids == [] then multiset(s.consumer.acked) else multiset{})
      == LoopIds(s.consumer)
  {
    hide RedisStreams.Members, LoopIds;
    NoLoop();
    LoopOf(s.consumer.ids, s.consumer.acked);
    if s.consumer.ids != [] {
      Dropped(s.consumer.ids, s.consumer.acked);
    }
  }

  lemma NoLoop()
    ensures LoopIds(Down) == LoopIds(Idle) == LoopIds(Pausing) == LoopIds(Acking) == multiset{}
  {
  }

  lemma LoopOf(ids: seq<Id>, acked: seq<Id>)
    ensures LoopIds(Looping(ids, acked)) == multiset(ids) + multiset(acked)
    ensures LoopIds(Resolving(ids, acked)) == multiset(ids) + multiset(acked)
    ensures LoopIds(SavingRaw(ids, acked)) == multiset(ids) + multiset(acked)
    ensures ids == [] ==> LoopIds(Looping(ids, acked)) == multiset(acked)
  {
  }

  lemma LoopHeadMemory(s: State)
    requires Enabled(s, NextEntry)
    ensures Memory(LoopHead(s)) + (if s.consumer.ids == [] then multiset(s.consumer.acked) else multiset{}) == Memory(s)
  {
    hide LoopIds, LoopHead, FlightIds;
    LoopHeadLoop(s);
    Leave(LoopIds(LoopHead(s).consumer), if s.consumer.ids == [] then multiset(s.consumer.acked) else multiset{},
          multiset(s.buffer.acks), FlightIds(s.flights));
  }

  lemma Leave(loop: Ids, gone: Ids, buffered: Ids, flying: Ids)
    ensures loop + buffered + flying + gone == loop + gone + buffered + flying
  {
    Exchange(loop + buffered, flying, gone);
    Exchange(loop, buffered, gone);
  }

  /** The other steps of the consumer loop. */
  lemma WaitMemory(s: State, a: Action)
    requires Enabled(s, a)
    requires a.Resume? || a.EntryThrows? || a.NotRegistered? || a.ResolveFails? || a.RawSaved? || a.AckReply?
    ensures Memory(Apply(s, a)) + (if Throws(a) then LoopIds(s.consumer) else multiset{}) == Memory(s)
  {
    hide FlightIds, LoopIds;
    NoLoop();
    if Throws(a) {
      Leave(LoopIds(Pausing), LoopIds(s.consumer), multiset(s.buffer.acks), FlightIds(s.flights));
    } else {
      SameLoop(s, a);
    }
  }

  lemma SameLoop(s: State, a: Action)
    requires Enabled(s, a) && (a.Resume? || a.NotRegistered? || a.RawSaved? || a.AckReply?)
    ensures LoopIds(Apply(s, a).consumer) == LoopIds(s.consumer)
    ensures Apply(s, a).buffer == s.buffer && Apply(s, a).flights == s.flights
  {
    hide LoopIds;
    NoLoop();
    if a.NotRegistered? || a.RawSaved? {
      LoopOf(s.consumer.ids, s.consumer.acked);
    }
    if a.RawSaved? {
      Dropped(s.consumer.ids, s.consumer.acked);
    }
  }

  lemma HandedMemory(s: State, a: Action)
    requires Enabled(s, a) && (a.Recover? || a.ReadNew?)
    ensures Memory(Apply(s, a)) == Memory(s) + multiset(Handed(s, a))
  {
    hide FlightIds, RedisStreams.ReadPending, Range, RedisStreams.Members;
    assert LoopIds(s.consumer) == multiset{};
    Leave(multiset{}, multiset(Handed(s, a)), multiset(s.buffer.acks), FlightIds(s.flights));
  }

  predicate OfTheLoop(a: Action) {
    || a.Recover? || a.ReadNew? || a.Resume? || a.NextEntry? || a.EntryThrows? || a.Resolved? || a.NotRegistered?
    || a.ResolveFails? || a.RawSaved? || a.AckReply?
  }

  predicate OfAFlush(a: Action) {
    a.TimerFires? || a.Commit? || a.PointsReply? || a.StatesReply? || a.BackedOff?
  }

  /** What was there and came in, stays or goes. */
  ghost predicate Balances(s: State, a: Action)
    requires Enabled(s, a)
  {
    Memory(Apply(s, a)) + Leaving(s, a) == Memory(s) + Entering(s, a)
  }

  lemma HandedBalances(s: State, a: Action)
    requires Enabled(s, a) && (a.Recover? || a.ReadNew?)
    ensures Balances(s, a)
  {
    hide Memory, LoopIds, Handed, Deliver, RedisStreams.ReadPending, Range;
    HandedMemory(s, a);
  }

  lemma NextBalances(s: State)
    requires Enabled(s, NextEntry)
    ensures Balances(s, NextEntry)
  {
    hide Memory, LoopIds, LoopHead;
    LoopHeadMemory(s);
  }

  lemma ResolvedBalances(s: State, vehicle: Value, timeUp: bool)
    requires Enabled(s, Resolved(vehicle, timeUp))
    ensures Balances(s, Resolved(vehicle, timeUp))
  {
    hide Memory, LoopIds, Buffered;
    BufferedMemory(s, vehicle, timeUp);
  }

  lemma WaitBalances(s: State, a: Action)
    requires Enabled(s, a)
    requires a.Resume? || a.EntryThrows? || a.NotRegistered? || a.ResolveFails? || a.RawSaved? || a.AckReply?
    ensures Balances(s, a)
  {
    hide Memory, LoopIds, Apply, Leaving, Entering;
    WaitMemory(s, a);
    WaitLeaves(s, a);
  }

  lemma WaitLeaves(s: State, a: Action)
    requires Enabled(s, a)
    requires a.Resume? || a.EntryThrows? || a.NotRegistered? || a.ResolveFails? || a.RawSaved? || a.AckReply?
    ensures Leaving(s, a) == (if Throws(a) then LoopIds(s.consumer) else multiset{}) && Entering(s, a) == multiset{}
  {
    hide Memory, LoopIds;
  }

  lemma LoopConserves(s: State, a: Action)
    requires Enabled(s, a) && OfTheLoop(a)
    ensures Balances(s, a)
  {
    hide Balances;
    match a
    case Recover(_) => HandedBalances(s, a);
    case ReadNew(_, _) => HandedBalances(s, a);
    case NextEntry => NextBalances(s);
    case Resolved(vehicle, timeUp) => ResolvedBalances(s, vehicle, timeUp);
    case _ => WaitBalances(s, a);
  }

  lemma FlushConserves(s: State, a: Action)
    requires Inv(s) && Enabled(s, a) && OfAFlush(a)
    ensures Balances(s, a)
  {
    hide Memory, LoopIds, BeginFlush, Return, Fail, StageTo, Inv, Apply, Leaving, Acceptable;
    NoFlushLeaves(s, a);
    match a
    case TimerFires => TimerMemory(s);
    case Commit(k) => CommitMemory(s, k);
    case PointsReply(k, ok) => PointsMemory(s, k, ok);
    case StatesReply(k, ok) => ReplyMemory(s, k, ok);
    case BackedOff(k) => BackedOffMemory(s, k);
  }

  lemma NoFlushLeaves(s: State, a: Action)
    requires Enabled(s, a) && OfAFlush(a)
    ensures Entering(s, a) == multiset{}
    ensures a.TimerFires? || a.Commit? || a.PointsReply? ==> Leaving(s, a) == multiset{}
  {
    hide Memory, LoopIds;
  }

  /** Every step conserves the entries: what was there and came in, stays or goes. */
  lemma {:induction false} Conservation(s: State, a: Action)
    requires Inv(s) && Enabled(s, a)
    ensures Memory(Apply(s, a)) + Leaving(s, a) == Memory(s) + Entering(s, a)
  {
    hide Memory, LoopIds, Handed, BeginFlush, Return, Fail, Buffered, StageTo, Restart, LoopHead, Inv;
    if OfTheLoop(a) {
      LoopConserves(s, a);
    } else if OfAFlush(a) {
      FlushConserves(s, a);
    } else if a.Signal? {
      SignalMemory(s);
    } else if a.Crash? {
      NothingInMemory(s);
    } else {
      SameMemory(s, Apply(s, a));
    }
  }

  lemma TimerMemory(s: State)
    requires Enabled(s, TimerFires)
    ensures Memory(Apply(s, TimerFires)) == Memory(s)
  {
    hide Memory, BeginFlush;
    BeginFlushMemory(s, ByTimer);
  }

  lemma PointsMemory(s: State, k: nat, ok: bool)
    requires Enabled(s, PointsReply(k, ok))
    ensures Memory(Apply(s, PointsReply(k, ok))) == Memory(s)
  {
    hide Memory, StageTo, Fail;
    StageMemory(s, k, SavingStates);
    FailMemory(s, k);
  }

  lemma SameMemory(s: State, s': State)
    requires s'.consumer == s.consumer && s'.buffer == s.buffer && s'.flights == s.flights
    ensures Memory(s') == Memory(s)
  {
  }

  lemma CommitMemory(s: State, k: nat)
    requires Enabled(s, Commit(k))
    ensures Memory(Apply(s, Commit(k))) == Memory(s)
  {
    hide Memory;
    StageMemory(s, k, SavingPoints(true));
    SameMemory(StageTo(s, k, SavingPoints(true)), Apply(s, Commit(k)));
  }

  lemma ReplyMemory(s: State, k: nat, ok: bool)
    requires Enabled(s, StatesReply(k, ok))
    ensures Memory(Apply(s, StatesReply(k, ok))) + Leaving(s, StatesReply(k, ok)) == Memory(s)
  {
    hide Memory, Return, Fail;
    if ok {
      ReturnMemory(s, k, s.flights[k].batch.acks);
    } else {
      FailMemory(s, k);
    }
  }

  lemma BackedOffMemory(s: State, k: nat)
    requires Inv(s) && Enabled(s, BackedOff(k))
    ensures Memory(Apply(s, BackedOff(k))) + Leaving(s, BackedOff(k)) == Memory(s)
  {
    hide Memory, Return;
    FlightIsOk(s, k);
    ReturnMemory(s, k, []);
  }

  lemma SignalMemory(s: State)
    requires Enabled(s, Signal)
    ensures Memory(Apply(s, Signal)) + Leaving(s, Signal) == Memory(s)
  {
    hide Memory, BeginFlush, Restart;
    if s.buffer.points == [] {
      NothingInMemory(s);
    } else {
      BeginFlushMemory(s, ByShutdown);
      SameMemory(BeginFlush(s, ByShutdown), Apply(s, Signal));
    }
  }

  // ----- One place -----

  ghost predicate Delivered(s: State, id: Id) {
    s.base <= id < s.cursor
  }

  /** No entry is held twice, every held entry was delivered, and a process that is down holds nothing. */
  ghost predicate OnePlace(s: State) {
    && (forall id | id in Memory(s) :: Memory(s)[id] == 1 && Delivered(s, id))
    && (s.consumer.Down? ==> Memory(s) == multiset{})
    && s.cursor <= |s.stream|
  }

  lemma {:induction false} IncreasingOnce(ids: seq<Id>)
    requires RedisStreams.Increasing(ids)
    ensures forall id | id in ids :: multiset(ids)[id] == 1
  {
    if ids != [] {
      HeadAndTail(ids);
      IncreasingOnce(ids[1..]);
      assert forall id | id in ids[1..] :: id > ids[0];
    }
  }

  lemma HandedIsNew(s: State, a: Action)
    requires Inv(s) && OnePlace(s) && Enabled(s, a) && (a.Recover? || a.ReadNew?)
    ensures forall id | id in Handed(s, a) :: multiset(Handed(s, a))[id] == 1 && id !in Memory(s)
    ensures forall id | id in Handed(s, a) :: Delivered(Apply(s, a), id)
  {
    hide Memory;
    RedisStreams.ReadPendingIsXPending(s.pel, |s.stream|);
    IncreasingOnce(Handed(s, a));
  }

  lemma CursorMoves(s: State, a: Action)
    requires Enabled(s, a)
    ensures var s' := Apply(s, a); s'.base == s.base && s'.cursor >= s.cursor && |s'.stream| >= |s.stream|
    ensures s.cursor <= |s.stream| ==> Apply(s, a).cursor <= |Apply(s, a).stream|
    ensures !a.ReadNew? ==> Apply(s, a).cursor == s.cursor
  {
    hide Push, Requeue, Range, Without, RedisStreams.Members, RedisStreams.ReadPending;
  }

  lemma GoesDown(s: State, a: Action)
    requires Enabled(s, a)
    ensures Apply(s, a).consumer.Down? ==> s.consumer.Down? || Exits(s, a)
    ensures a.Recover? || a.ReadNew? ==> !Apply(s, a).consumer.Down? && !Exits(s, a)
  {
    hide Push, Requeue, Range, Without, RedisStreams.Members, RedisStreams.ReadPending;
  }

  lemma ExitForgets(s: State, a: Action)
    requires Enabled(s, a) && Exits(s, a)
    ensures Memory(Apply(s, a)) == multiset{}
  {
    hide Memory, Without, RedisStreams.Members;
    NothingInMemory(s);
    if a.StatesReply? || a.BackedOff? {
      NothingInMemory(s.(flights := Without(s.flights, a.k)));
    }
  }

  lemma StepOnePlace(s: State, a: Action)
    requires Inv(s) && OnePlace(s) && Enabled(s, a)
    ensures OnePlace(Apply(s, a))
  {
    hide Memory, Inv, Apply, Leaving, Handed, Exits;
    Conservation(s, a);
    CursorMoves(s, a);
    GoesDown(s, a);
    if a.Recover? || a.ReadNew? {
      HandedIsNew(s, a);
      OnceAll(Memory(s), multiset(Handed(s, a)), Memory(Apply(s, a)), Leaving(s, a));
    } else {
      OnceAll(Memory(s), multiset{}, Memory(Apply(s, a)), Leaving(s, a));
      if Exits(s, a) {
        ExitForgets(s, a);
      }
    }
  }

  /** Sums of ids that occur once each, and not in both, hold no id twice; and neither do their parts. */
  lemma OnceAll(held: Ids, more: Ids, after: Ids, gone: Ids)
    requires after + gone == held + more
    requires forall id | id in held :: held[id] == 1
    requires forall id | id in more :: more[id] == 1 && id !in held
    ensures forall id | id in after :: after[id] == 1 && (id in held || id in more)
    ensures forall id | id in after :: id !in gone
    ensures forall id | id in gone :: id in held || id in more
    ensures forall id :: id in held || id in more <==> id in after || id in gone
  {
    forall id: Id
      ensures after[id] + gone[id] == held[id] + more[id]
    {
      assert (after + gone)[id] == (held + more)[id];
    }
  }
}
