/**
 At least once: which steps make the writer give an entry up, and that without them every pending entry stays in its
 hands until it has been sent to XACK. This is what requeueing a failed flush is for.
 */
module WriterRetention {
  import opened WriterBuffers
  import opened WriterProtocol
  import opened WriterMemory
  import opened WriterSafety
  import RedisStreams

  /** The process still has the entry, or has put it into an XACK. */
  ghost predicate Held(s: State, id: Id) {
    id in Memory(s) || id in s.sent
  }

  /** The process ends with the entry in memory, or an exception leaves processBatch while it holds the entry. */
  ghost predicate Strands(s: State, a: Action, id: Id)
    requires Enabled(s, a)
  {
    && id !in s.sent
    && ((Exits(s, a) && id in Memory(s)) || (Throws(a) && id in LoopIds(s.consumer)))
  }

  /** What a step sends to XACK. */
  lemma WhatIsAcked(s: State, a: Action)
    requires Enabled(s, a)
    ensures s.sent <= Apply(s, a).sent
    ensures Acks(s, a) ==> forall id | id in Leaving(s, a) :: id in Apply(s, a).sent
    ensures Exits(s, a) || Throws(a) ==> Apply(s, a).sent == s.sent
    ensures !Exits(s, a) && !Throws(a) && !Acks(s, a) ==> Leaving(s, a) == multiset{}
  {
    hide Memory, LoopIds, Push, Requeue, Range, Without, RedisStreams.ReadPending, Apply, Exits;
    SentGrows(s, a);
    if Acks(s, a) {
      AckedIsSent(s, a);
    }
  }

  lemma SentGrows(s: State, a: Action)
    requires Enabled(s, a)
    ensures s.sent <= Apply(s, a).sent && (Exits(s, a) || Throws(a) ==> Apply(s, a).sent == s.sent)
  {
    hide Push, Requeue, Range, Without, RedisStreams.ReadPending, RedisStreams.Members;
  }

  lemma AckedIsSent(s: State, a: Action)
    requires Enabled(s, a) && Acks(s, a)
    ensures forall id | id in Leaving(s, a) :: id in Apply(s, a).sent
  {
    hide Memory, LoopIds, Push, Requeue, Without;
  }

  /** A step makes the process let go of an entry exactly when it strands it. */
  lemma OnlyTheseStrand(s: State, a: Action, id: Id)
    requires Inv(s) && OnePlace(s) && Enabled(s, a)
    ensures Held(s, id) && !Held(Apply(s, a), id) <==> Strands(s, a, id)
  {
    hide Memory, Inv, Apply, Leaving, Handed, Exits, Acks, LoopIds, Enabled;
    Parts(s, a);
    WhatIsAcked(s, a);
    LoopInMemory(s);
    if Exits(s, a) {
      ExitForgets(s, a);
    } else if Throws(a) {
      ThrowLeaves(s, a);
    }
  }

  lemma ThrowLeaves(s: State, a: Action)
    requires Enabled(s, a) && Throws(a)
    ensures Leaving(s, a) == LoopIds(s.consumer)
  {
    hide LoopIds, Memory;
  }

  lemma LoopInMemory(s: State)
    ensures forall id | id in LoopIds(s.consumer) :: id in Memory(s)
  {
    hide LoopIds;
  }

  /** In memory before or coming in is in memory after or gone, and not both. */
  lemma Parts(s: State, a: Action)
    requires Inv(s) && OnePlace(s) && Enabled(s, a)
    ensures forall id | id in Memory(Apply(s, a)) :: id !in Leaving(s, a)
    ensures forall id | id in Memory(s) || id in Entering(s, a) :: id in Memory(Apply(s, a)) || id in Leaving(s, a)
    ensures forall id | id in Memory(Apply(s, a)) || id in Leaving(s, a) :: id in Memory(s) || id in Entering(s, a)
  {
    hide Memory, Inv, Apply, Leaving, Handed, Enabled;
    Conservation(s, a);
    if a.Recover? || a.ReadNew? {
      HandedIsNew(s, a);
    }
    OnceAll(Memory(s), Entering(s, a), Memory(Apply(s, a)), Leaving(s, a));
  }

  // ----- Runs -----

  /** No crash, no signal, no exception out of processBatch, no read that fails. */
  predicate Calm(a: Action) {
    && !a.Crash? && !a.Signal? && !Throws(a)
    && (a.Recover? || a.ReadNew? ==> a.ok)
  }

  predicate NoShutdown(s: State) {
    forall k | 0 <= k < |s.flights| :: !s.flights[k].owner.ByShutdown?
  }

  /** Every pending entry is in the process's hands. */
  ghost predicate Retained(s: State) {
    forall id | id in s.pel :: Held(s, id)
  }

  lemma CalmKeepsRunning(s: State, a: Action)
    requires NoShutdown(s) && Enabled(s, a) && Calm(a)
    ensures NoShutdown(Apply(s, a)) && !Exits(s, a)
  {
    hide Push, Requeue, Range, RedisStreams.Members, RedisStreams.ReadPending;
  }

  /** Redis' pending list grows by what is handed over, and shrinks by XACK only. */
  lemma WhatIsPending(s: State, a: Action)
    requires Enabled(s, a)
    ensures forall id | id in Apply(s, a).pel :: id in s.pel || a.ReadNew?
    ensures a.ReadNew? && a.ok ==> forall id | id in Apply(s, a).pel :: id in s.pel || id in Entering(s, a)
  {
    hide Push, Requeue, Without, RedisStreams.ReadPending;
  }

  lemma CalmRetains(s: State, a: Action)
    requires Inv(s) && OnePlace(s) && NoShutdown(s) && Retained(s) && Enabled(s, a) && Calm(a)
    ensures NoShutdown(Apply(s, a)) && Retained(Apply(s, a))
    ensures forall id | Held(s, id) :: Held(Apply(s, a), id)
  {
    hide Memory, Inv, OnePlace, Apply, Leaving, Handed, Exits, Acks, LoopIds, Enabled, Entering;
    CalmKeepsRunning(s, a);
    WhatIsPending(s, a);
    Parts(s, a);
    WhatIsAcked(s, a);
    forall id | Held(s, id)
      ensures Held(Apply(s, a), id)
    {
      OnlyTheseStrand(s, a, id);
    }
  }

  lemma {:induction false} CalmRunRetains(s: State, actions: seq<Action>)
    requires Inv(s) && OnePlace(s) && RowsFromStream(s) && NoShutdown(s) && Retained(s)
    requires CanRun(s, actions) && forall a | a in actions :: Calm(a)
    ensures NoShutdown(RunAll(s, actions)) && Retained(RunAll(s, actions))
    ensures forall id | Held(s, id) :: Held(RunAll(s, actions), id)
    decreases actions
  {
    hide Inv, OnePlace, RowsFromStream, Retained, NoShutdown, Apply, Enabled, Calm, Held;
    if actions != [] {
      assert actions[0] in actions && forall a | a in actions[1..] :: a in actions;
      CalmRetains(s, actions[0]);
      StepSafe(s, actions[0]);
      CalmRunRetains(Apply(s, actions[0]), actions[1..]);
    }
  }

  /** At least once: in a calm run every delivered entry is acknowledged, or pending and in the process's hands. */
  lemma NothingIsLost(s: State, actions: seq<Action>, id: Id)
    requires Initial(s) && CanRun(s, actions) && forall a | a in actions :: Calm(a)
    requires Delivered(RunAll(s, actions), id)
    ensures var s' := RunAll(s, actions); id in s'.acked || (id in s'.pel && Held(s', id))
  {
    hide CanRun, RunAll, Memory;
    InitialSafe(s);
    CalmRunRetains(s, actions);
    RedisAccounts(s, actions);
  }

  /** After a crash, recovery takes every pending entry back in hand, if there are at most 1000. */
  lemma RecoveryRetains(s: State)
    requires Inv(s) && |s.pel| <= 1000
    ensures CanRun(s, [Crash, Recover(true)])
    ensures var r := RunAll(s, [Crash, Recover(true)]);
      NoShutdown(r) && Retained(r) && r.pel == s.pel && forall id | id in s.pel :: id in Memory(r)
  {
    hide CanRun, RunAll, Memory, RedisStreams.ReadPending, Accounted;
    TwoSteps(s, Crash, Recover(true));
    NothingInMemory(s);
    HandedMemory(Restart(s), Recover(true));
    AllRecovered(s);
  }

  lemma AllRecovered(s: State)
    requires Accounted(s) && |s.pel| <= 1000
    ensures forall id | id in s.pel :: id in RedisStreams.ReadPending(s.pel, |s.stream|)
  {
    RedisStreams.RecoveryIsComplete(s.pel, |s.stream|);
    assert forall id | id in s.pel :: id in RedisStreams.Members(RedisStreams.ReadPending(s.pel, |s.stream|));
  }

  /** The process has nothing left to do. */
  ghost predicate Quiescent(s: State) {
    s.consumer.Idle? && s.buffer == EMPTY && s.flights == []
  }

  /**
   After any run, a crash and a recovery: in every calm continuation every entry that was pending, and every entry that
   has come since, stays in hand until it is sent; and whenever the process has nothing left to do, it has sent them
   all, whatever replies have failed on the way.
   */
  lemma RecoveredIsSent(s: State, before: seq<Action>, calm: seq<Action>)
    requires Initial(s) && CanRun(s, before) && |RunAll(s, before).pel| <= 1000
    requires var m := RunAll(s, before);
      && CanRun(m, [Crash, Recover(true)]) && CanRun(RunAll(m, [Crash, Recover(true)]), calm)
    requires forall a | a in calm :: Calm(a)
    ensures var m := RunAll(s, before); var e := RunAll(RunAll(m, [Crash, Recover(true)]), calm);
      && (forall id | id in m.pel || id in e.pel :: Held(e, id))
      && (Quiescent(e) ==> forall id | id in m.pel || id in e.pel :: id in e.sent)
  {
    hide CanRun, RunAll, Inv, OnePlace, RowsFromStream, Memory;
    InitialSafe(s);
    RunSafe(s, before);
    var m := RunAll(s, before);
    var r := RunAll(m, [Crash, Recover(true)]);
    RecoveryRetains(m);
    RunSafe(m, [Crash, Recover(true)]);
    CalmRunRetains(r, calm);
    QuietIsEmpty(RunAll(r, calm));
  }

  lemma QuietIsEmpty(s: State)
    ensures Quiescent(s) ==> Memory(s) == multiset{}
  {
  }

  // ----- When a stranded entry is tried again -----

  /** A failing vehicle lookup, or an entry whose JSON is null, strands the whole batch being processed. */
  lemma LookupFailureStrands(s: State, a: Action, id: Id)
    requires Inv(s) && OnePlace(s) && Enabled(s, a) && Throws(a) && id in LoopIds(s.consumer)
    ensures id !in Memory(Apply(s, a)) && Apply(s, a).pel == s.pel
  {
    hide Memory, Inv, LoopIds, Leaving;
    Parts(s, a);
    ThrowLeaves(s, a);
  }

  /** Entries delivered by a read whose reply is lost are pending, and the process does not have them. */
  lemma LostReadStrands(s: State, n: nat, id: Id)
    requires Inv(s) && OnePlace(s) && Enabled(s, ReadNew(n, false)) && s.cursor <= id < s.cursor + n
    ensures var s' := Apply(s, ReadNew(n, false)); id in s'.pel && id !in Memory(s')
  {
    hide Memory;
    HandedMemory(s, ReadNew(n, false));
  }

  /** An entry the process has dropped is not tried again, in any run, until a recovery at start. */
  lemma {:induction false} OnlyRecoveryRetries(s: State, actions: seq<Action>, id: Id)
    requires Inv(s) && OnePlace(s) && RowsFromStream(s) && CanRun(s, actions)
    requires Delivered(s, id) && id !in Memory(s)
    requires forall a | a in actions :: !a.Recover?
    ensures id !in Memory(RunAll(s, actions))
    decreases actions
  {
    hide Inv, OnePlace, RowsFromStream, Apply, Enabled, Memory, Leaving, Handed;
    if actions != [] {
      var a := actions[0];
      assert a in actions && forall b | b in actions[1..] :: b in actions;
      StepSafe(s, a);
      CursorMoves(s, a);
      Parts(s, a);
      if a.ReadNew? {
        HandedIsAhead(s, a);
      }
      OnlyRecoveryRetries(Apply(s, a), actions[1..], id);
    }
  }

  lemma HandedIsAhead(s: State, a: Action)
    requires a.ReadNew?
    ensures forall id | id in multiset(Handed(s, a)) :: id >= s.cursor
  {
  }
}
