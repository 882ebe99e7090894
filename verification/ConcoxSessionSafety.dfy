/**
 In every interleaving of a socket's handlers, whatever the publisher does, locations and alerts go out under the IMEI
 that logged in last, acknowledgements answer the packets that call for one, each with one, and no packet is lost or
 counted twice.
 */
module ConcoxSessionSafety {
  import opened Bytes
  import opened Wrappers
  import opened ConcoxFraming
  import opened ConcoxPackets
  import ConcoxCodec
  import ConcoxParser
  import ConcoxStream
  import opened ConcoxSession
  import opened ConcoxSessionLog

  // ----- The handlers -----

  lemma {:induction false} InProgressAt(tasks: seq<Task>, i: nat, t: Task)
    requires i < |tasks|
    ensures InProgress(tasks[i := t])
      == InProgress(tasks) - (if tasks[i].stage == Idle then 0 else 1) + (if t.stage == Idle then 0 else 1)
  {
    if i == |tasks| - 1 {
      assert tasks[i := t][..i] == tasks[..i];
    } else {
      InProgressAt(tasks[..|tasks| - 1], i, t);
      assert tasks[i := t][..|tasks| - 1] == tasks[..|tasks| - 1][i := t];
    }
  }

  lemma {:induction false} WaitingAt(tasks: seq<Task>, i: nat, t: Task)
    requires i < |tasks|
    ensures Waiting(tasks[i := t]) + multiset(ToHandle(tasks[i])) == Waiting(tasks) + multiset(ToHandle(t))
  {
    hide ToHandle;
    var front, last := tasks[..|tasks| - 1], tasks[|tasks| - 1];
    if i == |tasks| - 1 {
      assert tasks[i := t][..i] == front;
      Swap(Waiting(front), multiset(ToHandle(t)), multiset(ToHandle(last)));
    } else {
      WaitingAt(front, i, t);
      assert tasks[i := t][..|tasks| - 1] == front[i := t];
      AddBoth(Waiting(front[i := t]), multiset(ToHandle(tasks[i])), Waiting(front), multiset(ToHandle(t)),
              multiset(ToHandle(last)));
    }
  }

  lemma Swap(a: multiset<Packet>, b: multiset<Packet>, c: multiset<Packet>)
    ensures a + b + c == a + c + b
  {
  }

  lemma AddBoth(a: multiset<Packet>, b: multiset<Packet>, c: multiset<Packet>, d: multiset<Packet>, m: multiset<Packet>)
    requires a + b == c + d
    ensures a + m + b == c + m + d
  {
    Swap(a, m, b);
    Swap(c, m, d);
  }

  lemma InProgressMore(tasks: seq<Task>, queue: seq<Packet>)
    ensures InProgress(tasks + [Task(queue, Idle)]) == InProgress(tasks)
    ensures Waiting(tasks + [Task(queue, Idle)]) == Waiting(tasks) + multiset(queue)
  {
    assert (tasks + [Task(queue, Idle)])[..|tasks|] == tasks;
  }

  /** What the switch logs: first the packet itself. */
  lemma SwitchEvents(s: State, i: nat) returns (events: seq<Event>)
    requires i < |s.tasks| && s.tasks[i].queue != []
    ensures Switch(s, i).log == s.log + events && events != [] && events[0] == Handled(s.tasks[i].queue[0])
    ensures forall k | 1 <= k < |events| :: !events[k].Handled?
  {
    hide ConcoxCodec.BuildAck, InRange;
    events := Switch(s, i).log[|s.log|..];
  }

  lemma StopEffect(s: State, i: nat, at: Stage, events: seq<Event>)
    requires i < |s.tasks| && s.tasks[i].queue != [] && at in {LocationSent, AlertSent}
    ensures var t := Stop(s, i, at, events);
      && |t.tasks| == |s.tasks| && t.tasks == s.tasks[i := t.tasks[i]] && t.received == s.received
      && ToHandle(t.tasks[i]) == s.tasks[i].queue[1..] && TaskOk(t.tasks[i]) && t.tasks[i].stage != Idle
      && t.tasks[i].queue == s.tasks[i].queue && t.parsed == s.parsed && t.invalid == s.invalid
  {
  }

  lemma FinishEffect(s: State, i: nat, good: bool, events: seq<Event>)
    requires i < |s.tasks| && s.tasks[i].queue != []
    ensures var t := Finish(s, i, good, events);
      && |t.tasks| == |s.tasks| && t.tasks == s.tasks[i := t.tasks[i]] && t.received == s.received
      && ToHandle(t.tasks[i]) == s.tasks[i].queue[1..] && TaskOk(t.tasks[i]) && t.tasks[i].stage == Idle
      && t.tasks[i].queue == s.tasks[i].queue[1..] && t.parsed + t.invalid == s.parsed + s.invalid + 1
  {
  }

  /** What the switch does to its handler and the counters. */
  lemma SwitchEffect(s: State, i: nat)
    requires i < |s.tasks| && s.tasks[i].queue != []
    ensures var t := Switch(s, i);
      && |t.tasks| == |s.tasks| && t.tasks == s.tasks[i := t.tasks[i]] && t.received == s.received
      && ToHandle(t.tasks[i]) == s.tasks[i].queue[1..] && TaskOk(t.tasks[i])
      && (t.tasks[i].queue == s.tasks[i].queue || t.tasks[i].queue == s.tasks[i].queue[1..])
      && t.parsed + t.invalid + (if t.tasks[i].stage == Idle then 0 else 1) == s.parsed + s.invalid + 1
  {
    hide ConcoxCodec.BuildAck, InRange, Stop, Finish, ToHandle, TaskOk;
    var p := Current(s, i);
    match p
    case Login(imei, _, _, serial) =>
      FinishEffect(s.(login := Some(imei)), i, true, [Handled(p), Sent(ConcoxCodec.BuildAck(0x01, serial))]);
    case Heartbeat(_, _, _, _, _, serial, raw) =>
      FinishEffect(s, i, true, [Handled(p), Sent(ConcoxCodec.BuildAck(raw, serial))]);
    case Location(_, fix, _, _, _, _, _) =>
      FinishEffect(s, i, false, [Handled(p)]);
      if s.login.Some? {
        StopEffect(s, i, LocationSent, [Handled(p), LocationPublished(s.login.value, fix)]);
      }
    case Alarm(_, _, code, fix, _, _, _, _, _, serial, raw) =>
      FinishEffect(s, i, false, [Handled(p)]);
      if s.login.Some? {
        StopEffect(s, i, AlertSent, [Handled(p), Sent(ConcoxCodec.BuildAck(raw, serial)),
                                     AlertPublished(s.login.value, fix, code)]);
      }
    case _ => FinishEffect(s, i, true, [Handled(p)]);
  }

  lemma {:induction false} NoneHandled(log: seq<Event>, events: seq<Event>)
    requires forall k | 0 <= k < |events| :: !events[k].Handled?
    ensures HandledIn(log + events) == HandledIn(log)
  {
    if events == [] {
      assert log + events == log;
    } else {
      NoneHandled(log, events[..|events| - 1]);
      assert (log + events)[..|log + events| - 1] == log + events[..|events| - 1];
    }
  }

  lemma HandledPlus(log: seq<Event>, p: Packet)
    ensures HandledIn(log + [Handled(p)]) == HandledIn(log) + multiset{p}
  {
    assert (log + [Handled(p)])[..|log|] == log;
  }

  lemma HandledOnce(log: seq<Event>, events: seq<Event>, p: Packet)
    requires events != [] && events[0] == Handled(p)
    requires forall k | 1 <= k < |events| :: !events[k].Handled?
    ensures HandledIn(log + events) == HandledIn(log) + multiset{p}
  {
    hide *;
    HandledPlus(log, p);
    NoneHandled(log + [events[0]], events[1..]);
    assert log + events == log + [events[0]] + events[1..];
  }

  lemma {:induction false} LoginsGrow(log: seq<Event>, events: seq<Event>)
    ensures Logins(log) <= Logins(log + events)
  {
    if events == [] {
      assert log + events == log;
    } else {
      LoginsGrow(log, events[..|events| - 1]);
      assert (log + events)[..|log + events| - 1] == log + events[..|events| - 1];
    }
  }

  /** A step of one handler keeps the others' packets known. */
  lemma TasksStay(s: State, t: State, i: nat)
    requires TasksOk(s) && i < |s.tasks| == |t.tasks| && t.tasks == s.tasks[i := t.tasks[i]] && s.log <= t.log
    requires TaskOk(t.tasks[i])
    requires t.tasks[i].queue == s.tasks[i].queue
      || (s.tasks[i].queue != [] && t.tasks[i].queue == s.tasks[i].queue[1..])
    ensures TasksOk(t)
  {
    hide Logins, PacketImei;
    LoginsGrow(s.log, t.log[|s.log|..]);
    assert t.log == s.log + t.log[|s.log|..];
    forall j, p | 0 <= j < |t.tasks| && p in t.tasks[j].queue
      ensures Known(p, t.log)
    {
      assert p in s.tasks[j].queue && Known(p, s.log);
    }
  }

  /** The packets that a state has handled or will. */
  function Balance(s: State): multiset<Packet> {
    HandledIn(s.log) + Waiting(s.tasks)
  }

  /** The packets that a state has begun and not counted. */
  function Uncounted(s: State): int {
    s.received - s.parsed - s.invalid - InProgress(s.tasks)
  }

  /** A step of handler i that handles nothing. */
  lemma MoveKeeps(s: State, t: State, i: nat, events: seq<Event>)
    requires TasksOk(s) && i < |s.tasks| == |t.tasks| && t.tasks == s.tasks[i := t.tasks[i]] && TaskOk(t.tasks[i])
    requires t.log == s.log + events && forall k | 0 <= k < |events| :: !events[k].Handled?
    requires ToHandle(t.tasks[i]) == ToHandle(s.tasks[i])
    requires t.tasks[i].queue == s.tasks[i].queue
      || (s.tasks[i].queue != [] && t.tasks[i].queue == s.tasks[i].queue[1..])
    requires t.received - t.parsed - t.invalid - (if t.tasks[i].stage == Idle then 0 else 1)
      == s.received - s.parsed - s.invalid - (if s.tasks[i].stage == Idle then 0 else 1)
    ensures TasksOk(t) && Uncounted(t) == Uncounted(s) && Balance(t) == Balance(s)
  {
    hide HandledIn, Waiting, InProgress, ToHandle, TasksOk;
    TasksStay(s, t, i);
    InProgressAt(s.tasks, i, t.tasks[i]);
    NoneHandled(s.log, events);
    WaitingAt(s.tasks, i, t.tasks[i]);
    Cancel(Waiting(t.tasks), Waiting(s.tasks), multiset(ToHandle(s.tasks[i])));
  }

  lemma Cancel(a: multiset<Packet>, b: multiset<Packet>, c: multiset<Packet>)
    requires a + c == b + c
    ensures a == b
  {
    forall p: Packet
      ensures a[p] == b[p]
    {
      assert (a + c)[p] == (b + c)[p];
    }
  }

  /** A switch of handler i handles its packet. */
  lemma SwitchKeeps(s: State, i: nat)
    requires TasksOk(s) && i < |s.tasks| && s.tasks[i].queue != [] && s.tasks[i].stage in {Idle, RawSent}
    ensures var t := Switch(s, i);
      TasksOk(t) && Balance(t) == Balance(s)
      && Uncounted(t) == Uncounted(s) - (if s.tasks[i].stage == Idle then 1 else 0)
  {
    hide HandledIn, Waiting, InProgress, TasksOk, Switch;
    var t, q := Switch(s, i), s.tasks[i].queue;
    var events := SwitchEvents(s, i);
    SwitchEffect(s, i);
    TasksStay(s, t, i);
    InProgressAt(s.tasks, i, t.tasks[i]);
    HandledOnce(s.log, events, q[0]);
    WaitingAt(s.tasks, i, t.tasks[i]);
    assert q == [q[0]] + q[1..];
    Handover(HandledIn(s.log), Waiting(s.tasks), Waiting(t.tasks), q);
  }

  lemma Handover(handled: multiset<Packet>, before: multiset<Packet>, after: multiset<Packet>, q: seq<Packet>)
    requires q != [] && after + multiset(q) == before + multiset(q[1..])
    ensures handled + multiset{q[0]} + after == handled + before
  {
    assert q == [q[0]] + q[1..];
    assert multiset(q) == multiset{q[0]} + multiset(q[1..]);
    Swap(after, multiset{q[0]}, multiset(q[1..]));
    Cancel(after + multiset{q[0]}, before, multiset(q[1..]));
  }

  lemma ResumeKeeps(s: State, i: nat, ok: bool)
    requires Enabled(s, Advance(i, ok)) && TasksOk(s)
    ensures var t := Resume(s, i, ok);
      TasksOk(t) && Balance(t) == Balance(s) && Uncounted(t) == Uncounted(s)
  {
    hide Balance, Uncounted, Switch, TasksOk, InRange, PacketImei;
    var t, task := Resume(s, i, ok), s.tasks[i];
    if task.stage == RawSent {
      SwitchKeeps(s, i);
    } else if task.stage == Idle && task.queue != [] {
      BeginKeeps(s, i, ok);
    } else if task.stage != Idle {
      var events := t.log[|s.log|..];
      MoveKeeps(s, t, i, events);
    }
  }

  lemma BeginKeeps(s: State, i: nat, ok: bool)
    requires TasksOk(s) && i < |s.tasks| && s.tasks[i].stage == Idle && s.tasks[i].queue != []
    ensures var t := Resume(s, i, ok);
      TasksOk(t) && Balance(t) == Balance(s) && Uncounted(t) == Uncounted(s)
  {
    hide Waiting, HandledIn, InProgress, Switch, PacketImei, TasksOk;
    var t, begun := Resume(s, i, ok), s.(received := s.received + 1);
    SameTasks(s, begun);
    if PacketImei(s.tasks[i].queue[0]).Some? || s.login.Some? {
      MoveKeeps(s, t, i, t.log[|s.log|..]);
    } else {
      SwitchKeeps(begun, i);
    }
  }

  lemma SameTasks(s: State, t: State)
    requires TasksOk(s) && t.tasks == s.tasks && t.log == s.log
    ensures TasksOk(t)
  {
  }

  // ----- Data events -----

  lemma {:induction false} PacketsCarrySession(pieces: seq<Piece>, session: Option<Imei>)
    ensures forall p | p in PacketsOf(pieces, session) :: PacketImei(p).Some? ==> p.Login? || PacketImei(p) == session
  {
    hide GpsBlock, Fields;
    if pieces != [] {
      PacketsCarrySession(pieces[1..], session);
      if pieces[0].Framed? && |pieces[0].frame| >= 7 {
        PacketCarriesSession(pieces[0].frame, session);
      }
    }
  }

  lemma PacketCarriesSession(f: seq<byte>, session: Option<Imei>)
    requires |f| >= 7
    ensures var p := FramePacket(f, session);
      p.Some? && PacketImei(p.value).Some? ==> p.value.Login? || PacketImei(p.value) == session
  {
    hide GpsBlock, Fields, HexOf, Word, UInt32, Protocol, Info, Serial;
  }

  lemma DataKeeps(s: State, chunk: seq<byte>)
    requires Inv(s)
    ensures Inv(Act(s, Data(chunk)))
    ensures Balance(Act(s, Data(chunk)))
      == Balance(s) + multiset(PacketsOf(ConcoxStream.OnData(s.buffer, chunk).pieces, s.login))
  {
    hide LogOk, HandledIn, Waiting, InProgress, Logins, PacketsOf, ConcoxStream.OnData, PacketImei;
    var cut := ConcoxStream.OnData(s.buffer, chunk);
    var queue := PacketsOf(cut.pieces, s.login);
    InProgressMore(s.tasks, queue);
    PacketsCarrySession(cut.pieces, s.login);
    LoginIs(s.log, s.login);
    LastLoginIsOne(s.log);
    var t := Act(s, Data(chunk));
    forall i, p | 0 <= i < |t.tasks| && p in t.tasks[i].queue
      ensures Known(p, t.log)
    {
      if i < |s.tasks| {
        assert p in s.tasks[i].queue;
      }
    }
  }

  // ----- Main results -----

  lemma {:induction false} StepKeeps(s: State, a: Action)
    requires Inv(s) && Enabled(s, a)
    ensures Inv(Act(s, a))
    ensures a.Advance? ==> Balance(Act(s, a)) == Balance(s)
  {
    hide LogOk, TasksOk, Balance, InProgress, Resume;
    match a
    case Data(chunk) => DataKeeps(s, chunk);
    case Advance(i, ok) =>
      ResumeLog(s, i, ok);
      ResumeKeeps(s, i, ok);
  }

  lemma {:induction false} RunKeeps(actions: seq<Action>)
    ensures Inv(Run(actions)) && Balance(Run(actions)) == multiset(Arrived(actions))
  {
    hide Act, Inv, Enabled, Balance, PacketsOf, ConcoxStream.OnData;
    if actions == [] {
      Start();
    } else {
      var s, a := Run(actions[..|actions| - 1]), actions[|actions| - 1];
      RunKeeps(actions[..|actions| - 1]);
      if Enabled(s, a) {
        StepKeeps(s, a);
      }
      if a.Data? {
        DataKeeps(s, a.chunk);
        DataEnabled(s, a);
      }
    }
  }

  lemma DataEnabled(s: State, a: Action)
    requires a.Data?
    ensures Enabled(s, a)
  {
  }

  lemma Start()
    ensures Inv(CONNECTED) && Balance(CONNECTED) == multiset{}
  {
    hide Inv, Balance;
    Fresh(CONNECTED);
  }

  lemma Fresh(s: State)
    requires s.tasks == [] && s.log == [] && s.login.None? && s.received == s.parsed == s.invalid == 0
    ensures Inv(s) && Balance(s) == multiset{}
  {
    hide WellFormed, Protocol, Info, Serial, Proper, Owed, Known, ToHandle;
    assert LogOk(s.log, s.login);
    assert TasksOk(s);
    assert Counted(s);
  }

  /**
   Every location and alert goes out under the IMEI of the last login handled before it, never before a login; a
   location has a fix within range; a raw copy goes out under a login handled before it or the packet's own.
   */
  lemma {:induction false} PublishedUnderLogin(actions: seq<Action>, k: nat)
    requires k < |Run(actions).log|
    ensures Proper(Run(actions).log[..k], Run(actions).log[k])
  {
    hide Run, Proper, TasksOk, Counted;
    RunKeeps(actions);
  }

  /**
   The acknowledgements written are those called for by the logins, the heartbeats and the alarms after a login, one
   each and in the order they were handled; each is a well-formed empty frame echoing protocol number and serial.
   */
  lemma {:induction false} OneAckEach(actions: seq<Action>)
    ensures Echoes(Acks(Run(actions).log), Due(Run(actions).log))
  {
    hide Run, Echoes, TasksOk, Counted;
    RunKeeps(actions);
  }

  /** No packet is lost or handled twice: those handled and those waiting are those that arrived. */
  lemma {:induction false} PacketsConserved(actions: seq<Action>)
    ensures HandledIn(Run(actions).log) + Waiting(Run(actions).tasks) == multiset(Arrived(actions))
  {
    hide Run, Inv, HandledIn, Waiting, Arrived;
    RunKeeps(actions);
  }

  // ----- The whole way from the stream -----

  lemma BareFrame(f: seq<byte>, session: Option<Imei>)
    requires |f| >= 7
    ensures FramePacket(f, session).Some? <==> FramePacket(f, None).Some?
    ensures FramePacket(f, session).Some? ==> Bare(FramePacket(f, session).value) == FramePacket(f, None).value
  {
    hide GpsBlock, Fields, HexOf, Word, UInt32, Protocol, Info, Serial;
  }

  lemma {:induction false} BarePackets(pieces: seq<Piece>, session: Option<Imei>)
    ensures AllBare(PacketsOf(pieces, session)) == PacketsOf(pieces, None)
  {
    hide FramePacket;
    if pieces != [] {
      BarePackets(pieces[1..], session);
      if pieces[0].Framed? && |pieces[0].frame| >= 7 {
        BareFrame(pieces[0].frame, session);
      }
      AllBareConcat(PacketOf(pieces[0], session), PacketsOf(pieces[1..], session));
    }
  }

  lemma AllBareConcat(a: seq<Packet>, b: seq<Packet>)
    ensures AllBare(a + b) == AllBare(a) + AllBare(b)
  {
    hide Bare;
  }

  lemma {:induction false} PacketsOfConcat(a: seq<Piece>, b: seq<Piece>)
    ensures PacketsOf(a + b, None) == PacketsOf(a, None) + PacketsOf(b, None)
  {
    hide PacketOf;
    if a == [] {
      assert a + b == b;
    } else {
      assert (a + b)[1..] == a[1..] + b;
      PacketsOfConcat(a[1..], b);
    }
  }

  /** The handlers get the packets of the socket loop's run over the chunks, whatever the handlers do meanwhile. */
  lemma {:induction false} ArrivedIsRun(actions: seq<Action>)
    ensures Run(actions).buffer == ConcoxStream.Run([], Chunks(actions)).remainder
    ensures AllBare(Arrived(actions)) == PacketsOf(ConcoxStream.Run([], Chunks(actions)).pieces, None)
  {
    hide Resume, PacketsOf, ConcoxStream.OnData, Bare;
    if actions == [] {
      assert PacketsOf([], None) == [] by {
        ConcoxParser.ParseEnd([], None);
      }
    } else {
      var before, a := actions[..|actions| - 1], actions[|actions| - 1];
      var s, chunks := Run(before), Chunks(before);
      ArrivedIsRun(before);
      if a.Data? {
        var cut := ConcoxStream.OnData(s.buffer, a.chunk);
        ConcoxStream.RunSnoc([], chunks, a.chunk);
        BarePackets(cut.pieces, s.login);
        AllBareConcat(Arrived(before), PacketsOf(cut.pieces, s.login));
        PacketsOfConcat(ConcoxStream.Run([], chunks).pieces, cut.pieces);
      } else {
        ResumeKeepsBuffer(s, a);
        assert Chunks(actions) == chunks && Arrived(actions) == Arrived(before);
      }
    }
  }

  lemma ResumeKeepsBuffer(s: State, a: Action)
    requires a.Advance?
    ensures Enabled(s, a) ==> Act(s, a).buffer == s.buffer
  {
    hide ConcoxCodec.BuildAck, InRange, PacketImei;
  }

  /**
   From the bytes to the handlers: for a stream that may be cut anywhere, in any interleaving of data events and
   handlers without overflow, the packets that arrive are those of one parse of the whole stream, in order.
   */
  lemma ArrivedIsParse(actions: seq<Action>)
    requires ConcoxStream.Fits([], Chunks(actions)) && ConcoxStream.Robust(ConcoxStream.Stream(Chunks(actions)), 0)
    ensures AllBare(Arrived(actions)) == PacketsOf(Parse(ConcoxStream.Stream(Chunks(actions))).pieces, None)
    ensures Run(actions).buffer == Parse(ConcoxStream.Stream(Chunks(actions))).remainder
  {
    hide Run, AllBare, PacketsOf, Next, Parse, ConcoxStream.Run, ConcoxStream.Fits, ConcoxStream.Robust;
    var stream := ConcoxStream.Stream(Chunks(actions));
    ArrivedIsRun(actions);
    ConcoxStream.NothingWaits();
    assert [] + stream == stream;
    ConcoxStream.RunIsParse([], Chunks(actions));
  }

  /** Every packet begun is counted as parsed or invalid, or is still in progress. */
  lemma {:induction false} CountsAddUp(actions: seq<Action>)
    ensures var s := Run(actions); s.received == s.parsed + s.invalid + InProgress(s.tasks)
  {
    hide Run, LogOk, TasksOk;
    RunKeeps(actions);
  }
}
