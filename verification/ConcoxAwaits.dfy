/** Every publication of a socket's handlers is awaited: its answer decides how the handler goes on. */
module ConcoxAwaits {
  import opened ConcoxPackets
  import ConcoxCodec
  import ConcoxStream
  import opened ConcoxSession
  import opened ConcoxSessionSafety

  predicate IsCall(e: Event) {
    e.RawPublished? || e.LocationPublished? || e.AlertPublished?
  }

  function Calls(log: seq<Event>): nat {
    if log == [] then 0 else Calls(log[..|log| - 1]) + One(log[|log| - 1])
  }

  function One(e: Event): nat {
    if IsCall(e) then 1 else 0
  }

  /** A step that answers a call: the handler was stopped at one. */
  predicate Answers(s: State, a: Action) {
    a.Advance? && Enabled(s, a) && s.tasks[a.i].stage != Idle
  }

  function AnswersIn(actions: seq<Action>): nat {
    if actions == [] then 0
    else
      AnswersIn(actions[..|actions| - 1])
      + (if Answers(Run(actions[..|actions| - 1]), actions[|actions| - 1]) then 1 else 0)
  }

  lemma {:induction false} CallsInTwo(log: seq<Event>, events: seq<Event>)
    ensures Calls(log + events) == Calls(log) + Calls(events)
  {
    if events == [] {
      assert log + events == log;
    } else {
      CallsInTwo(log, events[..|events| - 1]);
      assert (log + events)[..|log + events| - 1] == log + events[..|events| - 1];
    }
  }

  lemma FewCalls(events: seq<Event>)
    ensures |events| == 0 ==> Calls(events) == 0
    ensures |events| == 1 ==> Calls(events) == One(events[0])
    ensures |events| == 2 ==> Calls(events) == One(events[0]) + One(events[1])
    ensures |events| == 3 ==> Calls(events) == One(events[0]) + One(events[1]) + One(events[2])
  {
    if 0 < |events| {
      var front := events[..|events| - 1];
      if 0 < |front| {
        var first := front[..|front| - 1];
        assert |first| == 1 ==> first[..0] == [];
      }
    }
  }

  /** What handler i logs in a step, and whether it then waits. */
  ghost predicate Awaits(s: State, i: nat, t: State) {
    && |t.tasks| == |s.tasks| && i < |s.tasks| && t.tasks == s.tasks[i := t.tasks[i]]
    && exists events :: t.log == s.log + events && Calls(events) == if t.tasks[i].stage == Idle then 0 else 1
  }

  lemma SwitchAwaits(s: State, i: nat)
    requires i < |s.tasks| && s.tasks[i].queue != []
    ensures Awaits(s, i, Switch(s, i))
  {
    hide Calls, InRange, ConcoxCodec.BuildAck;
    var t := Switch(s, i);
    var events := t.log[|s.log|..];
    FewCalls(events);
    assert t.log == s.log + events;
  }

  lemma ResumeAwaits(s: State, i: nat, ok: bool)
    requires Enabled(s, Advance(i, ok))
    ensures Awaits(s, i, Resume(s, i, ok))
  {
    hide Calls, InRange, Switch, PacketImei;
    var t, task := Resume(s, i, ok), s.tasks[i];
    if task.stage == RawSent {
      SwitchAwaits(s, i);
    } else if task.stage == Idle && task.queue != [] && PacketImei(task.queue[0]).None? && s.login.None? {
      SwitchAwaits(s.(received := s.received + 1), i);
    } else {
      var events := t.log[|s.log|..];
      FewCalls(events);
      assert t.log == s.log + events;
    }
  }

  lemma ActAwaits(s: State, a: Action)
    requires Enabled(s, a)
    ensures var t := Act(s, a);
      Calls(t.log) + InProgress(s.tasks) == Calls(s.log) + InProgress(t.tasks) + if Answers(s, a) then 1 else 0
  {
    hide Calls, InProgress, Resume, PacketsOf, ConcoxStream.OnData;
    match a
    case Data(chunk) =>
      InProgressMore(s.tasks, PacketsOf(ConcoxStream.OnData(s.buffer, chunk).pieces, s.login));
    case Advance(i, ok) =>
      ResumeAwaits(s, i, ok);
      var t := Resume(s, i, ok);
      var events :| t.log == s.log + events && Calls(events) == if t.tasks[i].stage == Idle then 0 else 1;
      CallsInTwo(s.log, events);
      InProgressAt(s.tasks, i, t.tasks[i]);
  }

  /** The publications made are those answered and those that a handler is waiting for: none goes unawaited. */
  lemma {:induction false} AllAreAwaited(actions: seq<Action>)
    ensures Calls(Run(actions).log) == AnswersIn(actions) + InProgress(Run(actions).tasks)
  {
    hide Act, Enabled;
    if actions != [] {
      var before, a := actions[..|actions| - 1], actions[|actions| - 1];
      AllAreAwaited(before);
      if Enabled(Run(before), a) {
        ActAwaits(Run(before), a);
      }
    }
  }
}
