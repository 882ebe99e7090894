/**
 What a socket owes to the rest of the system: every packet's location and alert goes out when it is called for, once,
 and every packet that brings nothing is counted as invalid. Stated on the packets handled, in every interleaving of a
 socket's handlers and whatever the awaited calls answer.
 */
module ConcoxPublished {
  import opened Bytes
  import opened Wrappers
  import opened ConcoxPackets
  import ConcoxCodec
  import ConcoxStream
  import opened ConcoxSession
  import opened ConcoxSessionLog
  import opened ConcoxSessionSafety

  // ----- What is called for -----

  /** A position that may be published: fixed, or with both coordinates known, and on the globe. */
  predicate Publishable(fix: Fix) {
    (fix.bit || (fix.lat != 0.0 && fix.lng != 0.0)) && -90.0 <= fix.lat <= 90.0 && -180.0 <= fix.lng <= 180.0
  }

  /** The alert that a packet calls for when it is handled under a login. */
  function AlertFor(p: Packet, login: Option<Imei>): seq<Event> {
    if p.Alarm? && login.Some? then [AlertPublished(login.value, p.fix, p.code)] else []
  }

  /** The position that a packet calls for; an alarm's waits for its alert. */
  function FixFor(p: Packet, login: Option<Imei>): multiset<Fix> {
    if (p.Location? || p.Alarm?) && login.Some? && Publishable(p.fix) then multiset{p.fix} else multiset{}
  }

  /** A packet that is dropped: before any login, or a location without a position to publish. */
  predicate Dropped(p: Packet, login: Option<Imei>) {
    (p.Location? && (login.None? || !Publishable(p.fix))) || (p.Alarm? && login.None?)
  }

  // ----- Over a log -----

  function Alerts(log: seq<Event>): seq<Event> {
    if log == [] then []
    else Alerts(log[..|log| - 1]) + (if log[|log| - 1].AlertPublished? then [log[|log| - 1]] else [])
  }

  function AlertsDue(log: seq<Event>): seq<Event> {
    if log == [] then []
    else
      var before, e := log[..|log| - 1], log[|log| - 1];
      AlertsDue(before) + (if e.Handled? then AlertFor(e.packet, LastLogin(before)) else [])
  }

  function Fixes(log: seq<Event>): multiset<Fix> {
    if log == [] then multiset{}
    else
      Fixes(log[..|log| - 1])
      + (if log[|log| - 1].LocationPublished? then multiset{log[|log| - 1].fix} else multiset{})
  }

  function FixesDue(log: seq<Event>): multiset<Fix> {
    if log == [] then multiset{}
    else
      var before, e := log[..|log| - 1], log[|log| - 1];
      FixesDue(before) + (if e.Handled? then FixFor(e.packet, LastLogin(before)) else multiset{})
  }

  function DroppedIn(log: seq<Event>): nat {
    if log == [] then 0
    else
      var before, e := log[..|log| - 1], log[|log| - 1];
      DroppedIn(before) + (if e.Handled? && Dropped(e.packet, LastLogin(before)) then 1 else 0)
  }

  function RawCopies(log: seq<Event>): seq<Event> {
    if log == [] then []
    else RawCopies(log[..|log| - 1]) + (if log[|log| - 1].RawPublished? then [log[|log| - 1]] else [])
  }

  // ----- Over a run -----

  /** The position an alarm's handler has yet to publish, while its alert is unanswered. */
  function OwedBy(t: Task): multiset<Fix> {
    if t.stage == AlertSent && t.queue != [] && t.queue[0].Alarm? && Publishable(t.queue[0].fix)
    then multiset{t.queue[0].fix} else multiset{}
  }

  function Owing(tasks: seq<Task>): multiset<Fix> {
    if tasks == [] then multiset{} else Owing(tasks[..|tasks| - 1]) + OwedBy(tasks[|tasks| - 1])
  }

  /** What a failing alert takes with it. */
  function Lost(s: State, a: Action): multiset<Fix> {
    if a.Advance? && a.i < |s.tasks| && !a.ok then OwedBy(s.tasks[a.i]) else multiset{}
  }

  /** The positions of alarms whose alert failed. */
  function LostIn(actions: seq<Action>): multiset<Fix> {
    if actions == [] then multiset{}
    else LostIn(actions[..|actions| - 1]) + Lost(Run(actions[..|actions| - 1]), actions[|actions| - 1])
  }

  /** The awaited publication of a location or an alert fails; a raw copy's failure is ignored. */
  predicate Fails(s: State, a: Action) {
    a.Advance? && a.i < |s.tasks| && !a.ok && s.tasks[a.i].stage in {LocationSent, AlertSent, AlarmLocationSent}
  }

  function FailuresIn(actions: seq<Action>): nat {
    if actions == [] then 0
    else
      FailuresIn(actions[..|actions| - 1])
      + (if Fails(Run(actions[..|actions| - 1]), actions[|actions| - 1]) then 1 else 0)
  }

  /** Beginning a packet sends its raw copy, under the packet's own IMEI or else the session's, if there is one. */
  function RawFor(s: State, a: Action): seq<Event> {
    if !a.Advance? || a.i >= |s.tasks| || s.tasks[a.i].stage != Idle || s.tasks[a.i].queue == [] then []
    else
      var p := s.tasks[a.i].queue[0];
      var imei := if PacketImei(p).Some? then PacketImei(p) else s.login;
      if imei.Some? then [RawPublished(imei.value, p)] else []
  }

  function RawDue(actions: seq<Action>): seq<Event> {
    if actions == [] then []
    else RawDue(actions[..|actions| - 1]) + RawFor(Run(actions[..|actions| - 1]), actions[|actions| - 1])
  }

  // ----- Appending -----

  lemma AppendOne(log: seq<Event>, e: Event)
    ensures Alerts(log + [e]) == Alerts(log) + if e.AlertPublished? then [e] else []
    ensures AlertsDue(log + [e]) == AlertsDue(log) + if e.Handled? then AlertFor(e.packet, LastLogin(log)) else []
    ensures Fixes(log + [e]) == Fixes(log) + if e.LocationPublished? then multiset{e.fix} else multiset{}
    ensures FixesDue(log + [e]) ==
      FixesDue(log) + if e.Handled? then FixFor(e.packet, LastLogin(log)) else multiset{}
    ensures DroppedIn(log + [e]) == DroppedIn(log) + if e.Handled? && Dropped(e.packet, LastLogin(log)) then 1 else 0
    ensures RawCopies(log + [e]) == RawCopies(log) + if e.RawPublished? then [e] else []
  {
    hide AlertFor, FixFor, Dropped, LastLogin;
    assert (log + [e])[..|log|] == log;
  }

  /** How far a log is from what it owes. */
  datatype Books = Books(alerts: seq<Event>, alertsDue: seq<Event>, fixes: multiset<Fix>, fixesDue: multiset<Fix>,
                         dropped: nat, raw: seq<Event>)

  function BooksOf(log: seq<Event>): Books {
    Books(Alerts(log), AlertsDue(log), Fixes(log), FixesDue(log), DroppedIn(log), RawCopies(log))
  }

  function After(b: Books, e: Event, login: Option<Imei>): Books {
    match e
    case Handled(p) =>
      Books(b.alerts, b.alertsDue + AlertFor(p, login), b.fixes, b.fixesDue + FixFor(p, login),
            b.dropped + (if Dropped(p, login) then 1 else 0), b.raw)
    case Sent(_) => b
    case RawPublished(_, _) => b.(raw := b.raw + [e])
    case LocationPublished(_, fix) => b.(fixes := b.fixes + multiset{fix})
    case AlertPublished(_, _, _) => b.(alerts := b.alerts + [e])
  }

  lemma BooksAfter(log: seq<Event>, e: Event)
    ensures BooksOf(log + [e]) == After(BooksOf(log), e, LastLogin(log))
    ensures LastLogin(log + [e]) == if e.Handled? && e.packet.Login? then Some(e.packet.imei) else LastLogin(log)
  {
    hide Alerts, AlertsDue, Fixes, FixesDue, DroppedIn, RawCopies, LastLogin, AlertFor, FixFor, Dropped;
    AppendOne(log, e);
    Append(log, e);
  }

  lemma BooksAfterTwo(log: seq<Event>, e: Event, f: Event)
    requires !(e.Handled? && e.packet.Login?)
    ensures BooksOf(log + [e, f]) == After(After(BooksOf(log), e, LastLogin(log)), f, LastLogin(log))
    ensures LastLogin(log + [e]) == LastLogin(log)
  {
    hide BooksOf, After, LastLogin;
    BooksAfter(log, e);
    BooksAfter(log + [e], f);
    assert log + [e, f] == log + [e] + [f];
  }

  /** A log that goes on with other events than packets handled. */
  lemma BooksAfterSent(log: seq<Event>, e: Event, ack: seq<byte>)
    ensures BooksOf(log + [e, Sent(ack)]) == After(BooksOf(log), e, LastLogin(log))
  {
    hide BooksOf, LastLogin;
    BooksAfter(log, e);
    BooksAfter(log + [e], Sent(ack));
    assert log + [e, Sent(ack)] == log + [e] + [Sent(ack)];
  }

  lemma PublishableIs(fix: Fix)
    ensures Publishable(fix) <==> fix.Valid() && InRange(fix)
  {
  }

  // ----- The switch -----

  /** What the switch adds to the books for packet p, with a handler that ends up in a task. */
  ghost predicate Settles(b: Books, c: Books, p: Packet, login: Option<Imei>, after: Task, more: int) {
    && c.alerts == b.alerts + AlertFor(p, login) && c.alertsDue == b.alertsDue + AlertFor(p, login)
    && c.fixes + OwedBy(after) == b.fixes + FixFor(p, login) && c.fixesDue == b.fixesDue + FixFor(p, login)
    && c.dropped == b.dropped + more && (more == if Dropped(p, login) then 1 else 0) && c.raw == b.raw
  }

  lemma SwitchBooks(s: State, i: nat)
    requires i < |s.tasks| && s.tasks[i].queue != [] && LastLogin(s.log) == s.login
    ensures var t := Switch(s, i);
      && |t.tasks| == |s.tasks| && t.tasks == s.tasks[i := t.tasks[i]]
      && Settles(BooksOf(s.log), BooksOf(t.log), s.tasks[i].queue[0], s.login, t.tasks[i], t.invalid - s.invalid)
      && (t.tasks[i].stage == AlertSent ==>
          t.tasks[i].queue != [] && t.tasks[i].queue[0].Alarm? && t.login == s.login && s.login.Some?)
      && (s.login.Some? ==> t.login.Some?)
  {
    hide BooksOf, LastLogin, InRange, Publishable, ConcoxCodec.BuildAck;
    var p, b := Current(s, i), BooksOf(s.log);
    match p
    case Login(imei, _, _, serial) =>
      BooksAfterSent(s.log, Handled(p), ConcoxCodec.BuildAck(0x01, serial));
    case Heartbeat(_, _, _, _, _, serial, raw) =>
      BooksAfterSent(s.log, Handled(p), ConcoxCodec.BuildAck(raw, serial));
    case Location(_, fix, _, _, _, _, _) =>
      PublishableIs(fix);
      BooksAfter(s.log, Handled(p));
      if s.login.Some? {
        BooksAfterTwo(s.log, Handled(p), LocationPublished(s.login.value, fix));
      }
    case Alarm(_, _, code, fix, _, _, _, _, _, serial, raw) =>
      BooksAfter(s.log, Handled(p));
      if s.login.Some? {
        AlarmBooks(s.log, p, ConcoxCodec.BuildAck(raw, serial), AlertPublished(s.login.value, fix, code));
      }
    case _ => BooksAfter(s.log, Handled(p));
  }

  lemma AlarmBooks(log: seq<Event>, p: Packet, ack: seq<byte>, alert: Event)
    requires p.Alarm?
    ensures BooksOf(log + [Handled(p), Sent(ack), alert]) ==
      After(After(BooksOf(log), Handled(p), LastLogin(log)), alert, LastLogin(log))
  {
    hide BooksOf, LastLogin, After;
    BooksAfter(log, Handled(p));
    BooksAfterTwo(log + [Handled(p)], Sent(ack), alert);
    assert log + [Handled(p)] + [Sent(ack), alert] == log + [Handled(p), Sent(ack), alert];
    SentChangesNothing(After(BooksOf(log), Handled(p), LastLogin(log)), ack, LastLogin(log));
  }

  lemma SentChangesNothing(b: Books, ack: seq<byte>, login: Option<Imei>)
    ensures After(b, Sent(ack), login) == b
  {
  }

  // ----- Every step -----

  /** A handler that waits for its alert is at an alarm, under a login. */
  predicate AlertsUnderLogin(s: State) {
    forall i | 0 <= i < |s.tasks| && s.tasks[i].stage == AlertSent ::
      s.tasks[i].queue != [] && s.tasks[i].queue[0].Alarm? && s.login.Some?
  }

  /** What one step adds: alerts as due, positions published or lost for those due, the invalid, and the raw copy. */
  ghost predicate StepSettles(s: State, a: Action, t: State) {
    var b, c := BooksOf(s.log), BooksOf(t.log);
    && (b.alerts == b.alertsDue ==> c.alerts == c.alertsDue)
    && (b.fixes + Owing(s.tasks) + c.fixesDue == c.fixes + Owing(t.tasks) + Lost(s, a) + b.fixesDue)
    && t.invalid - s.invalid == c.dropped - b.dropped + (if Fails(s, a) then 1 else 0)
    && c.raw == b.raw + RawFor(s, a)
    && AlertsUnderLogin(t) && (s.login.Some? ==> t.login.Some?)
  }

  lemma {:induction false} OwingAt(tasks: seq<Task>, i: nat, t: Task)
    requires i < |tasks|
    ensures Owing(tasks[i := t]) + OwedBy(tasks[i]) == Owing(tasks) + OwedBy(t)
  {
    hide OwedBy;
    var front := tasks[..|tasks| - 1];
    if i == |tasks| - 1 {
      assert tasks[i := t][..i] == front;
    } else {
      OwingAt(front, i, t);
      assert tasks[i := t][..|tasks| - 1] == front[i := t];
      SumBoth(Owing(front[i := t]), OwedBy(tasks[i]), Owing(front), OwedBy(t), OwedBy(tasks[|tasks| - 1]));
    }
  }

  lemma SumBoth(a: multiset<Fix>, b: multiset<Fix>, c: multiset<Fix>, d: multiset<Fix>, m: multiset<Fix>)
    requires a + b == c + d
    ensures a + m + b == c + m + d
  {
    assert a + m + b == a + b + m;
    assert c + m + d == c + d + m;
  }

  /** A step of handler i, by what it does to its own books. */
  lemma Balanced(before: multiset<Fix>, after: multiset<Fix>, was: multiset<Fix>, now: multiset<Fix>,
                 fixes: multiset<Fix>, fixes': multiset<Fix>, due: multiset<Fix>, due': multiset<Fix>,
                 lost: multiset<Fix>)
    requires after + was == before + now
    requires fixes + was + due' == fixes' + now + lost + due
    ensures fixes + before + due' == fixes' + after + lost + due
  {
    forall f: Fix
      ensures (fixes + before + due')[f] == (fixes' + after + lost + due)[f]
    {
      assert (after + was)[f] == (before + now)[f];
      assert (fixes + was + due')[f] == (fixes' + now + lost + due)[f];
    }
  }

  lemma SwitchSettles(s: State, i: nat, a: Action, begun: State)
    requires i < |s.tasks| && s.tasks[i].queue != [] && LastLogin(s.log) == s.login && AlertsUnderLogin(s)
    requires a.Advance? && a.i == i && s.tasks[i].stage in {Idle, RawSent} && RawFor(s, a) == []
    requires begun == s.(received := begun.received)
    ensures StepSettles(s, a, Switch(begun, i))
  {
    hide BooksOf, Switch, Settles, AlertFor, FixFor, Dropped, LastLogin, Owing, RawFor;
    SwitchBooks(begun, i);
    var t, p := Switch(begun, i), s.tasks[i].queue[0];
    assert Settles(BooksOf(s.log), BooksOf(t.log), p, s.login, t.tasks[i], t.invalid - s.invalid);
    OwingAt(s.tasks, i, t.tasks[i]);
    SettlesFixes(BooksOf(s.log), BooksOf(t.log), p, s.login, t.tasks[i], t.invalid - s.invalid);
    assert OwedBy(s.tasks[i]) == multiset{} == Lost(s, a);
    WithNone(BooksOf(s.log).fixes, BooksOf(t.log).fixesDue,
             BooksOf(t.log).fixes + OwedBy(t.tasks[i]), BooksOf(s.log).fixesDue);
    Balanced(Owing(s.tasks), Owing(t.tasks), OwedBy(s.tasks[i]), OwedBy(t.tasks[i]), BooksOf(s.log).fixes,
             BooksOf(t.log).fixes, BooksOf(s.log).fixesDue, BooksOf(t.log).fixesDue, Lost(s, a));
  }

  lemma SettlesFixes(b: Books, c: Books, p: Packet, login: Option<Imei>, after: Task, more: int)
    requires Settles(b, c, p, login, after, more)
    ensures b.fixes + c.fixesDue == c.fixes + OwedBy(after) + b.fixesDue
    ensures b.alerts == b.alertsDue ==> c.alerts == c.alertsDue
    ensures c.dropped == b.dropped + more && c.raw == b.raw
  {
    hide AlertFor, FixFor, OwedBy;
  }

  lemma WithNone(a: multiset<Fix>, b: multiset<Fix>, c: multiset<Fix>, d: multiset<Fix>)
    requires a + b == c + d
    ensures a + multiset{} + b == c + multiset{} + d
  {
    assert a + multiset{} == a && c + multiset{} == c;
  }

  /** A handler that is through with a packet whose publication was awaited. */
  lemma EndSettles(s: State, a: Action, good: bool)
    requires Enabled(s, a) && a.Advance? && AlertsUnderLogin(s) && s.tasks[a.i].queue != []
    requires s.tasks[a.i].stage in {LocationSent, AlertSent, AlarmLocationSent} && good == a.ok
    requires a.ok ==> OwedBy(s.tasks[a.i]) == multiset{}
    ensures StepSettles(s, a, Finish(s, a.i, good, []))
  {
    hide BooksOf, Owing, Publishable;
    var i, t, task := a.i, Finish(s, a.i, good, []), s.tasks[a.i];
    OwingAt(s.tasks, i, t.tasks[i]);
    assert s.log + [] == s.log;
    var b := BooksOf(s.log);
    assert t.log == s.log && BooksOf(t.log) == b;
    assert RawFor(s, a) == [] && b.raw + [] == b.raw;
    assert OwedBy(t.tasks[i]) == multiset{} && Lost(s, a) == OwedBy(task);
    assert b.fixes + OwedBy(task) + b.fixesDue == b.fixes + multiset{} + OwedBy(task) + b.fixesDue;
    Balanced(Owing(s.tasks), Owing(t.tasks), OwedBy(task), OwedBy(t.tasks[i]), b.fixes, b.fixes, b.fixesDue, b.fixesDue,
             Lost(s, a));
  }

  /** An alarm's alert has been published, and its position is next. */
  lemma PositionSettles(s: State, a: Action)
    requires Enabled(s, a) && a.Advance? && a.ok && AlertsUnderLogin(s) && LastLogin(s.log) == s.login
    requires s.tasks[a.i].stage == AlertSent && Publishable(s.tasks[a.i].queue[0].fix)
    ensures var e := LocationPublished(s.login.value, s.tasks[a.i].queue[0].fix);
      StepSettles(s, a, Stop(s, a.i, AlarmLocationSent, [e]))
  {
    hide BooksOf, LastLogin, Owing, Publishable;
    var i, task := a.i, s.tasks[a.i];
    var e := LocationPublished(s.login.value, task.queue[0].fix);
    var t := Stop(s, i, AlarmLocationSent, [e]);
    OwingAt(s.tasks, i, t.tasks[i]);
    BooksAfter(s.log, e);
    var b, c := BooksOf(s.log), BooksOf(t.log);
    assert OwedBy(t.tasks[i]) == multiset{} == Lost(s, a) && OwedBy(task) == multiset{task.queue[0].fix};
    assert b.fixes + OwedBy(task) + c.fixesDue == c.fixes + multiset{} + multiset{} + b.fixesDue;
    Balanced(Owing(s.tasks), Owing(t.tasks), OwedBy(task), OwedBy(t.tasks[i]), b.fixes, c.fixes, b.fixesDue, c.fixesDue,
             Lost(s, a));
  }

  /** The other stages: one event at most, and no packet handled. */
  lemma MoveSettles(s: State, a: Action)
    requires Enabled(s, a) && a.Advance? && AlertsUnderLogin(s) && LastLogin(s.log) == s.login
    requires s.tasks[a.i].stage in {LocationSent, AlertSent, AlarmLocationSent}
    ensures StepSettles(s, a, Act(s, a))
  {
    hide StepSettles, LastLogin, InRange, Publishable, Stop, Finish;
    var task := s.tasks[a.i];
    PublishableOf(task.queue[0]);
    if task.stage == AlertSent && a.ok && Publishable(task.queue[0].fix) {
      PositionSettles(s, a);
    } else {
      EndSettles(s, a, a.ok);
    }
  }

  lemma PublishableOf(p: Packet)
    ensures p.Alarm? || p.Location? ==> (Publishable(p.fix) <==> p.fix.Valid() && InRange(p.fix))
  {
    if p.Alarm? || p.Location? {
      PublishableIs(p.fix);
    }
  }

  lemma BeginSettles(s: State, a: Action)
    requires Enabled(s, a) && a.Advance? && AlertsUnderLogin(s) && LastLogin(s.log) == s.login
    requires s.tasks[a.i].stage == Idle
    ensures StepSettles(s, a, Act(s, a))
  {
    hide BooksOf, LastLogin, Owing, Switch, PacketImei;
    var i, t, task := a.i, Act(s, a), s.tasks[a.i];
    if task.queue != [] {
      var begun := s.(received := s.received + 1);
      if RawFor(s, a) == [] {
        SwitchSettles(s, i, a, begun);
      } else {
        var e := RawFor(s, a)[0];
        BooksAfter(s.log, e);
        OwingAt(s.tasks, i, t.tasks[i]);
        assert t.log == s.log + [e];
        Balanced(Owing(s.tasks), Owing(t.tasks), OwedBy(task), OwedBy(t.tasks[i]), BooksOf(s.log).fixes,
                 BooksOf(t.log).fixes, BooksOf(s.log).fixesDue, BooksOf(t.log).fixesDue, Lost(s, a));
      }
    }
  }

  lemma DataSettles(s: State, chunk: seq<byte>)
    requires AlertsUnderLogin(s)
    ensures StepSettles(s, Data(chunk), Act(s, Data(chunk)))
  {
    hide BooksOf, ConcoxStream.OnData, PacketsOf;
    var t := Act(s, Data(chunk));
    assert t.tasks[..|s.tasks|] == s.tasks;
  }

  lemma ActSettles(s: State, a: Action)
    requires Enabled(s, a) && AlertsUnderLogin(s) && LastLogin(s.log) == s.login
    ensures StepSettles(s, a, Act(s, a))
  {
    hide StepSettles, Switch, LastLogin, AlertsUnderLogin;
    match a
    case Data(chunk) => DataSettles(s, chunk);
    case Advance(i, ok) =>
      if s.tasks[i].stage == Idle {
        BeginSettles(s, a);
      } else if s.tasks[i].stage == RawSent {
        SwitchSettles(s, i, a, s);
      } else {
        MoveSettles(s, a);
      }
  }

  // ----- Main results -----

  lemma {:induction false} RunSettles(actions: seq<Action>)
    ensures var s := Run(actions);
      && AlertsUnderLogin(s) && Alerts(s.log) == AlertsDue(s.log)
      && Fixes(s.log) + Owing(s.tasks) + LostIn(actions) == FixesDue(s.log)
      && s.invalid == DroppedIn(s.log) + FailuresIn(actions)
      && RawCopies(s.log) == RawDue(actions)
  {
    hide Act, Enabled, Alerts, AlertsDue, Fixes, FixesDue, DroppedIn, RawCopies, Owing, Lost, Fails, RawFor, Inv;
    if actions == [] {
      StartSettles(CONNECTED);
    } else {
      var before, a := actions[..|actions| - 1], actions[|actions| - 1];
      var s := Run(before);
      RunSettles(before);
      RunKeeps(before);
      LoginOf(s);
      if Enabled(s, a) {
        ActSettles(s, a);
        Carry(s, a, Act(s, a), LostIn(before));
      } else {
        NotEnabled(s, a);
      }
    }
  }

  lemma StartSettles(s: State)
    requires s.tasks == [] && s.log == []
    ensures AlertsUnderLogin(s) && Alerts(s.log) == AlertsDue(s.log) == RawCopies(s.log) == []
    ensures Fixes(s.log) + Owing(s.tasks) + multiset{} == FixesDue(s.log) && DroppedIn(s.log) == 0
  {
  }

  lemma LoginOf(s: State)
    requires Inv(s)
    ensures LastLogin(s.log) == s.login && forall i | 0 <= i < |s.tasks| :: TaskOk(s.tasks[i])
  {
  }

  lemma NotEnabled(s: State, a: Action)
    requires !Enabled(s, a) && forall i | 0 <= i < |s.tasks| :: TaskOk(s.tasks[i])
    ensures Lost(s, a) == multiset{} && !Fails(s, a) && RawFor(s, a) == []
  {
  }

  lemma Carry(s: State, a: Action, t: State, lost: multiset<Fix>)
    requires StepSettles(s, a, t) && Fixes(s.log) + Owing(s.tasks) + lost == FixesDue(s.log)
    ensures Fixes(t.log) + Owing(t.tasks) + (lost + Lost(s, a)) == FixesDue(t.log)
  {
    hide Fixes, FixesDue, Owing, Lost, Alerts, AlertsDue, DroppedIn, RawCopies;
    forall f: Fix
      ensures (Fixes(t.log) + Owing(t.tasks) + (lost + Lost(s, a)))[f] == FixesDue(t.log)[f]
    {
      assert (Fixes(s.log) + Owing(s.tasks) + lost)[f] == FixesDue(s.log)[f];
      assert (Fixes(s.log) + Owing(s.tasks) + FixesDue(t.log))[f]
        == (Fixes(t.log) + Owing(t.tasks) + Lost(s, a) + FixesDue(s.log))[f];
    }
  }

  // ----- At once, and to the end -----

  /** What follows in the log when a packet has been handled. */
  predicate Prompt(log: seq<Event>, k: nat)
    requires k < |log|
  {
    log[k].Handled? ==>
      var p, login := log[k].packet, LastLogin(log[..k]);
      && (p.Location? && login.Some? && Publishable(p.fix) ==>
          k + 1 < |log| && log[k + 1] == LocationPublished(login.value, p.fix))
      && (p.Alarm? && login.Some? ==>
          k + 2 < |log| && log[k + 2] == AlertPublished(login.value, p.fix, p.code))
  }

  ghost predicate AllPrompt(log: seq<Event>) {
    forall k | 0 <= k < |log| :: Prompt(log, k)
  }

  lemma PromptMore(log: seq<Event>, events: seq<Event>)
    requires AllPrompt(log) && forall k | 0 <= k < |events| :: events[k].Handled? ==> k == 0
    requires events != [] ==> Prompt(log + events, |log|)
    ensures AllPrompt(log + events)
  {
    hide LastLogin, Publishable;
    var more := log + events;
    forall k | 0 <= k < |more|
      ensures Prompt(more, k)
    {
      if k < |log| {
        assert Prompt(log, k) && more[..k] == log[..k];
      } else if k > |log| {
        assert more[k] == events[k - |log|];
      }
    }
  }

  lemma SwitchPrompt(s: State, i: nat)
    requires i < |s.tasks| && s.tasks[i].queue != [] && LastLogin(s.log) == s.login && AllPrompt(s.log)
    ensures AllPrompt(Switch(s, i).log)
  {
    hide LastLogin, AllPrompt, InRange, Publishable, ConcoxCodec.BuildAck;
    var t := Switch(s, i);
    var events := SwitchEvents(s, i);
    PublishableOf(Current(s, i));
    assert t.log[..|s.log|] == s.log && t.log[|s.log|] == events[0];
    PromptMore(s.log, events);
  }

  lemma ActPrompt(s: State, a: Action)
    requires Enabled(s, a) && LastLogin(s.log) == s.login && AllPrompt(s.log)
    ensures AllPrompt(Act(s, a).log)
  {
    hide LastLogin, AllPrompt, InRange, Switch, PacketImei, ConcoxStream.OnData, PacketsOf;
    if a.Advance? && s.tasks[a.i].stage == RawSent {
      SwitchPrompt(s, a.i);
    } else if a.Advance? && s.tasks[a.i].stage == Idle && s.tasks[a.i].queue != [] && RawFor(s, a) == [] {
      SwitchPrompt(s.(received := s.received + 1), a.i);
    } else {
      var events := Act(s, a).log[|s.log|..];
      assert Act(s, a).log == s.log + events;
      NothingHandled(s, a, events);
      PromptMore(s.log, events);
    }
  }

  lemma NothingHandled(s: State, a: Action, events: seq<Event>)
    requires Enabled(s, a) && Act(s, a).log == s.log + events
    requires a.Advance? ==> s.tasks[a.i].stage != RawSent
    requires a.Advance? && s.tasks[a.i].stage == Idle && s.tasks[a.i].queue != [] ==> RawFor(s, a) != []
    ensures forall k | 0 <= k < |events| :: !events[k].Handled?
    ensures events != [] ==> Prompt(s.log + events, |s.log|)
  {
    hide LastLogin, InRange, Switch, PacketImei, ConcoxStream.OnData, PacketsOf, Prompt;
    assert Act(s, a).log[|s.log|..] == events;
    if events != [] {
      PromptOther(s.log, events);
    }
  }

  lemma PromptOther(log: seq<Event>, events: seq<Event>)
    requires events != [] && !events[0].Handled?
    ensures Prompt(log + events, |log|)
  {
    hide LastLogin;
  }

  lemma {:induction false} RunPrompt(actions: seq<Action>)
    ensures AllPrompt(Run(actions).log)
  {
    hide Act, Enabled, Inv, Prompt;
    if actions != [] {
      var before, a := actions[..|actions| - 1], actions[|actions| - 1];
      RunPrompt(before);
      RunKeeps(before);
      LoginOf(Run(before));
      if Enabled(Run(before), a) {
        ActPrompt(Run(before), a);
      }
    }
  }

  /** A position goes out the moment its location is handled, and an alert right after its acknowledgement. */
  lemma PublishedAtOnce(actions: seq<Action>, k: nat)
    requires k < |Run(actions).log|
    ensures Prompt(Run(actions).log, k)
  {
    hide Prompt;
    RunPrompt(actions);
  }

  /** The awaits a handler has yet to pass, at most. */
  function WorkLeft(t: Task): nat {
    if t.queue == [] then 0
    else
      5 * |t.queue| - (match t.stage case Idle => 0 case RawSent => 1 case LocationSent => 2 case AlertSent => 2
                                     case AlarmLocationSent => 3)
  }

  /** Every answer brings a handler nearer to its end, whatever the answer. */
  lemma HandlersAdvance(s: State, i: nat, ok: bool)
    requires Enabled(s, Advance(i, ok)) && s.tasks[i].queue != []
    ensures var t := Act(s, Advance(i, ok));
      |t.tasks| == |s.tasks| && t.tasks == s.tasks[i := t.tasks[i]] && WorkLeft(t.tasks[i]) < WorkLeft(s.tasks[i])
  {
    hide ConcoxCodec.BuildAck, InRange, PacketImei;
  }

  /** Each alarm handled after a login gives one alert, with its own position and code, under the last login. */
  lemma OneAlertEach(actions: seq<Action>)
    ensures Alerts(Run(actions).log) == AlertsDue(Run(actions).log)
  {
    RunSettles(actions);
  }

  /**
   Each location handled after a login with a position to publish, and each such alarm, has its position published,
   once, except that an alarm's waits for its alert and is lost if that fails; no other position is published.
   */
  lemma PositionsConserved(actions: seq<Action>)
    ensures var s := Run(actions); Fixes(s.log) + Owing(s.tasks) + LostIn(actions) == FixesDue(s.log)
  {
    RunSettles(actions);
  }

  /** Invalid packets are those that are dropped, and those whose publication fails. */
  lemma InvalidAreDroppedOrFailed(actions: seq<Action>)
    ensures var s := Run(actions); s.invalid == DroppedIn(s.log) + FailuresIn(actions)
  {
    RunSettles(actions);
  }

  /** Raw copies go out when a packet is begun, under its own IMEI or else the session's, and only then. */
  lemma RawCopiesAsDue(actions: seq<Action>)
    ensures RawCopies(Run(actions).log) == RawDue(actions)
  {
    RunSettles(actions);
  }
}
