/** What a socket does to its log: every step of a handler keeps it in order. */
module ConcoxSessionLog {
  import opened Bytes
  import opened Wrappers
  import opened ConcoxFraming
  import opened ConcoxPackets
  import ConcoxCodec
  import opened ConcoxSession

  // ----- The invariant -----

  predicate LogOk(log: seq<Event>, login: Option<Imei>) {
    LastLogin(log) == login && AllProper(log) && Echoes(Acks(log), Due(log))
  }

  /** A packet was parsed under a login that has been handled, or is one. */
  predicate Known(p: Packet, log: seq<Event>) {
    PacketImei(p).Some? ==> p.Login? || PacketImei(p).value in Logins(log)
  }

  predicate TasksOk(s: State) {
    && (forall i | 0 <= i < |s.tasks| :: TaskOk(s.tasks[i]))
    && (forall i, p | 0 <= i < |s.tasks| && p in s.tasks[i].queue :: Known(p, s.log))
  }

  predicate Counted(s: State) {
    s.received == s.parsed + s.invalid + InProgress(s.tasks)
  }

  predicate Inv(s: State) {
    LogOk(s.log, s.login) && TasksOk(s) && Counted(s)
  }

  // ----- The log -----

  lemma Append(log: seq<Event>, e: Event)
    ensures LastLogin(log + [e]) == if e.Handled? && e.packet.Login? then Some(e.packet.imei) else LastLogin(log)
    ensures Logins(log) <= Logins(log + [e])
    ensures Acks(log + [e]) == Acks(log) + if e.Sent? then [e.ack] else []
    ensures Due(log + [e]) == Due(log) +
      if e.Handled? && Owed(e.packet, LastLogin(log).Some?).Some?
      then [Owed(e.packet, LastLogin(log).Some?).value] else []
    ensures AllProper(log + [e]) <==> AllProper(log) && Proper(log, e)
  {
    hide Owed, Proper;
    var more := log + [e];
    assert more[..|more| - 1] == log;
    assert forall k | 0 <= k < |log| :: more[..k] == log[..k];
    if AllProper(more) {
      forall k | 0 <= k < |log|
        ensures Proper(log[..k], log[k])
      {
        assert Proper(more[..k], more[k]);
      }
      assert Proper(more[..|log|], more[|log|]);
    }
  }

  lemma {:induction false} LastLoginIsOne(log: seq<Event>)
    ensures LastLogin(log).Some? ==> LastLogin(log).value in Logins(log)
  {
    if log != [] {
      LastLoginIsOne(log[..|log| - 1]);
    }
  }

  lemma EchoesMore(acks: seq<seq<byte>>, due: seq<(byte, word)>, protocol: byte, serial: word)
    requires Echoes(acks, due)
    ensures Echoes(acks + [ConcoxCodec.BuildAck(protocol, serial)], due + [(protocol, serial)])
  {
    hide WellFormed, Protocol, Info, Serial, ConcoxCodec.BuildAck;
    ConcoxCodec.AckIsFrame(protocol, serial);
  }

  /** Handling a packet that calls for no acknowledgement, and is not a login. */
  lemma LogHandled(log: seq<Event>, login: Option<Imei>, p: Packet)
    requires LogOk(log, login) && !p.Login? && Owed(p, login.Some?).None?
    ensures LogOk(log + [Handled(p)], login)
  {
    hide Acks, Due, LastLogin, AllProper, Echoes;
    Append(log, Handled(p));
    assert Acks(log) + [] == Acks(log) && Due(log) + [] == Due(log);
  }

  /** Handling a packet and sending the acknowledgement it calls for. */
  lemma LogAnswered(log: seq<Event>, login: Option<Imei>, p: Packet, protocol: byte, serial: word)
    requires LogOk(log, login) && Owed(p, login.Some?) == Some((protocol, serial))
    ensures LogOk(log + [Handled(p), Sent(ConcoxCodec.BuildAck(protocol, serial))],
                  if p.Login? then Some(p.imei) else login)
  {
    hide Acks, Due, LastLogin, AllProper, Echoes, Owed, ConcoxCodec.BuildAck;
    var ack := ConcoxCodec.BuildAck(protocol, serial);
    Append(log, Handled(p));
    Append(log + [Handled(p)], Sent(ack));
    assert log + [Handled(p), Sent(ack)] == log + [Handled(p)] + [Sent(ack)];
    assert Acks(log) + [] == Acks(log) && Due(log) + [(protocol, serial)] + [] == Due(log) + [(protocol, serial)];
    EchoesMore(Acks(log), Due(log), protocol, serial);
  }

  lemma LogPublished(log: seq<Event>, login: Option<Imei>, e: Event)
    requires LogOk(log, login) && !e.Handled? && !e.Sent? && Proper(log, e)
    ensures LogOk(log + [e], login)
  {
    hide Acks, Due, LastLogin, AllProper, Echoes, Proper;
    Append(log, e);
    assert Acks(log) + [] == Acks(log) && Due(log) + [] == Due(log);
  }

  lemma SwitchLog(s: State, i: nat)
    requires i < |s.tasks| && s.tasks[i].queue != [] && LogOk(s.log, s.login)
    ensures LogOk(Switch(s, i).log, Switch(s, i).login)
  {
    hide LogOk, ConcoxCodec.BuildAck, InRange;
    var p := Current(s, i);
    match p
    case Login(imei, _, _, serial) => LogAnswered(s.log, s.login, p, 0x01, serial);
    case Heartbeat(_, _, _, _, _, serial, raw) => LogAnswered(s.log, s.login, p, raw, serial);
    case Location(_, fix, _, _, _, _, _) =>
      LogHandled(s.log, s.login, p);
      if s.login.Some? && fix.Valid() && InRange(fix) {
        LogLocated(s.log, s.login, p);
      }
    case Alarm(_, _, _, _, _, _, _, _, _, _, _) =>
      if s.login.None? {
        LogHandled(s.log, s.login, p);
      } else {
        LogAlarmed(s.log, s.login, p);
      }
    case _ => LogHandled(s.log, s.login, p);
  }

  lemma LogLocated(log: seq<Event>, login: Option<Imei>, p: Packet)
    requires LogOk(log, login) && p.Location? && login.Some? && p.fix.Valid() && InRange(p.fix)
    ensures LogOk(log + [Handled(p), LocationPublished(login.value, p.fix)], login)
  {
    hide LogOk, InRange;
    var e := LocationPublished(login.value, p.fix);
    LogHandled(log, login, p);
    LoginIs(log + [Handled(p)], login);
    LogPublished(log + [Handled(p)], login, e);
    assert log + [Handled(p), e] == log + [Handled(p)] + [e];
  }

  lemma LogAlarmed(log: seq<Event>, login: Option<Imei>, p: Packet)
    requires LogOk(log, login) && p.Alarm? && login.Some?
    ensures LogOk(log + [Handled(p), Sent(ConcoxCodec.BuildAck(p.raw, p.serial)),
                         AlertPublished(login.value, p.fix, p.code)], login)
  {
    hide LogOk, ConcoxCodec.BuildAck;
    var ack, e := Sent(ConcoxCodec.BuildAck(p.raw, p.serial)), AlertPublished(login.value, p.fix, p.code);
    LogAnswered(log, login, p, p.raw, p.serial);
    LoginIs(log + [Handled(p), ack], login);
    LogPublished(log + [Handled(p), ack], login, e);
    assert log + [Handled(p), ack, e] == log + [Handled(p), ack] + [e];
  }

  lemma LoginIs(log: seq<Event>, login: Option<Imei>)
    requires LogOk(log, login)
    ensures LastLogin(log) == login
  {
  }

  lemma ResumeLog(s: State, i: nat, ok: bool)
    requires Enabled(s, Advance(i, ok)) && Inv(s)
    ensures LogOk(Resume(s, i, ok).log, Resume(s, i, ok).login)
  {
    hide LogOk, Switch, Logins;
    var t := s.tasks[i];
    LoginIs(s.log, s.login);
    LastLoginIsOne(s.log);
    assert s.log + [] == s.log;
    match t.stage
    case Idle =>
      if t.queue != [] {
        var begun := s.(received := s.received + 1);
        var imei := if PacketImei(t.queue[0]).Some? then PacketImei(t.queue[0]) else s.login;
        assert Known(t.queue[0], s.log);
        if imei.Some? {
          LogPublished(s.log, s.login, RawPublished(imei.value, t.queue[0]));
        } else {
          SwitchLog(begun, i);
        }
      }
    case RawSent => SwitchLog(s, i);
    case AlertSent =>
      var p := Current(s, i);
      if ok && p.Alarm? && s.login.Some? && p.fix.Valid() && InRange(p.fix) {
        LogPublished(s.log, s.login, LocationPublished(s.login.value, p.fix));
      }
    case _ =>
  }
}
