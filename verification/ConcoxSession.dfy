/**
 One Concox socket as a state machine: each data event starts a handler that takes its packets one by one and stops at
 every await, so handlers of several events overlap; and what the log of such a socket must look like.
 */
module ConcoxSession {
  import opened Bytes
  import opened Wrappers
  import opened ConcoxFraming
  import opened ConcoxPackets
  import ConcoxCodec
  import ConcoxParser
  import ConcoxStream

  // ----- The synchronous part of the data handler -----

  class Connection {
    var buffer: seq<byte>
    var sessionImei: Option<Imei>

    constructor ()
      ensures buffer == [] && sessionImei.None?
    {
      buffer := [];
      sessionImei := None;
    }

    method OnData(chunk: seq<byte>) returns (packets: seq<Packet>)
      modifies this`buffer
      ensures var cut := ConcoxStream.OnData(old(buffer), chunk);
        buffer == cut.remainder && packets == PacketsOf(cut.pieces, sessionImei)
    {
      buffer := buffer + chunk;
      if |buffer| > ConcoxStream.BUFFER_LIMIT {
        buffer := [];
        return [];
      }
      var remainder;
      packets, remainder := ConcoxParser.ParseConcoxBuffer(buffer, sessionImei);
      buffer := remainder;
    }
  }

  // ----- Handlers -----

  /** The await a handler is stopped at, while it processes the first packet of its queue. */
  datatype Stage = Idle | RawSent | LocationSent | AlertSent | AlarmLocationSent

  datatype Task = Task(queue: seq<Packet>, stage: Stage)

  predicate TaskOk(t: Task) {
    t.stage != Idle ==> t.queue != []
  }

  /** What a socket does, in order. */
  datatype Event =
    | Handled(packet: Packet)
    | Sent(ack: seq<byte>)
    | RawPublished(imei: Imei, packet: Packet)
    | LocationPublished(imei: Imei, fix: Fix)
    | AlertPublished(imei: Imei, fix: Fix, code: byte)

  datatype State = State(
    buffer: seq<byte>, login: Option<Imei>, tasks: seq<Task>, log: seq<Event>,
    received: nat, parsed: nat, invalid: nat)

  const CONNECTED := State([], None, [], [], 0, 0, 0)

  /** A data event, or a step of handler i to its next await; ok says whether the awaited call succeeded. */
  datatype Action = Data(chunk: seq<byte>) | Advance(i: nat, ok: bool)

  predicate InRange(fix: Fix) {
    -90.0 <= fix.lat <= 90.0 && -180.0 <= fix.lng <= 180.0
  }

  /** The IMEI the parser put into a packet. */
  function PacketImei(p: Packet): Option<Imei> {
    match p
    case Login(imei, _, _, _) => Some(imei)
    case AsciiMessage(_) => None
    case _ => p.session
  }

  function Current(s: State, i: nat): Packet
    requires i < |s.tasks| && s.tasks[i].queue != []
  {
    s.tasks[i].queue[0]
  }

  /** Handler i stops at an await after doing something. */
  function Stop(s: State, i: nat, at: Stage, events: seq<Event>): State
    requires i < |s.tasks|
  {
    s.(tasks := s.tasks[i := s.tasks[i].(stage := at)], log := s.log + events)
  }

  /** Handler i is through with its packet. */
  function Finish(s: State, i: nat, good: bool, events: seq<Event>): State
    requires i < |s.tasks| && s.tasks[i].queue != []
  {
    var t := s.(tasks := s.tasks[i := Task(s.tasks[i].queue[1..], Idle)], log := s.log + events);
    if good then t.(parsed := t.parsed + 1) else t.(invalid := t.invalid + 1)
  }

  /** The switch on the packet type, up to the next await. */
  function Switch(s: State, i: nat): State
    requires i < |s.tasks| && s.tasks[i].queue != []
  {
    var p := Current(s, i);
    match p
    case Login(imei, _, _, serial) =>
      Finish(s.(login := Some(imei)), i, true, [Handled(p), Sent(ConcoxCodec.BuildAck(0x01, serial))])
    case Heartbeat(_, _, _, _, _, serial, raw) =>
      Finish(s, i, true, [Handled(p), Sent(ConcoxCodec.BuildAck(raw, serial))])
    case Location(_, fix, _, _, _, _, _) =>
      if s.login.None? || !fix.Valid() || !InRange(fix) then Finish(s, i, false, [Handled(p)])
      else Stop(s, i, LocationSent, [Handled(p), LocationPublished(s.login.value, fix)])
    case Alarm(_, _, code, fix, _, _, _, _, _, serial, raw) =>
      if s.login.None? then Finish(s, i, false, [Handled(p)])
      else Stop(s, i, AlertSent, [Handled(p), Sent(ConcoxCodec.BuildAck(raw, serial)),
                                  AlertPublished(s.login.value, fix, code)])
    case _ => Finish(s, i, true, [Handled(p)])
  }

  function Resume(s: State, i: nat, ok: bool): State
    requires i < |s.tasks| && TaskOk(s.tasks[i])
  {
    var t := s.tasks[i];
    match t.stage
    case Idle =>
      if t.queue == [] then s
      else
        var begun := s.(received := s.received + 1);
        var imei := if PacketImei(t.queue[0]).Some? then PacketImei(t.queue[0]) else s.login;
        if imei.Some? then Stop(begun, i, RawSent, [RawPublished(imei.value, t.queue[0])]) else Switch(begun, i)
    case RawSent => Switch(s, i)
    case LocationSent => Finish(s, i, ok, [])
    case AlertSent =>
      if !ok then Finish(s, i, false, [])
      else
        var p := Current(s, i);
        if p.Alarm? && s.login.Some? && p.fix.Valid() && InRange(p.fix)
        then Stop(s, i, AlarmLocationSent, [LocationPublished(s.login.value, p.fix)])
        else Finish(s, i, true, [])
    case AlarmLocationSent => Finish(s, i, ok, [])
  }

  predicate Enabled(s: State, a: Action) {
    a.Advance? ==> a.i < |s.tasks| && TaskOk(s.tasks[a.i])
  }

  function Act(s: State, a: Action): State
    requires Enabled(s, a)
  {
    match a
    case Data(chunk) =>
      var cut := ConcoxStream.OnData(s.buffer, chunk);
      s.(buffer := cut.remainder, tasks := s.tasks + [Task(PacketsOf(cut.pieces, s.login), Idle)])
    case Advance(i, ok) => Resume(s, i, ok)
  }

  /** The states of a run from a connection's start; an action that is not enabled does nothing. */
  function Run(actions: seq<Action>): State {
    if actions == [] then CONNECTED
    else
      var s, a := Run(actions[..|actions| - 1]), actions[|actions| - 1];
      if Enabled(s, a) then Act(s, a) else s
  }

  // ----- What the log must look like -----

  /** The IMEI of the last login handled. */
  function LastLogin(log: seq<Event>): Option<Imei> {
    if log == [] then None
    else
      var e := log[|log| - 1];
      if e.Handled? && e.packet.Login? then Some(e.packet.imei) else LastLogin(log[..|log| - 1])
  }

  /** The IMEIs of all logins handled. */
  function Logins(log: seq<Event>): set<Imei> {
    if log == [] then {}
    else
      var e := log[|log| - 1];
      Logins(log[..|log| - 1]) + (if e.Handled? && e.packet.Login? then {e.packet.imei} else {})
  }

  /**
   A location or alert goes out under the last login before it, a location only within range; a raw copy of a packet
   under some login before it, or its own.
   */
  predicate Proper(before: seq<Event>, e: Event) {
    match e
    case LocationPublished(imei, fix) => LastLogin(before) == Some(imei) && InRange(fix) && fix.Valid()
    case AlertPublished(imei, _, _) => LastLogin(before) == Some(imei)
    case RawPublished(imei, packet) => imei in Logins(before) || (packet.Login? && packet.imei == imei)
    case _ => true
  }

  predicate AllProper(log: seq<Event>) {
    forall k | 0 <= k < |log| :: Proper(log[..k], log[k])
  }

  function Acks(log: seq<Event>): seq<seq<byte>> {
    if log == [] then []
    else
      var e := log[|log| - 1];
      Acks(log[..|log| - 1]) + (if e.Sent? then [e.ack] else [])
  }

  /** The acknowledgement a packet calls for: protocol number and serial to echo. */
  function Owed(p: Packet, loggedIn: bool): Option<(byte, word)> {
    match p
    case Login(_, _, _, serial) => Some((0x01, serial))
    case Heartbeat(_, _, _, _, _, serial, raw) => Some((raw, serial))
    case Alarm(_, _, _, _, _, _, _, _, _, serial, raw) => if loggedIn then Some((raw, serial)) else None
    case _ => None
  }

  /** The acknowledgements that the handled packets call for, in order. */
  function Due(log: seq<Event>): seq<(byte, word)> {
    if log == [] then []
    else
      var before, e := log[..|log| - 1], log[|log| - 1];
      Due(before) +
      (if e.Handled? && Owed(e.packet, LastLogin(before).Some?).Some?
       then [Owed(e.packet, LastLogin(before).Some?).value] else [])
  }

  /** Frame by frame, the acknowledgements sent are well formed, empty of content, and echo what is due. */
  predicate Echoes(acks: seq<seq<byte>>, due: seq<(byte, word)>) {
    && |acks| == |due|
    && forall k | 0 <= k < |acks| ::
      WellFormed(acks[k]) && Protocol(acks[k]) == due[k].0 && Info(acks[k]) == [] && Serial(acks[k]) == due[k].1
  }

  function HandledIn(log: seq<Event>): multiset<Packet> {
    if log == [] then multiset{}
    else
      var e := log[|log| - 1];
      HandledIn(log[..|log| - 1]) + (if e.Handled? then multiset{e.packet} else multiset{})
  }

  /** The packets of a handler that have not come to the switch. */
  function ToHandle(t: Task): seq<Packet> {
    if t.stage == Idle || t.stage == RawSent || t.queue == [] then t.queue else t.queue[1..]
  }

  function Waiting(tasks: seq<Task>): multiset<Packet> {
    if tasks == [] then multiset{} else Waiting(tasks[..|tasks| - 1]) + multiset(ToHandle(tasks[|tasks| - 1]))
  }

  function InProgress(tasks: seq<Task>): nat {
    if tasks == [] then 0
    else InProgress(tasks[..|tasks| - 1]) + (if tasks[|tasks| - 1].stage == Idle then 0 else 1)
  }

  /** All packets the data events of a run brought, in order. */
  function Arrived(actions: seq<Action>): seq<Packet> {
    if actions == [] then []
    else
      var before, a := actions[..|actions| - 1], actions[|actions| - 1];
      var s := Run(before);
      Arrived(before) +
      (if a.Data? then PacketsOf(ConcoxStream.OnData(s.buffer, a.chunk).pieces, s.login) else [])
  }

  /** All chunks a run received. */
  function Chunks(actions: seq<Action>): seq<seq<byte>> {
    if actions == [] then []
    else
      var a := actions[|actions| - 1];
      Chunks(actions[..|actions| - 1]) + (if a.Data? then [a.chunk] else [])
  }

  /** A packet apart from the IMEI that the session had when it was parsed. */
  function Bare(p: Packet): Packet {
    match p
    case Heartbeat(_, ignition, battery, signal, language, serial, raw) =>
      Heartbeat(None, ignition, battery, signal, language, serial, raw)
    case Location(_, fix, ignition, live, odometer, serial, raw) =>
      Location(None, fix, ignition, live, odometer, serial, raw)
    case Alarm(_, multi, code, fix, ignition, fence, odometer, battery, signal, serial, raw) =>
      Alarm(None, multi, code, fix, ignition, fence, odometer, battery, signal, serial, raw)
    case Information(_, fields, serial) => Information(None, fields, serial)
    case TimeCheck(_, serial) => TimeCheck(None, serial)
    case CommandResponse(_, serial) => CommandResponse(None, serial)
    case OnlineCommand(_, serial) => OnlineCommand(None, serial)
    case _ => p
  }

  function AllBare(ps: seq<Packet>): (bare: seq<Packet>)
    ensures |bare| == |ps|
  {
    seq(|ps|, i requires 0 <= i < |ps| => Bare(ps[i]))
  }
}
