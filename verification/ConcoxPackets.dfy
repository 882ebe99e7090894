/** What parseConcoxBuffer reads out of a frame: the sub-parsers and the dispatch on the protocol number. */
module ConcoxPackets {
  import opened Bytes
  import opened Wrappers
  import opened Numbers
  import opened ConcoxFraming

  type Imei = string

  // ----- Frame fields -----

  function LengthFieldSize(f: seq<byte>): nat {
    if StartsExtended(f) then 2 else 1
  }

  /** Buffer.slice for non-negative bounds: empty when the end lies before the start. */
  function Slice(s: seq<byte>, start: nat, end: nat): seq<byte>
    requires end <= |s|
  {
    if start <= end then s[start..end] else []
  }

  function Protocol(f: seq<byte>): byte
    requires |f| >= 7
  {
    f[2 + LengthFieldSize(f)]
  }

  /** The bytes between protocol and serial; empty in a frame too short to have any. */
  function Info(f: seq<byte>): seq<byte>
    requires |f| >= 7
  {
    Slice(f, 3 + LengthFieldSize(f), |f| - 6)
  }

  function Serial(f: seq<byte>): word
    requires |f| >= 7
  {
    Word(f[|f| - 6], f[|f| - 5])
  }

  // ----- Packets -----

  datatype Fix = Fix(satellites: byte, lat: real, lng: real, speed: byte, heading: word, bit: bool, course: word) {
    /** 'A' or 'V': clones that never set the bit count as fixed once both coordinates are nonzero. */
    predicate Valid() {
      bit || (lat != 0.0 && lng != 0.0)
    }
  }

  datatype Field = Voltage(raw: word) | CardId(digits: seq<byte>) | FuelText(text: seq<byte>)

  datatype Packet =
    | Login(imei: Imei, model: word, timeZone: word, serial: word)
    | Heartbeat(session: Option<Imei>, ignition: bool, battery: int, signal: int,
                language: word, serial: word, raw: byte)
    | Location(session: Option<Imei>, fix: Fix, ignition: bool, live: bool,
               odometer: Option<int>, serial: word, raw: byte)
    | Alarm(session: Option<Imei>, multi: bool, code: byte, fix: Fix, ignition: bool, fence: Option<byte>,
            odometer: Option<int>, battery: int, signal: int, serial: word, raw: byte)
    | Information(session: Option<Imei>, fields: seq<Field>, serial: word)
    | TimeCheck(session: Option<Imei>, serial: word)
    | CommandResponse(session: Option<Imei>, serial: word)
    | OnlineCommand(session: Option<Imei>, serial: word)
    | AsciiMessage(text: seq<byte>)

  function UInt32(s: seq<byte>, i: nat): (n: nat)
    requires i + 4 <= |s|
  {
    s[i] as int * 0x1000000 + s[i + 1] as int * 0x10000 + s[i + 2] as int * 0x100 + s[i + 3] as int
  }

  /** Twelve bytes: satellites, latitude and longitude as unsigned 1/1800000 degrees, speed, course and flags. */
  function GpsBlock(s: seq<byte>, i: nat): Fix
    requires i + 12 <= |s|
  {
    var courseHigh := s[i + 10];
    var lat := UInt32(s, i + 1) as real / 1800000.0;
    var lng := UInt32(s, i + 5) as real / 1800000.0;
    Fix(s[i] & 0x0F,
        ToFixed(if courseHigh & 0x10 == 0 then -lat else lat, 10000000),
        ToFixed(if courseHigh & 0x20 != 0 then -lng else lng, 10000000),
        s[i + 9],
        Word(courseHigh & 0x03, s[i + 11]),
        courseHigh & 0x40 != 0,
        Word(courseHigh, s[i + 11]))
  }

  function BatteryPercent(level: byte): int {
    if level == 0 then 0 else if level == 1 then 10 else if level == 2 then 25 else if level == 3 then 40
    else if level == 4 then 60 else if level == 5 then 80 else if level == 6 then 100 else 50
  }

  function SignalPercent(level: byte): int {
    if level == 0 then 0 else if level == 1 then 25 else if level == 2 then 50
    else if level == 3 then 75 else if level == 4 then 100 else 50
  }

  // ----- IMEI -----

  function HexDigit(n: byte): char
    requires n < 16
  {
    "0123456789abcdef"[n as int]
  }

  function HexOf(s: seq<byte>): (hex: string)
    ensures |hex| == 2 * |s|
  {
    if s == [] then "" else HexOf(s[..|s| - 1]) + [HexDigit(s[|s| - 1] >> 4), HexDigit(s[|s| - 1] & 0x0F)]
  }

  function DropLeadingZero(hex: string): string {
    if |hex| > 0 && hex[0] == '0' then hex[1..] else hex
  }

  predicate Digits(s: string) {
    forall i | 0 <= i < |s| :: '0' <= s[i] <= '9'
  }

  method DecodeImei(buf: seq<byte>) returns (imei: Imei)
    requires |buf| == 8
    ensures imei == DropLeadingZero(HexOf(buf))
  {
    var hex := "";
    for i := 0 to 8
      invariant hex == HexOf(buf[..i])
    {
      assert buf[..i + 1][..i] == buf[..i];
      hex := hex + [HexDigit(buf[i] >> 4), HexDigit(buf[i] & 0x0F)];
    }
    assert buf[..8] == buf;
    imei := DropLeadingZero(hex);
  }

  // ----- Sub-parsers; None stands for a thrown error -----

  function ParseLogin(info: seq<byte>, serial: word): Option<Packet> {
    if |info| < 12 then None
    else
      var imei := DropLeadingZero(HexOf(info[..8]));
      if Digits(imei) && 14 <= |imei| <= 16
      then Some(Login(imei, Word(info[8], info[9]), Word(info[10], info[11]), serial))
      else None
  }

  function ParseHeartbeat(info: seq<byte>, serial: word, session: Option<Imei>, raw: byte): Option<Packet> {
    if raw == 0x23 then
      if |info| < 4 then None
      else
        Some(Heartbeat(session, info[0] & 0x08 != 0, 50, SignalPercent(info[1]), Word(info[2], info[3]), serial, raw))
    else
      if |info| < 5 then None
      else Some(Heartbeat(session, info[0] & 0x08 != 0, BatteryPercent(info[1]), SignalPercent(info[2]),
                          Word(info[3], info[4]), serial, raw))
  }

  function Kilometres(raw: nat): int {
    Round(raw as real / 1000.0)
  }

  function ParseLocation(info: seq<byte>, serial: word, session: Option<Imei>, raw: byte): Option<Packet> {
    if |info| < 29 then None
    else
      Some(Location(session, GpsBlock(info, 6), info[26] == 0x01, info[28] != 0x01,
                    if |info| >= 33 then Some(Kilometres(UInt32(info, 29))) else None, serial, raw))
  }

  /** The length guard says 26, but an alarm without its code byte (below 31) throws while its text is made. */
  function ParseAlarm(info: seq<byte>, serial: word, session: Option<Imei>, multi: bool, raw: byte): Option<Packet> {
    if |info| < 31 then None
    else
      var fence := if multi && |info| > 32 then Some(info[32]) else None;
      var odometer :=
        if multi then (if |info| > 33 then Some(info[33] as int) else None)
        else if |info| >= 36 then Some(Kilometres(UInt32(info, 32))) else None;
      Some(Alarm(session, multi, info[30], GpsBlock(info, 6), info[27] & 0x08 != 0, fence, odometer,
                 BatteryPercent(info[28]), SignalPercent(info[29]), serial, raw))
  }

  /** So an alarm of 26 to 30 bytes passes the guard and gives no packet; from 31 bytes on there always is one. */
  lemma AlarmNeedsItsCode(info: seq<byte>, serial: word, session: Option<Imei>, multi: bool, raw: byte)
    ensures ParseAlarm(info, serial, session, multi, raw).Some? <==> |info| >= 31
    ensures |info| >= 31 ==> ParseAlarm(info, serial, session, multi, raw).value.code == info[30]
  {
    hide GpsBlock;
  }

  /** Sub-fields of an information packet; an unknown or truncated one ends the list. */
  function Fields(info: seq<byte>): seq<Field> {
    if |info| == 0 then []
    else if info[0] == 0x00 && |info| >= 3 then [Voltage(Word(info[1], info[2]))] + Fields(info[3..])
    else if info[0] == 0x0A && |info| >= 11 then [CardId(info[1..11])] + Fields(info[11..])
    else if info[0] == 0x0D then [FuelText(info[1..])]
    else []
  }

  lemma FieldsAt(info: seq<byte>, pos: nat)
    requires pos <= |info|
    ensures pos == |info| ==> Fields(info[pos..]) == []
    ensures pos + 3 <= |info| && info[pos] == 0x00 ==>
      Fields(info[pos..]) == [Voltage(Word(info[pos + 1], info[pos + 2]))] + Fields(info[pos + 3..])
    ensures pos < |info| < pos + 3 && info[pos] == 0x00 ==> Fields(info[pos..]) == []
    ensures pos + 11 <= |info| && info[pos] == 0x0A ==>
      Fields(info[pos..]) == [CardId(info[pos + 1..pos + 11])] + Fields(info[pos + 11..])
    ensures pos < |info| < pos + 11 && info[pos] == 0x0A ==> Fields(info[pos..]) == []
    ensures pos < |info| && info[pos] == 0x0D ==> Fields(info[pos..]) == [FuelText(info[pos + 1..])]
    ensures pos < |info| && info[pos] !in {0x00, 0x0A, 0x0D} ==> Fields(info[pos..]) == []
  {
    var s := info[pos..];
    if |s| >= 3 {
      assert s[3..] == info[pos + 3..];
    }
    if |s| >= 11 {
      assert s[11..] == info[pos + 11..] && s[1..11] == info[pos + 1..pos + 11];
    }
    if |s| >= 1 {
      assert s[1..] == info[pos + 1..];
    }
  }

  method ParseFields(info: seq<byte>) returns (results: seq<Field>)
    ensures results == Fields(info)
  {
    hide Fields;
    results := [];
    var pos := 0;
    assert info[0..] == info;
    while pos < |info|
      invariant 0 <= pos <= |info|
      invariant results + Fields(info[pos..]) == Fields(info)
    {
      FieldsAt(info, pos);
      FieldsAt(info, |info|);
      var subType := info[pos];
      pos := pos + 1;
      if subType == 0x00 {
        if pos + 2 > |info| { return; }
        results := results + [Voltage(Word(info[pos], info[pos + 1]))];
        pos := pos + 2;
      } else if subType == 0x0A {
        if pos + 10 > |info| { return; }
        results := results + [CardId(info[pos..pos + 10])];
        pos := pos + 10;
      } else if subType == 0x0D {
        results := results + [FuelText(info[pos..])];
        pos := |info|;
      } else {
        return;
      }
    }
    FieldsAt(info, pos);
  }

  /** The wire form of a field. */
  function FieldBytes(d: Field): seq<byte> {
    match d
    case Voltage(raw) => [0x00, Hi(raw), Lo(raw)]
    case CardId(digits) => [0x0A] + digits
    case FuelText(text) => [0x0D] + text
  }

  function FieldsBytes(ds: seq<Field>): seq<byte> {
    if ds == [] then [] else FieldBytes(ds[0]) + FieldsBytes(ds[1..])
  }

  /** Card ids have ten bytes, and a fuel text, which has no length, comes last. */
  predicate Encodable(ds: seq<Field>) {
    forall i | 0 <= i < |ds| ::
      (ds[i].CardId? ==> |ds[i].digits| == 10) && (ds[i].FuelText? ==> i == |ds| - 1)
  }

  lemma {:induction false} FieldsRoundTrip(ds: seq<Field>)
    requires Encodable(ds)
    ensures Fields(FieldsBytes(ds)) == ds
  {
    if ds != [] {
      var info, rest := FieldsBytes(ds), FieldsBytes(ds[1..]);
      FieldsRoundTrip(ds[1..]);
      match ds[0]
      case Voltage(raw) =>
        WordSplit(raw);
        assert info[3..] == rest;
      case CardId(digits) =>
        assert info[1..11] == digits && info[11..] == rest;
      case FuelText(text) =>
        assert rest == [];
        assert info[1..] == text;
    }
  }

  /** The packet the contents of a frame give rise to, if any: unknown protocols and failing sub-parsers give none. */
  function Dispatch(p: byte, info: seq<byte>, serial: word, session: Option<Imei>): Option<Packet> {
    if p == 0x01 then ParseLogin(info, serial)
    else if p == 0x13 || p == 0x23 then ParseHeartbeat(info, serial, session, p)
    else if p == 0x12 || p == 0x22 then ParseLocation(info, serial, session, p)
    else if p == 0x16 || p == 0x26 then ParseAlarm(info, serial, session, false, p)
    else if p == 0x27 then ParseAlarm(info, serial, session, true, p)
    else if p == 0x94 then Some(Information(session, Fields(info), serial))
    else if p == 0x8A then Some(TimeCheck(session, serial))
    else if p == 0x21 then Some(CommandResponse(session, serial))
    else if p == 0x80 then Some(OnlineCommand(session, serial))
    else None
  }

  function FramePacket(f: seq<byte>, session: Option<Imei>): Option<Packet>
    requires |f| >= 7
  {
    Dispatch(Protocol(f), Info(f), Serial(f), session)
  }

  function PacketOf(p: Piece, session: Option<Imei>): seq<Packet> {
    match p
    case Skipped(_) => []
    case AsciiText(text) => [AsciiMessage(text)]
    case Framed(f) =>
      if |f| < 7 then []
      else match FramePacket(f, session) case Some(packet) => [packet] case None => []
  }

  function PacketsOf(pieces: seq<Piece>, session: Option<Imei>): seq<Packet> {
    if pieces == [] then [] else PacketOf(pieces[0], session) + PacketsOf(pieces[1..], session)
  }

}
