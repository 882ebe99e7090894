/**
 The simulated Concox device: what it sends, the server's parser reads back, packet by packet and field by field,
 with the position off by no more than the format's rounding and always in the range that the server publishes.
 */
module ConcoxDevice {
  import opened Bytes
  import opened Wrappers
  import opened Numbers
  import opened ConcoxFraming
  import opened ConcoxPackets
  import opened ConcoxCodec
  import opened Coordinates
  import opened ConcoxWire
  import opened ConcoxSession

  // ----- Contents of the packets -----

  function LoginInfo(imei: Imei): seq<byte>
    requires Digits(imei)
  {
    PackDigits(PadStart(imei, 16)[..16]) + [0x00, 0x05, 0x00, 0x00]
  }

  function HeartbeatInfo(ignition: bool): seq<byte> {
    [if ignition then 0x0A else 0x02, 0x05, 0x03, 0x00, 0x00]
  }

  /** Math.min(255, Math.round(speed)), of which Buffer.from keeps the low byte. */
  function SpeedByte(speed: real): byte {
    Truncate((if Round(speed) < 255 then Round(speed) else 255) % 256)
  }

  /** The nearest whole speed, or 255 for what is above. */
  predicate SpeedNear(b: byte, speed: real) {
    if speed < 254.5 then -0.5 <= b as int as real - speed <= 0.5 else b as int == 255
  }

  lemma SpeedIsNear(speed: real)
    requires speed >= 0.0
    ensures SpeedNear(SpeedByte(speed), speed)
  {
    hide Round, Truncate;
    RoundIsNear(speed);
  }

  /** Kilometres; the wire has metres. */
  function Odometer(speed: real): (km: nat)
    ensures speed > 0.0 ==> km == 5000
    ensures speed <= 0.0 ==> km == 1000
  {
    if speed > 0.0 then 5000 else 1000
  }

  function Mileage(speed: real): nat {
    Odometer(speed) * 1000
  }

  const LOCATION_CELL: seq<byte> := [0x01, 0x94, 0x62, 0xAA, 0xAA, 0xBB, 0xBB, 0xBB]
  const ALARM_CELL: seq<byte> := [0x08] + LOCATION_CELL

  function LocationInfo(date: seq<byte>, lat: real, lng: real, speed: real, ignition: bool): seq<byte> {
    date + GpsBytes(lat, lng, if speed > 0.0 then 12 else 8, SpeedByte(speed))
    + (LOCATION_CELL + [if ignition then 0x01 else 0x00, 0x00, 0x00] + Be32(Mileage(speed)))
  }

  function AlarmInfo(date: seq<byte>, lat: real, lng: real, speed: real, code: byte): seq<byte> {
    date + GpsBytes(lat, lng, 4, SpeedByte(speed))
    + (ALARM_CELL + [0x08, 0x05, 0x03, code, 0x00] + Be32(5000 * 1000))
  }

  // ----- The device -----

  class Device {
    const imei: Imei
    var lat: real
    var lng: real
    var speed: real
    var ignition: bool
    var serial: word

    constructor (imei: Imei, lat: real, lng: real)
      ensures this.imei == imei && this.lat == lat && this.lng == lng
      ensures speed == 0.0 && !ignition && serial == 0
    {
      this.imei := imei;
      this.lat, this.lng := lat, lng;
      speed, ignition, serial := 0.0, false, 0;
    }

    /** Serial numbers wrap around after 0xFFFF. */
    method NextSerial() returns (s: word)
      modifies this`serial
      ensures s == serial == old(serial) + 1
    {
      serial := (serial + 1) & 0xFFFF;
      s := serial;
    }

    /** A login that the server reads under the device's IMEI. */
    method MakeLogin() returns (frame: seq<byte>)
      requires Digits(imei)
      modifies this`serial
      ensures serial == old(serial) + 1
      ensures |imei| == 15 ==> forall session :: Reads(frame, session, Login(imei, 5, 0, serial))
      ensures frame == BuildFrame(0x01, LoginInfo(imei), serial)
    {
      hide Reads, BuildFrame;
      var imeiBytes := PackImei(imei);
      var s := NextSerial();
      frame := BuildFrame(0x01, imeiBytes + [0x00, 0x05, 0x00, 0x00], s);
      forall session | |imei| == 15
        ensures Reads(frame, session, Login(imei, 5, 0, serial))
      {
        LoginArrives(imei, serial, session);
      }
    }

    /** A heartbeat that the server reads with the ignition and the fixed levels. */
    method MakeHeartbeat() returns (frame: seq<byte>)
      modifies this`serial
      ensures serial == old(serial) + 1
      ensures forall session :: Reads(frame, session, Heartbeat(session, ignition, 80, 75, 0, serial, 0x13))
      ensures frame == BuildFrame(0x13, HeartbeatInfo(ignition), serial)
    {
      hide Reads, BuildFrame;
      var s := NextSerial();
      frame := BuildFrame(0x13, HeartbeatInfo(ignition), s);
      forall session
        ensures Reads(frame, session, Heartbeat(session, ignition, 80, 75, 0, serial, 0x13))
      {
        HeartbeatArrives(ignition, serial, session);
      }
    }

    /**
     A location that the server reads with a fix next to the device's position, and on the globe one that it
     publishes. For a coordinate that does not fit its field, writing it throws before a serial number is used.
     */
    method MakeLocation(date: seq<byte>) returns (frame: Option<seq<byte>>)
      requires |date| == 6
      modifies this`serial
      ensures frame.Some? <==> Writable(lat, lng)
      ensures serial == if frame.Some? then old(serial) + 1 else old(serial)
      ensures frame.Some? ==>
        var fix := LocationFix(date, lat, lng, speed, ignition);
        && FixOf(fix, lat, lng, if speed > 0.0 then 12 else 8, SpeedByte(speed))
        && (speed >= 0.0 ==> SpeedNear(fix.speed, speed))
        && (Coordinates.Abs(lat) <= 90.0 && Coordinates.Abs(lng) <= 180.0 ==> InRange(fix))
        && forall session :: Reads(frame.value, session, Location(
          session, fix, ignition, true, Some(Odometer(speed)), serial, 0x22))
      ensures frame.Some? ==> frame.value == BuildFrame(0x22, LocationInfo(date, lat, lng, speed, ignition), serial)
    {
      hide Reads, BuildFrame, LocationInfo, LocationFix, FixOf, InRange, Writable, SpeedByte, SpeedNear;
      if !Writable(lat, lng) {
        return None;
      }
      var s := NextSerial();
      frame := Some(BuildFrame(0x22, LocationInfo(date, lat, lng, speed, ignition), s));
      forall session
        ensures var fix := LocationFix(date, lat, lng, speed, ignition);
          && FixOf(fix, lat, lng, if speed > 0.0 then 12 else 8, SpeedByte(speed))
          && (speed >= 0.0 ==> SpeedNear(fix.speed, speed))
          && (Coordinates.Abs(lat) <= 90.0 && Coordinates.Abs(lng) <= 180.0 ==> InRange(fix))
          && Reads(frame.value, session, Location(
            session, fix, ignition, true, Some(Odometer(speed)), serial, 0x22))
      {
        LocationArrives(date, lat, lng, speed, ignition, serial, session);
      }
      LocationArrives(date, lat, lng, speed, ignition, serial, None);
    }

    /** An alarm that the server reads with its code and such a fix. */
    method MakeAlarm(date: seq<byte>, code: byte) returns (frame: Option<seq<byte>>)
      requires |date| == 6
      modifies this`serial
      ensures frame.Some? <==> Writable(lat, lng)
      ensures serial == if frame.Some? then old(serial) + 1 else old(serial)
      ensures frame.Some? ==>
        var fix := AlarmFix(date, lat, lng, speed, code);
        && FixOf(fix, lat, lng, 4, SpeedByte(speed))
        && (speed >= 0.0 ==> SpeedNear(fix.speed, speed))
        && (Coordinates.Abs(lat) <= 90.0 && Coordinates.Abs(lng) <= 180.0 ==> InRange(fix))
        && forall session :: Reads(frame.value, session,
          Alarm(session, false, code, fix, true, None, Some(5000), 80, 75, serial, 0x26))
      ensures frame.Some? ==> frame.value == BuildFrame(0x26, AlarmInfo(date, lat, lng, speed, code), serial)
    {
      hide Reads, BuildFrame, AlarmInfo, AlarmFix, FixOf, InRange, Writable, SpeedByte, SpeedNear;
      if !Writable(lat, lng) {
        return None;
      }
      var s := NextSerial();
      frame := Some(BuildFrame(0x26, AlarmInfo(date, lat, lng, speed, code), s));
      forall session
        ensures Reads(frame.value, session,
          Alarm(session, false, code, AlarmFix(date, lat, lng, speed, code),
                true, None, Some(5000), 80, 75, serial, 0x26))
      {
        AlarmArrives(date, lat, lng, speed, code, serial, session);
      }
      AlarmArrives(date, lat, lng, speed, code, serial, None);
    }
  }

  // ----- What the server reads -----

  /** The frame alone gives the server exactly this packet and leaves nothing in the buffer. */
  predicate Reads(frame: seq<byte>, session: Option<Imei>, p: Packet) {
    Parse(frame).remainder == [] && PacketsOf(Parse(frame).pieces, session) == [p]
  }

  function LocationFix(date: seq<byte>, lat: real, lng: real, speed: real, ignition: bool): Fix
    requires |date| == 6
  {
    GpsBlock(LocationInfo(date, lat, lng, speed, ignition), 6)
  }

  function AlarmFix(date: seq<byte>, lat: real, lng: real, speed: real, code: byte): Fix
    requires |date| == 6
  {
    GpsBlock(AlarmInfo(date, lat, lng, speed, code), 6)
  }

  /** A frame arrives as the one packet its contents give rise to. */
  lemma FrameArrives(protocol: byte, info: seq<byte>, serial: word, session: Option<Imei>)
    requires |info| <= 250
    ensures var f, p := BuildFrame(protocol, info, serial), Dispatch(protocol, info, serial, session);
      && Parse(f).remainder == []
      && PacketsOf(Parse(f).pieces, session) == if p.Some? then [p.value] else []
  {
    hide Dispatch, Parse, WellFormed, BuildFrame, Protocol, Info, Serial;
    var f := BuildFrame(protocol, info, serial);
    FrameFits(protocol, info, serial);
    FrameFields(protocol, info, serial);
    FrameFirst(f, []);
    assert f + [] == f;
    NothingToParse();
    OnePiece(f, session);
  }

  lemma OnePiece(f: seq<byte>, session: Option<Imei>)
    requires |f| >= 7
    ensures PacketsOf([Framed(f)], session) ==
      if FramePacket(f, session).Some? then [FramePacket(f, session).value] else []
  {
    hide FramePacket;
    assert [Framed(f)][1..] == [];
  }

  /** A login arrives under the device's IMEI. */
  lemma LoginArrives(imei: Imei, serial: word, session: Option<Imei>)
    requires Digits(imei) && |imei| == 15
    ensures Reads(BuildFrame(0x01, LoginInfo(imei), serial), session, Login(imei, 5, 0, serial))
  {
    hide Parse, PacketsOf, BuildFrame, ParseLogin, PackDigits;
    FrameArrives(0x01, LoginInfo(imei), serial, session);
    LoginRoundTrip(imei, [0x00, 0x05, 0x00, 0x00], serial);
    SmallWords();
  }

  lemma SmallWords()
    ensures Word(0x00, 0x05) == 5 && Word(0x00, 0x00) == 0
  {
  }

  lemma HeartbeatArrives(ignition: bool, serial: word, session: Option<Imei>)
    ensures Reads(BuildFrame(0x13, HeartbeatInfo(ignition), serial), session,
                  Heartbeat(session, ignition, 80, 75, 0, serial, 0x13))
  {
    hide Parse, PacketsOf, BuildFrame;
    FrameArrives(0x13, HeartbeatInfo(ignition), serial, session);
    SmallWords();
    IgnitionBit();
  }

  lemma IgnitionBit()
    ensures (0x0A as byte) & 0x08 != 0 && (0x02 as byte) & 0x08 == 0 && (0x08 as byte) & 0x08 != 0
  {
  }

  /** A valid fix as near to a position as the format allows. */
  predicate FixOf(fix: Fix, lat: real, lng: real, satellites: byte, speed: byte) {
    && fix.Valid()
    && fix.satellites == satellites && fix.speed == speed && fix.heading == 180
    && Coordinates.Abs(fix.lat - Coordinates.Abs(lat)) <= UNIT_ERROR
    && Coordinates.Abs(fix.lng - Coordinates.Abs(lng)) <= UNIT_ERROR
  }

  lemma GpsArrives(date: seq<byte>, lat: real, lng: real, satellites: byte, speed: byte, rest: seq<byte>)
    requires |date| == 6 && Writable(lat, lng) && satellites < 16
    ensures var fix := GpsBlock(date + GpsBytes(lat, lng, satellites, speed) + rest, 6);
      && FixOf(fix, lat, lng, satellites, speed)
      && (Coordinates.Abs(lat) <= 90.0 && Coordinates.Abs(lng) <= 180.0 ==> InRange(fix))
  {
    hide ToFixed, Units, UInt32, Word, Be32;
    UnitsRoundTrip(lat, lng, satellites, speed, date, rest);
    LowBits(satellites);
    FixIsUnits(date, lat, lng, satellites, speed, rest);
    if Coordinates.Abs(lat) <= 90.0 && Coordinates.Abs(lng) <= 180.0 {
      UnitsInRange(lat, 90);
      UnitsInRange(lng, 180);
    }
  }

  lemma LowBits(b: byte)
    requires b < 16
    ensures b & 0x0F == b
  {
  }

  /** North and east, the decoded coordinates are the rounded units. */
  lemma FixIsUnits(date: seq<byte>, lat: real, lng: real, satellites: byte, speed: byte, rest: seq<byte>)
    requires |date| == 6 && Writable(lat, lng)
    ensures var fix := GpsBlock(date + GpsBytes(lat, lng, satellites, speed) + rest, 6);
      && fix.lat == ToFixed(Units(lat) as real / 1800000.0, 10000000)
      && fix.lng == ToFixed(Units(lng) as real / 1800000.0, 10000000)
  {
    hide ToFixed, Units, UInt32, Word, Be32;
    UnitsFit(lat);
    UnitsFit(lng);
    FlagBits();
    var s := date + GpsBytes(lat, lng, satellites, speed) + rest;
    assert s[7..11] == Be32(Units(lat)) && s[11..15] == Be32(Units(lng)) && s[16] == 0x50;
    UInt32RoundTrip(s, 7, Units(lat));
    UInt32RoundTrip(s, 11, Units(lng));
  }

  /** A location arrives live, with its ignition, mileage and serial, and a fix that on the globe is published. */
  lemma LocationArrives(
    date: seq<byte>, lat: real, lng: real, speed: real, ignition: bool, serial: word, session: Option<Imei>)
    requires |date| == 6 && Writable(lat, lng)
    ensures var fix := LocationFix(date, lat, lng, speed, ignition);
      && FixOf(fix, lat, lng, if speed > 0.0 then 12 else 8, SpeedByte(speed))
      && (speed >= 0.0 ==> SpeedNear(fix.speed, speed))
      && (Coordinates.Abs(lat) <= 90.0 && Coordinates.Abs(lng) <= 180.0 ==> InRange(fix))
      && Reads(BuildFrame(0x22, LocationInfo(date, lat, lng, speed, ignition), serial), session, Location(
        session, fix, ignition, true, Some(Odometer(speed)), serial, 0x22))
  {
    hide Parse, PacketsOf, BuildFrame, GpsBlock, GpsBytes, Units, UInt32, Be32, SpeedByte, InRange, Writable, SpeedNear;
    if speed >= 0.0 {
      SpeedIsNear(speed);
    }
    var satellites: byte := if speed > 0.0 then 12 else 8;
    var rest := LOCATION_CELL + [if ignition then 0x01 else 0x00, 0x00, 0x00] + Be32(Mileage(speed));
    GpsArrives(date, lat, lng, satellites, SpeedByte(speed), rest);
    var info := LocationInfo(date, lat, lng, speed, ignition);
    GpsSize(lat, lng, satellites, SpeedByte(speed));
    assert info[26] == rest[8] && info[28] == rest[10] && info[29..33] == rest[11..15] == Be32(Mileage(speed));
    UInt32RoundTrip(info, 29, Mileage(speed));
    FrameArrives(0x22, info, serial, session);
  }

  lemma GpsSize(lat: real, lng: real, satellites: byte, speed: byte)
    ensures |GpsBytes(lat, lng, satellites, speed)| == 12
  {
  }

  /** An alarm arrives with its code, and such a fix. */
  lemma AlarmArrives(
    date: seq<byte>, lat: real, lng: real, speed: real, code: byte, serial: word, session: Option<Imei>)
    requires |date| == 6 && Writable(lat, lng)
    ensures var fix := AlarmFix(date, lat, lng, speed, code);
      && FixOf(fix, lat, lng, 4, SpeedByte(speed))
      && (speed >= 0.0 ==> SpeedNear(fix.speed, speed))
      && (Coordinates.Abs(lat) <= 90.0 && Coordinates.Abs(lng) <= 180.0 ==> InRange(fix))
      && Reads(BuildFrame(0x26, AlarmInfo(date, lat, lng, speed, code), serial), session,
               Alarm(session, false, code, fix, true, None, Some(5000), 80, 75, serial, 0x26))
  {
    hide Parse, PacketsOf, BuildFrame, GpsBlock, GpsBytes, Units, UInt32, Be32, SpeedByte, InRange, Writable, SpeedNear;
    if speed >= 0.0 {
      SpeedIsNear(speed);
    }
    var rest := ALARM_CELL + [0x08, 0x05, 0x03, code, 0x00] + Be32(5000 * 1000);
    GpsArrives(date, lat, lng, 4, SpeedByte(speed), rest);
    var info := AlarmInfo(date, lat, lng, speed, code);
    GpsSize(lat, lng, 4, SpeedByte(speed));
    assert info[27] == rest[9] && info[28] == rest[10] && info[29] == rest[11] && info[30] == rest[12];
    assert info[32..36] == rest[14..18] == Be32(5000 * 1000);
    UInt32RoundTrip(info, 32, 5000 * 1000);
    IgnitionBit();
    FrameArrives(0x26, info, serial, session);
  }
}
