/**
 What the server reads from any packet a device may send, not only the simulator's: positions in all four hemispheres,
 every heading, level and flag, with and without the fields that some models leave out.
 */
module ConcoxWire {
  import opened Bytes
  import opened Wrappers
  import opened Numbers
  import opened ConcoxPackets
  import opened Coordinates

  // ----- The position block -----

  /** Course and flags: heading in the low ten bits, then north, west and fixed, and bits that mean nothing here. */
  function CourseHigh(north: bool, west: bool, fixed: bool, heading: word, spare: byte): byte {
    (spare & 0x8C) | (if north then 0x10 else 0) | (if west then 0x20 else 0) | (if fixed then 0x40 else 0)
    | Hi(heading)
  }

  function GpsWire(satellites: byte, lat: nat, lng: nat, speed: byte, high: byte, low: byte): (s: seq<byte>)
    ensures |s| == 12
  {
    [satellites] + Be32(lat) + Be32(lng) + [speed, high, low]
  }

  lemma CourseBits(north: bool, west: bool, fixed: bool, heading: word, spare: byte)
    requires heading <= 360
    ensures var high := CourseHigh(north, west, fixed, heading, spare);
      && (high & 0x10 != 0 <==> north) && (high & 0x20 != 0 <==> west) && (high & 0x40 != 0 <==> fixed)
      && Word(high & 0x03, Lo(heading)) == heading
  {
  }

  /** A number of units with its sign. */
  function Signed(units: nat, positive: bool): real {
    if positive then units as real / 1800000.0 else -(units as real / 1800000.0)
  }

  /** Any block reads back, wherever it stands. */
  lemma GpsWireRead(satellites: byte, lat: nat, lng: nat, speed: byte, north: bool, west: bool, fixed: bool,
                    heading: word, spare: byte, before: seq<byte>, after: seq<byte>)
    requires lat < 0x1_0000_0000 && lng < 0x1_0000_0000 && heading <= 360
    ensures var high := CourseHigh(north, west, fixed, heading, spare);
      GpsBlock(before + GpsWire(satellites, lat, lng, speed, high, Lo(heading)) + after, |before|) ==
      Fix(satellites & 0x0F, ToFixed(Signed(lat, north), 10000000), ToFixed(Signed(lng, !west), 10000000),
          speed, heading, fixed, Word(high, Lo(heading)))
  {
    hide ToFixed, UInt32, Word, Be32, CourseHigh, Lo;
    CourseBits(north, west, fixed, heading, spare);
    var high := CourseHigh(north, west, fixed, heading, spare);
    var s, i := before + GpsWire(satellites, lat, lng, speed, high, Lo(heading)) + after, |before|;
    assert s[i + 1..i + 5] == Be32(lat) && s[i + 5..i + 9] == Be32(lng);
    UInt32RoundTrip(s, i + 1, lat);
    UInt32RoundTrip(s, i + 5, lng);
    assert s[i] == satellites && s[i + 9] == speed && s[i + 10] == high && s[i + 11] == Lo(heading);
  }

  /**
   Any position on the globe, north or south, east or west, under any heading, decodes to itself within the format's
   rounding, and is on the globe.
   */
  lemma HemispheresRoundTrip(lat: real, lng: real, satellites: byte, speed: byte, fixed: bool, heading: word,
                             spare: byte, before: seq<byte>, after: seq<byte>)
    requires -90.0 <= lat <= 90.0 && -180.0 <= lng <= 180.0 && heading <= 360
    ensures var high := CourseHigh(lat >= 0.0, lng < 0.0, fixed, heading, spare);
      var wire := GpsWire(satellites, Units(lat), Units(lng), speed, high, Lo(heading));
      var fix := GpsBlock(before + wire + after, |before|);
      && -UNIT_ERROR <= fix.lat - lat <= UNIT_ERROR && -UNIT_ERROR <= fix.lng - lng <= UNIT_ERROR
      && -90.0 <= fix.lat <= 90.0 && -180.0 <= fix.lng <= 180.0
      && fix.satellites == satellites & 0x0F && fix.speed == speed && fix.heading == heading && fix.bit == fixed
  {
    hide ToFixed, Units, GpsBlock, CourseHigh, GpsWire, Lo, Word;
    UnitsFit(lat);
    UnitsFit(lng);
    GpsWireRead(satellites, Units(lat), Units(lng), speed, lat >= 0.0, lng < 0.0, fixed, heading, spare, before, after);
    ToFixedOdd(Units(lat) as real / 1800000.0, 10000000);
    ToFixedOdd(Units(lng) as real / 1800000.0, 10000000);
    UnitsInRange(lat, 90);
    UnitsInRange(lng, 180);
  }

  lemma ToFixedOdd(x: real, scale: int)
    requires scale > 0
    ensures ToFixed(-x, scale) == -ToFixed(x, scale)
  {
  }

  /** Positions on the globe stay on the globe. */
  lemma UnitsInRange(degrees: real, bound: int)
    requires Coordinates.Abs(degrees) <= bound as real && 0 <= bound <= 180
    ensures 0.0 <= ToFixed(Units(degrees) as real / 1800000.0, 10000000) <= bound as real
  {
    hide Round, ToFixed;
    var n := Units(degrees);
    RoundWithin(Coordinates.Abs(degrees) * 1800000.0, bound * 1800000);
    ToFixedWithin(n as real / 1800000.0, bound);
  }

  lemma RoundWithin(x: real, bound: int)
    requires 0.0 <= x <= bound as real
    ensures 0 <= Round(x) <= bound
  {
  }

  lemma ToFixedWithin(x: real, bound: int)
    requires 0.0 <= x <= bound as real
    ensures 0.0 <= ToFixed(x, 10000000) <= bound as real
  {
    hide Round;
    RoundWithin(x * 10000000.0, bound * 10000000);
  }

  // ----- Whole packets -----

  /** The levels of the battery table, and 50 for a level that is not in it. */
  function Percent(table: seq<int>, level: byte): int {
    if level as int < |table| then table[level as int] else 50
  }

  lemma Levels(level: byte)
    ensures BatteryPercent(level) == Percent([0, 10, 25, 40, 60, 80, 100], level)
    ensures SignalPercent(level) == Percent([0, 25, 50, 75, 100], level)
  {
    SmallBytes(level);
  }

  lemma SmallBytes(b: byte)
    ensures forall n: nat | n < 8 :: b as int == n <==> b == [0, 1, 2, 3, 4, 5, 6, 7][n]
  {
    assert b as int < 8 ==> b == [0, 1, 2, 3, 4, 5, 6, 7][b as int];
  }

  /** A heartbeat, normal or of the short kind without a battery level, with any status bits and anything after it. */
  lemma HeartbeatRead(status: byte, battery: byte, signal: byte, language: word, more: seq<byte>, serial: word,
                      session: Option<Imei>)
    ensures Dispatch(0x13, [status, battery, signal, Hi(language), Lo(language)] + more, serial, session) == Some(
      Heartbeat(session, status & 0x08 != 0, Percent([0, 10, 25, 40, 60, 80, 100], battery),
                Percent([0, 25, 50, 75, 100], signal), language, serial, 0x13))
    ensures Dispatch(0x23, [status, signal, Hi(language), Lo(language)] + more, serial, session) == Some(
      Heartbeat(session, status & 0x08 != 0, 50, Percent([0, 25, 50, 75, 100], signal), language, serial, 0x23))
  {
    hide BatteryPercent, SignalPercent, Percent, Hi, Lo, Word;
    Levels(battery);
    Levels(signal);
    WordSplit(language);
  }

  /** Metres on the wire, the nearest kilometre in the packet, halves up. */
  predicate NearestKm(metres: nat, km: int) {
    -500 <= metres - 1000 * km < 500
  }

  lemma KilometresAreNearest(metres: nat)
    ensures NearestKm(metres, Kilometres(metres))
  {
    RoundIsNear(metres as real / 1000.0);
  }

  /**
   A location under either protocol number, with its position block in place, live unless it is marked as sent again,
   and with its mileage if it has one.
   */
  lemma LocationRead(p: byte, date: seq<byte>, gps: seq<byte>, cell: seq<byte>, acc: byte, mode: byte, again: byte,
                     more: seq<byte>, serial: word, session: Option<Imei>) returns (km: Option<int>)
    requires p in {0x12, 0x22} && |date| == 6 && |gps| == 12 && |cell| == 8
    ensures Dispatch(p, date + gps + (cell + [acc, mode, again] + more), serial, session) == Some(
      Location(session, GpsBlock(date + gps + (cell + [acc, mode, again] + more), |date|), acc == 1, again != 1,
               km, serial, p))
    ensures km.Some? <==> |more| >= 4
    ensures |more| >= 4 ==> forall metres: nat | metres < 0x1_0000_0000 && more[..4] == Be32(metres) ::
      NearestKm(metres, km.value)
  {
    hide GpsBlock, UInt32, Be32, Kilometres;
    var info := date + gps + (cell + [acc, mode, again] + more);
    assert info[26] == acc && info[28] == again && |info| == 29 + |more|;
    km := if |more| >= 4 then Some(Kilometres(UInt32(info, 29))) else None;
    if |more| >= 4 {
      assert info[29..33] == more[..4];
      forall metres: nat | metres < 0x1_0000_0000 && more[..4] == Be32(metres)
        ensures NearestKm(metres, km.value)
      {
        UInt32RoundTrip(info, 29, metres);
        KilometresAreNearest(metres);
      }
    }
  }

  /** An alarm: code, levels and ignition from its own status bytes, position block in place. */
  lemma AlarmRead(p: byte, date: seq<byte>, gps: seq<byte>, cell: seq<byte>, status: byte, battery: byte, signal: byte,
                  code: byte, language: byte, more: seq<byte>, serial: word, session: Option<Imei>)
    returns (fence: Option<byte>, km: Option<int>)
    requires p in {0x16, 0x26, 0x27} && |date| == 6 && |gps| == 12 && |cell| == 9
    ensures var info := date + gps + (cell + [status, battery, signal, code, language] + more);
      Dispatch(p, info, serial, session) == Some(
        Alarm(session, p == 0x27, code, GpsBlock(info, |date|), status & 0x08 != 0, fence, km,
              Percent([0, 10, 25, 40, 60, 80, 100], battery), Percent([0, 25, 50, 75, 100], signal), serial, p))
    ensures p == 0x27 ==> fence == if |more| >= 1 then Some(more[0]) else None
    ensures p == 0x27 ==> km == if |more| >= 2 then Some(more[1] as int) else None
    ensures p != 0x27 ==> fence.None? && (km.Some? <==> |more| >= 4)
    ensures p != 0x27 && |more| >= 4 ==> forall metres: nat | metres < 0x1_0000_0000 && more[..4] == Be32(metres) ::
      NearestKm(metres, km.value)
  {
    hide GpsBlock, UInt32, Be32, Kilometres, BatteryPercent, SignalPercent, Percent;
    var info := date + gps + (cell + [status, battery, signal, code, language] + more);
    assert |info| == 32 + |more| && info[27] == status && info[28] == battery && info[29] == signal && info[30] == code;
    Levels(battery);
    Levels(signal);
    assert forall i | 0 <= i < |more| :: info[32 + i] == more[i];
    if p == 0x27 {
      fence := if |more| >= 1 then Some(more[0]) else None;
      km := if |more| >= 2 then Some(more[1] as int) else None;
    } else {
      fence := None;
      km := if |more| >= 4 then Some(Kilometres(UInt32(info, 32))) else None;
      if |more| >= 4 {
        assert info[32..36] == more[..4];
        forall metres: nat | metres < 0x1_0000_0000 && more[..4] == Be32(metres)
          ensures NearestKm(metres, km.value)
        {
          UInt32RoundTrip(info, 32, metres);
          KilometresAreNearest(metres);
        }
      }
    }
  }

  /** The k-th half byte. */
  function Nibble(s: seq<byte>, k: nat): (n: byte)
    requires k < 2 * |s|
    ensures n < 16
  {
    if k % 2 == 0 then s[k / 2] >> 4 else s[k / 2] & 0x0F
  }

  lemma {:induction false} HexAt(s: seq<byte>, k: nat)
    requires k < 2 * |s|
    ensures HexOf(s)[k] == HexDigit(Nibble(s, k))
  {
    hide HexDigit;
    if k < 2 * (|s| - 1) {
      HexAt(s[..|s| - 1], k);
    }
  }

  lemma DecimalDigit(n: byte)
    requires n < 16
    ensures '0' <= HexDigit(n) <= '9' <==> n <= 9
    ensures n <= 9 ==> HexDigit(n) as int == '0' as int + n as int
    ensures HexDigit(n) == '0' <==> n == 0
  {
    assert n == 0 || n == 1 || n == 2 || n == 3 || n == 4 || n == 5 || n == 6 || n == 7
      || n == 8 || n == 9 || n == 10 || n == 11 || n == 12 || n == 13 || n == 14 || n == 15;
  }

  /** The sixteen half bytes are decimal digits. */
  ghost predicate Decimals(s: seq<byte>) {
    forall k | 0 <= k < 2 * |s| :: Nibble(s, k) <= 9
  }

  lemma HexIsDecimal(s: seq<byte>)
    ensures Digits(HexOf(s)) <==> Decimals(s)
  {
    hide HexDigit, HexOf, Nibble;
    forall k | 0 <= k < 2 * |s|
      ensures '0' <= HexOf(s)[k] <= '9' <==> Nibble(s, k) <= 9
    {
      HexAt(s, k);
      DecimalDigit(Nibble(s, k));
    }
    if Digits(HexOf(s)) {
      forall k | 0 <= k < 2 * |s|
        ensures Nibble(s, k) <= 9
      {
        assert '0' <= HexOf(s)[k] <= '9';
      }
    }
  }

  lemma DroppedDigits(hex: string)
    requires hex != ""
    ensures Digits(DropLeadingZero(hex)) <==> Digits(hex)
    ensures |DropLeadingZero(hex)| == |hex| - if hex[0] == '0' then 1 else 0
    ensures DropLeadingZero(hex) == hex[|hex| - |DropLeadingZero(hex)|..]
  {
    if hex[0] == '0' && Digits(hex[1..]) {
      assert forall i | 1 <= i < |hex| :: hex[i] == hex[1..][i - 1];
    }
  }

  /**
   A login is accepted exactly when its first eight bytes are sixteen decimal digits; the IMEI is these digits, without
   the first if it is 0, and model and time zone follow.
   */
  lemma LoginRead(info: seq<byte>, serial: word, session: Option<Imei>)
    requires |info| >= 12
    ensures Dispatch(0x01, info, serial, session).Some? <==> Decimals(info[..8])
    ensures Decimals(info[..8]) ==>
      var p := Dispatch(0x01, info, serial, session).value;
      && p.Login? && p.serial == serial && p.model == Word(info[8], info[9]) && p.timeZone == Word(info[10], info[11])
      && |p.imei| == (if info[0] >> 4 == 0 then 15 else 16)
      && forall k | 16 - |p.imei| <= k < 16 ::
        p.imei[k - (16 - |p.imei|)] as int == '0' as int + Nibble(info[..8], k) as int
  {
    hide HexDigit, HexOf, Nibble, DropLeadingZero, Word, Digits;
    var s := info[..8];
    HexIsDecimal(s);
    DroppedDigits(HexOf(s));
    HexAt(s, 0);
    FirstNibble(s);
    DecimalDigit(Nibble(s, 0));
    if Decimals(s) {
      forall k | 0 <= k < 16
        ensures HexOf(s)[k] as int == '0' as int + Nibble(s, k) as int
      {
        HexAt(s, k);
        DecimalDigit(Nibble(s, k));
      }
    }
  }

  lemma FirstNibble(s: seq<byte>)
    requires s != []
    ensures Nibble(s, 0) == s[0] >> 4
  {
  }

  /** What is too short for its kind, and what has a protocol number of no kind, gives no packet. */
  lemma NothingRead(p: byte, info: seq<byte>, serial: word, session: Option<Imei>)
    requires
      || p !in {0x01, 0x12, 0x13, 0x16, 0x21, 0x22, 0x23, 0x26, 0x27, 0x80, 0x8A, 0x94}
      || (p == 0x01 && |info| < 12) || (p == 0x13 && |info| < 5) || (p == 0x23 && |info| < 4)
      || (p in {0x12, 0x22} && |info| < 29) || (p in {0x16, 0x26, 0x27} && |info| < 31)
    ensures Dispatch(p, info, serial, session).None?
  {
    hide GpsBlock, Fields, HexOf;
  }

  /** The packets without contents of their own. */
  lemma OthersRead(info: seq<byte>, serial: word, session: Option<Imei>)
    ensures Dispatch(0x94, info, serial, session) == Some(Information(session, Fields(info), serial))
    ensures Dispatch(0x8A, info, serial, session) == Some(TimeCheck(session, serial))
    ensures Dispatch(0x21, info, serial, session) == Some(CommandResponse(session, serial))
    ensures Dispatch(0x80, info, serial, session) == Some(OnlineCommand(session, serial))
  {
  }
}
