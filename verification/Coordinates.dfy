/**
 Coordinates over the wire, digits and bytes included: degrees and decimal minutes for the text protocols, unsigned
 units of 1/1800000 degree for Concox. What is decoded is as near to what was encoded as the formats' roundings
 allow, and the two cases that are not are named: positions too near to zero, and Concox positions south or west.
 */
module Coordinates {
  import opened Bytes
  import opened Wrappers
  import opened Numbers
  import opened ConcoxPackets

  function Abs(x: real): real {
    if x < 0.0 then -x else x
  }

  // ----- Numbers as text -----

  /** Number.toString of a natural number. */
  function Numeral(n: nat): (s: string)
    ensures s != "" && Digits(s)
  {
    (if n < 10 then "" else Numeral(n / 10)) + ["0123456789"[n % 10]]
  }

  /** toFixed(4) of a number that is not negative, as text. */
  function FixedText(x: real): string
    requires x >= 0.0
  {
    var n := Round(x * 10000.0);
    Numeral(n / 10000) + "." + PadStart(Numeral(n % 10000), 4)
  }

  function ValueOf(s: string): nat
    requires Digits(s)
  {
    if s == "" then 0 else 10 * ValueOf(s[..|s| - 1]) + (s[|s| - 1] as int - '0' as int)
  }

  function Pow10(n: nat): (p: nat)
    ensures p > 0
  {
    if n == 0 then 1 else 10 * Pow10(n - 1)
  }

  /** How many digits a text starts with. */
  function Lead(s: string): (n: nat)
    ensures n <= |s| && Digits(s[..n])
  {
    if s == "" || !('0' <= s[0] <= '9') then 0
    else
      assert s[..1 + Lead(s[1..])] == [s[0]] + s[1..][..Lead(s[1..])];
      1 + Lead(s[1..])
  }

  function WholeOf(s: string): (whole: string)
    ensures Digits(whole)
  {
    s[..Lead(s)]
  }

  function FractionOf(s: string): (fraction: string)
    ensures Digits(fraction)
  {
    var rest := s[Lead(s)..];
    if rest != "" && rest[0] == '.' then rest[1..][..Lead(rest[1..])] else ""
  }

  function Decimal(whole: string, fraction: string): real
    requires Digits(whole) && Digits(fraction)
  {
    ValueOf(whole) as real + ValueOf(fraction) as real / Pow10(|fraction|) as real
  }

  /** parseFloat of a text that starts with an unsigned decimal number; None is NaN. */
  function ParseFloat(s: string): Option<real> {
    if WholeOf(s) == "" && FractionOf(s) == "" then None else Some(Decimal(WholeOf(s), FractionOf(s)))
  }

  lemma ValueOfSnoc(s: string, c: char)
    requires Digits(s) && '0' <= c <= '9'
    ensures Digits(s + [c]) && ValueOf(s + [c]) == 10 * ValueOf(s) + (c as int - '0' as int)
  {
    assert (s + [c])[..|s|] == s;
  }

  lemma DigitsParts(s: string)
    requires Digits(s) && s != ""
    ensures Digits(s[..|s| - 1]) && '0' <= s[|s| - 1] <= '9'
  {
  }

  lemma {:induction false} ValueOfConcat(a: string, b: string)
    requires Digits(a) && Digits(b)
    ensures Digits(a + b) && ValueOf(a + b) == ValueOf(a) * Pow10(|b|) + ValueOf(b)
  {
    hide Digits, ValueOf;
    if b == "" {
      assert a + b == a;
      assert ValueOf(b) == 0 by {
        ValueOfNone();
      }
    } else {
      var front, c := b[..|b| - 1], b[|b| - 1];
      DigitsParts(b);
      ValueOfConcat(a, front);
      ValueOfSnoc(a + front, c);
      ValueOfSnoc(front, c);
      assert a + b == a + front + [c] && b == front + [c];
      assert ValueOf(a) * Pow10(|b|) == 10 * (ValueOf(a) * Pow10(|front|));
    }
  }

  lemma ValueOfNone()
    ensures ValueOf("") == 0
  {
  }

  lemma {:induction false} ValueOfNumeral(n: nat)
    ensures ValueOf(Numeral(n)) == n
    decreases n
  {
    hide Digits, ValueOf;
    var front := if n < 10 then "" else Numeral(n / 10);
    assert Digits(front) by {
      NoDigits();
    }
    ValueOfNone();
    if n >= 10 {
      ValueOfNumeral(n / 10);
    }
    ValueOfSnoc(front, "0123456789"[n % 10]);
  }

  lemma NoDigits()
    ensures Digits("")
  {
  }

  lemma {:induction false} NumeralWidth(n: nat, width: nat)
    requires 1 <= width && n < Pow10(width)
    ensures |Numeral(n)| <= width
    decreases n
  {
    if n >= 10 {
      assert Pow10(width) == 10 * Pow10(width - 1);
      NumeralWidth(n / 10, width - 1);
    }
  }

  function Zeros(n: nat): string {
    seq(n, _ => '0')
  }

  lemma {:induction false} ZerosValue(n: nat)
    ensures Digits(Zeros(n)) && ValueOf(Zeros(n)) == 0
  {
    if n > 0 {
      ZerosValue(n - 1);
      ValueOfSnoc(Zeros(n - 1), '0');
      assert Zeros(n) == Zeros(n - 1) + ['0'];
    }
  }

  lemma Padded(s: string, width: nat)
    requires Digits(s)
    ensures Digits(PadStart(s, width)) && ValueOf(PadStart(s, width)) == ValueOf(s)
    ensures |PadStart(s, width)| == if |s| < width then width else |s|
  {
    hide Digits, ValueOf;
    if |s| < width {
      ZerosValue(width - |s|);
      ValueOfConcat(Zeros(width - |s|), s);
      assert PadStart(s, width) == Zeros(width - |s|) + s;
    }
  }

  lemma PadBefore(a: string, b: string, width: nat)
    ensures PadStart(a + b, width) == PadStart(a, if width < |b| then 0 else width - |b|) + b
  {
    if |a| + |b| < width {
      assert seq(width - |a| - |b|, _ => '0') + (a + b) == seq(width - |b| - |a|, _ => '0') + a + b;
    }
  }

  lemma {:induction false} LeadOf(a: string, b: string)
    requires Digits(a) && (b == "" || !('0' <= b[0] <= '9'))
    ensures Lead(a + b) == |a|
  {
    if a == "" {
      assert a + b == b;
    } else {
      assert (a + b)[1..] == a[1..] + b;
      LeadOf(a[1..], b);
    }
  }

  lemma ParsePlain(whole: string, fraction: string)
    requires Digits(whole) && Digits(fraction) && whole != ""
    ensures ParseFloat(whole + "." + fraction) == Some(Decimal(whole, fraction))
  {
    hide Digits, Decimal, Lead;
    var s, tail := whole + "." + fraction, "." + fraction;
    assert s == whole + tail;
    LeadOf(whole, tail);
    LeadOf(fraction, "");
    assert fraction + "" == fraction;
    assert s[..|whole|] == whole && s[|whole|..] == tail;
    assert tail[1..] == fraction && fraction[..|fraction|] == fraction;
  }

  // ----- Degrees and decimal minutes -----

  function ToBstplDdm(decimal: real, isLng: bool): string {
    var abs := Abs(decimal);
    var deg := abs.Floor;
    var min := (abs - deg as real) * 60.0;
    PadStart(Numeral(deg), if isLng then 3 else 2) + PadStart(FixedText(min), 7)
  }

  datatype Direction = N | S | E | W

  /** The remainder of JavaScript's %, with the sign of x. */
  function Remainder(x: real, m: real): real
    requires m > 0.0
  {
    if x < 0.0 then x + m * (-x / m).Floor as real else x - m * (x / m).Floor as real
  }

  function DdmToDecimal(raw: string, direction: Direction): Option<real> {
    var value := ParseFloat(raw);
    if value.None? || value.value == 0.0 then None
    else
      var degrees := (value.value / 100.0).Floor;
      var minutes := Remainder(value.value, 100.0);
      var decimal := degrees as real + minutes / 60.0;
      Some(ToFixed(if direction == S || direction == W then -decimal else decimal, 10000000))
  }

  function DirectionOf(decimal: real, isLng: bool): Direction {
    if decimal >= 0.0 then (if isLng then E else N) else (if isLng then W else S)
  }

  /** Ten-thousandths of a minute, rounded; 600000 when the minutes round up to 60. */
  function MinuteUnits(decimal: real): int {
    Round((Abs(decimal) - Abs(decimal).Floor as real) * 60.0 * 10000.0)
  }

  lemma MinuteUnitsRange(decimal: real)
    ensures 0 <= MinuteUnits(decimal) <= 600000
    ensures var min := (Abs(decimal) - Abs(decimal).Floor as real) * 60.0;
      -0.5 <= MinuteUnits(decimal) as real - min * 10000.0 <= 0.5
  {
    RoundIsNear((Abs(decimal) - Abs(decimal).Floor as real) * 60.0 * 10000.0);
  }

  /** The minutes take seven characters, so the degrees end where the decoder expects it. */
  lemma DdmText(decimal: real, isLng: bool)
    ensures var n, deg := MinuteUnits(decimal), Abs(decimal).Floor;
      ParseFloat(ToBstplDdm(decimal, isLng)) == Some(100.0 * deg as real + n as real / 10000.0)
  {
    hide MinuteUnits, Round, Numeral, PadStart, ValueOf, ParseFloat;
    MinuteUnitsRange(decimal);
    var n, deg := MinuteUnits(decimal), Abs(decimal).Floor;
    var degText := PadStart(Numeral(deg), if isLng then 3 else 2);
    var fraction := PadStart(Numeral(n % 10000), 4);
    var whole := PadStart(Numeral(n / 10000), 2);
    MinuteText(decimal);
    ValueOfNumeral(deg);
    ValueOfNumeral(n / 10000);
    ValueOfNumeral(n % 10000);
    Padded(Numeral(deg), if isLng then 3 else 2);
    Powers();
    NumeralWidth(n / 10000, 2);
    NumeralWidth(n % 10000, 4);
    Padded(Numeral(n / 10000), 2);
    Padded(Numeral(n % 10000), 4);
    ValueOfConcat(degText, whole);
    assert ToBstplDdm(decimal, isLng) == degText + whole + "." + fraction;
    ParsePlain(degText + whole, fraction);
    assert n == n / 10000 * 10000 + n % 10000;
  }

  lemma Powers()
    ensures Pow10(2) == 100 && Pow10(4) == 10000
  {
    assert Pow10(1) == 10 && Pow10(3) == 10 * Pow10(2);
  }

  lemma MinuteText(decimal: real)
    ensures var n, min := MinuteUnits(decimal), (Abs(decimal) - Abs(decimal).Floor as real) * 60.0;
      && 0 <= n && min >= 0.0
      && PadStart(FixedText(min), 7) == PadStart(Numeral(n / 10000), 2) + "." + PadStart(Numeral(n % 10000), 4)
  {
    hide Numeral, PadStart, Round;
    MinuteUnitsRange(decimal);
    var n := MinuteUnits(decimal);
    var tail := "." + PadStart(Numeral(n % 10000), 4);
    Powers();
    NumeralWidth(n % 10000, 4);
    Padded(Numeral(n % 10000), 4);
    assert Numeral(n / 10000) + "." + PadStart(Numeral(n % 10000), 4) == Numeral(n / 10000) + tail;
    PadBefore(Numeral(n / 10000), tail, 7);
  }

  lemma DdmParts(deg: nat, n: nat)
    requires n <= 600000
    ensures var value := 100.0 * deg as real + n as real / 10000.0;
      (value / 100.0).Floor == deg && Remainder(value, 100.0) == n as real / 10000.0
  {
    var value, minutes := 100.0 * deg as real + n as real / 10000.0, n as real / 10000.0;
    assert 0.0 <= minutes <= 60.0;
    assert value / 100.0 == deg as real + minutes / 100.0;
  }

  /** Half a ten-thousandth of a minute, and half of the seventh decimal. */
  const DDM_ERROR := 0.00005 / 60.0 + 0.00000005

  /**
   Decoding an encoded coordinate gives null exactly when it rounds to zero degrees and minutes, and otherwise is off
   by no more than the two roundings, minutes that round up to 60 included.
   */
  lemma {:induction false} DdmRoundTrip(decimal: real, isLng: bool)
    ensures var back := DdmToDecimal(ToBstplDdm(decimal, isLng), DirectionOf(decimal, isLng));
      && (back.None? <==> Abs(decimal) * 60.0 * 10000.0 < 0.5)
      && (back.Some? ==> Abs(back.value - decimal) <= DDM_ERROR)
  {
    hide ToFixed, ParseFloat, ToBstplDdm, MinuteUnits, Remainder;
    var n, deg := MinuteUnits(decimal), Abs(decimal).Floor;
    DdmText(decimal, isLng);
    MinuteUnitsRange(decimal);
    DdmParts(deg, n);
    ZeroUnits(decimal);
    var d := deg as real + n as real / 10000.0 / 60.0;
    assert Abs(d - Abs(decimal)) <= 0.00005 / 60.0;
    ToFixedIsNear(if decimal < 0.0 then -d else d, 10000000);
  }

  lemma ZeroUnits(decimal: real)
    ensures Abs(decimal).Floor == 0 && MinuteUnits(decimal) == 0 <==> Abs(decimal) * 60.0 * 10000.0 < 0.5
  {
    var x := Abs(decimal);
    if x < 1.0 {
      assert x.Floor == 0;
    }
  }

  /** Latitudes are north or south, longitudes east or west; zero is north and east. */
  lemma DirectionIs(decimal: real)
    ensures DirectionOf(decimal, false) in {N, S} && (DirectionOf(decimal, false) == S <==> decimal < 0.0)
    ensures DirectionOf(decimal, true) in {E, W} && (DirectionOf(decimal, true) == W <==> decimal < 0.0)
  {
  }

  /** The remainder has the sign of the number, is smaller than the divisor, and a multiple of it away. */
  lemma RemainderIs(x: real, m: real) returns (k: int)
    requires m > 0.0
    ensures -m < Remainder(x, m) < m && x == Remainder(x, m) + m * k as real
    ensures if x >= 0.0 then Remainder(x, m) >= 0.0 else Remainder(x, m) <= 0.0
  {
    if x < 0.0 {
      k := -(-x / m).Floor;
      MultipleBelow(-x, m);
    } else {
      k := (x / m).Floor;
      MultipleBelow(x, m);
    }
  }

  lemma MultipleBelow(y: real, m: real)
    requires m > 0.0
    ensures 0.0 <= y - m * (y / m).Floor as real < m
  {
    Scaled(y, y / m, (y / m).Floor as real, m);
  }

  lemma Scaled(y: real, q: real, k: real, m: real)
    requires m > 0.0 && k <= q < k + 1.0 && q == y / m
    ensures 0.0 <= y - m * k < m
  {
    assert q * m == y;
    var rest := q - k;
    assert rest * m == y - m * k;
    FractionOfIt(rest, m);
  }

  lemma FractionOfIt(part: real, m: real)
    requires m > 0.0 && 0.0 <= part < 1.0
    ensures 0.0 <= part * m < m
  {
    assert (1.0 - part) * m > 0.0;
  }

  /** A text that starts neither with a digit nor with a point and a digit is no number. */
  lemma NotANumber(s: string)
    ensures ParseFloat(s).None? <==>
      !(s != "" && '0' <= s[0] <= '9') && !(|s| >= 2 && s[0] == '.' && '0' <= s[1] <= '9')
  {
    LeadIsThere(s);
    assert WholeOf(s) == "" <==> Lead(s) == 0;
    if Lead(s) == 0 {
      assert s[0..] == s;
      if s != "" && s[0] == '.' {
        LeadIsThere(s[1..]);
        assert FractionOf(s) == s[1..][..Lead(s[1..])];
        assert |FractionOf(s)| == Lead(s[1..]);
      } else {
        assert FractionOf(s) == "";
      }
    }
  }

  lemma LeadIsThere(s: string)
    ensures Lead(s) > 0 <==> s != "" && '0' <= s[0] <= '9'
  {
  }

  /**
   Any text of degrees and decimal minutes is read as what it says, negative for south and west, up to the rounding to
   seven decimals; one that says zero is read as null.
   */
  lemma DdmReads(whole: string, fraction: string, direction: Direction)
    requires Digits(whole) && Digits(fraction) && whole != ""
    ensures var n, m := ValueOf(whole), ValueOf(fraction) as real / Pow10(|fraction|) as real;
      var degrees := (n / 100) as real + ((n % 100) as real + m) / 60.0;
      var read := DdmToDecimal(whole + "." + fraction, direction);
      && (read.None? <==> n == 0 && m == 0.0)
      && (read.Some? ==>
          Abs(read.value - (if direction == S || direction == W then -degrees else degrees)) <= 0.00000005)
  {
    hide ToFixed, ParseFloat, ValueOf, Digits, Remainder;
    ParsePlain(whole, fraction);
    var n, m := ValueOf(whole), ValueOf(fraction) as real / Pow10(|fraction|) as real;
    FractionBelowOne(fraction);
    HundredParts(n, m);
    var degrees := (n / 100) as real + ((n % 100) as real + m) / 60.0;
    ToFixedIsNear(degrees, 10000000);
    ToFixedIsNear(-degrees, 10000000);
  }

  lemma {:induction false} ValueBelow(s: string)
    requires Digits(s)
    ensures ValueOf(s) < Pow10(|s|)
  {
    hide Digits;
    if s != "" {
      DigitsParts(s);
      ValueBelow(s[..|s| - 1]);
    }
  }

  lemma FractionBelowOne(s: string)
    requires Digits(s)
    ensures 0.0 <= ValueOf(s) as real / Pow10(|s|) as real < 1.0
  {
    ValueBelow(s);
    Quotient(ValueOf(s), Pow10(|s|));
  }

  lemma Quotient(a: nat, b: nat)
    requires a < b
    ensures 0.0 <= a as real / b as real < 1.0
  {
  }

  lemma HundredParts(n: nat, m: real)
    requires 0.0 <= m < 1.0
    ensures var value := n as real + m;
      (value / 100.0).Floor == n / 100 && Remainder(value, 100.0) == (n % 100) as real + m
  {
    var value := n as real + m;
    assert n == n / 100 * 100 + n % 100;
    assert value / 100.0 == (n / 100) as real + ((n % 100) as real + m) / 100.0;
  }

  // ----- Concox units -----

  /** writeUInt32BE. */
  function Be32(n: nat): (s: seq<byte>)
    ensures |s| == 4
  {
    [Truncate(n / 0x1000000), Truncate(n / 0x10000), Truncate(n / 0x100), Truncate(n)]
  }

  lemma {:induction false} UInt32RoundTrip(s: seq<byte>, i: nat, n: nat)
    requires i + 4 <= |s| && s[i..i + 4] == Be32(n) && n < 0x1_0000_0000
    ensures UInt32(s, i) == n
  {
    hide Truncate;
    var a, b, c, d := Truncate(n / 0x1000000), Truncate(n / 0x10000), Truncate(n / 0x100), Truncate(n);
    var four := s[i..i + 4];
    assert s[i] == four[0] == a && s[i + 1] == four[1] == b && s[i + 2] == four[2] == c && s[i + 3] == four[3] == d;
    BytesValue(n);
  }

  lemma BytesValue(n: nat)
    requires n < 0x1_0000_0000
    ensures Truncate(n / 0x1000000) as int * 0x1000000 + Truncate(n / 0x10000) as int * 0x10000
      + Truncate(n / 0x100) as int * 0x100 + Truncate(n) as int == n
  {
    hide *;
    FourBytes(n);
  }

  lemma FourBytes(n: nat)
    requires n < 0x1_0000_0000
    ensures n / 0x1000000 % 256 * 0x1000000 + n / 0x10000 % 256 * 0x10000 + n / 0x100 % 256 * 0x100 + n % 256 == n
  {
    var b, c, d := n / 0x100, n / 0x10000, n / 0x1000000;
    assert n == b * 256 + n % 256;
    assert c == b / 256 && b == c * 256 + b % 256;
    assert d == c / 256 && c == d * 256 + c % 256;
  }

  function Units(degrees: real): nat {
    Round(Abs(degrees) * 1800000.0)
  }

  /** writeUInt32BE takes both coordinates; beyond about 2386 degrees it throws. */
  predicate Writable(lat: real, lng: real) {
    Units(lat) < 0x1_0000_0000 && Units(lng) < 0x1_0000_0000
  }

  /** The GPS block of makeConcoxLocation: fixed, north, east, heading 180. */
  function GpsBytes(lat: real, lng: real, satellites: byte, speed: byte): seq<byte> {
    [0xC0 | (satellites & 0x0F)] + Be32(Units(lat)) + Be32(Units(lng)) + [speed, 0x50, 180]
  }

  /** Half a unit, and half of the seventh decimal. */
  const UNIT_ERROR := 1.0 / 3600000.0 + 0.00000005

  lemma UnitsFit(degrees: real)
    ensures Abs(degrees) <= 180.0 ==> Units(degrees) < 0x1_0000_0000
    ensures Abs(ToFixed(Units(degrees) as real / 1800000.0, 10000000) - Abs(degrees)) <= UNIT_ERROR
  {
    hide ToFixed, Round;
    RoundIsNear(Abs(degrees) * 1800000.0);
    ToFixedIsNear(Units(degrees) as real / 1800000.0, 10000000);
  }

  lemma FlagBits()
    ensures (0x50 as byte) & 0x10 != 0 && (0x50 as byte) & 0x20 == 0 && (0x50 as byte) & 0x40 != 0
    ensures Word((0x50 as byte) & 0x03, 180) == 180
  {
  }

  /**
   A position as the simulator encodes it decodes, wherever the block stands, to a valid fix within the roundings of
   the position's absolute values: of the position itself exactly when it lies north and east, or next to zero.
   */
  lemma {:induction false} UnitsRoundTrip(
    lat: real, lng: real, satellites: byte, speed: byte, before: seq<byte>, after: seq<byte>)
    requires Writable(lat, lng)
    ensures var fix := GpsBlock(before + GpsBytes(lat, lng, satellites, speed) + after, |before|);
      && fix.Valid() && fix.satellites == satellites & 0x0F && fix.speed == speed && fix.heading == 180
      && Abs(fix.lat - Abs(lat)) <= UNIT_ERROR && Abs(fix.lng - Abs(lng)) <= UNIT_ERROR
      && (Abs(lat) > UNIT_ERROR ==> (Abs(fix.lat - lat) <= UNIT_ERROR <==> lat > 0.0))
      && (Abs(lng) > UNIT_ERROR ==> (Abs(fix.lng - lng) <= UNIT_ERROR <==> lng > 0.0))
  {
    hide ToFixed, Units, UInt32, Word, Be32;
    UnitsFit(lat);
    UnitsFit(lng);
    FlagBits();
    LowNibble(satellites);
    var block := GpsBytes(lat, lng, satellites, speed);
    var s := before + block + after;
    var i := |before|;
    assert s[i + 1..i + 5] == Be32(Units(lat));
    assert s[i + 5..i + 9] == Be32(Units(lng));
    UInt32RoundTrip(s, i + 1, Units(lat));
    UInt32RoundTrip(s, i + 5, Units(lng));
    assert s[i] == 0xC0 | (satellites & 0x0F) && s[i + 9] == speed && s[i + 10] == 0x50 && s[i + 11] == 180;
  }

  lemma LowNibble(b: byte)
    ensures (0xC0 | (b & 0x0F)) & 0x0F == b & 0x0F
  {
  }
}
