/**
 The encoders: frames as the device simulator builds them, the server's acknowledgements, and packed IMEIs;
 each is read back by the parser exactly where the formats allow it.
 */
module ConcoxCodec {
  import opened Bytes
  import opened Wrappers
  import opened Numbers
  import opened ConcoxCrc
  import opened ConcoxFraming
  import opened ConcoxStream
  import opened ConcoxPackets

  function Body(protocol: byte, info: seq<byte>, serial: word): seq<byte> {
    [Truncate(5 + |info|), protocol] + info + [Hi(serial), Lo(serial)]
  }

  /** buildConcoxFrame: the length byte counts protocol, info, serial and CRC, modulo 256. */
  function BuildFrame(protocol: byte, info: seq<byte>, serial: word): seq<byte> {
    var body := Body(protocol, info, serial);
    var crc := Fcs(body);
    [0x78, 0x78] + body + [Hi(crc), Lo(crc), CR, LF]
  }

  /** The frame is well formed exactly when its length fits the length byte. */
  lemma {:induction false} FrameFits(protocol: byte, info: seq<byte>, serial: word)
    ensures WellFormed(BuildFrame(protocol, info, serial)) <==> |info| <= 250
  {
    hide Fcs, Hi, Lo, Word, Truncate, Body;
    var f, body := BuildFrame(protocol, info, serial), Body(protocol, info, serial);
    BodyStarts(protocol, info, serial);
    var crc := Fcs(body);
    Enclosed(body, [Hi(crc), Lo(crc), CR, LF]);
    assert f == [0x78, 0x78] + body + [Hi(crc), Lo(crc), CR, LF];
    WordSplit(crc);
  }

  lemma BodyStarts(protocol: byte, info: seq<byte>, serial: word)
    ensures var body := Body(protocol, info, serial);
      |body| == |info| + 4 && body[0] as int == (5 + |info|) % 256 && body[1] == protocol
  {
    hide Hi, Lo;
  }

  lemma Enclosed(body: seq<byte>, tail: seq<byte>)
    requires |body| >= 2 && |tail| == 4
    ensures var f := [0x78, 0x78] + body + tail;
      && |f| == |body| + 6 && f[0] == 0x78 && f[1] == 0x78 && f[2] == body[0] && f[2..|f| - 4] == body
      && f[|f| - 4] == tail[0] && f[|f| - 3] == tail[1] && f[|f| - 2] == tail[2] && f[|f| - 1] == tail[3]
  {
  }

  /** The parser reads back what was encoded. */
  lemma FrameFields(protocol: byte, info: seq<byte>, serial: word)
    requires |info| <= 250
    ensures var f := BuildFrame(protocol, info, serial);
      |f| == |info| + 10 && Protocol(f) == protocol && Info(f) == info && Serial(f) == serial
  {
    hide Fcs;
    WordSplit(serial);
  }

  datatype Message = Message(protocol: byte, info: seq<byte>, serial: word)

  function EncodeAll(ms: seq<Message>): seq<byte> {
    if ms == [] then [] else BuildFrame(ms[0].protocol, ms[0].info, ms[0].serial) + EncodeAll(ms[1..])
  }

  function DecodeAll(items: seq<Piece>): seq<Message> {
    if items == [] then []
    else
      (if items[0].Framed? && |items[0].frame| >= 7
       then [Message(Protocol(items[0].frame), Info(items[0].frame), Serial(items[0].frame))] else [])
      + DecodeAll(items[1..])
  }

  /** Encode, concatenate, parse: every message comes back, in order, and nothing is left over. */
  lemma {:induction false} EncodeParse(ms: seq<Message>)
    requires forall i | 0 <= i < |ms| :: |ms[i].info| <= 250
    ensures var cut := Parse(EncodeAll(ms));
      DecodeAll(Items(cut.pieces)) == ms && Items(cut.pieces) == cut.pieces && cut.remainder == []
  {
    hide BuildFrame, WellFormed, Parse, Next, Protocol, Info, Serial;
    if ms == [] {
      NothingToParse();
    } else {
      var m, rest := ms[0], EncodeAll(ms[1..]);
      var f := BuildFrame(m.protocol, m.info, m.serial);
      FrameFits(m.protocol, m.info, m.serial);
      FrameFields(m.protocol, m.info, m.serial);
      FrameFirst(f, rest);
      EncodeParse(ms[1..]);
      ItemsPrepend(Framed(f), Parse(rest));
      assert Items(Parse(f + rest).pieces)[1..] == Items(Parse(rest).pieces);
    }
  }

  lemma NothingToParse()
    ensures Parse([]) == Cut([], [])
  {
  }

  lemma FrameFirst(f: seq<byte>, rest: seq<byte>)
    requires WellFormed(f)
    ensures Parse(f + rest) == Prepend(Framed(f), Parse(rest))
  {
    hide Next, WellFormed;
    FrameIsLocal(f, rest);
    assert (f + rest)[..|f|] == f && (f + rest)[|f|..] == rest;
  }

  // ----- Extended frames -----

  function ExtendedBody(protocol: byte, info: seq<byte>, serial: word): seq<byte> {
    [Truncate((1 + |info|) / 256), Truncate(1 + |info|), protocol] + info + [Hi(serial), Lo(serial)]
  }

  /** A frame of the extended kind, whose two length bytes count protocol and info only. */
  function ExtendedFrame(protocol: byte, info: seq<byte>, serial: word): seq<byte> {
    var body := ExtendedBody(protocol, info, serial);
    var crc := Fcs(body);
    [0x79, 0x79] + body + [Hi(crc), Lo(crc), 0x0D, 0x0A]
  }

  /** It is well formed exactly when its length fits the two bytes. */
  lemma {:induction false} ExtendedFits(protocol: byte, info: seq<byte>, serial: word)
    ensures WellFormed(ExtendedFrame(protocol, info, serial)) <==> |info| < 0xFFFF
  {
    hide WellFormed, Fcs, Hi, Lo, Word, Truncate, ExtendedBody;
    var f, body := ExtendedFrame(protocol, info, serial), ExtendedBody(protocol, info, serial);
    var crc := Fcs(body);
    ExtendedStarts(protocol, info, serial);
    Surrounded([0x79, 0x79], body, [Hi(crc), Lo(crc), 0x0D, 0x0A]);
    FrameShape(f);
    WordSplit(crc);
    LengthInTwo(1 + |info|);
  }

  lemma ExtendedStarts(protocol: byte, info: seq<byte>, serial: word)
    ensures var body := ExtendedBody(protocol, info, serial);
      |body| == |info| + 5 && body[0] as int == (1 + |info|) / 256 % 256 && body[1] as int == (1 + |info|) % 256
  {
    hide Hi, Lo;
  }

  lemma Surrounded(head: seq<byte>, body: seq<byte>, tail: seq<byte>)
    requires |head| == 2 && |body| >= 2 && |tail| == 4
    ensures var f := head + body + tail;
      && |f| == |body| + 6 && f[0] == head[0] && f[1] == head[1] && f[2] == body[0] && f[3] == body[1]
      && f[2..|f| - 4] == body
      && f[|f| - 4] == tail[0] && f[|f| - 3] == tail[1] && f[|f| - 2] == tail[2] && f[|f| - 1] == tail[3]
  {
  }

  lemma LengthInTwo(n: nat)
    ensures n / 256 % 256 * 256 + n % 256 == n <==> n < 0x10000
  {
    assert n == n / 256 * 256 + n % 256;
    assert n / 256 % 256 == n / 256 <==> n / 256 < 256;
  }

  lemma ExtendedFields(protocol: byte, info: seq<byte>, serial: word)
    ensures var f := ExtendedFrame(protocol, info, serial);
      |f| == |info| + 11 && Protocol(f) == protocol && Info(f) == info && Serial(f) == serial
  {
    hide Fcs;
    WordSplit(serial);
  }

  // ----- Acknowledgements -----

  /** buildAlarmAck, buildHeartbeatAck and, for protocol 0x01, buildLoginAck: ten fixed positions. */
  function BuildAck(protocol: byte, serial: word): seq<byte> {
    var crc := Fcs([0x05, protocol, Hi(serial), Lo(serial)]);
    [0x78, 0x78, 0x05, protocol, Hi(serial), Lo(serial), Hi(crc), Lo(crc), 0x0D, 0x0A]
  }

  lemma AckIsBuilt(protocol: byte, serial: word)
    ensures BuildAck(protocol, serial) == BuildFrame(protocol, [], serial)
  {
    hide Fcs, Hi, Lo;
    ByteOfFive();
    assert Body(protocol, [], serial) == [0x05, protocol, Hi(serial), Lo(serial)];
  }

  /** The registers that the table loop goes through. */
  lemma {:induction false} FcsBySteps(s: seq<byte>, registers: seq<word>)
    requires |registers| == |s| + 1 && registers[0] == 0xFFFF
    requires forall i | 0 <= i < |s| :: registers[i + 1] == TableStep(registers[i], s[i])
    ensures Register(0xFFFF, MessageBits(s)) == registers[|s|] && Fcs(s) == registers[|s|] ^ 0xFFFF
  {
    hide TableStep, Register, MessageBits;
    FcsOfNothing();
    if s != [] {
      FcsBySteps(s[..|s| - 1], registers[..|s|]);
      RegisterExtend(0xFFFF, s[..|s| - 1], s[|s| - 1]);
      assert s == s[..|s| - 1] + [s[|s| - 1]];
    }
  }

  /** The acknowledgements given as examples in the protocol's description, byte by byte. */
  lemma DocumentedAcks()
    ensures BuildAck(0x01, 0x0005) == [0x78, 0x78, 0x05, 0x01, 0x00, 0x05, 0x9F, 0xF8, 0x0D, 0x0A]
    ensures BuildAck(0x13, 0x0100) == [0x78, 0x78, 0x05, 0x13, 0x01, 0x00, 0xE1, 0xA0, 0x0D, 0x0A]
    ensures BuildAck(0x26, 0x001C) == [0x78, 0x78, 0x05, 0x26, 0x00, 0x1C, 0x9D, 0x86, 0x0D, 0x0A]
  {
    hide Fcs;
    LoginChecksum();
    HeartbeatChecksum();
    AlarmChecksum();
  }

  lemma LoginChecksum()
    ensures Fcs([0x05, 0x01, 0x00, 0x05]) == 0x9FF8
  {
    FcsBySteps([0x05, 0x01, 0x00, 0x05], [0xFFFF, 0x582A, 0x9F89, 0x1956, 0x6007]);
  }

  lemma HeartbeatChecksum()
    ensures Fcs([0x05, 0x13, 0x01, 0x00]) == 0xE1A0
  {
    FcsBySteps([0x05, 0x13, 0x01, 0x00], [0xFFFF, 0x582A, 0xAC1A, 0xAEFE, 0x1E5F]);
  }

  lemma AlarmChecksum()
    ensures Fcs([0x05, 0x26, 0x00, 0x1C]) == 0x9D86
  {
    FcsBySteps([0x05, 0x26, 0x00, 0x1C], [0xFFFF, 0x582A, 0xCA34, 0x776D, 0x6279]);
  }

  lemma ByteOfFive()
    ensures Truncate(5) == 5
  {
    hide Truncate;
    SameByte(Truncate(5), 5);
  }

  lemma SameByte(a: byte, b: byte)
    requires a as int == b as int
    ensures a == b
  {
  }

  /** An acknowledgement is one well-formed frame that carries the given protocol number and serial. */
  lemma AckIsFrame(protocol: byte, serial: word)
    ensures var f := BuildAck(protocol, serial);
      && WellFormed(f) && Parse(f) == Cut([Framed(f)], [])
      && Protocol(f) == protocol && Info(f) == [] && Serial(f) == serial
  {
    hide Fcs, Parse, WellFormed, BuildAck, BuildFrame, Protocol, Info, Serial;
    var f := BuildAck(protocol, serial);
    AckIsBuilt(protocol, serial);
    FrameFits(protocol, [], serial);
    FrameFields(protocol, [], serial);
    FrameFirst(f, []);
    assert f + [] == f;
    NothingToParse();
  }

  // ----- Packed IMEIs -----

  function DigitValue(c: char): (digit: byte)
    requires '0' <= c <= '9'
    ensures digit as int == c as int - '0' as int
  {
    ByteOf(c as int - '0' as int)
  }

  function PackPair(hi: char, lo: char): byte
    requires '0' <= hi <= '9' && '0' <= lo <= '9'
  {
    (DigitValue(hi) << 4) | DigitValue(lo)
  }

  /** Two digits a byte. */
  function PackDigits(s: string): (packed: seq<byte>)
    requires Digits(s) && |s| % 2 == 0
    ensures |packed| == |s| / 2
  {
    if s == "" then [] else PackDigits(s[..|s| - 2]) + [PackPair(s[|s| - 2], s[|s| - 1])]
  }

  /** packImei: pad to sixteen digits, pack the first sixteen. */
  method PackImei(imei: string) returns (bytes: seq<byte>)
    requires Digits(imei)
    ensures bytes == PackDigits(PadStart(imei, 16)[..16])
  {
    hide PackPair;
    var padded := PadStart(imei, 16);
    bytes := [];
    var i := 0;
    while i < 16
      invariant 0 <= i <= 16 && i % 2 == 0
      invariant bytes == PackDigits(padded[..i])
    {
      assert padded[..i + 2][..i] == padded[..i];
      bytes := bytes + [PackPair(padded[i], padded[i + 1])];
      i := i + 2;
    }
  }

  lemma Nibbles(hi: byte, lo: byte)
    requires hi <= 9 && lo <= 9
    ensures ((hi << 4) | lo) >> 4 == hi && ((hi << 4) | lo) & 0x0F == lo
  {
  }

  lemma DigitBelowTen(b: byte)
    ensures b as int <= 9 <==> b <= 9
  {
  }

  lemma DigitShows(c: char)
    requires '0' <= c <= '9'
    ensures DigitValue(c) <= 9 && HexDigit(DigitValue(c)) == c
  {
    hide ByteOf, DigitValue;
    DigitBelowTen(DigitValue(c));
  }

  lemma PairRoundTrip(hi: char, lo: char)
    requires '0' <= hi <= '9' && '0' <= lo <= '9'
    ensures var pair := PackPair(hi, lo);
      pair >> 4 <= 9 && pair & 0x0F <= 9 && HexDigit(pair >> 4) == hi && HexDigit(pair & 0x0F) == lo
  {
    hide DigitValue, HexDigit;
    DigitShows(hi);
    DigitShows(lo);
    Nibbles(DigitValue(hi), DigitValue(lo));
  }

  lemma {:induction false} HexOfPacked(s: string)
    requires Digits(s) && |s| % 2 == 0
    ensures HexOf(PackDigits(s)) == s
  {
    if s != "" {
      var front, packed := s[..|s| - 2], PackDigits(s);
      HexOfPacked(front);
      PairRoundTrip(s[|s| - 2], s[|s| - 1]);
      assert packed[..|packed| - 1] == PackDigits(front);
      assert s == front + [s[|s| - 2], s[|s| - 1]];
    }
  }

  /**
   Decoding a packed IMEI gives it back exactly for fifteen digits, or sixteen that do not start with 0:
   shorter ones keep all but one of their padding zeros, longer ones are cut off.
   */
  lemma ImeiRoundTrip(imei: string)
    requires Digits(imei)
    ensures DropLeadingZero(HexOf(PackDigits(PadStart(imei, 16)[..16]))) == imei
      <==> |imei| == 15 || (|imei| == 16 && imei[0] != '0')
  {
    var padded := PadStart(imei, 16);
    HexOfPacked(padded[..16]);
    if |imei| == 15 {
      assert padded[..16][1..] == imei;
    } else if |imei| == 16 {
      assert padded[..16] == imei;
    }
  }

  /** So every such login is accepted with the IMEI that was packed. */
  lemma LoginRoundTrip(imei: string, rest: seq<byte>, serial: word)
    requires Digits(imei) && |imei| == 15 && |rest| == 4
    ensures ParseLogin(PackDigits(PadStart(imei, 16)[..16]) + rest, serial)
         == Some(Login(imei, Word(rest[0], rest[1]), Word(rest[2], rest[3]), serial))
  {
    hide Word;
    ImeiRoundTrip(imei);
    var packed := PackDigits(PadStart(imei, 16)[..16]);
    assert (packed + rest)[..8] == packed;
  }
}
