/**
 The checksum of Concox frames: the table-driven loop of concoxCrc.js, proved equal to the
 bit-by-bit FCS of appendix C.2 of RFC 1662, and the error bursts it is bound to detect.
 */
module ConcoxCrc {
  import opened Bytes

  // ----- The reference: one bit at a time -----

  /** One shift of the reflected register with polynomial 0x8408. */
  function Shift(c: word): word {
    if c & 1 == 1 then (c >> 1) ^ 0x8408 else c >> 1
  }

  function Absorb(c: word, bit: bool): word {
    Shift(if bit then c ^ 1 else c)
  }

  function Register(c: word, bits: seq<bool>): word
    decreases bits
  {
    if bits == [] then c else Register(Absorb(c, bits[0]), bits[1..])
  }

  /** The bits of a byte in transmission order, least significant first. */
  function BitsOf(b: byte): (bits: seq<bool>)
    ensures |bits| == 8
  {
    [b & 1 != 0, b & 2 != 0, b & 4 != 0, b & 8 != 0,
     b & 16 != 0, b & 32 != 0, b & 64 != 0, b & 128 != 0]
  }

  function MessageBits(s: seq<byte>): (bits: seq<bool>)
    ensures |bits| == 8 * |s|
  {
    if s == [] then [] else BitsOf(s[0]) + MessageBits(s[1..])
  }

  /** The FCS: initial register 0xFFFF, final complement. */
  function Fcs(s: seq<byte>): word {
    Register(0xFFFF, MessageBits(s)) ^ 0xFFFF
  }

  // ----- The implementation: one table lookup a byte -----

  function Pick(j: byte, t0: word, t1: word, t2: word, t3: word,
                t4: word, t5: word, t6: word, t7: word): word {
    if j & 4 == 0
    then if j & 2 == 0 then (if j & 1 == 0 then t0 else t1) else (if j & 1 == 0 then t2 else t3)
    else if j & 2 == 0 then (if j & 1 == 0 then t4 else t5) else (if j & 1 == 0 then t6 else t7)
  }

  /** The 256 constants, in the 32 rows of 8 of the source; a quarter is 8 rows. */
  function CrcTable(i: byte): word {
    if i < 0x40 then Quarter0(i) else if i < 0x80 then Quarter1(i)
    else if i < 0xC0 then Quarter2(i) else Quarter3(i)
  }

  function Quarter0(i: byte): word {
    var r, j := i >> 3, i & 7;
    if r == 0x00 then Pick(j, 0x0000, 0x1189, 0x2312, 0x329B, 0x4624, 0x57AD, 0x6536, 0x74BF)
    else if r == 0x01 then Pick(j, 0x8C48, 0x9DC1, 0xAF5A, 0xBED3, 0xCA6C, 0xDBE5, 0xE97E, 0xF8F7)
    else if r == 0x02 then Pick(j, 0x1081, 0x0108, 0x3393, 0x221A, 0x56A5, 0x472C, 0x75B7, 0x643E)
    else if r == 0x03 then Pick(j, 0x9CC9, 0x8D40, 0xBFDB, 0xAE52, 0xDAED, 0xCB64, 0xF9FF, 0xE876)
    else if r == 0x04 then Pick(j, 0x2102, 0x308B, 0x0210, 0x1399, 0x6726, 0x76AF, 0x4434, 0x55BD)
    else if r == 0x05 then Pick(j, 0xAD4A, 0xBCC3, 0x8E58, 0x9FD1, 0xEB6E, 0xFAE7, 0xC87C, 0xD9F5)
    else if r == 0x06 then Pick(j, 0x3183, 0x200A, 0x1291, 0x0318, 0x77A7, 0x662E, 0x54B5, 0x453C)
    else Pick(j, 0xBDCB, 0xAC42, 0x9ED9, 0x8F50, 0xFBEF, 0xEA66, 0xD8FD, 0xC974)
  }

  function Quarter1(i: byte): word {
    var r, j := i >> 3, i & 7;
    if r == 0x08 then Pick(j, 0x4204, 0x538D, 0x6116, 0x709F, 0x0420, 0x15A9, 0x2732, 0x36BB)
    else if r == 0x09 then Pick(j, 0xCE4C, 0xDFC5, 0xED5E, 0xFCD7, 0x8868, 0x99E1, 0xAB7A, 0xBAF3)
    else if r == 0x0A then Pick(j, 0x5285, 0x430C, 0x7197, 0x601E, 0x14A1, 0x0528, 0x37B3, 0x263A)
    else if r == 0x0B then Pick(j, 0xDECD, 0xCF44, 0xFDDF, 0xEC56, 0x98E9, 0x8960, 0xBBFB, 0xAA72)
    else if r == 0x0C then Pick(j, 0x6306, 0x728F, 0x4014, 0x519D, 0x2522, 0x34AB, 0x0630, 0x17B9)
    else if r == 0x0D then Pick(j, 0xEF4E, 0xFEC7, 0xCC5C, 0xDDD5, 0xA96A, 0xB8E3, 0x8A78, 0x9BF1)
    else if r == 0x0E then Pick(j, 0x7387, 0x620E, 0x5095, 0x411C, 0x35A3, 0x242A, 0x16B1, 0x0738)
    else Pick(j, 0xFFCF, 0xEE46, 0xDCDD, 0xCD54, 0xB9EB, 0xA862, 0x9AF9, 0x8B70)
  }

  function Quarter2(i: byte): word {
    var r, j := i >> 3, i & 7;
    if r == 0x10 then Pick(j, 0x8408, 0x9581, 0xA71A, 0xB693, 0xC22C, 0xD3A5, 0xE13E, 0xF0B7)
    else if r == 0x11 then Pick(j, 0x0840, 0x19C9, 0x2B52, 0x3ADB, 0x4E64, 0x5FED, 0x6D76, 0x7CFF)
    else if r == 0x12 then Pick(j, 0x9489, 0x8500, 0xB79B, 0xA612, 0xD2AD, 0xC324, 0xF1BF, 0xE036)
    else if r == 0x13 then Pick(j, 0x18C1, 0x0948, 0x3BD3, 0x2A5A, 0x5EE5, 0x4F6C, 0x7DF7, 0x6C7E)
    else if r == 0x14 then Pick(j, 0xA50A, 0xB483, 0x8618, 0x9791, 0xE32E, 0xF2A7, 0xC03C, 0xD1B5)
    else if r == 0x15 then Pick(j, 0x2942, 0x38CB, 0x0A50, 0x1BD9, 0x6F66, 0x7EEF, 0x4C74, 0x5DFD)
    else if r == 0x16 then Pick(j, 0xB58B, 0xA402, 0x9699, 0x8710, 0xF3AF, 0xE226, 0xD0BD, 0xC134)
    else Pick(j, 0x39C3, 0x284A, 0x1AD1, 0x0B58, 0x7FE7, 0x6E6E, 0x5CF5, 0x4D7C)
  }

  function Quarter3(i: byte): word {
    var r, j := i >> 3, i & 7;
    if r == 0x18 then Pick(j, 0xC60C, 0xD785, 0xE51E, 0xF497, 0x8028, 0x91A1, 0xA33A, 0xB2B3)
    else if r == 0x19 then Pick(j, 0x4A44, 0x5BCD, 0x6956, 0x78DF, 0x0C60, 0x1DE9, 0x2F72, 0x3EFB)
    else if r == 0x1A then Pick(j, 0xD68D, 0xC704, 0xF59F, 0xE416, 0x90A9, 0x8120, 0xB3BB, 0xA232)
    else if r == 0x1B then Pick(j, 0x5AC5, 0x4B4C, 0x79D7, 0x685E, 0x1CE1, 0x0D68, 0x3FF3, 0x2E7A)
    else if r == 0x1C then Pick(j, 0xE70E, 0xF687, 0xC41C, 0xD595, 0xA12A, 0xB0A3, 0x8238, 0x93B1)
    else if r == 0x1D then Pick(j, 0x6B46, 0x7ACF, 0x4854, 0x59DD, 0x2D62, 0x3CEB, 0x0E70, 0x1FF9)
    else if r == 0x1E then Pick(j, 0xF78F, 0xE606, 0xD49D, 0xC514, 0xB1AB, 0xA022, 0x92B9, 0x8330)
    else Pick(j, 0x7BC7, 0x6A4E, 0x58D5, 0x495C, 0x3DE3, 0x2C6A, 0x1EF1, 0x0F78)
  }

  function LowByte(x: word): byte {
    (x & 0xFF) as byte
  }

  /** What one iteration of the loop does to the register. */
  function TableStep(c: word, b: byte): word {
    (c >> 8) ^ CrcTable(LowByte(c ^ (b as word)))
  }

  method CrcItu(buf: seq<byte>) returns (crc: word)
    ensures crc == Fcs(buf)
  {
    hide TableStep, Register, MessageBits;
    FcsOfNothing();
    crc := 0xFFFF;
    for i := 0 to |buf|
      invariant crc == Register(0xFFFF, MessageBits(buf[..i]))
    {
      RegisterExtend(0xFFFF, buf[..i], buf[i]);
      assert buf[..i + 1] == buf[..i] + [buf[i]];
      crc := TableStep(crc, buf[i]);
    }
    assert buf[..|buf|] == buf;
    crc := crc ^ 0xFFFF;
  }

  lemma FcsOfNothing()
    ensures Register(0xFFFF, MessageBits([])) == 0xFFFF
  {
  }

  // ----- Table and bits agree -----

  function EightShifts(c: word): word {
    Shift(Shift(Shift(Shift(Shift(Shift(Shift(Shift(c))))))))
  }

  lemma Quarter0IsEightShifts(i: byte)
    requires 0x00 <= i <= 0x3F
    ensures Quarter0(i) == EightShifts(i as word)
  {
  }

  lemma Quarter1IsEightShifts(i: byte)
    requires 0x40 <= i <= 0x7F
    ensures Quarter1(i) == EightShifts(i as word)
  {
  }

  lemma Quarter2IsEightShifts(i: byte)
    requires 0x80 <= i <= 0xBF
    ensures Quarter2(i) == EightShifts(i as word)
  {
  }

  lemma Quarter3IsEightShifts(i: byte)
    requires 0xC0 <= i <= 0xFF
    ensures Quarter3(i) == EightShifts(i as word)
  {
  }

  lemma TableIsEightShifts(i: byte)
    ensures CrcTable(i) == EightShifts(i as word)
  {
    hide Quarter0, Quarter1, Quarter2, Quarter3, EightShifts;
    if i < 0x40 {
      Quarter0IsEightShifts(i);
    } else if i < 0x80 {
      Quarter1IsEightShifts(i);
    } else if i < 0xC0 {
      Quarter2IsEightShifts(i);
    } else {
      Quarter3IsEightShifts(i);
    }
  }

  function Xor(c: word, d: word): word {
    c ^ d
  }

  function Half(w: word): word {
    w >> 1
  }

  lemma XorHalves(x: word, g: word)
    ensures Half(Xor(x, g)) == Xor(Half(x), Half(g))
  {
  }

  lemma XorSwap(x: word, y: word, z: word)
    ensures Xor(Xor(x, y), z) == Xor(Xor(x, z), y)
  {
  }

  lemma XorLowBit(x: word, g: word)
    requires g & 1 == 0
    ensures Xor(x, g) & 1 == x & 1
  {
  }

  lemma ShiftCases(c: word)
    ensures Shift(c) == if c & 1 == 1 then Xor(Half(c), 0x8408) else Half(c)
  {
  }

  /** Bits that stay clear of the feedback tap only move. */
  lemma PassThrough(x: word, g: word)
    requires g & 1 == 0
    ensures Shift(Xor(x, g)) == Xor(Shift(x), Half(g))
  {
    hide Xor, Half, Shift;
    ShiftCases(x);
    ShiftCases(Xor(x, g));
    XorLowBit(x, g);
    XorHalves(x, g);
    XorSwap(Half(x), Half(g), 0x8408);
  }

  lemma HighHalves(c: word)
    ensures Xor(c & 0xFF, c & 0xFF00) == c
    ensures var g1 := Half(c & 0xFF00); var g2 := Half(g1); var g3 := Half(g2); var g4 := Half(g3);
      var g5 := Half(g4); var g6 := Half(g5); var g7 := Half(g6);
      && (c & 0xFF00) & 1 == g1 & 1 == g2 & 1 == g3 & 1 == g4 & 1 == g5 & 1 == g6 & 1 == g7 & 1 == 0
      && Half(g7) == c >> 8
  {
  }

  /** The high byte rides through eight shifts. */
  lemma EightShiftsSplit(c: word)
    ensures EightShifts(c) == Xor(EightShifts(c & 0xFF), c >> 8)
  {
    hide Shift, Xor, Half;
    HighHalves(c);
    var x0, g0 := c & 0xFF, c & 0xFF00;
    var x1, g1 := Shift(x0), Half(g0);
    var x2, g2 := Shift(x1), Half(g1);
    var x3, g3 := Shift(x2), Half(g2);
    var x4, g4 := Shift(x3), Half(g3);
    var x5, g5 := Shift(x4), Half(g4);
    var x6, g6 := Shift(x5), Half(g5);
    var x7, g7 := Shift(x6), Half(g6);
    PassThrough(x0, g0); PassThrough(x1, g1); PassThrough(x2, g2); PassThrough(x3, g3);
    PassThrough(x4, g4); PassThrough(x5, g5); PassThrough(x6, g6); PassThrough(x7, g7);
  }

  /** Absorbing the low bit of w and keeping the others for later is one shift with all of w xored in. */
  lemma AbsorbLowBit(c: word, w: word)
    ensures Absorb(c, w & 1 != 0) ^ (w >> 1) == Shift(c ^ w)
  {
  }

  lemma XorZero(c: word)
    ensures c ^ 0 == c
  {
  }

  ghost predicate LowBitsFirst(w: word, bits: seq<bool>) {
    if bits == [] then w == 0 else bits[0] == (w & 1 != 0) && LowBitsFirst(w >> 1, bits[1..])
  }

  function Shifts(n: nat, c: word): word {
    if n == 0 then c else Shifts(n - 1, Shift(c))
  }

  /** Absorbing bits one by one is xoring them all in, then shifting as often. */
  lemma {:induction false} AbsorbAll(c: word, w: word, bits: seq<bool>)
    requires LowBitsFirst(w, bits)
    ensures Register(c, bits) == Shifts(|bits|, c ^ w)
    decreases bits
  {
    if bits == [] {
      XorZero(c);
    } else {
      AbsorbLowBit(c, w);
      AbsorbAll(Absorb(c, bits[0]), w >> 1, bits[1..]);
    }
  }

  lemma {:induction false} ByteLowBitsFirst(b: byte, i: nat)
    requires i <= 8
    ensures LowBitsFirst((b as word) >> i, BitsOf(b)[i..])
    decreases 8 - i
  {
    hide BitsOf;
    var w := b as word;
    if i < 8 {
      ByteLowBitsFirst(b, i + 1);
      ShiftOnce(w, i);
      BitOfByte(b, i);
      assert BitsOf(b)[i..][1..] == BitsOf(b)[i + 1..];
    }
  }

  lemma ShiftOnce(w: word, i: nat)
    requires i < 8
    ensures (w >> i) >> 1 == w >> (i + 1)
  {
    if i == 0 {} else if i == 1 {} else if i == 2 {} else if i == 3 {}
    else if i == 4 {} else if i == 5 {} else if i == 6 {} else {}
  }

  lemma BitOfByte(b: byte, i: nat)
    requires i < 8
    ensures BitsOf(b)[i] == (((b as word) >> i) & 1 != 0)
  {
    if i == 0 {} else if i == 1 {} else if i == 2 {} else if i == 3 {}
    else if i == 4 {} else if i == 5 {} else if i == 6 {} else {}
  }

  lemma EightShiftsUnroll(c: word)
    ensures Shifts(8, c) == EightShifts(c)
  {
    var c1 := Shift(c);
    var c2 := Shift(c1);
    var c3 := Shift(c2);
    var c4 := Shift(c3);
    var c5 := Shift(c4);
    var c6 := Shift(c5);
    assert Shifts(8, c) == Shifts(6, c2) == Shifts(4, c4) == Shifts(2, c6);
    assert Shifts(1, Shift(c6)) == Shifts(0, Shift(Shift(c6)));
  }

  lemma LowBytes(c: word, b: byte)
    ensures var x := c ^ (b as word);
      x >> 8 == c >> 8 && LowByte(x) as word == x & 0xFF
  {
  }

  lemma StepIsXor(c: word, b: byte)
    ensures TableStep(c, b) == Xor(CrcTable(LowByte(c ^ (b as word))), c >> 8)
  {
    hide CrcTable, LowByte;
  }

  lemma TableStepIsShifts(c: word, b: byte)
    ensures TableStep(c, b) == EightShifts(c ^ (b as word))
  {
    hide CrcTable, EightShifts, LowByte, TableStep, Xor;
    StepIsXor(c, b);
    var x := c ^ (b as word);
    LowBytes(c, b);
    TableIsEightShifts(LowByte(x));
    EightShiftsSplit(x);
  }

  lemma TableStepIsByte(c: word, b: byte)
    ensures TableStep(c, b) == Register(c, BitsOf(b))
  {
    TableStepIsShifts(c, b);
    EightShiftsUnroll(c ^ (b as word));
    ByteLowBitsFirst(b, 0);
    assert BitsOf(b)[0..] == BitsOf(b);
    AbsorbAll(c, b as word, BitsOf(b));
  }

  lemma RegisterConcat(c: word, s: seq<bool>, t: seq<bool>)
    ensures Register(c, s + t) == Register(Register(c, s), t)
    decreases s
  {
    if s == [] {
      assert s + t == t;
    } else {
      assert (s + t)[1..] == s[1..] + t;
      RegisterConcat(Absorb(c, s[0]), s[1..], t);
    }
  }

  lemma BitsConcat(s: seq<byte>, t: seq<byte>)
    ensures MessageBits(s + t) == MessageBits(s) + MessageBits(t)
  {
    if s == [] {
      assert s + t == t;
    } else {
      assert (s + t)[1..] == s[1..] + t;
      BitsConcat(s[1..], t);
    }
  }

  lemma RegisterExtend(c: word, s: seq<byte>, b: byte)
    ensures Register(c, MessageBits(s + [b])) == TableStep(Register(c, MessageBits(s)), b)
  {
    BitsConcat(s, [b]);
    assert MessageBits([b]) == BitsOf(b);
    RegisterConcat(c, MessageBits(s), BitsOf(b));
    TableStepIsByte(Register(c, MessageBits(s)), b);
  }

  // ----- Error bursts -----

  /** a and b agree outside the n bits from k on. */
  ghost predicate AgreeOutside<T(!new)>(a: seq<T>, b: seq<T>, k: nat, n: nat) {
    && |a| == |b|
    && forall i | 0 <= i < |a| && (i < k || k + n <= i) :: a[i] == b[i]
  }

  function Unshift(w: word): word {
    if w & 0x8000 != 0 then ((w ^ 0x8408) << 1) | 1 else w << 1
  }

  /** The top bit of a shifted register tells which bit fell out, so a shift loses nothing. */
  lemma ShiftInvertible(c: word)
    ensures Unshift(Shift(c)) == c
  {
    if c & 1 == 1 {
      OddShift(c);
    } else {
      EvenShift(c);
    }
  }

  lemma OddShift(c: word)
    requires c & 1 == 1
    ensures ((c >> 1) ^ 0x8408) & 0x8000 != 0 && (((c >> 1) ^ 0x8408 ^ 0x8408) << 1) | 1 == c
  {
  }

  lemma EvenShift(c: word)
    requires c & 1 != 1
    ensures (c >> 1) & 0x8000 == 0 && (c >> 1) << 1 == c
  {
  }

  lemma FlipTwice(c: word)
    ensures Xor(Xor(c, 1), 1) == c
  {
  }

  lemma AbsorbCases(c: word, bit: bool)
    ensures Absorb(c, bit) == Shift(if bit then Xor(c, 1) else c)
  {
  }

  lemma AbsorbInjective(c: word, d: word, bit: bool)
    requires c != d
    ensures Absorb(c, bit) != Absorb(d, bit)
  {
    hide Shift, Unshift, Xor, Absorb;
    AbsorbCases(c, bit);
    AbsorbCases(d, bit);
    FlipTwice(c);
    FlipTwice(d);
    ShiftInvertible(if bit then Xor(c, 1) else c);
    ShiftInvertible(if bit then Xor(d, 1) else d);
  }

  /** Equal bits never bring two different registers back together. */
  lemma {:induction false} DifferencePersists(c: word, d: word, bits: seq<bool>)
    requires c != d
    ensures Register(c, bits) != Register(d, bits)
    decreases bits
  {
    if bits != [] {
      AbsorbInjective(c, d, bits[0]);
      DifferencePersists(Absorb(c, bits[0]), Absorb(d, bits[0]), bits[1..]);
    }
  }

  ghost predicate DifferIn(c: word, d: word, mask: word) {
    c & mask != d & mask
  }

  lemma FlipKeepsDifference(c: word, d: word, x: bool, y: bool, mask: word)
    requires DifferIn(c, d, mask) && mask & 1 == 0
    ensures DifferIn(if x then Xor(c, 1) else c, if y then Xor(d, 1) else d, mask)
  {
    if x {} else {}
    if y {} else {}
  }

  lemma HalfMovesDifference(c: word, d: word, mask: word)
    requires DifferIn(c, d, mask) && mask & 1 == 0
    ensures DifferIn(Half(c), Half(d), Half(mask))
  {
  }

  lemma XorKeepsDifference(c: word, d: word, mask: word)
    requires DifferIn(c, d, mask)
    ensures DifferIn(Xor(c, 0x8408), Xor(d, 0x8408), mask)
  {
  }

  lemma TopBitTells(c: word, d: word)
    ensures DifferIn(Xor(Half(c), 0x8408), Half(d), 0x8000)
    ensures DifferIn(Half(c), Xor(Half(d), 0x8408), 0x8000)
  {
  }

  /** A bit in which two registers differ moves down one place, or bit 15 takes over, whatever two bits follow. */
  lemma DifferenceSinks(c: word, d: word, x: bool, y: bool, mask: word)
    requires DifferIn(c, d, mask) && mask & 1 == 0
    ensures
      || DifferIn(Absorb(c, x), Absorb(d, y), Half(mask))
      || DifferIn(Absorb(c, x), Absorb(d, y), 0x8000)
  {
    hide Absorb, Xor, Half, Shift, DifferIn;
    var c', d' := if x then Xor(c, 1) else c, if y then Xor(d, 1) else d;
    FlipKeepsDifference(c, d, x, y, mask);
    AbsorbCases(c, x);
    AbsorbCases(d, y);
    ShiftCases(c');
    ShiftCases(d');
    HalfMovesDifference(c', d', mask);
    XorKeepsDifference(Half(c'), Half(d'), Half(mask));
    TopBitTells(c', d');
  }

  lemma FirstDifference(c: word, x: bool, y: bool)
    requires x != y
    ensures DifferIn(Absorb(c, x), Absorb(c, y), 0x8000)
  {
    if c & 1 == 1 {} else {}
  }

  function Mask(room: nat): word
    requires room <= 15
  {
    1 << room
  }

  lemma MaskHalf(room: nat)
    requires 1 <= room <= 15
    ensures Mask(room) & 1 == 0 && Half(Mask(room)) == Mask(room - 1)
  {
    if room == 1 {} else if room == 2 {} else if room == 3 {} else if room == 4 {} else if room == 5 {}
    else if room == 6 {} else if room == 7 {} else if room == 8 {} else if room == 9 {} else if room == 10 {}
    else if room == 11 {} else if room == 12 {} else if room == 13 {} else if room == 14 {} else {}
  }

  lemma TopMask()
    ensures Mask(15) == 0x8000
  {
  }

  lemma DifferInDiffers(c: word, d: word, mask: word)
    requires DifferIn(c, d, mask)
    ensures c != d
  {
  }

  /** A difference in bit `room` outlives as many arbitrary bits as it has places to sink. */
  lemma {:induction false} WindowSurvives(c: word, d: word, a: seq<bool>, b: seq<bool>, room: nat)
    requires |a| == |b| <= room <= 15
    requires DifferIn(c, d, Mask(room))
    ensures Register(c, a) != Register(d, b)
    decreases a
  {
    hide Mask, Absorb, Shift, DifferIn, Half;
    if a == [] {
      DifferInDiffers(c, d, Mask(room));
    } else {
      MaskHalf(room);
      TopMask();
      DifferenceSinks(c, d, a[0], b[0], Mask(room));
      var c', d' := Absorb(c, a[0]), Absorb(d, b[0]);
      var room' := if DifferIn(c', d', 0x8000) then 15 else room - 1;
      WindowSurvives(c', d', a[1..], b[1..], room');
    }
  }

  /** Bit strings that differ, and only inside a window of 16 bits, leave different registers. */
  lemma {:induction false} BurstChangesRegister(c: word, a: seq<bool>, b: seq<bool>, k: nat, n: nat)
    requires n <= 16 && a != b && AgreeOutside(a, b, k, n)
    ensures Register(c, a) != Register(c, b)
    decreases a
  {
    hide Absorb, Shift, DifferIn, Mask;
    if a[0] == b[0] {
      assert a == [a[0]] + a[1..] && b == [b[0]] + b[1..];
      var k', n' := if k > 0 then k - 1 else 0, if k > 0 || n == 0 then n else n - 1;
      BurstChangesRegister(Absorb(c, a[0]), a[1..], b[1..], k', n');
    } else {
      var m := if n - 1 <= |a| - 1 then n - 1 else |a| - 1;
      var c', d' := Absorb(c, a[0]), Absorb(c, b[0]);
      FirstDifference(c, a[0], b[0]);
      TopMask();
      WindowSurvives(c', d', a[1..][..m], b[1..][..m], 15);
      assert a[1..][m..] == b[1..][m..];
      assert a[1..] == a[1..][..m] + a[1..][m..] && b[1..] == b[1..][..m] + b[1..][m..];
      RegisterConcat(c', a[1..][..m], a[1..][m..]);
      RegisterConcat(d', b[1..][..m], b[1..][m..]);
      DifferencePersists(Register(c', a[1..][..m]), Register(d', b[1..][..m]), a[1..][m..]);
    }
  }

  /** Every burst of up to 16 bits, aligned to bytes or not, changes the FCS. */
  lemma BurstDetected(s: seq<byte>, t: seq<byte>, k: nat, n: nat)
    requires n <= 16 && s != t && AgreeOutside(MessageBits(s), MessageBits(t), k, n)
    ensures Fcs(s) != Fcs(t)
  {
    if MessageBits(s) == MessageBits(t) {
      BitsDetermineBytes(s, t);
    }
    BurstChangesRegister(0xFFFF, MessageBits(s), MessageBits(t), k, n);
  }

  lemma BitsOfInjective(a: byte, b: byte)
    requires BitsOf(a) == BitsOf(b)
    ensures a == b
  {
    var x, y := BitsOf(a), BitsOf(b);
    assert x[0] == y[0] && x[1] == y[1] && x[2] == y[2] && x[3] == y[3];
    assert x[4] == y[4] && x[5] == y[5] && x[6] == y[6] && x[7] == y[7];
  }

  lemma {:induction false} BitsDetermineBytes(s: seq<byte>, t: seq<byte>)
    requires MessageBits(s) == MessageBits(t)
    ensures s == t
  {
    if s != [] {
      assert MessageBits(s)[..8] == BitsOf(s[0]) && MessageBits(s)[8..] == MessageBits(s[1..]);
      assert MessageBits(t)[..8] == BitsOf(t[0]) && MessageBits(t)[8..] == MessageBits(t[1..]);
      BitsOfInjective(s[0], t[0]);
      BitsDetermineBytes(s[1..], t[1..]);
      assert s == [s[0]] + s[1..] && t == [t[0]] + t[1..];
    }
  }

  lemma {:induction false} BitAt(s: seq<byte>, i: nat)
    requires i < 8 * |s|
    ensures MessageBits(s)[i] == BitsOf(s[i / 8])[i % 8]
  {
    hide BitsOf;
    if i >= 8 {
      BitAt(s[1..], i - 8);
      assert MessageBits(s)[i] == MessageBits(s[1..])[i - 8];
    }
  }

  /** Changing one byte or two adjacent bytes, anywhere in a string of any length, changes the FCS. */
  lemma AdjacentBytesDetected(s: seq<byte>, t: seq<byte>, k: nat)
    requires s != t && AgreeOutside(s, t, k, 2)
    ensures Fcs(s) != Fcs(t)
  {
    forall i | 0 <= i < 8 * |s| && (i < 8 * k || 8 * k + 16 <= i)
      ensures MessageBits(s)[i] == MessageBits(t)[i]
    {
      BitAt(s, i);
      BitAt(t, i);
    }
    BurstDetected(s, t, 8 * k, 16);
  }
}
