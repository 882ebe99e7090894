/** Bytes and 16-bit words as Node Buffers hold them. */
module Bytes {
  type byte = bv8
  type word = bv16

  function Hi(w: word): byte {
    (w >> 8) as byte
  }

  function Lo(w: word): byte {
    (w & 0xFF) as byte
  }

  /** Big-endian 16-bit read. */
  function Word(hi: byte, lo: byte): word {
    ((hi as word) << 8) | (lo as word)
  }

  lemma WordSplit(w: word)
    ensures Word(Hi(w), Lo(w)) == w
  {
  }

  lemma SplitWord(hi: byte, lo: byte)
    ensures Hi(Word(hi, lo)) == hi && Lo(Word(hi, lo)) == lo
  {
  }

  lemma WordParts(hi: byte, lo: byte)
    ensures (Word(hi, lo) >> 8) as int == hi as int && (Word(hi, lo) & 0xFF) as int == lo as int
  {
  }

  lemma WordFromParts(w: word)
    ensures w as int == (w >> 8) as int * 256 + (w & 0xFF) as int
  {
  }

  /** The number that two bytes stand for. */
  lemma WordValue(hi: byte, lo: byte)
    ensures Word(hi, lo) as int == hi as int * 256 + lo as int
  {
    hide Word;
    WordParts(hi, lo);
    WordFromParts(Word(hi, lo));
  }

  /** The byte of a value, counted up from zero. */
  function ByteOf(n: nat): (b: byte)
    requires n < 256
    ensures b as int == n
  {
    if n == 0 then 0
    else
      NextByte(ByteOf(n - 1));
      ByteOf(n - 1) + 1
  }

  lemma NextByte(b: byte)
    requires b as int != 255
    ensures (b + 1) as int == b as int + 1
  {
  }

  /** What Buffer.from keeps of a number. */
  function Truncate(n: nat): (b: byte)
    ensures b as int == n % 256
  {
    ByteOf(n % 256)
  }
}
