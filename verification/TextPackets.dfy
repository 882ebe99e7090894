/**
 What a text-protocol device sends is what is reported: packets from a '$' to a delimiter, with anything between
 them that is neither, in bytes cut as TCP likes.
 */
module TextPackets {
  import opened Bytes
  import opened Wrappers
  import opened TextFraming

  /** A packet, and what a line may carry in front of it. */
  datatype Line = Line(noise: string, body: string)

  predicate Proper(m: Line, d: char) {
    d !in m.noise && d !in m.body && '$' !in m.body
  }

  function Wire(ms: seq<Line>, d: char): string {
    if ms == [] then "" else Wire(ms[..|ms| - 1], d) + (ms[|ms| - 1].noise + "$" + ms[|ms| - 1].body + [d])
  }

  function Sent(ms: seq<Line>, d: char): seq<string> {
    seq(|ms|, i requires 0 <= i < |ms| => "$" + ms[i].body + [d])
  }

  lemma DollarFrom(noise: string, rest: string)
    requires '$' !in rest
    ensures FromDollar(noise + "$" + rest) == Some("$" + rest)
  {
    var s := noise + "$" + rest;
    DollarIsLast(s);
    var i := LastIndexOf(s, '$');
    assert s[|noise|] == '$';
    assert forall k | |noise| < k < |s| :: s[k] == rest[k - |noise| - 1];
    assert i >= |noise|;
    assert s[|noise|..] == "$" + rest;
  }

  lemma OneLine(m: Line, d: char)
    requires Proper(m, d) && d != '$'
    ensures var s := m.noise + "$" + m.body + [d];
      Packets(s, d) == ["$" + m.body + [d]] && Tail(s, d) == ""
  {
    hide Packets, Tail, FromDollar;
    var front := m.noise + "$" + m.body;
    NoDelimiter(front, d);
    Snoc(front, d, d);
    assert front + [d] == m.noise + "$" + (m.body + [d]);
    DollarFrom(m.noise, m.body + [d]);
    assert "$" + (m.body + [d]) == "$" + m.body + [d];
  }

  /** Every packet sent is reported, in order and as it was sent, and nothing else; an unfinished line waits. */
  lemma {:induction false} PacketsArrive(ms: seq<Line>, tail: string, d: char)
    requires d != '$' && d !in tail && forall m | m in ms :: Proper(m, d)
    ensures Packets(Wire(ms, d) + tail, d) == Sent(ms, d) && Tail(Wire(ms, d) + tail, d) == tail
    decreases |ms|
  {
    hide Packets, Tail;
    if ms == [] {
      assert Wire(ms, d) + tail == tail;
      NoDelimiter(tail, d);
    } else {
      var front, m := ms[..|ms| - 1], ms[|ms| - 1];
      var line := m.noise + "$" + m.body + [d];
      assert m in ms && forall n | n in front :: n in ms;
      PacketsArrive(front, "", d);
      assert Wire(front, d) + "" == Wire(front, d);
      Resume(Wire(front, d), line, d);
      assert "" + line == line;
      OneLine(m, d);
      Resume(Wire(ms, d), tail, d);
      assert "" + tail == tail;
      NoDelimiter(tail, d);
      assert Sent(ms, d) == Sent(front, d) + ["$" + m.body + [d]];
    }
  }

  lemma {:induction false} WireIsShort(ms: seq<Line>, d: char)
    requires d != '$' && forall m | m in ms :: Proper(m, d) && |m.noise| + 1 + |m.body| <= 10000
    ensures ShortSegments(Wire(ms, d), d)
    decreases |ms|
  {
    hide Packets, Tail;
    if ms != [] {
      var front, m := ms[..|ms| - 1], ms[|ms| - 1];
      assert m in ms && forall n | n in front :: n in ms;
      WireIsShort(front, d);
      PacketsArrive(front, "", d);
      assert Wire(front, d) + "" == Wire(front, d);
      var a, line := Wire(front, d), m.noise + "$" + m.body;
      var s := a + (line + [d]);
      forall i | 0 <= i < |s| && s[i] == d && '$' in Tail(s[..i], d)
        ensures |Tail(s[..i], d)| <= 10000
      {
        if i < |a| {
          assert s[..i] == a[..i];
        } else {
          assert s[i] == (line + [d])[i - |a|] && d !in line;
          assert i == |a| + |line| && s[..i] == a + line;
          Resume(a, line, d);
          NoDelimiter(line, d);
          assert "" + line == line;
        }
      }
    }
  }

  lemma NoMoreSegments(s: string, tail: string, d: char)
    requires ShortSegments(s, d) && d !in tail
    ensures ShortSegments(s + tail, d)
  {
    hide Tail;
    forall i | 0 <= i < |s + tail| && (s + tail)[i] == d && '$' in Tail((s + tail)[..i], d)
      ensures |Tail((s + tail)[..i], d)| <= 10000
    {
      assert (s + tail)[..i] == s[..i];
    }
  }

  /** So from the bytes: lines of at most 10000 characters before the delimiter arrive however the stream is cut. */
  lemma LinesArrive(ms: seq<Line>, tail: string, chunks: seq<seq<byte>>, d: char)
    requires d != '$' && d !in tail && forall m | m in ms :: Proper(m, d) && |m.noise| + 1 + |m.body| <= 10000
    requires Text(Stream(chunks)) == Wire(ms, d) + tail
    requires var s := Stream(chunks); |s| >= 2 ==> !(s[0] == s[1] == 0x78) && !(s[0] == s[1] == 0x79)
    ensures Run(chunks, d).1 == Sent(ms, d)
  {
    hide Run, Packets, Tail, ShortSegments, Text;
    PacketsArrive(ms, tail, d);
    WireIsShort(ms, d);
    NoMoreSegments(Wire(ms, d), tail, d);
    ShortIsWhole(chunks, d);
  }

  /** A connection whose first data event starts like a Concox frame reports nothing, whatever follows. */
  lemma ConcoxIsRefused(chunks: seq<seq<byte>>, d: char)
    requires chunks != [] && |chunks[0]| >= 2
    requires chunks[0][0] == chunks[0][1] == 0x78 || chunks[0][0] == chunks[0][1] == 0x79
    ensures Run(chunks, d).1 == [] && !Run(chunks, d).0.open
  {
    hide Run;
    MarkedIsRefused(chunks, d);
  }

  /** Seven bits a character. */
  lemma TextIs(data: seq<byte>, i: nat)
    requires i < |data|
    ensures Text(data)[i] as int == data[i] as int % 128
  {
    LowSeven(data[i]);
  }

  lemma LowSeven(b: byte)
    ensures (b & 0x7F) as int == b as int % 128
  {
    LowSevenCases(b);
  }

  lemma LowSevenCases(b: byte)
    ensures b < 128 ==> b & 0x7F == b && b as int < 128
    ensures b >= 128 ==> b & 0x7F == b - 128 && b as int >= 128 && (b - 128) as int == b as int - 128
  {
  }
}
