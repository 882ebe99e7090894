/**
 The text protocols' reassembly: segments end at a delimiter, a packet is a segment from its last '$' on, and a
 residual above 10000 characters is cleared. Clearing never corrupts a packet, and the packets reported do not
 depend on how TCP cuts the stream exactly when no packet's segment is longer than the limit.
 */
module TextFraming {
  import opened Bytes
  import opened Wrappers

  const LIMIT := 10000

  /** Buffer.toString('ascii') drops the top bit. */
  function Text(data: seq<byte>): (s: string)
    ensures |s| == |data|
  {
    seq(|data|, i requires 0 <= i < |data| => (data[i] & 0x7F) as char)
  }

  // ----- Segments and packets of a stream -----

  /** The characters after the last delimiter. */
  function Tail(s: string, d: char): string {
    if s == "" then "" else if s[|s| - 1] == d then "" else Tail(s[..|s| - 1], d) + [s[|s| - 1]]
  }

  /** A segment from its last '$' on. */
  function FromDollar(s: string): Option<string> {
    if s == "" then None
    else if s[|s| - 1] == '$' then Some("$")
    else
      var front := FromDollar(s[..|s| - 1]);
      if front.None? then None else Some(front.value + [s[|s| - 1]])
  }

  function Listed(packet: Option<string>): seq<string> {
    if packet.None? then [] else [packet.value]
  }

  /** For each segment that a delimiter ends, its packet, if any. */
  function Packets(s: string, d: char): seq<string> {
    if s == "" then []
    else
      var front := s[..|s| - 1];
      Packets(front, d) + (if s[|s| - 1] == d then Listed(FromDollar(Tail(front, d) + [d])) else [])
  }

  // ----- The handler -----

  datatype Socket = Socket(buffer: string, isFirst: bool, open: bool)

  const CONNECTED := Socket("", true, true)

  predicate Marked(data: seq<byte>) {
    |data| >= 2 && ((data[0] == 0x78 && data[1] == 0x78) || (data[0] == 0x79 && data[1] == 0x79))
  }

  /** A data event; a destroyed socket gets none. */
  function OnData(k: Socket, data: seq<byte>, d: char): (Socket, seq<string>) {
    if !k.open then (k, [])
    else if k.isFirst && Marked(data) then (Socket(k.buffer, false, false), [])
    else
      var all := k.buffer + Text(data);
      var rest := Tail(all, d);
      (Socket(if |rest| > LIMIT then "" else rest, false, true), Packets(all, d))
  }

  function IndexOf(s: string, c: char): (i: int)
    ensures -1 <= i < |s|
    ensures i >= 0 ==> s[i] == c && c !in s[..i]
    ensures i < 0 <==> c !in s
  {
    if s == "" then -1
    else if s[0] == c then 0
    else
      var i := IndexOf(s[1..], c);
      assert i >= 0 ==> s[..i + 1] == [s[0]] + s[1..][..i];
      if i < 0 then -1 else i + 1
  }

  function LastIndexOf(s: string, c: char): (i: int)
    ensures -1 <= i < |s|
    ensures i >= 0 ==> s[i] == c && c !in s[i + 1..]
    ensures i < 0 <==> c !in s
  {
    if s == "" then -1
    else if s[|s| - 1] == c then |s| - 1
    else
      var i := LastIndexOf(s[..|s| - 1], c);
      assert i >= 0 ==> s[i + 1..] == s[..|s| - 1][i + 1..] + [s[|s| - 1]];
      i
  }

  class TextSocket {
    const delimiter: char
    var buffer: string
    var isFirstData: bool
    var open: bool

    function State(): Socket
      reads this
    {
      Socket(buffer, isFirstData, open)
    }

    constructor (delimiter: char)
      ensures State() == CONNECTED && this.delimiter == delimiter
    {
      this.delimiter := delimiter;
      buffer := "";
      isFirstData := true;
      open := true;
    }

    method Receive(data: seq<byte>) returns (packets: seq<string>)
      requires open
      modifies this
      ensures (State(), packets) == OnData(old(State()), data, delimiter)
    {
      hide Packets, Tail, FromDollar, IndexOf, LastIndexOf, Text;
      packets := [];
      if isFirstData {
        isFirstData := false;
        if Marked(data) {
          open := false;
          return;
        }
      }
      buffer := buffer + Text(data);
      ghost var all := buffer;
      var endIndex := IndexOf(buffer, delimiter);
      while endIndex != -1
        invariant endIndex == IndexOf(buffer, delimiter) && !isFirstData && open
        invariant packets + Packets(buffer, delimiter) == Packets(all, delimiter)
        invariant Tail(buffer, delimiter) == Tail(all, delimiter)
        decreases |buffer|
      {
        var packet := buffer[..endIndex + 1];
        FirstSegment(buffer, delimiter, endIndex);
        buffer := buffer[endIndex + 1..];
        endIndex := IndexOf(buffer, delimiter);
        DollarIsLast(packet);
        var startIndex := LastIndexOf(packet, '$');
        if startIndex == -1 {
          continue;
        }
        packets := packets + [packet[startIndex..]];
      }
      NoDelimiter(buffer, delimiter);
      assert packets == Packets(all, delimiter);
      if |buffer| > LIMIT {
        buffer := "";
      }
    }
  }

  // ----- Reassembly -----

  lemma {:induction false} DollarIsLast(s: string)
    ensures FromDollar(s) == if LastIndexOf(s, '$') < 0 then None else Some(s[LastIndexOf(s, '$')..])
  {
    if s != "" {
      var i := LastIndexOf(s, '$');
      if s[|s| - 1] == '$' {
        assert s[i..] == "$";
      } else {
        DollarIsLast(s[..|s| - 1]);
        assert i >= 0 ==> s[i..] == s[..|s| - 1][i..] + [s[|s| - 1]];
      }
    }
  }

  /** One more character. */
  lemma Snoc(s: string, x: char, d: char)
    ensures Tail(s + [x], d) == if x == d then "" else Tail(s, d) + [x]
    ensures Packets(s + [x], d) == Packets(s, d) + if x == d then Listed(FromDollar(Tail(s, d) + [d])) else []
  {
    assert (s + [x])[..|s + [x]| - 1] == s;
  }

  lemma {:induction false} NoDelimiter(s: string, d: char)
    requires d !in s
    ensures Tail(s, d) == s && Packets(s, d) == []
  {
    if s != "" {
      assert s == s[..|s| - 1] + [s[|s| - 1]];
      NoDelimiter(s[..|s| - 1], d);
    }
  }

  /** What came before the last delimiter is done with. */
  lemma {:induction false} Resume(a: string, b: string, d: char)
    ensures Tail(a + b, d) == Tail(Tail(a, d) + b, d)
    ensures Packets(a + b, d) == Packets(a, d) + Packets(Tail(a, d) + b, d)
  {
    hide Tail, Packets, FromDollar;
    if b == "" {
      TailIsClean(a, d);
      NoDelimiter(Tail(a, d), d);
      assert a + b == a && Tail(a, d) + b == Tail(a, d);
    } else {
      var front, x := b[..|b| - 1], b[|b| - 1];
      Resume(a, front, d);
      Snoc(a + front, x, d);
      Snoc(Tail(a, d) + front, x, d);
      assert a + b == a + front + [x];
      assert Tail(a, d) + b == Tail(a, d) + front + [x];
    }
  }

  lemma {:induction false} TailIsClean(s: string, d: char)
    ensures d !in Tail(s, d)
  {
    if s != "" {
      TailIsClean(s[..|s| - 1], d);
    }
  }

  lemma FirstSegment(s: string, d: char, e: nat)
    requires e < |s| && s[e] == d && d !in s[..e]
    ensures Packets(s, d) == Listed(FromDollar(s[..e + 1])) + Packets(s[e + 1..], d)
    ensures Tail(s, d) == Tail(s[e + 1..], d)
  {
    hide FromDollar, Tail, Packets;
    assert s == s[..e + 1] + s[e + 1..];
    Resume(s[..e + 1], s[e + 1..], d);
    NoDelimiter(s[..e], d);
    Snoc(s[..e], d, d);
    assert s[..e + 1] == s[..e] + [d];
    assert "" + s[e + 1..] == s[e + 1..];
  }

  // ----- Runs -----

  /** The socket after some data events, and all packets reported. */
  function Run(chunks: seq<seq<byte>>, d: char): (Socket, seq<string>) {
    if chunks == [] then (CONNECTED, [])
    else
      var (k, before) := Run(chunks[..|chunks| - 1], d);
      var (after, packets) := OnData(k, chunks[|chunks| - 1], d);
      (after, before + packets)
  }

  function Stream(chunks: seq<seq<byte>>): seq<byte> {
    if chunks == [] then [] else Stream(chunks[..|chunks| - 1]) + chunks[|chunks| - 1]
  }

  predicate IsSuffix(a: string, b: string) {
    |a| <= |b| && b[|b| - |a|..] == a
  }

  /** The elements of a occur in b in the same order. */
  predicate InOrder(a: seq<string>, b: seq<string>) {
    || a == []
    || (b != [] && a[|a| - 1] == b[|b| - 1] && InOrder(a[..|a| - 1], b[..|b| - 1]))
    || (b != [] && InOrder(a, b[..|b| - 1]))
  }

  lemma TextAppend(a: seq<byte>, b: seq<byte>)
    ensures Text(a + b) == Text(a) + Text(b)
  {
  }

  lemma {:induction false} SuffixPacket(a: string, b: string)
    requires IsSuffix(a, b)
    ensures FromDollar(a).None? || FromDollar(a) == FromDollar(b)
  {
    if a != "" {
      assert IsSuffix(a[..|a| - 1], b[..|b| - 1]);
      SuffixPacket(a[..|a| - 1], b[..|b| - 1]);
    }
  }

  lemma {:induction false} InOrderPlus(a: seq<string>, b: seq<string>, c: seq<string>)
    requires InOrder(a, b)
    ensures InOrder(a, b + c)
  {
    if c == [] {
      assert b + c == b;
    } else {
      InOrderPlus(a, b, c[..|c| - 1]);
      assert (b + c)[..|b + c| - 1] == b + c[..|c| - 1];
    }
  }

  lemma {:induction false} InOrderBoth(a: seq<string>, b: seq<string>, c: seq<string>, e: seq<string>)
    requires InOrder(a, b) && InOrder(c, e)
    ensures InOrder(a + c, b + e)
    decreases |e|
  {
    if c == [] {
      assert a + c == a;
      InOrderPlus(a, b, e);
    } else {
      assert (a + c)[..|a + c| - 1] == a + c[..|c| - 1];
      assert (b + e)[..|b + e| - 1] == b + e[..|e| - 1];
      if c[|c| - 1] == e[|e| - 1] && InOrder(c[..|c| - 1], e[..|e| - 1]) {
        InOrderBoth(a, b, c[..|c| - 1], e[..|e| - 1]);
      } else {
        InOrderBoth(a, b, c, e[..|e| - 1]);
      }
    }
  }

  lemma SuffixPlus(a: string, b: string, x: char)
    requires IsSuffix(a, b)
    ensures IsSuffix(a + [x], b + [x]) && IsSuffix("", "")
  {
  }

  lemma SuffixIn(a: string, b: string)
    requires IsSuffix(a, b)
    ensures forall x | x in a :: x in b
  {
  }

  /** A buffer that lost its front reports the same packets or fewer, and stays such a buffer. */
  lemma {:induction false} LostFront(b: string, t: string, c: string, d: char)
    requires IsSuffix(b, t) && d !in t
    ensures InOrder(Packets(b + c, d), Packets(t + c, d))
    ensures IsSuffix(Tail(b + c, d), Tail(t + c, d))
  {
    hide InOrder, Tail, Packets, IsSuffix, FromDollar;
    if c == "" {
      assert b + c == b && t + c == t;
      NoDelimiter(t, d);
      SuffixIn(b, t);
      NoDelimiter(b, d);
      InOrderNone([]);
    } else {
      var front, x := c[..|c| - 1], c[|c| - 1];
      LostFront(b, t, front, d);
      assert b + c == b + front + [x] && t + c == t + front + [x];
      Snoc(b + front, x, d);
      Snoc(t + front, x, d);
      SuffixPlus(Tail(b + front, d), Tail(t + front, d), x);
      var u, v := Listed(FromDollar(Tail(b + front, d) + [d])), Listed(FromDollar(Tail(t + front, d) + [d]));
      if x == d {
        SuffixPacket(Tail(b + front, d) + [d], Tail(t + front, d) + [d]);
        InOrderNone(v);
        InOrderSelf(v);
        InOrderBoth(Packets(b + front, d), Packets(t + front, d), u, v);
      } else {
        assert Packets(b + c, d) == Packets(b + front, d) && Packets(t + c, d) == Packets(t + front, d);
      }
    }
  }

  lemma InOrderNone(a: seq<string>)
    ensures InOrder([], a)
  {
  }

  lemma {:induction false} InOrderSelf(a: seq<string>)
    ensures InOrder(a, a)
  {
    if a != [] {
      InOrderSelf(a[..|a| - 1]);
    }
  }

  /** Every segment with a packet has at most 10000 characters before its delimiter. */
  ghost predicate ShortSegments(s: string, d: char) {
    forall i | 0 <= i < |s| && s[i] == d && '$' in Tail(s[..i], d) :: |Tail(s[..i], d)| <= 10000
  }

  lemma {:induction false} DollarIn(s: string)
    ensures FromDollar(s).Some? <==> '$' in s
  {
    DollarIsLast(s);
  }

  /** With short segments, a buffer that lost a front longer than the limit has lost no packet. */
  lemma {:induction false} LostNothing(s: string, b: string, c: string, d: char)
    requires d != '$' && ShortSegments(s + c, d)
    requires b == Tail(s, d) || (IsSuffix(b, Tail(s, d)) && |Tail(s, d)| > LIMIT)
    ensures Packets(s + c, d) == Packets(s, d) + Packets(b + c, d)
    ensures Tail(b + c, d) == Tail(s + c, d)
      || (IsSuffix(Tail(b + c, d), Tail(s + c, d)) && |Tail(s + c, d)| > LIMIT)
  {
    hide Tail, Packets, FromDollar, ShortSegments, IsSuffix;
    if c == "" {
      assert s + c == s && b + c == b;
      TailIsClean(s, d);
      if b != Tail(s, d) {
        SuffixIn(b, Tail(s, d));
      }
      NoDelimiter(b, d);
    } else {
      var front, x := c[..|c| - 1], c[|c| - 1];
      assert s + c == s + front + [x] && b + c == b + front + [x];
      ShortPrefix(s + front, x, d);
      LostNothing(s, b, front, d);
      Snoc(s + front, x, d);
      Snoc(b + front, x, d);
      if x == d {
        SamePacket(s + front, Tail(b + front, d), d);
      } else if Tail(b + front, d) != Tail(s + front, d) {
        SuffixPlus(Tail(b + front, d), Tail(s + front, d), x);
      }
    }
  }

  lemma ShortPrefix(s: string, x: char, d: char)
    requires ShortSegments(s + [x], d)
    ensures ShortSegments(s, d)
  {
    hide Tail;
    assert forall i | 0 <= i < |s| :: (s + [x])[..i] == s[..i];
  }

  lemma SamePacket(s: string, b: string, d: char)
    requires d != '$' && ShortSegments(s + [d], d)
    requires b == Tail(s, d) || (IsSuffix(b, Tail(s, d)) && |Tail(s, d)| > LIMIT)
    ensures FromDollar(b + [d]) == FromDollar(Tail(s, d) + [d])
  {
    hide Tail;
    var t := Tail(s, d);
    if b != t {
      assert (s + [d])[..|s|] == s && (s + [d])[|s|] == d;
      assert '$' !in t;
      SuffixIn(b, t);
      DollarIn(b + [d]);
      DollarIn(t + [d]);
    }
  }

  // ----- Main results -----

  lemma {:induction false} StaysOpen(chunks: seq<seq<byte>>, d: char)
    requires !Marked(Stream(chunks))
    ensures Run(chunks, d).0.open && (Run(chunks, d).0.isFirst <==> chunks == [])
  {
    hide Packets, Tail;
    if chunks != [] {
      var front, last := chunks[..|chunks| - 1], chunks[|chunks| - 1];
      assert Stream(chunks)[..|Stream(front)|] == Stream(front);
      StaysOpen(front, d);
      if front == [] {
        assert Stream(chunks) == last;
      }
    }
  }

  /** However the stream is cut, what is reported is a part, in order, of what it holds. */
  lemma {:induction false} NeverCorrupts(chunks: seq<seq<byte>>, d: char)
    requires !Marked(Stream(chunks))
    ensures InOrder(Run(chunks, d).1, Packets(Text(Stream(chunks)), d))
    ensures IsSuffix(Run(chunks, d).0.buffer, Tail(Text(Stream(chunks)), d))
  {
    hide InOrder, Packets, Tail, Text, Marked;
    StaysOpen(chunks, d);
    if chunks == [] {
      Nothing(d);
    } else {
      var front, last := chunks[..|chunks| - 1], chunks[|chunks| - 1];
      var before, text := Text(Stream(front)), Text(last);
      NotMarkedBefore(Stream(front), last);
      StaysOpen(front, d);
      NeverCorrupts(front, d);
      if front == [] {
        NotMarkedFirst(chunks);
      }
      TextAppend(Stream(front), last);
      Resume(before, text, d);
      TailIsClean(before, d);
      LostFront(Run(front, d).0.buffer, Tail(before, d), text, d);
      InOrderBoth(Run(front, d).1, Packets(before, d),
                  Packets(Run(front, d).0.buffer + text, d), Packets(Tail(before, d) + text, d));
      assert Run(chunks, d).1 == Run(front, d).1 + Packets(Run(front, d).0.buffer + text, d);
    }
  }

  lemma Nothing(d: char)
    ensures Text([]) == "" && Packets("", d) == [] && Tail("", d) == "" && InOrder([], [])
  {
  }

  lemma NotMarkedBefore(s: seq<byte>, t: seq<byte>)
    requires !Marked(s + t)
    ensures !Marked(s)
  {
  }

  lemma NotMarkedFirst(chunks: seq<seq<byte>>)
    requires !Marked(Stream(chunks)) && |chunks| == 1
    ensures !Marked(chunks[0])
  {
    assert Stream(chunks) == chunks[0];
  }

  /** A run in which no residual exceeds the limit reports the stream's packets and holds its unfinished tail. */
  lemma {:induction false} CalmRun(chunks: seq<seq<byte>>, d: char)
    requires !Marked(Stream(chunks))
    requires forall k | 0 <= k <= |chunks| :: |Tail(Text(Stream(chunks[..k])), d)| <= LIMIT
    ensures Run(chunks, d).1 == Packets(Text(Stream(chunks)), d)
    ensures Run(chunks, d).0.buffer == Tail(Text(Stream(chunks)), d)
  {
    hide Packets, Tail, Text, Marked;
    assert chunks[..|chunks|] == chunks;
    if chunks == [] {
      Nothing(d);
    } else {
      var front, last := chunks[..|chunks| - 1], chunks[|chunks| - 1];
      NotMarkedBefore(Stream(front), last);
      StaysOpen(front, d);
      TextAppend(Stream(front), last);
      forall k | 0 <= k <= |front|
        ensures |Tail(Text(Stream(front[..k])), d)| <= LIMIT
      {
        assert front[..k] == chunks[..k];
      }
      CalmRun(front, d);
      if front == [] {
        NotMarkedFirst(chunks);
      }
      Resume(Text(Stream(front)), Text(last), d);
    }
  }

  /** A device on the wrong port: once the first data event starts like a Concox frame, nothing is ever reported. */
  lemma {:induction false} MarkedIsRefused(chunks: seq<seq<byte>>, d: char)
    requires chunks != [] && Marked(chunks[0])
    ensures Run(chunks, d) == (Socket("", false, false), [])
  {
    hide Packets, Tail, Text, Marked;
    var front := chunks[..|chunks| - 1];
    if front != [] {
      assert front[0] == chunks[0];
      MarkedIsRefused(front, d);
    }
    assert Run(front, d).1 + [] == [];
  }

  /** Any cut of the stream is reported as the stream's packets. */
  ghost predicate CutsDoNotMatter(s: seq<byte>, d: char) {
    forall chunks | Stream(chunks) == s :: Run(chunks, d).1 == Packets(Text(s), d)
  }

  lemma {:induction false} ShortIsWhole(chunks: seq<seq<byte>>, d: char)
    requires d != '$' && !Marked(Stream(chunks)) && ShortSegments(Text(Stream(chunks)), d)
    ensures Run(chunks, d).1 == Packets(Text(Stream(chunks)), d)
    ensures var b, t := Run(chunks, d).0.buffer, Tail(Text(Stream(chunks)), d);
      b == t || (IsSuffix(b, t) && |t| > LIMIT)
  {
    hide Packets, Tail, Text, Marked, ShortSegments;
    if chunks == [] {
      Nothing(d);
    } else {
      var front, last := chunks[..|chunks| - 1], chunks[|chunks| - 1];
      var before, text := Text(Stream(front)), Text(last);
      NotMarkedBefore(Stream(front), last);
      StaysOpen(front, d);
      TextAppend(Stream(front), last);
      ShortPrefixes(before, text, d);
      ShortIsWhole(front, d);
      if front == [] {
        NotMarkedFirst(chunks);
      }
      LostNothing(before, Run(front, d).0.buffer, text, d);
    }
  }

  lemma {:induction false} ShortPrefixes(s: string, t: string, d: char)
    requires ShortSegments(s + t, d)
    ensures ShortSegments(s, d)
  {
    if t == "" {
      assert s + t == s;
    } else {
      assert s + t == s + t[..|t| - 1] + [t[|t| - 1]];
      ShortPrefix(s + t[..|t| - 1], t[|t| - 1], d);
      ShortPrefixes(s, t[..|t| - 1], d);
    }
  }

  /**
   For a stream that does not start like a Concox frame: every cut gives the stream's packets exactly when each
   segment that holds a packet has at most LIMIT characters before its delimiter.
   */
  lemma ChunkingTheorem(s: seq<byte>, d: char)
    requires d != '$' && !Marked(s)
    ensures CutsDoNotMatter(s, d) <==> ShortSegments(Text(s), d)
  {
    hide Packets, Tail, Text, Marked, Run;
    if ShortSegments(Text(s), d) {
      forall chunks | Stream(chunks) == s
        ensures Run(chunks, d).1 == Packets(Text(s), d)
      {
        ShortIsWhole(chunks, d);
      }
    } else {
      var i :| 0 <= i < |Text(s)| && Text(s)[i] == d && '$' in Tail(Text(s)[..i], d) && |Tail(Text(s)[..i], d)| > LIMIT;
      BadCut(s, d, i);
    }
  }

  /** Cut just before the delimiter of a long segment: the segment is cleared and its packet lost. */
  lemma BadCut(s: seq<byte>, d: char, i: nat)
    requires d != '$' && !Marked(s) && i < |s| && Text(s)[i] == d
    requires '$' in Tail(Text(s)[..i], d) && |Tail(Text(s)[..i], d)| > LIMIT
    ensures Stream([s[..i], s[i..]]) == s && Run([s[..i], s[i..]], d).1 != Packets(Text(s), d)
  {
    hide Packets, Tail, Text, Marked;
    var a, b := s[..i], s[i..];
    assert s == a + b;
    NotMarkedBefore(a, b);
    TextPrefix(s, i);
    TwoChunks(a, b, d);
    TextAppend(a, b);
    TailIsClean(Text(a), d);
    Resume(Text(a), Text(b), d);
    LosesOne(Tail(Text(a), d), Text(b), d);
  }

  lemma TextPrefix(s: seq<byte>, i: nat)
    requires i < |s|
    ensures Text(s)[..i] == Text(s[..i]) && Text(s[i..])[0] == Text(s)[i]
  {
  }

  lemma TwoChunks(a: seq<byte>, b: seq<byte>, d: char)
    requires !Marked(a) && |Tail(Text(a), d)| > LIMIT
    ensures Stream([a, b]) == a + b && Run([a, b], d).1 == Packets(Text(a), d) + Packets(Text(b), d)
  {
    hide Packets, Tail, Text;
    var chunks := [a, b];
    assert chunks[..1] == [a] && [a][..0] == [];
    assert Stream([a]) == a;
    assert "" + Text(a) == Text(a) && "" + Text(b) == Text(b);
    Nothing(d);
    assert Run([], d) == (CONNECTED, []);
    assert OnData(CONNECTED, a, d) == (Socket("", false, true), Packets(Text(a), d));
    assert [] + Packets(Text(a), d) == Packets(Text(a), d);
    assert Run([a], d) == (Socket("", false, true), Packets(Text(a), d));
  }

  lemma LosesOne(t: string, b: string, d: char)
    requires d != '$' && d !in t && '$' in t && b != "" && b[0] == d
    ensures |Packets(t + b, d)| == |Packets(b, d)| + 1
  {
    hide Packets, Tail, FromDollar;
    FirstSegment(b, d, 0);
    assert (t + b)[..|t|] == t && (t + b)[|t| + 1..] == b[1..] && (t + b)[..|t| + 1] == t + [d];
    FirstSegment(t + b, d, |t|);
    DollarIn(t + [d]);
    DollarIn(b[..1]);
  }
}
