/**
 The per-socket loop of createConcoxServer: append a chunk, parse, carry the remainder over. Its output is
 the one-shot parse of the whole stream, however TCP cuts the stream, exactly when every ASCII message has
 arrived in full by the time the parser gets to it.
 */
module ConcoxStream {
  import opened Bytes
  import opened ConcoxFraming

  const BUFFER_LIMIT := 10240

  /** One data event: overflow clears the buffer and reports nothing. */
  function OnData(buffer: seq<byte>, chunk: seq<byte>): Cut {
    var all := buffer + chunk;
    if |all| > BUFFER_LIMIT then Cut([], []) else Parse(all)
  }

  function Then(first: Cut, rest: Cut): Cut {
    Cut(first.pieces + rest.pieces, rest.remainder)
  }

  /** All data events of a socket, in order. */
  function Run(buffer: seq<byte>, chunks: seq<seq<byte>>): Cut
    decreases chunks
  {
    if chunks == [] then Cut([], buffer)
    else
      var first := OnData(buffer, chunks[0]);
      Then(first, Run(first.remainder, chunks[1..]))
  }

  /** No data event of the run overflows the buffer. */
  predicate Fits(buffer: seq<byte>, chunks: seq<seq<byte>>)
    decreases chunks
  {
    chunks == [] ||
    (|buffer + chunks[0]| <= 10240 && Fits(OnData(buffer, chunks[0]).remainder, chunks[1..]))
  }

  function Stream(chunks: seq<seq<byte>>): seq<byte> {
    if chunks == [] then [] else chunks[0] + Stream(chunks[1..])
  }

  // ----- Which streams can be cut anywhere -----

  /** How many bytes the parser looked at before it decided the front of s. */
  function Looked(s: seq<byte>): (n: nat)
    requires Next(s) != More
    ensures 2 <= n <= |s|
    ensures Used(s) <= n
    ensures Next(s).Ascii? ==> n == Next(s).k + 2
  {
    if Next(s).Ascii? then Next(s).k + 2
    else if StartsNormal(s) || StartsExtended(s) then FrameSize(s)
    else 2
  }

  function Max(a: nat, b: nat): nat {
    if a < b then b else a
  }

  /**
   Whenever the parse of s comes to an ASCII message, the message lies within bytes that must have arrived
   for the parse to come that far. The first h bytes of s are known to have arrived.
   */
  predicate Robust(s: seq<byte>, h: nat)
    decreases |s|
  {
    Next(s) == More ||
    ((Next(s).Ascii? ==> Looked(s) <= h) && Robust(s[Used(s)..], Max(h, Looked(s)) - Used(s)))
  }

  /** Every cut of s into chunks that fit gives what one parse of s gives. */
  ghost predicate CutsDoNotMatter(s: seq<byte>) {
    forall chunks | Stream(chunks) == s && Fits([], chunks) ::
      && Items(Run([], chunks).pieces) == Items(Parse(s).pieces)
      && Run([], chunks).remainder == Parse(s).remainder
  }

  // ----- Decisions on a prefix -----

  lemma {:induction false} CrlfGrows(s: seq<byte>, t: seq<byte>)
    requires Crlf(s) >= 0
    ensures Crlf(s + t) == Crlf(s)
  {
    if Crlf(s) > 0 {
      assert (s + t)[1..] == s[1..] + t;
      CrlfGrows(s[1..], t);
    }
  }

  lemma CrlfFound(s: seq<byte>, k: nat)
    requires k + 1 < |s| && s[k] == CR && s[k + 1] == LF
    ensures 0 <= Crlf(s) <= k
  {
  }

  lemma CrlfShrinks(s: seq<byte>, t: seq<byte>)
    ensures 0 <= Crlf(s + t) && Crlf(s + t) + 2 <= |s| ==> Crlf(s) == Crlf(s + t)
    ensures Crlf(s + t) + 2 > |s| || Crlf(s + t) < 0 ==> Crlf(s) < 0
  {
    var k := Crlf(s + t);
    if 0 <= k && k + 2 <= |s| {
      CrlfFound(s, k);
    }
    if Crlf(s) >= 0 {
      CrlfGrows(s, t);
    }
  }

  /** A decision whose evidence lies within s is the same on s and on anything s begins. */
  lemma EvidenceWithin(s: seq<byte>, t: seq<byte>)
    requires Next(s + t) != More && Looked(s + t) <= |s|
    ensures Next(s) == Next(s + t) && Looked(s) == Looked(s + t)
  {
    hide Crlf, Checked, StopsWell, CrcMatches, Next, Looked;
    assert (s + t)[0] == s[0] && (s + t)[1] == s[1];
    if StartsNormal(s) || StartsExtended(s) {
      FrameEvidence(s, t);
    } else {
      TextEvidence(s, t);
    }
  }

  lemma FrameEvidence(s: seq<byte>, t: seq<byte>)
    requires Next(s + t) != More && Looked(s + t) <= |s| && (StartsNormal(s) || StartsExtended(s))
    ensures Next(s) == Next(s + t) && Looked(s) == Looked(s + t)
  {
    hide Crlf, Checked, StopsWell, CrcMatches, Word;
    var st := s + t;
    assert st[0] == s[0] && st[1] == s[1];
    assert st[..FrameSize(s)] == s[..FrameSize(s)];
  }

  lemma TextEvidence(s: seq<byte>, t: seq<byte>)
    requires Next(s + t) != More && Looked(s + t) <= |s| && |s| >= 2 && !StartsNormal(s) && !StartsExtended(s)
    ensures Next(s) == Next(s + t) && Looked(s) == Looked(s + t)
  {
    hide Crlf, FrameSize, Checked, StopsWell, CrcMatches;
    assert (s + t)[0] == s[0] && (s + t)[1] == s[1];
    CrlfShrinks(s, t);
  }

  /** A decision on a frame stays as more bytes arrive. */
  lemma FrameStays(s: seq<byte>, t: seq<byte>)
    requires Next(s) != More && (StartsNormal(s) || StartsExtended(s))
    ensures Next(s + t) == Next(s) && Looked(s + t) == Looked(s)
  {
    hide Checked, StopsWell, CrcMatches, Crlf;
    var st := s + t;
    assert st[0] == s[0] && st[1] == s[1];
    assert st[..FrameSize(s)] == s[..FrameSize(s)];
  }

  /** Anywhere else it stays unless the new bytes complete an ASCII message. */
  lemma TextStays(s: seq<byte>, t: seq<byte>)
    requires |s| >= 2 && !StartsNormal(s) && !StartsExtended(s)
    ensures Next(s + t) != More
    ensures Next(s + t).Ascii? && !Next(s).Ascii? ==> Looked(s + t) > |s|
    ensures !Next(s + t).Ascii? || Next(s).Ascii? ==> Next(s) == Next(s + t) && Looked(s) == Looked(s + t)
  {
    hide Crlf;
    var st := s + t;
    assert st[0] == s[0] && st[1] == s[1];
    CrlfShrinks(s, t);
    if Crlf(s) >= 0 {
      CrlfGrows(s, t);
    }
  }

  lemma DecisionStays(s: seq<byte>, t: seq<byte>)
    requires Next(s) != More
    ensures Next(s + t) != More
    ensures Next(s + t).Ascii? && !Next(s).Ascii? ==> Looked(s + t) > |s|
    ensures !Next(s + t).Ascii? || Next(s).Ascii? ==> Next(s) == Next(s + t) && Looked(s) == Looked(s + t)
  {
    hide Next, Looked;
    TwoBytes(s);
    if StartsNormal(s) || StartsExtended(s) {
      FrameStays(s, t);
    } else {
      TextStays(s, t);
    }
  }

  lemma TwoBytes(s: seq<byte>)
    ensures Next(s) != More ==> |s| >= 2
  {
  }

  lemma SameFirstPiece(s: seq<byte>, t: seq<byte>)
    requires Next(s) != More && Next(s + t) == Next(s)
    ensures FirstPiece(s + t) == FirstPiece(s) && Used(s + t) == Used(s)
    ensures (s + t)[Used(s)..] == s[Used(s)..] + t
  {
    hide Next;
    var st := s + t;
    assert st[..Used(s)] == s[..Used(s)];
    match Next(s)
    case More =>
    case Skip =>
    case Ascii(k) => assert st[..k] == s[..k];
    case Frame(n) =>
  }

  // ----- Robust streams: any cut gives the one-shot parse -----

  lemma {:induction false} RobustMonotone(s: seq<byte>, h: nat, h': nat)
    requires Robust(s, h) && h <= h'
    ensures Robust(s, h')
    decreases |s|
  {
    hide Next;
    if Next(s) != More {
      RobustMonotone(s[Used(s)..], Max(h, Looked(s)) - Used(s), Max(h', Looked(s)) - Used(s));
    }
  }

  lemma PrependThen(p: Piece, a: Cut, b: Cut)
    ensures Then(Prepend(p, a), b) == Prepend(p, Then(a, b))
  {
    assert [p] + a.pieces + b.pieces == [p] + (a.pieces + b.pieces);
  }

  /** Parsing a prefix, then its remainder with what follows, is parsing everything at once. */
  lemma {:induction false} ParseInTwo(s: seq<byte>, t: seq<byte>, h: nat)
    requires Robust(s + t, h) && h <= |s|
    ensures Parse(s + t) == Then(Parse(s), Parse(Parse(s).remainder + t))
    ensures Robust(Parse(s).remainder + t, |Parse(s).remainder|)
    decreases |s|
  {
    hide Next, Looked, Used, FirstPiece, Parse;
    var st := s + t;
    ParseOne(s);
    ParseOne(st);
    if Next(s) == More {
      RobustMonotone(st, h, |s|);
      assert Then(Cut([], s), Parse(st)) == Parse(st);
    } else {
      DecisionStays(s, t);
      SameFirstPiece(s, t);
      var u := Used(s);
      ParseInTwo(s[u..], t, Max(h, Looked(s)) - u);
      PrependThen(FirstPiece(s), Parse(s[u..]), Parse(Parse(s).remainder + t));
    }
  }

  /** One more data event. */
  lemma {:induction false} RunSnoc(buffer: seq<byte>, chunks: seq<seq<byte>>, c: seq<byte>)
    ensures Run(buffer, chunks + [c]) == Then(Run(buffer, chunks), OnData(Run(buffer, chunks).remainder, c))
    ensures Stream(chunks + [c]) == Stream(chunks) + c
    decreases chunks
  {
    hide OnData;
    if chunks == [] {
      assert [] + [c] == [c] && [c][1..] == [];
      assert Run(buffer, [c]) == Then(OnData(buffer, c), Cut([], OnData(buffer, c).remainder));
    } else {
      assert (chunks + [c])[1..] == chunks[1..] + [c];
      RunSnoc(OnData(buffer, chunks[0]).remainder, chunks[1..], c);
    }
  }

  /** A run whose buffer never overflows ends with the one-shot parse of buffer and stream. */
  lemma {:induction false} RunIsParse(buffer: seq<byte>, chunks: seq<seq<byte>>)
    requires Next(buffer) == More && Fits(buffer, chunks)
    requires Robust(buffer + Stream(chunks), |buffer|)
    ensures Run(buffer, chunks) == Parse(buffer + Stream(chunks))
    decreases chunks
  {
    hide Next;
    if chunks == [] {
      assert buffer + [] == buffer;
    } else {
      var all, later := buffer + chunks[0], Stream(chunks[1..]);
      assert buffer + Stream(chunks) == all + later;
      ParseInTwo(all, later, |buffer|);
      ParseIsSound(all);
      RunIsParse(Parse(all).remainder, chunks[1..]);
    }
  }

  // ----- The other streams: some cut shows -----

  /** The output when s arrives in two chunks, the first of m bytes. */
  function InTwo(s: seq<byte>, m: nat): Cut
    requires m <= |s|
  {
    var first := Parse(s[..m]);
    Then(first, Parse(first.remainder + s[m..]))
  }

  lemma InTwoOne(s: seq<byte>, m: nat)
    requires m <= |s|
    ensures Next(s[..m]) == More ==> InTwo(s, m) == Parse(s)
    ensures Next(s[..m]) != More ==>
      var u := Used(s[..m]);
      InTwo(s, m) == Prepend(FirstPiece(s[..m]), InTwo(s[u..], m - u))
  {
    hide Next, Looked, Used, FirstPiece, Parse, Prepend, Then;
    var p, t := s[..m], s[m..];
    ParseOne(p);
    if Next(p) == More {
      assert p + t == s;
      NothingFirst(p, Parse(s));
    } else {
      var u := Used(p);
      var q := p[u..];
      SlicesAgree(s, m, u);
      PrependThen(FirstPiece(p), Parse(q), Parse(Parse(q).remainder + t));
      PrependKeepsRemainder(FirstPiece(p), Parse(q));
    }
  }

  lemma NothingFirst(s: seq<byte>, c: Cut)
    ensures Then(Cut([], s), c) == c
  {
  }

  lemma PrependKeepsRemainder(p: Piece, c: Cut)
    ensures Prepend(p, c).remainder == c.remainder
  {
  }

  lemma SlicesAgree(s: seq<byte>, m: nat, u: nat)
    requires u <= m <= |s|
    ensures s[..m][u..] == s[u..][..m - u] && s[m..] == s[u..][m - u..]
  {
  }

  lemma ItemsPrepend(p: Piece, c: Cut)
    ensures Items(Prepend(p, c).pieces) == (if p.Skipped? then [] else [p]) + Items(c.pieces)
  {
    assert Prepend(p, c).pieces[1..] == c.pieces;
  }

  lemma ItemsDiffer(p: Piece, a: Cut, b: Cut)
    requires Items(a.pieces) != Items(b.pieces)
    ensures Items(Prepend(p, a).pieces) != Items(Prepend(p, b).pieces)
  {
    ItemsPrepend(p, a);
    ItemsPrepend(p, b);
    var x := if p.Skipped? then [] else [p];
    assert (x + Items(a.pieces))[|x|..] == Items(a.pieces);
    assert (x + Items(b.pieces))[|x|..] == Items(b.pieces);
  }

  /** From inside a message, the parse yields something else than the message followed by what comes after it. */
  lemma {:induction false} MessageIsLost(s: seq<byte>, text: seq<byte>, after: seq<byte>)
    requires 0 <= Crlf(s) < |text| && s[Crlf(s) + 2..] == after
    ensures Items(Parse(s).pieces) != [AsciiText(text)] + Items(Parse(after).pieces)
    decreases |s|
  {
    hide Next, Looked, Used, FirstPiece;
    var k := Crlf(s);
    ParseOne(s);
    if Next(s) != More {
      ItemsPrepend(FirstPiece(s), Parse(s[Used(s)..]));
      if Next(s) == Skip {
        SkipUsesOne(s);
        if k > 0 {
          assert s[1..][k - 1 + 2..] == after;
          MessageIsLost(s[1..], text, after);
        } else {
          LineFeedYieldsNothing(s[1..]);
          assert s[1..][1..] == after;
        }
      } else {
        FirstPieceIs(s);
        assert Items(Parse(s).pieces)[0] == FirstPiece(s);
        assert FirstPiece(s) != AsciiText(text);
      }
    }
  }

  lemma SkipUsesOne(s: seq<byte>)
    ensures Next(s) == Skip ==> Used(s) == 1 && FirstPiece(s) == Skipped(s[0])
  {
    hide Next;
  }

  lemma FirstPieceIs(s: seq<byte>)
    requires Next(s) != More && Next(s) != Skip
    ensures FirstPiece(s) == (if Next(s).Frame? then Framed(s[..Next(s).size]) else AsciiText(s[..Crlf(s)]))
    ensures Next(s).Ascii? ==> Crlf(s) >= 0
  {
  }

  lemma LineFeedYieldsNothing(s: seq<byte>)
    requires |s| >= 1 && s[0] == LF
    ensures Items(Parse(s).pieces) == Items(Parse(s[1..]).pieces)
  {
    if |s| >= 2 {
      assert Next(s) == Skip;
      ItemsPrepend(Skipped(s[0]), Parse(s[1..]));
    } else {
      assert Next(s) == More && Next(s[1..]) == More;
    }
  }

  lemma {:induction false} CutMessageIsLost(s: seq<byte>, m: nat, text: seq<byte>, after: seq<byte>)
    requires 0 <= Crlf(s) < |text| && s[Crlf(s) + 2..] == after
    requires m < Crlf(s) + 2
    ensures Items(InTwo(s, m).pieces) != [AsciiText(text)] + Items(Parse(after).pieces)
    decreases |s|
  {
    hide Next, Looked, Used, FirstPiece, Crlf, InTwo, Parse;
    var p := s[..m];
    InTwoOne(s, m);
    if Next(p) == More {
      MessageIsLost(s, text, after);
    } else {
      NoMessageWithin(s, m);
      ItemsPrepend(FirstPiece(p), InTwo(s[Used(p)..], m - Used(p)));
      if Next(p) == Skip {
        SkipUsesOne(p);
        CrlfTail(s);
        assert s[1..][Crlf(s) - 1 + 2..] == after;
        CutMessageIsLost(s[1..], m - 1, text, after);
      } else {
        FirstPieceIs(p);
        assert Items(InTwo(s, m).pieces)[0] == FirstPiece(p);
      }
    }
  }

  lemma CrlfTail(s: seq<byte>)
    requires Crlf(s) > 0
    ensures Crlf(s[1..]) == Crlf(s) - 1
  {
  }

  lemma NoMessageWithin(s: seq<byte>, m: nat)
    requires 0 <= Crlf(s) && m < Crlf(s) + 2 && m <= |s|
    ensures !Next(s[..m]).Ascii?
    ensures Next(s[..m]) != More ==> Crlf(s) > 0
  {
    hide Crlf, FrameSize, Checked, StopsWell, CrcMatches;
    assert s[..m] + s[m..] == s;
    CrlfShrinks(s[..m], s[m..]);
    if |s[..m]| >= 2 && Crlf(s) == 0 {
      CrlfAtFront(s);
    }
  }

  lemma CrlfAtFront(s: seq<byte>)
    requires Crlf(s) == 0
    ensures s[0] == CR && s[1] == LF
  {
  }

  /** A stream that is not robust comes out differently when it is cut inside the exposed message. */
  lemma {:induction false} SomeCutShows(s: seq<byte>, h: nat) returns (m: nat)
    requires !Robust(s, h) && h <= |s|
    ensures h <= m <= |s|
    ensures Items(InTwo(s, m).pieces) != Items(Parse(s).pieces)
    decreases |s|
  {
    hide Next, Looked, Used, FirstPiece, Crlf, InTwo, Parse;
    ParseOne(s);
    var u, l := Used(s), Looked(s);
    ItemsPrepend(FirstPiece(s), Parse(s[u..]));
    if Next(s).Ascii? && l > h {
      m := Max(h, 2);
      ExposedMessage(s, m);
    } else {
      var m' := SomeCutShows(s[u..], Max(h, l) - u);
      m := m' + u;
      assert s[..m] + s[m..] == s;
      EvidenceWithin(s[..m], s[m..]);
      SameFirstPiece(s[..m], s[m..]);
      InTwoOne(s, m);
      ItemsDiffer(FirstPiece(s), InTwo(s[u..], m'), Parse(s[u..]));
    }
  }

  lemma ExposedMessage(s: seq<byte>, m: nat)
    requires Next(s).Ascii? && 2 <= m < Looked(s)
    ensures Items(InTwo(s, m).pieces) != Items(Parse(s).pieces)
  {
    hide Next, Looked, Used, FirstPiece, Crlf, InTwo, Parse;
    var k, p := Next(s).k, s[..m];
    ParseOne(s);
    FirstPieceIs(s);
    MessageStart(s, m);
    SkipUsesOne(p);
    InTwoOne(s, m);
    ItemsPrepend(FirstPiece(p), InTwo(s[1..], m - 1));
    CrlfTail(s);
    assert s[1..][k - 1 + 2..] == s[k + 2..];
    CutMessageIsLost(s[1..], m - 1, s[..k], s[k + 2..]);
    ItemsPrepend(AsciiText(s[..k]), Parse(s[k + 2..]));
  }

  lemma MessageStart(s: seq<byte>, m: nat)
    requires Next(s).Ascii? && 2 <= m < Next(s).k + 2
    ensures Next(s[..m]) == Skip && Crlf(s) == Next(s).k && Used(s) == Next(s).k + 2
  {
    assert s[..m] + s[m..] == s;
    CrlfShrinks(s[..m], s[m..]);
    assert s[..m][0] == s[0] && s[..m][1] == s[1];
  }

  /** For a robust stream of any length TCP's choice of chunks is invisible, as long as the buffer holds them. */
  lemma RobustCutsDoNotMatter(s: seq<byte>)
    requires Robust(s, 0)
    ensures CutsDoNotMatter(s)
  {
    hide Parse, Next;
    NothingWaits();
    forall chunks | Stream(chunks) == s && Fits([], chunks)
      ensures Run([], chunks) == Parse(s)
    {
      assert [] + s == s;
      RunIsParse([], chunks);
    }
  }

  /** Among the streams that fit into the buffer as a whole, it is invisible for the robust ones only. */
  lemma ChunkingTheorem(s: seq<byte>)
    ensures Robust(s, 0) ==> CutsDoNotMatter(s)
    ensures |s| <= 10240 ==> (CutsDoNotMatter(s) <==> Robust(s, 0))
  {
    hide Parse, Next, CutsDoNotMatter;
    if Robust(s, 0) {
      RobustCutsDoNotMatter(s);
    } else if |s| <= 10240 {
      SomeCut(s);
    }
  }

  lemma SomeCut(s: seq<byte>)
    requires |s| <= 10240 && !Robust(s, 0)
    ensures !CutsDoNotMatter(s)
  {
    hide Parse, Next;
    var m := SomeCutShows(s, 0);
    TwoChunks(s, m);
  }

  lemma NothingWaits()
    ensures Next([]) == More
  {
  }

  lemma TwoChunks(s: seq<byte>, m: nat)
    requires m <= |s| <= 10240
    ensures var chunks := [s[..m], s[m..]];
      Stream(chunks) == s && Fits([], chunks) && Run([], chunks) == InTwo(s, m)
  {
    hide Parse;
    var a, b := s[..m], s[m..];
    assert a + b == s && [] + a == a;
    ParseIsSound(a);
    var r := Parse(a).remainder;
    assert |r| <= |a|;
    assert [a, b][1..] == [b];
    OneChunk(r, b);
  }

  lemma OneChunk(r: seq<byte>, b: seq<byte>)
    requires |r + b| <= 10240
    ensures Stream([b]) == b && Fits(r, [b]) && Run(r, [b]) == Parse(r + b)
  {
    hide Parse;
    assert [b][1..] == [] && b + [] == b;
    assert Run(r, [b]) == Then(Parse(r + b), Cut([], Parse(r + b).remainder));
  }

  // ----- Streams of frames with unprintable bytes between them -----

  /** A well-formed frame of at most `limit` bytes, or a stray byte that can start neither a frame nor a message. */
  predicate CleanPiece(p: Piece, limit: nat) {
    match p
    case Skipped(b) => !Printable(b)
    case AsciiText(_) => false
    case Framed(f) => WellFormed(f) && |f| <= limit
  }

  predicate Clean(pieces: seq<Piece>, limit: nat) {
    forall i | 0 <= i < |pieces| :: CleanPiece(pieces[i], limit)
  }

  /** What the buffer holds at the end: the unfinished tail, or a last stray byte that may yet be half a start mark. */
  function Held(pieces: seq<Piece>, tail: seq<byte>): seq<byte> {
    if tail == [] && pieces != [] && pieces[|pieces| - 1].Skipped? then [pieces[|pieces| - 1].b] else tail
  }

  lemma CleanStep(p: Piece, r: seq<byte>, limit: nat)
    requires CleanPiece(p, limit) && (p.Framed? || r != [])
    ensures var s := PieceBytes(p) + r;
      && Next(s) != More && !Next(s).Ascii? && FirstPiece(s) == p
      && Used(s) == |PieceBytes(p)| && s[Used(s)..] == r
  {
    hide WellFormed, Crlf;
    var s := PieceBytes(p) + r;
    if p.Framed? {
      hide Next;
      FrameIsLocal(p.frame, r);
      assert s[..|p.frame|] == p.frame;
    } else {
      assert s[0] == p.b;
    }
  }

  lemma {:induction false} CleanParse(pieces: seq<Piece>, tail: seq<byte>, limit: nat)
    requires Clean(pieces, limit) && Next(tail) == More
    ensures var c := Parse(Joined(pieces) + tail);
      Items(c.pieces) == Items(pieces) && c.remainder == Held(pieces, tail)
    ensures Robust(Joined(pieces) + tail, 0)
    decreases pieces
  {
    hide Next, Parse, Looked, Used, FirstPiece, CleanPiece;
    var s := Joined(pieces) + tail;
    if pieces == [] {
      assert s == tail;
      ParseOne(s);
    } else {
      var p, r := pieces[0], Joined(pieces[1..]) + tail;
      assert s == PieceBytes(p) + r;
      if p.Framed? || r != [] {
        CleanStep(p, r, limit);
        ParseOne(s);
        ItemsPrepend(p, Parse(r));
        CleanParse(pieces[1..], tail, limit);
        RobustMonotone(r, 0, Max(0, Looked(s)) - Used(s));
      } else {
        LastStray(pieces, limit);
        ParseOne(s);
      }
    }
  }

  lemma JoinedNotEmpty(pieces: seq<Piece>, limit: nat)
    requires Clean(pieces, limit)
    ensures pieces != [] ==> Joined(pieces) != []
  {
    if pieces != [] {
      assert CleanPiece(pieces[0], limit);
    }
  }

  lemma LastStray(pieces: seq<Piece>, limit: nat)
    requires Clean(pieces, limit) && pieces != [] && !pieces[0].Framed? && Joined(pieces[1..]) == []
    ensures |pieces| == 1 && pieces[0].Skipped? && Joined(pieces) == [pieces[0].b]
    ensures Next(Joined(pieces)) == More && Items(pieces) == []
  {
    JoinedNotEmpty(pieces[1..], limit);
    assert CleanPiece(pieces[0], limit);
  }

  /** The socket loop reports exactly the frames, in order, and holds exactly the unfinished tail. */
  lemma CleanRun(pieces: seq<Piece>, tail: seq<byte>, limit: nat, chunks: seq<seq<byte>>)
    requires Clean(pieces, limit) && Next(tail) == More
    requires Stream(chunks) == Joined(pieces) + tail && Fits([], chunks)
    ensures Items(Run([], chunks).pieces) == Items(pieces)
    ensures Run([], chunks).remainder == Held(pieces, tail)
  {
    hide Next;
    CleanParse(pieces, tail, limit);
    NothingWaits();
    assert [] + Stream(chunks) == Stream(chunks);
    RunIsParse([], chunks);
  }

  /** Any proper prefix of a frame waits, so it is a tail of the kind CleanRun speaks of. */
  lemma UnfinishedFrameWaits(f: seq<byte>, k: nat)
    requires WellFormed(f) && k < |f|
    ensures Next(f[..k]) == More
  {
    var p := f[..k];
    assert k >= 2 ==> p[0] == f[0] && p[1] == f[1];
  }

  // ----- When the buffer cannot overflow -----

  /** What waits for more waited all along. */
  lemma PrefixWaits(s: seq<byte>, k: nat)
    requires Next(s) == More && k <= |s|
    ensures Next(s[..k]) == More
  {
    hide Next;
    assert s[..k] + s[k..] == s;
    if Next(s[..k]) != More {
      DecisionStays(s[..k], s[k..]);
    }
  }

  /** A prefix of a clean stream is a clean stream with a short tail. */
  lemma {:induction false} CleanPrefix(pieces: seq<Piece>, tail: seq<byte>, limit: nat, k: nat)
    returns (pieces': seq<Piece>, tail': seq<byte>)
    requires Clean(pieces, limit) && |tail| <= limit && Next(tail) == More
    requires k <= |Joined(pieces) + tail|
    ensures Clean(pieces', limit) && Next(tail') == More && |tail'| <= limit
    ensures Joined(pieces') + tail' == (Joined(pieces) + tail)[..k]
    decreases pieces
  {
    hide Next, WellFormed;
    var s := Joined(pieces) + tail;
    if pieces == [] {
      pieces', tail' := [], tail[..k];
      assert s == tail;
      PrefixWaits(tail, k);
    } else {
      var front, r := PieceBytes(pieces[0]), Joined(pieces[1..]) + tail;
      assert s == front + r;
      if k < |front| {
        pieces', tail' := [], s[..k];
        assert s[..k] == front[..k];
        if pieces[0].Framed? {
          UnfinishedFrameWaits(pieces[0].frame, k);
        } else {
          NothingWaits();
        }
      } else {
        var rest, t := CleanPrefix(pieces[1..], tail, limit, k - |front|);
        pieces', tail' := [pieces[0]] + rest, t;
        assert pieces'[1..] == rest;
        assert s[..k] == front + r[..k - |front|];
      }
    }
  }

  /** At any point of a clean stream the buffer holds at most one unfinished frame. */
  lemma PrefixHolds(pieces: seq<Piece>, tail: seq<byte>, limit: nat, k: nat)
    requires Clean(pieces, limit) && 1 <= limit && |tail| <= limit && Next(tail) == More
    requires k <= |Joined(pieces) + tail|
    ensures var s := (Joined(pieces) + tail)[..k]; Robust(s, 0) && |Parse(s).remainder| <= limit
  {
    hide Next, Parse, Robust, Clean, Held;
    var p, t := CleanPrefix(pieces, tail, limit, k);
    CleanParse(p, t, limit);
    HeldIsShort(p, t, limit);
  }

  /** Frames of at most `limit` bytes in chunks of at most 10240 - limit bytes never overflow the buffer. */
  lemma {:induction false} ShortChunksFit(
    pieces: seq<Piece>, tail: seq<byte>, limit: nat, seen: seq<byte>, chunks: seq<seq<byte>>)
    requires Clean(pieces, limit) && 1 <= limit && |tail| <= limit && Next(tail) == More
    requires seen + Stream(chunks) == Joined(pieces) + tail
    requires forall c | c in chunks :: |c| + limit <= 10240
    ensures Fits(Parse(seen).remainder, chunks)
    decreases chunks
  {
    hide Next, Parse, Robust, Clean, Joined;
    if chunks != [] {
      var c, s := chunks[0], Joined(pieces) + tail;
      assert c in chunks && forall d | d in chunks[1..] :: d in chunks;
      assert s[..|seen|] == seen && s[..|seen + c|] == seen + c;
      PrefixHolds(pieces, tail, limit, |seen|);
      PrefixHolds(pieces, tail, limit, |seen + c|);
      ParseInTwo(seen, c, 0);
      assert seen + c + Stream(chunks[1..]) == s;
      ShortChunksFit(pieces, tail, limit, seen + c, chunks[1..]);
    }
  }

  lemma HeldIsShort(pieces: seq<Piece>, tail: seq<byte>, limit: nat)
    requires |tail| <= limit && 1 <= limit
    ensures |Held(pieces, tail)| <= limit
  {
  }

  lemma ParseNothing()
    ensures Parse([]) == Cut([], [])
  {
  }

  /** A whole run: for normal frames (at most 260 bytes) any chunks of up to 9980 bytes do. */
  lemma ShortChunksDeliver(pieces: seq<Piece>, tail: seq<byte>, limit: nat, chunks: seq<seq<byte>>)
    requires Clean(pieces, limit) && 1 <= limit && |tail| <= limit && Next(tail) == More
    requires Stream(chunks) == Joined(pieces) + tail
    requires forall c | c in chunks :: |c| + limit <= 10240
    ensures Items(Run([], chunks).pieces) == Items(pieces)
    ensures Run([], chunks).remainder == Held(pieces, tail)
  {
    hide Next, Parse, Robust;
    ParseNothing();
    assert [] + Stream(chunks) == Stream(chunks);
    ShortChunksFit(pieces, tail, limit, [], chunks);
    CleanRun(pieces, tail, limit, chunks);
  }

  lemma NormalFrameIsShort(f: seq<byte>)
    requires WellFormed(f) && StartsNormal(f)
    ensures |f| <= 260
  {
  }

  /** A frame longer than the buffer limit is never reported, however it arrives. */
  lemma {:induction false} LongFramesAreLost(buffer: seq<byte>, chunks: seq<seq<byte>>, f: seq<byte>)
    requires |f| > 10240
    ensures Framed(f) !in Run(buffer, chunks).pieces
    decreases chunks
  {
    hide Parse;
    if chunks != [] {
      var first := OnData(buffer, chunks[0]);
      if |buffer + chunks[0]| <= 10240 {
        PiecesAreShort(buffer + chunks[0], f);
      }
      LongFramesAreLost(first.remainder, chunks[1..], f);
    }
  }

  lemma PiecesAreShort(s: seq<byte>, f: seq<byte>)
    requires |f| > |s|
    ensures Framed(f) !in Parse(s).pieces
  {
    ParseIsSound(s);
    if Framed(f) in Parse(s).pieces {
      JoinedContains(Parse(s).pieces, Framed(f));
    }
  }

  lemma {:induction false} JoinedContains(pieces: seq<Piece>, p: Piece)
    requires p in pieces
    ensures |PieceBytes(p)| <= |Joined(pieces)|
  {
    if pieces[0] != p {
      JoinedContains(pieces[1..], p);
    }
  }

  /** An overflow reports nothing and forgets everything: what follows is read as by a new connection. */
  lemma OverflowForgets(buffer: seq<byte>, chunk: seq<byte>, rest: seq<seq<byte>>)
    requires |buffer| + |chunk| > 10240
    ensures Run(buffer, [chunk] + rest) == Run([], rest)
  {
    hide Parse;
    assert ([chunk] + rest)[1..] == rest;
    assert [] + Run([], rest).pieces == Run([], rest).pieces;
  }
}
