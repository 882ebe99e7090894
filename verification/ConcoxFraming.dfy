/**
 How parseConcoxBuffer cuts a byte string into skipped bytes, ASCII messages, frames and a remainder,
 stated on suffixes of the buffer; and what every cut is bound to satisfy.
 */
module ConcoxFraming {
  import opened Bytes
  import opened ConcoxCrc

  const CR: byte := 0x0D
  const LF: byte := 0x0A

  predicate StartsNormal(s: seq<byte>) {
    |s| >= 2 && s[0] == 0x78 && s[1] == 0x78
  }

  predicate StartsExtended(s: seq<byte>) {
    |s| >= 2 && s[0] == 0x79 && s[1] == 0x79
  }

  predicate Printable(b: byte) {
    0x20 <= b <= 0x7E
  }

  /** Offset of the first CR LF, or -1. */
  function Crlf(s: seq<byte>): (k: int)
    ensures k == -1 || 0 <= k < |s| - 1
    ensures k >= 0 ==> s[k] == CR && s[k + 1] == LF
    ensures forall i | 0 <= i < (if k >= 0 then k else |s| - 1) :: !(s[i] == CR && s[i + 1] == LF)
  {
    if |s| < 2 then -1
    else if s[0] == CR && s[1] == LF then 0
    else
      var k := Crlf(s[1..]);
      assert forall i | 1 <= i < |s| :: s[i] == s[1..][i - 1];
      if k < 0 then -1 else k + 1
  }

  /** Bytes needed before the length field can be read. */
  function HeaderSize(s: seq<byte>): nat {
    if StartsExtended(s) then 4 else 3
  }

  /** A normal length counts protocol, info, serial and CRC; an extended one only protocol and info. */
  function FrameSize(s: seq<byte>): (n: nat)
    requires |s| >= HeaderSize(s)
    ensures n >= 5
  {
    if StartsExtended(s) then 10 + (Word(s[2], s[3]) as int) else 5 + (s[2] as int)
  }

  /** The checksummed slice, from the length field to the serial number; empty when its end lies before its start. */
  function Checked(f: seq<byte>): seq<byte>
    requires |f| >= 5
  {
    if |f| < 6 then [] else f[2..|f| - 4]
  }

  predicate StopsWell(f: seq<byte>)
    requires |f| >= 5
  {
    f[|f| - 2] == CR && f[|f| - 1] == LF
  }

  predicate CrcMatches(f: seq<byte>)
    requires |f| >= 5
  {
    Fcs(Checked(f)) == Word(f[|f| - 4], f[|f| - 3])
  }

  /** What the parser does at the front of s: wait, skip a byte, take an ASCII message of k bytes, or take a frame. */
  datatype Step = More | Skip | Ascii(k: nat) | Frame(size: nat)

  function Next(s: seq<byte>): (step: Step)
    ensures step.Ascii? ==> 0 < step.k && step.k + 2 <= |s|
    ensures step.Frame? ==> 5 <= step.size <= |s|
    ensures step.Skip? ==> |s| >= 2
  {
    if |s| < 2 then More
    else if !StartsNormal(s) && !StartsExtended(s) then
      if Printable(s[0]) && Crlf(s) >= 0 then Ascii(Crlf(s)) else Skip
    else if |s| < HeaderSize(s) || |s| < FrameSize(s) then More
    else
      var f := s[..FrameSize(s)];
      if StopsWell(f) && CrcMatches(f) then Frame(|f|) else Skip
  }

  /** A stretch of the input and what became of it. */
  datatype Piece = Skipped(b: byte) | AsciiText(text: seq<byte>) | Framed(frame: seq<byte>)

  datatype Cut = Cut(pieces: seq<Piece>, remainder: seq<byte>)

  function Parse(s: seq<byte>): Cut
    decreases |s|
  {
    match Next(s)
    case More => Cut([], s)
    case Skip => Prepend(Skipped(s[0]), Parse(s[1..]))
    case Ascii(k) => Prepend(AsciiText(s[..k]), Parse(s[k + 2..]))
    case Frame(n) => Prepend(Framed(s[..n]), Parse(s[n..]))
  }

  function Prepend(p: Piece, c: Cut): Cut {
    Cut([p] + c.pieces, c.remainder)
  }

  function Used(s: seq<byte>): (n: nat)
    requires Next(s) != More
    ensures 0 < n <= |s|
  {
    match Next(s)
    case Skip => 1
    case Ascii(k) => k + 2
    case Frame(n) => n
  }

  /** The piece the parser takes from the front of s. */
  function FirstPiece(s: seq<byte>): Piece
    requires Next(s) != More
  {
    match Next(s)
    case Skip => Skipped(s[0])
    case Ascii(k) => AsciiText(s[..k])
    case Frame(n) => Framed(s[..n])
  }

  lemma ParseOne(s: seq<byte>)
    ensures Next(s) == More ==> Parse(s) == Cut([], s)
    ensures Next(s) != More ==> Parse(s) == Prepend(FirstPiece(s), Parse(s[Used(s)..]))
  {
    hide Next;
  }

  /** The frames and ASCII messages among the pieces: what the parser reports. */
  function Items(pieces: seq<Piece>): seq<Piece> {
    if pieces == [] then []
    else (if pieces[0].Skipped? then [] else [pieces[0]]) + Items(pieces[1..])
  }

  // ----- What a cut satisfies -----

  function PieceBytes(p: Piece): seq<byte> {
    match p
    case Skipped(b) => [b]
    case AsciiText(text) => text + [CR, LF]
    case Framed(frame) => frame
  }

  function Joined(pieces: seq<Piece>): seq<byte> {
    if pieces == [] then [] else PieceBytes(pieces[0]) + Joined(pieces[1..])
  }

  /** A frame as the wire format defines it, whatever surrounds it. */
  predicate WellFormed(f: seq<byte>) {
    && (StartsNormal(f) || StartsExtended(f))
    && |f| >= HeaderSize(f)
    && |f| == FrameSize(f)
    && StopsWell(f)
    && CrcMatches(f)
  }

  /** An ASCII message starts printable and its CR LF is the first one. */
  predicate AsciiWell(text: seq<byte>) {
    && 0 < |text|
    && Printable(text[0])
    && Crlf(text + [CR, LF]) == |text|
  }

  predicate PieceWell(p: Piece) {
    match p
    case Skipped(b) => true
    case AsciiText(text) => AsciiWell(text)
    case Framed(frame) => WellFormed(frame)
  }

  /** The front of s decides a frame, and what follows the frame does not matter. */
  lemma FrameIsLocal(f: seq<byte>, rest: seq<byte>)
    ensures WellFormed(f) <==> Next(f) == Frame(|f|)
    ensures WellFormed(f) ==> Next(f + rest) == Frame(|f|)
    ensures |f| > 0 && Next(f + rest) == Frame(|f|) ==> WellFormed(f)
  {
    assert (f + rest)[..|f|] == f;
    assert f[..|f|] == f;
  }

  lemma CrlfPrefix(s: seq<byte>, k: nat)
    requires Crlf(s) == k
    ensures Crlf(s[..k + 2]) == k
  {
    if k > 0 {
      assert s[..k + 2][1..] == s[1..][..k - 1 + 2];
      CrlfPrefix(s[1..], k - 1);
    }
  }

  lemma NextIsSound(s: seq<byte>)
    ensures Next(s).Ascii? ==> AsciiWell(s[..Next(s).k]) && s == s[..Next(s).k] + [CR, LF] + s[Next(s).k + 2..]
    ensures Next(s).Frame? ==> WellFormed(s[..Next(s).size])
  {
    if Next(s).Ascii? {
      var k := Next(s).k;
      CrlfPrefix(s, k);
      assert s[..k + 2] == s[..k] + [CR, LF];
    } else if Next(s).Frame? {
      var n := Next(s).size;
      assert s == s[..n] + s[n..];
      FrameIsLocal(s[..n], s[n..]);
    }
  }

  /** Soundness: pieces and remainder are the buffer, every piece is what it claims, and the remainder waits. */
  lemma {:induction false} ParseIsSound(s: seq<byte>)
    ensures Joined(Parse(s).pieces) + Parse(s).remainder == s
    ensures forall p | p in Parse(s).pieces :: PieceWell(p)
    ensures Next(Parse(s).remainder) == More
    decreases |s|
  {
    hide Next, PieceWell, PieceBytes, Parse, Joined, FirstPiece, Used;
    ParseOne(s);
    NothingJoined();
    if Next(s) == More {
      assert [] + s == s;
    } else {
      var p, rest := FirstPiece(s), s[Used(s)..];
      ParseIsSound(rest);
      FirstIsSound(s);
      JoinedPrepend(p, rest);
      assert forall q | q in Parse(s).pieces :: q == p || q in Parse(rest).pieces;
    }
  }

  lemma NothingJoined()
    ensures Joined([]) == []
  {
  }

  lemma FirstIsSound(s: seq<byte>)
    requires Next(s) != More
    ensures PieceWell(FirstPiece(s)) && s == PieceBytes(FirstPiece(s)) + s[Used(s)..]
  {
    hide Next, WellFormed, AsciiWell;
    NextIsSound(s);
  }

  lemma JoinedPrepend(p: Piece, rest: seq<byte>)
    ensures var c := Prepend(p, Parse(rest));
      && Joined(c.pieces) + c.remainder == PieceBytes(p) + (Joined(Parse(rest).pieces) + Parse(rest).remainder)
      && forall q | q in c.pieces :: q == p || q in Parse(rest).pieces
  {
    hide Parse, PieceBytes;
    var c := Prepend(p, Parse(rest));
    assert c.pieces[0] == p && c.pieces[1..] == Parse(rest).pieces;
    assert PieceBytes(p) + Joined(c.pieces[1..]) + c.remainder == PieceBytes(p) + (Joined(c.pieces[1..]) + c.remainder);
  }

  /** Parsing what was carried over finds nothing and carries it over unchanged. */
  lemma RemainderIsFinal(s: seq<byte>)
    ensures Parse(Parse(s).remainder) == Cut([], Parse(s).remainder)
  {
    hide Next, PieceWell, Joined;
    ParseIsSound(s);
  }

  // ----- Degenerate lengths -----

  lemma EmptyFcs()
    ensures Fcs([]) == 0
  {
    FcsOfNothing();
  }

  /** Length bytes 0 and 1 leave an empty checksummed slice, whose CRC the bytes in its place never equal. */
  lemma ShortNeverMatches(f: seq<byte>)
    requires 5 <= |f| <= 6 && StartsNormal(f) && |f| == FrameSize(f)
    ensures !CrcMatches(f)
  {
    EmptyFcs();
    assert Checked(f) == [];
    HighByteShows(f[|f| - 4], f[|f| - 3]);
  }

  lemma SmallestFrame(f: seq<byte>)
    requires WellFormed(f)
    ensures |f| >= (if StartsExtended(f) then 10 else 7)
  {
    if |f| < 7 {
      ShortNeverMatches(f);
    }
  }

  lemma HighByteShows(hi: byte, lo: byte)
    requires hi != 0
    ensures Word(hi, lo) != 0
  {
    SplitWord(hi, lo);
    assert Hi(0) == 0;
  }

  // ----- Damaged frames -----

  /**
   A frame damaged by one burst of at most 16 bits between its length field and its CRC is not accepted at
   its position, whatever follows: the parser moves one byte on.
   */
  lemma DamagedFrameIsRejected(f: seq<byte>, g: seq<byte>, rest: seq<byte>, k: nat, n: nat)
    requires WellFormed(f) && |g| == |f| && g != f
    requires g[..HeaderSize(f)] == f[..HeaderSize(f)] && g[|f| - 4..] == f[|f| - 4..]
    requires n <= 16 && AgreeOutside(MessageBits(Checked(f)), MessageBits(Checked(g)), k, n)
    ensures Next(g + rest) == Skip
  {
    hide Fcs, MessageBits, AgreeOutside, WellFormed;
    SmallestFrame(f);
    assert g[..2] == g[..HeaderSize(f)][..2] && f[..2] == f[..HeaderSize(f)][..2];
    DamageIsInside(f, g);
    BurstDetected(Checked(f), Checked(g), k, n);
    IntactOutside(f, g, rest);
  }

  lemma DamageIsInside(f: seq<byte>, g: seq<byte>)
    requires 7 <= |f| == |g| && g != f
    requires g[..2] == f[..2] && g[|f| - 4..] == f[|f| - 4..]
    ensures Checked(f) != Checked(g)
  {
    assert f == f[..2] + Checked(f) + f[|f| - 4..] && g == g[..2] + Checked(g) + g[|f| - 4..];
  }

  lemma IntactOutside(f: seq<byte>, g: seq<byte>, rest: seq<byte>)
    requires WellFormed(f) && 7 <= |f| == |g|
    requires g[..HeaderSize(f)] == f[..HeaderSize(f)] && g[|f| - 4..] == f[|f| - 4..]
    requires Fcs(Checked(g)) != Fcs(Checked(f))
    ensures Next(g + rest) == Skip
  {
    hide Fcs, Crlf, Checked;
    var h := HeaderSize(f);
    assert forall i | 0 <= i < h :: g[i] == g[..h][i] && f[i] == f[..h][i];
    var a, b := f[|f| - 4..], g[|f| - 4..];
    assert a[0] == b[0] && a[1] == b[1];
    assert (g + rest)[..|g|] == g;
  }

  /**
   What a frame is, byte by byte: start and stop bytes, a length of one byte that counts from the protocol to the CRC
   or of two bytes that count protocol and information only, and the CRC of all from the length to the serial number.
   */
  lemma FrameShape(f: seq<byte>)
    ensures WellFormed(f) <==>
      && |f| >= 7 && f[|f| - 2] == 0x0D && f[|f| - 1] == 0x0A
      && ((f[0] == f[1] == 0x78 && f[2] as int == |f| - 5)
          || (f[0] == f[1] == 0x79 && |f| >= 10 && f[2] as int * 256 + f[3] as int == |f| - 10))
      && Fcs(f[2..|f| - 4]) == Word(f[|f| - 4], f[|f| - 3])
  {
    hide Fcs, Word;
    if WellFormed(f) {
      SmallestFrame(f);
    }
    if |f| >= 7 {
      WordValue(f[2], f[3]);
    }
  }

  /** What an ASCII message is: it starts printable, not like a frame, and goes to the first CR LF. */
  lemma TextShape(s: seq<byte>, k: nat)
    ensures Next(s) == Ascii(k) <==>
      && k + 2 <= |s| && 0x20 <= s[0] <= 0x7E && !(s[0] == s[1] == 0x78) && !(s[0] == s[1] == 0x79)
      && s[k] == 0x0D && s[k + 1] == 0x0A && forall i | 0 <= i < k :: !(s[i] == 0x0D && s[i + 1] == 0x0A)
  {
    hide StopsWell, CrcMatches, FrameSize;
  }
}
