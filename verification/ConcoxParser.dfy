/**
 parseConcoxBuffer as the source runs it, by position in one buffer, proved to cut and read the buffer as
 ConcoxFraming and ConcoxPackets say; every buffer access is in bounds and the loop terminates.
 */
module ConcoxParser {
  import opened Bytes
  import opened Wrappers
  import opened ConcoxCrc
  import opened ConcoxFraming
  import opened ConcoxPackets

  /** The scan for the first CR LF at or after pos; -1 if there is none. */
  method FindCrlf(buffer: seq<byte>, pos: nat) returns (crlf: int)
    requires pos <= |buffer|
    ensures crlf == (if Crlf(buffer[pos..]) < 0 then -1 else pos + Crlf(buffer[pos..]))
  {
    var i := pos;
    while i < |buffer| - 1
      invariant pos <= i <= |buffer|
      invariant Crlf(buffer[pos..]) < 0 <==> Crlf(buffer[i..]) < 0
      invariant Crlf(buffer[i..]) >= 0 ==> pos + Crlf(buffer[pos..]) == i + Crlf(buffer[i..])
    {
      assert buffer[i..][1..] == buffer[i + 1..];
      if buffer[i] == 0x0D && buffer[i + 1] == 0x0A {
        return i;
      }
      i := i + 1;
    }
    crlf := -1;
  }

  /** The declared size of the frame at pos, or 0 while its length field is incomplete. */
  method ReadFrameSize(buffer: seq<byte>, pos: nat, isExtended: bool) returns (frameSize: nat)
    requires pos + 2 <= |buffer|
    requires if isExtended then StartsExtended(buffer[pos..]) else StartsNormal(buffer[pos..])
    ensures var s := buffer[pos..];
      frameSize == if |s| >= HeaderSize(s) then FrameSize(s) else 0
  {
    if !isExtended {
      if pos + 3 > |buffer| { return 0; }
      var lengthFieldSize, packetLength := 1, buffer[pos + 2] as int;
      frameSize := 2 + lengthFieldSize + packetLength + 2;
    } else {
      if pos + 4 > |buffer| { return 0; }
      var lengthFieldSize, packetLength := 2, Word(buffer[pos + 2], buffer[pos + 3]) as int;
      frameSize := 2 + lengthFieldSize + packetLength + 2 + 2 + 2;
    }
  }

  /** Stop bytes, then CRC, of the frame at pos. */
  method CheckFrame(buffer: seq<byte>, pos: nat, frameSize: nat) returns (ok: bool)
    requires pos + frameSize <= |buffer| && frameSize >= 5
    ensures var f := buffer[pos..pos + frameSize]; ok <==> StopsWell(f) && CrcMatches(f)
  {
    hide Fcs;
    ghost var f := buffer[pos..pos + frameSize];
    var stopPos := pos + frameSize - 2;
    if buffer[stopPos] != 0x0D || buffer[stopPos + 1] != 0x0A { return false; }
    SliceShift(buffer, pos, frameSize, 2, frameSize - 4);
    CheckedIsSlice(f);
    var computedCrc := CrcItu(Slice(buffer, pos + 2, pos + frameSize - 4));
    var packetCrc := Word(buffer[pos + frameSize - 4], buffer[pos + frameSize - 3]);
    ok := computedCrc == packetCrc;
  }

  /** Protocol, info and serial of the intact frame at pos, and the dispatch on them. */
  method ReadFrame(buffer: seq<byte>, pos: nat, frameSize: nat, isExtended: bool, session: Option<Imei>)
    returns (packet: Option<Packet>)
    requires pos + frameSize <= |buffer| && WellFormed(buffer[pos..pos + frameSize])
    requires isExtended == StartsExtended(buffer[pos..pos + frameSize])
    ensures 7 <= frameSize && packet == FramePacket(buffer[pos..pos + frameSize], session)
  {
    hide Dispatch, Word, WellFormed;
    ghost var f := buffer[pos..pos + frameSize];
    SmallestFrame(f);
    var lengthFieldSize := if isExtended then 2 else 1;
    var protocolNumber := buffer[pos + 2 + lengthFieldSize];
    var info := Slice(buffer, pos + 2 + lengthFieldSize + 1, pos + frameSize - 6);
    var serialNumber := Word(buffer[pos + frameSize - 6], buffer[pos + frameSize - 5]);
    SliceShift(buffer, pos, frameSize, 2 + lengthFieldSize + 1, frameSize - 6);
    packet := Dispatch(protocolNumber, info, serialNumber, session);
  }

  /** From the length field to the dispatch, for a start mark found at pos. */
  method TakeFrame(buffer: seq<byte>, pos: nat, isExtended: bool, session: Option<Imei>)
    returns (step: Step, packet: Option<Packet>)
    requires pos + 2 <= |buffer|
    requires if isExtended then StartsExtended(buffer[pos..]) else StartsNormal(buffer[pos..])
    ensures step == Next(buffer[pos..])
    ensures step.Frame? ==> 7 <= step.size && packet == FramePacket(buffer[pos..pos + step.size], session)
  {
    hide FramePacket, CrcMatches, StopsWell, Word, WellFormed;
    var frameSize := ReadFrameSize(buffer, pos, isExtended);
    if frameSize == 0 || pos + frameSize > |buffer| { return More, None; }
    assert buffer[pos..][..frameSize] == buffer[pos..pos + frameSize];
    var ok := CheckFrame(buffer, pos, frameSize);
    if !ok { return Skip, None; }
    FrameStarts(buffer[pos..], frameSize);
    step := Frame(frameSize);
    packet := ReadFrame(buffer, pos, frameSize, isExtended, session);
  }

  lemma FrameStarts(s: seq<byte>, n: nat)
    requires StartsNormal(s) || StartsExtended(s)
    requires HeaderSize(s) <= |s| && n == FrameSize(s) <= |s|
    requires StopsWell(s[..n]) && CrcMatches(s[..n])
    ensures WellFormed(s[..n]) && (StartsExtended(s[..n]) <==> StartsExtended(s))
  {
    hide StopsWell, CrcMatches;
  }

  lemma SliceShift(buffer: seq<byte>, pos: nat, n: nat, start: nat, end: nat)
    requires pos + n <= |buffer| && end <= n
    ensures Slice(buffer, pos + start, pos + end) == Slice(buffer[pos..pos + n], start, end)
  {
    if start <= end {
      var f := buffer[pos..pos + n];
      assert forall i | 0 <= i < end - start :: f[start..end][i] == buffer[pos + (start + i)];
    }
  }

  lemma CheckedIsSlice(f: seq<byte>)
    requires |f| >= 5
    ensures Checked(f) == Slice(f, 2, |f| - 4)
  {
  }

  /** Anything but a start mark at pos: an ASCII message up to its CR LF, or a byte to skip. */
  method TakeText(buffer: seq<byte>, pos: nat) returns (step: Step)
    requires pos + 2 <= |buffer| && !StartsNormal(buffer[pos..]) && !StartsExtended(buffer[pos..])
    ensures step == Next(buffer[pos..]) && !step.Frame?
  {
    var b0 := buffer[pos];
    if 0x20 <= b0 <= 0x7E {
      var crlf := FindCrlf(buffer, pos);
      if crlf != -1 { return Ascii(crlf - pos); }
    }
    step := Skip;
  }

  method ParseConcoxBuffer(buffer: seq<byte>, session: Option<Imei>)
    returns (packets: seq<Packet>, remainder: seq<byte>)
    ensures packets == PacketsOf(Parse(buffer).pieces, session)
    ensures remainder == Parse(buffer).remainder
  {
    hide Next, Parse, PacketsOf, PacketOf, FramePacket, Used, FirstPiece;
    packets := [];
    var pos := 0;
    assert buffer[0..] == buffer;
    while pos < |buffer|
      invariant 0 <= pos <= |buffer|
      invariant packets + PacketsOf(Parse(buffer[pos..]).pieces, session) == PacketsOf(Parse(buffer).pieces, session)
      invariant Parse(buffer[pos..]).remainder == Parse(buffer).remainder
    {
      ghost var s := buffer[pos..];
      StepPackets(s, session);
      if pos + 2 > |buffer| {
        ShortWaits(s);
        break;
      }
      var b0, b1 := buffer[pos], buffer[pos + 1];
      var step, packet;
      if b0 == 0x78 && b1 == 0x78 {
        step, packet := TakeFrame(buffer, pos, false, session);
      } else if b0 == 0x79 && b1 == 0x79 {
        step, packet := TakeFrame(buffer, pos, true, session);
      } else {
        step := TakeText(buffer, pos);
        packet := None;
      }
      if step == More { break; }
      ghost var before, found, u := packets, PacketOf(FirstPiece(s), session), Used(s);
      assert s[u..] == buffer[pos + u..];
      match step {
        case Skip => pos := pos + 1;
        case Ascii(k) =>
          assert s[..k] == buffer[pos..pos + k];
          packets := packets + [AsciiMessage(buffer[pos..pos + k])];
          pos := pos + k + 2;
        case Frame(frameSize) =>
          assert s[..frameSize] == buffer[pos..pos + frameSize];
          FramePieceIs(s[..frameSize], session);
          if packet.Some? { packets := packets + [packet.value]; }
          pos := pos + frameSize;
      }
      assert packets == before + found;
      Associate(before, found, PacketsOf(Parse(buffer[pos..]).pieces, session));
    }
    ParseEnd(buffer, session);
    remainder := if pos < |buffer| then buffer[pos..] else [];
  }

  lemma Associate(a: seq<Packet>, b: seq<Packet>, c: seq<Packet>)
    ensures (a + b) + c == a + (b + c)
  {
  }

  lemma ShortWaits(s: seq<byte>)
    requires |s| < 2
    ensures Next(s) == More
  {
  }

  lemma ParseEnd(buffer: seq<byte>, session: Option<Imei>)
    ensures PacketsOf([], session) == []
    ensures buffer[|buffer|..] == [] && Next([]) == More && Parse([]) == Cut([], [])
  {
  }

  lemma FramePieceIs(f: seq<byte>, session: Option<Imei>)
    requires |f| >= 7
    ensures PacketOf(Framed(f), session)
         == match FramePacket(f, session) case Some(packet) => [packet] case None => []
  {
  }

  /** What the packets and the remainder of a suffix owe to its first step. */
  lemma StepPackets(s: seq<byte>, session: Option<Imei>)
    ensures PacketsOf([], session) == []
    ensures Next(s) == More ==> Parse(s) == Cut([], s)
    ensures Next(s) != More ==>
      var rest := Parse(s[Used(s)..]);
      && PacketsOf(Parse(s).pieces, session) == PacketOf(FirstPiece(s), session) + PacketsOf(rest.pieces, session)
      && Parse(s).remainder == rest.remainder
    ensures Next(s).Skip? ==> PacketOf(FirstPiece(s), session) == [] && Used(s) == 1
    ensures Next(s).Ascii? ==>
      PacketOf(FirstPiece(s), session) == [AsciiMessage(s[..Next(s).k])] && Used(s) == Next(s).k + 2
    ensures Next(s).Frame? ==> FirstPiece(s) == Framed(s[..Next(s).size]) && Used(s) == Next(s).size
  {
    hide Next, Parse;
    ParseOne(s);
    if Next(s) != More {
      var p, rest := FirstPiece(s), Parse(s[Used(s)..]);
      assert Prepend(p, rest).pieces[1..] == rest.pieces;
    }
  }
}
