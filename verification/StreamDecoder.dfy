/**
 The incremental stream decoder of the peer socket, which resynchronises on the
 magic bytes and survives any chopping of the stream.
 */
module StreamDecoder {
  import opened Bytes
  import opened Crc32
  import opened Framing

  const MAX_FRAME_PAYLOAD_SIZE: nat := 4 * 1024 * 1024
  const MAX_RECEIVE_BUFFER_SIZE: nat := 8 * 1024 * 1024

  // ---------------------------------------------------------------------
  // Stream decoding
  // ---------------------------------------------------------------------

  datatype StreamError = NoError | BufferOverflow | InvalidMagic | OversizedPayload | InvalidFrame

  /**
   What decoding a buffer yields: the frames, the bytes kept for the next read,
   the last error reported, and whether bytes were thrown away wholesale.
   */
  datatype Scan = Scan(frames: seq<Frame>, rest: seq<byte>, error: StreamError, cleared: bool)

  /** The error string is overwritten by each later error. */
  function Later(first: StreamError, second: StreamError): StreamError {
    if second == NoError then first else second
  }

  predicate MagicAt(s: seq<byte>, i: nat) {
    i + 2 <= |s| && s[i..i + 2] == BE16(FRAME_MAGIC)
  }

  /** The first place at or after `from` where the magic bytes stand, or -1. */
  function IndexOfMagic(s: seq<byte>, from: nat): (i: int)
    ensures i == -1 || (from <= i < |s| && MagicAt(s, i))
    ensures forall k: nat :: from <= k && (i == -1 || k < i) ==> !MagicAt(s, k)
    decreases |s| - from
  {
    if from + 2 > |s| then -1
    else if MagicAt(s, from) then from
    else IndexOfMagic(s, from + 1)
  }

  /** What one turn of the decoding loop finds at the front of the buffer. */
  datatype Turn = Wait | Discard(why: StreamError) | Resync(skip: nat) | Packet(size: nat)

  function NextTurn(buffer: seq<byte>, maxPayload: nat): (turn: Turn)
    ensures turn.Resync? ==> 0 < turn.skip <= |buffer|
    ensures turn.Packet? ==> 0 < turn.size <= |buffer|
  {
    if |buffer| < 8 then Wait
    else if ReadBE16(buffer, 0) != FRAME_MAGIC then
      var next := IndexOfMagic(buffer, 1);
      if next > 0 then Resync(next) else Discard(InvalidMagic)
    else
      var payloadLen := ReadBE32(buffer, 4);
      if payloadLen > maxPayload then Discard(OversizedPayload)
      else if |buffer| < OVERHEAD + payloadLen then Wait
      else Packet(OVERHEAD + payloadLen)
  }

  /** The decoding loop. */
  function Scanned(buffer: seq<byte>, maxPayload: nat): Scan
    decreases |buffer|
  {
    match NextTurn(buffer, maxPayload)
    case Wait => Scan([], buffer, NoError, false)
    case Discard(why) => Scan([], [], why, true)
    case Resync(skip) =>
      var s := Scanned(buffer[skip..], maxPayload);
      s.(error := Later(InvalidMagic, s.error))
    case Packet(size) =>
      var s := Scanned(buffer[size..], maxPayload);
      match Decode(buffer[..size])
      case Some(frame) => s.(frames := [frame] + s.frames)
      case None => s.(error := Later(InvalidFrame, s.error))
  }

  /** Decoding behind the guard against unbounded growth. */
  function Received(buffer: seq<byte>, maxPayload: nat): Scan {
    if |buffer| > MAX_RECEIVE_BUFFER_SIZE then Scan([], [], BufferOverflow, true)
    else Scanned(buffer, maxPayload)
  }

  method ProcessStreamBuffer(input: seq<byte>, maxPayload: nat)
    returns (buffer: seq<byte>, frames: seq<Frame>, error: StreamError)
    requires Sizable(maxPayload)
    ensures var s := Received(input, maxPayload);
            buffer == s.rest && frames == s.frames && error == s.error
  {
    hide Decode, BE16, ReadBE16, ReadBE32, IndexOfMagic;
    buffer, frames, error := input, [], NoError;
    if |buffer| > MAX_RECEIVE_BUFFER_SIZE {
      return [], [], BufferOverflow;
    }
    while |buffer| >= 8
      invariant var s, t := Scanned(buffer, maxPayload), Scanned(input, maxPayload);
                t.frames == frames + s.frames && t.rest == s.rest && t.error == Later(error, s.error)
      decreases |buffer|
    {
      if ReadBE16(buffer, 0) != FRAME_MAGIC {
        error := InvalidMagic;
        var next := IndexOfMagic(buffer, 1);
        if next > 0 {
          buffer := buffer[next..];
          continue;
        } else {
          buffer := [];
          return;
        }
      }
      var payloadLen := ReadBE32(buffer, 4);
      if payloadLen > maxPayload {
        error := OversizedPayload;
        buffer := [];
        return;
      }
      var total := OVERHEAD + payloadLen;
      if |buffer| < total {
        break;
      }
      var packet := buffer[..total];
      buffer := buffer[total..];
      var frame := Decode(packet);
      if frame.Some? {
        frames := frames + [frame.value];
      } else {
        error := InvalidFrame;
      }
    }
  }

  /** The first magic of a buffer is the first magic of any longer buffer. */
  lemma IndexOfMagicAppend(a: seq<byte>, b: seq<byte>, from: nat)
    requires IndexOfMagic(a, from) != -1
    ensures IndexOfMagic(a + b, from) == IndexOfMagic(a, from)
  {
    hide IndexOfMagic;
    var i := IndexOfMagic(a, from);
    forall k: nat | k <= i
      ensures MagicAt(a + b, k) == MagicAt(a, k)
    {
      assert (a + b)[k..k + 2] == a[k..k + 2];
    }
    assert MagicAt(a + b, i);
  }

  lemma HeaderAppend(a: seq<byte>, b: seq<byte>)
    requires |a| >= 8
    ensures ReadBE16(a + b, 0) == ReadBE16(a, 0) && ReadBE32(a + b, 4) == ReadBE32(a, 4)
  {
  }

  /** A turn that found something finds the same once more bytes have arrived. */
  lemma TurnAppend(a: seq<byte>, b: seq<byte>, maxPayload: nat)
    requires NextTurn(a, maxPayload).Resync? || NextTurn(a, maxPayload).Packet?
    ensures NextTurn(a + b, maxPayload) == NextTurn(a, maxPayload)
  {
    HeaderAppend(a, b);
    if ReadBE16(a, 0) != FRAME_MAGIC {
      IndexOfMagicAppend(a, b, 1);
    }
  }

  /**
   Where the stream is cut does not matter: on arbitrary bytes, damaged ones
   included, decoding `a` and then what it left followed by `b` is decoding a + b,
   provided nothing was thrown away in between.
   */
  lemma {:induction false} ScannedInTwo(a: seq<byte>, b: seq<byte>, maxPayload: nat)
    requires !Scanned(a, maxPayload).cleared
    ensures var s := Scanned(a, maxPayload);
            var t := Scanned(s.rest + b, maxPayload);
            Scanned(a + b, maxPayload) == Scan(s.frames + t.frames, t.rest, Later(s.error, t.error), t.cleared)
    decreases |a|
  {
    hide Decode, NextTurn;
    match NextTurn(a, maxPayload)
    case Wait =>
    case Resync(skip) =>
      TurnAppend(a, b, maxPayload);
      assert (a + b)[skip..] == a[skip..] + b;
      ScannedInTwo(a[skip..], b, maxPayload);
    case Packet(size) =>
      TurnAppend(a, b, maxPayload);
      assert (a + b)[size..] == a[size..] + b;
      assert (a + b)[..size] == a[..size];
      ScannedInTwo(a[size..], b, maxPayload);
  }

  /** The same for reads, while the growth guard stays quiet. */
  lemma ReceivedInTwo(a: seq<byte>, b: seq<byte>, maxPayload: nat)
    requires |a + b| <= MAX_RECEIVE_BUFFER_SIZE
    requires !Received(a, maxPayload).cleared
    ensures var s := Received(a, maxPayload);
            var t := Received(s.rest + b, maxPayload);
            Received(a + b, maxPayload) == Scan(s.frames + t.frames, t.rest, Later(s.error, t.error), t.cleared)
  {
    ScannedInTwo(a, b, maxPayload);
    RestIsShorter(a, maxPayload);
  }

  lemma {:induction false} RestIsShorter(a: seq<byte>, maxPayload: nat)
    ensures |Scanned(a, maxPayload).rest| <= |a|
    decreases |a|
  {
    hide Decode, NextTurn;
    match NextTurn(a, maxPayload)
    case Wait =>
    case Discard(_) =>
    case Resync(skip) => RestIsShorter(a[skip..], maxPayload);
    case Packet(size) => RestIsShorter(a[size..], maxPayload);
  }

  // ---------------------------------------------------------------------
  // Decoding what was encoded
  // ---------------------------------------------------------------------

  /** Frames the channel is meant for. */
  predicate Fits(f: Frame, maxPayload: nat) {
    |f.payload| <= maxPayload
  }

  predicate AllFit(fs: seq<Frame>, maxPayload: nat) {
    forall f :: f in fs ==> Fits(f, maxPayload)
  }

  /** The bytes of a sequence of frames. */
  function Stream(fs: seq<Frame>): seq<byte>
  {
    if fs == [] then [] else Encode(fs[0]) + Stream(fs[1..])
  }

  lemma {:induction false} StreamAppend(fs: seq<Frame>, gs: seq<Frame>)
    ensures Stream(fs + gs) == Stream(fs) + Stream(gs)
  {
    hide Encode;
    if fs == [] {
      assert fs + gs == gs;
    } else {
      assert (fs + gs)[1..] == fs[1..] + gs;
      StreamAppend(fs[1..], gs);
    }
  }

  /** A packet at the front of a buffer is consumed whole and yields its frame. */
  lemma ScannedPacket(f: Frame, tail: seq<byte>, maxPayload: nat)
    requires Sizable(maxPayload) && Fits(f, maxPayload)
    ensures var s := Scanned(tail, maxPayload);
            Scanned(Encode(f) + tail, maxPayload) == s.(frames := [f] + s.frames)
  {
    hide Encode, Decode, NextTurn;
    var buffer := Encode(f) + tail;
    TurnAtPacket(f, buffer, |Encode(f)|, maxPayload);
    DecodeEncoded(f);
    assert buffer[..|Encode(f)|] == Encode(f) && buffer[|Encode(f)|..] == tail;
  }

  /** A proper prefix of a packet is kept until more arrives. */
  lemma ScannedPartialPacket(f: Frame, part: seq<byte>, maxPayload: nat)
    requires Sizable(maxPayload) && Fits(f, maxPayload)
    requires |part| < |Encode(f)| && part == Encode(f)[..|part|]
    ensures Scanned(part, maxPayload) == Scan([], part, NoError, false)
  {
    hide Encode, Decode, NextTurn;
    TurnAtPacket(f, part, |part|, maxPayload);
  }

  /** The turn taken at the first `n` bytes of a packet, followed by anything once it is complete. */
  lemma TurnAtPacket(f: Frame, buffer: seq<byte>, n: nat, maxPayload: nat)
    requires Sizable(maxPayload) && |f.payload| < TWO_32
    requires n <= |buffer| && n <= |Encode(f)| && buffer[..n] == Encode(f)[..n]
    requires n < |buffer| ==> n == |Encode(f)|
    ensures NextTurn(buffer, maxPayload) ==
            if n < 8 then Wait
            else if |f.payload| > maxPayload then Discard(OversizedPayload)
            else if n < |Encode(f)| then Wait else Packet(n)
  {
    hide Encode, IndexOfMagic, ReadBE16, ReadBE32, Checksum;
    if n >= 8 {
      PacketFields(f);
      assert |f.payload| % TWO_32 == |f.payload|;
      SameHeader(Encode(f), buffer, n);
    }
  }

  lemma SameHeader(a: seq<byte>, b: seq<byte>, n: nat)
    requires 8 <= n <= |a| && n <= |b| && a[..n] == b[..n]
    ensures ReadBE16(a, 0) == ReadBE16(b, 0) && ReadBE32(a, 4) == ReadBE32(b, 4)
  {
    assert forall i :: 0 <= i < n ==> a[i] == a[..n][i] == b[..n][i] == b[i];
  }

  /** `bytes` are the first `k` frames and a proper prefix of the next. */
  predicate CutAt(fs: seq<Frame>, bytes: seq<byte>, k: nat, rest: seq<byte>)
  {
    && k <= |fs|
    && bytes == Stream(fs[..k]) + rest
    && if k == |fs| then rest == [] else |rest| < |Encode(fs[k])| && rest == Encode(fs[k])[..|rest|]
  }

  /** Decoding a prefix of an encoded stream yields exactly the frames that it contains whole. */
  lemma {:induction false} ScannedPrefix(fs: seq<Frame>, bytes: seq<byte>, maxPayload: nat)
    requires Sizable(maxPayload) && AllFit(fs, maxPayload)
    requires bytes <= Stream(fs)
    ensures var s := Scanned(bytes, maxPayload);
            && |s.frames| <= |fs| && s.frames == fs[..|s.frames|]
            && s.error == NoError && !s.cleared
            && CutAt(fs, bytes, |s.frames|, s.rest)
    decreases |fs|
  {
    hide Encode, Scanned;
    if fs == [] {
      EmptyScan(maxPayload);
      assert CutAt(fs, bytes, 0, []);
    } else {
      var packet := Encode(fs[0]);
      assert Fits(fs[0], maxPayload);
      if |packet| <= |bytes| {
        var tail := bytes[|packet|..];
        assert bytes == packet + tail && tail <= Stream(fs[1..]);
        ScannedPrefix(fs[1..], tail, maxPayload);
        ScannedPacket(fs[0], tail, maxPayload);
        var k := |Scanned(tail, maxPayload).frames|;
        assert fs[..k + 1][1..] == fs[1..][..k];
        assert Stream(fs[..k + 1]) == packet + Stream(fs[1..][..k]);
      } else {
        assert bytes == Stream(fs)[..|bytes|] == packet[..|bytes|];
        ScannedPartialPacket(fs[0], bytes, maxPayload);
        assert Stream(fs[..0]) == [];
      }
    }
  }

  lemma EmptyScan(maxPayload: nat)
    ensures Scanned([], maxPayload) == Scan([], [], NoError, false)
  {
  }

  /** A whole stream yields its frames. */
  lemma {:induction false} ScannedStream(fs: seq<Frame>, maxPayload: nat)
    requires Sizable(maxPayload) && AllFit(fs, maxPayload)
    ensures Scanned(Stream(fs), maxPayload) == Scan(fs, [], NoError, false)
  {
    hide Encode, Scanned;
    if fs == [] {
      EmptyScan(maxPayload);
    } else {
      assert Fits(fs[0], maxPayload);
      ScannedStream(fs[1..], maxPayload);
      ScannedPacket(fs[0], Stream(fs[1..]), maxPayload);
    }
  }

  /** A packet on its own is delivered exactly when its payload is within the limit. */
  lemma DeliveredIffFits(f: Frame, maxPayload: nat)
    requires Sizable(maxPayload) && |f.payload| < TWO_32
    ensures Scanned(Encode(f), maxPayload).frames == [f] <==> |f.payload| <= maxPayload
  {
    hide Encode, Decode, NextTurn;
    assert Encode(f) + [] == Encode(f);
    TurnAtPacket(f, Encode(f), |Encode(f)|, maxPayload);
    if |f.payload| <= maxPayload {
      EmptyScan(maxPayload);
      ScannedPacket(f, [], maxPayload);
    }
  }

  /** An oversized packet takes everything that is buffered behind it along. */
  lemma OversizedDiscardsAll(f: Frame, tail: seq<byte>, maxPayload: nat)
    requires Sizable(maxPayload) && maxPayload < |f.payload| < TWO_32
    ensures var s := Received(Encode(f) + tail, maxPayload);
            s.frames == [] && s.rest == [] && s.cleared && (s.error == OversizedPayload || s.error == BufferOverflow)
  {
    hide Encode, Decode, NextTurn;
    var buffer := Encode(f) + tail;
    assert buffer[..|Encode(f)|] == Encode(f);
    TurnAtPacket(f, buffer, |Encode(f)|, maxPayload);
  }
}
