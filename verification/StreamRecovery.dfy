/** What the stream decoder does about damage: which packets of a damaged stream are still delivered. */
module StreamRecovery {
  import opened Bytes
  import opened Crc32
  import opened Framing
  import opened StreamDecoder
  import opened Wrappers

  // ---------------------------------------------------------------------
  // Junk and damaged packets
  // ---------------------------------------------------------------------

  /** No magic bytes stand at any place below `n`. */
  predicate NoMagicBelow(s: seq<byte>, n: nat) {
    forall k: nat :: k < n ==> !MagicAt(s, k)
  }

  lemma MagicIsRead(s: seq<byte>)
    requires |s| >= 2
    ensures MagicAt(s, 0) <==> ReadBE16(s, 0) == FRAME_MAGIC
  {
    Respell16(s, 0);
    if MagicAt(s, 0) {
      ReadBack16(s, 0, FRAME_MAGIC);
    }
  }

  /** Everything in the buffer is discarded as junk exactly if it has eight bytes and magic nowhere. */
  lemma AllIsJunkIff(buffer: seq<byte>, maxPayload: nat)
    ensures NextTurn(buffer, maxPayload) == Discard(InvalidMagic) <==> |buffer| >= 8 && NoMagicBelow(buffer, |buffer|)
  {
    hide MagicAt, ReadBE16, ReadBE32;
    if |buffer| >= 8 {
      MagicIsRead(buffer);
      var next := IndexOfMagic(buffer, 1);
      assert next != -1 ==> MagicAt(buffer, next);
    }
  }

  /** Junk in front of magic bytes is skipped up to them, and reported. */
  lemma ScannedJunk(junk: seq<byte>, tail: seq<byte>, maxPayload: nat)
    requires junk != [] && |junk + tail| >= 8
    requires NoMagicBelow(junk + tail, |junk|) && MagicAt(tail, 0)
    ensures var s := Scanned(tail, maxPayload);
            Scanned(junk + tail, maxPayload) == s.(error := Later(InvalidMagic, s.error))
  {
    hide ReadBE16, ReadBE32, Decode, MagicAt;
    var buffer := junk + tail;
    MagicIsRead(buffer);
    MagicShifts(junk, tail, 0);
    assert IndexOfMagic(buffer, 1) == |junk|;
    assert buffer[|junk|..] == tail;
  }

  lemma MagicShifts(a: seq<byte>, b: seq<byte>, k: nat)
    ensures MagicAt(a + b, |a| + k) == MagicAt(b, k)
  {
    if k + 2 <= |b| {
      assert (a + b)[|a| + k..|a| + k + 2] == b[k..k + 2];
    }
  }

  lemma PacketHasMagic(f: Frame, tail: seq<byte>)
    ensures MagicAt(Encode(f) + tail, 0)
  {
    hide Checksum;
    assert (Encode(f) + tail)[0..2] == BE16(FRAME_MAGIC);
  }

  /** A packet whose header is in order and which the frame decoder rejects. */
  predicate Damaged(packet: seq<byte>, maxPayload: nat) {
    && |packet| >= OVERHEAD && ReadBE16(packet, 0) == FRAME_MAGIC
    && ReadBE32(packet, 4) <= maxPayload && |packet| == OVERHEAD + ReadBE32(packet, 4)
    && Decode(packet) == None
  }

  /** A damaged packet is skipped whole, and reported. */
  lemma ScannedDamaged(packet: seq<byte>, tail: seq<byte>, maxPayload: nat)
    requires Damaged(packet, maxPayload)
    ensures var s := Scanned(tail, maxPayload);
            Scanned(packet + tail, maxPayload) == s.(error := Later(InvalidFrame, s.error))
  {
    hide ReadBE16, ReadBE32, Decode;
    var buffer := packet + tail;
    HeaderAppend(packet, tail);
    assert buffer[..|packet|] == packet && buffer[|packet|..] == tail;
  }

  /** Overwriting up to four bytes behind the length field, or the type, damages a packet. */
  lemma BurstDamages(f: Frame, at: nat, window: seq<byte>, maxPayload: nat)
    requires Sizable(maxPayload) && Fits(f, maxPayload)
    requires |window| <= 4 && at + |window| <= 8 + |f.payload| && (at >= 8 || (2 <= at && at + |window| <= 4))
    requires window != Encode(f)[at..at + |window|]
    ensures Damaged(Encode(f)[..at] + window + Encode(f)[at + |window|..], maxPayload)
  {
    hide Encode, Decode, Checksum;
    PacketFields(f);
    assert |f.payload| % TWO_32 == |f.payload|;
    BurstRejected(f, at, window);
    var packet := Encode(f);
    var damaged := packet[..at] + window + packet[at + |window|..];
    assert damaged[0] == packet[0] && damaged[1] == packet[1];
    assert forall i :: 4 <= i < 8 ==> damaged[i] == packet[i];
  }

  // ---------------------------------------------------------------------
  // Streams with damage
  // ---------------------------------------------------------------------

  datatype Piece = Whole(frame: Frame) | Broken(packet: seq<byte>) | Junk(junk: seq<byte>)

  function BytesOf(p: Piece): seq<byte> {
    match p
    case Whole(f) => Encode(f)
    case Broken(packet) => packet
    case Junk(junk) => junk
  }

  function Joined(ps: seq<Piece>): seq<byte> {
    if ps == [] then [] else BytesOf(ps[0]) + Joined(ps[1..])
  }

  function FramesIn(ps: seq<Piece>): seq<Frame> {
    if ps == [] then [] else (if ps[0].Whole? then [ps[0].frame] else []) + FramesIn(ps[1..])
  }

  /** The last piece of damage, as it is reported. */
  function DamageIn(ps: seq<Piece>): StreamError {
    if ps == [] then NoError
    else
      Later(match ps[0] case Whole(_) => NoError case Broken(_) => InvalidFrame case Junk(_) => InvalidMagic,
            DamageIn(ps[1..]))
  }

  /** Whole packets within the limit, damaged ones, and in front of packets junk in which no magic begins. */
  predicate Pieced(ps: seq<Piece>, maxPayload: nat) {
    ps != [] ==>
      && Pieced(ps[1..], maxPayload)
      && match ps[0]
         case Whole(f) => Fits(f, maxPayload)
         case Broken(packet) => Damaged(packet, maxPayload)
         case Junk(junk) => junk != [] && ps[1..] != [] && !ps[1].Junk? && NoMagicBelow(junk + Joined(ps[1..]), |junk|)
  }

  /**
   However whole packets, damaged ones and junk follow each other: exactly the frames of the whole packets
   are delivered, in order, nothing is left, and the error is that of the last damage.
   */
  lemma {:induction false} DamageCostsOnlyItself(ps: seq<Piece>, maxPayload: nat)
    requires Sizable(maxPayload) && Pieced(ps, maxPayload)
    ensures Scanned(Joined(ps), maxPayload) == Scan(FramesIn(ps), [], DamageIn(ps), false)
  {
    hide Encode, Decode, NextTurn, Scanned, MagicAt, Damaged, NoMagicBelow;
    if ps == [] {
      EmptyScan(maxPayload);
    } else {
      var tail := Joined(ps[1..]);
      DamageCostsOnlyItself(ps[1..], maxPayload);
      match ps[0]
      case Whole(f) => ScannedPacket(f, tail, maxPayload);
      case Broken(packet) => ScannedDamaged(packet, tail, maxPayload);
      case Junk(junk) =>
        PieceHasMagic(ps[1..], maxPayload);
        ScannedJunk(junk, tail, maxPayload);
    }
  }

  lemma PieceHasMagic(ps: seq<Piece>, maxPayload: nat)
    requires ps != [] && !ps[0].Junk? && Pieced(ps, maxPayload)
    ensures |Joined(ps)| >= OVERHEAD && MagicAt(Joined(ps), 0)
  {
    hide Encode, Decode, MagicAt, ReadBE16, ReadBE32;
    match ps[0]
    case Whole(f) => PacketHasMagic(f, Joined(ps[1..]));
    case Broken(packet) =>
      HeaderAppend(packet, Joined(ps[1..]));
      MagicIsRead(Joined(ps));
  }

  // ---------------------------------------------------------------------
  // Junk and read boundaries
  // ---------------------------------------------------------------------

  /** What is decoded and kept takes no more room than what arrived. */
  lemma {:induction false} ScannedIsNotLonger(buffer: seq<byte>, maxPayload: nat)
    ensures var s := Scanned(buffer, maxPayload); |Stream(s.frames)| + |s.rest| <= |buffer|
    decreases |buffer|
  {
    hide Encode, Decode, NextTurn;
    match NextTurn(buffer, maxPayload)
    case Wait =>
    case Discard(_) =>
    case Resync(skip) => ScannedIsNotLonger(buffer[skip..], maxPayload);
    case Packet(size) =>
      ScannedIsNotLonger(buffer[size..], maxPayload);
      if Decode(buffer[..size]).Some? {
        DecodedIsEncoded(buffer[..size]);
      }
  }

  /**
   A packet behind at least eight bytes of junk arrives in two reads, the first of which ends inside it: it is
   delivered exactly unless the cut goes through its magic bytes. Then the first of them is discarded as junk.
   */
  lemma CutBehindJunkIff(junk: seq<byte>, f: Frame, k: nat, maxPayload: nat)
    requires Sizable(maxPayload) && Fits(f, maxPayload) && k < |Encode(f)|
    requires |junk| >= 8 && NoMagicBelow(junk + Encode(f), |junk|)
    ensures var s := Scanned(junk + Encode(f)[..k], maxPayload);
            var t := Scanned(s.rest + Encode(f)[k..], maxPayload);
            s.frames + t.frames == [f] <==> k != 1
  {
    hide Encode, Decode, Scanned, NextTurn, MagicAt;
    var packet := Encode(f);
    var part, more := packet[..k], packet[k..];
    assert packet == part + more && packet + [] == packet;
    EmptyScan(maxPayload);
    ScannedPacket(f, [], maxPayload);
    PacketHasMagic(f, []);
    if k >= 2 {
      CutMagic(junk, packet, k);
      ScannedJunk(junk, part, maxPayload);
      ScannedPartialPacket(f, part, maxPayload);
    } else {
      CutMagic(junk, packet, k);
      AllIsJunkIff(junk + part, maxPayload);
      Discarded(junk + part, maxPayload);
      assert [] + more == more;
      if k == 1 {
        ScannedIsNotLonger(more, maxPayload);
        OneFrame(f);
      } else {
        assert more == packet;
      }
    }
  }

  lemma OneFrame(f: Frame)
    ensures Stream([f]) == Encode(f)
  {
    hide Encode;
    assert [f][1..] == [] && Stream([f][1..]) == [];
  }

  lemma Discarded(buffer: seq<byte>, maxPayload: nat)
    requires NextTurn(buffer, maxPayload) == Discard(InvalidMagic)
    ensures Scanned(buffer, maxPayload) == Scan([], [], InvalidMagic, true)
  {
  }

  /** Where the magic bytes of a packet behind junk are, once only `k` of its bytes are there. */
  lemma CutMagic(junk: seq<byte>, packet: seq<byte>, k: nat)
    requires k <= |packet| && NoMagicBelow(junk + packet, |junk|) && MagicAt(packet, 0)
    ensures NoMagicBelow(junk + packet[..k], |junk|)
    ensures if k >= 2 then MagicAt(packet[..k], 0) else NoMagicBelow(junk + packet[..k], |junk| + k)
  {
    var part := junk + packet[..k];
    forall i: nat | i < |junk| && i + 2 <= |part|
      ensures !MagicAt(part, i)
    {
      assert part[i..i + 2] == (junk + packet)[i..i + 2];
      assert !MagicAt(junk + packet, i);
    }
    if k >= 2 {
      assert packet[..k][0..2] == packet[0..2];
    }
  }
}
