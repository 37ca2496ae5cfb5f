/** The frame codec: magic, type, length, payload and checksum, all big-endian. */
module Framing {
  import opened Bytes
  import opened Crc32
  import opened Wrappers

  const FRAME_MAGIC: nat := 0x4D43
  const OVERHEAD: nat := 12

  datatype Frame = Frame(frameType: uint16, payload: seq<byte>)

  /** The part of a packet that the checksum covers. */
  function Body(f: Frame): (b: seq<byte>)
    ensures |b| == 8 + |f.payload|
  {
    BE16(FRAME_MAGIC) + BE16(f.frameType) + BE32(|f.payload| % TWO_32) + f.payload
  }

  function Encode(f: Frame): (packet: seq<byte>)
    ensures |packet| == OVERHEAD + |f.payload|
  {
    Body(f) + BE32(Checksum(Body(f)))
  }

  /** A 32-bit unsigned integer cast to a signed one. */
  function ToInt32(n: nat): int
    requires n < TWO_32
  {
    if n < 0x8000_0000 then n else n - TWO_32
  }

  /** Lengths whose packet size is still a positive 32-bit signed integer. */
  predicate Sizable(length: nat) {
    OVERHEAD + length < 0x8000_0000
  }

  function Decode(data: seq<byte>): Option<Frame> {
    if |data| < OVERHEAD then None
    else if ReadBE16(data, 0) != FRAME_MAGIC then None
    else
      var payloadLen := ReadBE32(data, 4);
      if |data| != ToInt32((OVERHEAD + payloadLen) % TWO_32) then None
      else if ReadBE32(data, 8 + payloadLen) != Checksum(data[..8 + payloadLen]) then None
      else Some(Frame(ReadBE16(data, 2), data[8..8 + payloadLen]))
  }

  /** Where the fields of a packet are. */
  lemma PacketFields(f: Frame)
    ensures ReadBE16(Encode(f), 0) == FRAME_MAGIC
    ensures ReadBE16(Encode(f), 2) == f.frameType
    ensures ReadBE32(Encode(f), 4) == |f.payload| % TWO_32
    ensures ReadBE32(Encode(f), 8 + |f.payload|) == Checksum(Body(f))
    ensures Encode(f)[8..8 + |f.payload|] == f.payload
    ensures Encode(f)[..8 + |f.payload|] == Body(f)
  {
    hide Checksum;
    var packet, n := Encode(f), |f.payload|;
    assert packet[0..2] == BE16(FRAME_MAGIC);
    assert packet[2..4] == BE16(f.frameType);
    assert packet[4..8] == BE32(n % TWO_32);
    assert packet[8 + n..12 + n] == BE32(Checksum(Body(f)));
    ReadBack16(packet, 0, FRAME_MAGIC);
    ReadBack16(packet, 2, f.frameType);
    ReadBack32(packet, 4, n % TWO_32);
    ReadBack32(packet, 8 + n, Checksum(Body(f)));
  }

  /** How the decoder judges bytes whose header and checksum are in order. */
  lemma DecodeFields(data: seq<byte>, n: nat)
    requires |data| == OVERHEAD + n
    requires ReadBE16(data, 0) == FRAME_MAGIC && ReadBE32(data, 4) == n % TWO_32
    requires ReadBE32(data, 8 + n) == Checksum(data[..8 + n])
    ensures Decode(data) == if Sizable(n) then Some(Frame(ReadBE16(data, 2), data[8..8 + n])) else None
  {
    hide Checksum;
    if Sizable(n) {
      assert n % TWO_32 == n;
    } else if n < TWO_32 {
      assert n % TWO_32 == n;
    }
  }

  lemma DecodeEncoded(f: Frame)
    ensures Decode(Encode(f)) == if Sizable(|f.payload|) then Some(f) else None
  {
    hide Checksum;
    PacketFields(f);
    DecodeFields(Encode(f), |f.payload|);
  }

  /** What a successful decode found in the bytes. */
  lemma DecodedFields(data: seq<byte>)
    requires Decode(data).Some?
    ensures var f := Decode(data).value;
            && Sizable(|f.payload|) && |data| == OVERHEAD + |f.payload|
            && data[0..2] == BE16(FRAME_MAGIC) && data[2..4] == BE16(f.frameType)
            && data[4..8] == BE32(|f.payload|) && data[8..8 + |f.payload|] == f.payload
            && ReadBE32(data, 8 + |f.payload|) == Checksum(data[..8 + |f.payload|])
  {
    hide Checksum;
    Respell16(data, 0);
    Respell16(data, 2);
    Respell32(data, 4);
  }

  /** Whatever is decoded is a frame that encodes to the bytes it came from. */
  lemma DecodedIsEncoded(data: seq<byte>)
    requires Decode(data).Some?
    ensures Encode(Decode(data).value) == data
    ensures Sizable(|Decode(data).value.payload|)
  {
    hide Checksum;
    DecodedFields(data);
    var f := Decode(data).value;
    var n := |f.payload|;
    assert data[..8 + n] == data[0..2] + data[2..4] + data[4..8] + data[8..8 + n];
    assert Body(f) == data[..8 + n];
    Respell32(data, 8 + n);
    assert data == data[..8 + n] + data[8 + n..12 + n];
  }

  /** The decoder accepts exactly the encodings of frames whose packet size a 32-bit int can hold. */
  lemma DecodeIffEncoded(data: seq<byte>, f: Frame)
    ensures Decode(data) == Some(f) <==> data == Encode(f) && Sizable(|f.payload|)
  {
    DecodeEncoded(f);
    if Decode(data) == Some(f) {
      DecodedIsEncoded(data);
    }
  }

  /**
   Error detection: rewriting any window of up to four consecutive bytes that
   lies inside header and payload makes the decoder reject the packet.
   */
  lemma BurstRejected(f: Frame, at: nat, window: seq<byte>)
    requires |window| <= 4 && at + |window| <= 8 + |f.payload|
    requires window != Encode(f)[at..at + |window|]
    ensures Decode(Encode(f)[..at] + window + Encode(f)[at + |window|..]) == None
  {
    hide Checksum, Decode, Encode, Body;
    var packet, n := Encode(f), |f.payload|;
    var damaged := packet[..at] + window + packet[at + |window|..];
    assert damaged[..8 + n] == packet[..8 + n][..at] + window + packet[..8 + n][at + |window|..];
    if Decode(damaged).Some? {
      DecodedIsEncoded(damaged);
      var g := Decode(damaged).value;
      PacketFields(f);
      PacketFields(g);
      ReadSame32(packet, damaged, 8 + n);
      BurstChangesChecksum(packet[..8 + n], at, window);
    }
  }

  lemma BurstChangesChecksum(body: seq<byte>, at: nat, window: seq<byte>)
    requires |window| <= 4 && at + |window| <= |body|
    requires window != body[at..at + |window|]
    ensures Checksum(body) != Checksum(body[..at] + window + body[at + |window|..])
  {
    hide *;
    var end := at + |window|;
    assert body == body[..at] + body[at..end] + body[end..];
    ChecksumDetectsBurst(body[..at], body[at..end], window, body[end..]);
  }

  lemma ReadSame32(s: seq<byte>, t: seq<byte>, at: nat)
    requires |s| == |t| && at + 4 <= |s| && s[at..] == t[at..]
    ensures ReadBE32(s, at) == ReadBE32(t, at)
  {
    assert forall i :: at <= i < |s| ==> s[i] == s[at..][i - at] == t[at..][i - at] == t[i];
  }
}
