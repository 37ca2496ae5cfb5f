/**
 The binary file chunk: a 16-byte transfer id padded with zeros, the chunk index and
 size as big-endian words, and the data. Ids are the bytes of their characters.
 */
module FileChunk {
  import opened Bytes
  import opened Wrappers
  import Framing

  const ID_SIZE: nat := 16
  const HEADER_SIZE: nat := 24

  datatype Chunk = Chunk(transferId: seq<byte>, index: nat, data: seq<byte>)

  /** The id cut or padded to its field. */
  function IdField(transferId: seq<byte>): (s: seq<byte>)
    ensures |s| == ID_SIZE
  {
    var id := if |transferId| > ID_SIZE then transferId[..ID_SIZE] else transferId;
    id + Padding(ID_SIZE - |id|)
  }

  function EncodeChunk(transferId: seq<byte>, index: nat, data: seq<byte>): (r: seq<byte>)
    requires index < TWO_32
    ensures |r| == HEADER_SIZE + |data|
  {
    IdField(transferId) + BE32(index) + BE32(|data| % TWO_32) + data
  }

  /** White space among 7-bit characters. */
  predicate IsSpaceByte(b: byte) {
    9 <= b <= 13 || b == 32
  }

  function TrimmedLeft(s: seq<byte>): seq<byte> {
    if s != [] && IsSpaceByte(s[0]) then TrimmedLeft(s[1..]) else s
  }

  function TrimmedRight(s: seq<byte>): seq<byte> {
    if s != [] && IsSpaceByte(s[|s| - 1]) then TrimmedRight(s[..|s| - 1]) else s
  }

  function UpToNull(s: seq<byte>): seq<byte> {
    if s == [] || s[0] == 0 then [] else [s[0]] + UpToNull(s[1..])
  }

  function IdOf(field: seq<byte>): seq<byte> {
    UpToNull(TrimmedRight(TrimmedLeft(field)))
  }

  function DecodeChunk(raw: seq<byte>): Option<Chunk> {
    if |raw| < HEADER_SIZE then None
    else
      var id := IdOf(raw[..ID_SIZE]);
      var size := ReadBE32(raw, 20);
      if id == [] || |raw| != HEADER_SIZE + Framing.ToInt32(size) then None
      else Some(Chunk(id, ReadBE32(raw, ID_SIZE), raw[HEADER_SIZE..HEADER_SIZE + size]))
  }

  /** Ids that survive padding, trimming and the cut at the first null. */
  predicate StableId(id: seq<byte>) {
    && 0 < |id| <= ID_SIZE && 0 !in id
    && !IsSpaceByte(id[0])
    && (|id| == ID_SIZE ==> !IsSpaceByte(id[|id| - 1]))
  }

  lemma {:induction false} UpToNullPadded(id: seq<byte>, n: nat)
    ensures 0 !in id ==> UpToNull(id + Padding(n)) == id
    ensures 0 !in UpToNull(id + Padding(n))
    decreases |id|
  {
    var s := id + Padding(n);
    if id == [] {
      assert s == Padding(n);
    } else {
      assert s[1..] == id[1..] + Padding(n);
      UpToNullPadded(id[1..], n);
    }
  }

  lemma {:induction false} TrimmedShrinks(s: seq<byte>)
    ensures |TrimmedLeft(s)| <= |s| && |TrimmedRight(s)| <= |s|
    ensures TrimmedLeft(s) != [] ==> !IsSpaceByte(TrimmedLeft(s)[0])
    ensures TrimmedRight(s) != [] ==> TrimmedRight(s)[0] == s[0]
    ensures TrimmedRight(s) == s[..|TrimmedRight(s)|]
    ensures TrimmedRight(s) != [] ==> !IsSpaceByte(TrimmedRight(s)[|TrimmedRight(s)| - 1])
    decreases |s|
  {
    if s != [] {
      TrimmedShrinks(s[1..]);
      TrimmedShrinks(s[..|s| - 1]);
    }
  }

  lemma {:induction false} UpToNullIsPrefix(s: seq<byte>)
    ensures UpToNull(s) <= s && 0 !in UpToNull(s)
    decreases |s|
  {
    if s != [] {
      UpToNullIsPrefix(s[1..]);
    }
  }

  lemma IdFieldRoundTrip(id: seq<byte>)
    ensures IdOf(IdField(id)) == id != [] <==> StableId(id)
  {
    var field := IdField(id);
    var left := TrimmedLeft(field);
    var trimmed := TrimmedRight(left);
    TrimmedShrinks(field);
    TrimmedShrinks(left);
    UpToNullIsPrefix(trimmed);
    if StableId(id) {
      assert field == id + Padding(ID_SIZE - |id|);
      assert left == field && trimmed == field;
      UpToNullPadded(id, ID_SIZE - |id|);
    }
    if UpToNull(trimmed) == id && id != [] {
      assert id[0] == trimmed[0] == left[0];
      assert |id| == ID_SIZE ==> trimmed == id;
    }
  }

  /** Decoding gives back the chunk exactly when its id is stable, for every index and data an int can count. */
  lemma ChunkRoundTrip(id: seq<byte>, index: nat, data: seq<byte>)
    requires index < TWO_32 && HEADER_SIZE + |data| < 0x8000_0000
    ensures DecodeChunk(EncodeChunk(id, index, data)) == Some(Chunk(id, index, data)) <==> StableId(id)
  {
    hide IdField, IdOf, BE32, ReadBE32;
    var raw := EncodeChunk(id, index, data);
    assert raw[..ID_SIZE] == IdField(id);
    assert raw[ID_SIZE..20] == BE32(index) && raw[20..24] == BE32(|data|) && raw[24..] == data;
    ReadBack32(raw, ID_SIZE, index);
    ReadBack32(raw, 20, |data|);
    assert raw[24..24 + |data|] == data;
    IdFieldRoundTrip(id);
  }

  /** Ids are made of "ft_" and thirteen hexadecimal digits: all of them survive. */
  lemma GeneratedIdIsStable(id: seq<byte>)
    requires |id| == 16 && forall b :: b in id ==> 32 < b < 127
    ensures StableId(id)
  {
    assert id[0] in id && id[15] in id;
  }

  /** Exactly which bytes are decoded to which index and data: those that end in the two words and the data, behind an id. */
  lemma ChunkDecodedIff(raw: seq<byte>, index: nat, data: seq<byte>)
    requires index < TWO_32
    ensures |raw| >= HEADER_SIZE && DecodeChunk(raw) == Some(Chunk(IdOf(raw[..ID_SIZE]), index, data)) <==>
            && |raw| >= HEADER_SIZE && IdOf(raw[..ID_SIZE]) != [] && |data| < 0x8000_0000
            && raw[ID_SIZE..] == BE32(index) + BE32(|data|) + data
  {
    hide IdOf, BE32, ReadBE32;
    if |raw| >= HEADER_SIZE {
      Respell32(raw, 16);
      Respell32(raw, 20);
      assert raw[16..] == raw[16..20] + raw[20..24] + raw[24..];
      var size := ReadBE32(raw, 20);
      if DecodeChunk(raw).Some? {
        assert |raw| == HEADER_SIZE + size && raw[24..24 + size] == raw[24..];
      }
      if |data| < 0x8000_0000 && raw[ID_SIZE..] == BE32(index) + BE32(|data|) + data {
        var tail := BE32(index) + BE32(|data|) + data;
        assert raw[16..20] == raw[16..][..4] == tail[..4] && raw[20..24] == raw[16..][4..8] == tail[4..8];
        assert raw[24..] == raw[16..][8..] == tail[8..] == data && raw[24..24 + |data|] == data;
        ReadBack32(raw, 16, index);
        ReadBack32(raw, 20, |data|);
      }
    }
  }
}
