/** Bytes, and the fixed-width integers that the wire formats store in them. */
module Bytes {

  type byte = x: int | 0 <= x < 0x100
  type uint16 = x: int | 0 <= x < 0x1_0000

  const TWO_8: int := 0x100
  const TWO_16: int := 0x1_0000
  const TWO_32: int := 0x1_0000_0000

  /** Big-endian encoding of a 16-bit unsigned integer. */
  function BE16(n: nat): (s: seq<byte>)
    requires n < TWO_16
    ensures |s| == 2
  {
    [n / TWO_8, n % TWO_8]
  }

  function ReadBE16(s: seq<byte>, at: nat): (n: nat)
    requires at + 2 <= |s|
    ensures n < TWO_16
  {
    s[at] * TWO_8 + s[at + 1]
  }

  /** Big-endian encoding of a 32-bit unsigned integer. */
  function BE32(n: nat): (s: seq<byte>)
    requires n < TWO_32
    ensures |s| == 4
  {
    BE16(n / TWO_16) + BE16(n % TWO_16)
  }

  function ReadBE32(s: seq<byte>, at: nat): (n: nat)
    requires at + 4 <= |s|
    ensures n < TWO_32
  {
    ReadBE16(s, at) * TWO_16 + ReadBE16(s, at + 2)
  }

  /** Reading back a big-endian word that sits anywhere in a longer buffer. */
  lemma ReadBack32(s: seq<byte>, at: nat, n: nat)
    requires n < TWO_32 && at + 4 <= |s|
    requires s[at..at + 4] == BE32(n)
    ensures ReadBE32(s, at) == n
  {
    var w := s[at..at + 4];
    assert s[at..at + 2] == w[..2] && s[at + 2..at + 4] == w[2..];
    ReadBack16(s, at, n / TWO_16);
    ReadBack16(s, at + 2, n % TWO_16);
  }

  lemma ReadBack16(s: seq<byte>, at: nat, n: nat)
    requires n < TWO_16 && at + 2 <= |s|
    requires s[at..at + 2] == BE16(n)
    ensures ReadBE16(s, at) == n
  {
    var w := s[at..at + 2];
    assert s[at] == w[0] && s[at + 1] == w[1];
  }

  /** The bytes are determined by the word they spell. */
  lemma Respell16(s: seq<byte>, at: nat)
    requires at + 2 <= |s|
    ensures ReadBE16(s, at) < TWO_16 && BE16(ReadBE16(s, at)) == s[at..at + 2]
  {
  }

  lemma Respell32(s: seq<byte>, at: nat)
    requires at + 4 <= |s|
    ensures BE32(ReadBE32(s, at)) == s[at..at + 4]
  {
    Respell16(s, at);
    Respell16(s, at + 2);
    var high, low := ReadBE16(s, at), ReadBE16(s, at + 2);
    assert ReadBE32(s, at) / TWO_16 == high && ReadBE32(s, at) % TWO_16 == low;
  }

  /** Null bytes. */
  function Padding(n: nat): (s: seq<byte>)
    ensures |s| == n
  {
    seq(n, _ => 0)
  }

  /** The bytes of a sequence of chunks, one after another. */
  function Flat(chunks: seq<seq<byte>>): seq<byte> {
    if chunks == [] then [] else chunks[0] + Flat(chunks[1..])
  }
}
