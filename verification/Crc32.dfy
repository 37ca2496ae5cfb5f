/**
 The bit-serial CRC-32 of the frame format. A 32-bit register is its bits, bit 0
 first, so that shifting right drops the first bit. Two accounts of the loop:
 polynomial division over GF(2) as in section 3.2.9 of IEEE Std 802.3, and the
 injectivity that makes it detect every burst of up to 32 bits.
 */
module Crc32 {
  import opened Bytes
  import opened Bits

  type Word = s: Bits | |s| == 32 witness Zeros(32)

  const G0: Bits := [false, false, false, false] + [false, true, false, false]
  const G1: Bits := [true, true, false, false] + [false, false, false, true]
  const G2: Bits := [false, false, false, true] + [true, true, false, true]
  const G3: Bits := [true, false, true, true] + [false, true, true, true]

  /** The generator polynomial without its leading term: bit i is the coefficient of x^(31-i). */
  const GENERATOR: Word := (G0 + G1) + (G2 + G3)

  const DIVISOR: Bits := [true] + GENERATOR

  /** The powers of x in the generator polynomial of IEEE Std 802.3. */
  const POWERS: set<nat> := {32, 26, 23, 22, 16, 12, 11, 10, 8, 7, 5, 4, 2, 1, 0}

  /** The divisor is that polynomial, and the constant in the source is the same one reflected. */
  lemma GeneratorConstant()
    ensures forall power: nat :: power <= 32 ==> (DIVISOR[32 - power] <==> power in POWERS)
    ensures Value(GENERATOR) == 0xEDB8_8320
  {
    GeneratorOctets();
    ValueAppend(G0, G1);
    ValueAppend(G2, G3);
    ValueAppend(G0 + G1, G2 + G3);
  }

  lemma GeneratorOctets()
    ensures Value(G0) == 0x20 && Value(G1) == 0x83 && Value(G2) == 0xB8 && Value(G3) == 0xED
    ensures Pow2(8) == 0x100 && Pow2(16) == 0x1_0000
  {
    Pow2Values();
    Octet(false, false, false, false, false, true, false, false);
    assert G0 == [false, false, false, false, false, true, false, false];
    Octet(true, true, false, false, false, false, false, true);
    assert G1 == [true, true, false, false, false, false, false, true];
    Octet(false, false, false, true, true, true, false, true);
    assert G2 == [false, false, false, true, true, true, false, true];
    Octet(true, false, true, true, false, true, true, true);
    assert G3 == [true, false, true, true, false, true, true, true];
  }

  lemma Octet(a: bool, b: bool, c: bool, d: bool, e: bool, f: bool, g: bool, h: bool)
    ensures Value([a, b, c, d, e, f, g, h]) ==
            Weight(a, 1) + Weight(b, 2) + Weight(c, 4) + Weight(d, 8)
            + 16 * (Weight(e, 1) + Weight(f, 2) + Weight(g, 4) + Weight(h, 8))
  {
    ValueOfNibble(a, b, c, d);
    ValueOfNibble(e, f, g, h);
    ValueAppend([a, b, c, d], [e, f, g, h]);
    assert [a, b, c, d] + [e, f, g, h] == [a, b, c, d, e, f, g, h];
    assert Pow2(4) == 16;
  }

  function Weight(bit: bool, weight: nat): nat {
    if bit then weight else 0
  }

  lemma ValueOfNibble(a: bool, b: bool, c: bool, d: bool)
    ensures Value([a, b, c, d]) == Weight(a, 1) + Weight(b, 2) + Weight(c, 4) + Weight(d, 8)
  {
    assert [a, b, c, d][1..] == [b, c, d] && [b, c, d][1..] == [c, d] && [c, d][1..] == [d];
    assert Value([d]) == Weight(d, 1);
    assert Value([c, d]) == Weight(c, 1) + 2 * Value([d]);
    assert Value([b, c, d]) == Weight(b, 1) + 2 * Value([c, d]);
  }

  // ---------------------------------------------------------------------
  // The register
  // ---------------------------------------------------------------------

  function ShiftRight(crc: Word): Word {
    crc[1..] + [false]
  }

  /** One bit of division: shift right and, when a one falls out, subtract the generator. */
  function BitStep(crc: Word): Word {
    if crc[0] then XorInto(ShiftRight(crc), GENERATOR) else ShiftRight(crc)
  }

  function BitSteps(crc: Word, n: nat): Word
    decreases n
  {
    if n == 0 then crc else BitSteps(BitStep(crc), n - 1)
  }

  function ByteStep(crc: Word, b: byte): Word {
    BitSteps(XorInto(crc, BitsOf(b, 8)), 8)
  }

  /** The register after feeding `data` to a register that holds `crc`. */
  function Run(crc: Word, data: seq<byte>): Word
    decreases |data|
  {
    if data == [] then crc else Run(ByteStep(crc, data[0]), data[1..])
  }

  function Crc(data: seq<byte>): Word {
    Complement(Run(Ones(32), data))
  }

  /** The checksum as the unsigned integer that goes on the wire. */
  function Checksum(data: seq<byte>): (n: nat)
    ensures n < TWO_32
  {
    var crc := Crc(data);
    ValueBound(crc);
    Pow2Values();
    Value(crc)
  }

  function And(x: Word, y: Word): Word {
    seq(32, i requires 0 <= i < 32 => x[i] && y[i])
  }

  /** Minus the lowest bit, in two's complement. */
  function Mask(crc: Word): Word {
    if crc[0] then Ones(32) else Zeros(32)
  }

  /** The branch-free form of the inner loop is the bit step. */
  lemma MaskedStep(crc: Word)
    ensures XorInto(ShiftRight(crc), And(GENERATOR, Mask(crc))) == BitStep(crc)
  {
    assert And(GENERATOR, Mask(crc)) == if crc[0] then GENERATOR else Zeros(32);
  }

  /** The inner loop: eight bit steps. */
  method ShiftOutByte(crc: Word) returns (r: Word)
    ensures r == BitSteps(crc, 8)
  {
    r := crc;
    for j := 0 to 8
      invariant BitSteps(r, 8 - j) == BitSteps(crc, 8)
    {
      MaskedStep(r);
      r := XorInto(ShiftRight(r), And(GENERATOR, Mask(r)));
    }
  }

  method CalculateCrc32(data: seq<byte>) returns (crc: Word)
    ensures crc == Crc(data)
  {
    crc := Ones(32);
    for i := 0 to |data|
      invariant Run(crc, data[i..]) == Run(Ones(32), data)
    {
      assert data[i..][1..] == data[i + 1..];
      crc := ShiftOutByte(XorInto(crc, BitsOf(data[i], 8)));
    }
    crc := Complement(crc);
  }

  lemma {:induction false} RunAppend(crc: Word, a: seq<byte>, b: seq<byte>)
    ensures Run(crc, a + b) == Run(Run(crc, a), b)
    decreases |a|
  {
    if a == [] {
      assert a + b == b;
    } else {
      assert (a + b)[1..] == a[1..] + b;
      RunAppend(ByteStep(crc, a[0]), a[1..], b);
    }
  }

  // ---------------------------------------------------------------------
  // The register divides
  // ---------------------------------------------------------------------

  /** Feeding one message bit, as a serial divider does. */
  function Feed(crc: Word, bit: bool): Word {
    if crc[0] != bit then XorInto(ShiftRight(crc), GENERATOR) else ShiftRight(crc)
  }

  function FeedAll(crc: Word, message: Bits): Word
    decreases |message|
  {
    if message == [] then crc else FeedAll(Feed(crc, message[0]), message[1..])
  }

  /** The order in which bits travel: each byte least significant bit first. */
  function MessageBits(data: seq<byte>): (m: Bits)
    ensures |m| == 8 * |data|
  {
    if data == [] then [] else BitsOf(data[0], 8) + MessageBits(data[1..])
  }

  /** Up to a register's width of bits can be xored in before stepping instead of one by one. */
  lemma {:induction false} Preload(crc: Word, message: Bits)
    requires |message| <= 32
    ensures BitSteps(XorInto(crc, message), |message|) == FeedAll(crc, message)
    decreases |message|
  {
    if message == [] {
      assert XorInto(crc, message) == crc;
    } else {
      assert BitStep(XorInto(crc, message)) == XorInto(Feed(crc, message[0]), message[1..]);
      Preload(Feed(crc, message[0]), message[1..]);
    }
  }

  lemma {:induction false} FeedAllAppend(crc: Word, a: Bits, b: Bits)
    ensures FeedAll(crc, a + b) == FeedAll(FeedAll(crc, a), b)
    decreases |a|
  {
    if a == [] {
      assert a + b == b;
    } else {
      assert (a + b)[1..] == a[1..] + b;
      FeedAllAppend(Feed(crc, a[0]), a[1..], b);
    }
  }

  lemma {:induction false} RunFeeds(crc: Word, data: seq<byte>)
    ensures Run(crc, data) == FeedAll(crc, MessageBits(data))
    decreases |data|
  {
    if data != [] {
      Preload(crc, BitsOf(data[0], 8));
      RunFeeds(ByteStep(crc, data[0]), data[1..]);
      FeedAllAppend(crc, BitsOf(data[0], 8), MessageBits(data[1..]));
    }
  }

  /** Long division of a message whose first 32 bits carry the register, for any divisor [true] + g. */
  lemma ReduceIsFeed(g: Word, crc: Word, message: Bits)
    requires message != []
    ensures Reduce(XorInto(message + Zeros(32), crc), [true] + g)
            == XorInto(message[1..] + Zeros(32),
                       if crc[0] != message[0] then XorInto(ShiftRight(crc), g) else ShiftRight(crc))
  {
    var dividend, rest := XorInto(message + Zeros(32), crc), message[1..] + Zeros(32);
    var next := if crc[0] != message[0] then XorInto(ShiftRight(crc), g) else ShiftRight(crc);
    var reduced, expected := Reduce(dividend, [true] + g), XorInto(rest, next);
    assert dividend[0] == (crc[0] != message[0]);
    forall i | 0 <= i < |reduced|
      ensures reduced[i] == expected[i]
    {
      assert rest[i] == (message + Zeros(32))[i + 1];
    }
    assert reduced == expected;
  }

  lemma {:induction false} FeedAllDivides(crc: Word, message: Bits)
    ensures IsRemainder(XorInto(message + Zeros(32), crc), DIVISOR, FeedAll(crc, message))
    decreases |message|
  {
    var dividend := XorInto(message + Zeros(32), crc);
    if message == [] {
      assert dividend == crc == XorInto(Times([], DIVISOR), Zeros(0) + crc);
      assert IsQuotient(dividend, DIVISOR, [], crc);
    } else {
      var next := Feed(crc, message[0]);
      FeedAllDivides(next, message[1..]);
      ReduceIsFeed(GENERATOR, crc, message);
      var q :| IsQuotient(Reduce(dividend, DIVISOR), DIVISOR, q, FeedAll(crc, message));
      QuotientCons(dividend, DIVISOR, q, FeedAll(crc, message));
    }
  }

  /**
   Section 3.2.9 of IEEE Std 802.3: complement the first 32 bits of the message,
   multiply by x^32, divide by the generator, complement the remainder.
   */
  lemma CrcIsPolynomialRemainder(data: seq<byte>)
    ensures IsRemainder(XorInto(MessageBits(data) + Zeros(32), Ones(32)), DIVISOR, Complement(Crc(data)))
    ensures forall r :: IsRemainder(XorInto(MessageBits(data) + Zeros(32), Ones(32)), DIVISOR, r)
                        ==> r == Complement(Crc(data))
  {
    var dividend := XorInto(MessageBits(data) + Zeros(32), Ones(32));
    RunFeeds(Ones(32), data);
    FeedAllDivides(Ones(32), MessageBits(data));
    assert Complement(Crc(data)) == Run(Ones(32), data);
    forall r | IsRemainder(dividend, DIVISOR, r)
      ensures r == Complement(Crc(data))
    {
      RemainderUnique(dividend, DIVISOR, r, Complement(Crc(data)));
    }
  }

  // ---------------------------------------------------------------------
  // Linearity
  // ---------------------------------------------------------------------

  lemma {:induction false} FeedAllLinear(x: Word, y: Word, m: Bits, n: Bits)
    requires |m| == |n|
    ensures FeedAll(XorInto(x, y), XorInto(m, n)) == XorInto(FeedAll(x, m), FeedAll(y, n))
    decreases |m|
  {
    if m != [] {
      assert Feed(XorInto(x, y), XorInto(m, n)[0]) == XorInto(Feed(x, m[0]), Feed(y, n[0]));
      assert XorInto(m, n)[1..] == XorInto(m[1..], n[1..]);
      FeedAllLinear(Feed(x, m[0]), Feed(y, n[0]), m[1..], n[1..]);
    }
  }

  /** The CRC is affine: changing a message by d changes its CRC by an amount that depends on d alone. */
  lemma CrcIsAffine(a: seq<byte>, b: seq<byte>, c: seq<byte>, d: seq<byte>)
    requires |a| == |b| == |c| == |d|
    requires XorInto(MessageBits(a), MessageBits(b)) == XorInto(MessageBits(c), MessageBits(d))
    ensures XorInto(Crc(a), Crc(b)) == XorInto(Crc(c), Crc(d))
  {
    var ones := Ones(32);
    RunFeeds(ones, a);
    RunFeeds(ones, b);
    RunFeeds(ones, c);
    RunFeeds(ones, d);
    FeedAllLinear(ones, ones, MessageBits(a), MessageBits(b));
    FeedAllLinear(ones, ones, MessageBits(c), MessageBits(d));
    ComplementsXor(Run(ones, a), Run(ones, b));
    ComplementsXor(Run(ones, c), Run(ones, d));
  }

  // ---------------------------------------------------------------------
  // Burst detection
  // ---------------------------------------------------------------------

  /** A step loses nothing: the generator has a constant term, which betrays the bit that fell out. */
  lemma FeedInjective(x: Word, y: Word, bit: bool)
    requires Feed(x, bit) == Feed(y, bit)
    ensures x == y
  {
    assert GENERATOR[31];
    assert Feed(x, bit)[31] == (x[0] != bit) && Feed(y, bit)[31] == (y[0] != bit);
    forall i | 0 < i < 32
      ensures x[i] == y[i]
    {
      assert Feed(x, bit)[i - 1] == (x[i] != ((x[0] != bit) && GENERATOR[i - 1]));
      assert Feed(y, bit)[i - 1] == (y[i] != ((y[0] != bit) && GENERATOR[i - 1]));
    }
    assert x == [x[0]] + x[1..] && y == [y[0]] + y[1..];
  }

  lemma {:induction false} FeedAllInjective(x: Word, y: Word, message: Bits)
    requires FeedAll(x, message) == FeedAll(y, message)
    ensures x == y
    decreases |message|
  {
    if message != [] {
      FeedAllInjective(Feed(x, message[0]), Feed(y, message[0]), message[1..]);
      FeedInjective(x, y, message[0]);
    }
  }

  /** From one register, two different windows of at most 32 bits lead to different registers. */
  lemma WindowInjective(crc: Word, m: Bits, n: Bits)
    requires |m| == |n| <= 32 && FeedAll(crc, m) == FeedAll(crc, n)
    ensures m == n
  {
    Preload(crc, m);
    Preload(crc, n);
    var x, y := XorInto(crc, m), XorInto(crc, n);
    StepsAreFeeds(x, |m|);
    StepsAreFeeds(y, |m|);
    FeedAllInjective(x, y, Zeros(|m|));
    forall i | 0 <= i < |m|
      ensures m[i] == n[i]
    {
      assert x[i] == (crc[i] != m[i]) && y[i] == (crc[i] != n[i]);
    }
  }

  lemma {:induction false} StepsAreFeeds(crc: Word, n: nat)
    ensures BitSteps(crc, n) == FeedAll(crc, Zeros(n))
    decreases n
  {
    if n > 0 {
      assert Zeros(n)[1..] == Zeros(n - 1);
      StepsAreFeeds(BitStep(crc), n - 1);
    }
  }

  /** Every error confined to 32 consecutive bits changes the register. */
  lemma BurstDetected(crc: Word, before: Bits, m: Bits, n: Bits, after: Bits)
    requires |m| == |n| <= 32 && m != n
    ensures FeedAll(crc, before + m + after) != FeedAll(crc, before + n + after)
  {
    var at := FeedAll(crc, before);
    FeedAllAppend(crc, before + m, after);
    FeedAllAppend(crc, before + n, after);
    FeedAllAppend(crc, before, m);
    FeedAllAppend(crc, before, n);
    if FeedAll(crc, before + m + after) == FeedAll(crc, before + n + after) {
      FeedAllInjective(FeedAll(at, m), FeedAll(at, n), after);
      WindowInjective(at, m, n);
    }
  }

  lemma {:induction false} MessageBitsAppend(a: seq<byte>, b: seq<byte>)
    ensures MessageBits(a + b) == MessageBits(a) + MessageBits(b)
    decreases |a|
  {
    if a == [] {
      assert a + b == b;
    } else {
      assert (a + b)[1..] == a[1..] + b;
      MessageBitsAppend(a[1..], b);
    }
  }

  lemma {:induction false} MessageBitsInjective(a: seq<byte>, b: seq<byte>)
    requires |a| == |b| && MessageBits(a) == MessageBits(b)
    ensures a == b
    decreases |a|
  {
    if a != [] {
      assert BitsOf(a[0], 8) == MessageBits(a)[..8] == MessageBits(b)[..8] == BitsOf(b[0], 8);
      assert MessageBits(a[1..]) == MessageBits(a)[8..] == MessageBits(b)[8..];
      Pow2Values();
      ValueOfBits(a[0], 8);
      ValueOfBits(b[0], 8);
      MessageBitsInjective(a[1..], b[1..]);
      assert a == [a[0]] + a[1..] && b == [b[0]] + b[1..];
    }
  }

  /** Rewriting up to four consecutive bytes always changes the checksum. */
  lemma ChecksumDetectsBurst(before: seq<byte>, x: seq<byte>, y: seq<byte>, after: seq<byte>)
    requires |x| == |y| <= 4 && x != y
    ensures Checksum(before + x + after) != Checksum(before + y + after)
  {
    hide MessageBits, FeedAll, Run;
    var a, b := before + x + after, before + y + after;
    MessageBitsAppend(before + x, after);
    MessageBitsAppend(before, x);
    MessageBitsAppend(before + y, after);
    MessageBitsAppend(before, y);
    if MessageBits(x) == MessageBits(y) {
      MessageBitsInjective(x, y);
    }
    BurstDetected(Ones(32), MessageBits(before), MessageBits(x), MessageBits(y), MessageBits(after));
    RunFeeds(Ones(32), a);
    RunFeeds(Ones(32), b);
    assert Complement(Crc(a)) == Run(Ones(32), a) && Complement(Crc(b)) == Run(Ones(32), b);
    if Checksum(a) == Checksum(b) {
      ValueInjective(Crc(a), Crc(b));
    }
  }
}
