/**
 Bit strings, read both as unsigned integers (bit 0 first) and as polynomials
 over GF(2) (highest power first).
 */
module Bits {
  import opened Bytes

  type Bits = seq<bool>

  function Zeros(n: nat): (s: Bits)
    ensures |s| == n
  {
    seq(n, _ => false)
  }

  function Ones(n: nat): (s: Bits)
    ensures |s| == n
  {
    seq(n, _ => true)
  }

  /** Exclusive or of `t` into the front of `s`. */
  function XorInto(s: Bits, t: Bits): (r: Bits)
    requires |t| <= |s|
    ensures |r| == |s|
  {
    seq(|s|, i requires 0 <= i < |s| => if i < |t| then s[i] != t[i] else s[i])
  }

  function Complement(s: Bits): (r: Bits)
    ensures |r| == |s|
  {
    seq(|s|, i requires 0 <= i < |s| => !s[i])
  }

  lemma ComplementsXor(s: Bits, t: Bits)
    requires |s| == |t|
    ensures XorInto(Complement(s), Complement(t)) == XorInto(s, t)
  {
  }

  // ---------------------------------------------------------------------
  // Unsigned integers, least significant bit first
  // ---------------------------------------------------------------------

  function BitsOf(n: nat, width: nat): (s: Bits)
    ensures |s| == width
  {
    if width == 0 then [] else [n % 2 == 1] + BitsOf(n / 2, width - 1)
  }

  function Value(s: Bits): nat {
    if s == [] then 0 else (if s[0] then 1 else 0) + 2 * Value(s[1..])
  }

  function Pow2(n: nat): (p: nat)
    ensures p > 0
  {
    if n == 0 then 1 else 2 * Pow2(n - 1)
  }

  lemma Pow2Values()
    ensures Pow2(8) == TWO_8 && Pow2(16) == TWO_16 && Pow2(32) == TWO_32
  {
    assert Pow2(8) == TWO_8;
    assert Pow2(16) == TWO_8 * Pow2(8);
    assert Pow2(24) == TWO_8 * Pow2(16);
    assert Pow2(32) == TWO_8 * Pow2(24);
  }

  lemma {:induction false} ValueBound(s: Bits)
    ensures Value(s) < Pow2(|s|)
  {
    if s != [] {
      ValueBound(s[1..]);
    }
  }

  lemma Doubled(p: nat, v: nat)
    ensures 2 * p * v == 2 * (p * v)
  {
  }

  lemma {:induction false} ValueAppend(s: Bits, t: Bits)
    ensures Value(s + t) == Value(s) + Pow2(|s|) * Value(t)
  {
    if s == [] {
      assert s + t == t;
    } else {
      assert (s + t)[1..] == s[1..] + t && (s + t)[0] == s[0];
      ValueAppend(s[1..], t);
      Doubled(Pow2(|s| - 1), Value(t));
    }
  }

  lemma {:induction false} ValueOfBits(n: nat, width: nat)
    requires n < Pow2(width)
    ensures Value(BitsOf(n, width)) == n
  {
    if width > 0 {
      ValueOfBits(n / 2, width - 1);
      assert BitsOf(n, width)[1..] == BitsOf(n / 2, width - 1);
    }
  }

  lemma {:induction false} ValueInjective(s: Bits, t: Bits)
    requires |s| == |t| && Value(s) == Value(t)
    ensures s == t
  {
    if s != [] {
      assert s[0] == t[0];
      ValueInjective(s[1..], t[1..]);
      assert s == [s[0]] + s[1..] && t == [t[0]] + t[1..];
    }
  }

  // ---------------------------------------------------------------------
  // Polynomials over GF(2), highest power first
  // ---------------------------------------------------------------------

  /** The product of a polynomial with a divisor whose leading coefficient is 1. */
  function Times(q: Bits, divisor: Bits): (p: Bits)
    requires |divisor| > 0
    ensures |p| == |q| + |divisor| - 1
  {
    if q == [] then Zeros(|divisor| - 1)
    else
      var rest := [false] + Times(q[1..], divisor);
      if q[0] then XorInto(rest, divisor) else rest
  }

  /** Dividing `s` by `divisor` leaves `r`: their difference is a multiple of the divisor. */
  ghost predicate IsQuotient(s: Bits, divisor: Bits, q: Bits, r: Bits) {
    && |divisor| > 0 && |r| == |divisor| - 1 && |s| == |q| + |r|
    && s == XorInto(Times(q, divisor), Zeros(|q|) + r)
  }

  ghost predicate IsRemainder(s: Bits, divisor: Bits, r: Bits) {
    exists q :: IsQuotient(s, divisor, q, r)
  }

  /** One step of long division: cancel the leading coefficient and drop it. */
  function Reduce(s: Bits, divisor: Bits): (r: Bits)
    requires |divisor| <= |s| && s != []
    ensures |r| == |s| - 1
  {
    (if s[0] then XorInto(s, divisor) else s)[1..]
  }

  lemma QuotientHead(s: Bits, divisor: Bits, q: Bits, r: Bits)
    requires IsQuotient(s, divisor, q, r) && q != [] && divisor[0]
    ensures s[0] == q[0] && IsQuotient(Reduce(s, divisor), divisor, q[1..], r)
  {
    var shifted := [false] + Times(q[1..], divisor);
    var pad, pad' := Zeros(|q|) + r, Zeros(|q| - 1) + r;
    assert s[0] == q[0];
    var reduced, expected := Reduce(s, divisor), XorInto(Times(q[1..], divisor), pad');
    forall i | 0 <= i < |reduced|
      ensures reduced[i] == expected[i]
    {
      assert shifted[i + 1] == Times(q[1..], divisor)[i] && pad[i + 1] == pad'[i];
      assert s[i + 1] == (Times(q, divisor)[i + 1] != pad[i + 1]);
    }
    assert reduced == expected;
  }

  lemma QuotientCons(s: Bits, divisor: Bits, q: Bits, r: Bits)
    requires 0 < |divisor| <= |s| && divisor[0]
    requires IsQuotient(Reduce(s, divisor), divisor, q, r)
    ensures IsQuotient(s, divisor, [s[0]] + q, r)
  {
    var q1 := [s[0]] + q;
    assert q1[1..] == q;
    var pad, pad' := Zeros(|q1|) + r, Zeros(|q|) + r;
    var product, expected := Times(q, divisor), XorInto(Times(q1, divisor), pad);
    forall i | 0 <= i < |s|
      ensures s[i] == expected[i]
    {
      if i > 0 {
        assert pad[i] == pad'[i - 1] && ([false] + product)[i] == product[i - 1];
        assert Reduce(s, divisor)[i - 1] == (product[i - 1] != pad'[i - 1]);
      }
    }
    assert s == expected;
  }

  /** Quotient and remainder are unique, so IsRemainder determines r. */
  lemma {:induction false} QuotientUnique(s: Bits, divisor: Bits, q: Bits, r: Bits, q': Bits, r': Bits)
    requires IsQuotient(s, divisor, q, r) && IsQuotient(s, divisor, q', r')
    requires divisor[0]
    ensures r == r'
    decreases |q|
  {
    if q == [] {
      assert s == r && s == r';
    } else {
      QuotientHead(s, divisor, q, r);
      QuotientHead(s, divisor, q', r');
      QuotientUnique(Reduce(s, divisor), divisor, q[1..], r, q'[1..], r');
    }
  }

  lemma RemainderUnique(s: Bits, divisor: Bits, r: Bits, r': Bits)
    requires |divisor| > 0 && divisor[0]
    requires IsRemainder(s, divisor, r) && IsRemainder(s, divisor, r')
    ensures r == r'
  {
    var q :| IsQuotient(s, divisor, q, r);
    var q' :| IsQuotient(s, divisor, q', r');
    QuotientUnique(s, divisor, q, r, q', r');
  }
}
