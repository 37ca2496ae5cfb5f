/**
 Netlink attributes: how nested ones are laid out with 16-bit lengths and 4-byte alignment,
 and the loop that walks them. Integers are in the order of a little-endian host.
 */
module Netlink {
  import opened Bytes
  import opened Wrappers

  const NLA_HDRLEN: nat := 4
  const NLA_F_NESTED: nat := 0x8000
  /** The mask 0x3FFF keeps a type modulo this. */
  const NLA_TYPES: nat := 0x4000

  function LE16(n: nat): (s: seq<byte>)
    requires n < TWO_16
    ensures |s| == 2
  {
    [n % TWO_8, n / TWO_8]
  }

  function ReadLE16(s: seq<byte>, at: nat): (n: uint16)
    requires at + 2 <= |s|
  {
    s[at] + TWO_8 * s[at + 1]
  }

  lemma ReadBackLE16(s: seq<byte>, at: nat, n: nat)
    requires n < TWO_16 && at + 2 <= |s| && s[at..at + 2] == LE16(n)
    ensures ReadLE16(s, at) == n
  {
    assert s[at] == s[at..at + 2][0] && s[at + 1] == s[at..at + 2][1];
  }

  /** What is missing to a multiple of four. */
  function Pad(n: nat): (p: nat)
    ensures p < 4 && (n + p) % 4 == 0
  {
    (4 - n % 4) % 4
  }

  function Aligned(n: nat): nat {
    n + Pad(n)
  }

  /** A length that is cut to 16 bits is padded as the whole length would be. */
  lemma PadOfCut(n: nat)
    ensures Pad(n % TWO_16) == Pad(n)
  {
    assert n == n / TWO_16 * TWO_16 + n % TWO_16;
    assert n % 4 == n % TWO_16 % 4;
  }

  // ---------------------------------------------------------------------
  // Layout
  // ---------------------------------------------------------------------

  datatype Attr = Leaf(kind: nat, data: seq<byte>) | Nest(kind: nat, children: seq<Attr>)

  /** Header, content and padding; the length field has 16 bits. */
  function Sealed(raw: uint16, content: seq<byte>): seq<byte> {
    LE16((NLA_HDRLEN + |content|) % TWO_16) + LE16(raw) + content + Padding(Pad((NLA_HDRLEN + |content|) % TWO_16))
  }

  /** The type field of a nested attribute carries the flag. */
  function Flagged(kind: nat): uint16 {
    kind % NLA_F_NESTED + NLA_F_NESTED
  }

  function Layouts(ts: seq<Attr>): seq<byte> {
    if ts == [] then []
    else
      (match ts[0]
       case Leaf(kind, data) => Sealed(kind % TWO_16, data)
       case Nest(kind, children) => Sealed(Flagged(kind), Layouts(children)))
      + Layouts(ts[1..])
  }

  function Content(t: Attr): seq<byte> {
    match t
    case Leaf(_, data) => data
    case Nest(_, children) => Layouts(children)
  }

  function RawType(t: Attr): uint16 {
    if t.Leaf? then t.kind % TWO_16 else Flagged(t.kind)
  }

  lemma LayoutsCons(t: Attr, ts: seq<Attr>)
    ensures Layouts([t] + ts) == Sealed(RawType(t), Content(t)) + Layouts(ts)
  {
    assert ([t] + ts)[1..] == ts;
  }

  lemma {:induction false} LayoutsAppend(ts: seq<Attr>, us: seq<Attr>)
    ensures Layouts(ts + us) == Layouts(ts) + Layouts(us)
  {
    hide Layouts, Sealed;
    EmptyLayout();
    if ts == [] {
      assert ts + us == us;
    } else {
      assert ts + us == [ts[0]] + (ts[1..] + us) && ts == [ts[0]] + ts[1..];
      LayoutsCons(ts[0], ts[1..] + us);
      LayoutsCons(ts[0], ts[1..]);
      LayoutsAppend(ts[1..], us);
    }
  }

  lemma SealedSize(raw: uint16, content: seq<byte>)
    ensures |Sealed(raw, content)| == Aligned(NLA_HDRLEN + |content|) && |Sealed(raw, content)| % 4 == 0
  {
    PadOfCut(NLA_HDRLEN + |content|);
  }

  // ---------------------------------------------------------------------
  // Walking
  // ---------------------------------------------------------------------

  datatype Visit = Visit(raw: uint16, payload: seq<byte>, rest: seq<byte>)

  /** The attribute at the front, if its length makes sense, and what comes after it. */
  function NextAttr(buf: seq<byte>): (v: Option<Visit>)
    ensures v.Some? ==> |v.value.payload| < |buf| && |v.value.rest| < |buf|
  {
    if |buf| < NLA_HDRLEN then None
    else
      var len := ReadLE16(buf, 0);
      if len < NLA_HDRLEN || len > |buf| then None
      else
        Some(Visit(ReadLE16(buf, 2), buf[NLA_HDRLEN..len], if Aligned(len) > |buf| then [] else buf[Aligned(len)..]))
  }

  /** The walk, applied again inside every attribute that carries the nested flag. */
  function Recovered(buf: seq<byte>): seq<Attr>
    decreases |buf|
  {
    match NextAttr(buf)
    case None => []
    case Some(Visit(raw, payload, rest)) =>
      [if raw < NLA_F_NESTED then Leaf(raw % NLA_TYPES, payload) else Nest(raw % NLA_TYPES, Recovered(payload))]
      + Recovered(rest)
  }

  lemma NextOfSealed(raw: uint16, content: seq<byte>, tail: seq<byte>)
    ensures var len := (NLA_HDRLEN + |content|) % TWO_16;
            var v := NextAttr(Sealed(raw, content) + tail);
            && (v.Some? <==> len >= NLA_HDRLEN)
            && (v.Some? ==> v.value.raw == raw && v.value.payload == content[..len - NLA_HDRLEN])
            && (v.Some? && len == NLA_HDRLEN + |content| ==> v.value.rest == tail)
  {
    hide LE16, ReadLE16, Pad;
    var len := (NLA_HDRLEN + |content|) % TWO_16;
    var buf := Sealed(raw, content) + tail;
    assert buf[NLA_HDRLEN..NLA_HDRLEN + |content|] == content;
    assert buf[0..2] == LE16(len) && buf[2..4] == LE16(raw);
    ReadBackLE16(buf, 0, len);
    ReadBackLE16(buf, 2, raw);
    if len >= NLA_HDRLEN {
      assert buf[NLA_HDRLEN..len] == buf[NLA_HDRLEN..NLA_HDRLEN + |content|][..len - NLA_HDRLEN];
    }
    if len == NLA_HDRLEN + |content| {
      assert buf[Aligned(len)..] == tail;
    }
  }

  /** Kinds that survive the mask, and lengths that survive 16 bits, everywhere in the tree. */
  predicate Kinds(ts: seq<Attr>) {
    forall t :: t in ts ==> t.kind < NLA_TYPES && (t.Nest? ==> Kinds(t.children))
  }

  predicate Fit(ts: seq<Attr>) {
    forall t :: t in ts ==> NLA_HDRLEN + |Content(t)| < TWO_16 && (t.Nest? ==> Fit(t.children))
  }

  lemma FitCons(t: Attr, ts: seq<Attr>)
    ensures Fit([t] + ts) <==>
            NLA_HDRLEN + |Content(t)| < TWO_16 && (t.Nest? ==> Fit(t.children)) && Fit(ts)
  {
    hide Layouts, Content;
    assert forall u :: u in [t] + ts <==> u == t || u in ts;
  }

  lemma KindsCons(t: Attr, ts: seq<Attr>)
    requires Kinds([t] + ts)
    ensures t.kind < NLA_TYPES && (t.Nest? ==> Kinds(t.children)) && Kinds(ts)
  {
    assert t in [t] + ts;
    assert forall u :: u in ts ==> u in [t] + ts;
  }

  lemma SumsOfAligned(content: nat, payload: nat, size: nat, rest: nat)
    requires content <= Aligned(payload) && NLA_HDRLEN + payload <= size
    requires rest == if Aligned(NLA_HDRLEN + payload) > size then 0 else size - Aligned(NLA_HDRLEN + payload)
    ensures Aligned(NLA_HDRLEN + content) + Aligned(rest) <= Aligned(size)
  {
    hide Aligned;
    var here := Aligned(NLA_HDRLEN + payload);
    AlignedLeast(NLA_HDRLEN + payload, here);
    AlignedLeast(size, Aligned(size));
    AlignedLeast(payload, here - NLA_HDRLEN);
    AlignedLeast(NLA_HDRLEN + content, here);
    AlignedLeast(NLA_HDRLEN + payload, Aligned(size));
    if here <= size {
      AlignedLeast(rest, Aligned(size) - here);
    } else {
      AlignedLeast(0, 0);
    }
  }

  lemma AlignedLeast(n: nat, m: nat)
    ensures Aligned(n) % 4 == 0 && n <= Aligned(n)
    ensures m % 4 == 0 && n <= m ==> Aligned(n) <= m
  {
  }

  /** What is recovered never takes more room than what was walked. */
  lemma {:induction false} RecoveredIsNotLonger(buf: seq<byte>)
    ensures |Layouts(Recovered(buf))| <= Aligned(|buf|)
    decreases |buf|
  {
    hide Sealed, ReadLE16, Layouts, Aligned;
    EmptyLayout();
    if NextAttr(buf).Some? {
      var payload, rest := NextAttr(buf).value.payload, NextAttr(buf).value.rest;
      RecoveredIsNotLonger(rest);
      RecoveredIsNotLonger(payload);
      AlignedBounds(|payload|);
      var t := Recovered(buf)[0];
      assert Recovered(buf) == [t] + Recovered(rest);
      LayoutsCons(t, Recovered(rest));
      SealedSize(RawType(t), Content(t));
      SumsOfAligned(|Content(t)|, |payload|, |buf|, |rest|);
    }
  }

  lemma AlignedBounds(n: nat)
    ensures n <= Aligned(n) < n + 4
  {
  }

  /**
   The walk recovers exactly the tree that was laid out if and only if every length in it,
   down to the leaves, fits its 16-bit field.
   */
  lemma {:induction false} RecoveredIffFit(ts: seq<Attr>)
    requires Kinds(ts)
    ensures Recovered(Layouts(ts)) == ts <==> Fit(ts)
  {
    hide Sealed, NextAttr, Layouts, Recovered, Fit, Kinds;
    if ts == [] {
      EmptyLayout();
      EmptyFits();
    } else {
      var t, rest := ts[0], ts[1..];
      assert ts == [t] + rest;
      LayoutsCons(t, rest);
      NextOfSealed(RawType(t), Content(t), Layouts(rest));
      KindsCons(t, rest);
      FitCons(t, rest);
      RecoveredIffFit(rest);
      if NLA_HDRLEN + |Content(t)| < TWO_16 {
        assert Content(t)[..|Content(t)|] == Content(t);
        FirstRecovered(t, Layouts(ts), Layouts(rest));
        if t.Nest? {
          RecoveredIffFit(t.children);
        }
        var r := Recovered(Layouts(ts));
        assert r == [r[0]] + r[1..];
      } else {
        NotRecovered(t, Layouts(ts));
        assert ts[0] == t;
      }
    }
  }

  lemma EmptyFits()
    ensures Fit([])
  {
  }

  /** An attribute whose length fits is found with its content, and the walk goes on behind it. */
  lemma FirstRecovered(t: Attr, buf: seq<byte>, tail: seq<byte>)
    requires NextAttr(buf) == Some(Visit(RawType(t), Content(t), tail)) && t.kind < NLA_TYPES
    ensures var r := Recovered(buf);
            && r != [] && r[1..] == Recovered(tail)
            && r[0] == if t.Leaf? then t else Nest(t.kind, Recovered(Layouts(t.children)))
  {
    hide NextAttr, Layouts;
  }

  /** One whose length does not fit is cut short or ends the walk. */
  lemma NotRecovered(t: Attr, buf: seq<byte>)
    requires NLA_HDRLEN + |Content(t)| >= TWO_16
    requires NextAttr(buf).Some? ==>
               && NextAttr(buf).value.raw == RawType(t)
               && |NextAttr(buf).value.payload| == (NLA_HDRLEN + |Content(t)|) % TWO_16 - NLA_HDRLEN
    ensures Recovered(buf) == [] || Recovered(buf)[0] != t
  {
    hide NextAttr, Layouts;
    if NextAttr(buf).Some? {
      var payload := NextAttr(buf).value.payload;
      RecoveredIsNotLonger(payload);
      assert Aligned(|payload|) < |payload| + 4 < |Content(t)|;
      assert |Layouts(Recovered(payload))| < |Content(t)|;
    }
  }

  lemma EmptyLayout()
    ensures Layouts([]) == [] && Recovered([]) == []
  {
  }
}
