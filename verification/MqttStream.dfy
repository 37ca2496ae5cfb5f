/** The incremental frame loop of the MQTT client. */
module MqttStream {
  import opened Bytes
  import opened MqttCodec

  const CONNACK: byte := 0x20

  /** The broker's refusal, or one too short to read, drops the connection. */
  predicate Aborts(p: Packet) {
    p.header / 16 * 16 == CONNACK && (|p.payload| < 2 || p.payload[1] != 0)
  }

  /** The packets dispatched, the bytes kept for the next read, and whether the connection was dropped. */
  datatype Parse = Parse(packets: seq<Packet>, rest: seq<byte>, aborted: bool)

  datatype Turn = Wait | Corrupt | Take(packet: Packet, size: nat)

  function NextTurn(buffer: seq<byte>): (turn: Turn)
    ensures turn.Take? ==> 0 < turn.size <= |buffer|
  {
    if |buffer| < 2 then Wait
    else
      var r := ReadVar(buffer[1..], 0);
      if !r.Decoded? then
        if |buffer| > 5 then Corrupt else Wait
      else
        var total := 1 + r.consumed + r.length;
        if |buffer| < total then Wait
        else Take(Packet(buffer[0], buffer[1 + r.consumed..total]), total)
  }

  function Parsed(buffer: seq<byte>): Parse
    decreases |buffer|
  {
    match NextTurn(buffer)
    case Wait => Parse([], buffer, false)
    case Corrupt => Parse([], [], true)
    case Take(p, size) =>
      if Aborts(p) then Parse([p], [], true)
      else
        var r := Parsed(buffer[size..]);
        r.(packets := [p] + r.packets)
  }

  // ---------------------------------------------------------------------
  // Read boundaries
  // ---------------------------------------------------------------------

  /** What a turn decided stays decided when more bytes arrive. */
  lemma TurnAppend(a: seq<byte>, b: seq<byte>)
    requires !NextTurn(a).Wait?
    ensures NextTurn(a + b) == NextTurn(a)
  {
    assert (a + b)[1..] == a[1..] + b;
    ReadVarAppend(a[1..], b, 0);
    var r := ReadVar(a[1..], 0);
    if r.Decoded? {
      var total := 1 + r.consumed + r.length;
      assert (a + b)[1 + r.consumed..total] == a[1 + r.consumed..total];
    }
  }

  /** Continuing after `first` with what `second` finds. */
  function Then(first: Parse, second: Parse): Parse {
    Parse(first.packets + second.packets, second.rest, second.aborted)
  }

  lemma {:induction false} ParsedInTwo(a: seq<byte>, b: seq<byte>)
    ensures Parsed(a + b) == if Parsed(a).aborted then Parsed(a) else Then(Parsed(a), Parsed(Parsed(a).rest + b))
    decreases |a|
  {
    hide NextTurn;
    if !NextTurn(a).Wait? {
      TurnAppend(a, b);
      if NextTurn(a).Take? && !Aborts(NextTurn(a).packet) {
        var size := NextTurn(a).size;
        assert (a + b)[size..] == a[size..] + b;
        ParsedInTwo(a[size..], b);
      }
    }
  }

  /** Reads arrive one after another on a connection; nothing is read once it was dropped. */
  function AfterReads(before: Parse, chunks: seq<seq<byte>>): Parse
    decreases |chunks|
  {
    if chunks == [] || before.aborted then before
    else AfterReads(Then(before, Parsed(before.rest + chunks[0])), chunks[1..])
  }

  /** Only the bytes matter, not where the reads end, on any bytes whatever. */
  lemma {:induction false} ReadBoundariesDoNotMatter(sofar: seq<byte>, chunks: seq<seq<byte>>)
    ensures AfterReads(Parsed(sofar), chunks) == Parsed(sofar + Flat(chunks))
    decreases |chunks|
  {
    hide Parsed;
    if chunks == [] {
      assert sofar + Flat(chunks) == sofar;
    } else if Parsed(sofar).aborted {
      ParsedInTwo(sofar, Flat(chunks));
    } else {
      ParsedInTwo(sofar, chunks[0]);
      assert sofar + chunks[0] + Flat(chunks[1..]) == sofar + Flat(chunks);
      ReadBoundariesDoNotMatter(sofar + chunks[0], chunks[1..]);
    }
  }

  // ---------------------------------------------------------------------
  // Well-formed streams
  // ---------------------------------------------------------------------

  predicate Sizable(p: Packet) {
    |p.payload| < TWO_28
  }

  predicate WellFormed(ps: seq<Packet>) {
    forall p :: p in ps ==> Sizable(p) && !Aborts(p)
  }

  function Stream(ps: seq<Packet>): seq<byte> {
    if ps == [] then [] else EncodePacket(ps[0]) + Stream(ps[1..])
  }

  lemma {:induction false} StreamAppend(ps: seq<Packet>, qs: seq<Packet>)
    ensures Stream(ps + qs) == Stream(ps) + Stream(qs)
  {
    hide EncodePacket;
    if ps == [] {
      assert ps + qs == qs;
    } else {
      assert (ps + qs)[1..] == ps[1..] + qs;
      StreamAppend(ps[1..], qs);
    }
  }

  lemma SameSlice(a: seq<byte>, b: seq<byte>, n: nat, i: nat, j: nat)
    requires i <= j <= n <= |a| && n <= |b| && a[..n] == b[..n]
    ensures a[i..j] == b[i..j]
  {
    assert a[..n][i..j] == a[i..j] && b[..n][i..j] == b[i..j];
  }

  /** The turn taken at the first `n` bytes of a packet, followed by anything once it is complete. */
  lemma TurnAtPacket(p: Packet, buffer: seq<byte>, n: nat)
    requires Sizable(p) && n <= |buffer| && n <= |EncodePacket(p)| && buffer[..n] == EncodePacket(p)[..n]
    requires n < |buffer| ==> n == |EncodePacket(p)|
    ensures NextTurn(buffer) == if n < |EncodePacket(p)| then Wait else Take(p, n)
  {
    hide VarLength, ReadVar;
    var size := |p.payload|;
    assert size % TWO_32 == size;
    var digits := VarLength(size, 4);
    var packet := EncodePacket(p);
    assert packet == [p.header] + digits + p.payload;
    PowersOf128();
    VarLengthDigit(size, 4);
    if 2 <= n <= |digits| {
      SameSlice(packet, buffer, n, 1, n);
      assert buffer[1..] == packet[1..n] == digits[..n - 1];
      ReadVarLengthPrefix(size, 4, n - 1);
    } else if n >= 2 {
      var tail := buffer[1 + |digits|..];
      SameSlice(packet, buffer, n, 1, 1 + |digits|);
      assert buffer[1..] == packet[1..1 + |digits|] + tail == digits + tail;
      ReadVarLength(size, 4, tail);
      if n == |packet| {
        SameSlice(packet, buffer, n, 1 + |digits|, n);
        SameSlice(packet, buffer, n, 0, 1);
        assert buffer[0] == buffer[0..1][0] == packet[0];
      }
    }
  }

  /** A packet at the front is consumed whole. */
  lemma ParsedPacket(p: Packet, tail: seq<byte>)
    requires Sizable(p)
    ensures Parsed(EncodePacket(p) + tail) ==
            if Aborts(p) then Parse([p], [], true) else Then(Parse([p], [], false), Parsed(tail))
  {
    hide EncodePacket, NextTurn, Aborts;
    var buffer := EncodePacket(p) + tail;
    TurnAtPacket(p, buffer, |EncodePacket(p)|);
    assert buffer[|EncodePacket(p)|..] == tail;
  }

  /** A proper prefix of a packet is kept until more arrives. */
  lemma ParsedPartialPacket(p: Packet, part: seq<byte>)
    requires Sizable(p) && |part| < |EncodePacket(p)| && part == EncodePacket(p)[..|part|]
    ensures Parsed(part) == Parse([], part, false)
  {
    hide EncodePacket, NextTurn;
    TurnAtPacket(p, part, |part|);
  }

  /** A packet on its own is read back exactly when its length fits four digits. */
  lemma ReadBackIffSizable(p: Packet)
    ensures Parsed(EncodePacket(p)) == Parse([p], [], Aborts(p)) <==> Sizable(p)
  {
    hide Aborts;
    var buffer := EncodePacket(p);
    if Sizable(p) {
      ParsedPacket(p, []);
      assert buffer + [] == buffer;
    } else {
      TurnAtOversized(p);
      hide EncodePacket, NextTurn;
      assert NextTurn(buffer).Take? ==> Parsed(buffer).packets[0] == NextTurn(buffer).packet != p;
      assert NextTurn(buffer).Corrupt? ==> Parsed(buffer).packets == [];
      assert Parse([p], [], Aborts(p)).packets[0] == p;
    }
  }

  lemma TurnAtOversized(p: Packet)
    requires !Sizable(p)
    ensures NextTurn(EncodePacket(p)).Corrupt? ||
            (NextTurn(EncodePacket(p)).Take? && NextTurn(EncodePacket(p)).packet.payload != p.payload)
  {
    hide VarLength, ReadVar;
    var announced := |p.payload| % TWO_32;
    var digits := VarLength(announced, 4);
    assert EncodePacket(p)[1..] == digits + p.payload;
    PowersOf128();
    VarLengthDigit(announced, 4);
    ReadVarLength(announced, 4, p.payload);
  }

  /** `bytes` are the first `k` packets and a proper prefix of the next. */
  predicate CutAt(ps: seq<Packet>, bytes: seq<byte>, k: nat, rest: seq<byte>) {
    && k <= |ps|
    && bytes == Stream(ps[..k]) + rest
    && if k == |ps| then rest == [] else |rest| < |EncodePacket(ps[k])| && rest == EncodePacket(ps[k])[..|rest|]
  }

  /** A prefix of a well-formed stream never drops the connection and yields the packets it holds whole. */
  lemma {:induction false} ParsedPrefix(ps: seq<Packet>, bytes: seq<byte>)
    requires WellFormed(ps) && bytes <= Stream(ps)
    ensures var r := Parsed(bytes);
            !r.aborted && |r.packets| <= |ps| && r.packets == ps[..|r.packets|] && CutAt(ps, bytes, |r.packets|, r.rest)
    decreases |ps|
  {
    hide EncodePacket, Parsed, Aborts;
    if ps == [] {
      NothingParsed();
      assert CutAt(ps, bytes, 0, []);
    } else {
      var packet := EncodePacket(ps[0]);
      if |packet| <= |bytes| {
        var tail := bytes[|packet|..];
        assert bytes == packet + tail && tail <= Stream(ps[1..]);
        ParsedPrefix(ps[1..], tail);
        ParsedPacket(ps[0], tail);
        var k := |Parsed(tail).packets|;
        assert ps[..k + 1][1..] == ps[1..][..k];
        assert Stream(ps[..k + 1]) == packet + Stream(ps[1..][..k]);
      } else {
        assert bytes == Stream(ps)[..|bytes|] == packet[..|bytes|];
        ParsedPartialPacket(ps[0], bytes);
        assert Stream(ps[..0]) == [];
      }
    }
  }

  lemma NothingParsed()
    ensures Parsed([]) == Parse([], [], false)
  {
  }

  /** A whole well-formed stream, however it was read, is its packets. */
  lemma {:induction false} ParsedStream(ps: seq<Packet>)
    requires WellFormed(ps)
    ensures Parsed(Stream(ps)) == Parse(ps, [], false)
    decreases |ps|
  {
    hide EncodePacket, NextTurn, Aborts;
    if ps == [] {
      NothingParsed();
    } else {
      ParsedStream(ps[1..]);
      ParsedPacket(ps[0], Stream(ps[1..]));
    }
  }
}
