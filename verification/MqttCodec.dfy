/**
 The packet codec of the MQTT 3.1.1 client: the Remaining Length of section 2.2.3,
 length-prefixed strings, and PUBLISH packets of section 3.3. Strings are their UTF-8 bytes.
 */
module MqttCodec {
  import opened Bytes
  import opened Wrappers

  // ---------------------------------------------------------------------
  // Remaining Length
  // ---------------------------------------------------------------------

  const TWO_28: int := 0x1000_0000

  /** At most `room` digits in base 128, least significant first, the high bit marking that more follow. */
  function VarLength(n: nat, room: nat): (s: seq<byte>)
    ensures |s| <= room
    decreases room
  {
    if room == 0 then []
    else if n / 128 > 0 then [n % 128 + 128] + VarLength(n / 128, room - 1)
    else [n % 128]
  }

  method EncodeVariableLength(length: nat) returns (encoded: seq<byte>)
    requires length < TWO_32
    ensures encoded == VarLength(length, 4)
  {
    hide VarLength;
    encoded := [];
    var left: nat := length;
    var more := true;
    while more
      invariant |encoded| <= 4 && (more ==> |encoded| < 4)
      invariant more ==> encoded + VarLength(left, 4 - |encoded|) == VarLength(length, 4)
      invariant !more ==> encoded == VarLength(length, 4)
      decreases more, 4 - |encoded|
    {
      ghost var before := encoded;
      ghost var rest := VarLength(left, 4 - |encoded|);
      VarLengthDigit(left, 4 - |encoded|);
      var digit: int := left % 128;
      left := left / 128;
      if left > 0 {
        digit := digit + 128;
      }
      encoded := encoded + [digit];
      more := left > 0 && |encoded| < 4;
      assert before + rest == encoded + rest[1..];
    }
  }

  lemma VarLengthDigit(n: nat, room: nat)
    requires room > 0
    ensures var s := VarLength(n, room);
            && s != []
            && s[0] == n % 128 + (if n / 128 > 0 then 128 else 0)
            && s[1..] == if n / 128 > 0 && room > 1 then VarLength(n / 128, room - 1) else []
  {
  }

  datatype VarResult = Decoded(length: nat, consumed: nat) | Malformed | Incomplete

  /** Reading digits from the front of `s`, `used` of the four allowed ones being gone. */
  function ReadVar(s: seq<byte>, used: nat): (r: VarResult)
    ensures r.Decoded? ==> 0 < r.consumed <= |s|
  {
    if s == [] then Incomplete
    else if s[0] < 128 then Decoded(s[0], 1)
    else if used + 1 >= 4 then Malformed
    else
      match ReadVar(s[1..], used + 1)
      case Decoded(length, consumed) => Decoded(s[0] % 128 + 128 * length, consumed + 1)
      case other => other
  }

  function Power128(n: nat): nat {
    if n == 0 then 1 else 128 * Power128(n - 1)
  }

  method DecodeVariableLength(buf: seq<byte>, offset: nat) returns (ok: bool, length: nat, bytesConsumed: nat)
    requires offset <= |buf|
    ensures ok <==> ReadVar(buf[offset..], 0).Decoded?
    ensures ok ==> ReadVar(buf[offset..], 0) == Decoded(length, bytesConsumed)
  {
    hide ReadVar, Power128;
    var multiplier: nat, value: nat := 1, 0;
    ok, length, bytesConsumed := false, 0, 0;
    ghost var whole := ReadVar(buf[offset..], 0);
    PowersOf128();
    ghost var rest := buf[offset..];
    while offset + bytesConsumed < |buf|
      invariant offset + bytesConsumed <= |buf| && bytesConsumed < 4 && rest == buf[offset + bytesConsumed..]
      invariant multiplier == Power128(bytesConsumed) <= 128 * 128 * 128
      invariant Continues(whole, ReadVar(rest, bytesConsumed), value, multiplier, bytesConsumed)
      invariant !ok
      decreases |buf| - offset - bytesConsumed
    {
      NextDigit(whole, rest, bytesConsumed, value, multiplier);
      var digit: int := buf[offset + bytesConsumed];
      bytesConsumed := bytesConsumed + 1;
      rest := rest[1..];
      value := value + digit % 128 * multiplier;
      if multiplier > 128 * 128 * 128 {
        return;
      }
      multiplier := multiplier * 128;
      if digit < 128 {
        length := value;
        ok := true;
        return;
      }
      if bytesConsumed >= 4 {
        return;
      }
    }
    NoDigit(bytesConsumed);
  }

  /** What is still to be read completes what was read so far. */
  predicate Continues(whole: VarResult, rest: VarResult, value: nat, multiplier: nat, consumed: nat) {
    match rest
    case Decoded(length, more) => whole == Decoded(value + multiplier * length, consumed + more)
    case other => whole == other
  }

  lemma NextDigit(whole: VarResult, s: seq<byte>, used: nat, value: nat, multiplier: nat)
    requires s != [] && used < 4 && multiplier == Power128(used)
    requires Continues(whole, ReadVar(s, used), value, multiplier, used)
    ensures s[0] < 128 ==> whole == Decoded(value + s[0] % 128 * multiplier, used + 1)
    ensures s[0] >= 128 && used == 3 ==> whole == Malformed
    ensures s[0] >= 128 && used < 3 ==>
              Continues(whole, ReadVar(s[1..], used + 1), value + s[0] % 128 * multiplier, multiplier * 128, used + 1)
    ensures multiplier * 128 == Power128(used + 1)
    ensures used < 3 ==> multiplier * 128 <= 128 * 128 * 128
  {
    PowersOf128();
    if s[0] >= 128 && used < 3 {
      var r := ReadVar(s[1..], used + 1);
      if r.Decoded? {
        assert multiplier * (s[0] % 128 + 128 * r.length) == s[0] % 128 * multiplier + multiplier * 128 * r.length;
      }
    }
  }

  lemma NoDigit(used: nat)
    ensures ReadVar([], used) == Incomplete
  {
  }

  lemma PowersOf128()
    ensures Power128(0) == 1 && Power128(1) == 128 && Power128(2) == 128 * 128 && Power128(3) == 128 * 128 * 128
    ensures Power128(4) == TWO_28
  {
    assert Power128(2) == 128 * Power128(1);
    assert Power128(3) == 128 * Power128(2);
    assert Power128(4) == 128 * Power128(3);
  }

  /** Round trip with any trailing bytes, while the digits suffice; otherwise the result is malformed. */
  lemma {:induction false} ReadVarLength(n: nat, room: nat, tail: seq<byte>)
    requires 0 < room <= 4
    ensures ReadVar(VarLength(n, room) + tail, 4 - room) ==
            if n < Power128(room) then Decoded(n, |VarLength(n, room)|) else Malformed
    decreases room
  {
    var s := VarLength(n, room) + tail;
    if n / 128 > 0 && room > 1 {
      assert s[1..] == VarLength(n / 128, room - 1) + tail;
      ReadVarLength(n / 128, room - 1, tail);
    }
  }

  /** Every strict prefix of an encoding is reported incomplete. */
  lemma {:induction false} ReadVarLengthPrefix(n: nat, room: nat, k: nat)
    requires 0 < room <= 4 && k < |VarLength(n, room)| && n < Power128(room)
    ensures ReadVar(VarLength(n, room)[..k], 4 - room) == Incomplete
    decreases room
  {
    if k > 0 {
      var s := VarLength(n, room);
      assert s[..k][1..] == VarLength(n / 128, room - 1)[..k - 1];
      ReadVarLengthPrefix(n / 128, room - 1, k - 1);
    }
  }

  /** No sequence of digits that is read as n is shorter than its encoding. */
  lemma {:induction false} VarLengthShortest(s: seq<byte>, n: nat, room: nat, consumed: nat)
    requires 0 < room <= 4 && ReadVar(s, 4 - room) == Decoded(n, consumed)
    ensures |VarLength(n, room)| <= consumed && n < Power128(room)
    decreases room
  {
    if s[0] >= 128 {
      var r := ReadVar(s[1..], 4 - room + 1);
      VarLengthShortest(s[1..], r.length, room - 1, r.consumed);
      assert n / 128 == r.length;
    }
  }

  /** Section 2.2.3 of MQTT 3.1.1, for every length that the encoder is given. */
  lemma RemainingLengthCodec(n: nat, tail: seq<byte>)
    ensures ReadVar(VarLength(n, 4) + tail, 0) == Decoded(n, |VarLength(n, 4)|) <==> n < TWO_28
    ensures n >= TWO_28 ==> ReadVar(VarLength(n, 4) + tail, 0) == Malformed
    ensures n < TWO_28 ==>
              && (forall k: nat :: k < |VarLength(n, 4)| ==> ReadVar(VarLength(n, 4)[..k], 0) == Incomplete)
              && (forall s, consumed :: ReadVar(s, 0) == Decoded(n, consumed) ==> |VarLength(n, 4)| <= consumed)
  {
    PowersOf128();
    ReadVarLength(n, 4, tail);
    if n < TWO_28 {
      forall k: nat | k < |VarLength(n, 4)|
        ensures ReadVar(VarLength(n, 4)[..k], 0) == Incomplete
      {
        ReadVarLengthPrefix(n, 4, k);
      }
      forall s, consumed | ReadVar(s, 0) == Decoded(n, consumed)
        ensures |VarLength(n, 4)| <= consumed
      {
        VarLengthShortest(s, n, 4, consumed);
      }
    }
  }

  /** What has been decided does not change when more bytes arrive; four bytes decide. */
  lemma {:induction false} ReadVarAppend(a: seq<byte>, b: seq<byte>, used: nat)
    requires used < 4
    ensures !ReadVar(a, used).Incomplete? ==> ReadVar(a + b, used) == ReadVar(a, used)
    ensures |a| >= 4 - used ==> !ReadVar(a, used).Incomplete?
    decreases 4 - used
  {
    if a != [] && a[0] >= 128 && used + 1 < 4 {
      assert (a + b)[1..] == a[1..] + b;
      ReadVarAppend(a[1..], b, used + 1);
    }
  }

  // ---------------------------------------------------------------------
  // Strings
  // ---------------------------------------------------------------------

  function EncodeString(s: seq<byte>): (r: seq<byte>)
    ensures |r| == 2 + |s|
  {
    BE16(|s| % TWO_16) + s
  }

  datatype StringAt = StringAt(value: seq<byte>, next: nat)

  function DecodeString(buf: seq<byte>, offset: nat): (r: Option<StringAt>)
    ensures r.Some? ==> r.value.next <= |buf|
  {
    if offset + 2 > |buf| then None
    else
      var length := ReadBE16(buf, offset);
      if offset + 2 + length > |buf| then None
      else Some(StringAt(buf[offset + 2..offset + 2 + length], offset + 2 + length))
  }

  /** A string is read back, whatever surrounds it, exactly when its length fits 16 bits. */
  lemma StringRoundTrip(before: seq<byte>, s: seq<byte>, tail: seq<byte>)
    ensures DecodeString(before + EncodeString(s) + tail, |before|) == Some(StringAt(s, |before| + 2 + |s|))
            <==> |s| < TWO_16
  {
    var buf := before + EncodeString(s) + tail;
    assert buf[|before|..|before| + 2] == BE16(|s| % TWO_16);
    ReadBack16(buf, |before|, |s| % TWO_16);
    if |s| < TWO_16 {
      assert buf[|before| + 2..|before| + 2 + |s|] == s;
    }
  }

  // ---------------------------------------------------------------------
  // PUBLISH
  // ---------------------------------------------------------------------

  const PUBLISH: byte := 0x30
  const MAX_SIGNALING_PAYLOAD_SIZE: nat := 65536

  /** Topics: 1 to 256 printable 7-bit characters. */
  predicate ValidTopic(topic: seq<byte>) {
    0 < |topic| <= 256 && forall b :: b in topic ==> 32 <= b <= 126
  }

  datatype Packet = Packet(header: byte, payload: seq<byte>)

  /** Fixed header, Remaining Length, and what they announce; the length is taken as 32 bits. */
  function EncodePacket(p: Packet): (s: seq<byte>)
    ensures |s| >= 1 + |p.payload|
  {
    [p.header] + VarLength(|p.payload| % TWO_32, 4) + p.payload
  }

  function PublishHeader(qos: nat, retain: bool): byte {
    PUBLISH + (if retain then 1 else 0) + qos % 4 * 2
  }

  function PublishBody(topic: seq<byte>, payload: seq<byte>, qos: nat, packetId: uint16): seq<byte> {
    EncodeString(topic) + (if qos > 0 then BE16(packetId) else []) + payload
  }

  datatype Publish =
    | MalformedTopic
    | MalformedPacketId
    | OversizedPayload(ack: Option<uint16>)
    | Accepted(topic: seq<byte>, payload: seq<byte>, ack: Option<uint16>)

  /** How a PUBLISH is taken apart, and which packet id is acknowledged. */
  function ReadPublish(header: byte, data: seq<byte>): Publish {
    var qos := header / 2 % 4;
    match DecodeString(data, 0)
    case None => MalformedTopic
    case Some(StringAt(topic, offset)) =>
      if qos > 0 && offset + 2 > |data| then MalformedPacketId
      else
        var ack := if qos > 0 then Some(ReadBE16(data, offset)) else None;
        var payload := data[if qos > 0 then offset + 2 else offset..];
        if |payload| > MAX_SIGNALING_PAYLOAD_SIZE then OversizedPayload(ack)
        else Accepted(topic, payload, ack)
  }

  /**
   Section 3.3 of MQTT 3.1.1: what is published is read back, exactly up to the payload limit.
   The header holds two bits of the QoS while the packet id depends on all of them, so the result
   is right exactly when the two agree that there is a packet id.
   */
  lemma PublishRoundTrip(topic: seq<byte>, payload: seq<byte>, qos: nat, retain: bool, packetId: uint16)
    requires ValidTopic(topic)
    ensures var ack := if qos > 0 then Some(packetId) else None;
            ReadPublish(PublishHeader(qos, retain), PublishBody(topic, payload, qos, packetId)) ==
            (if |payload| <= MAX_SIGNALING_PAYLOAD_SIZE then Accepted(topic, payload, ack) else OversizedPayload(ack))
            <==> (qos > 0 ==> qos % 4 > 0)
    ensures PublishHeader(qos, retain) / 16 * 16 == PUBLISH
    ensures PublishHeader(qos, retain) / 2 % 4 == qos % 4 && (PublishHeader(qos, retain) % 2 == 1 <==> retain)
  {
    var data := PublishBody(topic, payload, qos, packetId);
    var id := if qos > 0 then BE16(packetId) else [];
    assert data == [] + EncodeString(topic) + (id + payload);
    StringRoundTrip([], topic, id + payload);
    var offset := 2 + |topic|;
    assert data[offset + |id|..] == payload;
    assert PublishHeader(qos, retain) / 2 % 4 == qos % 4;
    if qos > 0 {
      assert data[offset..offset + 2] == BE16(packetId);
      ReadBack16(data, offset, packetId);
    }
  }
}
