/**
 The MQTT signalling client: what it sends, what it makes of the packets it receives,
 and the whole way of a PUBLISH from one client to another. What the JSON payloads
 mean is a parameter.
 */
module MqttClient {
  import opened Bytes
  import opened Wrappers
  import opened MqttCodec
  import opened MqttStream

  const CONNECT: byte := 0x10
  const PUBACK: byte := 0x40
  const SUBSCRIBE: byte := 0x82
  const SUBACK: byte := 0x90
  const PINGRESP: byte := 0xD0

  datatype MqttState = Disconnected | Connecting | Connected | Subscribing | Ready

  datatype Delivery = Delivery(topic: seq<byte>, payload: seq<byte>)

  /** A topic filter to subscribe to, with the quality of service that is asked for. */
  datatype Filter = Filter(topic: seq<byte>, qos: nat)

  /**
   What the configuration and the JSON layer contribute: the client id, the will that the broker
   publishes, the filters to subscribe to, the presence announcement, and whether a payload is a
   valid discovery request of another device.
   */
  datatype Config = Config(
    clientId: seq<byte>, will: Delivery, subscriptions: seq<Filter>, presence: Delivery, isDiscovery: Delivery -> bool)

  /** One connection: `sent` and `delivered` are logs of the packets written and the payloads handed on. */
  datatype Session = Session(
    connected: bool, state: MqttState, pingOutstanding: bool, nextId: uint16,
    sent: seq<Packet>, delivered: seq<Delivery>)

  // ---------------------------------------------------------------------
  // Packet ids
  // ---------------------------------------------------------------------

  function TakenId(next: uint16): uint16 {
    if next == 0 then 1 else next
  }

  function IdAfter(next: uint16): uint16 {
    (TakenId(next) + 1) % TWO_16
  }

  /** The counter after `k` ids were taken from a new client. */
  function CounterAfter(k: nat): uint16 {
    if k == 0 then 1 else IdAfter(CounterAfter(k - 1))
  }

  /** Ids run through 1 to 65535 and start over; 0, which section 2.3.1 of MQTT 3.1.1 forbids, never occurs. */
  lemma {:induction false} PacketIdsCycle(k: nat)
    ensures TakenId(CounterAfter(k)) == k % 65535 + 1
  {
    if k > 0 {
      PacketIdsCycle(k - 1);
      NextInCycle(k - 1);
    }
  }

  lemma NextInCycle(k: nat)
    ensures (k + 1) % 65535 == if k % 65535 == 65534 then 0 else k % 65535 + 1
  {
    assert k == k / 65535 * 65535 + k % 65535;
  }

  // ---------------------------------------------------------------------
  // Sending and dispatching
  // ---------------------------------------------------------------------

  function Sent(s: Session, p: Packet): Session {
    if s.connected then s.(sent := s.sent + [p]) else s
  }

  function Published(s: Session, topic: seq<byte>, payload: seq<byte>, qos: nat, retain: bool): Session {
    if !ValidTopic(topic) || !s.connected then s
    else
      var p := Packet(PublishHeader(qos, retain), PublishBody(topic, payload, qos, TakenId(s.nextId)));
      Sent(s, p).(nextId := if qos > 0 then IdAfter(s.nextId) else s.nextId)
  }

  const CONNECT_FLAGS: byte := 0x2E
  const KEEPALIVE_SECONDS: nat := 60

  /** Section 3.1 of MQTT 3.1.1: protocol, flags for a clean session and a retained will, keepalive, and the payload. */
  function ConnectBody(c: Config): seq<byte> {
    EncodeString([0x4D, 0x51, 0x54, 0x54]) + [4, CONNECT_FLAGS] + BE16(KEEPALIVE_SECONDS)
    + EncodeString(c.clientId) + EncodeString(c.will.topic) + EncodeString(c.will.payload)
  }

  /** The filters of a SUBSCRIBE, each with two bits of its QoS. */
  function Filters(topics: seq<Filter>): seq<byte> {
    if topics == [] then [] else EncodeString(topics[0].topic) + [topics[0].qos % 4] + Filters(topics[1..])
  }

  function Subscribed(s: Session, topics: seq<Filter>): Session {
    if topics == [] || !s.connected then s
    else
      Sent(s, Packet(SUBSCRIBE, BE16(TakenId(s.nextId)) + Filters(topics))).(nextId := IdAfter(s.nextId))
  }

  function Acknowledged(s: Session, ack: Option<uint16>): Session {
    if ack.None? then s else Sent(s, Packet(PUBACK, BE16(ack.value)))
  }

  function Dropped(s: Session): Session {
    s.(connected := false, state := Disconnected, pingOutstanding := false)
  }

  function Announced(s: Session, c: Config): Session {
    Published(s, c.presence.topic, c.presence.payload, 1, true)
  }

  function HandedOn(s: Session, c: Config, d: Delivery): Session {
    var t := s.(delivered := s.delivered + [d]);
    if c.isDiscovery(d) then Announced(t, c) else t
  }

  function PublishReceived(s: Session, c: Config, p: Packet): Session {
    match ReadPublish(p.header, p.payload)
    case MalformedTopic => s
    case MalformedPacketId => s
    case OversizedPayload(ack) => Acknowledged(s, ack)
    case Accepted(topic, payload, ack) => HandedOn(Acknowledged(s, ack), c, Delivery(topic, payload))
  }

  function Dispatched(s: Session, c: Config, p: Packet): Session {
    var kind := p.header / 16 * 16;
    if kind == CONNACK then
      if Aborts(p) then Dropped(s) else Subscribed(s.(state := Subscribing), c.subscriptions)
    else if kind == PUBLISH then PublishReceived(s, c, p)
    else if kind == SUBACK then
      if |p.payload| < 3 then s else Announced(s.(state := Ready), c)
    else if kind == PINGRESP then s.(pingOutstanding := false)
    else s
  }

  function DispatchedAll(s: Session, c: Config, ps: seq<Packet>): Session
    decreases |ps|
  {
    if ps == [] then s else DispatchedAll(Dispatched(s, c, ps[0]), c, ps[1..])
  }

  // ---------------------------------------------------------------------
  // What a received stream leads to
  // ---------------------------------------------------------------------

  function DeliveryOf(p: Packet): seq<Delivery> {
    if p.header / 16 * 16 != PUBLISH then []
    else
      match ReadPublish(p.header, p.payload)
      case Accepted(topic, payload, _) => [Delivery(topic, payload)]
      case MalformedTopic => []
      case MalformedPacketId => []
      case OversizedPayload(_) => []
  }

  function AckOf(p: Packet): seq<Packet> {
    if p.header / 16 * 16 != PUBLISH then []
    else
      var r := ReadPublish(p.header, p.payload);
      if (r.OversizedPayload? || r.Accepted?) && r.ack.Some? then [Packet(PUBACK, BE16(r.ack.value))] else []
  }

  function DeliveriesOf(ps: seq<Packet>): seq<Delivery> {
    if ps == [] then [] else DeliveryOf(ps[0]) + DeliveriesOf(ps[1..])
  }

  function AcksOf(ps: seq<Packet>): seq<Packet> {
    if ps == [] then [] else AckOf(ps[0]) + AcksOf(ps[1..])
  }

  /** The acknowledgements among the packets sent. */
  function Pubacks(sent: seq<Packet>): seq<Packet> {
    if sent == [] then [] else (if sent[0].header == PUBACK then [sent[0]] else []) + Pubacks(sent[1..])
  }

  lemma {:induction false} PubacksAppend(ps: seq<Packet>, p: Packet)
    ensures Pubacks(ps + [p]) == Pubacks(ps) + if p.header == PUBACK then [p] else []
  {
    if ps == [] {
      assert ps + [p] == [p];
    } else {
      assert (ps + [p])[1..] == ps[1..] + [p] && (ps + [p])[0] == ps[0];
      PubacksAppend(ps[1..], p);
      var first, rest, last := if ps[0].header == PUBACK then [ps[0]] else [], Pubacks(ps[1..]), if p.header == PUBACK then [p] else [];
      assert first + (rest + last) == first + rest + last;
    }
  }

  predicate Grows(s: Session, t: Session, acks: seq<Packet>, deliveries: seq<Delivery>) {
    && t.connected
    && Pubacks(t.sent) == Pubacks(s.sent) + acks
    && t.delivered == s.delivered + deliveries
  }

  lemma SentGrows(s: Session, p: Packet)
    requires s.connected
    ensures Grows(s, Sent(s, p), if p.header == PUBACK then [p] else [], [])
  {
    PubacksAppend(s.sent, p);
  }

  lemma PublishedGrows(s: Session, topic: seq<byte>, payload: seq<byte>, qos: nat, retain: bool)
    requires s.connected
    ensures Grows(s, Published(s, topic, payload, qos, retain), [], [])
  {
    hide Pubacks;
    if ValidTopic(topic) {
      SentGrows(s, Packet(PublishHeader(qos, retain), PublishBody(topic, payload, qos, TakenId(s.nextId))));
    }
  }

  /** One packet that does not drop the connection is acknowledged and handed on as it asks for. */
  lemma DispatchedGrows(s: Session, c: Config, p: Packet)
    requires s.connected && !Aborts(p)
    ensures Grows(s, Dispatched(s, c, p), AckOf(p), DeliveryOf(p))
  {
    hide Pubacks, Published, ReadPublish;
    var kind := p.header / 16 * 16;
    if kind == CONNACK {
      if c.subscriptions != [] {
        SentGrows(s, Packet(SUBSCRIBE, BE16(TakenId(s.nextId)) + Filters(c.subscriptions)));
      }
    } else if kind == PUBLISH {
      var r := ReadPublish(p.header, p.payload);
      var t := s;
      if (r.OversizedPayload? || r.Accepted?) && r.ack.Some? {
        SentGrows(s, Packet(PUBACK, BE16(r.ack.value)));
        t := Acknowledged(s, r.ack);
      }
      if r.Accepted? {
        var d := Delivery(r.topic, r.payload);
        PublishedGrows(t.(delivered := t.delivered + [d]), c.presence.topic, c.presence.payload, 1, true);
      }
    } else if kind == SUBACK {
      PublishedGrows(s.(state := Ready), c.presence.topic, c.presence.payload, 1, true);
    }
  }

  /**
   For every stream of packets that keep the connection: the acknowledgements written are exactly
   those that the received PUBLISH packets ask for, in their order, whatever else is sent in
   between, and so are the payloads handed on.
   */
  lemma {:induction false} AcknowledgesExactly(s: Session, c: Config, ps: seq<Packet>)
    requires s.connected && forall p :: p in ps ==> !Aborts(p)
    ensures Grows(s, DispatchedAll(s, c, ps), AcksOf(ps), DeliveriesOf(ps))
    decreases |ps|
  {
    hide Dispatched, Pubacks, AckOf, DeliveryOf, Aborts;
    if ps != [] {
      DispatchedGrows(s, c, ps[0]);
      AcknowledgesExactly(Dispatched(s, c, ps[0]), c, ps[1..]);
    }
  }

  // ---------------------------------------------------------------------
  // From one client to another
  // ---------------------------------------------------------------------

  datatype Request = Request(topic: seq<byte>, payload: seq<byte>, qos: nat, retain: bool)

  /** The two bits of QoS that the header holds agree with the rest on whether there is a packet id. */
  predicate Encodable(q: Request) {
    (q.qos > 0 ==> q.qos % 4 > 0) && 4 + |q.topic| + |q.payload| < TWO_28
  }

  function PublishedAll(s: Session, qs: seq<Request>): Session
    decreases |qs|
  {
    if qs == [] then s
    else PublishedAll(Published(s, qs[0].topic, qs[0].payload, qs[0].qos, qs[0].retain), qs[1..])
  }

  function PacketsOf(qs: seq<Request>, next: uint16): seq<Packet>
    decreases |qs|
  {
    if qs == [] then []
    else if !ValidTopic(qs[0].topic) then PacketsOf(qs[1..], next)
    else
      var q := qs[0];
      [Packet(PublishHeader(q.qos, q.retain), PublishBody(q.topic, q.payload, q.qos, TakenId(next)))] +
      PacketsOf(qs[1..], if q.qos > 0 then IdAfter(next) else next)
  }

  /** What the receiver hands on: every request with a valid topic and a payload within the limit. */
  function Expected(qs: seq<Request>): seq<Delivery> {
    if qs == [] then []
    else
      (if ValidTopic(qs[0].topic) && |qs[0].payload| <= MAX_SIGNALING_PAYLOAD_SIZE
       then [Delivery(qs[0].topic, qs[0].payload)] else []) + Expected(qs[1..])
  }

  /** What it acknowledges: the ids that the sender took, one for each valid request with QoS above 0. */
  function ExpectedAcks(qs: seq<Request>, next: uint16): seq<Packet>
    decreases |qs|
  {
    if qs == [] then []
    else if ValidTopic(qs[0].topic) && qs[0].qos > 0
    then [Packet(PUBACK, BE16(TakenId(next)))] + ExpectedAcks(qs[1..], IdAfter(next))
    else ExpectedAcks(qs[1..], next)
  }

  lemma {:induction false} PublishedAllSends(s: Session, qs: seq<Request>)
    requires s.connected
    ensures var t := PublishedAll(s, qs);
            t.connected && t.sent == s.sent + PacketsOf(qs, s.nextId)
    decreases |qs|
  {
    hide PublishHeader, PublishBody, ValidTopic;
    if qs != [] {
      PublishedAllSends(Published(s, qs[0].topic, qs[0].payload, qs[0].qos, qs[0].retain), qs[1..]);
    }
  }

  lemma OneRequest(q: Request, next: uint16)
    requires Encodable(q) && ValidTopic(q.topic)
    ensures var p := Packet(PublishHeader(q.qos, q.retain), PublishBody(q.topic, q.payload, q.qos, TakenId(next)));
            && Sizable(p) && !Aborts(p)
            && DeliveryOf(p) == Expected([q])
            && AckOf(p) == ExpectedAcks([q], next)
  {
    hide ReadPublish, PublishHeader;
    PublishRoundTrip(q.topic, q.payload, q.qos, q.retain, TakenId(next));
  }

  lemma {:induction false} RequestsAreRead(qs: seq<Request>, next: uint16)
    requires forall q :: q in qs ==> Encodable(q)
    ensures var ps := PacketsOf(qs, next);
            WellFormed(ps) && DeliveriesOf(ps) == Expected(qs) && AcksOf(ps) == ExpectedAcks(qs, next)
    decreases |qs|
  {
    hide ReadPublish, PublishHeader, PublishBody, ValidTopic, Encodable, Sizable, Aborts, DeliveryOf, AckOf;
    if qs != [] {
      var q := qs[0];
      if ValidTopic(q.topic) {
        OneRequest(q, next);
        assert [q][1..] == [] && ExpectedAcks([q], next) == if q.qos > 0 then [Packet(PUBACK, BE16(TakenId(next)))] else [];
        RequestsAreRead(qs[1..], if q.qos > 0 then IdAfter(next) else next);
        var p := Packet(PublishHeader(q.qos, q.retain), PublishBody(q.topic, q.payload, q.qos, TakenId(next)));
        var rest := PacketsOf(qs[1..], if q.qos > 0 then IdAfter(next) else next);
        assert PacketsOf(qs, next) == [p] + rest && ([p] + rest)[1..] == rest;
      } else {
        RequestsAreRead(qs[1..], next);
      }
    }
  }

  /**
   Whatever is published, and however the bytes are cut into reads, the receiving client hands on
   exactly the valid requests within the payload limit, in order, acknowledges the sender's ids in
   order, and keeps the connection.
   */
  lemma PublishesArrive(sender: Session, receiver: Session, c: Config, qs: seq<Request>, chunks: seq<seq<byte>>)
    requires sender.connected && receiver.connected
    requires forall q :: q in qs ==> Encodable(q)
    requires Stream(sender.sent) + Flat(chunks) == Stream(PublishedAll(sender, qs).sent)
    ensures var r := AfterReads(Parse([], [], false), chunks);
            && !r.aborted && r.rest == []
            && Grows(receiver, DispatchedAll(receiver, c, r.packets), ExpectedAcks(qs, sender.nextId), Expected(qs))
  {
    hide Parsed, PacketsOf, PublishedAll, DispatchedAll, Grows, AfterReads, Flat, Stream;
    var ps := PacketsOf(qs, sender.nextId);
    PublishedAllSends(sender, qs);
    RequestsAreRead(qs, sender.nextId);
    NothingParsed();
    StreamAppend(sender.sent, ps);
    assert Flat(chunks) == (Stream(sender.sent) + Flat(chunks))[|Stream(sender.sent)|..] == Stream(ps);
    ReadBoundariesDoNotMatter([], chunks);
    assert [] + Flat(chunks) == Flat(chunks);
    ParsedStream(ps);
    AcknowledgesExactly(receiver, c, ps);
  }
}
