/**
 The handshake with the broker: CONNECT, SUBSCRIBE and the presence announcement, as readers of their own
 take them apart, and the states of the client over a stream of packets.
 */
module MqttHandshake {
  import opened Bytes
  import opened Wrappers
  import opened MqttCodec
  import opened MqttStream
  import opened MqttClient

  // ---------------------------------------------------------------------
  // CONNECT
  // ---------------------------------------------------------------------

  datatype SeenConnect = SeenConnect(
    protocol: seq<byte>, level: nat, cleanSession: bool, willFlag: bool, willQos: nat, willRetain: bool,
    password: bool, userName: bool, keepAlive: nat, clientId: seq<byte>, willTopic: seq<byte>, willMessage: seq<byte>)

  /** Sections 3.1.2 and 3.1.3 of MQTT 3.1.1, for a client with a will and without credentials. */
  function ReadConnect(s: seq<byte>): Option<SeenConnect> {
    match DecodeString(s, 0)
    case None => None
    case Some(StringAt(protocol, at)) =>
      if at + 4 > |s| then None
      else
        match DecodeString(s, at + 4)
        case None => None
        case Some(StringAt(clientId, next)) =>
          match DecodeString(s, next)
          case None => None
          case Some(StringAt(topic, last)) =>
            match DecodeString(s, last)
            case None => None
            case Some(StringAt(message, end)) =>
              var flags := s[at + 1];
              if end != |s| || flags % 2 != 0 then None
              else
                Some(SeenConnect(
                  protocol, s[at], flags / 2 % 2 == 1, flags / 4 % 2 == 1, flags / 8 % 4, flags / 32 % 2 == 1,
                  flags / 64 % 2 == 1, flags / 128 == 1, ReadBE16(s, at + 2), clientId, topic, message))
  }

  /** A CONNECT asks for a clean session, a retained will of QoS 1 and a keepalive of a minute. */
  lemma ConnectIsRead(c: Config)
    requires |c.clientId| < TWO_16 && |c.will.topic| < TWO_16 && |c.will.payload| < TWO_16
    ensures ReadConnect(ConnectBody(c)) ==
            Some(SeenConnect(['M' as int, 'Q' as int, 'T' as int, 'T' as int], 4, true, true, 1, true, false, false, 60,
                             c.clientId, c.will.topic, c.will.payload))
  {
    hide EncodeString, DecodeString, BE16, ReadBE16;
    var name: seq<byte> := [0x4D, 0x51, 0x54, 0x54];
    var fixed := [4, CONNECT_FLAGS] + BE16(60);
    var id, topic, message := EncodeString(c.clientId), EncodeString(c.will.topic), EncodeString(c.will.payload);
    var s := ConnectBody(c);
    assert s == [] + EncodeString(name) + (fixed + id + topic + message);
    StringRoundTrip([], name, fixed + id + topic + message);
    assert s == (EncodeString(name) + fixed) + id + (topic + message);
    StringRoundTrip(EncodeString(name) + fixed, c.clientId, topic + message);
    assert s == (EncodeString(name) + fixed + id) + topic + message;
    StringRoundTrip(EncodeString(name) + fixed + id, c.will.topic, message);
    assert s == (EncodeString(name) + fixed + id + topic) + message + [];
    StringRoundTrip(EncodeString(name) + fixed + id + topic, c.will.payload, []);
    assert s[6] == 4 && s[7] == CONNECT_FLAGS && s[8..10] == BE16(60);
    ReadBack16(s, 8, 60);
  }

  // ---------------------------------------------------------------------
  // SUBSCRIBE
  // ---------------------------------------------------------------------

  datatype SeenSubscribe = SeenSubscribe(packetId: nat, filters: seq<Filter>)

  /** Section 3.8.3 of MQTT 3.1.1: topic filters, each followed by its QoS, to the end of the packet. */
  function ReadFilters(s: seq<byte>): Option<seq<Filter>>
    decreases |s|
  {
    if s == [] then Some([])
    else
      match DecodeString(s, 0)
      case None => None
      case Some(StringAt(topic, at)) =>
        if at >= |s| || s[at] > 2 then None
        else
          match ReadFilters(s[at + 1..])
          case None => None
          case Some(rest) => Some([Filter(topic, s[at])] + rest)
  }

  function ReadSubscribe(s: seq<byte>): Option<SeenSubscribe> {
    if |s| < 2 then None
    else
      match ReadFilters(s[2..])
      case None => None
      case Some(filters) => Some(SeenSubscribe(ReadBE16(s, 0), filters))
  }

  predicate Askable(f: Filter) {
    |f.topic| < TWO_16 && f.qos <= 2
  }

  lemma {:induction false} FiltersAreRead(fs: seq<Filter>)
    requires forall f :: f in fs ==> Askable(f)
    ensures ReadFilters(Filters(fs)) == Some(fs)
  {
    hide EncodeString, DecodeString;
    if fs != [] {
      var f, rest := fs[0], Filters(fs[1..]);
      assert Askable(f);
      var s := EncodeString(f.topic) + [f.qos % 4] + rest;
      FiltersAreRead(fs[1..]);
      assert s == [] + EncodeString(f.topic) + ([f.qos % 4] + rest);
      StringRoundTrip([], f.topic, [f.qos % 4] + rest);
      assert s[3 + |f.topic|..] == rest && s[2 + |f.topic|] == f.qos;
      assert fs == [f] + fs[1..];
    }
  }

  lemma SubscribeIsRead(id: uint16, fs: seq<Filter>)
    requires forall f :: f in fs ==> Askable(f)
    ensures ReadSubscribe(BE16(id) + Filters(fs)) == Some(SeenSubscribe(id, fs))
  {
    hide BE16, ReadBE16, Filters, ReadFilters;
    var s := BE16(id) + Filters(fs);
    FiltersAreRead(fs);
    assert s[2..] == Filters(fs) && s[0..2] == BE16(id);
    ReadBack16(s, 0, id);
  }

  // ---------------------------------------------------------------------
  // The handshake
  // ---------------------------------------------------------------------

  function KindOf(p: Packet): int {
    p.header / 16
  }

  predicate Configured(c: Config) {
    && c.subscriptions != [] && (forall f :: f in c.subscriptions ==> Askable(f))
    && ValidTopic(c.presence.topic) && |c.presence.payload| <= MAX_SIGNALING_PAYLOAD_SIZE
  }

  /** A retained announcement of the own presence, with QoS 1 and that id. */
  predicate Announces(p: Packet, c: Config, id: uint16) {
    && p.header == 0x33
    && ReadPublish(p.header, p.payload) == Accepted(c.presence.topic, c.presence.payload, Some(id))
  }

  /** A request for all subscriptions, with that id. */
  predicate Subscribes(p: Packet, c: Config, id: uint16) {
    p.header == 0x82 && ReadSubscribe(p.payload) == Some(SeenSubscribe(id, c.subscriptions))
  }

  lemma PresenceIsAnnounced(s: Session, c: Config)
    requires s.connected && Configured(c)
    ensures var t := MqttClient.Announced(s, c);
            && t.sent[..|t.sent| - 1] == s.sent && |t.sent| == |s.sent| + 1
            && Announces(t.sent[|s.sent|], c, TakenId(s.nextId))
            && t == s.(sent := t.sent, nextId := IdAfter(s.nextId))
  {
    hide ReadPublish, PublishBody;
    PublishRoundTrip(c.presence.topic, c.presence.payload, 1, true, TakenId(s.nextId));
  }

  lemma FiltersAreRequested(s: Session, c: Config)
    requires s.connected && Configured(c)
    ensures var t := Subscribed(s, c.subscriptions);
            && t.sent[..|t.sent| - 1] == s.sent && |t.sent| == |s.sent| + 1
            && Subscribes(t.sent[|s.sent|], c, TakenId(s.nextId))
            && t == s.(sent := t.sent, nextId := IdAfter(s.nextId))
  {
    hide ReadSubscribe;
    SubscribeIsRead(TakenId(s.nextId), c.subscriptions);
  }

  predicate Accepts(p: Packet) {
    KindOf(p) == 2 && !Aborts(p)
  }

  predicate Grants(p: Packet) {
    KindOf(p) == 9 && |p.payload| >= 3
  }

  /**
   The broker accepts and then grants the subscriptions: the client sends exactly one SUBSCRIBE for all of
   them and then exactly one retained announcement of its presence, with the next two ids, and is ready.
   */
  lemma HandshakeCompletes(s: Session, c: Config, connack: Packet, suback: Packet)
    requires s.connected && Configured(c) && Accepts(connack) && Grants(suback)
    ensures var t := Dispatched(s, c, connack);
            var u := Dispatched(t, c, suback);
            && t.state == Subscribing && u.state == Ready && u.connected
            && u.delivered == s.delivered && |u.sent| == |s.sent| + 2 && u.sent[..|s.sent|] == s.sent
            && Subscribes(u.sent[|s.sent|], c, TakenId(s.nextId))
            && Announces(u.sent[|s.sent| + 1], c, TakenId(IdAfter(s.nextId)))
            && TakenId(IdAfter(s.nextId)) == TakenId(s.nextId) % 65535 + 1
  {
    hide Configured, Announces, Subscribes, Subscribed, MqttClient.Announced, Aborts, PublishReceived;
    FiltersAreRequested(s.(state := Subscribing), c);
    PresenceIsAnnounced(Dispatched(s, c, connack).(state := Ready), c);
  }

  /** A refusal drops the connection, and nothing is sent for it; nor is anything sent without a connection. */
  lemma RefusalDrops(s: Session, c: Config, p: Packet)
    ensures !s.connected ==> Dispatched(s, c, p).sent == s.sent
    ensures var t := Dispatched(s, c, p);
            Aborts(p) ==>
            && !t.connected && t.state == Disconnected && !t.pingOutstanding
            && t.sent == s.sent && t.delivered == s.delivered
  {
  }

  // ---------------------------------------------------------------------
  // Streams
  // ---------------------------------------------------------------------

  /** What the last packet that speaks of the session says, if there is one. */
  function LastState(ps: seq<Packet>, before: MqttState): MqttState {
    if ps == [] then before
    else
      var p := ps[|ps| - 1];
      if Accepts(p) then Subscribing else if Grants(p) then Ready else LastState(ps[..|ps| - 1], before)
  }

  predicate Discovers(p: Packet, c: Config) {
    exists d :: d in DeliveryOf(p) && c.isDiscovery(d)
  }

  /** The packets that ask the client for one of its own. */
  predicate Asks(p: Packet, c: Config) {
    Accepts(p) || Grants(p) || Discovers(p, c)
  }

  function Asking(ps: seq<Packet>, c: Config): seq<Packet> {
    if ps == [] then [] else (if Asks(ps[0], c) then [ps[0]] else []) + Asking(ps[1..], c)
  }

  /** What the client sends that is no acknowledgement. */
  function Own(sent: seq<Packet>): seq<Packet> {
    if sent == [] then []
    else
      var before, p := Own(sent[..|sent| - 1]), sent[|sent| - 1];
      if p.header == 0x40 then before else before + [p]
  }

  /** Each asking packet is answered by one own packet, with the next id. */
  predicate Answers(own: seq<Packet>, asking: seq<Packet>, c: Config, id: uint16)
    decreases |own|
  {
    if own == [] then asking == []
    else
      && asking != []
      && (if Accepts(asking[0]) then Subscribes(own[0], c, TakenId(id)) else Announces(own[0], c, TakenId(id)))
      && Answers(own[1..], asking[1..], c, IdAfter(id))
  }

  predicate PongIn(ps: seq<Packet>) {
    exists p :: p in ps && KindOf(p) == 13
  }

  lemma OwnSnoc(sent: seq<Packet>, p: Packet)
    ensures Own(sent + [p]) == Own(sent) + if p.header == 0x40 then [] else [p]
  {
    assert (sent + [p])[..|sent|] == sent;
  }

  /** From `s` to `t` one own packet was sent, or none. */
  predicate OneAnswer(s: Session, t: Session, c: Config, p: Packet) {
    && t.connected
    && if Asks(p, c) then
         && |Own(t.sent)| == |Own(s.sent)| + 1 && Own(t.sent)[..|Own(s.sent)|] == Own(s.sent)
         && Answers(Own(t.sent)[|Own(s.sent)|..], [p], c, s.nextId) && t.nextId == IdAfter(s.nextId)
       else Own(t.sent) == Own(s.sent) && t.nextId == s.nextId
  }

  lemma OneOwn(s: Session, t: Session, c: Config, p: Packet)
    requires t.connected && Asks(p, c) && |t.sent| == |s.sent| + 1 && t.sent[..|s.sent|] == s.sent && t.nextId == IdAfter(s.nextId)
    requires if Accepts(p) then Subscribes(t.sent[|s.sent|], c, TakenId(s.nextId))
             else Announces(t.sent[|s.sent|], c, TakenId(s.nextId))
    ensures OneAnswer(s, t, c, p)
  {
    hide Asks, Accepts, ReadPublish, ReadSubscribe;
    var q := t.sent[|s.sent|];
    assert t.sent == s.sent + [q];
    OwnSnoc(s.sent, q);
    assert Own(t.sent)[|Own(s.sent)|..] == [q] && [q][1..] == [] && [p][1..] == [];
    assert Answers([q][1..], [p][1..], c, IdAfter(s.nextId));
  }

  /** What one packet that keeps the connection does to what is sent. */
  lemma PacketAnswered(s: Session, c: Config, p: Packet)
    requires s.connected && Configured(c) && !Aborts(p)
    ensures OneAnswer(s, Dispatched(s, c, p), c, p)
  {
    hide Configured, Announces, Subscribes, Subscribed, MqttClient.Announced, Aborts, OneAnswer, Own, PublishReceived, Discovers;
    if KindOf(p) == 3 {
      PublishAnswered(s, c, p);
    } else {
      OnlyPublishDiscovers(p, c);
      if Accepts(p) {
        FiltersAreRequested(s.(state := Subscribing), c);
        OneOwn(s, Dispatched(s, c, p), c, p);
      } else if Grants(p) {
        PresenceIsAnnounced(s.(state := Ready), c);
        OneOwn(s, Dispatched(s, c, p), c, p);
      } else {
        NoneOwn(s, Dispatched(s, c, p), c, p);
      }
    }
  }

  lemma OnlyPublishDiscovers(p: Packet, c: Config)
    requires KindOf(p) != 3
    ensures !Discovers(p, c)
  {
  }

  lemma NoneOwn(s: Session, t: Session, c: Config, p: Packet)
    requires t.connected && t.nextId == s.nextId && !Asks(p, c)
    requires t.sent == s.sent || (|t.sent| > 0 && t.sent[..|t.sent| - 1] == s.sent && t.sent[|t.sent| - 1].header == 0x40)
    ensures OneAnswer(s, t, c, p)
  {
    if t.sent != s.sent {
      assert t.sent == s.sent + [t.sent[|t.sent| - 1]];
      OwnSnoc(s.sent, t.sent[|t.sent| - 1]);
    }
  }

  lemma PublishAnswered(s: Session, c: Config, p: Packet)
    requires s.connected && Configured(c) && KindOf(p) == 3
    ensures OneAnswer(s, PublishReceived(s, c, p), c, p)
  {
    hide Configured, Announces, Subscribes, MqttClient.Announced, ReadPublish, OneAnswer, Own, Answers;
    var r := ReadPublish(p.header, p.payload);
    var ack := if r.OversizedPayload? || r.Accepted? then r.ack else None;
    var t := MqttClient.Acknowledged(s, ack);
    if ack.Some? {
      OwnSnoc(s.sent, Packet(PUBACK, BE16(ack.value)));
    }
    assert Own(t.sent) == Own(s.sent) && t.nextId == s.nextId;
    if r.Accepted? && c.isDiscovery(Delivery(r.topic, r.payload)) {
      var d := Delivery(r.topic, r.payload);
      assert d in DeliveryOf(p);
      var u := t.(delivered := t.delivered + [d]);
      PresenceIsAnnounced(u, c);
      OneOwn(u, PublishReceived(s, c, p), c, p);
      SameAnswer(u, s, PublishReceived(s, c, p), c, p);
    } else {
      assert !Discovers(p, c);
      NoneOwn(t, PublishReceived(s, c, p), c, p);
      SameAnswer(t, s, PublishReceived(s, c, p), c, p);
    }
  }

  lemma SameAnswer(s: Session, s': Session, t: Session, c: Config, p: Packet)
    requires OneAnswer(s, t, c, p) && Own(s.sent) == Own(s'.sent) && s.nextId == s'.nextId
    ensures OneAnswer(s', t, c, p)
  {
    hide Own, Answers, Asks;
  }

  /**
   Over every stream that keeps the connection: each acceptance is answered by exactly one SUBSCRIBE, each
   grant and each discovery request by exactly one announcement, in their order and with consecutive ids, and
   nothing else is sent but acknowledgements.
   */
  lemma {:induction false} StreamIsAnswered(s: Session, c: Config, ps: seq<Packet>)
    requires s.connected && Configured(c) && forall p :: p in ps ==> !Aborts(p)
    ensures var t := DispatchedAll(s, c, ps);
            && |Own(t.sent)| >= |Own(s.sent)| && Own(t.sent)[..|Own(s.sent)|] == Own(s.sent)
            && Answers(Own(t.sent)[|Own(s.sent)|..], Asking(ps, c), c, s.nextId)
    decreases |ps|
  {
    hide Configured, Dispatched, Own, Aborts, Asks, Announces, Subscribes;
    if ps != [] {
      var t := Dispatched(s, c, ps[0]);
      PacketAnswered(s, c, ps[0]);
      StreamIsAnswered(t, c, ps[1..]);
      var all := Own(DispatchedAll(s, c, ps).sent);
      var k, l := |Own(s.sent)|, |Own(t.sent)|;
      assert all[k..] == all[..l][k..] + all[l..];
      if Asks(ps[0], c) {
        assert all[k..][1..] == all[l..] && all[k..][0] == all[..l][k..][0];
        assert Asking(ps, c)[1..] == Asking(ps[1..], c) && [ps[0]][0] == ps[0];
      } else {
        assert Asking(ps, c) == Asking(ps[1..], c);
      }
    }
  }

  lemma {:induction false} LastStateCons(ps: seq<Packet>, before: MqttState)
    requires ps != []
    ensures LastState(ps, before) == LastState(ps[1..], LastState([ps[0]], before))
  {
    hide Accepts, Grants;
    var n := |ps| - 1;
    if n > 0 {
      assert ps[1..][n - 1] == ps[n] && ps[1..][..n - 1] == ps[..n][1..];
      LastStateCons(ps[..n], before);
    } else {
      assert ps == [ps[0]];
    }
  }

  /** The client is ready exactly if the last packet on the matter granted its subscriptions; other packets change nothing. */
  lemma {:induction false} StateIsLast(s: Session, c: Config, ps: seq<Packet>)
    requires s.connected && forall p :: p in ps ==> !Aborts(p)
    ensures var t := DispatchedAll(s, c, ps);
            && t.connected && t.state == LastState(ps, s.state)
            && t.pingOutstanding == (s.pingOutstanding && !PongIn(ps))
    decreases |ps|
  {
    hide Dispatched, Aborts, Accepts, Grants;
    if ps != [] {
      StateOfOne(s, c, ps[0]);
      LastStateCons(ps, s.state);
      StateIsLast(Dispatched(s, c, ps[0]), c, ps[1..]);
      assert PongIn(ps) <==> PongIn([ps[0]]) || PongIn(ps[1..]);
    }
  }

  lemma StateOfOne(s: Session, c: Config, p: Packet)
    requires s.connected && !Aborts(p)
    ensures var t := Dispatched(s, c, p);
            && t.connected && t.state == LastState([p], s.state)
            && t.pingOutstanding == (s.pingOutstanding && !PongIn([p]))
  {
    hide ReadPublish, PublishBody, ValidTopic, Filters;
    assert [p][..0] == [];
    assert PongIn([p]) <==> KindOf(p) == 13;
  }
}
