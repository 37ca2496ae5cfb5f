/** The MQTT client as an object: its receive buffer, its packet id counter and its socket. */
module MqttSignaling {
  import opened Bytes
  import opened MqttCodec
  import opened MqttStream
  import opened MqttClient

  /** What a session becomes once the frame loop has run over a buffer. */
  function Processed(s: Session, c: Config, buffer: seq<byte>): Session {
    var r := Parsed(buffer);
    var t := DispatchedAll(s, c, r.packets);
    if r.aborted then Dropped(t) else t
  }

  /** One turn of the loop. */
  lemma ProcessedStep(s: Session, c: Config, buffer: seq<byte>)
    ensures NextTurn(buffer).Wait? ==> Processed(s, c, buffer) == s && Parsed(buffer) == Parse([], buffer, false)
    ensures NextTurn(buffer).Corrupt? ==> Processed(s, c, buffer) == Dropped(s) && Parsed(buffer).rest == []
    ensures NextTurn(buffer).Take? ==>
              TakenStep(s, c, buffer, NextTurn(buffer).packet, buffer[NextTurn(buffer).size..])
  {
    hide NextTurn;
    if NextTurn(buffer).Take? {
      var p, rest := NextTurn(buffer).packet, Parsed(buffer[NextTurn(buffer).size..]);
      assert ([p] + rest.packets)[1..] == rest.packets;
      if Aborts(p) {
        assert DispatchedAll(s, c, [p]) == DispatchedAll(Dispatched(s, c, p), c, [p][1..]);
      }
    }
  }

  predicate TakenStep(s: Session, c: Config, buffer: seq<byte>, p: Packet, rest: seq<byte>) {
    if Aborts(p) then Processed(s, c, buffer) == Dispatched(s, c, p) && Parsed(buffer).rest == []
    else
      && Processed(s, c, buffer) == Processed(Dispatched(s, c, p), c, rest)
      && Parsed(buffer) == Then(Parse([p], [], false), Parsed(rest))
  }

  class MqttSignalingClient {
    const config: Config
    var connected: bool
    var state: MqttState
    var pingOutstanding: bool
    var nextPacketId: uint16
    var receiveBuffer: seq<byte>
    /** The bytes written to, and the payloads handed on from, the current connection. */
    var wire: seq<byte>
    var delivered: seq<Delivery>
    ghost var sent: seq<Packet>
    /** All bytes read from the current connection, and the packets taken from them so far. */
    ghost var bytesRead: seq<byte>
    ghost var packets: seq<Packet>

    /** The wire holds whole packets. */
    ghost predicate WireValid()
      reads this
    {
      wire == Stream(sent)
    }

    /** And what was read is what was dispatched and what is still to be looked at. */
    ghost predicate Valid()
      reads this
    {
      && WireValid()
      && (connected ==> Parsed(bytesRead) == Then(Parse(packets, [], false), Parsed(receiveBuffer)))
    }

    ghost function AsSession(): Session
      reads this
    {
      Session(connected, state, pingOutstanding, nextPacketId, sent, delivered)
    }

    constructor (config: Config)
      ensures Valid() && this.config == config && !connected && receiveBuffer == []
      ensures nextPacketId == CounterAfter(0)
    {
      this.config := config;
      connected, state, pingOutstanding, nextPacketId := false, Disconnected, false, 1;
      receiveBuffer, wire, delivered, sent, bytesRead, packets := [], [], [], [], [], [];
    }

    /** A connection starts with nothing buffered, whatever the last one left. */
    method ConnectToBroker()
      requires Valid()
      modifies this
      ensures Valid() && !connected && state == Connecting && receiveBuffer == []
      ensures nextPacketId == old(nextPacketId)
    {
      if connected {
        OnSocketDisconnected();
      }
      receiveBuffer := [];
      state := Connecting;
    }

    /** The connection is up, and the first packet on it is the CONNECT. */
    method OnSocketEncrypted()
      modifies this
      ensures Valid() && connected && state == Connected
      ensures receiveBuffer == old(receiveBuffer) && bytesRead == receiveBuffer && packets == []
      ensures sent == [Packet(CONNECT, ConnectBody(config))] && delivered == []
      ensures nextPacketId == old(nextPacketId)
    {
      connected, state := true, Connected;
      wire, delivered := [], [];
      sent, bytesRead, packets := [], receiveBuffer, [];
      assert Then(Parse([], [], false), Parsed(receiveBuffer)) == Parsed(receiveBuffer);
      SendConnect();
    }

    method SendConnect()
      requires Valid()
      modifies this`wire, this`sent
      ensures Valid() && AsSession() == Sent(old(AsSession()), Packet(CONNECT, ConnectBody(config)))
    {
      hide EncodeString, BE16;
      var variableHeader := EncodeString([0x4D, 0x51, 0x54, 0x54]);
      variableHeader := variableHeader + [4];
      variableHeader := variableHeader + [CONNECT_FLAGS];
      variableHeader := variableHeader + BE16(KEEPALIVE_SECONDS);
      var payload := EncodeString(config.clientId);
      payload := payload + EncodeString(config.will.topic);
      payload := payload + EncodeString(config.will.payload);
      assert variableHeader + payload == ConnectBody(config);
      Write(CONNECT, variableHeader, payload);
    }

    /** The slot that runs, too, within the socket's abort. */
    method OnSocketDisconnected()
      requires WireValid()
      modifies this`connected, this`state, this`pingOutstanding, this`receiveBuffer
      ensures Valid() && AsSession() == Dropped(old(AsSession())) && receiveBuffer == []
    {
      connected, pingOutstanding, receiveBuffer, state := false, false, [], Disconnected;
    }

    method NextPacketId() returns (id: uint16)
      modifies this`nextPacketId
      ensures id == TakenId(old(nextPacketId)) && nextPacketId == IdAfter(old(nextPacketId))
    {
      if nextPacketId == 0 {
        nextPacketId := 1;
      }
      id := nextPacketId;
      nextPacketId := (nextPacketId + 1) % TWO_16;
    }

    /** Header, length, and the two parts of a packet, appended to the wire. */
    method Write(header: byte, variableHeader: seq<byte>, payload: seq<byte>)
      requires Valid()
      modifies this`wire, this`sent
      ensures Valid()
      ensures AsSession() == Sent(old(AsSession()), Packet(header, variableHeader + payload))
    {
      hide VarLength;
      if !connected {
        return;
      }
      var packet := [header];
      var length := EncodeVariableLength((|variableHeader| + |payload|) % TWO_32);
      packet := packet + length;
      packet := packet + variableHeader;
      packet := packet + payload;
      wire := wire + packet;
      ghost var p := Packet(header, variableHeader + payload);
      assert packet == EncodePacket(p);
      StreamAppend(sent, [p]);
      StreamOfOne(p);
      sent := sent + [p];
    }

    method SendPublish(topic: seq<byte>, payload: seq<byte>, qos: nat, retain: bool)
      requires Valid()
      modifies this`wire, this`sent, this`nextPacketId
      ensures Valid() && AsSession() == Published(old(AsSession()), topic, payload, qos, retain)
    {
      hide ValidTopic, EncodeString, BE16;
      if !ValidTopic(topic) || !connected {
        return;
      }
      var header: int := PUBLISH;
      if retain {
        header := header + 1;
      }
      header := header + qos % 4 * 2;
      var variableHeader := EncodeString(topic);
      if qos > 0 {
        var packetId := NextPacketId();
        variableHeader := variableHeader + BE16(packetId);
      }
      assert variableHeader + payload == PublishBody(topic, payload, qos, TakenId(old(nextPacketId)));
      assert header == PublishHeader(qos, retain);
      Write(header, variableHeader, payload);
    }

    method SendSubscribe(topics: seq<Filter>)
      requires Valid()
      modifies this`wire, this`sent, this`nextPacketId
      ensures Valid() && AsSession() == Subscribed(old(AsSession()), topics)
    {
      hide EncodeString, BE16;
      if topics == [] || !connected {
        return;
      }
      var packetId := NextPacketId();
      var payload := [];
      for i := 0 to |topics|
        invariant payload + Filters(topics[i..]) == Filters(topics)
      {
        assert topics[i..][1..] == topics[i + 1..];
        var filter := EncodeString(topics[i].topic) + [topics[i].qos % 4];
        assert payload + (filter + Filters(topics[i + 1..])) == payload + filter + Filters(topics[i + 1..]);
        payload := payload + filter;
      }
      assert payload == Filters(topics);
      Write(SUBSCRIBE, BE16(packetId), payload);
    }

    method SendPuback(packetId: uint16)
      requires Valid()
      modifies this`wire, this`sent
      ensures Valid() && AsSession() == Sent(old(AsSession()), Packet(PUBACK, BE16(packetId)))
    {
      hide BE16;
      Write(PUBACK, BE16(packetId), []);
      assert BE16(packetId) + [] == BE16(packetId);
    }

    method PublishOnlinePresence()
      requires Valid()
      modifies this`wire, this`sent, this`nextPacketId
      ensures Valid() && AsSession() == Announced(old(AsSession()), config)
    {
      SendPublish(config.presence.topic, config.presence.payload, 1, true);
    }

    method HandleConnack(p: Packet)
      requires WireValid() && (Aborts(p) || Valid()) && p.header / 16 * 16 == CONNACK
      modifies this
      ensures Valid() && AsSession() == Dispatched(old(AsSession()), config, p)
      ensures receiveBuffer == if Aborts(p) then [] else old(receiveBuffer)
      ensures bytesRead == old(bytesRead) && packets == old(packets)
    {
      hide Published, Sent;
      if |p.payload| < 2 {
        OnSocketDisconnected();
        return;
      }
      if p.payload[1] != 0 {
        OnSocketDisconnected();
        return;
      }
      state := Subscribing;
      SendSubscribe(config.subscriptions);
    }

    method HandlePublish(p: Packet)
      requires Valid()
      modifies this`wire, this`sent, this`nextPacketId, this`delivered
      ensures Valid() && AsSession() == PublishReceived(old(AsSession()), config, p)
    {
      hide Published;
      var qos := p.header / 2 % 4;
      var topic := DecodeString(p.payload, 0);
      if topic.None? {
        return;
      }
      var offset := topic.value.next;
      if qos > 0 {
        if offset + 2 > |p.payload| {
          return;
        }
        SendPuback(ReadBE16(p.payload, offset));
        offset := offset + 2;
      }
      var payload := p.payload[offset..];
      if |payload| > MAX_SIGNALING_PAYLOAD_SIZE {
        return;
      }
      var d := Delivery(topic.value.value, payload);
      delivered := delivered + [d];
      if config.isDiscovery(d) {
        PublishOnlinePresence();
      }
    }

    /** The switch on the packet type. */
    method Dispatch(p: Packet)
      requires WireValid() && (Aborts(p) || Valid())
      modifies this
      ensures Valid() && AsSession() == Dispatched(old(AsSession()), config, p)
      ensures receiveBuffer == if Aborts(p) then [] else old(receiveBuffer)
      ensures bytesRead == old(bytesRead) && packets == old(packets)
      ensures connected == (old(connected) && !Aborts(p))
    {
      hide Published, ReadPublish;
      var kind := p.header / 16 * 16;
      if kind == CONNACK {
        HandleConnack(p);
      } else if kind == PUBLISH {
        HandlePublish(p);
      } else if kind == SUBACK {
        if |p.payload| >= 3 {
          state := Ready;
          PublishOnlinePresence();
        }
      } else if kind == PINGRESP {
        pingOutstanding := false;
      }
    }

    method ProcessIncomingData()
      requires Valid() && connected
      modifies this
      ensures Valid()
      ensures AsSession() == Processed(old(AsSession()), config, old(receiveBuffer))
      ensures receiveBuffer == Parsed(old(receiveBuffer)).rest
      ensures bytesRead == old(bytesRead)
      ensures connected ==> NextTurn(receiveBuffer).Wait?
    {
      hide Processed, Dispatched, Parsed, Aborts;
      while receiveBuffer != []
        invariant Valid() && bytesRead == old(bytesRead) && (receiveBuffer != [] ==> connected)
        invariant Processed(AsSession(), config, receiveBuffer) == Processed(old(AsSession()), config, old(receiveBuffer))
        invariant Parsed(receiveBuffer).rest == Parsed(old(receiveBuffer)).rest
        decreases |receiveBuffer|
      {
        ProcessedStep(AsSession(), config, receiveBuffer);
        if |receiveBuffer| < 2 {
          return;
        }
        var header := receiveBuffer[0];
        var ok, remainingLength, bytesConsumed := DecodeVariableLength(receiveBuffer, 1);
        if !ok {
          if |receiveBuffer| > 5 {
            OnSocketDisconnected();
          }
          return;
        }
        var totalFrameSize := 1 + bytesConsumed + remainingLength;
        if |receiveBuffer| < totalFrameSize {
          return;
        }
        var p := Packet(header, receiveBuffer[1 + bytesConsumed..totalFrameSize]);
        assert NextTurn(receiveBuffer) == Take(p, totalFrameSize);
        Framed(packets, p, Parsed(receiveBuffer[totalFrameSize..]));
        receiveBuffer := receiveBuffer[totalFrameSize..];
        packets := packets + [p];
        Dispatch(p);
        NothingProcessed(AsSession(), config);
      }
      NothingProcessed(AsSession(), config);
    }

    method OnSocketReadyRead(data: seq<byte>)
      requires Valid() && connected && NextTurn(receiveBuffer).Wait?
      modifies this
      ensures Valid()
      ensures AsSession() == Processed(old(AsSession()), config, old(receiveBuffer) + data)
      ensures connected ==> bytesRead == old(bytesRead) + data && Parsed(bytesRead) == Parse(packets, receiveBuffer, false)
      ensures connected ==> NextTurn(receiveBuffer).Wait?
    {
      hide Processed, NextTurn, Parsed;
      MoreRead(bytesRead, packets, receiveBuffer, data);
      receiveBuffer := receiveBuffer + data;
      bytesRead := bytesRead + data;
      ProcessIncomingData();
      NothingTaken(receiveBuffer);
    }
  }

  lemma Framed(packets: seq<Packet>, p: Packet, rest: Parse)
    ensures Then(Parse(packets, [], false), Then(Parse([p], [], false), rest)) ==
            Then(Parse(packets + [p], [], false), rest)
  {
    assert packets + ([p] + rest.packets) == packets + [p] + rest.packets;
  }

  lemma NothingTaken(buffer: seq<byte>)
    ensures NextTurn(buffer).Wait? ==> Parsed(buffer) == Parse([], buffer, false)
  {
  }

  lemma MoreRead(sofar: seq<byte>, packets: seq<Packet>, buffer: seq<byte>, data: seq<byte>)
    requires NextTurn(buffer).Wait? && Parsed(sofar) == Then(Parse(packets, [], false), Parsed(buffer))
    ensures Parsed(sofar + data) == Then(Parse(packets, [], false), Parsed(buffer + data))
  {
    hide Parsed, NextTurn;
    ParsedInTwo(sofar, data);
    NothingTaken(buffer);
    assert Then(Parse(packets, [], false), Parse([], buffer, false)) == Parse(packets, buffer, false);
  }

  lemma NothingProcessed(s: Session, c: Config)
    ensures Processed(s, c, []) == s && Parsed([]).rest == [] && NextTurn([]).Wait?
  {
  }

  lemma StreamOfOne(p: Packet)
    ensures Stream([p]) == EncodePacket(p)
  {
    assert [p][1..] == [];
    assert EncodePacket(p) + [] == EncodePacket(p);
  }
}
