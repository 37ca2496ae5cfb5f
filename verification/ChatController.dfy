/** The chat controller as an object: each slot and timer callback changes its maps as the step functions say. */
module ChatController {
  import opened Bytes
  import opened Chat

  class ChatController {
    const deviceId: string
    var outgoingMessages: map<string, TrackedMessage>
    var ackTimers: set<string>
    var receivedMessageCache: map<string, int>
    var peerTypingTimers: set<string>
    var localIsTyping: bool
    var lastTypingRecipient: string
    var localTypingStopTimer: bool
    /** The signals emitted, and the frames handed to the socket. */
    var events: seq<Event>
    var frames: seq<Frame>

    function AsChat(): Chat
      reads this
    {
      Chat(outgoingMessages, ackTimers, receivedMessageCache, peerTypingTimers, localIsTyping, lastTypingRecipient,
           localTypingStopTimer, events, frames)
    }

    constructor (deviceId: string)
      ensures this.deviceId == deviceId && AsChat() == NEW_CHAT
    {
      this.deviceId := deviceId;
      outgoingMessages, ackTimers, receivedMessageCache, peerTypingTimers := map[], {}, map[], {};
      localIsTyping, lastTypingRecipient, localTypingStopTimer := false, "", false;
      events, frames := [], [];
    }

    /** `id` is the generated message id; `sent` and `connected` are what the socket answers. */
    method OnSendMessage(recipient: string, content: seq<byte>, id: string, now: int, sent: bool, connected: bool)
      returns (msgId: string)
      modifies this
      ensures AsChat() == SendMessage(old(AsChat()), deviceId, recipient, content, id, now, sent, connected)
      ensures msgId == "" || msgId == id
    {
      if |content| > MAX_CHAT_MESSAGE_CONTENT_SIZE {
        events := events + [ChatError];
        return "";
      }
      if recipient == "" {
        events := events + [ChatError];
        return "";
      }
      var msg := ChatMessage(id, deviceId, recipient, content, now);
      outgoingMessages := outgoingMessages[id := TrackedMessage(msg, Sent, now)];
      ackTimers := ackTimers + {id};
      frames := frames + [MessageFrame(msg)];
      if !sent {
        if !connected {
          outgoingMessages := outgoingMessages[id := outgoingMessages[id].(state := Pending)];
        }
      }
      events := events + [MessageSent(id)];
      return id;
    }

    /** The callback of the message's single-shot timer. */
    method OnAckTimeout(id: string)
      modifies this
      ensures AsChat() == AckTimeout(old(AsChat()), id)
    {
      if id in outgoingMessages {
        if outgoingMessages[id].state == Sent || outgoingMessages[id].state == Pending {
          outgoingMessages := outgoingMessages[id := outgoingMessages[id].(state := Failed)];
          events := events + [StatusChanged(id, Failed)];
        }
      }
      ackTimers := ackTimers - {id};
    }

    method OnSendReadReceipt(id: string, now: int)
      modifies this
      ensures AsChat() == SendReadReceipt(old(AsChat()), id, now)
    {
      if id == "" {
        return;
      }
      EmitAck(id, "read", now);
    }

    method EmitAck(id: string, status: string, now: int)
      modifies this`frames
      ensures AsChat() == SendAck(old(AsChat()), id, status, now)
    {
      frames := frames + [AckFrame(MessageAck(id, status, now))];
    }

    method SendTypingNotification(recipient: string, isTyping: bool, now: int)
      modifies this
      ensures AsChat() == SendTyping(old(AsChat()), deviceId, recipient, isTyping, now)
    {
      if recipient == "" {
        return;
      }
      lastTypingRecipient := recipient;
      if isTyping {
        if !localIsTyping {
          localIsTyping := true;
          frames := frames + [TypingFrame(Typing(deviceId, recipient, true, now))];
        }
        localTypingStopTimer := true;
      } else {
        if localIsTyping {
          localIsTyping := false;
          localTypingStopTimer := false;
          frames := frames + [TypingFrame(Typing(deviceId, recipient, false, now))];
        }
      }
    }

    method OnLocalTypingTimeout(now: int)
      modifies this
      ensures AsChat() == LocalTypingTimeout(old(AsChat()), deviceId, now)
    {
      localTypingStopTimer := false;
      if localIsTyping {
        SendTypingNotification(lastTypingRecipient, false, now);
      }
    }

    /** Old entries leave the duplicate cache. */
    method CleanExpiredDuplicateCache(now: int)
      modifies this`receivedMessageCache
      ensures receivedMessageCache == Cleaned(old(receivedMessageCache), now)
    {
      var left := receivedMessageCache.Keys;
      while left != {}
        invariant left <= receivedMessageCache.Keys <= old(receivedMessageCache).Keys
        invariant forall id :: id in receivedMessageCache ==> receivedMessageCache[id] == old(receivedMessageCache)[id]
        invariant forall id :: id in old(receivedMessageCache) && id !in left ==>
                    (id in receivedMessageCache <==> now - old(receivedMessageCache)[id] <= DUPLICATE_CACHE_WINDOW_SECS)
        decreases left
      {
        var id :| id in left;
        if now - receivedMessageCache[id] > DUPLICATE_CACHE_WINDOW_SECS {
          receivedMessageCache := receivedMessageCache - {id};
        }
        left := left - {id};
      }
    }

    /** The peer's timer is dropped and its indicator goes off. */
    method EndTyping(peer: string)
      modifies this`peerTypingTimers, this`events
      ensures AsChat() == TypingEnded(old(AsChat()), peer)
    {
      if peer in peerTypingTimers {
        peerTypingTimers := peerTypingTimers - {peer};
        events := events + [TypingChanged(peer, false)];
      }
    }

    method HandleInboundChatMessage(msg: ChatMessage, now: int, later: int)
      modifies this
      ensures AsChat() == InboundMessage(old(AsChat()), msg, now, later)
    {
      hide Cleaned;
      if msg.messageId == "" || msg.senderDeviceId == "" || msg.recipientDeviceId == "" {
        return;
      }
      if |msg.content| > MAX_CHAT_MESSAGE_CONTENT_SIZE {
        return;
      }
      CleanExpiredDuplicateCache(now);
      if msg.messageId in receivedMessageCache {
        EmitAck(msg.messageId, "delivered", later);
        return;
      }
      receivedMessageCache := receivedMessageCache[msg.messageId := later];
      EndTyping(msg.senderDeviceId);
      events := events + [MessageReceived(msg, later)];
      EmitAck(msg.messageId, "delivered", later);
    }

    method HandleInboundMessageAck(ack: MessageAck)
      modifies this
      ensures AsChat() == InboundAck(old(AsChat()), ack)
    {
      if ack.messageId == "" {
        return;
      }
      if ack.messageId in outgoingMessages {
        if ack.messageId in ackTimers {
          ackTimers := ackTimers - {ack.messageId};
        }
        var newState := if ack.status == "read" then Read else Delivered;
        outgoingMessages := outgoingMessages[ack.messageId := outgoingMessages[ack.messageId].(state := newState)];
        events := events + [StatusChanged(ack.messageId, newState)];
      }
      events := events + [AckReceived(ack)];
    }

    method HandleInboundTypingIndicator(typing: Typing)
      modifies this
      ensures AsChat() == InboundTyping(old(AsChat()), typing)
    {
      if typing.senderDeviceId == "" || typing.recipientDeviceId == "" {
        return;
      }
      var peerId := typing.senderDeviceId;
      if typing.isTyping {
        if peerId !in peerTypingTimers {
          peerTypingTimers := peerTypingTimers + {peerId};
          events := events + [TypingChanged(peerId, true)];
        }
      } else {
        EndTyping(peerId);
      }
    }

    method OnFrameReceived(frame: Frame, now: int, later: int)
      modifies this
      ensures AsChat() == FrameReceived(old(AsChat()), frame, now, later)
    {
      hide InboundMessage, InboundAck, InboundTyping;
      match frame
      case MessageFrame(msg) => HandleInboundChatMessage(msg, now, later);
      case AckFrame(ack) => HandleInboundMessageAck(ack);
      case TypingFrame(typing) => HandleInboundTypingIndicator(typing);
    }

    /** The loop over a copy of the keys, in whatever order they are listed. */
    method OnSocketDisconnected() returns (ghost order: seq<string>)
      modifies this`peerTypingTimers, this`events
      ensures (set p | p in order) == old(peerTypingTimers)
      ensures AsChat() == SocketDisconnected(old(AsChat()), order) && peerTypingTimers == {}
    {
      var peerIds := Listed(peerTypingTimers);
      order := peerIds;
      DisconnectKeepsMessages(AsChat(), peerIds);
      assert peerIds[0..] == peerIds;
      for i := 0 to |peerIds|
        invariant SocketDisconnected(AsChat(), peerIds[i..]) == SocketDisconnected(old(AsChat()), peerIds)
      {
        assert peerIds[i..][1..] == peerIds[i + 1..];
        EndTyping(peerIds[i]);
      }
    }
  }

  method Listed(keys: set<string>) returns (listed: seq<string>)
    ensures (set p | p in listed) == keys
  {
    listed := [];
    var left := keys;
    while left != {}
      invariant left <= keys && forall p :: p in listed <==> p in keys && p !in left
      decreases left
    {
      var p :| p in left;
      left := left - {p};
      listed := listed + [p];
    }
  }
}
