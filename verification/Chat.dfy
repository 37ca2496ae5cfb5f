/**
 Chat messages, their acknowledgements and typing indicators: what a controller does at each event,
 and what holds of every run of one controller. Frames carry decoded records; a timer is live or not.
 */
module Chat {
  import opened Bytes

  const MAX_CHAT_MESSAGE_CONTENT_SIZE: nat := 64 * 1024
  const DUPLICATE_CACHE_WINDOW_SECS: int := 300

  datatype MessageState = Pending | Sent | Delivered | Read | Failed

  datatype ChatMessage = ChatMessage(
    messageId: string, senderDeviceId: string, recipientDeviceId: string, content: seq<byte>, timestamp: int)

  datatype MessageAck = MessageAck(messageId: string, status: string, timestamp: int)

  datatype Typing = Typing(senderDeviceId: string, recipientDeviceId: string, isTyping: bool, timestamp: int)

  datatype Frame = MessageFrame(message: ChatMessage) | AckFrame(ack: MessageAck) | TypingFrame(typing: Typing)

  datatype TrackedMessage = TrackedMessage(message: ChatMessage, state: MessageState, sendTimestamp: int)

  /** The signals; a received message is noted with the time at which it entered the duplicate cache. */
  datatype Event =
    | MessageSent(id: string)
    | MessageReceived(message: ChatMessage, at: int)
    | StatusChanged(id: string, state: MessageState)
    | AckReceived(ack: MessageAck)
    | TypingChanged(peer: string, isTyping: bool)
    | ChatError

  /** The controller: its maps, its live timers, the signals it emitted and the frames it handed to the socket. */
  datatype Chat = Chat(
    outgoing: map<string, TrackedMessage>, ackTimers: set<string>, received: map<string, int>,
    typingTimers: set<string>, localIsTyping: bool, lastTypingRecipient: string, localTimer: bool,
    events: seq<Event>, frames: seq<Frame>)

  const NEW_CHAT := Chat(map[], {}, map[], {}, false, "", false, [], [])

  // ---------------------------------------------------------------------
  // Steps
  // ---------------------------------------------------------------------

  function Emit(s: Chat, e: Event): Chat {
    s.(events := s.events + [e])
  }

  function SendFrame(s: Chat, f: Frame): Chat {
    s.(frames := s.frames + [f])
  }

  predicate Awaiting(state: MessageState) {
    state == Sent || state == Pending
  }

  /** `sent` and `connected` are what the socket answers. */
  function SendMessage(
    s: Chat, deviceId: string, recipient: string, content: seq<byte>, id: string, now: int, sent: bool, connected: bool): Chat
  {
    if |content| > MAX_CHAT_MESSAGE_CONTENT_SIZE || recipient == "" then Emit(s, ChatError)
    else
      var m := ChatMessage(id, deviceId, recipient, content, now);
      var state := if !sent && !connected then Pending else Sent;
      var t := SendFrame(s, MessageFrame(m)).(
        outgoing := s.outgoing[id := TrackedMessage(m, state, now)], ackTimers := s.ackTimers + {id});
      Emit(t, MessageSent(id))
  }

  function SendAck(s: Chat, id: string, status: string, now: int): Chat {
    SendFrame(s, AckFrame(MessageAck(id, status, now)))
  }

  function SendReadReceipt(s: Chat, id: string, now: int): Chat {
    if id == "" then s else SendAck(s, id, "read", now)
  }

  function SendTyping(s: Chat, deviceId: string, recipient: string, isTyping: bool, now: int): Chat {
    if recipient == "" then s
    else
      var t := s.(lastTypingRecipient := recipient);
      var u := if s.localIsTyping == isTyping then t
               else SendFrame(t, TypingFrame(Typing(deviceId, recipient, isTyping, now))).(localIsTyping := isTyping);
      if isTyping then u.(localTimer := true)
      else if s.localIsTyping then u.(localTimer := false)
      else u
  }

  function LocalTypingTimeout(s: Chat, deviceId: string, now: int): Chat {
    var t := s.(localTimer := false);
    if s.localIsTyping then SendTyping(t, deviceId, s.lastTypingRecipient, false, now) else t
  }

  function AckTimeout(s: Chat, id: string): Chat {
    var t := if id in s.outgoing && Awaiting(s.outgoing[id].state)
             then Emit(s.(outgoing := s.outgoing[id := s.outgoing[id].(state := Failed)]), StatusChanged(id, Failed))
             else s;
    t.(ackTimers := t.ackTimers - {id})
  }

  /** The peer's indicator goes off, if it was on. */
  function TypingEnded(s: Chat, peer: string): Chat {
    if peer in s.typingTimers
    then Emit(s.(typingTimers := s.typingTimers - {peer}), TypingChanged(peer, false))
    else s
  }

  function Cleaned(received: map<string, int>, now: int): map<string, int> {
    map id | id in received && now - received[id] <= DUPLICATE_CACHE_WINDOW_SECS :: received[id]
  }

  /** `now` is when the cache is cleaned, `later` when the message enters it. */
  function InboundMessage(s: Chat, m: ChatMessage, now: int, later: int): Chat {
    if m.messageId == "" || m.senderDeviceId == "" || m.recipientDeviceId == ""
       || |m.content| > MAX_CHAT_MESSAGE_CONTENT_SIZE
    then s
    else
      var t := s.(received := Cleaned(s.received, now));
      if m.messageId in t.received then SendAck(t, m.messageId, "delivered", later)
      else
        var u := TypingEnded(t.(received := t.received[m.messageId := later]), m.senderDeviceId);
        SendAck(Emit(u, MessageReceived(m, later)), m.messageId, "delivered", later)
  }

  function InboundAck(s: Chat, a: MessageAck): Chat {
    if a.messageId == "" then s
    else
      var t :=
        if a.messageId in s.outgoing then
          var state := if a.status == "read" then Read else Delivered;
          Emit(s.(outgoing := s.outgoing[a.messageId := s.outgoing[a.messageId].(state := state)],
                  ackTimers := s.ackTimers - {a.messageId}),
               StatusChanged(a.messageId, state))
        else s;
      Emit(t, AckReceived(a))
  }

  function InboundTyping(s: Chat, t: Typing): Chat {
    if t.senderDeviceId == "" || t.recipientDeviceId == "" then s
    else if !t.isTyping then TypingEnded(s, t.senderDeviceId)
    else if t.senderDeviceId in s.typingTimers then s
    else Emit(s.(typingTimers := s.typingTimers + {t.senderDeviceId}), TypingChanged(t.senderDeviceId, true))
  }

  function FrameReceived(s: Chat, f: Frame, now: int, later: int): Chat {
    match f
    case MessageFrame(m) => InboundMessage(s, m, now, later)
    case AckFrame(a) => InboundAck(s, a)
    case TypingFrame(t) => InboundTyping(s, t)
  }

  /** Every indicator is turned off, in the order in which the peers are listed. */
  function SocketDisconnected(s: Chat, peers: seq<string>): Chat
    decreases |peers|
  {
    if peers == [] then s else SocketDisconnected(TypingEnded(s, peers[0]), peers[1..])
  }

  // ---------------------------------------------------------------------
  // Runs
  // ---------------------------------------------------------------------

  datatype Action =
    | Send(recipient: string, content: seq<byte>, id: string, now: int, sent: bool, connected: bool)
    | Receipt(id: string, now: int)
    | Type(recipient: string, isTyping: bool, now: int)
    | LocalTimer(now: int)
    | AckTimer(id: string)
    | TypingTimer(peer: string)
    | Arrive(frame: Frame, now: int, later: int)
    | Disconnect(peers: seq<string>)

  function Act(s: Chat, deviceId: string, a: Action): Chat {
    match a
    case Send(recipient, content, id, now, sent, connected) =>
      SendMessage(s, deviceId, recipient, content, id, now, sent, connected)
    case Receipt(id, now) => SendReadReceipt(s, id, now)
    case Type(recipient, isTyping, now) => SendTyping(s, deviceId, recipient, isTyping, now)
    case LocalTimer(now) => LocalTypingTimeout(s, deviceId, now)
    case AckTimer(id) => AckTimeout(s, id)
    case TypingTimer(peer) => TypingEnded(s, peer)
    case Arrive(frame, now, later) => FrameReceived(s, frame, now, later)
    case Disconnect(peers) => SocketDisconnected(s, peers)
  }

  function Clock(clock: int, a: Action): int {
    match a
    case Send(_, _, _, now, _, _) => now
    case Receipt(_, now) => now
    case Type(_, _, now) => now
    case LocalTimer(now) => now
    case AckTimer(_) => clock
    case TypingTimer(_) => clock
    case Arrive(_, _, later) => later
    case Disconnect(_) => clock
  }

  /** Timers fire while they are live, message ids are fresh, and the clock does not go back. */
  predicate Allowed(s: Chat, clock: int, a: Action) {
    match a
    case Send(_, _, id, now, _, _) => id !in s.outgoing && clock <= now
    case Receipt(_, now) => clock <= now
    case Type(_, _, now) => clock <= now
    case LocalTimer(now) => s.localTimer && clock <= now
    case AckTimer(id) => id in s.ackTimers
    case TypingTimer(peer) => peer in s.typingTimers
    case Arrive(_, now, later) => clock <= now <= later
    case Disconnect(_) => true
  }

  function RunOf(s: Chat, deviceId: string, actions: seq<Action>): Chat
    decreases |actions|
  {
    if actions == [] then s else RunOf(Act(s, deviceId, actions[0]), deviceId, actions[1..])
  }

  predicate AllAllowed(s: Chat, deviceId: string, clock: int, actions: seq<Action>)
    decreases |actions|
  {
    actions == [] ||
    (Allowed(s, clock, actions[0])
     && AllAllowed(Act(s, deviceId, actions[0]), deviceId, Clock(clock, actions[0]), actions[1..]))
  }

  // ---------------------------------------------------------------------
  // Acknowledgement timers
  // ---------------------------------------------------------------------

  /** A message has a live timer exactly while it awaits its acknowledgement. */
  ghost predicate TimersMatch(s: Chat) {
    forall id :: id in s.ackTimers <==> id in s.outgoing && Awaiting(s.outgoing[id].state)
  }

  /** What is tracked stays so, with its message; what was settled never awaits again; what was acknowledged stays so. */
  predicate Settles(s: Chat, t: Chat) {
    forall id :: id in s.outgoing ==>
      && id in t.outgoing && t.outgoing[id].message == s.outgoing[id].message
      && (!Awaiting(s.outgoing[id].state) ==> !Awaiting(t.outgoing[id].state))
      && (s.outgoing[id].state == Delivered || s.outgoing[id].state == Read ==>
            t.outgoing[id].state == Delivered || t.outgoing[id].state == Read)
  }

  lemma {:induction false} DisconnectKeepsMessages(s: Chat, peers: seq<string>)
    ensures var t := SocketDisconnected(s, peers);
            && t.outgoing == s.outgoing && t.ackTimers == s.ackTimers
            && t.received == s.received && t.frames == s.frames
            && t.typingTimers == s.typingTimers - (set p | p in peers)
    decreases |peers|
  {
    if peers != [] {
      DisconnectKeepsMessages(TypingEnded(s, peers[0]), peers[1..]);
      assert (set p | p in peers) == {peers[0]} + (set p | p in peers[1..]);
    }
  }

  /** One message is entered or changes its state, together with its timer. */
  lemma OneMessage(s: Chat, t: Chat, id: string, m: TrackedMessage)
    requires TimersMatch(s) && t.outgoing == s.outgoing[id := m]
    requires t.ackTimers == if Awaiting(m.state) then s.ackTimers + {id} else s.ackTimers - {id}
    requires id in s.outgoing ==>
               && m.message == s.outgoing[id].message && !Awaiting(m.state)
               && (m.state == Failed ==> Awaiting(s.outgoing[id].state))
    ensures TimersMatch(t) && Settles(s, t)
  {
  }

  lemma SameMessages(s: Chat, t: Chat)
    requires TimersMatch(s) && t.outgoing == s.outgoing && t.ackTimers == s.ackTimers
    ensures TimersMatch(t) && Settles(s, t)
  {
  }

  lemma SendKeepsTimers(s: Chat, deviceId: string, a: Action)
    requires TimersMatch(s) && a.Send? && a.id !in s.outgoing
    ensures TimersMatch(Act(s, deviceId, a)) && Settles(s, Act(s, deviceId, a))
  {
    hide TimersMatch, Settles;
    var t := Act(s, deviceId, a);
    if |a.content| > MAX_CHAT_MESSAGE_CONTENT_SIZE || a.recipient == "" {
      SameMessages(s, t);
    } else {
      OneMessage(s, t, a.id, t.outgoing[a.id]);
    }
  }

  lemma TimeoutKeepsTimers(s: Chat, id: string)
    requires TimersMatch(s) && id in s.ackTimers
    ensures TimersMatch(AckTimeout(s, id)) && Settles(s, AckTimeout(s, id))
  {
    hide TimersMatch, Settles;
    LiveTimer(s, id);
    OneMessage(s, AckTimeout(s, id), id, s.outgoing[id].(state := Failed));
  }

  lemma AckKeepsTimers(s: Chat, a: MessageAck)
    requires TimersMatch(s)
    ensures TimersMatch(InboundAck(s, a)) && Settles(s, InboundAck(s, a))
  {
    hide TimersMatch, Settles;
    var t := InboundAck(s, a);
    if a.messageId != "" && a.messageId in s.outgoing {
      OneMessage(s, t, a.messageId, t.outgoing[a.messageId]);
    } else {
      SameMessages(s, t);
    }
  }

  lemma MessageKeepsTimers(s: Chat, m: ChatMessage, now: int, later: int)
    requires TimersMatch(s)
    ensures TimersMatch(InboundMessage(s, m, now, later)) && Settles(s, InboundMessage(s, m, now, later))
  {
    hide TimersMatch, Settles, Cleaned;
    SameMessages(s, InboundMessage(s, m, now, later));
  }

  /** Typing, read receipts and disconnects leave the tracked messages alone. */
  lemma OthersKeepTimers(s: Chat, deviceId: string, a: Action)
    requires TimersMatch(s) && !a.Send? && !a.AckTimer? && (a.Arrive? ==> a.frame.TypingFrame?)
    ensures TimersMatch(Act(s, deviceId, a)) && Settles(s, Act(s, deviceId, a))
  {
    hide TimersMatch, Settles, SocketDisconnected;
    if a.Disconnect? {
      DisconnectKeepsMessages(s, a.peers);
    }
    SameMessages(s, Act(s, deviceId, a));
  }

  lemma ActKeepsTimers(s: Chat, deviceId: string, clock: int, a: Action)
    requires TimersMatch(s) && Allowed(s, clock, a)
    ensures TimersMatch(Act(s, deviceId, a)) && Settles(s, Act(s, deviceId, a))
  {
    hide TimersMatch, Settles, SocketDisconnected, SendMessage, AckTimeout, InboundAck, InboundMessage;
    if a.Send? {
      SendKeepsTimers(s, deviceId, a);
    } else if a.AckTimer? {
      TimeoutKeepsTimers(s, a.id);
    } else if a.Arrive? && a.frame.AckFrame? {
      AckKeepsTimers(s, a.frame.ack);
    } else if a.Arrive? && a.frame.MessageFrame? {
      MessageKeepsTimers(s, a.frame.message, a.now, a.later);
    } else {
      OthersKeepTimers(s, deviceId, a);
    }
  }

  lemma LiveTimer(s: Chat, id: string)
    requires TimersMatch(s) && id in s.ackTimers
    ensures id in s.outgoing && Awaiting(s.outgoing[id].state)
  {
  }

  /** In every run: live timers are those of the awaiting messages, and what is settled stays settled. */
  lemma {:induction false} TimersExact(s: Chat, deviceId: string, clock: int, actions: seq<Action>)
    requires TimersMatch(s) && AllAllowed(s, deviceId, clock, actions)
    ensures TimersMatch(RunOf(s, deviceId, actions)) && Settles(s, RunOf(s, deviceId, actions))
    decreases |actions|
  {
    hide Act, TimersMatch;
    if actions != [] {
      ActKeepsTimers(s, deviceId, clock, actions[0]);
      TimersExact(Act(s, deviceId, actions[0]), deviceId, Clock(clock, actions[0]), actions[1..]);
    }
  }

  // ---------------------------------------------------------------------
  // Typing indicators
  // ---------------------------------------------------------------------

  /** What was signalled about one peer's typing, in order. */
  function TypingTrace(events: seq<Event>, peer: string): seq<bool> {
    if events == [] then []
    else
      var e, before := events[|events| - 1], TypingTrace(events[..|events| - 1], peer);
      if e.TypingChanged? && e.peer == peer then before + [e.isTyping] else before
  }

  /** What was sent about one's own typing, in order. */
  function SentTrace(frames: seq<Frame>): seq<bool> {
    if frames == [] then []
    else
      var f, before := frames[|frames| - 1], SentTrace(frames[..|frames| - 1]);
      if f.TypingFrame? then before + [f.typing.isTyping] else before
  }

  /** True and false in turn, starting with true, and ending with true exactly if `on`. */
  predicate Alternates(trace: seq<bool>, on: bool) {
    && (forall i :: 0 <= i < |trace| ==> trace[i] == (i % 2 == 0))
    && on == (|trace| % 2 == 1)
  }

  ghost predicate TypingMatches(s: Chat) {
    && (forall peer :: Alternates(TypingTrace(s.events, peer), peer in s.typingTimers))
    && Alternates(SentTrace(s.frames), s.localTimer)
    && s.localIsTyping == s.localTimer && (s.localIsTyping ==> s.lastTypingRecipient != "")
  }

  lemma TraceOfEmit(s: Chat, e: Event, peer: string)
    ensures TypingTrace(Emit(s, e).events, peer) ==
            TypingTrace(s.events, peer) + if e.TypingChanged? && e.peer == peer then [e.isTyping] else []
  {
    assert (s.events + [e])[..|s.events|] == s.events;
  }

  lemma TraceOfSend(s: Chat, f: Frame)
    ensures SentTrace(SendFrame(s, f).frames) == SentTrace(s.frames) + if f.TypingFrame? then [f.typing.isTyping] else []
  {
    assert (s.frames + [f])[..|s.frames|] == s.frames;
  }

  /** A signal about something else, or one that switches a peer's indicator together with its timer. */
  lemma EmitKeepsTyping(s: Chat, t: Chat, e: Event)
    requires TypingMatches(s) && t.events == s.events + [e] && t.frames == s.frames
    requires t.localIsTyping == s.localIsTyping && t.localTimer == s.localTimer
    requires t.lastTypingRecipient == s.lastTypingRecipient
    requires if e.TypingChanged?
             then (e.peer in s.typingTimers) == !e.isTyping
                  && t.typingTimers == if e.isTyping then s.typingTimers + {e.peer} else s.typingTimers - {e.peer}
             else t.typingTimers == s.typingTimers
    ensures TypingMatches(t)
  {
    hide TypingTrace, SentTrace;
    forall peer
      ensures Alternates(TypingTrace(t.events, peer), peer in t.typingTimers)
    {
      TraceOfEmit(s, e, peer);
      assert Alternates(TypingTrace(s.events, peer), peer in s.typingTimers);
    }
  }

  /** A frame about something else, or one that switches the own indicator together with its timer. */
  lemma SendKeepsTyping(s: Chat, t: Chat, f: Frame)
    requires TypingMatches(s) && t.frames == s.frames + [f] && t.events == s.events && t.typingTimers == s.typingTimers
    requires t.localIsTyping == t.localTimer && (t.localIsTyping ==> t.lastTypingRecipient != "")
    requires if f.TypingFrame? then s.localTimer == !f.typing.isTyping && t.localTimer == f.typing.isTyping
             else t.localTimer == s.localTimer
    ensures TypingMatches(t)
  {
    hide TypingTrace, SentTrace;
    TraceOfSend(s, f);
  }

  lemma EndedKeepsTyping(s: Chat, peer: string)
    requires TypingMatches(s)
    ensures TypingMatches(TypingEnded(s, peer))
  {
    hide TypingMatches;
    if peer in s.typingTimers {
      EmitKeepsTyping(s, TypingEnded(s, peer), TypingChanged(peer, false));
    }
  }

  lemma {:induction false} DisconnectKeepsTyping(s: Chat, peers: seq<string>)
    requires TypingMatches(s)
    ensures TypingMatches(SocketDisconnected(s, peers))
    decreases |peers|
  {
    hide TypingMatches, TypingEnded;
    if peers != [] {
      EndedKeepsTyping(s, peers[0]);
      DisconnectKeepsTyping(TypingEnded(s, peers[0]), peers[1..]);
    }
  }

  /** The maps of messages play no part. */
  lemma MapsKeepTyping(s: Chat, t: Chat)
    requires TypingMatches(s) && t == s.(outgoing := t.outgoing, ackTimers := t.ackTimers, received := t.received)
    ensures TypingMatches(t)
  {
  }

  lemma MessageKeepsTyping(s: Chat, m: ChatMessage, now: int, later: int)
    requires TypingMatches(s)
    ensures TypingMatches(InboundMessage(s, m, now, later))
  {
    hide TypingMatches, Cleaned;
    var t := InboundMessage(s, m, now, later);
    if t != s {
      var cleaned := s.(received := Cleaned(s.received, now));
      var ack := AckFrame(MessageAck(m.messageId, "delivered", later));
      MapsKeepTyping(s, cleaned);
      if m.messageId in cleaned.received {
        SendKeepsTypingOfOthers(cleaned, ack);
      } else {
        var noted := cleaned.(received := t.received);
        MapsKeepTyping(s, noted);
        EndedKeepsTyping(noted, m.senderDeviceId);
        var ended := TypingEnded(noted, m.senderDeviceId);
        EmitKeepsTyping(ended, Emit(ended, MessageReceived(m, later)), MessageReceived(m, later));
        SendKeepsTypingOfOthers(Emit(ended, MessageReceived(m, later)), ack);
      }
    }
  }

  lemma SendKeepsTypingOfOthers(s: Chat, f: Frame)
    requires TypingMatches(s) && !f.TypingFrame?
    ensures TypingMatches(SendFrame(s, f))
  {
    SendKeepsTyping(s, SendFrame(s, f), f);
  }

  lemma AckKeepsTyping(s: Chat, a: MessageAck)
    requires TypingMatches(s)
    ensures TypingMatches(InboundAck(s, a))
  {
    hide TypingMatches;
    if a.messageId != "" {
      var t := s;
      if a.messageId in s.outgoing {
        var state := if a.status == "read" then Read else Delivered;
        t := s.(outgoing := s.outgoing[a.messageId := s.outgoing[a.messageId].(state := state)],
                ackTimers := s.ackTimers - {a.messageId});
        MapsKeepTyping(s, t);
        EmitKeepsTyping(t, Emit(t, StatusChanged(a.messageId, state)), StatusChanged(a.messageId, state));
        t := Emit(t, StatusChanged(a.messageId, state));
      }
      EmitKeepsTyping(t, Emit(t, AckReceived(a)), AckReceived(a));
    }
  }

  lemma TypeKeepsTyping(s: Chat, deviceId: string, recipient: string, isTyping: bool, now: int)
    requires TypingMatches(s)
    ensures TypingMatches(SendTyping(s, deviceId, recipient, isTyping, now))
  {
    hide TypingTrace, SentTrace;
    if recipient != "" && s.localIsTyping != isTyping {
      SendKeepsTyping(s, SendTyping(s, deviceId, recipient, isTyping, now),
                      TypingFrame(Typing(deviceId, recipient, isTyping, now)));
    }
  }

  lemma LocalTimeoutKeepsTyping(s: Chat, deviceId: string, now: int)
    requires TypingMatches(s) && s.localTimer
    ensures TypingMatches(LocalTypingTimeout(s, deviceId, now))
  {
    hide TypingTrace, SentTrace;
    SendKeepsTyping(s, LocalTypingTimeout(s, deviceId, now),
                    TypingFrame(Typing(deviceId, s.lastTypingRecipient, false, now)));
  }

  lemma IndicatorKeepsTyping(s: Chat, t: Typing)
    requires TypingMatches(s)
    ensures TypingMatches(InboundTyping(s, t))
  {
    hide TypingMatches;
    EndedKeepsTyping(s, t.senderDeviceId);
    if t.isTyping && InboundTyping(s, t) != s {
      EmitKeepsTyping(s, InboundTyping(s, t), TypingChanged(t.senderDeviceId, true));
    }
  }

  lemma SendMessageKeepsTyping(s: Chat, deviceId: string, a: Action)
    requires TypingMatches(s) && a.Send?
    ensures TypingMatches(Act(s, deviceId, a))
  {
    hide TypingMatches;
    var t := Act(s, deviceId, a);
    if |a.content| > MAX_CHAT_MESSAGE_CONTENT_SIZE || a.recipient == "" {
      EmitKeepsTyping(s, t, ChatError);
    } else {
      var f := MessageFrame(ChatMessage(a.id, deviceId, a.recipient, a.content, a.now));
      SendKeepsTypingOfOthers(s, f);
      var u := SendFrame(s, f).(outgoing := t.outgoing, ackTimers := t.ackTimers);
      MapsKeepTyping(SendFrame(s, f), u);
      EmitKeepsTyping(u, t, MessageSent(a.id));
    }
  }

  lemma ActKeepsTyping(s: Chat, deviceId: string, clock: int, a: Action)
    requires TypingMatches(s) && Allowed(s, clock, a)
    ensures TypingMatches(Act(s, deviceId, a))
  {
    hide TypingMatches, SocketDisconnected, InboundMessage, InboundAck, InboundTyping, SendTyping, SendMessage,
         LocalTypingTimeout, TypingEnded;
    match a
    case Send(_, _, _, _, _, _) => SendMessageKeepsTyping(s, deviceId, a);
    case Receipt(id, now) => SendKeepsTypingOfOthers(s, AckFrame(MessageAck(id, "read", now)));
    case Type(recipient, isTyping, now) => TypeKeepsTyping(s, deviceId, recipient, isTyping, now);
    case LocalTimer(now) => LocalTimeoutKeepsTyping(s, deviceId, now);
    case AckTimer(id) => AckTimeoutKeepsTyping(s, id);
    case TypingTimer(peer) => EndedKeepsTyping(s, peer);
    case Arrive(frame, now, later) =>
      match frame {
        case MessageFrame(m) => MessageKeepsTyping(s, m, now, later);
        case AckFrame(ack) => AckKeepsTyping(s, ack);
        case TypingFrame(t) => IndicatorKeepsTyping(s, t);
      }
    case Disconnect(peers) => DisconnectKeepsTyping(s, peers);
  }

  lemma AckTimeoutKeepsTyping(s: Chat, id: string)
    requires TypingMatches(s)
    ensures TypingMatches(AckTimeout(s, id))
  {
    hide TypingMatches;
    var t := AckTimeout(s, id);
    var u := s.(outgoing := t.outgoing, ackTimers := t.ackTimers);
    MapsKeepTyping(s, u);
    if u != t {
      EmitKeepsTyping(u, t, StatusChanged(id, Failed));
    }
  }

  /**
   In every run, for every peer: the signals about its typing alternate between on and off, and its
   expiry timer is live exactly while the last one was on; the same for what is sent about one's own.
   */
  lemma {:induction false} TypingAlternates(s: Chat, deviceId: string, clock: int, actions: seq<Action>)
    requires TypingMatches(s) && AllAllowed(s, deviceId, clock, actions)
    ensures TypingMatches(RunOf(s, deviceId, actions))
    decreases |actions|
  {
    hide Act, TypingMatches;
    if actions != [] {
      ActKeepsTyping(s, deviceId, clock, actions[0]);
      TypingAlternates(Act(s, deviceId, actions[0]), deviceId, Clock(clock, actions[0]), actions[1..]);
    }
  }

  // ---------------------------------------------------------------------
  // Duplicates
  // ---------------------------------------------------------------------

  predicate ReceivedAt(e: Event, id: string) {
    e.MessageReceived? && e.message.messageId == id
  }

  /** What was signalled lately is in the cache. */
  ghost predicate Remembers(s: Chat, clock: int) {
    && (forall i :: 0 <= i < |s.events| && s.events[i].MessageReceived? ==> Remembered(s, clock, s.events[i]))
    && Spaced(s.events)
  }

  predicate Remembered(s: Chat, clock: int, e: Event)
    requires e.MessageReceived?
  {
    var id := e.message.messageId;
    clock - e.at > DUPLICATE_CACHE_WINDOW_SECS || (id in s.received && s.received[id] >= e.at)
  }

  /** Two signals of a message with the same id are more than 300 seconds apart. */
  predicate Spaced(events: seq<Event>) {
    forall i, j :: 0 <= i < j < |events| && events[i].MessageReceived? && events[j].MessageReceived?
                   && events[i].message.messageId == events[j].message.messageId ==>
                     events[j].at - events[i].at > DUPLICATE_CACHE_WINDOW_SECS
  }

  /** No message is signalled and the cache stays. */
  predicate Quiet(s: Chat, t: Chat) {
    && t.received == s.received && s.events <= t.events
    && forall i :: |s.events| <= i < |t.events| ==> !t.events[i].MessageReceived?
  }

  lemma QuietRemembers(s: Chat, clock: int, t: Chat, clock': int)
    requires Remembers(s, clock) && clock <= clock' && Quiet(s, t)
    ensures Remembers(t, clock')
  {
    forall i | 0 <= i < |t.events| && t.events[i].MessageReceived?
      ensures Remembered(t, clock', t.events[i])
    {
      assert t.events[i] == s.events[i];
      assert Remembered(s, clock, s.events[i]);
    }
  }

  lemma CleanedRemembers(s: Chat, clock: int, now: int)
    requires Remembers(s, clock) && clock <= now
    ensures Remembers(s.(received := Cleaned(s.received, now)), now)
  {
    var t := s.(received := Cleaned(s.received, now));
    forall i | 0 <= i < |t.events| && t.events[i].MessageReceived?
      ensures Remembered(t, now, t.events[i])
    {
      assert Remembered(s, clock, s.events[i]);
    }
  }

  lemma NewMessageRemembers(s: Chat, now: int, m: ChatMessage, later: int)
    requires Remembers(s, now) && now <= later && m.messageId !in s.received
    ensures Remembers(Emit(s.(received := s.received[m.messageId := later]), MessageReceived(m, later)), later)
  {
    var t := Emit(s.(received := s.received[m.messageId := later]), MessageReceived(m, later));
    forall i | 0 <= i < |t.events| && t.events[i].MessageReceived?
      ensures Remembered(t, later, t.events[i])
      ensures i < |s.events| && t.events[i].message.messageId == m.messageId ==>
                later - t.events[i].at > DUPLICATE_CACHE_WINDOW_SECS
    {
      if i < |s.events| {
        assert t.events[i] == s.events[i];
        assert Remembered(s, now, s.events[i]);
      }
    }
  }

  /** A message that is not a duplicate: the indicator goes off, the message is signalled and acknowledged. */
  lemma SignalRemembers(s: Chat, now: int, m: ChatMessage, later: int)
    requires Remembers(s, now) && now <= later && m.messageId !in s.received
    ensures var u := TypingEnded(s.(received := s.received[m.messageId := later]), m.senderDeviceId);
            Remembers(SendAck(Emit(u, MessageReceived(m, later)), m.messageId, "delivered", later), later)
  {
    hide Remembers;
    var ended := TypingEnded(s, m.senderDeviceId);
    QuietRemembers(s, now, ended, now);
    NewMessageRemembers(ended, now, m, later);
    var t := Emit(ended.(received := ended.received[m.messageId := later]), MessageReceived(m, later));
    QuietRemembers(t, later, SendAck(t, m.messageId, "delivered", later), later);
  }

  lemma MessageRemembers(s: Chat, clock: int, m: ChatMessage, now: int, later: int)
    requires Remembers(s, clock) && clock <= now <= later
    ensures Remembers(InboundMessage(s, m, now, later), later)
  {
    hide Remembers, Cleaned, TypingEnded;
    var cleaned := s.(received := Cleaned(s.received, now));
    CleanedRemembers(s, clock, now);
    QuietRemembers(s, clock, s, later);
    QuietRemembers(cleaned, now, SendAck(cleaned, m.messageId, "delivered", later), later);
    if m.messageId !in cleaned.received {
      SignalRemembers(cleaned, now, m, later);
    }
  }

  lemma {:induction false} DisconnectIsQuiet(s: Chat, peers: seq<string>)
    ensures Quiet(s, SocketDisconnected(s, peers))
    decreases |peers|
  {
    if peers != [] {
      DisconnectIsQuiet(TypingEnded(s, peers[0]), peers[1..]);
    }
  }

  lemma MessageOpsAreQuiet(s: Chat, deviceId: string, a: Action)
    requires a.Send? || a.Receipt? || a.AckTimer?
    ensures Quiet(s, Act(s, deviceId, a))
  {
  }

  lemma TypingOpsAreQuiet(s: Chat, deviceId: string, a: Action)
    requires a.Type? || a.LocalTimer? || a.TypingTimer?
    ensures Quiet(s, Act(s, deviceId, a))
  {
  }

  lemma AnswersAreQuiet(s: Chat, f: Frame, now: int, later: int)
    requires !f.MessageFrame?
    ensures Quiet(s, FrameReceived(s, f, now, later))
  {
    hide InboundMessage;
  }

  lemma ActRemembers(s: Chat, deviceId: string, clock: int, a: Action)
    requires Remembers(s, clock) && Allowed(s, clock, a)
    ensures Remembers(Act(s, deviceId, a), Clock(clock, a))
  {
    hide Remembers, Act, Quiet;
    var t, later := Act(s, deviceId, a), Clock(clock, a);
    if a.Arrive? {
      ArriveIs(s, deviceId, a);
      if a.frame.MessageFrame? {
        MessageRemembers(s, clock, a.frame.message, a.now, a.later);
      } else {
        AnswersAreQuiet(s, a.frame, a.now, a.later);
        QuietRemembers(s, clock, t, later);
      }
    } else {
      if a.Disconnect? {
        ArriveIs(s, deviceId, a);
        DisconnectIsQuiet(s, a.peers);
      } else if a.Send? || a.Receipt? || a.AckTimer? {
        MessageOpsAreQuiet(s, deviceId, a);
      } else {
        TypingOpsAreQuiet(s, deviceId, a);
      }
      QuietRemembers(s, clock, t, later);
    }
  }

  lemma ArriveIs(s: Chat, deviceId: string, a: Action)
    ensures a.Arrive? ==> Act(s, deviceId, a) == FrameReceived(s, a.frame, a.now, a.later)
    ensures a.Disconnect? ==> Act(s, deviceId, a) == SocketDisconnected(s, a.peers)
  {
    hide FrameReceived, SendMessage, SendTyping, LocalTypingTimeout, AckTimeout, TypingEnded;
  }

  /** In every run, two signals of messages with one id are more than 300 seconds apart. */
  lemma {:induction false} DuplicatesAreSpaced(s: Chat, deviceId: string, clock: int, actions: seq<Action>)
    requires Remembers(s, clock) && AllAllowed(s, deviceId, clock, actions)
    ensures Spaced(RunOf(s, deviceId, actions).events)
    decreases |actions|
  {
    hide Act;
    if actions != [] {
      ActRemembers(s, deviceId, clock, actions[0]);
      DuplicatesAreSpaced(Act(s, deviceId, actions[0]), deviceId, Clock(clock, actions[0]), actions[1..]);
    }
  }

  /** A new controller starts as the runs above require. */
  lemma NewChat(clock: int)
    ensures TimersMatch(NEW_CHAT) && TypingMatches(NEW_CHAT) && Remembers(NEW_CHAT, clock)
  {
  }

  /** The three results, for every run of a new controller. */
  lemma EveryRun(deviceId: string, clock: int, actions: seq<Action>)
    requires AllAllowed(NEW_CHAT, deviceId, clock, actions)
    ensures var s := RunOf(NEW_CHAT, deviceId, actions);
            TimersMatch(s) && TypingMatches(s) && Spaced(s.events)
  {
    hide RunOf, AllAllowed, TimersMatch, TypingMatches, Remembers;
    NewChat(clock);
    TimersExact(NEW_CHAT, deviceId, clock, actions);
    TypingAlternates(NEW_CHAT, deviceId, clock, actions);
    DuplicatesAreSpaced(NEW_CHAT, deviceId, clock, actions);
  }
}
