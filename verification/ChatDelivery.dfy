/** From one controller to the other: what a message, its acknowledgement and a typing indicator bring about. */
module ChatDelivery {
  import opened Bytes
  import opened Chat

  // ---------------------------------------------------------------------
  // Messages
  // ---------------------------------------------------------------------

  predicate Acceptable(m: ChatMessage) {
    m.messageId != "" && m.senderDeviceId != "" && m.recipientDeviceId != "" && |m.content| <= 65536
  }

  /** The id came in at most 300 seconds before `now`. */
  predicate SeenLately(s: Chat, id: string, now: int) {
    id in s.received && now - s.received[id] <= 300
  }

  function Signals(events: seq<Event>): seq<ChatMessage> {
    if events == [] then []
    else
      var before, e := Signals(events[..|events| - 1]), events[|events| - 1];
      if e.MessageReceived? then before + [e.message] else before
  }

  lemma SignalsSnoc(events: seq<Event>, e: Event)
    ensures Signals(events + [e]) == Signals(events) + if e.MessageReceived? then [e.message] else []
  {
    assert (events + [e])[..|events|] == events;
  }

  /**
   A message is signalled exactly if it is acceptable and was not seen lately. It is acknowledged as delivered
   exactly if it is acceptable, once for each time it arrives; and nothing else is sent for it.
   */
  lemma ArrivalOutcome(s: Chat, deviceId: string, m: ChatMessage, now: int, later: int)
    ensures var t := Act(s, deviceId, Arrive(MessageFrame(m), now, later));
            && Signals(t.events) == Signals(s.events) + (if Acceptable(m) && !SeenLately(s, m.messageId, now) then [m] else [])
            && t.frames == s.frames + (if Acceptable(m) then [AckFrame(MessageAck(m.messageId, "delivered", later))] else [])
            && (Acceptable(m) && !SeenLately(s, m.messageId, now) ==>
                  m.senderDeviceId !in t.typingTimers && forall u :: SeenLately(t, m.messageId, u) <==> u - later <= 300)
  {
    SignalsOfEmit(TypingEnded(s, m.senderDeviceId).events, m, later);
    SignalsSnoc(s.events, TypingChanged(m.senderDeviceId, false));
  }

  lemma SignalsOfEmit(events: seq<Event>, m: ChatMessage, at: int)
    ensures Signals(events + [MessageReceived(m, at)]) == Signals(events) + [m]
  {
    SignalsSnoc(events, MessageReceived(m, at));
  }

  /**
   A message goes out exactly if somebody is named to receive it and its content is within the limit. It is then
   tracked as awaiting, with a live timer, as pending exactly if there is no connection; otherwise there is an error.
   */
  lemma SendOutcome(
    s: Chat, deviceId: string, recipient: string, content: seq<byte>, id: string, now: int, sent: bool, connected: bool)
    ensures var t := Act(s, deviceId, Send(recipient, content, id, now, sent, connected));
            var m := ChatMessage(id, deviceId, recipient, content, now);
            if recipient != "" && |content| <= 65536 then
              && t.frames == s.frames + [MessageFrame(m)] && t.events == s.events + [MessageSent(id)]
              && id in t.outgoing && t.outgoing[id].message == m && id in t.ackTimers
              && t.outgoing[id].state == (if sent || connected then Sent else Pending)
            else t == s.(events := s.events + [ChatError])
  {
  }

  /**
   A message that was sent and has arrived is delivered: whatever the sender did in between, once the answer of
   the receiver arrives the sender tracks the message as delivered, with no timer, and signals that.
   */
  lemma AnsweredIsDelivered(
    alice: Chat, bob: Chat, aliceId: string, bobId: string, content: seq<byte>, id: string, sent: bool, connected: bool,
    now: int, arrived: int, answered: int, between: seq<Action>, back: int)
    requires TimersMatch(alice) && id !in alice.outgoing && id != "" && aliceId != "" && bobId != "" && |content| <= 65536
    requires AllAllowed(Act(alice, aliceId, Send(bobId, content, id, now, sent, connected)), aliceId, now, between)
    ensures var m := ChatMessage(id, aliceId, bobId, content, now);
            var a1 := Act(alice, aliceId, Send(bobId, content, id, now, sent, connected));
            var b1 := Act(bob, bobId, Arrive(MessageFrame(m), arrived, answered));
            && MessageFrame(m) in a1.frames && b1.frames != []
            && (SeenLately(bob, id, arrived) || m in Signals(b1.events))
            && var a2 := RunOf(a1, aliceId, between);
               var a3 := Act(a2, aliceId, Arrive(b1.frames[|b1.frames| - 1], back, back));
               && id in a3.outgoing && a3.outgoing[id].message == m && a3.outgoing[id].state == Delivered
               && id !in a3.ackTimers && StatusChanged(id, Delivered) in a3.events
  {
    hide Act, TimersMatch, RunOf, AllAllowed, Signals;
    var m := ChatMessage(id, aliceId, bobId, content, now);
    var send := Send(bobId, content, id, now, sent, connected);
    var a1 := Act(alice, aliceId, send);
    SendOutcome(alice, aliceId, bobId, content, id, now, sent, connected);
    ActKeepsTimers(alice, aliceId, now, send);
    ArrivalOutcome(bob, bobId, m, arrived, answered);
    TimersExact(a1, aliceId, now, between);
    AnswerOutcome(RunOf(a1, aliceId, between), aliceId, MessageAck(id, "delivered", answered), back);
  }

  /** An answer settles a tracked message for good: read or delivered, as it says, with its timer gone and a signal. */
  lemma AnswerOutcome(s: Chat, deviceId: string, a: MessageAck, now: int)
    requires a.messageId in s.outgoing && a.messageId != ""
    ensures var t := Act(s, deviceId, Arrive(AckFrame(a), now, now));
            var state := if a.status == "read" then Read else Delivered;
            && t.outgoing == s.outgoing[a.messageId := s.outgoing[a.messageId].(state := state)]
            && t.ackTimers == s.ackTimers - {a.messageId} && t.frames == s.frames
            && t.events == s.events + [StatusChanged(a.messageId, state), AckReceived(a)]
  {
  }

  /** A message that is not answered in time fails, and the failure is signalled. */
  lemma UnansweredFails(s: Chat, deviceId: string, id: string)
    requires TimersMatch(s) && id in s.ackTimers
    ensures var t := Act(s, deviceId, AckTimer(id));
            && id in t.outgoing && t.outgoing[id] == s.outgoing[id].(state := Failed)
            && id !in t.ackTimers && t.events == s.events + [StatusChanged(id, Failed)]
  {
  }

  // ---------------------------------------------------------------------
  // Typing
  // ---------------------------------------------------------------------

  /**
   A frame with both ids turns the indicator of its sender on or off as it says, and is signalled exactly if that is a
   change; a frame without them does nothing, and no other indicator changes.
   */
  lemma IndicatorOutcome(s: Chat, deviceId: string, f: Typing, now: int)
    ensures var t := Act(s, deviceId, Arrive(TypingFrame(f), now, now));
            var changes := f.senderDeviceId != "" && f.recipientDeviceId != ""
                           && f.isTyping != (f.senderDeviceId in s.typingTimers);
            && t == s.(typingTimers := t.typingTimers, events := t.events)
            && (forall peer :: peer in t.typingTimers <==>
                  if changes && peer == f.senderDeviceId then f.isTyping else peer in s.typingTimers)
            && t.events == s.events + if changes then [TypingChanged(f.senderDeviceId, f.isTyping)] else []
  {
  }

  /** Bob shows that Alice is typing exactly while she is; and she is typing to him. */
  predicate Mirrors(alice: Chat, bob: Chat, aliceId: string, bobId: string) {
    && (alice.localIsTyping <==> aliceId in bob.typingTimers)
    && (alice.localIsTyping ==> alice.lastTypingRecipient == bobId)
  }

  /** Everything that was sent arrives, in order. */
  function Fed(s: Chat, deviceId: string, frames: seq<Frame>, now: int): Chat
    decreases |frames|
  {
    if frames == [] then s else Fed(Act(s, deviceId, Arrive(frames[0], now, now)), deviceId, frames[1..], now)
  }

  /** Alice types to Bob, stops, or her timer fires. */
  predicate TypesTo(a: Action, bobId: string) {
    (a.Type? && a.recipient == bobId) || a.LocalTimer?
  }

  lemma OneTypingAction(alice: Chat, bob: Chat, aliceId: string, bobId: string, a: Action, at: int)
    requires Mirrors(alice, bob, aliceId, bobId) && TypesTo(a, bobId) && aliceId != "" && bobId != ""
    ensures var alice' := Act(alice, aliceId, a);
            && alice.frames <= alice'.frames
            && Mirrors(alice', Fed(bob, bobId, alice'.frames[|alice.frames|..], at), aliceId, bobId)
            && alice'.localIsTyping == (a.Type? && a.isTyping)
  {
    var alice' := Act(alice, aliceId, a);
    var frames := alice'.frames[|alice.frames|..];
    if frames != [] {
      assert frames[1..] == [];
      assert Fed(bob, bobId, frames, at) == Act(bob, bobId, Arrive(frames[0], at, at));
    }
  }

  lemma {:induction false} FedInTwo(s: Chat, deviceId: string, f: seq<Frame>, g: seq<Frame>, now: int)
    ensures Fed(s, deviceId, f + g, now) == Fed(Fed(s, deviceId, f, now), deviceId, g, now)
    decreases |f|
  {
    hide Act;
    if f == [] {
      assert f + g == g;
    } else {
      assert (f + g)[1..] == f[1..] + g;
      FedInTwo(Act(s, deviceId, Arrive(f[0], now, now)), deviceId, f[1..], g, now);
    }
  }

  /**
   However Alice types to Bob, stops, goes on or pauses until her timer fires: when the frames sent for it have
   arrived, Bob's indicator for her is on exactly if she is typing, and she is exactly if she last said so.
   */
  lemma {:induction false} IndicatorFollows(
    alice: Chat, bob: Chat, aliceId: string, bobId: string, actions: seq<Action>, at: int)
    requires Mirrors(alice, bob, aliceId, bobId) && aliceId != "" && bobId != ""
    requires forall a :: a in actions ==> TypesTo(a, bobId)
    ensures var alice' := RunOf(alice, aliceId, actions);
            && alice.frames <= alice'.frames
            && Mirrors(alice', Fed(bob, bobId, alice'.frames[|alice.frames|..], at), aliceId, bobId)
            && (actions != [] ==>
                  var last := actions[|actions| - 1]; alice'.localIsTyping == (last.Type? && last.isTyping))
    decreases |actions|
  {
    hide Act, Mirrors, TypesTo;
    if actions == [] {
      assert alice.frames[|alice.frames|..] == [];
    } else {
      var alice1 := Act(alice, aliceId, actions[0]);
      OneTypingAction(alice, bob, aliceId, bobId, actions[0], at);
      var frames := alice1.frames[|alice.frames|..];
      var bob1 := Fed(bob, bobId, frames, at);
      IndicatorFollows(alice1, bob1, aliceId, bobId, actions[1..], at);
      var alice' := RunOf(alice1, aliceId, actions[1..]);
      assert alice'.frames[|alice.frames|..] == frames + alice'.frames[|alice1.frames|..];
      FedInTwo(bob, bobId, frames, alice'.frames[|alice1.frames|..], at);
    }
  }
}
