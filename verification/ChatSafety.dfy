/**
 Two controllers that chat over a network which may lose, duplicate, delay and reorder frames, but
 delivers only frames that the other side sent.
 */
module ChatSafety {
  import opened Bytes
  import opened Chat

  /** The receiver has signalled this very message. */
  predicate Emitted(events: seq<Event>, m: ChatMessage) {
    exists i :: 0 <= i < |events| && events[i].MessageReceived? && events[i].message == m
  }

  predicate EmittedId(events: seq<Event>, id: string) {
    exists i :: 0 <= i < |events| && ReceivedAt(events[i], id)
  }

  predicate Acknowledged(state: MessageState) {
    state == Delivered || state == Read
  }

  /** The state that an acknowledgement leads to. */
  function StateOf(a: MessageAck): MessageState {
    if a.status == "read" then Read else Delivered
  }

  /** An acknowledgement that leads to that state was sent for that message. */
  predicate AckSent(frames: seq<Frame>, id: string, state: MessageState) {
    exists f :: f in frames && f.AckFrame? && f.ack.messageId == id && StateOf(f.ack) == state
  }

  /** What a controller may do next to its peer: ids are fresh, and what arrives was sent. */
  predicate Possible(own: Chat, other: Chat, a: Action) {
    && (a.Send? ==> a.id !in own.outgoing)
    && (a.Arrive? ==> a.frame in other.frames)
  }

  /** The ids for which a read receipt was sent before their message was signalled. */
  function EarlyAfter(own: Chat, a: Action, early: set<string>): set<string> {
    if a.Receipt? && a.id != "" && !EmittedId(own.events, a.id) then early + {a.id} else early
  }

  // ---------------------------------------------------------------------
  // What one action adds
  // ---------------------------------------------------------------------

  /** Frames with messages come from sending; acknowledged states come from acknowledgements. */
  ghost predicate SenderEffect(s: Chat, t: Chat, a: Action) {
    && s.frames <= t.frames
    && (forall i :: |s.frames| <= i < |t.frames| && t.frames[i].MessageFrame? ==>
          var m := t.frames[i].message;
          a.Send? && m.messageId == a.id && a.id in t.outgoing && t.outgoing[a.id].message == m)
    && (forall id :: id in s.outgoing ==> id in t.outgoing && t.outgoing[id].message == s.outgoing[id].message)
    && (forall id :: id in t.outgoing && id !in s.outgoing ==> t.outgoing[id].message.messageId == id)
    && (forall id :: id in t.outgoing && Acknowledged(t.outgoing[id].state) ==>
          && id in s.outgoing
          && (t.outgoing[id].state == s.outgoing[id].state
              || (a.Arrive? && a.frame.AckFrame? && a.frame.ack.messageId == id
                  && t.outgoing[id].state == StateOf(a.frame.ack))))
  }

  /** Signals come from messages; acknowledgements from messages signalled before or now, and from read receipts. */
  ghost predicate ReceiverEffect(s: Chat, t: Chat, a: Action) {
    && s.events <= t.events && s.frames <= t.frames
    && (forall i :: |s.events| <= i < |t.events| && t.events[i].MessageReceived? ==>
          a.Arrive? && a.frame == MessageFrame(t.events[i].message))
    && (forall id :: id in t.received ==> id in s.received || EmittedId(t.events, id))
    && (forall i :: |s.frames| <= i < |t.frames| && t.frames[i].AckFrame? ==>
          var id := t.frames[i].ack.messageId;
          id in s.received || EmittedId(t.events, id)
          || (a.Receipt? && a.id == id && id != "" && StateOf(t.frames[i].ack) == Read))
  }

  /** At most one new frame, of another kind, and no change to what is tracked. */
  lemma QuietSender(s: Chat, t: Chat, a: Action)
    requires s.frames <= t.frames && |t.frames| <= |s.frames| + 1 && t.outgoing == s.outgoing
    requires |t.frames| > |s.frames| ==> !t.frames[|s.frames|].MessageFrame?
    ensures SenderEffect(s, t, a)
  {
  }

  lemma QuietReceiver(s: Chat, t: Chat, a: Action)
    requires Quiet(s, t) && s.frames <= t.frames && |t.frames| <= |s.frames| + 1
    requires |t.frames| > |s.frames| ==> !t.frames[|s.frames|].AckFrame?
    ensures ReceiverEffect(s, t, a)
  {
  }

  lemma SendEffects(s: Chat, deviceId: string, a: Action)
    requires a.Send? && a.id !in s.outgoing
    ensures SenderEffect(s, Act(s, deviceId, a), a) && ReceiverEffect(s, Act(s, deviceId, a), a)
  {
    hide ReceiverEffect;
    MessageOpsAreQuiet(s, deviceId, a);
    QuietReceiver(s, Act(s, deviceId, a), a);
  }

  lemma ReceiptEffects(s: Chat, deviceId: string, a: Action)
    requires a.Receipt?
    ensures SenderEffect(s, Act(s, deviceId, a), a) && ReceiverEffect(s, Act(s, deviceId, a), a)
  {
    hide SenderEffect;
    QuietSender(s, Act(s, deviceId, a), a);
  }

  lemma AckTimerEffects(s: Chat, deviceId: string, a: Action)
    requires a.AckTimer?
    ensures SenderEffect(s, Act(s, deviceId, a), a) && ReceiverEffect(s, Act(s, deviceId, a), a)
  {
    hide ReceiverEffect;
    MessageOpsAreQuiet(s, deviceId, a);
    QuietReceiver(s, Act(s, deviceId, a), a);
  }

  lemma TypingEffects(s: Chat, deviceId: string, a: Action)
    requires a.Type? || a.LocalTimer? || a.TypingTimer?
    ensures SenderEffect(s, Act(s, deviceId, a), a) && ReceiverEffect(s, Act(s, deviceId, a), a)
  {
    hide SenderEffect, ReceiverEffect, Quiet;
    TypingOpsAreQuiet(s, deviceId, a);
    QuietSender(s, Act(s, deviceId, a), a);
    QuietReceiver(s, Act(s, deviceId, a), a);
  }

  lemma AckEffects(s: Chat, a: Action)
    requires a.Arrive? && a.frame.AckFrame?
    ensures SenderEffect(s, InboundAck(s, a.frame.ack), a)
  {
  }

  lemma AnswerEffects(s: Chat, a: Action)
    requires a.Arrive? && !a.frame.MessageFrame?
    ensures var t := FrameReceived(s, a.frame, a.now, a.later);
            SenderEffect(s, t, a) && ReceiverEffect(s, t, a)
  {
    hide InboundMessage, SenderEffect, ReceiverEffect, Quiet;
    var t := FrameReceived(s, a.frame, a.now, a.later);
    AnswersAreQuiet(s, a.frame, a.now, a.later);
    QuietReceiver(s, t, a);
    if a.frame.TypingFrame? {
      QuietSender(s, t, a);
    } else {
      AckEffects(s, a);
    }
  }

  lemma MessageEffects(s: Chat, a: Action)
    requires a.Arrive? && a.frame.MessageFrame?
    ensures var t := InboundMessage(s, a.frame.message, a.now, a.later);
            SenderEffect(s, t, a) && ReceiverEffect(s, t, a)
  {
    hide SenderEffect, EmittedId;
    var t := InboundMessage(s, a.frame.message, a.now, a.later);
    QuietSender(s, t, a);
    MessageIsSignalled(s, a.frame.message, a.now, a.later);
  }

  lemma MessageIsSignalled(s: Chat, m: ChatMessage, now: int, later: int)
    ensures var t := InboundMessage(s, m, now, later);
            t == s || m.messageId in s.received || EmittedId(t.events, m.messageId)
    ensures var t := InboundMessage(s, m, now, later);
            m.messageId in t.received ==> m.messageId in s.received || EmittedId(t.events, m.messageId)
    ensures var t := InboundMessage(s, m, now, later);
            t.events == s.events || EmittedId(t.events, m.messageId)
  {
    var t := InboundMessage(s, m, now, later);
    if |t.events| > |s.events| {
      assert ReceivedAt(t.events[|t.events| - 1], m.messageId);
    }
  }

  lemma DisconnectEffects(s: Chat, a: Action)
    requires a.Disconnect?
    ensures var t := SocketDisconnected(s, a.peers);
            SenderEffect(s, t, a) && ReceiverEffect(s, t, a)
  {
    DisconnectKeepsMessages(s, a.peers);
    DisconnectIsQuiet(s, a.peers);
  }

  lemma Effects(s: Chat, deviceId: string, other: Chat, a: Action)
    requires Possible(s, other, a)
    ensures SenderEffect(s, Act(s, deviceId, a), a) && ReceiverEffect(s, Act(s, deviceId, a), a)
  {
    hide SenderEffect, ReceiverEffect, FrameReceived, Act;
    ArriveIs(s, deviceId, a);
    if a.Send? {
      SendEffects(s, deviceId, a);
    } else if a.Disconnect? {
      DisconnectEffects(s, a);
    } else if a.Arrive? && a.frame.MessageFrame? {
      MessageEffects(s, a);
      assert FrameReceived(s, a.frame, a.now, a.later) == InboundMessage(s, a.frame.message, a.now, a.later) by {
        MessageArrives(s, a);
      }
    } else if a.Arrive? {
      AnswerEffects(s, a);
    } else if a.Receipt? {
      ReceiptEffects(s, deviceId, a);
    } else if a.AckTimer? {
      AckTimerEffects(s, deviceId, a);
    } else {
      TypingEffects(s, deviceId, a);
    }
  }

  lemma MessageArrives(s: Chat, a: Action)
    requires a.Arrive? && a.frame.MessageFrame?
    ensures FrameReceived(s, a.frame, a.now, a.later) == InboundMessage(s, a.frame.message, a.now, a.later)
  {
  }

  // ---------------------------------------------------------------------
  // The invariant
  // ---------------------------------------------------------------------

  /** How the messages of `x` and what `y` makes of them belong together; `early` are the early receipts of `y`. */
  ghost predicate Linked(x: Chat, y: Chat, early: set<string>) {
    && (forall f :: f in x.frames && f.MessageFrame? ==>
          f.message.messageId in x.outgoing && x.outgoing[f.message.messageId].message == f.message)
    && (forall id :: id in x.outgoing ==> x.outgoing[id].message.messageId == id)
    && (forall e :: e in y.events && e.MessageReceived? ==> MessageFrame(e.message) in x.frames)
    && (forall id :: id in y.received ==> EmittedId(y.events, id))
    && (forall f :: f in y.frames && f.AckFrame? ==>
          EmittedId(y.events, f.ack.messageId) || (StateOf(f.ack) == Read && f.ack.messageId in early))
    && (forall id :: id in x.outgoing && Acknowledged(x.outgoing[id].state) ==> Justified(x.outgoing[id], y, id, early))
  }

  /** The acknowledged state was sent, and the message was signalled, or read all too early. */
  ghost predicate Justified(m: TrackedMessage, y: Chat, id: string, early: set<string>) {
    && AckSent(y.frames, id, m.state)
    && (Emitted(y.events, m.message) || (m.state == Read && id in early))
  }

  /** What `y` signalled under an id is the message of `x` with that id. */
  lemma EmittedIffId(x: Chat, y: Chat, early: set<string>, id: string)
    requires Linked(x, y, early)
    ensures EmittedId(y.events, id) ==> id in x.outgoing
    ensures id in x.outgoing ==> (EmittedId(y.events, id) <==> Emitted(y.events, x.outgoing[id].message))
  {
    if EmittedId(y.events, id) {
      var i :| 0 <= i < |y.events| && ReceivedAt(y.events[i], id);
      assert y.events[i] in y.events;
    }
    if id in x.outgoing && Emitted(y.events, x.outgoing[id].message) {
      var i :| 0 <= i < |y.events| && y.events[i].MessageReceived? && y.events[i].message == x.outgoing[id].message;
      assert ReceivedAt(y.events[i], id);
    }
  }

  lemma SenderActs(x: Chat, y: Chat, x': Chat, a: Action, early: set<string>)
    requires Linked(x, y, early) && SenderEffect(x, x', a) && Possible(x, y, a)
    ensures Linked(x', y, early)
  {
    hide EmittedId, Emitted;
    forall f | f in x'.frames && f.MessageFrame?
      ensures f.message.messageId in x'.outgoing && x'.outgoing[f.message.messageId].message == f.message
    {
      var i :| 0 <= i < |x'.frames| && x'.frames[i] == f;
      if i < |x.frames| {
        assert x.frames[i] in x.frames;
      }
    }
    forall id | id in x'.outgoing && Acknowledged(x'.outgoing[id].state)
      ensures Justified(x'.outgoing[id], y, id, early)
    {
      if x'.outgoing[id].state != x.outgoing[id].state {
        EmittedIffId(x, y, early, id);
        assert a.frame in y.frames;
      }
    }
  }

  lemma ReceiverActs(x: Chat, y: Chat, y': Chat, a: Action, early: set<string>)
    requires Linked(x, y, early) && ReceiverEffect(y, y', a) && Possible(y, x, a)
    ensures Linked(x, y', EarlyAfter(y, a, early))
  {
    hide EmittedId, Emitted, AckSent;
    var early' := EarlyAfter(y, a, early);
    forall id | EmittedId(y.events, id)
      ensures EmittedId(y'.events, id)
    {
      StillEmittedId(y.events, y'.events, id);
    }
    forall e | e in y'.events && e.MessageReceived?
      ensures MessageFrame(e.message) in x.frames
    {
      var i :| 0 <= i < |y'.events| && y'.events[i] == e;
      if i < |y.events| {
        assert y.events[i] in y.events;
      }
    }
    forall f | f in y'.frames && f.AckFrame?
      ensures EmittedId(y'.events, f.ack.messageId) || (StateOf(f.ack) == Read && f.ack.messageId in early')
    {
      var i :| 0 <= i < |y'.frames| && y'.frames[i] == f;
      if i < |y.frames| {
        assert y.frames[i] in y.frames;
      }
    }
    forall id | id in x.outgoing && Acknowledged(x.outgoing[id].state)
      ensures Justified(x.outgoing[id], y', id, early')
    {
      StillSent(y.frames, y'.frames, id, x.outgoing[id].state);
      if Emitted(y.events, x.outgoing[id].message) {
        StillEmitted(y.events, y'.events, x.outgoing[id].message);
      }
    }
  }

  lemma StillEmittedId(a: seq<Event>, b: seq<Event>, id: string)
    requires a <= b && EmittedId(a, id)
    ensures EmittedId(b, id)
  {
    var i :| 0 <= i < |a| && ReceivedAt(a[i], id);
    assert b[i] == a[i];
  }

  lemma StillEmitted(a: seq<Event>, b: seq<Event>, m: ChatMessage)
    requires a <= b && Emitted(a, m)
    ensures Emitted(b, m)
  {
    var i :| 0 <= i < |a| && a[i].MessageReceived? && a[i].message == m;
    assert b[i] == a[i];
  }

  lemma StillSent(a: seq<Frame>, b: seq<Frame>, id: string, state: MessageState)
    requires a <= b && AckSent(a, id, state)
    ensures AckSent(b, id, state)
  {
    var f :| f in a && f.AckFrame? && f.ack.messageId == id && StateOf(f.ack) == state;
    assert f in b;
  }

  // ---------------------------------------------------------------------
  // Runs of two
  // ---------------------------------------------------------------------

  /** Both controllers, and the early receipts of each. */
  datatype Pair = Pair(alice: Chat, bob: Chat, aliceEarly: set<string>, bobEarly: set<string>)

  const NEW_PAIR := Pair(NEW_CHAT, NEW_CHAT, {}, {})

  datatype Step = ByAlice(a: Action) | ByBob(a: Action)

  function Stepped(p: Pair, aliceId: string, bobId: string, step: Step): Pair {
    match step
    case ByAlice(a) => p.(alice := Act(p.alice, aliceId, a), aliceEarly := EarlyAfter(p.alice, a, p.aliceEarly))
    case ByBob(a) => p.(bob := Act(p.bob, bobId, a), bobEarly := EarlyAfter(p.bob, a, p.bobEarly))
  }

  predicate StepPossible(p: Pair, step: Step) {
    match step
    case ByAlice(a) => Possible(p.alice, p.bob, a)
    case ByBob(a) => Possible(p.bob, p.alice, a)
  }

  function PairAfter(p: Pair, aliceId: string, bobId: string, steps: seq<Step>): Pair
    decreases |steps|
  {
    if steps == [] then p else PairAfter(Stepped(p, aliceId, bobId, steps[0]), aliceId, bobId, steps[1..])
  }

  predicate AllPossible(p: Pair, aliceId: string, bobId: string, steps: seq<Step>)
    decreases |steps|
  {
    steps == []
    || (StepPossible(p, steps[0]) && AllPossible(Stepped(p, aliceId, bobId, steps[0]), aliceId, bobId, steps[1..]))
  }

  ghost predicate BothLinked(p: Pair) {
    Linked(p.alice, p.bob, p.bobEarly) && Linked(p.bob, p.alice, p.aliceEarly)
  }

  lemma {:induction false} RunKeepsLinks(p: Pair, aliceId: string, bobId: string, steps: seq<Step>)
    requires BothLinked(p) && AllPossible(p, aliceId, bobId, steps)
    ensures BothLinked(PairAfter(p, aliceId, bobId, steps))
    decreases |steps|
  {
    hide Linked, SenderEffect, ReceiverEffect, Act, Possible, EarlyAfter;
    if steps != [] {
      var next := Stepped(p, aliceId, bobId, steps[0]);
      match steps[0] {
        case ByAlice(a) =>
          Effects(p.alice, aliceId, p.bob, a);
          SenderActs(p.alice, p.bob, next.alice, a, p.bobEarly);
          ReceiverActs(p.bob, p.alice, next.alice, a, p.aliceEarly);
        case ByBob(a) =>
          Effects(p.bob, bobId, p.alice, a);
          SenderActs(p.bob, p.alice, next.bob, a, p.aliceEarly);
          ReceiverActs(p.alice, p.bob, next.bob, a, p.bobEarly);
      }
      RunKeepsLinks(next, aliceId, bobId, steps[1..]);
    }
  }

  /**
   After every run from the start, with read receipts sent at any time: whatever one side tracks as
   delivered, the other side has signalled to its user, the same message with every field; what it
   tracks as read, too, unless the receipt was sent before the signal; each was acknowledged with that
   very status; and nothing is signalled but what was sent.
   */
  lemma DeliveredWasEmitted(aliceId: string, bobId: string, steps: seq<Step>)
    requires AllPossible(NEW_PAIR, aliceId, bobId, steps)
    ensures var q := PairAfter(NEW_PAIR, aliceId, bobId, steps);
            && (forall id :: id in q.alice.outgoing && Acknowledged(q.alice.outgoing[id].state) ==>
                  && AckSent(q.bob.frames, id, q.alice.outgoing[id].state)
                  && (q.alice.outgoing[id].state == Delivered || id !in q.bobEarly ==>
                        Emitted(q.bob.events, q.alice.outgoing[id].message)))
            && (forall id :: id in q.bob.outgoing && Acknowledged(q.bob.outgoing[id].state) ==>
                  && AckSent(q.alice.frames, id, q.bob.outgoing[id].state)
                  && (q.bob.outgoing[id].state == Delivered || id !in q.aliceEarly ==>
                        Emitted(q.alice.events, q.bob.outgoing[id].message)))
            && (forall e :: e in q.bob.events && e.MessageReceived? ==>
                  e.message.messageId in q.alice.outgoing
                  && q.alice.outgoing[e.message.messageId].message == e.message)
  {
    hide PairAfter, AllPossible, Emitted, EmittedId, AckSent;
    RunKeepsLinks(NEW_PAIR, aliceId, bobId, steps);
  }

  /**
   A read receipt is for a message that was signalled if and only if the id was signalled before the
   receipt was sent: in every state that a run reaches, whoever sends it and receives it.
   */
  lemma ReceiptIff(x: Chat, y: Chat, early: set<string>, xId: string, yId: string, id: string, now: int, later: int)
    requires Linked(x, y, early) && id in x.outgoing && id != ""
    ensures var y' := Act(y, yId, Receipt(id, now));
            var f := AckFrame(MessageAck(id, "read", now));
            var x' := Act(x, xId, Arrive(f, now, later));
            && f in y'.frames && id in x'.outgoing && x'.outgoing[id].state == Read
            && (Emitted(y'.events, x'.outgoing[id].message) <==> EmittedId(y.events, id))
  {
    hide Linked, EmittedId, Emitted;
    EmittedIffId(x, y, early, id);
  }

  /** The receipt that comes first: the sender tracks a message as read that was never signalled. */
  lemma EarlyReceipt(aliceId: string, bobId: string, content: seq<byte>, id: string, now: int)
    requires id != "" && bobId != "" && |content| <= MAX_CHAT_MESSAGE_CONTENT_SIZE
    ensures var ack := AckFrame(MessageAck(id, "read", now));
            var steps := [ByAlice(Send(bobId, content, id, now, true, true)), ByBob(Receipt(id, now)),
                          ByAlice(Arrive(ack, now, now))];
            var q := PairAfter(NEW_PAIR, aliceId, bobId, steps);
            && AllPossible(NEW_PAIR, aliceId, bobId, steps)
            && id in q.alice.outgoing && q.alice.outgoing[id].state == Read && q.bob.events == [] && q.bobEarly == {id}
  {
    var ack := AckFrame(MessageAck(id, "read", now));
    var steps := [ByAlice(Send(bobId, content, id, now, true, true)), ByBob(Receipt(id, now)),
                  ByAlice(Arrive(ack, now, now))];
    var p1 := Stepped(NEW_PAIR, aliceId, bobId, steps[0]);
    var p2 := Stepped(p1, aliceId, bobId, steps[1]);
    var p3 := Stepped(p2, aliceId, bobId, steps[2]);
    assert p2.bob.frames == [ack];
    assert steps[1..] == [steps[1], steps[2]] && steps[1..][1..] == [steps[2]] && steps[1..][1..][1..] == [];
    assert PairAfter(p2, aliceId, bobId, [steps[2]]) == p3 && AllPossible(p2, aliceId, bobId, [steps[2]]);
    assert PairAfter(p1, aliceId, bobId, steps[1..]) == p3 && AllPossible(p1, aliceId, bobId, steps[1..]);
  }
}
