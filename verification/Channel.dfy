/**
 One connection seen from both ends: the sender's queue, the bytes in flight, and
 the receiver's decoder. Writes take as much as the operating system allows, and
 reads cut the stream anywhere.
 */
module Channel {
  import opened Bytes
  import opened Framing
  import opened StreamDecoder
  import opened P2PSocket

  datatype Channel = Channel(
    accepted: seq<Frame>,    // frames the sender took into its queue
    queue: seq<seq<byte>>,
    wire: seq<byte>,         // written and not yet read
    buffer: seq<byte>,       // read and not yet decoded
    emitted: seq<Frame>,     // frames the receiver signalled
    error: StreamError)      // the last error the receiver signalled

  const OPEN := Channel([], [], [], [], [], NoError)

  /** `room` is what the socket takes during the event, `n` how much of the wire a read returns. */
  datatype Event = Send(frame: Frame, room: nat) | BytesWritten(room: nat) | Read(n: nat)

  function Step(c: Channel, e: Event): Channel {
    match e
    case Send(frame, room) =>
      if |Flat(c.queue)| + |Encode(frame)| > MAX_OUTGOING_QUEUE_SIZE then c
      else
        var f := Flushed(c.queue + [Encode(frame)], room);
        c.(accepted := c.accepted + [frame], queue := f.queue, wire := c.wire + f.written)
    case BytesWritten(room) =>
      var f := Flushed(c.queue, room);
      c.(queue := f.queue, wire := c.wire + f.written)
    case Read(n) =>
      var k := if n < |c.wire| then n else |c.wire|;
      var s := Received(c.buffer + c.wire[..k], MAX_FRAME_PAYLOAD_SIZE);
      c.(wire := c.wire[k..], buffer := s.rest, emitted := c.emitted + s.frames, error := Later(c.error, s.error))
  }

  function Run(events: seq<Event>): Channel {
    if events == [] then OPEN else Step(Run(events[..|events| - 1]), events[|events| - 1])
  }

  /** Reads that cannot push a partial packet over the growth guard. */
  const MAX_READ: nat := MAX_RECEIVE_BUFFER_SIZE - MAX_FRAME_PAYLOAD_SIZE - 11

  predicate Allowed(e: Event) {
    match e
    case Send(frame, _) => Fits(frame, MAX_FRAME_PAYLOAD_SIZE)
    case BytesWritten(_) => true
    case Read(n) => n <= MAX_READ
  }

  /** No byte is lost or reordered, and the decoder holds less than one packet. */
  ghost predicate Inv(c: Channel) {
    && AllFit(c.accepted, MAX_FRAME_PAYLOAD_SIZE)
    && c.emitted <= c.accepted
    && Stream(c.accepted[|c.emitted|..]) == c.buffer + c.wire + Flat(c.queue)
    && (c.buffer != [] ==> |c.emitted| < |c.accepted| && |c.buffer| < |Encode(c.accepted[|c.emitted|])|)
    && c.error == NoError
  }

  lemma StepKeepsInv(c: Channel, e: Event)
    requires Inv(c) && Allowed(e)
    ensures Inv(Step(c, e))
  {
    hide Encode, Received, Flushed, Stream, Flat;
    match e
    case Send(frame, room) => SendKeepsInv(c, frame, room);
    case BytesWritten(room) => FlushConserves(c.queue, room);
    case Read(n) => ReadKeepsInv(c, n);
  }

  lemma StreamSnoc(left: seq<Frame>, frame: Frame)
    ensures Stream(left + [frame]) == Stream(left) + Encode(frame)
  {
    hide Encode;
    StreamAppend(left, [frame]);
    assert [frame][1..] == [] && Encode(frame) + [] == Encode(frame);
  }

  /** What is queued behind buffer and wire, and then partly written, stays in order. */
  lemma QueuedBehind(buffer: seq<byte>, wire: seq<byte>, queue: seq<seq<byte>>, packet: seq<byte>, room: nat)
    ensures var f := Flushed(queue + [packet], room);
            buffer + (wire + f.written) + Flat(f.queue) == buffer + wire + Flat(queue) + packet
  {
    hide Flushed, Flat;
    FlushConserves(queue + [packet], room);
    FlatAppend(queue, packet);
    var f := Flushed(queue + [packet], room);
    assert buffer + (wire + f.written) + Flat(f.queue) == buffer + wire + (f.written + Flat(f.queue));
    assert buffer + wire + (Flat(queue) + packet) == buffer + wire + Flat(queue) + packet;
  }

  lemma SendKeepsInv(c: Channel, frame: Frame, room: nat)
    requires Inv(c) && Fits(frame, MAX_FRAME_PAYLOAD_SIZE)
    ensures Inv(Step(c, Send(frame, room)))
  {
    hide Encode, Flushed, Flat, Stream;
    var left := c.accepted[|c.emitted|..];
    StreamSnoc(left, frame);
    QueuedBehind(c.buffer, c.wire, c.queue, Encode(frame), room);
    assert (c.accepted + [frame])[|c.emitted|..] == left + [frame];
  }

  lemma CancelPrefix(prefix: seq<byte>, a: seq<byte>, b: seq<byte>)
    requires prefix + a == prefix + b
    ensures a == b
  {
    assert a == (prefix + a)[|prefix|..] && b == (prefix + b)[|prefix|..];
  }

  /** What is left of a stream once `m` frames and `rest` have been taken off its front. */
  lemma StreamLeft(left: seq<Frame>, m: nat, bytes: seq<byte>, rest: seq<byte>, tail: seq<byte>)
    requires m <= |left| && Stream(left) == bytes + tail && bytes == Stream(left[..m]) + rest
    ensures Stream(left[m..]) == rest + tail
  {
    hide Stream;
    assert left == left[..m] + left[m..];
    StreamAppend(left[..m], left[m..]);
    assert bytes + tail == Stream(left[..m]) + (rest + tail);
    CancelPrefix(Stream(left[..m]), Stream(left[m..]), rest + tail);
  }

  /** A partial packet and a read within the bound stay below the growth guard. */
  lemma ReadIsGuarded(c: Channel, n: nat)
    requires Inv(c) && n <= MAX_READ
    ensures |c.buffer| + n <= MAX_RECEIVE_BUFFER_SIZE
  {
    hide Stream, Flat;
    if c.buffer != [] {
      assert Fits(c.accepted[|c.emitted|], MAX_FRAME_PAYLOAD_SIZE);
    }
  }

  /** A read is decoded to the frames that buffer and read hold whole. */
  lemma ReadScans(c: Channel, k: nat)
    requires Inv(c) && k <= |c.wire| && k <= MAX_READ
    ensures var left, s := c.accepted[|c.emitted|..], Received(c.buffer + c.wire[..k], MAX_FRAME_PAYLOAD_SIZE);
            && |s.frames| <= |left| && s.frames == left[..|s.frames|] && s.error == NoError
            && CutAt(left, c.buffer + c.wire[..k], |s.frames|, s.rest)
            && Stream(left[|s.frames|..]) == s.rest + (c.wire[k..] + Flat(c.queue))
  {
    hide Encode, Scanned, Stream, Flat;
    var bytes, left := c.buffer + c.wire[..k], c.accepted[|c.emitted|..];
    var tail := c.wire[k..] + Flat(c.queue);
    assert Stream(left) == bytes + tail;
    ScannedPrefix(left, bytes, MAX_FRAME_PAYLOAD_SIZE);
    ReadIsGuarded(c, k);
    var s := Scanned(bytes, MAX_FRAME_PAYLOAD_SIZE);
    StreamLeft(left, |s.frames|, bytes, s.rest, tail);
  }

  lemma ReadKeepsInv(c: Channel, n: nat)
    requires Inv(c) && n <= MAX_READ
    ensures Inv(Step(c, Read(n)))
  {
    hide Encode, Received, Stream, Flat, Flushed, AllFit;
    var k := if n < |c.wire| then n else |c.wire|;
    ReadScans(c, k);
    var left, c' := c.accepted[|c.emitted|..], Step(c, Read(n));
    var m := |c'.emitted| - |c.emitted|;
    assert c.accepted == c.emitted + left && left == left[..m] + left[m..];
    assert c.accepted[|c'.emitted|..] == left[m..];
    assert c'.buffer + c'.wire + Flat(c'.queue) == c'.buffer + (c'.wire + Flat(c.queue));
  }

  lemma {:induction false} RunKeepsInv(events: seq<Event>)
    requires forall e :: e in events ==> Allowed(e)
    ensures Inv(Run(events))
  {
    if events != [] {
      RunKeepsInv(events[..|events| - 1]);
      StepKeepsInv(Run(events[..|events| - 1]), events[|events| - 1]);
    }
  }

  /**
   The channel theorem: in every run, whatever the socket takes and however reads
   cut the stream, the receiver has signalled a prefix of the accepted frames and
   no error; once queue and wire are drained, all of them.
   */
  lemma InOrderDelivery(events: seq<Event>)
    requires forall e :: e in events ==> Allowed(e)
    ensures var c := Run(events);
            && c.emitted <= c.accepted && c.error == NoError
            && (Flat(c.queue) == [] && c.wire == [] ==> c.emitted == c.accepted && c.buffer == [])
  {
    hide Encode, Flat;
    RunKeepsInv(events);
    var c := Run(events);
    if |c.emitted| < |c.accepted| {
      var left := c.accepted[|c.emitted|..];
      assert Stream(left) == Encode(left[0]) + Stream(left[1..]);
      assert left[0] == c.accepted[|c.emitted|];
    }
  }

  /**
   The bound on reads is exact: behind a packet of maximal size that lacks only its
   last byte, a read of more than MAX_READ bytes trips the guard and loses the
   packet, a shorter one does not.
   */
  lemma ReadBoundIsExact(frames: seq<Frame>, part: seq<byte>, more: seq<byte>)
    requires frames != [] && AllFit(frames, MAX_FRAME_PAYLOAD_SIZE)
    requires |frames[0].payload| == MAX_FRAME_PAYLOAD_SIZE
    requires |part| == |Encode(frames[0])| - 1 && part + more <= Stream(frames)
    ensures Received(part + more, MAX_FRAME_PAYLOAD_SIZE).cleared <==> |more| > MAX_READ
    ensures |more| > MAX_READ ==> Received(part + more, MAX_FRAME_PAYLOAD_SIZE).frames == []
    ensures 0 < |more| <= MAX_READ ==> Received(part + more, MAX_FRAME_PAYLOAD_SIZE).frames != []
  {
    hide Encode, Scanned;
    ScannedPrefix(frames, part + more, MAX_FRAME_PAYLOAD_SIZE);
    var s := Scanned(part + more, MAX_FRAME_PAYLOAD_SIZE);
    assert Stream(frames[..0]) == [];
  }

  /** With an empty queue a frame is accepted exactly up to 16 MiB, its packet's overhead included. */
  lemma AcceptedIff(c: Channel, frame: Frame, room: nat)
    requires Flat(c.queue) == []
    ensures var c' := Step(c, Send(frame, room));
            && (c'.accepted == c.accepted + [frame] <==> |frame.payload| <= MAX_OUTGOING_QUEUE_SIZE - OVERHEAD)
            && (|frame.payload| > MAX_OUTGOING_QUEUE_SIZE - OVERHEAD ==> c' == c)
  {
    hide Flushed, Flat, Encode;
    assert |c.accepted + [frame]| == |c.accepted| + 1;
  }
}
