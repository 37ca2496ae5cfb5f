/**
 A file on its way through the bytes: the messages of a streaming transfer as frames, the frames over
 a connection whose writes and reads are cut anywhere, and the receiver that is fed what comes out.
 How records are written as text is a parameter.
 */
module TransferChannel {
  import opened Bytes
  import opened Wrappers
  import opened FileNames
  import opened FileTransfer
  import opened TransferDisk
  import opened TransferSafety
  import opened TransferCompletion
  import opened Framing
  import ChunkCodec = FileChunk
  import Channel
  import P2PSocket
  import StreamDecoder

  const FILE_OFFER: uint16 := 0x10
  const FILE_ACCEPT: uint16 := 0x11
  const FILE_REJECT: uint16 := 0x12
  const FILE_CHUNK: uint16 := 0x13
  const FILE_COMPLETE: uint16 := 0x14
  const FILE_CANCEL: uint16 := 0x15

  /** Records and ids as bytes, and back. */
  datatype Codec = Codec(
    encode: Message -> seq<byte>, decode: (uint16, seq<byte>) -> Option<Message>,
    utf8: string -> seq<byte>, text: seq<byte> -> string)

  // ---------------------------------------------------------------------
  // Messages and frames
  // ---------------------------------------------------------------------

  function TypeOf(m: Message): uint16 {
    match m
    case FileOffer(_, _, _, _, _, _) => FILE_OFFER
    case FileAccept(_) => FILE_ACCEPT
    case FileReject(_, _) => FILE_REJECT
    case FileChunk(_, _, _) => FILE_CHUNK
    case FileComplete(_, _) => FILE_COMPLETE
    case FileCancel(_, _) => FILE_CANCEL
  }

  /** A chunk travels in its binary form, every other message as a record. */
  function FrameOf(c: Codec, m: Message): Frame {
    Frame(TypeOf(m),
          if m.FileChunk? then ChunkCodec.EncodeChunk(c.utf8(m.tid), m.index % TWO_32, m.data) else c.encode(m))
  }

  predicate IsTransfer(f: Frame) {
    FILE_OFFER <= f.frameType <= FILE_CANCEL
  }

  /** What the receiving controller makes of a frame; frames of other types are not for it. */
  function MessageOf(c: Codec, f: Frame): Option<Message> {
    if !IsTransfer(f) then None
    else if f.frameType != FILE_CHUNK then c.decode(f.frameType, f.payload)
    else
      match ChunkCodec.DecodeChunk(f.payload)
      case None => None
      case Some(chunk) => Some(FileChunk(c.text(chunk.transferId), chunk.index, chunk.data))
  }

  function FramesOf(c: Codec, ms: seq<Message>): seq<Frame> {
    if ms == [] then [] else [FrameOf(c, ms[0])] + FramesOf(c, ms[1..])
  }

  function MessagesOf(c: Codec, fs: seq<Frame>): seq<Message> {
    if fs == [] then []
    else
      var m := MessageOf(c, fs[0]);
      (if m.Some? then [m.value] else []) + MessagesOf(c, fs[1..])
  }

  /** The frames of transfers among those of chats and heartbeats. */
  function TransferFrames(fs: seq<Frame>): seq<Frame> {
    if fs == [] then [] else (if IsTransfer(fs[0]) then [fs[0]] else []) + TransferFrames(fs[1..])
  }

  lemma {:induction false} OnlyTransferFrames(c: Codec, fs: seq<Frame>)
    ensures MessagesOf(c, fs) == MessagesOf(c, TransferFrames(fs))
  {
    hide MessageOf;
    if fs != [] {
      OnlyTransferFrames(c, fs[1..]);
      if IsTransfer(fs[0]) {
        assert TransferFrames(fs)[1..] == TransferFrames(fs[1..]);
      } else {
        OtherFrame(c, fs[0]);
        assert TransferFrames(fs) == TransferFrames(fs[1..]);
      }
    }
  }

  lemma OtherFrame(c: Codec, f: Frame)
    requires !IsTransfer(f)
    ensures MessageOf(c, f) == None
  {
  }

  lemma {:induction false} MessagesOfPrefix(c: Codec, fs: seq<Frame>, gs: seq<Frame>)
    requires fs <= gs
    ensures MessagesOf(c, fs) <= MessagesOf(c, gs)
  {
    hide MessageOf;
    if fs != [] {
      assert fs[0] == gs[0] && fs[1..] <= gs[1..];
      MessagesOfPrefix(c, fs[1..], gs[1..]);
    }
  }

  /** The message comes back from its frame, and the frame fits the channel. */
  predicate Carried(c: Codec, m: Message) {
    MessageOf(c, FrameOf(c, m)) == Some(m) && StreamDecoder.Fits(FrameOf(c, m), StreamDecoder.MAX_FRAME_PAYLOAD_SIZE)
  }

  lemma {:induction false} FramesCarry(c: Codec, ms: seq<Message>)
    requires forall m :: m in ms ==> Carried(c, m)
    ensures MessagesOf(c, FramesOf(c, ms)) == ms
    ensures forall f :: f in FramesOf(c, ms) ==> StreamDecoder.Fits(f, StreamDecoder.MAX_FRAME_PAYLOAD_SIZE)
  {
    hide MessageOf, FrameOf;
    if ms != [] {
      assert Carried(c, ms[0]);
      FramesCarry(c, ms[1..]);
      assert FramesOf(c, ms)[1..] == FramesOf(c, ms[1..]);
    }
  }

  /** What the records and the id of one transfer need of the text encodings. */
  predicate Faithful(c: Codec, tid: string, sha256: string) {
    var m := FileComplete(tid, sha256);
    && c.text(c.utf8(tid)) == tid && ChunkCodec.StableId(c.utf8(tid))
    && c.decode(FILE_COMPLETE, c.encode(m)) == Some(m)
    && |c.encode(m)| <= StreamDecoder.MAX_FRAME_PAYLOAD_SIZE
  }

  lemma ChunkCarried(c: Codec, tid: string, sha256: string, source: Data, k: nat)
    requires Faithful(c, tid, sha256) && Countable(source) && k < ChunkCount(source)
    ensures Carried(c, FileChunk(tid, k, ChunkOf(source, k)))
  {
    hide ChunkCodec.EncodeChunk, ChunkCodec.DecodeChunk, ChunkOf, Upto;
    CountIsCeiling(source, k);
    NextChunk(source, k);
    UptoStep(source, k);
    ChunkCodec.ChunkRoundTrip(c.utf8(tid), k, ChunkOf(source, k));
  }

  lemma UptoStep(source: Data, k: nat)
    ensures Upto(source, k + 1) - Upto(source, k) <= CHUNK
  {
  }

  /** Everything that the sender streams is carried. */
  lemma ScriptCarried(c: Codec, tid: string, source: Data, hash: Data -> string, m: Message)
    requires Faithful(c, tid, hash(source)) && Countable(source) && m in Script(tid, source, hash)
    ensures Carried(c, m)
  {
    hide ChunkOf, ChunkCodec.EncodeChunk, ChunkCodec.DecodeChunk;
    var n := ChunkCount(source);
    if m in Chunks(tid, source, 0, n) {
      var k := ChunkAt(tid, source, 0, n, m);
      ChunkCarried(c, tid, hash(source), source, k);
    } else {
      assert m == FileComplete(tid, hash(source));
    }
  }

  lemma {:induction false} ChunkAt(tid: string, source: Data, first: nat, last: nat, m: Message) returns (k: nat)
    requires first <= last && m in Chunks(tid, source, first, last)
    ensures first <= k < last && m == FileChunk(tid, k, ChunkOf(source, k))
    decreases last - first
  {
    hide ChunkOf;
    if m == FileChunk(tid, first, ChunkOf(source, first)) {
      k := first;
    } else {
      k := ChunkAt(tid, source, first + 1, last, m);
    }
  }

  // ---------------------------------------------------------------------
  // Sender and receiver on their own
  // ---------------------------------------------------------------------

  /** The sender after `k` timers, with everything it sent still in flight. */
  function Streamed(p: Pipe, k: nat, tid: string, hash: Data -> string): Pipe {
    if k == 0 then p else Advance(Streamed(p, k - 1, tid, hash), TimerFires, tid, hash)
  }

  /** A receiver that takes one message after another. */
  function Fed(b: Node, ms: seq<Message>, hash: Data -> string): Node
    decreases |ms|
  {
    if ms == [] then b else Fed(OnMessage(b, ms[0], GOOD, hash).node, ms[1..], hash)
  }

  lemma {:induction false} StreamedInv(p: Pipe, k: nat, tid: string, final: Path, source: Data, hash: Data -> string)
    requires PipeInv(p, tid, final, source, hash) && Countable(source) && tid != "" && hash(source) != ""
    requires p.wire == p.log
    ensures var q := Streamed(p, k, tid, hash);
            PipeInv(q, tid, final, source, hash) && q.b == p.b && q.wire == q.log
  {
    hide PipeInv, OnTimer;
    if k > 0 {
      StreamedInv(p, k - 1, tid, final, source, hash);
      TickProgresses(Streamed(p, k - 1, tid, hash), TimerFires, tid, final, source, hash);
    }
  }

  lemma {:induction false} FedInv(p: Pipe, m: nat, tid: string, final: Path, source: Data, hash: Data -> string)
    requires PipeInv(p, tid, final, source, hash) && Countable(source) && tid != "" && hash(source) != ""
    requires m <= |p.wire|
    ensures PipeInv(p.(b := Fed(p.b, p.wire[..m], hash), wire := p.wire[m..]), tid, final, source, hash)
    decreases m
  {
    hide PipeInv, OnMessage;
    if m == 0 {
      assert p.wire[0..] == p.wire;
    } else {
      var next := Advance(p, MessageArrives, tid, hash);
      TickProgresses(p, MessageArrives, tid, final, source, hash);
      FedInv(next, m - 1, tid, final, source, hash);
      assert p.wire[..m][1..] == next.wire[..m - 1] && next.wire[m - 1..] == p.wire[m..];
    }
  }

  // ---------------------------------------------------------------------
  // Through the channel
  // ---------------------------------------------------------------------

  lemma StartedInFlight(a: Node, b: Node, tid: string, path: Path, dir: string, hash: Data -> string)
    requires path in a.disk && hash(a.disk[path]) != "" && tid != ""
    ensures Started(a, b, tid, path, dir, hash).wire == Started(a, b, tid, path, dir, hash).log
  {
    hide SanitizeFileName, SendFile, OnFileOffer, AcceptTransfer, OnFileAccept;
  }

  /** Everything streamed so far comes back from its frames. */
  lemma LogCarried(p: Pipe, codec: Codec, tid: string, final: Path, source: Data, hash: Data -> string)
    requires PipeInv(p, tid, final, source, hash) && Countable(source) && Faithful(codec, tid, hash(source))
    ensures MessagesOf(codec, FramesOf(codec, p.log)) == p.log
  {
    hide Carried, SenderSession, ReceiverInv, Chunks;
    LogIsPrefix(tid, source, p.a.sessions[tid].currentChunkIndex, p.a.sessions[tid].state == Completed, hash);
    forall m | m in p.log
      ensures Carried(codec, m)
    {
      assert m in Script(tid, source, hash);
      ScriptCarried(codec, tid, source, hash, m);
    }
    FramesCarry(codec, p.log);
  }

  lemma FedResult(p: Pipe, tid: string, final: Path, source: Data, hash: Data -> string)
    requires PipeInv(p, tid, final, source, hash)
    ensures tid in p.b.sessions && p.b.sessions[tid].hashed <= source
    ensures tid !in p.a.timers && p.wire == [] ==> Delivered(p, tid, final, source)
  {
  }

  /** In that run of the channel, the frames of transfers that are accepted are these. */
  predicate Carries(events: seq<Channel.Event>, frames: seq<Frame>) {
    && (forall e :: e in events ==> Channel.Allowed(e))
    && TransferFrames(Channel.Run(events).accepted) == frames
  }

  /** There is such a run for all frames that fit: the socket takes each of them whole. */
  lemma {:induction false} SomeRunCarries(frames: seq<Frame>) returns (events: seq<Channel.Event>)
    requires forall f :: f in frames ==> IsTransfer(f) && StreamDecoder.Fits(f, StreamDecoder.MAX_FRAME_PAYLOAD_SIZE)
    ensures Carries(events, frames) && Channel.Run(events).accepted == frames && Channel.Run(events).queue == []
  {
    hide Encode, TransferFrames, IsTransfer;
    AllTransfers(frames);
    if frames == [] {
      events := [];
    } else {
      var before, f := frames[..|frames| - 1], frames[|frames| - 1];
      var sent := SomeRunCarries(before);
      events := sent + [Channel.Send(f, |Encode(f)|)];
      SendAccepted(sent, f);
      assert frames == before + [f];
    }
  }

  lemma SendAccepted(sent: seq<Channel.Event>, f: Frame)
    requires Channel.Run(sent).queue == [] && StreamDecoder.Fits(f, StreamDecoder.MAX_FRAME_PAYLOAD_SIZE)
    ensures var c := Channel.Run(sent + [Channel.Send(f, |Encode(f)|)]);
            c.queue == [] && c.accepted == Channel.Run(sent).accepted + [f]
  {
    hide Encode, P2PSocket.Flushed;
    var events := sent + [Channel.Send(f, |Encode(f)|)];
    assert events[..|events| - 1] == sent && [] + [Encode(f)] == [Encode(f)];
    OneQueued(f);
  }

  /** A packet that is alone in the queue is accepted and leaves it when the socket has room for it. */
  lemma OneQueued(f: Frame)
    requires StreamDecoder.Fits(f, StreamDecoder.MAX_FRAME_PAYLOAD_SIZE)
    ensures |Flat([])| + |Encode(f)| <= P2PSocket.MAX_OUTGOING_QUEUE_SIZE
    ensures P2PSocket.Flushed([Encode(f)], |Encode(f)|).queue == []
  {
    hide Encode;
    assert [Encode(f)][1..] == [];
  }

  lemma {:induction false} AllTransfers(frames: seq<Frame>)
    requires forall f :: f in frames ==> IsTransfer(f)
    ensures TransferFrames(frames) == frames
  {
    if frames != [] {
      AllTransfers(frames[1..]);
    }
  }

  /**
   From disk to disk: a sender streams an accepted file, its messages are framed and queued, among frames
   of other kinds; the socket takes and reads return whatever they like; the receiver is fed the messages
   that its decoder finds. What it has received is at any time a prefix of the source, and once sender,
   queue and wire are drained the file at the final path is the source.
   */
  lemma FileCrossesChannel(
    a: Node, b: Node, tid: string, path: Path, dir: string, hash: Data -> string,
    codec: Codec, k: nat, events: seq<Channel.Event>)
    requires path in a.disk && hash(a.disk[path]) != "" && Countable(a.disk[path])
    requires tid != "" && tid !in a.sessions && tid !in a.timers && tid !in b.sessions
    requires SanitizeFileName(path.name) != TEMP_PREFIX + tid
    requires Faithful(codec, tid, hash(a.disk[path]))
    ensures var source, final := a.disk[path], Path(dir, SanitizeFileName(path.name));
            var p, c := Streamed(Started(a, b, tid, path, dir, hash), k, tid, hash), Channel.Run(events);
            var b' := Fed(p.b, MessagesOf(codec, c.emitted), hash);
            Carries(events, FramesOf(codec, p.log)) ==>
            && tid in b'.sessions && b'.sessions[tid].hashed <= source
            && (tid !in p.a.timers && Flat(c.queue) == [] && c.wire == [] ==>
                  && b'.sessions[tid].state == Completed
                  && final in b'.disk && b'.disk[final] == source)
  {
    hide SanitizeFileName, Started, Streamed, MessagesOf, FramesOf, TransferFrames, Channel.Run, PipeInv, Flat, Faithful;
    var source, final := a.disk[path], Path(dir, SanitizeFileName(path.name));
    StartedHoldsInv(a, b, tid, path, dir, hash);
    StartedInFlight(a, b, tid, path, dir, hash);
    StreamedInv(Started(a, b, tid, path, dir, hash), k, tid, final, source, hash);
    var p, c := Streamed(Started(a, b, tid, path, dir, hash), k, tid, hash), Channel.Run(events);
    if Carries(events, FramesOf(codec, p.log)) {
      Channel.InOrderDelivery(events);
      MessagesOfPrefix(codec, c.emitted, c.accepted);
      OnlyTransferFrames(codec, c.accepted);
      LogCarried(p, codec, tid, final, source, hash);
      PrefixFed(p, MessagesOf(codec, c.emitted), tid, final, source, hash);
    }
  }

  /** A receiver that is fed a prefix of what was sent has a prefix of the source; fed all of it, the file. */
  lemma PrefixFed(p: Pipe, received: seq<Message>, tid: string, final: Path, source: Data, hash: Data -> string)
    requires PipeInv(p, tid, final, source, hash) && Countable(source) && tid != "" && hash(source) != ""
    requires received <= p.wire
    ensures var b' := Fed(p.b, received, hash);
            && tid in b'.sessions && b'.sessions[tid].hashed <= source
            && (tid !in p.a.timers && received == p.wire ==>
                  b'.sessions[tid].state == Completed && final in b'.disk && b'.disk[final] == source)
  {
    hide PipeInv, Fed;
    FedInv(p, |received|, tid, final, source, hash);
    assert p.wire[..|received|] == received;
    FedResult(p.(b := Fed(p.b, received, hash), wire := p.wire[|received|..]), tid, final, source, hash);
  }

  // ---------------------------------------------------------------------
  // With frames dropped
  // ---------------------------------------------------------------------

  /** In that run of the channel, no other transfer frames are accepted than these; any may be missing. */
  predicate CarriesSome(events: seq<Channel.Event>, frames: seq<Frame>) {
    && (forall e :: e in events ==> Channel.Allowed(e))
    && (forall f :: f in Channel.Run(events).accepted && IsTransfer(f) ==> f in frames)
  }

  lemma {:induction false} MessageIsFrom(c: Codec, fs: seq<Frame>, m: Message) returns (f: Frame)
    requires m in MessagesOf(c, fs)
    ensures f in fs && MessageOf(c, f) == Some(m)
  {
    hide MessageOf;
    if MessageOf(c, fs[0]) == Some(m) {
      f := fs[0];
    } else {
      f := MessageIsFrom(c, fs[1..], m);
    }
  }

  lemma {:induction false} FrameIsFrom(c: Codec, ms: seq<Message>, f: Frame) returns (m: Message)
    requires f in FramesOf(c, ms)
    ensures m in ms && f == FrameOf(c, m)
  {
    hide FrameOf;
    if f == FrameOf(c, ms[0]) {
      m := ms[0];
    } else {
      m := FrameIsFrom(c, ms[1..], f);
    }
  }

  /** A receiver that is fed messages of the script, whichever and in whatever order, stays within the source. */
  lemma {:induction false} FedIsSafe(b: Node, ms: seq<Message>, tid: string, source: Data, hash: Data -> string)
    requires Countable(source) && IsIncoming(b, tid) && ReceiverSession(b.sessions[tid], source, hash)
    requires forall m :: m in ms ==> m in Script(tid, source, hash)
    ensures var b' := Fed(b, ms, hash);
            IsIncoming(b', tid) && ReceiverSession(b'.sessions[tid], source, hash)
    decreases |ms|
  {
    hide ReceiverSession, OnMessage, Script;
    if ms != [] {
      assert ms[0] in Script(tid, source, hash);
      ScriptIsHonest(tid, source, hash, ms[0]);
      ReceiverMessage(b, ms[0], GOOD, map[tid := source], hash);
      StaysIncoming(b, ms[0], tid, hash);
      FedIsSafe(OnMessage(b, ms[0], GOOD, hash).node, ms[1..], tid, source, hash);
    }
  }

  lemma ScriptIsHonest(tid: string, source: Data, hash: Data -> string, m: Message)
    requires m in Script(tid, source, hash) && Countable(source)
    ensures m.tid == tid && (m.FileChunk? || m.FileComplete?) && Honest(m, map[tid := source], hash)
  {
    hide ChunkOf;
    if m in Chunks(tid, source, 0, ChunkCount(source)) {
      var k := ChunkAt(tid, source, 0, ChunkCount(source), m);
      CountIsCeiling(source, k);
    } else {
      assert m == FileComplete(tid, hash(source));
    }
  }

  lemma StaysIncoming(b: Node, m: Message, tid: string, hash: Data -> string)
    requires IsIncoming(b, tid) && (m.FileChunk? || m.FileComplete?)
    ensures IsIncoming(OnMessage(b, m, GOOD, hash).node, tid)
  {
    hide Lower;
  }

  /**
   The same way with a queue that refuses frames, as the sender does not look at what becomes of them:
   what is received is at any time a prefix of the source, and a transfer that completes has received a
   content with the hash of the source.
   */
  lemma DroppedFramesAreSafe(
    a: Node, b: Node, tid: string, path: Path, dir: string, hash: Data -> string,
    codec: Codec, k: nat, events: seq<Channel.Event>)
    requires path in a.disk && hash(a.disk[path]) != "" && Countable(a.disk[path])
    requires tid != "" && tid !in a.sessions && tid !in a.timers && tid !in b.sessions
    requires SanitizeFileName(path.name) != TEMP_PREFIX + tid
    requires Faithful(codec, tid, hash(a.disk[path]))
    ensures var source := a.disk[path];
            var p, c := Streamed(Started(a, b, tid, path, dir, hash), k, tid, hash), Channel.Run(events);
            var b' := Fed(p.b, MessagesOf(codec, c.emitted), hash);
            CarriesSome(events, FramesOf(codec, p.log)) ==>
            && tid in b'.sessions && b'.sessions[tid].hashed <= source
            && (b'.sessions[tid].state == Completed ==> Lower(hash(b'.sessions[tid].hashed)) == Lower(hash(source)))
            && (b'.sessions[tid].state == Completed && NoCollision(source, hash) ==> b'.sessions[tid].hashed == source)
  {
    hide SanitizeFileName, Started, Streamed, MessagesOf, FramesOf, Channel.Run, PipeInv, Flat, Faithful, Fed, ReceiverSession;
    var source, final := a.disk[path], Path(dir, SanitizeFileName(path.name));
    StartedHoldsInv(a, b, tid, path, dir, hash);
    StartedInFlight(a, b, tid, path, dir, hash);
    StreamedInv(Started(a, b, tid, path, dir, hash), k, tid, final, source, hash);
    var p, c := Streamed(Started(a, b, tid, path, dir, hash), k, tid, hash), Channel.Run(events);
    if CarriesSome(events, FramesOf(codec, p.log)) {
      Channel.InOrderDelivery(events);
      var received := MessagesOf(codec, c.emitted);
      forall m | m in received
        ensures m in Script(tid, source, hash)
      {
        EmittedIsScript(p, codec, c.emitted, tid, final, source, hash, m);
      }
      ReceiverIsSafe(p, tid, final, source, hash);
      FedIsSafe(p.b, received, tid, source, hash);
      PrefixReceived(Fed(p.b, received, hash).sessions[tid], source, hash);
    }
  }

  lemma EmittedIsScript(
    p: Pipe, codec: Codec, emitted: seq<Frame>, tid: string, final: Path, source: Data, hash: Data -> string, m: Message)
    requires PipeInv(p, tid, final, source, hash) && Countable(source) && Faithful(codec, tid, hash(source))
    requires forall f :: f in emitted && IsTransfer(f) ==> f in FramesOf(codec, p.log)
    requires m in MessagesOf(codec, emitted)
    ensures m in Script(tid, source, hash)
  {
    hide FramesOf, MessagesOf, FrameOf, SenderSession, ReceiverInv, Chunks;
    var f := MessageIsFrom(codec, emitted, m);
    if !IsTransfer(f) {
      OtherFrame(codec, f);
    }
    var sent := FrameIsFrom(codec, p.log, f);
    LogIsPrefix(tid, source, p.a.sessions[tid].currentChunkIndex, p.a.sessions[tid].state == Completed, hash);
    assert sent in Script(tid, source, hash);
    ScriptCarried(codec, tid, source, hash, sent);
  }

  lemma ReceiverIsSafe(p: Pipe, tid: string, final: Path, source: Data, hash: Data -> string)
    requires PipeInv(p, tid, final, source, hash)
    ensures IsIncoming(p.b, tid) && ReceiverSession(p.b.sessions[tid], source, hash)
  {
  }
}
