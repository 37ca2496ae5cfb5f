/**
 One transfer over a connection that loses nothing, from the offer to the renamed file,
 with timers and deliveries interleaved in any way.
 */
module TransferCompletion {
  import opened FileNames
  import opened FileTransfer
  import opened TransferDisk
  import opened TransferSafety

  /** Sender, receiver, messages in flight, and everything the sender has streamed. */
  datatype Pipe = Pipe(a: Node, b: Node, wire: seq<Message>, log: seq<Message>)

  datatype Tick = TimerFires | MessageArrives

  function Advance(p: Pipe, tick: Tick, tid: string, hash: Data -> string): Pipe {
    match tick
    case TimerFires =>
      var e := OnTimer(p.a, tid, GOOD);
      Pipe(e.node, p.b, p.wire + e.sent, p.log + e.sent)
    case MessageArrives =>
      if p.wire == [] then p
      else p.(b := OnMessage(p.b, p.wire[0], GOOD, hash).node, wire := p.wire[1..])
  }

  predicate Enabled(p: Pipe, tick: Tick, tid: string) {
    match tick
    case TimerFires => tid in p.a.timers
    case MessageArrives => p.wire != []
  }

  /** Offer, acceptance by the user, and the acceptance received. */
  function Started(a: Node, b: Node, tid: string, path: Path, dir: string, hash: Data -> string): Pipe
    requires path in a.disk && hash(a.disk[path]) != "" && tid != ""
  {
    var offered := SendFile(a, tid, path, GOOD, hash);
    var b1 := OnFileOffer(b, offered.sent[0]).node;
    var accepted := AcceptTransfer(b1, tid, dir, GOOD);
    var e := OnFileAccept(offered.node, tid, GOOD);
    Pipe(e.node, accepted.node, e.sent, e.sent)
  }

  // ---------------------------------------------------------------------
  // What the sender should stream
  // ---------------------------------------------------------------------

  function ChunkCount(source: Data): nat {
    (|source| + CHUNK - 1) / CHUNK
  }

  function Chunks(tid: string, source: Data, first: nat, last: nat): (ms: seq<Message>)
    requires first <= last
    ensures |ms| == last - first
    decreases last - first
  {
    if first == last then [] else [FileChunk(tid, first, ChunkOf(source, first))] + Chunks(tid, source, first + 1, last)
  }

  function Closing(tid: string, source: Data, done: bool, hash: Data -> string): seq<Message> {
    if done then [FileComplete(tid, hash(source))] else []
  }

  /** Every chunk once, in order, and one completion. */
  function Script(tid: string, source: Data, hash: Data -> string): seq<Message> {
    Chunks(tid, source, 0, ChunkCount(source)) + Closing(tid, source, true, hash)
  }

  function Payload(ms: seq<Message>): Data {
    if ms == [] then []
    else (if ms[0].FileChunk? then ms[0].data else []) + Payload(ms[1..])
  }

  lemma {:induction false} ChunksSnoc(tid: string, source: Data, first: nat, last: nat)
    requires first <= last
    ensures Chunks(tid, source, first, last + 1) == Chunks(tid, source, first, last) + [FileChunk(tid, last, ChunkOf(source, last))]
    decreases last - first
  {
    if first < last {
      ChunksSnoc(tid, source, first + 1, last);
    }
  }

  lemma {:induction false} PayloadOfChunks(tid: string, source: Data, first: nat, last: nat, tail: seq<Message>)
    requires first <= last && Payload(tail) == []
    ensures Upto(source, first) <= Upto(source, last)
    ensures Payload(Chunks(tid, source, first, last) + tail) == source[Upto(source, first)..Upto(source, last)]
    decreases last - first
  {
    hide ChunkOf, Upto, Payload;
    if first == last {
      assert Chunks(tid, source, first, last) + tail == tail;
    } else {
      var rest := Chunks(tid, source, first + 1, last) + tail;
      ChunkIsSlice(source, first);
      PayloadOfChunks(tid, source, first + 1, last, tail);
      PayloadCons(FileChunk(tid, first, ChunkOf(source, first)), rest);
      assert Chunks(tid, source, first, last) + tail == [FileChunk(tid, first, ChunkOf(source, first))] + rest;
      Slices(source, Upto(source, first), Upto(source, first + 1), Upto(source, last));
    }
  }

  lemma Slices(s: Data, a: nat, b: nat, c: nat)
    requires a <= b <= c <= |s|
    ensures s[a..b] + s[b..c] == s[a..c]
  {
  }

  lemma PayloadCons(m: Message, ms: seq<Message>)
    requires m.FileChunk?
    ensures Payload([m] + ms) == m.data + Payload(ms)
  {
    assert ([m] + ms)[1..] == ms;
  }

  lemma ChunkIsSlice(source: Data, k: nat)
    ensures Upto(source, k) <= Upto(source, k + 1)
    ensures ChunkOf(source, k) == source[Upto(source, k)..Upto(source, k + 1)]
  {
    UptoMonotone(source, k, k + 1);
  }

  lemma UptoMonotone(source: Data, j: nat, k: nat)
    requires j <= k
    ensures Upto(source, j) <= Upto(source, k)
  {
    assert j * CHUNK <= k * CHUNK;
  }

  /** The chunk count is the number of chunks that have a first byte. */
  lemma CountIsCeiling(source: Data, k: nat)
    requires Countable(source)
    ensures k < ChunkCount(source) <==> k * CHUNK < |source|
    ensures ChunkCount(source) <= MAX_CHUNKS && TotalChunks(|source|) == ChunkCount(source)
    ensures k >= ChunkCount(source) ==> Upto(source, k) == |source|
  {
    var n := ChunkCount(source);
    assert n * CHUNK <= |source| + CHUNK - 1 < (n + 1) * CHUNK;
    if k < n {
      assert (k + 1) * CHUNK <= n * CHUNK;
    } else {
      assert n * CHUNK <= k * CHUNK;
    }
  }

  /** The script is what it should be: as many chunks as the offer announced, carrying the file. */
  lemma ScriptCarriesSource(tid: string, source: Data, hash: Data -> string)
    requires Countable(source)
    ensures |Script(tid, source, hash)| == TotalChunks(|source|) + 1
    ensures Payload(Script(tid, source, hash)) == source
  {
    var n := ChunkCount(source);
    CountIsCeiling(source, n);
    if n > 0 {
      CountIsCeiling(source, n - 1);
    }
    var tail := Closing(tid, source, true, hash);
    assert tail[1..] == [];
    PayloadOfChunks(tid, source, 0, n, tail);
  }

  // ---------------------------------------------------------------------
  // The invariant of the streaming phase
  // ---------------------------------------------------------------------

  predicate SenderInv(a: Node, tid: string, source: Data, hash: Data -> string) {
    && tid in a.sessions
    && var s := a.sessions[tid];
    && s.direction == Outgoing && SenderSession(s, source, hash)
    && s.currentChunkIndex <= ChunkCount(source)
    && (if s.state == Completed then s.currentChunkIndex == ChunkCount(source) && s.handle == Closed && a.timers[tid] == 0
        else s.state == Transferring && s.handle.Reading? && a.timers[tid] == 1)
  }

  predicate ReceiverInv(b: Node, tid: string, final: Path, source: Data, hash: Data -> string) {
    && tid in b.sessions
    && var s := b.sessions[tid];
    && s.direction == Incoming && ReceiverSession(s, source, hash)
    && s.currentChunkIndex <= ChunkCount(source)
    && (if s.state == Completed then final in b.disk && b.disk[final] == source
        else && s.state == Transferring && s.handle == Writing && source != []
             && s.finalPath == final && s.tempPath != final && s.tempPath in b.disk && b.disk[s.tempPath] == s.hashed)
  }

  /** The messages in flight are those between the receiver's next chunk and the sender's. */
  predicate PipeInv(p: Pipe, tid: string, final: Path, source: Data, hash: Data -> string) {
    && SenderInv(p.a, tid, source, hash) && ReceiverInv(p.b, tid, final, source, hash)
    && var i, k := p.a.sessions[tid].currentChunkIndex, p.b.sessions[tid].currentChunkIndex;
    && var done := p.a.sessions[tid].state == Completed;
    && p.log == Chunks(tid, source, 0, i) + Closing(tid, source, done, hash)
    && k <= i
    && (p.b.sessions[tid].state == Transferring ==>
          p.wire == Chunks(tid, source, k, i) + Closing(tid, source, done, hash))
    && (p.b.sessions[tid].state == Completed ==>
          if source == [] then p.wire == Closing(tid, source, done, hash) || p.wire == [] else done && p.wire == [])
  }

  /** A sender that is streaming, has read up to a chunk and has no timer pending. */
  predicate AtChunk(n: Node, tid: string, source: Data, hash: Data -> string) {
    && tid in n.sessions
    && var s := n.sessions[tid];
    && s.direction == Outgoing && SenderSession(s, source, hash)
    && s.currentChunkIndex <= ChunkCount(source)
    && s.state == Transferring && s.handle.Reading? && n.timers[tid] == 0
  }

  /** It sends that chunk and asks for the next. */
  lemma SendsChunk(n: Node, tid: string, source: Data, hash: Data -> string)
    requires AtChunk(n, tid, source, hash) && Countable(source)
    requires n.sessions[tid].currentChunkIndex < ChunkCount(source)
    ensures var e, i := SendNextChunk(n, tid, GOOD), n.sessions[tid].currentChunkIndex;
            && SenderInv(e.node, tid, source, hash)
            && e.node.sessions[tid].state == Transferring && e.node.sessions[tid].currentChunkIndex == i + 1
            && e.sent == [FileChunk(tid, i, ChunkOf(source, i))]
  {
    hide ChunkOf, Upto, ReadUpTo;
    var i := n.sessions[tid].currentChunkIndex;
    CountIsCeiling(source, i);
    NextChunk(source, i);
  }

  /** Behind the last chunk it sends the completion. */
  lemma SendsCompletion(n: Node, tid: string, source: Data, hash: Data -> string)
    requires AtChunk(n, tid, source, hash) && Countable(source)
    requires n.sessions[tid].currentChunkIndex == ChunkCount(source)
    ensures var e, i := SendNextChunk(n, tid, GOOD), n.sessions[tid].currentChunkIndex;
            && SenderInv(e.node, tid, source, hash)
            && e.node.sessions[tid].state == Completed && e.node.sessions[tid].currentChunkIndex == i
            && e.sent == [FileComplete(tid, hash(source))]
  {
    hide Upto, ReadUpTo;
    CountIsCeiling(source, n.sessions[tid].currentChunkIndex);
  }

  /** Either way, what it sends continues what it has sent from any chunk on. */
  lemma SendsNext(n: Node, tid: string, source: Data, hash: Data -> string)
    requires AtChunk(n, tid, source, hash) && Countable(source)
    ensures var e, i := SendNextChunk(n, tid, GOOD), n.sessions[tid].currentChunkIndex;
            && SenderInv(e.node, tid, source, hash) && i <= e.node.sessions[tid].currentChunkIndex
            && forall k: nat :: k <= i ==>
                 Chunks(tid, source, k, i) + e.sent ==
                 Chunks(tid, source, k, e.node.sessions[tid].currentChunkIndex)
                 + Closing(tid, source, e.node.sessions[tid].state == Completed, hash)
  {
    hide SenderInv, AtChunk, SendNextChunk, ChunkOf;
    AtMostAll(n, tid, source, hash);
    var i := n.sessions[tid].currentChunkIndex;
    if i < ChunkCount(source) {
      SendsChunk(n, tid, source, hash);
      forall k: nat | k <= i
        ensures Chunks(tid, source, k, i + 1) ==
                Chunks(tid, source, k, i) + [FileChunk(tid, i, ChunkOf(source, i))]
      {
        ChunksSnoc(tid, source, k, i);
      }
    } else {
      SendsCompletion(n, tid, source, hash);
    }
  }

  lemma AtMostAll(n: Node, tid: string, source: Data, hash: Data -> string)
    requires AtChunk(n, tid, source, hash)
    ensures tid in n.sessions && n.sessions[tid].currentChunkIndex <= ChunkCount(source)
  {
  }

  lemma TimerKeepsInv(p: Pipe, tid: string, final: Path, source: Data, hash: Data -> string)
    requires PipeInv(p, tid, final, source, hash) && Countable(source) && tid in p.a.timers
    ensures PipeInv(Advance(p, TimerFires, tid, hash), tid, final, source, hash)
  {
    hide ChunkOf, OnMessage, SendNextChunk, SenderSession, ReceiverSession, Chunks;
    var s, k := p.a.sessions[tid], p.b.sessions[tid].currentChunkIndex;
    var n := p.a.(timers := p.a.timers - multiset{tid});
    assert s.state == Transferring && p.wire + [] == p.wire;
    SendsNext(n, tid, source, hash);
    var e := SendNextChunk(n, tid, GOOD);
    assert p.log + e.sent == Chunks(tid, source, 0, s.currentChunkIndex) + e.sent;
    assert p.b.sessions[tid].state == Transferring ==> p.wire + e.sent == Chunks(tid, source, k, s.currentChunkIndex) + e.sent;
  }

  /** What arrives next, depending on how far the receiver is. */
  lemma WireHead(p: Pipe, tid: string, final: Path, source: Data, hash: Data -> string)
    requires PipeInv(p, tid, final, source, hash) && p.wire != []
    ensures var i, k := p.a.sessions[tid].currentChunkIndex, p.b.sessions[tid].currentChunkIndex;
            if p.b.sessions[tid].state == Transferring && k < i
            then p.wire[0] == FileChunk(tid, k, ChunkOf(source, k))
            else p.wire == [FileComplete(tid, hash(source))] && p.a.sessions[tid].state == Completed
  {
    hide ChunkOf, ReceiverSession, SenderSession;
  }

  lemma ChunkArrives(b: Node, tid: string, k: nat, final: Path, source: Data, hash: Data -> string)
    requires ReceiverInv(b, tid, final, source, hash) && Countable(source) && tid != ""
    requires b.sessions[tid].state == Transferring && b.sessions[tid].currentChunkIndex == k < ChunkCount(source)
    ensures var b' := OnMessage(b, FileChunk(tid, k, ChunkOf(source, k)), GOOD, hash).node;
            && ReceiverInv(b', tid, final, source, hash) && b'.sessions[tid].state == Transferring
            && b'.sessions[tid].currentChunkIndex == k + 1
  {
    hide ChunkOf, Upto, Lower;
    CountIsCeiling(source, k);
    NextChunk(source, k);
  }

  lemma CompletionArrives(b: Node, tid: string, final: Path, source: Data, hash: Data -> string)
    requires ReceiverInv(b, tid, final, source, hash) && Countable(source) && tid != "" && hash(source) != ""
    requires b.sessions[tid].state == Transferring && b.sessions[tid].currentChunkIndex == ChunkCount(source)
    ensures var b' := OnMessage(b, FileComplete(tid, hash(source)), GOOD, hash).node;
            && ReceiverInv(b', tid, final, source, hash) && b'.sessions[tid].state == Completed
            && b'.sessions[tid].currentChunkIndex == ChunkCount(source)
  {
    hide Upto, Lower;
    CountIsCeiling(source, ChunkCount(source));
    assert source[..|source|] == source;
  }

  /** An empty file is complete before its completion arrives. */
  lemma LateCompletion(b: Node, tid: string, final: Path, source: Data, hash: Data -> string)
    requires ReceiverInv(b, tid, final, source, hash) && b.sessions[tid].state == Completed
    ensures OnMessage(b, FileComplete(tid, hash(source)), GOOD, hash).node == b
  {
  }

  lemma ArrivalKeepsInv(p: Pipe, tid: string, final: Path, source: Data, hash: Data -> string)
    requires PipeInv(p, tid, final, source, hash) && Countable(source) && p.wire != []
    requires tid != "" && hash(source) != ""
    ensures PipeInv(Advance(p, MessageArrives, tid, hash), tid, final, source, hash)
  {
    hide OnMessage, OnTimer, ReceiverSession, ChunkOf;
    var s := p.b.sessions[tid];
    var i, k := p.a.sessions[tid].currentChunkIndex, s.currentChunkIndex;
    WireHead(p, tid, final, source, hash);
    if s.state == Completed {
      LateCompletion(p.b, tid, final, source, hash);
    } else if k < i {
      ChunkArrives(p.b, tid, k, final, source, hash);
    } else {
      CompletionArrives(p.b, tid, final, source, hash);
    }
  }

  // ---------------------------------------------------------------------
  // From the offer to the file
  // ---------------------------------------------------------------------

  lemma UptoZero(source: Data)
    ensures Upto(source, 0) == 0 && source[..0] == []
  {
  }

  lemma StartedHoldsInv(a: Node, b: Node, tid: string, path: Path, dir: string, hash: Data -> string)
    requires path in a.disk && hash(a.disk[path]) != "" && Countable(a.disk[path])
    requires tid != "" && tid !in a.sessions && tid !in a.timers && tid !in b.sessions
    requires SanitizeFileName(path.name) != TEMP_PREFIX + tid
    ensures PipeInv(Started(a, b, tid, path, dir, hash), tid, Path(dir, SanitizeFileName(path.name)), a.disk[path], hash)
  {
    hide SendFile, OnFileOffer, AcceptTransfer, OnFileAccept, SenderSession, ReceiverSession, SanitizeFileName;
    SenderStarts(a, tid, path, hash);
    ReceiverStarts(b, tid, path, a.disk[path], dir, hash);
    var p, source := Started(a, b, tid, path, dir, hash), a.disk[path];
    var done := p.a.sessions[tid].state == Completed;
    assert source == [] ==> [] + Closing(tid, source, done, hash) == Closing(tid, source, done, hash);
  }

  lemma SenderStarts(a: Node, tid: string, path: Path, hash: Data -> string)
    requires path in a.disk && hash(a.disk[path]) != "" && Countable(a.disk[path])
    requires tid != "" && tid !in a.sessions && tid !in a.timers
    ensures var source, offered := a.disk[path], SendFile(a, tid, path, GOOD, hash);
            && offered.sent == [OfferOf(tid, path, source, hash)]
            && var e := OnFileAccept(offered.node, tid, GOOD);
            && SenderInv(e.node, tid, source, hash)
            && e.sent == Chunks(tid, source, 0, e.node.sessions[tid].currentChunkIndex)
                         + Closing(tid, source, e.node.sessions[tid].state == Completed, hash)
  {
    hide SanitizeFileName, Upto, SendNextChunk, SenderInv, TotalChunks;
    var source, offered := a.disk[path], SendFile(a, tid, path, GOOD, hash).node;
    UptoZero(source);
    var s := offered.sessions[tid].(handle := Reading(source, 0), state := Transferring);
    var n := Put(offered, tid, s);
    assert AtChunk(n, tid, source, hash);
    SendsNext(n, tid, source, hash);
    assert Chunks(tid, source, 0, 0) == [];
    assert [] + SendNextChunk(n, tid, GOOD).sent == SendNextChunk(n, tid, GOOD).sent;
  }

  function OfferOf(tid: string, path: Path, source: Data, hash: Data -> string): Message {
    FileOffer(tid, SanitizeFileName(SanitizeFileName(path.name)), |source|, hash(source),
              DEFAULT_FILE_CHUNK_SIZE, TotalChunks(|source|))
  }

  lemma ReceiverStarts(b: Node, tid: string, path: Path, source: Data, dir: string, hash: Data -> string)
    requires tid != "" && hash(source) != "" && SanitizeFileName(path.name) != TEMP_PREFIX + tid
    ensures var b1 := OnFileOffer(b, OfferOf(tid, path, source, hash)).node;
            var b2 := AcceptTransfer(b1, tid, dir, GOOD).node;
            && ReceiverInv(b2, tid, Path(dir, SanitizeFileName(path.name)), source, hash)
            && b2.sessions[tid].currentChunkIndex == 0
            && (b2.sessions[tid].state == Completed <==> source == [])
  {
    hide SanitizeFileName, Upto, TotalChunks;
    SanitizeIdempotent(path.name);
    SanitizeIdempotent(SanitizeFileName(path.name));
    UptoZero(source);
  }

  function Run(p: Pipe, ticks: seq<Tick>, tid: string, hash: Data -> string): Pipe
    decreases |ticks|
  {
    if ticks == [] then p else Run(Advance(p, ticks[0], tid, hash), ticks[1..], tid, hash)
  }

  /** Bounds the ticks that are still to come: two for each chunk to send, one for each message in flight. */
  function Remaining(p: Pipe, tid: string, source: Data): int {
    if tid !in p.a.sessions then 0
    else 2 * (ChunkCount(source) - p.a.sessions[tid].currentChunkIndex)
         + (if p.a.sessions[tid].state == Completed then 0 else 2) + |p.wire|
  }

  lemma TickProgresses(p: Pipe, tick: Tick, tid: string, final: Path, source: Data, hash: Data -> string)
    requires PipeInv(p, tid, final, source, hash) && Countable(source) && tid != "" && hash(source) != ""
    ensures var p' := Advance(p, tick, tid, hash);
            && PipeInv(p', tid, final, source, hash)
            && (if Enabled(p, tick, tid) then 0 <= Remaining(p', tid, source) < Remaining(p, tid, source) else p' == p)
  {
    hide PipeInv, OnMessage, SendNextChunk;
    RemainingBounded(p, tid, final, source, hash);
    if Enabled(p, tick, tid) {
      match tick
      case TimerFires =>
        TimerKeepsInv(p, tid, final, source, hash);
        TimerProgresses(p, tid, final, source, hash);
      case MessageArrives =>
        ArrivalKeepsInv(p, tid, final, source, hash);
        RemainingBounded(Advance(p, tick, tid, hash), tid, final, source, hash);
    } else {
      assert p.wire + [] == p.wire && p.log + [] == p.log;
    }
  }

  lemma RemainingBounded(p: Pipe, tid: string, final: Path, source: Data, hash: Data -> string)
    requires PipeInv(p, tid, final, source, hash)
    ensures tid in p.a.sessions && Remaining(p, tid, source) >= 0
  {
  }

  lemma TimerProgresses(p: Pipe, tid: string, final: Path, source: Data, hash: Data -> string)
    requires PipeInv(p, tid, final, source, hash) && Countable(source) && tid in p.a.timers
    ensures 0 <= Remaining(Advance(p, TimerFires, tid, hash), tid, source) < Remaining(p, tid, source)
  {
    hide ChunkOf, Upto, ReadUpTo, OnMessage;
    var i := p.a.sessions[tid].currentChunkIndex;
    CountIsCeiling(source, i);
    if i * CHUNK < |source| {
      NextChunk(source, i);
    }
  }

  lemma {:induction false} RunKeepsInv(p: Pipe, ticks: seq<Tick>, tid: string, final: Path, source: Data, hash: Data -> string)
    requires PipeInv(p, tid, final, source, hash) && Countable(source) && tid != "" && hash(source) != ""
    ensures PipeInv(Run(p, ticks, tid, hash), tid, final, source, hash)
    decreases |ticks|
  {
    hide PipeInv;
    if ticks != [] {
      TickProgresses(p, ticks[0], tid, final, source, hash);
      RunKeepsInv(Advance(p, ticks[0], tid, hash), ticks[1..], tid, final, source, hash);
    }
  }

  /** Both sides have completed, and the receiver's file is the source. */
  predicate Delivered(p: Pipe, tid: string, final: Path, source: Data) {
    && tid in p.a.sessions && p.a.sessions[tid].state == Completed
    && tid in p.b.sessions && p.b.sessions[tid].state == Completed
    && final in p.b.disk && p.b.disk[final] == source
  }

  /**
   Completion: however timers and deliveries interleave, the sender has streamed a prefix
   of the script and has at most one timer pending; when nothing is left to happen, it has
   streamed the script exactly and the receiver's file is the source. Every tick that does
   something reduces Remaining, so that point is reached.
   */
  lemma TransferCompletes(a: Node, b: Node, tid: string, path: Path, dir: string, ticks: seq<Tick>, hash: Data -> string)
    requires path in a.disk && hash(a.disk[path]) != "" && Countable(a.disk[path])
    requires tid != "" && tid !in a.sessions && tid !in a.timers && tid !in b.sessions
    requires SanitizeFileName(path.name) != TEMP_PREFIX + tid
    ensures var p := Run(Started(a, b, tid, path, dir, hash), ticks, tid, hash);
            var source, final := a.disk[path], Path(dir, SanitizeFileName(path.name));
            && p.log <= Script(tid, source, hash) && p.a.timers[tid] <= 1
            && (tid !in p.a.timers && p.wire == [] ==>
                  p.log == Script(tid, source, hash) && Delivered(p, tid, final, source))
            && (forall tick :: Enabled(p, tick, tid) ==>
                  0 <= Remaining(Advance(p, tick, tid, hash), tid, source) < Remaining(p, tid, source))
  {
    hide SanitizeFileName, Started, SenderSession, ReceiverSession, Advance, Remaining, Enabled;
    var source, final := a.disk[path], Path(dir, SanitizeFileName(path.name));
    StartedHoldsInv(a, b, tid, path, dir, hash);
    RunKeepsInv(Started(a, b, tid, path, dir, hash), ticks, tid, final, source, hash);
    var p := Run(Started(a, b, tid, path, dir, hash), ticks, tid, hash);
    LogIsPrefix(tid, source, p.a.sessions[tid].currentChunkIndex, p.a.sessions[tid].state == Completed, hash);
    forall tick | Enabled(p, tick, tid)
      ensures 0 <= Remaining(Advance(p, tick, tid, hash), tid, source) < Remaining(p, tid, source)
    {
      TickProgresses(p, tick, tid, final, source, hash);
    }
  }

  lemma LogIsPrefix(tid: string, source: Data, i: nat, done: bool, hash: Data -> string)
    requires i <= ChunkCount(source) && (done ==> i == ChunkCount(source))
    ensures Chunks(tid, source, 0, i) + Closing(tid, source, done, hash) <= Script(tid, source, hash)
  {
    ChunksPrefix(tid, source, 0, i, ChunkCount(source));
  }

  lemma {:induction false} ChunksPrefix(tid: string, source: Data, first: nat, mid: nat, last: nat)
    requires first <= mid <= last
    ensures Chunks(tid, source, first, mid) <= Chunks(tid, source, first, last)
    decreases mid - first
  {
    if first < mid {
      ChunksPrefix(tid, source, first + 1, mid, last);
    }
  }
}
