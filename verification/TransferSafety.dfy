/**
 Two controllers that offer, accept, send, reject and cancel any number of transfers in
 both directions, over a network that loses, reorders and repeats messages but invents
 none. Only the hash is assumed to be a function.
 */
module TransferSafety {
  import opened FileNames
  import opened FileTransfer
  import opened TransferDisk

  const CHUNK: nat := DEFAULT_FILE_CHUNK_SIZE

  /** As many chunks as an int counts. */
  const MAX_CHUNKS: nat := 0x7FFF_FFFF

  /** How much of the source the first `k` chunks cover. */
  function Upto(source: Data, k: nat): (n: nat)
    ensures n <= |source|
  {
    if k * CHUNK < |source| then k * CHUNK else |source|
  }

  function ChunkOf(source: Data, k: nat): Data {
    source[Upto(source, k)..Upto(source, k + 1)]
  }

  predicate Countable(source: Data) {
    |source| <= MAX_CHUNKS * CHUNK
  }

  type Sources = map<string, Data>

  // ---------------------------------------------------------------------
  // One direction
  // ---------------------------------------------------------------------

  /** What an offer or a chunk says about the file its sender announced under that id. */
  predicate Honest(m: Message, sources: Sources, hash: Data -> string) {
    match m
    case FileOffer(tid, _, size, sha256, _, _) =>
      tid in sources && size == |sources[tid]| && sha256 == hash(sources[tid])
    case FileChunk(tid, index, data) =>
      tid in sources && index * CHUNK < |sources[tid]| && data == ChunkOf(sources[tid], index)
    case _ => true
  }

  predicate SenderSession(s: Session, source: Data, hash: Data -> string) {
    && s.fileSize == |source| && s.expectedSha256 == hash(source) && s.chunkSize == CHUNK
    && s.transferredBytes == Upto(source, s.currentChunkIndex)
    && (s.handle.Reading? ==> s.handle.content == source && s.handle.pos == s.transferredBytes)
  }

  predicate ReceiverSession(s: Session, source: Data, hash: Data -> string) {
    && s.fileSize == |source| && s.expectedSha256 == hash(source)
    && s.hashed == source[..Upto(source, s.currentChunkIndex)]
    && (s.state == Completed ==> Lower(hash(s.hashed)) == Lower(hash(source)))
  }

  ghost predicate SendingInv(x: Node, msgs: set<Message>, sources: Sources, hash: Data -> string) {
    && (forall tid :: tid in sources ==> Countable(sources[tid]))
    && (forall m :: m in msgs ==> Honest(m, sources, hash))
    && (forall tid :: tid in x.sessions && x.sessions[tid].direction == Outgoing ==>
          tid in sources && SenderSession(x.sessions[tid], sources[tid], hash))
  }

  ghost predicate ReceivingInv(y: Node, sources: Sources, hash: Data -> string) {
    forall tid :: tid in y.sessions && y.sessions[tid].direction == Incoming ==>
      tid in sources && ReceiverSession(y.sessions[tid], sources[tid], hash)
  }

  function SetOf(ms: seq<Message>): set<Message> {
    set m | m in ms
  }

  /** The files announced so far, with the content they had. */
  function Announced(n: Node, act: Action, env: Env, hash: Data -> string, sources: Sources): Sources {
    if act.Offer? && act.path in n.disk && Act(n, act, env, hash).sent != []
    then sources[act.tid := n.disk[act.path]] else sources
  }

  /** Ids are fresh, files are countable, and a source file is unchanged when its transfer starts. */
  predicate AllowedSender(n: Node, act: Action, sources: Sources) {
    match act
    case Offer(tid, path) => tid !in sources && (path in n.disk ==> Countable(n.disk[path]))
    case Receive(FileAccept(tid)) =>
      tid in n.sessions && n.sessions[tid].sourcePath in n.disk && tid in sources ==>
        n.disk[n.sessions[tid].sourcePath] == sources[tid]
    case _ => true
  }

  /** The next chunk of a source, and how the counters move with it. */
  lemma NextChunk(source: Data, k: nat)
    requires k * CHUNK < |source| && Countable(source)
    ensures Upto(source, k) == k * CHUNK && k < MAX_CHUNKS
    ensures source[..Upto(source, k)] + ChunkOf(source, k) == source[..Upto(source, k + 1)]
    ensures ChunkOf(source, k) != [] && |ChunkOf(source, k)| == Upto(source, k + 1) - Upto(source, k)
    ensures ChunkOf(source, k) == ReadUpTo(Reading(source, k * CHUNK), CHUNK)
  {
    assert (k + 1) * CHUNK == k * CHUNK + CHUNK;
  }

  lemma SendNextChunkIsHonest(x: Node, tid: string, env: Env, msgs: set<Message>, sources: Sources, hash: Data -> string)
    requires SendingInv(x, msgs, sources, hash)
    requires tid in x.sessions && x.sessions[tid].direction == Outgoing
    ensures var e := SendNextChunk(x, tid, env);
            SendingInv(e.node, msgs + SetOf(e.sent), sources, hash)
  {
    hide Upto, ChunkOf, ReadUpTo;
    var s, source := x.sessions[tid], sources[tid];
    var k := s.currentChunkIndex;
    if s.handle.Reading? && !AtEnd(s.handle) && s.transferredBytes < s.fileSize {
      UptoBelow(source, k);
      NextChunk(source, k);
    }
  }

  lemma UptoBelow(source: Data, k: nat)
    requires Upto(source, k) < |source|
    ensures k * CHUNK < |source|
  {
  }

  /** `s` after steps that may end the session but do not touch its data. */
  predicate Stopped(s: Session, s': Session) {
    && s' == s.(state := s'.state, handle := s'.handle)
    && (s'.handle == s.handle || s'.handle == Closed)
    && (s'.state == Completed ==> s.state == Completed)
  }

  /** Rejection, cancellation, disconnection: every session stays, at most stopped. */
  predicate OnlyStops(act: Action) {
    match act
    case Reject(_, _) => true
    case Cancel(_, _) => true
    case Disconnect => true
    case Receive(m) => m.FileReject? || m.FileCancel?
    case _ => false
  }

  lemma StopsOnly(n: Node, act: Action, env: Env, hash: Data -> string)
    requires OnlyStops(act)
    ensures var e := Act(n, act, env, hash);
            && e.node.sessions.Keys == n.sessions.Keys
            && (forall tid :: tid in n.sessions ==> Stopped(n.sessions[tid], e.node.sessions[tid]))
            && (forall m :: m in e.sent ==> m.FileReject? || m.FileCancel?)
  {
  }

  /** Steps that concern one session leave the others as they are. */
  lemma OthersKept(n: Node, act: Action, env: Env, hash: Data -> string, own: string)
    requires act.Disconnect? || own == (if act.Receive? then act.message.tid else act.tid)
    ensures var n' := Act(n, act, env, hash).node;
            !act.Disconnect? ==> forall tid :: tid != own ==>
              (tid in n.sessions <==> tid in n'.sessions) && (tid in n.sessions ==> n.sessions[tid] == n'.sessions[tid])
  {
    if act.Receive? {
      MessageKeepsOthers(n, act.message, env, hash);
    } else {
      hide SanitizeFileName, Lower, ReadUpTo, OnMessage, OnSocketDisconnected;
    }
  }

  lemma MessageKeepsOthers(n: Node, m: Message, env: Env, hash: Data -> string)
    ensures var n' := OnMessage(n, m, env, hash).node;
            forall tid :: tid != m.tid ==>
              (tid in n.sessions <==> tid in n'.sessions) && (tid in n.sessions ==> n.sessions[tid] == n'.sessions[tid])
  {
    hide SanitizeFileName, Lower, ReadUpTo;
  }

  lemma SenderActs(x: Node, act: Action, env: Env, msgs: set<Message>, sources: Sources, hash: Data -> string)
    requires ShapeInv(x) && OnTime(x) && SendingInv(x, msgs, sources, hash)
    requires Sound(x, act) && AllowedSender(x, act, sources)
    ensures var e := Act(x, act, env, hash);
            SendingInv(e.node, msgs + SetOf(e.sent), Announced(x, act, env, hash, sources), hash)
  {
    hide Act, ShapeInv, OnTime;
    if OnlyStops(act) {
      StopsOnly(x, act, env, hash);
    } else {
      match act
      case Offer(tid, path) => SenderOffers(x, tid, path, env, msgs, sources, hash);
      case Accept(tid, dir) => SenderAccepts(x, tid, dir, env, msgs, sources, hash);
      case Timer(tid) => SenderTimer(x, tid, env, msgs, sources, hash);
      case Receive(m) => SenderReceives(x, m, env, msgs, sources, hash);
    }
  }

  lemma SenderOffers(x: Node, tid: string, path: Path, env: Env, msgs: set<Message>, sources: Sources, hash: Data -> string)
    requires SendingInv(x, msgs, sources, hash)
    requires tid !in x.sessions && tid !in sources && (path in x.disk ==> Countable(x.disk[path]))
    ensures var e := Act(x, Offer(tid, path), env, hash);
            SendingInv(e.node, msgs + SetOf(e.sent), Announced(x, Offer(tid, path), env, hash, sources), hash)
  {
    hide SanitizeFileName, ChunkOf;
    var sources' := Announced(x, Offer(tid, path), env, hash, sources);
    forall m | m in msgs
      ensures Honest(m, sources', hash)
    {
      assert Honest(m, sources, hash);
    }
  }

  lemma SenderAccepts(x: Node, tid: string, dir: string, env: Env, msgs: set<Message>, sources: Sources, hash: Data -> string)
    requires SendingInv(x, msgs, sources, hash)
    ensures var e := AcceptTransfer(x, tid, dir, env);
            SendingInv(e.node, msgs + SetOf(e.sent), sources, hash)
    ensures Act(x, Accept(tid, dir), env, hash) == AcceptTransfer(x, tid, dir, env)
  {
  }

  lemma SenderTimer(x: Node, tid: string, env: Env, msgs: set<Message>, sources: Sources, hash: Data -> string)
    requires ShapeInv(x) && OnTime(x) && SendingInv(x, msgs, sources, hash)
    ensures var e := Act(x, Timer(tid), env, hash);
            SendingInv(e.node, msgs + SetOf(e.sent), sources, hash)
  {
    hide SendNextChunk;
    if tid in x.timers {
      OwnSession(x, tid);
      SendNextChunkIsHonest(x.(timers := x.timers - multiset{tid}), tid, env, msgs, sources, hash);
    }
  }

  /** Offers, chunks and completions leave the outgoing sessions as they are, and are not answered. */
  lemma OutgoingKept(x: Node, m: Message, env: Env, hash: Data -> string)
    requires m.FileOffer? || m.FileChunk? || m.FileComplete?
    ensures var e := OnMessage(x, m, env, hash);
            && e.sent == []
            && forall tid :: tid in e.node.sessions && e.node.sessions[tid].direction == Outgoing ==>
                 tid in x.sessions && e.node.sessions[tid] == x.sessions[tid]
  {
    hide SanitizeFileName, Lower;
  }

  lemma AcceptanceReceived(x: Node, tid: string, env: Env, msgs: set<Message>, sources: Sources, hash: Data -> string)
    requires SendingInv(x, msgs, sources, hash) && AllowedSender(x, Receive(FileAccept(tid)), sources)
    ensures var e := OnFileAccept(x, tid, env);
            SendingInv(e.node, msgs + SetOf(e.sent), sources, hash)
  {
    hide SendNextChunk;
    if tid in x.sessions && x.sessions[tid].direction == Outgoing && x.sessions[tid].state == Offering
       && x.sessions[tid].sourcePath in x.disk && env.opens {
      var s := x.sessions[tid];
      var s' := s.(handle := Reading(x.disk[s.sourcePath], 0), state := Transferring,
                   transferredBytes := 0, currentChunkIndex := 0);
      SendNextChunkIsHonest(Put(x, tid, s'), tid, env, msgs, sources, hash);
    }
  }

  lemma SenderReceives(x: Node, m: Message, env: Env, msgs: set<Message>, sources: Sources, hash: Data -> string)
    requires SendingInv(x, msgs, sources, hash)
    requires AllowedSender(x, Receive(m), sources)
    requires !OnlyStops(Receive(m))
    ensures var e := Act(x, Receive(m), env, hash);
            SendingInv(e.node, msgs + SetOf(e.sent), sources, hash)
  {
    hide SenderSession, Honest, OnFileAccept, OnFileChunk, OnFileComplete, OnFileOffer;
    if m.FileAccept? {
      AcceptanceReceived(x, m.tid, env, msgs, sources, hash);
    } else {
      OutgoingKept(x, m, env, hash);
    }
  }

  lemma ReceiverActs(y: Node, act: Action, env: Env, msgs: set<Message>, sources: Sources, hash: Data -> string)
    requires ShapeInv(y) && OnTime(y) && ReceivingInv(y, sources, hash) && Sound(y, act)
    requires forall m :: m in msgs ==> Honest(m, sources, hash)
    requires forall tid :: tid in sources ==> Countable(sources[tid])
    requires act.Receive? ==> act.message in msgs
    ensures ReceivingInv(Act(y, act, env, hash).node, sources, hash)
  {
    hide Act, ShapeInv, OnTime, ReceiverSession;
    if OnlyStops(act) {
      StopsOnly(y, act, env, hash);
      forall tid | tid in y.sessions && y.sessions[tid].direction == Incoming
        ensures ReceiverSession(Act(y, act, env, hash).node.sessions[tid], sources[tid], hash)
      {
        StoppedReceiver(y.sessions[tid], Act(y, act, env, hash).node.sessions[tid], sources[tid], hash);
      }
    } else {
      var own := if act.Receive? then act.message.tid else act.tid;
      OthersKept(y, act, env, hash, own);
      ReceiverOwn(y, act, env, sources, hash, own);
    }
  }

  lemma StoppedReceiver(s: Session, s': Session, source: Data, hash: Data -> string)
    requires ReceiverSession(s, source, hash) && Stopped(s, s')
    ensures ReceiverSession(s', source, hash)
  {
  }

  /** The session that a receiver's step is about. */
  lemma ReceiverOwn(y: Node, act: Action, env: Env, sources: Sources, hash: Data -> string, own: string)
    requires ShapeInv(y) && OnTime(y) && ReceivingInv(y, sources, hash) && Sound(y, act) && !OnlyStops(act)
    requires own == if act.Receive? then act.message.tid else act.tid
    requires act.Receive? ==> Honest(act.message, sources, hash)
    requires forall tid :: tid in sources ==> Countable(sources[tid])
    ensures var n' := Act(y, act, env, hash).node;
            own in n'.sessions && n'.sessions[own].direction == Incoming ==>
              own in sources && ReceiverSession(n'.sessions[own], sources[own], hash)
  {
    hide SanitizeFileName, Lower, ChunkOf, ReadUpTo, OnMessage;
    if own in y.sessions {
      OwnSession(y, own);
    }
    if act.Receive? {
      ReceiverMessage(y, act.message, env, sources, hash);
    }
  }

  lemma ReceiverMessage(y: Node, m: Message, env: Env, sources: Sources, hash: Data -> string)
    requires IsIncoming(y, m.tid) ==> m.tid in sources && ReceiverSession(y.sessions[m.tid], sources[m.tid], hash)
    requires Honest(m, sources, hash) && !OnlyStops(Receive(m))
    requires m.tid in sources ==> Countable(sources[m.tid])
    ensures var n' := OnMessage(y, m, env, hash).node;
            IsIncoming(n', m.tid) ==> m.tid in sources && ReceiverSession(n'.sessions[m.tid], sources[m.tid], hash)
  {
    hide SanitizeFileName, Lower, ChunkOf, ReadUpTo;
    if m.FileChunk? {
      NextChunk(sources[m.tid], m.index);
    }
  }

  // ---------------------------------------------------------------------
  // Both directions, whole runs
  // ---------------------------------------------------------------------

  /** Both controllers, every message ever sent by each, and the files each has announced. */
  datatype System = System(a: Node, b: Node, fromA: set<Message>, fromB: set<Message>,
                           sourcesA: Sources, sourcesB: Sources)
  {
    /** The same system with the parties' names exchanged. */
    function Flipped(): System {
      System(b, a, fromB, fromA, sourcesB, sourcesA)
    }
  }

  datatype Event = Event(atA: bool, act: Action, env: Env)

  function StepA(s: System, act: Action, env: Env, hash: Data -> string): System {
    var e := Act(s.a, act, env, hash);
    s.(a := e.node, fromA := s.fromA + SetOf(e.sent), sourcesA := Announced(s.a, act, env, hash, s.sourcesA))
  }

  function Step(s: System, e: Event, hash: Data -> string): System {
    if e.atA then StepA(s, e.act, e.env, hash) else StepA(s.Flipped(), e.act, e.env, hash).Flipped()
  }

  /** A received message was sent at some time; it may be received late, again, or never. Ids are fresh for both sides. */
  predicate AllowedA(s: System, act: Action) {
    && AllowedSender(s.a, act, s.sourcesA)
    && (act.Offer? ==> act.tid !in s.sourcesB)
    && (act.Receive? ==> act.message in s.fromB)
  }

  predicate AllowedEvent(s: System, e: Event) {
    if e.atA then AllowedA(s, e.act) else AllowedA(s.Flipped(), e.act)
  }

  function Run(a: Node, b: Node, events: seq<Event>, hash: Data -> string): System {
    if events == [] then System(a, b, {}, {}, map[], map[])
    else Step(Run(a, b, events[..|events| - 1], hash), events[|events| - 1], hash)
  }

  predicate AllowedRun(a: Node, b: Node, events: seq<Event>, hash: Data -> string) {
    events != [] ==>
      && AllowedRun(a, b, events[..|events| - 1], hash)
      && AllowedEvent(Run(a, b, events[..|events| - 1], hash), events[|events| - 1])
  }

  /** In the run, each offer that arrives has a free name. */
  predicate NamedRun(a: Node, b: Node, events: seq<Event>, hash: Data -> string) {
    events != [] ==>
      && NamedRun(a, b, events[..|events| - 1], hash)
      && NamedEvent(Run(a, b, events[..|events| - 1], hash), events[|events| - 1])
  }

  predicate NamedEvent(s: System, e: Event) {
    NameSound(if e.atA then s.a else s.b, e.act)
  }

  ghost predicate Inv(s: System, hash: Data -> string) {
    && ShapeInv(s.a) && ShapeInv(s.b) && OnTime(s.a) && OnTime(s.b)
    && SendingInv(s.a, s.fromA, s.sourcesA, hash) && ReceivingInv(s.b, s.sourcesA, hash)
    && SendingInv(s.b, s.fromB, s.sourcesB, hash) && ReceivingInv(s.a, s.sourcesB, hash)
    && (forall tid :: tid in s.sourcesA ==> tid !in s.sourcesB)
  }

  /** Fresh ids are new to a controller, and an offer that is received never concerns a transfer of its own. */
  lemma StepIsSound(s: System, act: Action, hash: Data -> string)
    requires Inv(s, hash) && AllowedA(s, act)
    ensures Sound(s.a, act) && TimeSound(s.a, act)
  {
    hide ReceiverSession, SenderSession;
    if act.Receive? && act.message.FileOffer? {
      assert Honest(act.message, s.sourcesB, hash);
      OwnSession(s.a, act.message.tid);
    }
  }

  lemma StepAKeepsInv(s: System, act: Action, env: Env, hash: Data -> string)
    requires Inv(s, hash) && AllowedA(s, act)
    ensures Inv(StepA(s, act, env, hash), hash)
  {
    hide Act, ShapeInv, OnTime, NamesInv, Held, Tidy, ReceiverSession, SenderSession, Honest, Sound, TimeSound;
    StepIsSound(s, act, hash);
    ActKeeps(s.a, act, env, hash);
    TimersKept(s.a, act, env, hash);
    SenderActs(s.a, act, env, s.fromA, s.sourcesA, hash);
    ReceiverActs(s.a, act, env, s.fromB, s.sourcesB, hash);
    assert forall tid :: tid in s.sourcesA ==>
      tid in Announced(s.a, act, env, hash, s.sourcesA) && Announced(s.a, act, env, hash, s.sourcesA)[tid] == s.sourcesA[tid];
  }

  lemma {:induction false} RunKeepsInv(a: Node, b: Node, events: seq<Event>, hash: Data -> string)
    requires Fresh(a) && Fresh(b) && AllowedRun(a, b, events, hash)
    ensures Inv(Run(a, b, events, hash), hash)
  {
    if events != [] {
      RunKeepsInv(a, b, events[..|events| - 1], hash);
      var s, e := Run(a, b, events[..|events| - 1], hash), events[|events| - 1];
      if e.atA {
        StepAKeepsInv(s, e.act, e.env, hash);
      } else {
        StepAKeepsInv(s.Flipped(), e.act, e.env, hash);
      }
    }
  }

  /** With free names the temporary files of both sides hold what was received. */
  lemma {:induction false} RunKeepsFiles(a: Node, b: Node, events: seq<Event>, hash: Data -> string)
    requires Fresh(a) && Fresh(b) && AllowedRun(a, b, events, hash) && NamedRun(a, b, events, hash)
    ensures CoreInv(Run(a, b, events, hash).a) && CoreInv(Run(a, b, events, hash).b)
  {
    hide Act, AllowedEvent, NamesInv, Held, ShapeInv, Tidy, NameSound, Announced;
    if events == [] {
      NewIsCore(a);
      NewIsCore(b);
    } else {
      RunKeepsFiles(a, b, events[..|events| - 1], hash);
      var s, e := Run(a, b, events[..|events| - 1], hash), events[|events| - 1];
      FilesKept(if e.atA then s.a else s.b, e.act, e.env, hash);
    }
  }

  lemma NewIsCore(n: Node)
    requires Fresh(n)
    ensures CoreInv(n)
  {
  }

  lemma FilesKept(n: Node, act: Action, env: Env, hash: Data -> string)
    requires CoreInv(n) && NameSound(n, act)
    ensures CoreInv(Act(n, act, env, hash).node)
  {
    hide Act, NamesInv, Held, ShapeInv, Tidy, NameSound;
    ActKeeps(n, act, env, hash);
    NamesKept(n, act, env, hash);
  }

  /** On the prefixes of one file the hash tells contents apart. */
  ghost predicate NoCollision(source: Data, hash: Data -> string) {
    forall p :: p <= source && Lower(hash(p)) == Lower(hash(source)) ==> p == source
  }

  /**
   Transfer safety, for every run: what a receiver has received is a prefix of the file
   that was offered; a completed transfer has received a content with the hash of that file, and
   that file unless two of its prefixes collide. If the offered names were free, the temporary file
   holds what was received.
   */
  lemma TransferSafety(a: Node, b: Node, events: seq<Event>, hash: Data -> string, tid: string)
    requires Fresh(a) && Fresh(b) && AllowedRun(a, b, events, hash)
    ensures var s := Run(a, b, events, hash);
            IsIncoming(s.b, tid) ==>
            && tid in s.sourcesA
            && var session, source := s.b.sessions[tid], s.sourcesA[tid];
               && session.hashed <= source
               && (session.state == Completed ==> Lower(hash(session.hashed)) == Lower(hash(source)))
               && (session.state == Completed && NoCollision(source, hash) ==> session.hashed == source)
               && (session.state == Transferring && NamedRun(a, b, events, hash) ==>
                     session.tempPath in s.b.disk && s.b.disk[session.tempPath] == session.hashed)
  {
    hide ReceiverSession, Run, AllowedRun, NamedRun, ShapeInv, OnTime;
    RunKeepsInv(a, b, events, hash);
    var s := Run(a, b, events, hash);
    if IsIncoming(s.b, tid) {
      PrefixReceived(s.b.sessions[tid], s.sourcesA[tid], hash);
      if NamedRun(a, b, events, hash) {
        RunKeepsFiles(a, b, events, hash);
        OwnFile(s.b, tid);
      }
    }
  }

  lemma PrefixReceived(s: Session, source: Data, hash: Data -> string)
    requires ReceiverSession(s, source, hash)
    ensures s.hashed <= source
    ensures s.state == Completed ==> Lower(hash(s.hashed)) == Lower(hash(source))
  {
  }

  /**
   At the step that completes it, the file at the final path is the source exactly if the temporary file
   holds what was received; and it does, and the step completes, if the offered names were free.
   */
  lemma CompletionDelivers(a: Node, b: Node, events: seq<Event>, hash: Data -> string,
                           tid: string, sha256: string, env: Env)
    requires Fresh(a) && Fresh(b) && AllowedRun(a, b, events, hash) && tid != "" && sha256 != ""
    ensures var s := Run(a, b, events, hash);
            Receiving(s.b, tid) ==>
            var session, b' := s.b.sessions[tid], Act(s.b, Receive(FileComplete(tid, sha256)), env, hash).node;
            && tid in s.sourcesA && tid in b'.sessions
            && (b'.sessions[tid].state == Completed && NoCollision(s.sourcesA[tid], hash) ==>
                  && session.finalPath in b'.disk
                  && (b'.disk[session.finalPath] == s.sourcesA[tid] <==> HeldBy(session, s.b.disk)))
            && (NamedRun(a, b, events, hash) ==>
                  && HeldBy(session, s.b.disk)
                  && (b'.sessions[tid].state == Completed <==>
                        Lower(hash(session.hashed)) == Lower(hash(s.sourcesA[tid])) && env.renames))
  {
    hide Run, AllowedRun, NamedRun, OnFileComplete, ShapeInv, OnTime, NamesInv, Held;
    RunKeepsInv(a, b, events, hash);
    var s := Run(a, b, events, hash);
    if Receiving(s.b, tid) {
      PrefixReceived(s.b.sessions[tid], s.sourcesA[tid], hash);
      TempNameLosesFile(s.b, tid, env, hash);
      if NamedRun(a, b, events, hash) {
        RunKeepsFiles(a, b, events, hash);
        OwnFile(s.b, tid);
      }
    }
  }
}
