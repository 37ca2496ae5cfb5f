/** How transfers end: what cancelling, rejecting, a wrong chunk and a disconnect leave behind, and that it lasts. */
module TransferStop {
  import opened FileNames
  import opened FileTransfer
  import opened TransferDisk

  // ---------------------------------------------------------------------
  // Ending a transfer
  // ---------------------------------------------------------------------

  /** From `n` to `n'` the transfer ended in that state: its file is closed, its temporary file gone, nothing else changed. */
  predicate Ended(n: Node, n': Node, tid: string, state: TransferState) {
    && tid in n.sessions && tid in n'.sessions
    && n'.sessions[tid].state == state && n'.sessions[tid].handle == Closed
    && n'.sessions[tid].tempPath !in n'.disk
    && n'.sessions == n.sessions[tid := n'.sessions[tid]] && n'.timers == n.timers
    && (forall p :: p in n.disk && p != n.sessions[tid].tempPath ==> p in n'.disk && n'.disk[p] == n.disk[p])
    && n'.disk.Keys <= n.disk.Keys
  }

  /** Cancelling a known transfer ends it and tells the peer; an unknown one is left alone. */
  lemma CancelEnds(n: Node, tid: string, reason: string, env: Env, hash: Data -> string)
    requires ShapeInv(n)
    ensures var e := Act(n, Cancel(tid, reason), env, hash);
            if tid in n.sessions then Ended(n, e.node, tid, Cancelled) && e.sent == [FileCancel(tid, reason)]
            else e == Effect(n, [])
  {
  }

  lemma RejectEnds(n: Node, tid: string, reason: string, env: Env, hash: Data -> string)
    requires ShapeInv(n)
    ensures var e := Act(n, Reject(tid, reason), env, hash);
            if tid in n.sessions then Ended(n, e.node, tid, Rejected) && e.sent == [FileReject(tid, reason)]
            else e == Effect(n, [])
  {
  }

  /** The message that tells the peer. */
  predicate IsStop(m: Message) {
    m.FileCancel? || m.FileReject?
  }

  /** What the message of the peer does, on either side and in any state. */
  lemma StopArrives(n: Node, m: Message, env: Env, hash: Data -> string)
    requires ShapeInv(n) && IsStop(m) && m.tid in n.sessions && m.tid != ""
    ensures var e := Act(n, Receive(m), env, hash);
            Ended(n, e.node, m.tid, if m.FileCancel? then Cancelled else Rejected) && e.sent == []
  {
  }

  /** Messages without an id, offers of negative size or without a digest, and completions without one are dropped. */
  predicate Dropped(m: Message) {
    m.tid == "" || (m.FileOffer? && (m.fileSize < 0 || m.sha256 == "")) || (m.FileComplete? && m.sha256 == "")
  }

  lemma DroppedDoesNothing(n: Node, m: Message, env: Env, hash: Data -> string)
    requires Dropped(m)
    ensures Act(n, Receive(m), env, hash) == Effect(n, [])
  {
    hide SanitizeFileName;
  }

  /** Any other offer makes a session that waits for the user's answer, and nothing else: no file, no message, no timer. */
  lemma OfferOutcome(n: Node, m: Message, env: Env, hash: Data -> string)
    requires m.FileOffer? && !Dropped(m)
    ensures var e := Act(n, Receive(m), env, hash);
            && e.sent == [] && e.node == n.(sessions := n.sessions[m.tid := e.node.sessions[m.tid]])
            && var s := e.node.sessions[m.tid];
               && s.direction == Incoming && s.state == Offering && s.handle == Closed && s.tempPath == NO_PATH
               && s.fileName == SanitizeFileName(m.fileName) && Safe(s.fileName)
               && s.fileSize == m.fileSize && s.expectedSha256 == m.sha256 && s.totalChunks == m.totalChunks
               && s.chunkSize == (if m.chunkSize > 0 then m.chunkSize else 65536) && s.hashed == [] && s.transferredBytes == 0
  {
    hide SanitizeFileName;
    SanitizeIdempotent(m.fileName);
    SanitizeSpec(m.fileName);
  }

  /** A chunk that is not the expected one ends the transfer; the expected one is added; none is looked at otherwise. */
  lemma ChunkOutcome(n: Node, tid: string, index: nat, data: Data, env: Env, hash: Data -> string)
    requires ShapeInv(n) && tid != ""
    ensures var e := Act(n, Receive(FileChunk(tid, index, data)), env, hash);
            && e.sent == []
            && (!Receiving(n, tid) ==> e.node == n)
            && (Receiving(n, tid) && index != n.sessions[tid].currentChunkIndex ==> Ended(n, e.node, tid, Failed))
            && (Receiving(n, tid) && index == n.sessions[tid].currentChunkIndex ==>
                  && Receiving(e.node, tid) && e.node.sessions[tid].hashed == n.sessions[tid].hashed + data
                  && (HeldBy(n.sessions[tid], n.disk) ==> HeldBy(e.node.sessions[tid], e.node.disk)))
  {
    hide ShapeInv;
    OwnSession(n, tid);
  }

  /** An acceptance takes place exactly if a file can be opened; otherwise the transfer fails, unannounced. */
  lemma AcceptOutcome(n: Node, tid: string, dir: string, env: Env, hash: Data -> string)
    requires ShapeInv(n) && IsIncoming(n, tid) && n.sessions[tid].state == Offering
    ensures var e := Act(n, Accept(tid, dir), env, hash);
            && tid in e.node.sessions
            && (e.sent == [FileAccept(tid)] <==> env.opens) && (e.sent == [] <==> !env.opens)
            && (!env.opens ==> e.node.disk == n.disk && e.node.sessions[tid].state == Failed
                               && e.node.sessions[tid].handle == Closed)
  {
  }

  /** The same for the source file when the peer accepts. */
  lemma SourceOutcome(n: Node, tid: string, env: Env, hash: Data -> string)
    requires tid in n.sessions && tid != "" && n.sessions[tid].direction == Outgoing && n.sessions[tid].state == Offering
    ensures var e := Act(n, Receive(FileAccept(tid)), env, hash);
            && tid in e.node.sessions
            && (!(n.sessions[tid].sourcePath in n.disk && env.opens) ==>
                  e.sent == [] && e.node.sessions[tid].state == Failed && e.node.sessions[tid].handle == Closed)
  {
    hide ReadUpTo;
  }

  predicate Underway(n: Node, tid: string) {
    tid in n.sessions && (n.sessions[tid].state == Offering || n.sessions[tid].state == Transferring)
  }

  /** A disconnect ends exactly the transfers that are offered or running, and removes exactly their temporary files. */
  lemma DisconnectEnds(n: Node, env: Env, hash: Data -> string)
    requires ShapeInv(n)
    ensures var e := Act(n, Disconnect, env, hash);
            && e.sent == [] && e.node.timers == n.timers && e.node.sessions.Keys == n.sessions.Keys
            && (forall tid :: tid in n.sessions && !Underway(n, tid) ==> e.node.sessions[tid] == n.sessions[tid])
            && (forall tid :: Underway(n, tid) ==>
                  && e.node.sessions[tid].state == Failed && e.node.sessions[tid].handle == Closed
                  && e.node.sessions[tid].tempPath !in e.node.disk)
            && (forall p :: p in n.disk ==>
                  if exists tid :: Underway(n, tid) && n.sessions[tid].tempPath == p then p !in e.node.disk
                  else p in e.node.disk && e.node.disk[p] == n.disk[p])
  {
    var n' := OnSocketDisconnected(n);
    forall tid | Underway(n, tid)
      ensures n'.sessions[tid].tempPath !in n'.disk
    {
      if n.sessions[tid].tempPath != NO_PATH {
        assert n.sessions[tid].tempPath in RemovedOnDisconnect(n.sessions, n.sessions.Keys);
      }
    }
  }

  // ---------------------------------------------------------------------
  // What has ended stays so
  // ---------------------------------------------------------------------

  /** Cancelled or rejected, and closed. */
  predicate Stopped(n: Node, tid: string) {
    && tid in n.sessions && n.sessions[tid].handle == Closed
    && (n.sessions[tid].state == Cancelled || n.sessions[tid].state == Rejected)
  }

  /** A new transfer under the id begins. */
  predicate Begins(act: Action, tid: string) {
    (act.Offer? && act.tid == tid) || (act.Receive? && act.message.FileOffer? && act.message.tid == tid)
  }

  /** Of this transfer nothing but stop messages is sent. */
  predicate Silent(sent: seq<Message>, tid: string) {
    forall m :: m in sent && m.tid == tid ==> IsStop(m)
  }

  /** No timer, chunk, completion, acceptance or disconnect moves a stopped transfer, and nothing but stops is sent for it. */
  lemma StaysStopped(n: Node, act: Action, env: Env, hash: Data -> string, tid: string)
    requires Stopped(n, tid) && !Begins(act, tid)
    ensures var e := Act(n, act, env, hash); Stopped(e.node, tid) && Silent(e.sent, tid)
  {
    hide OnMessage, Stopped, Begins, SendFile, AcceptTransfer, RejectTransfer, CancelTransfer, OnTimer, OnSocketDisconnected;
    match act
    case Offer(u, path) => OfferStays(n, u, path, env, hash, tid);
    case Accept(u, dir) => AcceptStays(n, u, dir, env, tid);
    case Reject(u, reason) => StopStays(n, u, reason, tid);
    case Cancel(u, reason) => StopStays(n, u, reason, tid);
    case Timer(u) => TimerStays(n, u, env, tid);
    case Receive(m) => MessageStays(n, m, env, hash, tid);
    case Disconnect => DisconnectStays(n, tid);
  }

  lemma OfferStays(n: Node, u: string, path: Path, env: Env, hash: Data -> string, tid: string)
    requires Stopped(n, tid) && !Begins(Offer(u, path), tid)
    ensures var e := SendFile(n, u, path, env, hash); Stopped(e.node, tid) && Silent(e.sent, tid)
  {
    hide SanitizeFileName;
  }

  lemma AcceptStays(n: Node, u: string, dir: string, env: Env, tid: string)
    requires Stopped(n, tid)
    ensures var e := AcceptTransfer(n, u, dir, env); Stopped(e.node, tid) && Silent(e.sent, tid)
  {
  }

  lemma StopStays(n: Node, u: string, reason: string, tid: string)
    requires Stopped(n, tid)
    ensures var e := RejectTransfer(n, u, reason); Stopped(e.node, tid) && Silent(e.sent, tid)
    ensures var e := CancelTransfer(n, u, reason); Stopped(e.node, tid) && Silent(e.sent, tid)
  {
  }

  lemma TimerStays(n: Node, u: string, env: Env, tid: string)
    requires Stopped(n, tid)
    ensures var e := OnTimer(n, u, env); Stopped(e.node, tid) && Silent(e.sent, tid)
  {
    hide ReadUpTo;
  }

  lemma MessageStays(n: Node, m: Message, env: Env, hash: Data -> string, tid: string)
    requires Stopped(n, tid) && !Begins(Receive(m), tid)
    ensures var e := OnMessage(n, m, env, hash); Stopped(e.node, tid) && Silent(e.sent, tid)
  {
    hide SanitizeFileName, Lower, SendNextChunk, OnFileComplete;
    if m.FileAccept? {
      AcceptedStays(n, m.tid, env, tid);
    } else if m.FileComplete? {
      CompleteStays(n, m.tid, env, hash, tid);
    }
  }

  lemma AcceptedStays(n: Node, u: string, env: Env, tid: string)
    requires Stopped(n, tid)
    ensures var e := OnFileAccept(n, u, env); Stopped(e.node, tid) && Silent(e.sent, tid)
  {
    hide ReadUpTo;
  }

  lemma CompleteStays(n: Node, u: string, env: Env, hash: Data -> string, tid: string)
    requires Stopped(n, tid)
    ensures var e := OnFileComplete(n, u, env, hash); Stopped(e.node, tid) && Silent(e.sent, tid)
  {
    hide Lower;
  }

  lemma DisconnectStays(n: Node, tid: string)
    requires Stopped(n, tid)
    ensures Stopped(OnSocketDisconnected(n), tid)
  {
  }

  /** The messages that a run sends. */
  function SentBy(n: Node, steps: seq<(Action, Env)>, hash: Data -> string): seq<Message> {
    if steps == [] then []
    else
      var before, last := steps[..|steps| - 1], steps[|steps| - 1];
      SentBy(n, before, hash) + Act(RunFrom(n, before, hash), last.0, last.1, hash).sent
  }

  predicate NoneBegins(steps: seq<(Action, Env)>, tid: string) {
    forall s :: s in steps ==> !Begins(s.0, tid)
  }

  lemma {:induction false} RunStaysStopped(n: Node, steps: seq<(Action, Env)>, hash: Data -> string, tid: string)
    requires Stopped(n, tid) && NoneBegins(steps, tid)
    ensures Stopped(RunFrom(n, steps, hash), tid) && Silent(SentBy(n, steps, hash), tid)
  {
    hide Act, Begins, Stopped;
    if steps != [] {
      var before, last := steps[..|steps| - 1], steps[|steps| - 1];
      RunStaysStopped(n, before, hash, tid);
      StaysStopped(RunFrom(n, before, hash), last.0, last.1, hash, tid);
    }
  }

  /**
   A cancelled transfer is over on both sides: one side cancels, and its message arrives at any later time.
   Then each side's file is closed and its temporary file removed, and as long as no new transfer begins
   under the id, neither side leaves the stopped state or sends a chunk, an acceptance or a completion for it.
   */
  lemma CancelStopsBoth(
    a: Node, b: Node, tid: string, reason: string, laterA: seq<(Action, Env)>, laterB: seq<(Action, Env)>, env: Env,
    hash: Data -> string)
    requires ShapeInv(a) && ShapeInv(b) && tid in a.sessions && tid in b.sessions && tid != ""
    requires NoneBegins(laterA, tid) && NoneBegins(laterB, tid)
    ensures var e := Act(a, Cancel(tid, reason), env, hash);
            && |e.sent| == 1
            && var b' := Act(b, Receive(e.sent[0]), env, hash).node;
               && Ended(a, e.node, tid, Cancelled) && Ended(b, b', tid, Cancelled)
               && Stopped(RunFrom(e.node, laterA, hash), tid) && Silent(SentBy(e.node, laterA, hash), tid)
               && Stopped(RunFrom(b', laterB, hash), tid) && Silent(SentBy(b', laterB, hash), tid)
  {
    hide Act, ShapeInv, Begins;
    var e := Act(a, Cancel(tid, reason), env, hash);
    CancelEnds(a, tid, reason, env, hash);
    StopArrives(b, e.sent[0], env, hash);
    RunStaysStopped(e.node, laterA, hash, tid);
    RunStaysStopped(Act(b, Receive(e.sent[0]), env, hash).node, laterB, hash, tid);
  }
}
