/** Which source files an outgoing transfer holds open, after every run of a controller. */
module TransferHandles {
  import opened FileNames
  import opened FileTransfer
  import opened TransferDisk

  /** A chunk is due: the file is open and not yet read to its end. */
  predicate ChunkDue(s: Session) {
    s.state == Transferring && s.handle.Reading? && !AtEnd(s.handle) && s.transferredBytes < s.fileSize
  }

  /** The transfer, if any, that a step ends because a chunk that is due cannot be read. */
  function Unreadable(n: Node, act: Action, env: Env): set<string> {
    match act
    case Timer(tid) =>
      if tid in n.timers && tid in n.sessions && ChunkDue(n.sessions[tid]) && !env.readable then {tid} else {}
    case Receive(FileAccept(tid)) =>
      if tid != "" && tid in n.sessions && n.sessions[tid].direction == Outgoing && n.sessions[tid].state == Offering
         && n.sessions[tid].sourcePath in n.disk && env.opens
         && n.disk[n.sessions[tid].sourcePath] != [] && n.sessions[tid].fileSize > 0 && !env.readable
      then {tid} else {}
    case _ => {}
  }

  /** The file of an outgoing transfer is open while it streams, and after it failed on an unreadable chunk. */
  predicate OutgoingHandle(tid: string, s: Session, unreadable: set<string>) {
    && s.chunkSize == DEFAULT_FILE_CHUNK_SIZE && s.handle != Writing
    && (s.state == Transferring || SettledState(s.state))
    && (s.handle.Reading? <==> s.state == Transferring || (s.state == Failed && tid in unreadable))
    && (s.state == Offering || s.state == Transferring ==> tid !in unreadable)
  }

  ghost predicate HandlesInv(n: Node, unreadable: set<string>) {
    && unreadable <= n.sessions.Keys
    && forall tid :: tid in n.sessions && n.sessions[tid].direction == Outgoing ==>
         OutgoingHandle(tid, n.sessions[tid], unreadable)
  }

  /** One outgoing session changes, and only it may be found unreadable. */
  lemma OneHandle(n: Node, n': Node, tid: string, before: set<string>, now: set<string>)
    requires HandlesInv(n, before) && now <= {tid} && tid in n'.sessions
    requires n'.sessions == n.sessions[tid := n'.sessions[tid]]
    requires n'.sessions[tid].direction == Outgoing ==> OutgoingHandle(tid, n'.sessions[tid], before + now)
    ensures HandlesInv(n', before + now)
  {
    forall t | t in n'.sessions && n'.sessions[t].direction == Outgoing
      ensures OutgoingHandle(t, n'.sessions[t], before + now)
    {
      if t != tid {
        assert OutgoingHandle(t, n.sessions[t], before);
      }
    }
  }

  lemma SameHandles(n: Node, n': Node, before: set<string>)
    requires HandlesInv(n, before) && n'.sessions == n.sessions
    ensures HandlesInv(n', before + {})
  {
  }

  /** Sending a chunk keeps the file open, the end and a disconnect close it, an unreadable chunk leaves it open. */
  lemma SendNextHandle(n: Node, tid: string, env: Env, before: set<string>)
    requires tid in n.sessions && n.sessions[tid].direction == Outgoing && n.sessions[tid].state == Transferring
    requires OutgoingHandle(tid, n.sessions[tid], before)
    ensures var n' := SendNextChunk(n, tid, env).node;
            var now := if ChunkDue(n.sessions[tid]) && !env.readable then {tid} else {};
            && tid in n'.sessions && n'.sessions == n.sessions[tid := n'.sessions[tid]]
            && n'.sessions[tid].direction == Outgoing && OutgoingHandle(tid, n'.sessions[tid], before + now)
  {
  }

  lemma TimerHandle(n: Node, tid: string, env: Env, hash: Data -> string, before: set<string>)
    requires ShapeInv(n) && HandlesInv(n, before)
    ensures HandlesInv(Act(n, Timer(tid), env, hash).node, before + Unreadable(n, Timer(tid), env))
  {
    hide SendNextChunk, HandlesInv, OutgoingHandle;
    var n' := Act(n, Timer(tid), env, hash).node;
    if tid in n.timers {
      OwnSession(n, tid);
      OwnHandle(n, tid, before);
      var m := n.(timers := n.timers - multiset{tid});
      if n.sessions[tid].state != Transferring {
        NothingSent(m, tid, env);
        SameHandles(n, n', before);
      } else if IsIncoming(n, tid) {
        StaysIncoming(m, tid, env);
        OneHandle(n, n', tid, before, {});
      } else {
        SendNextHandle(m, tid, env, before);
        OneHandle(n, n', tid, before, Unreadable(n, Timer(tid), env));
      }
    } else {
      SameHandles(n, n', before);
    }
  }

  lemma StaysIncoming(n: Node, tid: string, env: Env)
    requires IsIncoming(n, tid) && n.sessions[tid].handle == Writing
    ensures var n' := SendNextChunk(n, tid, env).node;
            IsIncoming(n', tid) && n'.sessions == n.sessions[tid := n'.sessions[tid]]
  {
  }

  lemma NothingSent(n: Node, tid: string, env: Env)
    requires tid in n.sessions && n.sessions[tid].state != Transferring
    ensures SendNextChunk(n, tid, env).node == n
  {
  }

  lemma OwnHandle(n: Node, tid: string, before: set<string>)
    requires HandlesInv(n, before)
    ensures tid in n.sessions && n.sessions[tid].direction == Outgoing ==> OutgoingHandle(tid, n.sessions[tid], before)
  {
  }

  lemma AcceptedHandle(n: Node, tid: string, env: Env, hash: Data -> string, before: set<string>)
    requires HandlesInv(n, before)
    ensures HandlesInv(Act(n, Receive(FileAccept(tid)), env, hash).node, before + Unreadable(n, Receive(FileAccept(tid)), env))
  {
    hide SendNextChunk, HandlesInv;
    var n' := Act(n, Receive(FileAccept(tid)), env, hash).node;
    OwnHandle(n, tid, before);
    if tid == "" || tid !in n.sessions || n.sessions[tid].direction != Outgoing || n.sessions[tid].state != Offering {
      SameHandles(n, n', before);
    } else if n.sessions[tid].sourcePath !in n.disk || !env.opens {
      OneHandle(n, n', tid, before, {});
    } else {
      var s := n.sessions[tid];
      var s' := s.(handle := Reading(n.disk[s.sourcePath], 0), state := Transferring,
                   transferredBytes := 0, currentChunkIndex := 0);
      SendNextHandle(Put(n, tid, s'), tid, env, before);
      OneHandle(n, n', tid, before, Unreadable(n, Receive(FileAccept(tid)), env));
    }
  }

  lemma StopHandle(n: Node, tid: string, state: TransferState, before: set<string>)
    requires HandlesInv(n, before) && (state == Rejected || state == Cancelled)
    ensures tid in n.sessions ==>
              HandlesInv(Cleanup(Put(n, tid, n.sessions[tid].(state := state)), tid), before + {})
  {
    hide HandlesInv;
    if tid in n.sessions {
      OwnHandle(n, tid, before);
      OneHandle(n, Cleanup(Put(n, tid, n.sessions[tid].(state := state)), tid), tid, before, {});
    }
  }

  lemma DisconnectHandles(n: Node, before: set<string>)
    requires HandlesInv(n, before)
    ensures HandlesInv(OnSocketDisconnected(n), before + {})
  {
  }

  /** Offering, accepting, and the messages about incoming transfers. */
  lemma OtherHandles(n: Node, act: Action, env: Env, hash: Data -> string, before: set<string>)
    requires ShapeInv(n) && HandlesInv(n, before) && Sound(n, act)
    requires act.Offer? || act.Accept? || (act.Receive? && AboutIncoming(act.message))
    ensures HandlesInv(Act(n, act, env, hash).node, before + {})
  {
    hide HandlesInv, ShapeInv;
    var n', tid := Act(n, act, env, hash).node, if act.Receive? then act.message.tid else act.tid;
    OtherSessions(n, act, env, hash);
    if n'.sessions == n.sessions {
      SameHandles(n, n', before);
    } else {
      OwnHandle(n, tid, before);
      BrokenIsKnown(n, before);
      OneHandle(n, n', tid, before, {});
    }
  }

  lemma BrokenIsKnown(n: Node, before: set<string>)
    requires HandlesInv(n, before)
    ensures forall tid :: tid in before ==> tid in n.sessions
  {
  }

  predicate AboutIncoming(m: Message) {
    m.FileOffer? || m.FileChunk? || m.FileComplete?
  }

  /** They change one session, which is then an incoming one or a new offer. */
  lemma OtherSessions(n: Node, act: Action, env: Env, hash: Data -> string)
    requires Sound(n, act) && (act.Offer? || act.Accept? || (act.Receive? && AboutIncoming(act.message)))
    ensures var n', tid := Act(n, act, env, hash).node, if act.Receive? then act.message.tid else act.tid;
            n'.sessions == n.sessions
            || (tid in n'.sessions && n'.sessions == n.sessions[tid := n'.sessions[tid]]
                && (n'.sessions[tid].direction == Incoming
                    || (tid !in n.sessions && n'.sessions[tid].state == Offering && n'.sessions[tid].handle == Closed
                        && n'.sessions[tid].chunkSize == DEFAULT_FILE_CHUNK_SIZE)))
  {
    hide SanitizeFileName, Lower;
  }

  lemma ActKeepsHandles(n: Node, act: Action, env: Env, hash: Data -> string, before: set<string>)
    requires ShapeInv(n) && HandlesInv(n, before) && Sound(n, act)
    ensures HandlesInv(Act(n, act, env, hash).node, before + Unreadable(n, act, env))
  {
    hide HandlesInv, ShapeInv, Sound, Cleanup, SendFile, AcceptTransfer, OnFileAccept, OnFileChunk, OnFileComplete,
         OnFileOffer, OnTimer, OnSocketDisconnected;
    match act
    case Offer(_, _) => OtherHandles(n, act, env, hash, before);
    case Accept(_, _) => OtherHandles(n, act, env, hash, before);
    case Timer(tid) => TimerHandle(n, tid, env, hash, before);
    case Disconnect => DisconnectHandles(n, before);
    case Reject(tid, _) =>
      StopHandle(n, tid, Rejected, before);
      SameHandles(n, n, before);
    case Cancel(tid, _) =>
      StopHandle(n, tid, Cancelled, before);
      SameHandles(n, n, before);
    case Receive(m) =>
      SameHandles(n, n, before);
      match m {
        case FileOffer(_, _, _, _, _, _) => OtherHandles(n, act, env, hash, before);
        case FileAccept(tid) => AcceptedHandle(n, tid, env, hash, before);
        case FileReject(tid, _) => StopHandle(n, tid, Rejected, before);
        case FileChunk(_, _, _) => OtherHandles(n, act, env, hash, before);
        case FileComplete(_, _) => OtherHandles(n, act, env, hash, before);
        case FileCancel(tid, _) => StopHandle(n, tid, Cancelled, before);
      }
  }

  // ---------------------------------------------------------------------
  // Whole runs
  // ---------------------------------------------------------------------

  predicate SoundRun(n: Node, steps: seq<(Action, Env)>, hash: Data -> string) {
    steps != [] ==>
      && SoundRun(n, steps[..|steps| - 1], hash)
      && Sound(RunFrom(n, steps[..|steps| - 1], hash), steps[|steps| - 1].0)
  }

  /** The transfers that some step of the run ended on an unreadable chunk. */
  function UnreadableIn(n: Node, steps: seq<(Action, Env)>, hash: Data -> string): set<string> {
    if steps == [] then {}
    else
      var before := steps[..|steps| - 1];
      UnreadableIn(n, before, hash)
      + Unreadable(RunFrom(n, before, hash), steps[|steps| - 1].0, steps[|steps| - 1].1)
  }

  lemma {:induction false} RunKeepsHandles(n: Node, steps: seq<(Action, Env)>, hash: Data -> string)
    requires Fresh(n) && SoundRun(n, steps, hash)
    ensures ShapeInv(RunFrom(n, steps, hash)) && HandlesInv(RunFrom(n, steps, hash), UnreadableIn(n, steps, hash))
  {
    hide Act, Unreadable, Sound;
    if steps != [] {
      var before, last := steps[..|steps| - 1], steps[|steps| - 1];
      RunKeepsHandles(n, before, hash);
      ActKeeps(RunFrom(n, before, hash), last.0, last.1, hash);
      ActKeepsHandles(RunFrom(n, before, hash), last.0, last.1, hash, UnreadableIn(n, before, hash));
    }
  }

  /**
   After every run, repeated offers included: an outgoing transfer that does not stream has its source
   file closed, exactly unless it failed on a chunk that could not be read; one that streams has it open.
   */
  lemma OutgoingHandlesExact(n: Node, steps: seq<(Action, Env)>, hash: Data -> string, tid: string)
    requires Fresh(n) && SoundRun(n, steps, hash)
    ensures var m := RunFrom(n, steps, hash);
            tid in m.sessions && m.sessions[tid].direction == Outgoing ==>
            var s := m.sessions[tid];
            && (s.state == Transferring ==> s.handle.Reading?)
            && (s.state != Transferring ==>
                  (s.handle == Closed <==> !(s.state == Failed && tid in UnreadableIn(n, steps, hash))))
  {
    hide RunFrom, UnreadableIn, SoundRun;
    RunKeepsHandles(n, steps, hash);
    OwnHandle(RunFrom(n, steps, hash), tid, UnreadableIn(n, steps, hash));
  }

  /** The shortest such run: an offer is accepted and the first chunk cannot be read. */
  lemma UnreadableRun(n: Node, tid: string, path: Path, hash: Data -> string)
    requires Fresh(n) && tid != "" && path in n.disk && n.disk[path] != [] && hash(n.disk[path]) != ""
    ensures var steps := [(Offer(tid, path), Env(true, true, true)), (Receive(FileAccept(tid)), Env(true, false, true))];
            var m := RunFrom(n, steps, hash);
            && SoundRun(n, steps, hash) && tid in m.sessions
            && m.sessions[tid].state == Failed && m.sessions[tid].handle == Reading(n.disk[path], 0)
  {
    hide SanitizeFileName;
    var steps := [(Offer(tid, path), Env(true, true, true)), (Receive(FileAccept(tid)), Env(true, false, true))];
    assert steps[..1] == [steps[0]] && steps[..1][..0] == [];
    assert RunFrom(n, steps[..1], hash) == Act(n, steps[0].0, steps[0].1, hash).node;
    assert SoundRun(n, [], hash);
  }
}
