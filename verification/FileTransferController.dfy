/** The controller object, whose methods update sessions and files step by step. */
module FileTransferController {
  import opened Bytes
  import opened FileNames
  import opened FileTransfer

  class Controller {
    const hash: Data -> string
    var sessions: map<string, Session>
    var disk: Disk
    var timers: multiset<string>
    /** Every message handed to the socket, in order. */
    var outbox: seq<Message>

    constructor (hash: Data -> string, disk: Disk)
      ensures this.hash == hash && outbox == []
      ensures AsNode() == Node(map[], disk, multiset{})
    {
      this.hash, this.disk := hash, disk;
      sessions, timers, outbox := map[], multiset{}, [];
    }

    /** The state, as a value. */
    function AsNode(): Node
      reads this
    {
      Node(sessions, disk, timers)
    }

    method SendFrame(m: Message)
      modifies this`outbox
      ensures outbox == old(outbox) + [m]
    {
      outbox := outbox + [m];
    }

    method SendFileTo(tid: string, path: Path, env: Env)
      modifies this`sessions, this`outbox
      ensures var e := SendFile(old(AsNode()), tid, path, env, hash);
              AsNode() == e.node && outbox == old(outbox) + e.sent
    {
      if path !in disk || !env.opens {
        return;
      }
      var size, sha256 := |disk[path]|, hash(disk[path]);
      if sha256 == "" {
        return;
      }
      var session := Session(SanitizeFileName(path.name), size, sha256, DEFAULT_FILE_CHUNK_SIZE, TotalChunks(size),
                             Outgoing, Offering, 0, 0, path, NO_PATH, NO_PATH, Closed, []);
      sessions := sessions[tid := session];
      SendFrame(FileOffer(tid, SanitizeFileName(session.fileName), size, sha256, session.chunkSize, session.totalChunks));
    }

    method Accept(tid: string, dir: string, env: Env)
      modifies this`sessions, this`disk, this`outbox
      ensures var e := AcceptTransfer(old(AsNode()), tid, dir, env);
              AsNode() == e.node && outbox == old(outbox) + e.sent
    {
      if tid !in sessions {
        return;
      }
      var session := sessions[tid];
      if session.state != Offering || session.direction != Incoming {
        return;
      }
      session := session.(finalPath := Path(dir, session.fileName), tempPath := TempPath(dir, tid));
      if !env.opens {
        sessions := sessions[tid := session.(handle := Closed, state := Failed)];
        return;
      }
      disk := disk[session.tempPath := []];
      session := session.(handle := Writing, hashed := []);
      session := session.(state := Transferring, transferredBytes := 0, currentChunkIndex := 0);
      sessions := sessions[tid := session];
      SendFrame(FileAccept(tid));
      if session.fileSize == 0 {
        session := session.(handle := Closed);
        disk := disk - {session.finalPath};
        if CanRename(disk, session.tempPath, session.finalPath, env) {
          disk := Renamed(disk, session.tempPath, session.finalPath);
        }
        sessions := sessions[tid := session.(state := Completed)];
      }
    }

    method CleanupSession(tid: string)
      modifies this`sessions, this`disk
      ensures AsNode() == Cleanup(old(AsNode()), tid)
    {
      if tid !in sessions {
        return;
      }
      var session := sessions[tid];
      sessions := sessions[tid := session.(handle := Closed)];
      if session.tempPath != NO_PATH && session.tempPath in disk {
        disk := disk - {session.tempPath};
      }
    }

    method Reject(tid: string, reason: string)
      modifies this`sessions, this`disk, this`outbox
      ensures var e := RejectTransfer(old(AsNode()), tid, reason);
              AsNode() == e.node && outbox == old(outbox) + e.sent
    {
      if tid !in sessions {
        return;
      }
      sessions := sessions[tid := sessions[tid].(state := Rejected)];
      SendFrame(FileReject(tid, reason));
      CleanupSession(tid);
    }

    method Cancel(tid: string, reason: string)
      modifies this`sessions, this`disk, this`outbox
      ensures var e := CancelTransfer(old(AsNode()), tid, reason);
              AsNode() == e.node && outbox == old(outbox) + e.sent
    {
      if tid !in sessions {
        return;
      }
      sessions := sessions[tid := sessions[tid].(state := Cancelled)];
      SendFrame(FileCancel(tid, reason));
      CleanupSession(tid);
    }

    method SendNext(tid: string, env: Env)
      modifies this`sessions, this`timers, this`outbox
      ensures var e := SendNextChunk(old(AsNode()), tid, env);
              AsNode() == e.node && outbox == old(outbox) + e.sent
    {
      if tid !in sessions {
        return;
      }
      var session := sessions[tid];
      if session.state != Transferring || session.handle.Closed? {
        return;
      }
      if AtEnd(session.handle) || session.transferredBytes >= session.fileSize {
        session := session.(handle := Closed, state := Verifying);
        SendFrame(FileComplete(tid, session.expectedSha256));
        sessions := sessions[tid := session.(state := Completed)];
        return;
      }
      var data := [];
      if env.readable {
        data := ReadUpTo(session.handle, session.chunkSize);
      }
      if data == [] && session.fileSize > 0 {
        sessions := sessions[tid := session.(state := Failed)];
        return;
      }
      session := session.(handle := session.handle.(pos := session.handle.pos + |data|));
      SendFrame(FileChunk(tid, session.currentChunkIndex, data));
      session := session.(transferredBytes := session.transferredBytes + |data|);
      session := session.(currentChunkIndex := (session.currentChunkIndex + 1) % TWO_32);
      sessions := sessions[tid := session];
      timers := timers + multiset{tid};
    }

    method TimerFires(tid: string, env: Env)
      modifies this`sessions, this`timers, this`outbox
      ensures var e := OnTimer(old(AsNode()), tid, env);
              AsNode() == e.node && outbox == old(outbox) + e.sent
    {
      if tid !in timers {
        return;
      }
      timers := timers - multiset{tid};
      SendNext(tid, env);
    }

    method HandleInboundFileOffer(m: Message)
      requires m.FileOffer? && WellFormed(m)
      modifies this`sessions
      ensures AsNode() == OnFileOffer(old(AsNode()), m).node
    {
      var chunkSize := m.chunkSize;
      if chunkSize <= 0 {
        chunkSize := DEFAULT_FILE_CHUNK_SIZE;
      }
      var name := SanitizeFileName(SanitizeFileName(m.fileName));
      sessions := sessions[m.tid := Session(name, m.fileSize, m.sha256, chunkSize, m.totalChunks,
                                            Incoming, Offering, 0, 0, NO_PATH, NO_PATH, NO_PATH, Closed, [])];
    }

    method HandleInboundFileAccept(tid: string, env: Env)
      modifies this`sessions, this`timers, this`outbox
      ensures var e := OnFileAccept(old(AsNode()), tid, env);
              AsNode() == e.node && outbox == old(outbox) + e.sent
    {
      if tid !in sessions {
        return;
      }
      var session := sessions[tid];
      if session.direction != Outgoing || session.state != Offering {
        return;
      }
      if session.sourcePath !in disk || !env.opens {
        sessions := sessions[tid := session.(handle := Closed, state := Failed)];
        return;
      }
      session := session.(handle := Reading(disk[session.sourcePath], 0));
      session := session.(state := Transferring, transferredBytes := 0, currentChunkIndex := 0);
      sessions := sessions[tid := session];
      SendNext(tid, env);
    }

    method HandleInboundFileReject(tid: string)
      modifies this`sessions, this`disk
      ensures AsNode() == OnFileReject(old(AsNode()), tid).node
    {
      if tid !in sessions {
        return;
      }
      sessions := sessions[tid := sessions[tid].(state := Rejected)];
      CleanupSession(tid);
    }

    method HandleInboundFileCancel(tid: string)
      modifies this`sessions, this`disk
      ensures AsNode() == OnFileCancel(old(AsNode()), tid).node
    {
      if tid !in sessions {
        return;
      }
      sessions := sessions[tid := sessions[tid].(state := Cancelled)];
      CleanupSession(tid);
    }

    method HandleInboundFileChunk(tid: string, index: nat, data: Data)
      modifies this`sessions, this`disk
      ensures AsNode() == OnFileChunk(old(AsNode()), tid, index, data).node
    {
      if tid !in sessions {
        return;
      }
      var session := sessions[tid];
      if session.state != Transferring || session.direction != Incoming {
        return;
      }
      if index != session.currentChunkIndex {
        sessions := sessions[tid := session.(state := Failed)];
        CleanupSession(tid);
        return;
      }
      if session.handle.Writing? && session.tempPath in disk {
        disk := disk[session.tempPath := disk[session.tempPath] + data];
      }
      session := session.(hashed := session.hashed + data);
      session := session.(transferredBytes := session.transferredBytes + |data|);
      session := session.(currentChunkIndex := (session.currentChunkIndex + 1) % TWO_32);
      sessions := sessions[tid := session];
    }

    method HandleInboundFileComplete(tid: string, env: Env)
      modifies this`sessions, this`disk
      ensures AsNode() == OnFileComplete(old(AsNode()), tid, env, hash).node
    {
      if tid !in sessions {
        return;
      }
      var session := sessions[tid];
      if session.direction != Incoming || session.state != Transferring {
        return;
      }
      session := session.(state := Verifying, handle := Closed);
      var calculated := hash(session.hashed);
      if Lower(calculated) == Lower(session.expectedSha256) {
        disk := disk - {session.finalPath};
        if CanRename(disk, session.tempPath, session.finalPath, env) {
          disk := Renamed(disk, session.tempPath, session.finalPath);
          sessions := sessions[tid := session.(state := Completed)];
        } else {
          sessions := sessions[tid := session.(state := Failed)];
          CleanupSession(tid);
        }
      } else {
        sessions := sessions[tid := session.(state := Failed)];
        CleanupSession(tid);
      }
    }

    method OnFrameReceivedFrom(m: Message, env: Env)
      modifies this`sessions, this`disk, this`timers, this`outbox
      ensures var e := OnMessage(old(AsNode()), m, env, hash);
              AsNode() == e.node && outbox == old(outbox) + e.sent
    {
      if !WellFormed(m) {
        return;
      }
      match m
      case FileOffer(_, _, _, _, _, _) => HandleInboundFileOffer(m);
      case FileAccept(tid) => HandleInboundFileAccept(tid, env);
      case FileReject(tid, _) => HandleInboundFileReject(tid);
      case FileChunk(tid, index, data) => HandleInboundFileChunk(tid, index, data);
      case FileComplete(tid, _) => HandleInboundFileComplete(tid, env);
      case FileCancel(tid, _) => HandleInboundFileCancel(tid);
    }

    method FailIfRunning(tid: string)
      requires tid in sessions
      modifies this`sessions, this`disk
      ensures sessions == old(sessions)[tid := FailedByDisconnect(old(sessions)[tid])]
      ensures disk == old(disk) - RemovedWith(old(sessions)[tid])
    {
      var session := sessions[tid];
      if session.state == Offering || session.state == Transferring {
        sessions := sessions[tid := session.(state := Failed)];
        CleanupSession(tid);
      }
    }

    /** The loop over all sessions. */
    method OnDisconnected()
      modifies this`sessions, this`disk
      ensures AsNode() == OnSocketDisconnected(old(AsNode()))
    {
      hide RemovedOnDisconnect;
      ghost var before := AsNode();
      var pending := sessions.Keys;
      assert sessions.Keys - pending == {};
      RemovedSoFar(before.sessions, {}, "");
      while pending != {}
        invariant sessions.Keys == before.sessions.Keys && pending <= sessions.Keys
        invariant forall t :: t in sessions ==>
                    sessions[t] == if t in pending then before.sessions[t] else FailedByDisconnect(before.sessions[t])
        invariant disk == before.disk - RemovedOnDisconnect(before.sessions, sessions.Keys - pending)
        decreases pending
      {
        var tid :| tid in pending;
        RemovedSoFar(before.sessions, sessions.Keys - pending, tid);
        assert sessions.Keys - (pending - {tid}) == sessions.Keys - pending + {tid};
        FailIfRunning(tid);
        pending := pending - {tid};
      }
      assert sessions.Keys - {} == sessions.Keys;
    }
  }

  function RemovedWith(s: Session): set<Path> {
    if StopsOnDisconnect(s) && s.tempPath != NO_PATH then {s.tempPath} else {}
  }

  lemma RemovedSoFar(sessions: map<string, Session>, done: set<string>, tid: string)
    ensures RemovedOnDisconnect(sessions, {}) == {}
    ensures tid in sessions ==>
              RemovedOnDisconnect(sessions, done + {tid}) ==
              RemovedOnDisconnect(sessions, done)
              + RemovedWith(sessions[tid])
  {
    if tid in sessions {
      forall p | p in RemovedOnDisconnect(sessions, done + {tid})
        ensures p in RemovedOnDisconnect(sessions, done)
                || (p == sessions[tid].tempPath && p != NO_PATH && StopsOnDisconnect(sessions[tid]))
      {
      }
    }
  }
}
