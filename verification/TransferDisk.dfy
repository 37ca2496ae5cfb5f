/** What every step of a controller keeps true of its sessions and its files. */
module TransferDisk {
  import opened FileNames
  import opened FileTransfer

  datatype Action =
    | Offer(tid: string, path: Path)
    | Accept(tid: string, dir: string)
    | Reject(tid: string, reason: string)
    | Cancel(tid: string, reason: string)
    | Timer(tid: string)
    | Receive(message: Message)
    | Disconnect

  function Act(n: Node, act: Action, env: Env, hash: Data -> string): Effect {
    match act
    case Offer(tid, path) => SendFile(n, tid, path, env, hash)
    case Accept(tid, dir) => AcceptTransfer(n, tid, dir, env)
    case Reject(tid, reason) => RejectTransfer(n, tid, reason)
    case Cancel(tid, reason) => CancelTransfer(n, tid, reason)
    case Timer(tid) => OnTimer(n, tid, env)
    case Receive(m) => OnMessage(n, m, env, hash)
    case Disconnect => Effect(OnSocketDisconnected(n), [])
  }

  // ---------------------------------------------------------------------
  // What the steps assume of their surroundings
  // ---------------------------------------------------------------------

  /** The ids of own transfers are fresh. */
  predicate Sound(n: Node, act: Action) {
    act.Offer? ==> act.tid !in n.sessions
  }

  predicate IsIncoming(n: Node, tid: string) {
    tid in n.sessions && n.sessions[tid].direction == Incoming
  }

  predicate Receiving(n: Node, tid: string) {
    IsIncoming(n, tid) && n.sessions[tid].state == Transferring
  }

  /** The file name is not that of a temporary file of this or another known transfer, nor the other way round. */
  predicate NameFree(n: Node, tid: string, name: string) {
    && name != TEMP_PREFIX + tid
    && forall t :: t in n.sessions && IsIncoming(n, t) && t != tid ==>
         name != TEMP_PREFIX + t && n.sessions[t].fileName != TEMP_PREFIX + tid
  }

  /** An offered name is free when it arrives. */
  predicate NameSound(n: Node, act: Action) {
    match act
    case Receive(FileOffer(tid, name, _, _, _, _)) => NameFree(n, tid, SanitizeFileName(SanitizeFileName(name)))
    case _ => true
  }

  /** No chunk is pending under the id of an offer that arrives. */
  predicate TimeSound(n: Node, act: Action) {
    match act
    case Receive(FileOffer(tid, _, _, _, _, _)) => tid !in n.timers
    case _ => true
  }

  /** The temporary name of an offered transfer is not in use, and an empty file can be renamed. */
  predicate DiskSound(n: Node, act: Action, env: Env) {
    match act
    case Accept(tid, _) => tid in n.sessions && n.sessions[tid].fileSize == 0 ==> env.renames
    case Receive(FileOffer(tid, _, _, _, _, _)) => Unused(n.disk, tid)
    case _ => true
  }

  /** No file, in any directory, has the temporary name of the transfer. */
  predicate Unused(disk: Disk, tid: string) {
    forall p :: p in disk ==> p.name != TEMP_PREFIX + tid
  }

  predicate Allowed(n: Node, act: Action, env: Env) {
    Sound(n, act) && NameSound(n, act) && TimeSound(n, act) && DiskSound(n, act, env)
  }

  // ---------------------------------------------------------------------
  // What they keep
  // ---------------------------------------------------------------------

  predicate SettledState(state: TransferState) {
    state == Offering || state == Completed || state == Failed || state == Rejected || state == Cancelled
  }

  /** An incoming session has an open temporary file of its own name while it is transferring. */
  predicate IncomingInv(tid: string, s: Session) {
    && s.fileName != ""
    && (s.tempPath == NO_PATH || s.tempPath.name == TEMP_PREFIX + tid)
    && (if s.state == Transferring then
          && s.handle == Writing && |s.hashed| == s.transferredBytes
          && s.tempPath.name == TEMP_PREFIX + tid && s.finalPath == Path(s.tempPath.dir, s.fileName)
        else SettledState(s.state) && s.handle == Closed)
  }

  predicate OutgoingInv(s: Session) {
    s.tempPath == NO_PATH && s.handle != Writing
  }

  predicate SessionInv(tid: string, s: Session) {
    if s.direction == Incoming then IncomingInv(tid, s) else OutgoingInv(s)
  }

  /** Every step keeps this, whatever is offered. */
  ghost predicate ShapeInv(n: Node) {
    && NO_PATH !in n.disk
    && (forall tid :: tid in n.sessions ==> SessionInv(tid, n.sessions[tid]))
    && (forall tid :: tid in n.timers ==> tid in n.sessions)
  }

  /** Chunk timers are those of outgoing transfers. */
  ghost predicate OnTime(n: Node) {
    forall tid :: tid in n.timers ==> !IsIncoming(n, tid)
  }

  /** No file is to be delivered under the name of a temporary file. */
  ghost predicate NamesInv(n: Node) {
    forall t, u :: IsIncoming(n, t) && IsIncoming(n, u) ==> n.sessions[t].fileName != TEMP_PREFIX + u
  }

  /** The temporary file of a transfer holds what was hashed. */
  predicate HeldBy(s: Session, disk: Disk) {
    s.tempPath in disk && disk[s.tempPath] == s.hashed
  }

  ghost predicate Held(n: Node) {
    forall tid :: Receiving(n, tid) ==> HeldBy(n.sessions[tid], n.disk)
  }

  /** A temporary file on disk is that of a session which is transferring into it. */
  predicate Live(n: Node, tid: string, p: Path) {
    Receiving(n, tid) && n.sessions[tid].tempPath == p
  }

  ghost predicate Tidy(n: Node) {
    forall tid, p :: IsIncoming(n, tid) && p in n.disk && p.name == TEMP_PREFIX + tid ==> Live(n, tid, p)
  }

  /** What is received is on disk, if all offered names were free. */
  ghost predicate CoreInv(n: Node) {
    ShapeInv(n) && NamesInv(n) && Held(n)
  }

  ghost predicate NodeInv(n: Node) {
    CoreInv(n) && OnTime(n) && Tidy(n)
  }

  /** Temporary files of different transfers have different names. */
  lemma TempNamesDiffer(t: string, u: string)
    requires t != u
    ensures TEMP_PREFIX + t != TEMP_PREFIX + u
  {
    assert (TEMP_PREFIX + t)[|TEMP_PREFIX|..] == t && (TEMP_PREFIX + u)[|TEMP_PREFIX|..] == u;
  }

  lemma OwnSession(n: Node, tid: string)
    requires ShapeInv(n)
    ensures NO_PATH !in n.disk && (tid in n.sessions ==> SessionInv(tid, n.sessions[tid]))
    ensures tid in n.timers ==> tid in n.sessions
  {
  }

  /** Everything on disk that does not belong to this session. */
  ghost predicate OthersSpared(n: Node, n': Node, tid: string) {
    forall u, p: Path :: IsIncoming(n, u) && u != tid && p.name == TEMP_PREFIX + u ==>
      (p in n.disk <==> p in n'.disk) && (p in n.disk ==> n'.disk[p] == n.disk[p])
  }

  /** Only one session changes. */
  predicate OnlySession(n: Node, n': Node, tid: string) {
    && tid in n'.sessions && n'.sessions == n.sessions[tid := n'.sessions[tid]]
    && forall t :: t in n'.timers ==> t in n.timers || t == tid
  }

  lemma OneShape(n: Node, n': Node, tid: string)
    requires ShapeInv(n) && OnlySession(n, n', tid) && SessionInv(tid, n'.sessions[tid]) && NO_PATH !in n'.disk
    ensures ShapeInv(n')
  {
  }

  /** A step that writes under no names but those of its session's files spares the others' temporary files. */
  lemma SparesOthers(n: Node, n': Node, tid: string)
    requires NamesInv(n)
    requires forall p: Path :: p.name != TEMP_PREFIX + tid && !(IsIncoming(n, tid) && p.name == n.sessions[tid].fileName) ==>
               (p in n.disk <==> p in n'.disk) && (p in n.disk ==> n'.disk[p] == n.disk[p])
    ensures OthersSpared(n, n', tid)
  {
    forall u, p: Path | IsIncoming(n, u) && u != tid && p.name == TEMP_PREFIX + u
      ensures (p in n.disk <==> p in n'.disk) && (p in n.disk ==> n'.disk[p] == n.disk[p])
    {
      TempNamesDiffer(u, tid);
    }
  }

  lemma OneHeld(n: Node, n': Node, tid: string)
    requires ShapeInv(n) && Held(n) && OnlySession(n, n', tid) && OthersSpared(n, n', tid)
    requires Receiving(n', tid) ==> HeldBy(n'.sessions[tid], n'.disk)
    ensures Held(n')
  {
    forall t | Receiving(n', t)
      ensures HeldBy(n'.sessions[t], n'.disk)
    {
      if t != tid {
        assert Receiving(n, t);
        OwnSession(n, t);
      }
    }
  }

  lemma OneTidy(n: Node, n': Node, tid: string)
    requires Tidy(n) && OnlySession(n, n', tid) && OthersSpared(n, n', tid)
    requires IsIncoming(n', tid) ==> forall p :: p in n'.disk && p.name == TEMP_PREFIX + tid ==> Live(n', tid, p)
    ensures Tidy(n')
  {
    forall t, p | IsIncoming(n', t) && p in n'.disk && p.name == TEMP_PREFIX + t
      ensures Live(n', t, p)
    {
      if t != tid {
        assert IsIncoming(n, t);
        assert Live(n, t, p);
      }
    }
  }

  /** On a tidy disk the only file with a session's temporary name is the one it is transferring into. */
  lemma OwnTemps(n: Node, tid: string)
    requires Tidy(n) && IsIncoming(n, tid)
    ensures forall p :: p in n.disk && p.name == TEMP_PREFIX + tid ==> Live(n, tid, p)
  {
  }

  /**
   A step changes one session and writes under no names but its own: the shape is kept, the others'
   temporary files hold what was hashed, and where `tidy` says so there are no orphans.
   */
  ghost predicate Keeps(n: Node, n': Node, tidy: bool) {
    && ShapeInv(n')
    && (NamesInv(n) && Held(n) ==> Held(n'))
    && (tidy && NodeInv(n) ==> Tidy(n'))
  }

  lemma OneSession(n: Node, n': Node, tid: string, tidy: bool)
    requires ShapeInv(n) && OnlySession(n, n', tid) && SessionInv(tid, n'.sessions[tid]) && NO_PATH !in n'.disk
    requires forall p: Path :: p.name != TEMP_PREFIX + tid && !(IsIncoming(n, tid) && p.name == n.sessions[tid].fileName) ==>
               (p in n.disk <==> p in n'.disk) && (p in n.disk ==> n'.disk[p] == n.disk[p])
    requires NamesInv(n) && Held(n) && Receiving(n', tid) ==> HeldBy(n'.sessions[tid], n'.disk)
    requires tidy && NodeInv(n) && IsIncoming(n', tid) ==>
               forall p :: p in n'.disk && p.name == TEMP_PREFIX + tid ==> Live(n', tid, p)
    ensures Keeps(n, n', tidy)
  {
    hide SessionInv, HeldBy, Held, NamesInv, ShapeInv, Tidy;
    OneShape(n, n', tid);
    if NamesInv(n) && Held(n) {
      SparesOthers(n, n', tid);
      OneHeld(n, n', tid);
      if tidy && NodeInv(n) {
        OneTidy(n, n', tid);
      }
    }
  }

  /** What holds of one session under the invariants. */
  lemma OwnFile(n: Node, tid: string)
    requires IsIncoming(n, tid)
    ensures NamesInv(n) ==> n.sessions[tid].fileName != TEMP_PREFIX + tid
    ensures Held(n) && Receiving(n, tid) ==> HeldBy(n.sessions[tid], n.disk)
    ensures Tidy(n) ==> forall p :: p in n.disk && p.name == TEMP_PREFIX + tid ==> Live(n, tid, p)
    ensures OnTime(n) ==> tid !in n.timers
  {
  }

  lemma ActKeeps(n: Node, act: Action, env: Env, hash: Data -> string)
    requires ShapeInv(n)
    ensures Keeps(n, Act(n, act, env, hash).node, DiskSound(n, act, env))
  {
    hide ShapeInv, Keeps, SessionInv, SanitizeFileName, Unused;
    NothingChanges(n);
    match act
    case Offer(tid, path) => OfferKeeps(n, tid, path, env, hash);
    case Accept(tid, dir) => AcceptKeeps(n, tid, dir, env);
    case Reject(tid, reason) => StopKeeps(n, tid, Rejected);
    case Cancel(tid, reason) => StopKeeps(n, tid, Cancelled);
    case Timer(tid) => TimerKeeps(n, tid, env);
    case Disconnect => DisconnectKeeps(n);
    case Receive(m) =>
      KeepsForFree(n, m);
      if WellFormed(m) {
        match m
        case FileOffer(_, _, _, _, _, _) => ReceiveOfferKeeps(n, m);
        case FileAccept(tid) => ReceiveAcceptKeeps(n, tid, env);
        case FileReject(tid, _) => StopKeeps(n, tid, Rejected);
        case FileChunk(tid, index, data) => ChunkKeeps(n, tid, index, data);
        case FileComplete(tid, _) => CompleteKeeps(n, tid, env, hash);
        case FileCancel(tid, _) => StopKeeps(n, tid, Cancelled);
      }
  }

  lemma NothingChanges(n: Node)
    requires ShapeInv(n)
    ensures Keeps(n, n, true) && Keeps(n, n, false)
  {
  }

  /** Only offers put a condition on the disk. */
  lemma KeepsForFree(n: Node, m: Message)
    ensures forall env :: !m.FileOffer? ==> DiskSound(n, Receive(m), env)
  {
  }

  lemma OfferKeeps(n: Node, tid: string, path: Path, env: Env, hash: Data -> string)
    requires ShapeInv(n)
    ensures Keeps(n, SendFile(n, tid, path, env, hash).node, true)
  {
    hide SanitizeFileName, ShapeInv, NodeInv, NamesInv, Held, Keeps;
    var n' := SendFile(n, tid, path, env, hash).node;
    OwnSession(n, tid);
    NothingChanges(n);
    if n' != n {
      OneSession(n, n', tid, true);
    }
  }

  lemma ReceiveOfferKeeps(n: Node, m: Message)
    requires ShapeInv(n) && m.FileOffer? && WellFormed(m)
    ensures Keeps(n, OnFileOffer(n, m).node, Unused(n.disk, m.tid))
  {
    hide SanitizeFileName, ShapeInv, NodeInv, NamesInv, Held, Keeps;
    SanitizeSpec(SanitizeFileName(m.fileName));
    OwnSession(n, m.tid);
    OneSession(n, OnFileOffer(n, m).node, m.tid, Unused(n.disk, m.tid));
  }

  lemma AcceptKeeps(n: Node, tid: string, dir: string, env: Env)
    requires ShapeInv(n)
    ensures Keeps(n, AcceptTransfer(n, tid, dir, env).node,
                  tid in n.sessions && n.sessions[tid].fileSize == 0 ==> env.renames)
  {
    hide ShapeInv, NamesInv, Held, OnTime, Tidy, Keeps;
    var n' := AcceptTransfer(n, tid, dir, env).node;
    OwnSession(n, tid);
    NothingChanges(n);
    if n' != n {
      OwnFile(n, tid);
      OneSession(n, n', tid, n.sessions[tid].fileSize == 0 ==> env.renames);
    }
  }

  lemma ReceiveAcceptKeeps(n: Node, tid: string, env: Env)
    requires ShapeInv(n)
    ensures Keeps(n, OnFileAccept(n, tid, env).node, true)
  {
    hide ShapeInv, NamesInv, Held, OnTime, Tidy, Keeps;
    var n' := OnFileAccept(n, tid, env).node;
    OwnSession(n, tid);
    NothingChanges(n);
    if n' != n {
      OneSession(n, n', tid, true);
    }
  }

  lemma TimerKeeps(n: Node, tid: string, env: Env)
    requires ShapeInv(n)
    ensures Keeps(n, OnTimer(n, tid, env).node, true)
  {
    hide ShapeInv, NamesInv, Held, OnTime, Tidy, Keeps, ReadUpTo, Live;
    NothingChanges(n);
    OwnSession(n, tid);
    if tid in n.timers {
      var n' := OnTimer(n, tid, env).node;
      if IsIncoming(n, tid) {
        OwnFile(n, tid);
      }
      assert n'.sessions == n.sessions[tid := n'.sessions[tid]];
      OneSession(n, n', tid, true);
    }
  }

  /** Rejection and cancellation, from either side and in any state. */
  lemma StopKeeps(n: Node, tid: string, state: TransferState)
    requires ShapeInv(n) && (state == Rejected || state == Cancelled || state == Failed)
    ensures tid in n.sessions ==> Keeps(n, Cleanup(Put(n, tid, n.sessions[tid].(state := state)), tid), true)
  {
    hide ShapeInv, NamesInv, Held, OnTime, Tidy, Keeps;
    if tid in n.sessions {
      var n' := Cleanup(Put(n, tid, n.sessions[tid].(state := state)), tid);
      OwnSession(n, tid);
      if IsIncoming(n, tid) {
        OwnFile(n, tid);
      }
      OneSession(n, n', tid, true);
    }
  }

  lemma ChunkKeeps(n: Node, tid: string, index: nat, data: Data)
    requires ShapeInv(n)
    ensures Keeps(n, OnFileChunk(n, tid, index, data).node, true)
  {
    hide ShapeInv, NamesInv, Held, OnTime, Tidy, Keeps;
    var n' := OnFileChunk(n, tid, index, data).node;
    OwnSession(n, tid);
    NothingChanges(n);
    if Receiving(n, tid) {
      if index == n.sessions[tid].currentChunkIndex {
        OwnFile(n, tid);
        OneSession(n, n', tid, true);
      } else {
        StopKeeps(n, tid, Failed);
      }
    }
  }

  lemma CompleteKeeps(n: Node, tid: string, env: Env, hash: Data -> string)
    requires ShapeInv(n)
    ensures Keeps(n, OnFileComplete(n, tid, env, hash).node, true)
  {
    hide Lower, ShapeInv, Keeps;
    var n' := OnFileComplete(n, tid, env, hash).node;
    NothingChanges(n);
    if Receiving(n, tid) {
      var s := n.sessions[tid];
      if Lower(hash(s.hashed)) == Lower(s.expectedSha256) {
        VerifiedKeeps(n, tid, env);
      } else {
        StopKeeps(n, tid, Failed);
        assert n' == Cleanup(Put(n, tid, s.(state := Failed)), tid);
      }
    }
  }

  /** The node after a transfer whose hash matched: renamed, or failed and cleaned up. */
  function Verified(n: Node, tid: string, env: Env): Node
    requires tid in n.sessions
  {
    var closed := n.sessions[tid].(handle := Closed);
    var cleared := n.disk - {closed.finalPath};
    if CanRename(cleared, closed.tempPath, closed.finalPath, env) then
      Put(n, tid, closed.(state := Completed)).(disk := Renamed(cleared, closed.tempPath, closed.finalPath))
    else Cleanup(Put(n, tid, closed.(state := Failed)).(disk := cleared), tid)
  }

  lemma VerifiedKeeps(n: Node, tid: string, env: Env)
    requires ShapeInv(n) && Receiving(n, tid)
    ensures Keeps(n, Verified(n, tid, env), true)
  {
    hide ShapeInv, NamesInv, Held, OnTime, Tidy, Keeps;
    OwnSession(n, tid);
    OwnFile(n, tid);
    OneSession(n, Verified(n, tid, env), tid, true);
  }

  lemma DisconnectKeeps(n: Node)
    requires ShapeInv(n)
    ensures Keeps(n, OnSocketDisconnected(n), true)
  {
    hide ShapeInv, Tidy, OnSocketDisconnected;
    DisconnectShape(n);
    NothingReceiving(n);
    if NodeInv(n) {
      DisconnectTidy(n);
    }
  }

  lemma DisconnectShape(n: Node)
    requires ShapeInv(n)
    ensures ShapeInv(OnSocketDisconnected(n))
  {
  }

  lemma NothingReceiving(n: Node)
    ensures forall tid :: !Receiving(OnSocketDisconnected(n), tid)
  {
  }

  lemma DisconnectTidy(n: Node)
    requires ShapeInv(n) && Tidy(n)
    ensures Tidy(OnSocketDisconnected(n))
  {
    var n' := OnSocketDisconnected(n);
    forall tid, p | IsIncoming(n, tid) && p in n.disk && p.name == TEMP_PREFIX + tid
      ensures p !in n'.disk
    {
      assert Live(n, tid, p);
      assert n.sessions[tid].tempPath in RemovedOnDisconnect(n.sessions, n.sessions.Keys);
    }
    assert forall tid :: tid in n'.sessions && IsIncoming(n', tid) ==> IsIncoming(n, tid);
  }

  /** The names and directions of incoming sessions change with an offer only. */
  lemma NamesKept(n: Node, act: Action, env: Env, hash: Data -> string)
    requires NamesInv(n) && NameSound(n, act)
    ensures NamesInv(Act(n, act, env, hash).node)
  {
    hide SanitizeFileName, Lower;
    var n' := Act(n, act, env, hash).node;
    if act.Receive? && act.message.FileOffer? {
      forall t, u | IsIncoming(n', t) && IsIncoming(n', u)
        ensures n'.sessions[t].fileName != TEMP_PREFIX + u
      {
        assert t != act.message.tid ==> IsIncoming(n, t);
        assert u != act.message.tid ==> IsIncoming(n, u);
      }
    } else {
      SameNames(n, act, env, hash);
    }
  }

  predicate SameIncoming(n: Node, n': Node) {
    forall t :: t in n'.sessions && IsIncoming(n', t) ==> IsIncoming(n, t) && n'.sessions[t].fileName == n.sessions[t].fileName
  }

  lemma SameNames(n: Node, act: Action, env: Env, hash: Data -> string)
    requires !(act.Receive? && act.message.FileOffer?)
    ensures SameIncoming(n, Act(n, act, env, hash).node)
  {
    hide SameIncoming, OnMessage, OnSocketDisconnected;
    if act.Receive? {
      MessageNames(n, act.message, env, hash);
    } else if act.Disconnect? {
      DisconnectNames(n);
    } else {
      CallNames(n, act, env, hash);
    }
  }

  /** At most one session changes; if it is incoming then, it was so before, with the same name. */
  predicate KeepsName(n: Node, n': Node, tid: string) {
    || n'.sessions == n.sessions
    || (&& tid in n'.sessions && n'.sessions == n.sessions[tid := n'.sessions[tid]]
        && (IsIncoming(n', tid) ==> IsIncoming(n, tid) && n'.sessions[tid].fileName == n.sessions[tid].fileName))
  }

  lemma OneName(n: Node, n': Node, tid: string)
    ensures KeepsName(n, n, tid) && (KeepsName(n, n', tid) ==> SameIncoming(n, n'))
  {
  }

  lemma CallNames(n: Node, act: Action, env: Env, hash: Data -> string)
    requires !act.Receive? && !act.Disconnect?
    ensures SameIncoming(n, Act(n, act, env, hash).node)
  {
    hide KeepsName, SameIncoming, SendFile, AcceptTransfer, OnTimer, Cleanup;
    OneName(n, Act(n, act, env, hash).node, act.tid);
    match act
    case Offer(tid, path) => OfferKeepsName(n, tid, path, env, hash);
    case Accept(tid, dir) => AcceptKeepsName(n, tid, dir, env);
    case Reject(tid, _) => StopKeepsName(n, tid, Rejected);
    case Cancel(tid, _) => StopKeepsName(n, tid, Cancelled);
    case Timer(tid) => TimerKeepsName(n, tid, env);
  }

  lemma MessageNames(n: Node, m: Message, env: Env, hash: Data -> string)
    requires !m.FileOffer?
    ensures SameIncoming(n, OnMessage(n, m, env, hash).node)
  {
    hide KeepsName, SameIncoming, OnFileAccept, OnFileChunk, OnFileComplete, Cleanup;
    OneName(n, OnMessage(n, m, env, hash).node, m.tid);
    match m
    case FileAccept(tid) => AcceptedKeepsName(n, tid, env);
    case FileReject(tid, _) => StopKeepsName(n, tid, Rejected);
    case FileChunk(tid, index, data) => ChunkKeepsName(n, tid, index, data);
    case FileComplete(tid, _) => CompleteKeepsName(n, tid, env, hash);
    case FileCancel(tid, _) => StopKeepsName(n, tid, Cancelled);
  }

  lemma OfferKeepsName(n: Node, tid: string, path: Path, env: Env, hash: Data -> string)
    ensures KeepsName(n, SendFile(n, tid, path, env, hash).node, tid)
  {
    hide SanitizeFileName;
  }

  lemma AcceptKeepsName(n: Node, tid: string, dir: string, env: Env)
    ensures KeepsName(n, AcceptTransfer(n, tid, dir, env).node, tid)
  {
  }

  lemma StopKeepsName(n: Node, tid: string, state: TransferState)
    ensures tid in n.sessions ==> KeepsName(n, Cleanup(Put(n, tid, n.sessions[tid].(state := state)), tid), tid)
  {
  }

  lemma TimerKeepsName(n: Node, tid: string, env: Env)
    ensures KeepsName(n, OnTimer(n, tid, env).node, tid)
  {
    hide ReadUpTo;
  }

  lemma AcceptedKeepsName(n: Node, tid: string, env: Env)
    ensures KeepsName(n, OnFileAccept(n, tid, env).node, tid)
  {
    hide ReadUpTo;
  }

  lemma ChunkKeepsName(n: Node, tid: string, index: nat, data: Data)
    ensures KeepsName(n, OnFileChunk(n, tid, index, data).node, tid)
  {
  }

  lemma CompleteKeepsName(n: Node, tid: string, env: Env, hash: Data -> string)
    ensures KeepsName(n, OnFileComplete(n, tid, env, hash).node, tid)
  {
    hide Lower;
  }

  lemma DisconnectNames(n: Node)
    ensures SameIncoming(n, OnSocketDisconnected(n))
  {
  }

  /** Timers are added for outgoing transfers only. */
  lemma TimersKept(n: Node, act: Action, env: Env, hash: Data -> string)
    requires ShapeInv(n) && OnTime(n) && TimeSound(n, act)
    ensures OnTime(Act(n, act, env, hash).node)
  {
    hide SanitizeFileName, Lower, ShapeInv, OnFileAccept, OnTimer, OnFileComplete, OnFileChunk, SendFile, AcceptTransfer, Cleanup;
    var n' := Act(n, act, env, hash).node;
    if act.Timer? || (act.Receive? && act.message.FileAccept?) {
      ChunkTimers(n, act, env, hash);
    } else if act.Receive? && act.message.FileOffer? {
    } else {
      SameNames(n, act, env, hash);
      SameTimers(n, act, env, hash);
    }
  }

  lemma SameTimers(n: Node, act: Action, env: Env, hash: Data -> string)
    requires !act.Timer? && !(act.Receive? && act.message.FileAccept?)
    ensures Act(n, act, env, hash).node.timers == n.timers
  {
    hide SanitizeFileName, Lower;
  }

  lemma ChunkTimers(n: Node, act: Action, env: Env, hash: Data -> string)
    requires ShapeInv(n) && OnTime(n) && (act.Timer? || (act.Receive? && act.message.FileAccept?))
    ensures OnTime(Act(n, act, env, hash).node)
  {
    hide ReadUpTo;
    var tid := if act.Timer? then act.tid else act.message.tid;
    OwnSession(n, tid);
  }

  /** With all four assumptions, every step keeps sessions, names, timers and files in agreement. */
  lemma ActKeepsInv(n: Node, act: Action, env: Env, hash: Data -> string)
    requires NodeInv(n) && Allowed(n, act, env)
    ensures NodeInv(Act(n, act, env, hash).node)
  {
    hide ShapeInv, OnTime, NamesInv, Held, Tidy, Act, Sound, NameSound, TimeSound, DiskSound;
    ActKeeps(n, act, env, hash);
    NamesKept(n, act, env, hash);
    TimersKept(n, act, env, hash);
  }

  // ---------------------------------------------------------------------
  // Repeated offers and stale timers
  // ---------------------------------------------------------------------

  /**
   An offer, also one under an id that is already known, leaves the disk tidy exactly if no file has the
   transfer's temporary name; for a known incoming transfer, exactly if that is not running. The timers
   stay those of outgoing transfers exactly if none is pending under the id.
   */
  lemma RepeatedOfferIff(n: Node, m: Message)
    requires NodeInv(n) && m.FileOffer? && WellFormed(m)
    ensures var n' := OnFileOffer(n, m).node;
            && n'.disk == n.disk
            && (Tidy(n') <==> Unused(n.disk, m.tid))
            && (IsIncoming(n, m.tid) ==> (Tidy(n') <==> !Receiving(n, m.tid)))
            && (OnTime(n') <==> m.tid !in n.timers)
  {
    hide SanitizeFileName, ShapeInv, NamesInv;
    var n' := OnFileOffer(n, m).node;
    ReceiveOfferKeeps(n, m);
    if p :| p in n.disk && p.name == TEMP_PREFIX + m.tid {
      assert IsIncoming(n', m.tid) && !Live(n', m.tid, p);
    }
    if IsIncoming(n, m.tid) {
      OwnSession(n, m.tid);
      OwnFile(n, m.tid);
    }
    if m.tid !in n.timers {
      TimersKept(n, Receive(m), Env(true, true, true), d => "");
    }
  }

  /**
   What a pending timer of an earlier transfer does: once an offer under its id is accepted and the timer
   fires, the transfer is complete without a byte received, and its temporary file is left behind; without
   such a timer it goes on.
   */
  lemma StaleTimerIff(n: Node, tid: string, dir: string, env: Env, hash: Data -> string)
    requires ShapeInv(n) && IsIncoming(n, tid) && n.sessions[tid].state == Offering
    requires n.sessions[tid].fileSize > 0 && env.opens
    ensures var n' := Act(Act(n, Accept(tid, dir), env, hash).node, Timer(tid), env, hash).node;
            && IsIncoming(n', tid) && n'.sessions[tid].hashed == []
            && TempPath(dir, tid) in n'.disk && n'.disk[TempPath(dir, tid)] == []
            && (n'.sessions[tid].state == Completed <==> tid in n.timers)
            && (n'.sessions[tid].state == Transferring <==> tid !in n.timers)
  {
  }

  // ---------------------------------------------------------------------
  // Whole runs
  // ---------------------------------------------------------------------

  /** A controller that starts without sessions. */
  predicate Fresh(n: Node) {
    n.sessions == map[] && n.timers == multiset{} && NO_PATH !in n.disk
  }

  function RunFrom(n: Node, steps: seq<(Action, Env)>, hash: Data -> string): Node {
    if steps == [] then n
    else
      var before := RunFrom(n, steps[..|steps| - 1], hash);
      Act(before, steps[|steps| - 1].0, steps[|steps| - 1].1, hash).node
  }

  predicate AllowedRun(n: Node, steps: seq<(Action, Env)>, hash: Data -> string) {
    steps != [] ==>
      && AllowedRun(n, steps[..|steps| - 1], hash)
      && Allowed(RunFrom(n, steps[..|steps| - 1], hash), steps[|steps| - 1].0, steps[|steps| - 1].1)
  }

  lemma {:induction false} RunKeepsInv(n: Node, steps: seq<(Action, Env)>, hash: Data -> string)
    requires Fresh(n) && AllowedRun(n, steps, hash)
    ensures NodeInv(RunFrom(n, steps, hash))
  {
    hide Act, Allowed;
    if steps != [] {
      RunKeepsInv(n, steps[..|steps| - 1], hash);
      ActKeepsInv(RunFrom(n, steps[..|steps| - 1], hash), steps[|steps| - 1].0, steps[|steps| - 1].1, hash);
    }
  }

  /**
   Disk and session agreement: after any run, the temporary files on disk are exactly
   those of the transferring incoming sessions, with what was hashed as content, and an
   incoming session that is not transferring has no open handle and no temporary file.
   */
  lemma DiskAgreesWithSessions(n: Node, steps: seq<(Action, Env)>, hash: Data -> string, tid: string)
    requires Fresh(n) && AllowedRun(n, steps, hash)
    ensures var m := RunFrom(n, steps, hash);
            IsIncoming(m, tid) ==>
            var s := m.sessions[tid];
            && (s.state == Transferring <==> s.tempPath in m.disk)
            && (s.state == Transferring <==> s.handle != Closed)
            && (s.state == Transferring ==> m.disk[s.tempPath] == s.hashed)
            && (s.state == Transferring || SettledState(s.state))
            && (forall p :: p in m.disk && p.name == TEMP_PREFIX + tid ==> s.state == Transferring && p == s.tempPath)
  {
    hide RunFrom, AllowedRun, ShapeInv, NamesInv, Held, Tidy, OnTime;
    RunKeepsInv(n, steps, hash);
    var m := RunFrom(n, steps, hash);
    if IsIncoming(m, tid) {
      OwnSession(m, tid);
      OwnFile(m, tid);
    }
  }

  /** The steps that can replace an ordinary file, and which one. */
  predicate Delivers(n: Node, act: Action, p: Path) {
    match act
    case Accept(tid, dir) => tid in n.sessions && n.sessions[tid].fileSize == 0 && p == Path(dir, n.sessions[tid].fileName)
    case Receive(FileComplete(tid, _)) =>
      tid in n.sessions && n.sessions[tid].state == Transferring && n.sessions[tid].finalPath == p
    case _ => false
  }

  /** The file has not the temporary name of a known transfer. */
  predicate Ordinary(n: Node, p: Path) {
    forall tid :: tid in n.sessions ==> p.name != TEMP_PREFIX + tid
  }

  /**
   Files that are not temporary survive every step but the delivery of a transfer to
   their path: no cancel, rejection, failure or disconnect deletes a completed file.
   */
  lemma OrdinaryFilesSurvive(n: Node, act: Action, env: Env, hash: Data -> string, p: Path)
    requires ShapeInv(n) && p in n.disk && Ordinary(n, p) && !Delivers(n, act, p)
    ensures var n' := Act(n, act, env, hash).node; p in n'.disk && n'.disk[p] == n.disk[p]
  {
    hide SanitizeFileName, ShapeInv, Act, OnMessage;
    if act.Disconnect? {
      forall tid | tid in n.sessions
        ensures n.sessions[tid].tempPath != p
      {
        OwnSession(n, tid);
      }
      DisconnectSparesFile(n, env, hash, p);
    } else if act.Receive? {
      OwnSession(n, act.message.tid);
      if act.message.tid in n.sessions {
        MessageSparesFiles(n, act.message, env, hash, p);
      } else {
        UnknownSparesFiles(n, act.message, env, hash);
      }
    } else {
      OwnSession(n, act.tid);
      CallSparesFile(n, act, env, hash, p);
    }
  }

  lemma CallSparesFile(n: Node, act: Action, env: Env, hash: Data -> string, p: Path)
    requires act.Offer? || act.Accept? || act.Reject? || act.Cancel? || act.Timer?
    requires p in n.disk && !Delivers(n, act, p)
    requires act.tid in n.sessions ==> n.sessions[act.tid].tempPath != p && p.name != TEMP_PREFIX + act.tid
    ensures var n' := Act(n, act, env, hash).node; p in n'.disk && n'.disk[p] == n.disk[p]
  {
    hide SanitizeFileName, OnMessage, OnSocketDisconnected;
  }

  lemma DisconnectSparesFile(n: Node, env: Env, hash: Data -> string, p: Path)
    requires p in n.disk && forall tid :: tid in n.sessions ==> n.sessions[tid].tempPath != p
    ensures var n' := Act(n, Disconnect, env, hash).node; p in n'.disk && n'.disk[p] == n.disk[p]
  {
  }

  lemma UnknownSparesFiles(n: Node, m: Message, env: Env, hash: Data -> string)
    requires m.tid !in n.sessions
    ensures Act(n, Receive(m), env, hash).node.disk == n.disk
  {
    hide SanitizeFileName;
  }

  lemma MessageSparesFiles(n: Node, m: Message, env: Env, hash: Data -> string, p: Path)
    requires m.tid in n.sessions && n.sessions[m.tid].tempPath != p
    requires p in n.disk && (m.FileComplete? && n.sessions[m.tid].state == Transferring ==> n.sessions[m.tid].finalPath != p)
    ensures var n' := Act(n, Receive(m), env, hash).node; p in n'.disk && n'.disk[p] == n.disk[p]
  {
    hide SanitizeFileName, Lower;
  }

  // ---------------------------------------------------------------------
  // Deliveries
  // ---------------------------------------------------------------------

  predicate HashMatches(s: Session, hash: Data -> string) {
    Lower(hash(s.hashed)) == Lower(s.expectedSha256)
  }

  /**
   Delivery: a transfer whose hash matches completes exactly when the rename succeeds,
   and then the file at the final path is what was received.
   */
  lemma DeliveryOutcome(n: Node, tid: string, sha256: string, env: Env, hash: Data -> string)
    requires CoreInv(n) && Receiving(n, tid) && tid != "" && sha256 != ""
    ensures var s := n.sessions[tid];
            var n' := Act(n, Receive(FileComplete(tid, sha256)), env, hash).node;
            && tid in n'.sessions
            && (n'.sessions[tid].state == Completed <==> HashMatches(s, hash) && env.renames)
            && (n'.sessions[tid].state == Completed ==> n'.disk == (n.disk - {s.tempPath})[s.finalPath := s.hashed])
            && (n'.sessions[tid].state != Completed ==> n'.sessions[tid].state == Failed && s.tempPath !in n'.disk)
  {
    hide Lower, ShapeInv, NamesInv, Held;
    OwnSession(n, tid);
    OwnFile(n, tid);
  }

  /**
   The same for any offered names. A transfer whose hash matches, whose temporary file is there and which
   can be renamed completes unless it was offered under the name of that file; then the file is deleted.
   What is delivered is what the temporary file holds, so it is what was received exactly if that is.
   */
  lemma TempNameLosesFile(n: Node, tid: string, env: Env, hash: Data -> string)
    requires ShapeInv(n) && Receiving(n, tid)
    ensures var s, n' := n.sessions[tid], OnFileComplete(n, tid, env, hash).node;
            && tid in n'.sessions
            && (n'.sessions[tid].state == Completed <==>
                  HashMatches(s, hash) && env.renames && s.tempPath in n.disk && s.fileName != TEMP_PREFIX + tid)
            && (n'.sessions[tid].state == Completed ==>
                  && s.finalPath in n'.disk && n'.disk[s.finalPath] == n.disk[s.tempPath]
                  && (n'.disk[s.finalPath] == s.hashed <==> HeldBy(s, n.disk)))
            && (n'.sessions[tid].state != Completed ==>
                  s.tempPath !in n'.disk && (HashMatches(s, hash) ==> s.finalPath !in n'.disk))
  {
    hide Lower, ShapeInv;
    OwnSession(n, tid);
  }

  /**
   What the delivery of one transfer does to the temporary file of another that is received: that still
   holds what was received exactly if it is another path, or happens to get the same content.
   */
  lemma DeliverySparesIff(n: Node, a: string, b: string, env: Env, hash: Data -> string)
    requires ShapeInv(n) && Receiving(n, a) && Receiving(n, b) && a != b
    requires HeldBy(n.sessions[a], n.disk) && HeldBy(n.sessions[b], n.disk) && HashMatches(n.sessions[a], hash)
    ensures var sa, sb, n' := n.sessions[a], n.sessions[b], OnFileComplete(n, a, env, hash).node;
            && b in n'.sessions && n'.sessions[b] == sb
            && (HeldBy(sb, n'.disk) <==> sb.tempPath != sa.finalPath || (env.renames && sb.hashed == sa.hashed))
  {
    hide Lower, ShapeInv;
    OwnSession(n, a);
    OwnSession(n, b);
    TempNamesDiffer(a, b);
  }

  /** The same when an empty file is accepted. */
  lemma EmptyFileSparesIff(n: Node, a: string, b: string, dir: string, env: Env)
    requires ShapeInv(n) && IsIncoming(n, a) && n.sessions[a].state == Offering && n.sessions[a].fileSize == 0 && env.opens
    requires Receiving(n, b) && HeldBy(n.sessions[b], n.disk)
    ensures var sb, n' := n.sessions[b], AcceptTransfer(n, a, dir, env).node;
            && b in n'.sessions && n'.sessions[b] == sb
            && (HeldBy(sb, n'.disk) <==>
                  sb.tempPath != Path(dir, n.sessions[a].fileName) || (env.renames && sb.hashed == []))
  {
    hide ShapeInv;
    OwnSession(n, b);
    TempNamesDiffer(a, b);
  }

  /**
   Accepting an empty file always ends in the completed state; the file is there exactly if the rename
   succeeds and the offered name is not that of the temporary file.
   */
  lemma EmptyFileOutcome(n: Node, tid: string, dir: string, env: Env)
    requires IsIncoming(n, tid) && n.sessions[tid].state == Offering
    requires n.sessions[tid].fileSize == 0 && env.opens
    ensures var n', final := AcceptTransfer(n, tid, dir, env).node, Path(dir, n.sessions[tid].fileName);
            && tid in n'.sessions && n'.sessions[tid].state == Completed
            && (final in n'.disk <==> env.renames && n.sessions[tid].fileName != TEMP_PREFIX + tid)
            && (final in n'.disk ==> n'.disk[final] == [])
            && (TempPath(dir, tid) in n'.disk <==> !env.renames && n.sessions[tid].fileName != TEMP_PREFIX + tid)
  {
  }

  // ---------------------------------------------------------------------
  // Runs that break the promises
  // ---------------------------------------------------------------------

  const GOOD := Env(true, true, true)

  lemma RunSnoc(n: Node, steps: seq<(Action, Env)>, act: Action, env: Env, hash: Data -> string)
    ensures RunFrom(n, steps + [(act, env)], hash) == Act(RunFrom(n, steps, hash), act, env, hash).node
  {
    hide Act;
    assert (steps + [(act, env)])[..|steps|] == steps;
  }

  /** Offer, acceptance and the one chunk of `data`. */
  function ReceiveSteps(tid: string, name: string, dir: string, data: Data, hash: Data -> string): seq<(Action, Env)> {
    [(Receive(FileOffer(tid, name, |data|, hash(data), DEFAULT_FILE_CHUNK_SIZE, 1)), GOOD),
     (Accept(tid, dir), GOOD),
     (Receive(FileChunk(tid, 0, data)), GOOD)]
  }

  function CompleteStep(tid: string, data: Data, hash: Data -> string): (Action, Env) {
    (Receive(FileComplete(tid, hash(data))), GOOD)
  }

  /** The node while `received` of the data is received in `chunks` chunks. */
  function WithSession(
    n: Node, tid: string, name: string, dir: string, data: Data, received: Data, chunks: nat, hash: Data -> string): Node
  {
    var temp := TempPath(dir, tid);
    n.(disk := n.disk[temp := received],
       sessions := n.sessions[tid := Session(name, |data|, hash(data), DEFAULT_FILE_CHUNK_SIZE, 1, Incoming, Transferring,
                                             |received|, chunks, NO_PATH, temp, Path(dir, name), Writing, received)])
  }

  /** Received in full. */
  function WithFile(n: Node, tid: string, name: string, dir: string, data: Data, hash: Data -> string): Node {
    WithSession(n, tid, name, dir, data, data, 1, hash)
  }

  predicate Sendable(tid: string, name: string, data: Data, hash: Data -> string) {
    tid != "" && Safe(name) && 0 < |data| <= DEFAULT_FILE_CHUNK_SIZE && hash(data) != ""
  }

  lemma OfferIsAccepted(n: Node, tid: string, name: string, dir: string, data: Data, hash: Data -> string)
    requires Sendable(tid, name, data, hash)
    ensures var steps := ReceiveSteps(tid, name, dir, data, hash);
            Act(Act(n, steps[0].0, GOOD, hash).node, steps[1].0, GOOD, hash).node ==
            WithSession(n, tid, name, dir, data, [], 0, hash)
  {
    hide SanitizeFileName;
    SanitizeSpec(name);
  }

  lemma ChunkIsReceived(n: Node, tid: string, name: string, dir: string, data: Data, hash: Data -> string)
    requires tid != ""
    ensures OnMessage(WithSession(n, tid, name, dir, data, [], 0, hash), FileChunk(tid, 0, data), GOOD, hash).node ==
            WithFile(n, tid, name, dir, data, hash)
  {
    assert [] + data == data;
  }

  lemma FileIsReceived(n: Node, sofar: seq<(Action, Env)>, tid: string, name: string, dir: string, data: Data, hash: Data -> string)
    requires Sendable(tid, name, data, hash)
    ensures RunFrom(n, sofar + ReceiveSteps(tid, name, dir, data, hash), hash) ==
            WithFile(RunFrom(n, sofar, hash), tid, name, dir, data, hash)
  {
    hide OnMessage, AcceptTransfer, RunFrom, WithSession;
    var steps := ReceiveSteps(tid, name, dir, data, hash);
    var one, two := sofar + [(steps[0].0, GOOD)], sofar + [(steps[0].0, GOOD)] + [(steps[1].0, GOOD)];
    RunSnoc(n, sofar, steps[0].0, GOOD, hash);
    RunSnoc(n, one, steps[1].0, GOOD, hash);
    RunSnoc(n, two, steps[2].0, GOOD, hash);
    assert sofar + steps == two + [(steps[2].0, GOOD)];
    OfferIsAccepted(RunFrom(n, sofar, hash), tid, name, dir, data, hash);
    ChunkIsReceived(RunFrom(n, sofar, hash), tid, name, dir, data, hash);
  }

  /** The names of temporary files are left alone by the sanitising, for ids as they are generated. */
  lemma TempNameIsSafe(tid: string)
    requires tid != "" && forall c :: c in tid ==> '0' <= c <= '9' || 'a' <= c <= 'z' || c == '_'
    ensures Safe(TEMP_PREFIX + tid)
  {
    var name := TEMP_PREFIX + tid;
    assert forall i :: |TEMP_PREFIX| <= i < |name| ==> name[i] == tid[i - |TEMP_PREFIX|] && name[i] in tid;
    assert name[|name| - 1] == tid[|tid| - 1] && name[0] == '.' && name[1] == 't';
  }

  /** A run that loses a file: offer, acceptance, the one chunk, completion; the received file is nowhere. */
  lemma TempNameRun(n: Node, tid: string, dir: string, data: Data, hash: Data -> string)
    requires Fresh(n) && TempPath(dir, tid) !in n.disk
    requires 0 < |data| <= DEFAULT_FILE_CHUNK_SIZE && hash(data) != ""
    requires tid != "" && forall c :: c in tid ==> '0' <= c <= '9' || 'a' <= c <= 'z' || c == '_'
    ensures var steps := ReceiveSteps(tid, TEMP_PREFIX + tid, dir, data, hash);
            var m, n' := RunFrom(n, steps, hash), RunFrom(n, steps + [CompleteStep(tid, data, hash)], hash);
            && Receiving(m, tid) && m.sessions[tid].hashed == data && HeldBy(m.sessions[tid], m.disk)
            && tid in n'.sessions && n'.sessions[tid].state == Failed && n'.disk == n.disk
  {
    hide RunFrom, Lower, OnFileComplete;
    TempNameIsSafe(tid);
    var steps := ReceiveSteps(tid, TEMP_PREFIX + tid, dir, data, hash);
    FileIsReceived(n, [], tid, TEMP_PREFIX + tid, dir, data, hash);
    assert [] + steps == steps && RunFrom(n, [], hash) == n by { RunOfNothing(n, hash); }
    RunSnoc(n, steps, Receive(FileComplete(tid, hash(data))), GOOD, hash);
    TempNameEnds(n, tid, dir, data, hash);
  }

  lemma RunOfNothing(n: Node, hash: Data -> string)
    ensures RunFrom(n, [], hash) == n
  {
  }

  lemma TempNameEnds(n: Node, tid: string, dir: string, data: Data, hash: Data -> string)
    requires TempPath(dir, tid) !in n.disk
    ensures var n' := OnFileComplete(WithFile(n, tid, TEMP_PREFIX + tid, dir, data, hash), tid, GOOD, hash).node;
            tid in n'.sessions && n'.sessions[tid].state == Failed && n'.disk == n.disk
  {
    hide Lower;
  }

  /**
   A run that delivers a wrong file: `a` is offered under the temporary name of `b`, both are received,
   `a` is delivered, then `b`. The second transfer completes, its hash having been checked while it was
   received, and the file at its final path is the first one.
   */
  lemma TwoOffersRun(n: Node, a: string, b: string, name: string, dir: string, da: Data, db: Data, hash: Data -> string)
    requires Fresh(n) && a != b && Sendable(a, TEMP_PREFIX + b, da, hash) && Sendable(b, name, db, hash)
    requires name != TEMP_PREFIX + a && name != TEMP_PREFIX + b
    ensures var received := ReceiveSteps(a, TEMP_PREFIX + b, dir, da, hash) + ReceiveSteps(b, name, dir, db, hash);
            var n' := RunFrom(n, received + [CompleteStep(a, da, hash)] + [CompleteStep(b, db, hash)], hash);
            && b in n'.sessions && n'.sessions[b].state == Completed
            && n'.sessions[b].hashed == db && n'.sessions[b].finalPath == Path(dir, name)
            && Path(dir, name) in n'.disk && n'.disk[Path(dir, name)] == da
  {
    hide RunFrom, Lower, OnFileComplete, WithSession, Safe;
    var first, second := ReceiveSteps(a, TEMP_PREFIX + b, dir, da, hash), ReceiveSteps(b, name, dir, db, hash);
    RunOfNothing(n, hash);
    assert [] + first == first;
    FileIsReceived(n, [], a, TEMP_PREFIX + b, dir, da, hash);
    FileIsReceived(n, first, b, name, dir, db, hash);
    CompletionsRun(n, first + second, a, b, da, db, hash);
    TwoOffersEnd(n, a, b, name, dir, da, db, hash);
  }

  lemma CompletionsRun(n: Node, sofar: seq<(Action, Env)>, a: string, b: string, da: Data, db: Data, hash: Data -> string)
    requires a != "" && b != "" && hash(da) != "" && hash(db) != ""
    ensures RunFrom(n, sofar + [CompleteStep(a, da, hash)] + [CompleteStep(b, db, hash)], hash) ==
            OnFileComplete(OnFileComplete(RunFrom(n, sofar, hash), a, GOOD, hash).node, b, GOOD, hash).node
  {
    hide RunFrom, OnFileComplete;
    RunSnoc(n, sofar, CompleteStep(a, da, hash).0, GOOD, hash);
    RunSnoc(n, sofar + [CompleteStep(a, da, hash)], CompleteStep(b, db, hash).0, GOOD, hash);
  }

  /** A delivery that nothing hinders. */
  lemma DeliveredCleanly(n: Node, tid: string, hash: Data -> string)
    requires Receiving(n, tid) && HashMatches(n.sessions[tid], hash)
    requires n.sessions[tid].tempPath in n.disk && n.sessions[tid].tempPath != n.sessions[tid].finalPath
    ensures var s := n.sessions[tid];
            OnFileComplete(n, tid, GOOD, hash).node ==
            Put(n, tid, s.(handle := Closed, state := Completed))
            .(disk := Renamed(n.disk - {s.finalPath}, s.tempPath, s.finalPath))
  {
    hide Lower;
  }

  lemma TwoOffersEnd(n: Node, a: string, b: string, name: string, dir: string, da: Data, db: Data, hash: Data -> string)
    requires a != b && name != TEMP_PREFIX + a && name != TEMP_PREFIX + b
    ensures var m := WithFile(WithFile(n, a, TEMP_PREFIX + b, dir, da, hash), b, name, dir, db, hash);
            var n' := OnFileComplete(OnFileComplete(m, a, GOOD, hash).node, b, GOOD, hash).node;
            && b in n'.sessions && n'.sessions[b].state == Completed
            && n'.sessions[b].hashed == db && n'.sessions[b].finalPath == Path(dir, name)
            && Path(dir, name) in n'.disk && n'.disk[Path(dir, name)] == da
  {
    hide Lower, OnFileComplete;
    TempNamesDiffer(a, b);
    var m := WithFile(WithFile(n, a, TEMP_PREFIX + b, dir, da, hash), b, name, dir, db, hash);
    assert m.sessions[a].hashed == da && m.disk[TempPath(dir, a)] == da;
    DeliveredCleanly(m, a, hash);
    var m1 := OnFileComplete(m, a, GOOD, hash).node;
    assert m1.sessions[b] == m.sessions[b] && TempPath(dir, b) in m1.disk && m1.disk[TempPath(dir, b)] == da;
    DeliveredCleanly(m1, b, hash);
  }

  /** A run with a stale timer: an own transfer streams when an offer under its id arrives and is accepted. */
  lemma StaleTimerRun(n: Node, tid: string, path: Path, name: string, size: nat, sha256: string, dir: string, hash: Data -> string)
    requires Fresh(n) && tid != "" && size > 0 && sha256 != ""
    requires path in n.disk && n.disk[path] != [] && hash(n.disk[path]) != ""
    ensures var offer := FileOffer(tid, name, size, sha256, DEFAULT_FILE_CHUNK_SIZE, 1);
            var steps := [(Offer(tid, path), GOOD)] + [(Receive(FileAccept(tid)), GOOD)] + [(Receive(offer), GOOD)]
                         + [(Accept(tid, dir), GOOD)] + [(Timer(tid), GOOD)];
            var n' := RunFrom(n, steps, hash);
            && IsIncoming(n', tid) && n'.sessions[tid].state == Completed && n'.sessions[tid].hashed == []
            && TempPath(dir, tid) in n'.disk
  {
    hide RunFrom, SanitizeFileName, Lower, Act;
    var offer := FileOffer(tid, name, size, sha256, DEFAULT_FILE_CHUNK_SIZE, 1);
    var s0: seq<(Action, Env)> := [];
    var s1 := s0 + [(Offer(tid, path), GOOD)];
    var s2 := s1 + [(Receive(FileAccept(tid)), GOOD)];
    var s3 := s2 + [(Receive(offer), GOOD)];
    assert s1 == [(Offer(tid, path), GOOD)];
    RunOfNothing(n, hash);
    RunSnoc(n, s0, Offer(tid, path), GOOD, hash);
    RunSnoc(n, s1, Receive(FileAccept(tid)), GOOD, hash);
    RunSnoc(n, s2, Receive(offer), GOOD, hash);
    RunSnoc(n, s3, Accept(tid, dir), GOOD, hash);
    RunSnoc(n, s3 + [(Accept(tid, dir), GOOD)], Timer(tid), GOOD, hash);
    StreamingStarts(n, tid, path, hash);
    OfferTakesOver(RunFrom(n, s2, hash), offer, hash);
    StaleTimerIff(RunFrom(n, s3, hash), tid, dir, GOOD, hash);
  }

  lemma StreamingStarts(n: Node, tid: string, path: Path, hash: Data -> string)
    requires Fresh(n) && tid != "" && path in n.disk && n.disk[path] != [] && hash(n.disk[path]) != ""
    ensures var m := Act(Act(n, Offer(tid, path), GOOD, hash).node, Receive(FileAccept(tid)), GOOD, hash).node;
            ShapeInv(m) && tid in m.timers
  {
    hide SanitizeFileName;
  }

  lemma OfferTakesOver(n: Node, offer: Message, hash: Data -> string)
    requires ShapeInv(n) && offer.FileOffer? && WellFormed(offer) && offer.tid in n.timers
    ensures var m := Act(n, Receive(offer), GOOD, hash).node;
            && ShapeInv(m) && offer.tid in m.timers && IsIncoming(m, offer.tid)
            && m.sessions[offer.tid].state == Offering && m.sessions[offer.tid].fileSize == offer.fileSize
  {
    hide SanitizeFileName, ShapeInv;
    ReceiveOfferKeeps(n, offer);
  }
}
