/**
 The file transfer controller. Files are a map from paths to contents, messages are
 decoded records, and the hash is a parameter. Each signal, timer or call is one step.
 */
module FileTransfer {
  import opened Bytes
  import opened FileNames
  import Framing

  const DEFAULT_FILE_CHUNK_SIZE: nat := 65536

  type Data = seq<byte>

  datatype Path = Path(dir: string, name: string)
  const NO_PATH := Path("", "")
  type Disk = map<Path, Data>

  datatype TransferState =
    | Idle | Offering | Accepted | Rejected | Transferring | Verifying | Completed | Failed | Cancelled
  datatype Direction = Outgoing | Incoming

  /** An open source file keeps the content it was opened on. */
  datatype Handle = Closed | Reading(content: Data, pos: nat) | Writing

  datatype Session = Session(
    fileName: string, fileSize: nat, expectedSha256: string, chunkSize: int, totalChunks: int,
    direction: Direction, state: TransferState,
    transferredBytes: nat, currentChunkIndex: nat,
    sourcePath: Path, tempPath: Path, finalPath: Path,
    handle: Handle,
    hashed: Data)   // what the running hash was fed

  datatype Message =
    | FileOffer(tid: string, fileName: string, fileSize: int, sha256: string, chunkSize: int, totalChunks: int)
    | FileAccept(tid: string)
    | FileReject(tid: string, reason: string)
    | FileChunk(tid: string, index: nat, data: Data)
    | FileComplete(tid: string, sha256: string)
    | FileCancel(tid: string, reason: string)

  /** Records that survive deserialisation. */
  predicate WellFormed(m: Message) {
    && m.tid != ""
    && (m.FileOffer? ==> m.fileSize >= 0 && m.sha256 != "")
    && (m.FileComplete? ==> m.sha256 != "")
  }

  /** What the operating system lets happen during a step. */
  datatype Env = Env(opens: bool, readable: bool, renames: bool)

  /** One controller: its sessions, its disk, and the chunk timers that are pending. */
  datatype Node = Node(sessions: map<string, Session>, disk: Disk, timers: multiset<string>)

  datatype Effect = Effect(node: Node, sent: seq<Message>)

  // ---------------------------------------------------------------------
  // Helpers
  // ---------------------------------------------------------------------

  function Put(n: Node, tid: string, s: Session): Node {
    n.(sessions := n.sessions[tid := s])
  }

  function Renamed(disk: Disk, from: Path, to: Path): Disk
    requires from in disk
  {
    (disk - {from})[to := disk[from]]
  }

  predicate CanRename(disk: Disk, from: Path, to: Path, env: Env) {
    env.renames && from in disk && to !in disk
  }

  function TempPath(dir: string, tid: string): Path {
    Path(dir, TEMP_PREFIX + tid)
  }

  const TEMP_PREFIX := ".tmp_"

  /** The chunk count, as a 32-bit signed int. */
  function TotalChunks(size: nat): int {
    if size == 0 then 0
    else Framing.ToInt32((size + DEFAULT_FILE_CHUNK_SIZE - 1) / DEFAULT_FILE_CHUNK_SIZE % TWO_32)
  }

  function LowerChar(c: char): char {
    if 'A' <= c <= 'Z' then (c as int + 32) as char else c
  }

  /** Lower case, for comparing hexadecimal digests. */
  function Lower(s: string): (r: string)
    ensures |r| == |s|
  {
    seq(|s|, i requires 0 <= i < |s| => LowerChar(s[i]))
  }

  /** The same character, or the two cases of one letter from A to Z. */
  predicate SameLetter(c: char, d: char) {
    || c == d || ('A' <= c <= 'Z' && d as int == c as int + 32) || ('A' <= d <= 'Z' && c as int == d as int + 32)
  }

  /** Two digests are taken as equal exactly if they differ in nothing but the case of letters. */
  lemma SameDigestIff(a: string, b: string)
    ensures Lower(a) == Lower(b) <==> |a| == |b| && forall i :: 0 <= i < |a| ==> SameLetter(a[i], b[i])
  {
    if Lower(a) == Lower(b) {
      assert |Lower(a)| == |a| && |Lower(b)| == |b|;
      forall i | 0 <= i < |a|
        ensures SameLetter(a[i], b[i])
      {
        assert Lower(a)[i] == LowerChar(a[i]) && Lower(b)[i] == LowerChar(b[i]);
      }
    }
  }

  /** Close the handle and remove the temporary file. */
  function Cleanup(n: Node, tid: string): Node {
    if tid !in n.sessions then n
    else
      var s := n.sessions[tid];
      Put(n, tid, s.(handle := Closed)).(disk := if s.tempPath != NO_PATH then n.disk - {s.tempPath} else n.disk)
  }

  // ---------------------------------------------------------------------
  // Calls from the user interface
  // ---------------------------------------------------------------------

  function SendFile(n: Node, tid: string, path: Path, env: Env, hash: Data -> string): Effect {
    if path !in n.disk || !env.opens || hash(n.disk[path]) == "" then Effect(n, [])
    else
      var size, sha256 := |n.disk[path]|, hash(n.disk[path]);
      var s := Session(SanitizeFileName(path.name), size, sha256, DEFAULT_FILE_CHUNK_SIZE, TotalChunks(size),
                       Outgoing, Offering, 0, 0, path, NO_PATH, NO_PATH, Closed, []);
      Effect(Put(n, tid, s), [FileOffer(tid, SanitizeFileName(s.fileName), size, sha256, s.chunkSize, s.totalChunks)])
  }

  function AcceptTransfer(n: Node, tid: string, dir: string, env: Env): Effect {
    if tid !in n.sessions then Effect(n, [])
    else
      var s := n.sessions[tid];
      if s.state != Offering || s.direction != Incoming then Effect(n, [])
      else
        var temp, final := TempPath(dir, tid), Path(dir, s.fileName);
        var s1 := s.(tempPath := temp, finalPath := final);
        if !env.opens then Effect(Put(n, tid, s1.(handle := Closed, state := Failed)), [])
        else
          var s2 := s1.(handle := Writing, hashed := [], state := Transferring,
                        transferredBytes := 0, currentChunkIndex := 0);
          var n2 := Put(n, tid, s2).(disk := n.disk[temp := []]);
          if s.fileSize != 0 then Effect(n2, [FileAccept(tid)])
          else
            var cleared := n2.disk - {final};
            var disk := if CanRename(cleared, temp, final, env) then Renamed(cleared, temp, final) else cleared;
            Effect(Put(n2, tid, s2.(handle := Closed, state := Completed)).(disk := disk), [FileAccept(tid)])
  }

  function RejectTransfer(n: Node, tid: string, reason: string): Effect {
    if tid !in n.sessions then Effect(n, [])
    else Effect(Cleanup(Put(n, tid, n.sessions[tid].(state := Rejected)), tid), [FileReject(tid, reason)])
  }

  function CancelTransfer(n: Node, tid: string, reason: string): Effect {
    if tid !in n.sessions then Effect(n, [])
    else Effect(Cleanup(Put(n, tid, n.sessions[tid].(state := Cancelled)), tid), [FileCancel(tid, reason)])
  }

  // ---------------------------------------------------------------------
  // Sending chunks
  // ---------------------------------------------------------------------

  predicate AtEnd(h: Handle) {
    h.Reading? ==> h.pos >= |h.content|
  }

  /** What reading up to `size` bytes returns. */
  function ReadUpTo(h: Handle, size: int): Data
    requires h.Reading? && h.pos <= |h.content|
  {
    if size <= 0 then []
    else if h.pos + size <= |h.content| then h.content[h.pos..h.pos + size]
    else h.content[h.pos..]
  }

  function SendNextChunk(n: Node, tid: string, env: Env): Effect {
    if tid !in n.sessions then Effect(n, [])
    else
      var s := n.sessions[tid];
      if s.state != Transferring || s.handle.Closed? then Effect(n, [])
      else if AtEnd(s.handle) || s.transferredBytes >= s.fileSize then
        Effect(Put(n, tid, s.(handle := Closed, state := Completed)), [FileComplete(tid, s.expectedSha256)])
      else
        var data := if env.readable then ReadUpTo(s.handle, s.chunkSize) else [];
        if data == [] && s.fileSize > 0 then Effect(Put(n, tid, s.(state := Failed)), [])
        else
          var s' := s.(handle := s.handle.(pos := s.handle.pos + |data|),
                       transferredBytes := s.transferredBytes + |data|,
                       currentChunkIndex := (s.currentChunkIndex + 1) % TWO_32);
          Effect(Put(n, tid, s').(timers := n.timers + multiset{tid}), [FileChunk(tid, s.currentChunkIndex, data)])
  }

  /** A pending timer fires. */
  function OnTimer(n: Node, tid: string, env: Env): Effect {
    if tid !in n.timers then Effect(n, [])
    else SendNextChunk(n.(timers := n.timers - multiset{tid}), tid, env)
  }

  // ---------------------------------------------------------------------
  // Messages from the peer
  // ---------------------------------------------------------------------

  function OnFileOffer(n: Node, m: Message): Effect
    requires m.FileOffer? && WellFormed(m)
  {
    var chunkSize := if m.chunkSize > 0 then m.chunkSize else DEFAULT_FILE_CHUNK_SIZE;
    Effect(Put(n, m.tid,
               Session(SanitizeFileName(SanitizeFileName(m.fileName)), m.fileSize, m.sha256, chunkSize, m.totalChunks,
                       Incoming, Offering, 0, 0, NO_PATH, NO_PATH, NO_PATH, Closed, [])), [])
  }

  function OnFileAccept(n: Node, tid: string, env: Env): Effect {
    if tid !in n.sessions then Effect(n, [])
    else
      var s := n.sessions[tid];
      if s.direction != Outgoing || s.state != Offering then Effect(n, [])
      else if s.sourcePath !in n.disk || !env.opens then
        Effect(Put(n, tid, s.(handle := Closed, state := Failed)), [])
      else
        var s' := s.(handle := Reading(n.disk[s.sourcePath], 0), state := Transferring,
                     transferredBytes := 0, currentChunkIndex := 0);
        SendNextChunk(Put(n, tid, s'), tid, env)
  }

  function OnFileReject(n: Node, tid: string): Effect {
    if tid !in n.sessions then Effect(n, [])
    else Effect(Cleanup(Put(n, tid, n.sessions[tid].(state := Rejected)), tid), [])
  }

  function OnFileCancel(n: Node, tid: string): Effect {
    if tid !in n.sessions then Effect(n, [])
    else Effect(Cleanup(Put(n, tid, n.sessions[tid].(state := Cancelled)), tid), [])
  }

  function OnFileChunk(n: Node, tid: string, index: nat, data: Data): Effect {
    if tid !in n.sessions then Effect(n, [])
    else
      var s := n.sessions[tid];
      if s.state != Transferring || s.direction != Incoming then Effect(n, [])
      else if index != s.currentChunkIndex then
        Effect(Cleanup(Put(n, tid, s.(state := Failed)), tid), [])
      else
        var disk := if s.handle.Writing? && s.tempPath in n.disk
                    then n.disk[s.tempPath := n.disk[s.tempPath] + data] else n.disk;
        Effect(Put(n, tid, s.(hashed := s.hashed + data, transferredBytes := s.transferredBytes + |data|,
                              currentChunkIndex := (s.currentChunkIndex + 1) % TWO_32)).(disk := disk), [])
  }

  function OnFileComplete(n: Node, tid: string, env: Env, hash: Data -> string): Effect {
    if tid !in n.sessions then Effect(n, [])
    else
      var s := n.sessions[tid];
      if s.direction != Incoming || s.state != Transferring then Effect(n, [])
      else
        var closed := s.(handle := Closed);
        if Lower(hash(s.hashed)) == Lower(s.expectedSha256) then
          var cleared := n.disk - {s.finalPath};
          if CanRename(cleared, s.tempPath, s.finalPath, env) then
            Effect(Put(n, tid, closed.(state := Completed))
                   .(disk := Renamed(cleared, s.tempPath, s.finalPath)), [])
          else Effect(Cleanup(Put(n, tid, closed.(state := Failed)).(disk := cleared), tid), [])
        else Effect(Cleanup(Put(n, tid, closed.(state := Failed)), tid), [])
  }

  /** Dispatch on the frame type; what does not deserialise is dropped. */
  function OnMessage(n: Node, m: Message, env: Env, hash: Data -> string): Effect {
    if !WellFormed(m) then Effect(n, [])
    else match m
      case FileOffer(_, _, _, _, _, _) => OnFileOffer(n, m)
      case FileAccept(tid) => OnFileAccept(n, tid, env)
      case FileReject(tid, _) => OnFileReject(n, tid)
      case FileChunk(tid, index, data) => OnFileChunk(n, tid, index, data)
      case FileComplete(tid, _) => OnFileComplete(n, tid, env, hash)
      case FileCancel(tid, _) => OnFileCancel(n, tid)
  }

  /** Every offered or running transfer fails. */
  function FailedByDisconnect(s: Session): Session {
    if StopsOnDisconnect(s) then s.(state := Failed, handle := Closed) else s
  }

  predicate StopsOnDisconnect(s: Session) {
    s.state == Offering || s.state == Transferring
  }

  /** The temporary files of the sessions among `tids` that a disconnect stops. */
  function RemovedOnDisconnect(sessions: map<string, Session>, tids: set<string>): set<Path> {
    set tid | tid in tids && tid in sessions && StopsOnDisconnect(sessions[tid]) && sessions[tid].tempPath != NO_PATH
      :: sessions[tid].tempPath
  }

  function OnSocketDisconnected(n: Node): Node {
    n.(sessions := map tid | tid in n.sessions :: FailedByDisconnect(n.sessions[tid]),
       disk := n.disk - RemovedOnDisconnect(n.sessions, n.sessions.Keys))
  }
}
