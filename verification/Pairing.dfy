/**
 The pairing handshake: what each side makes of a request and of a response. The cryptographic
 primitives and the text encodings are parameters; so are fresh keys, salts and session ids.
 */
module Pairing {
  import opened Bytes
  import opened Wrappers
  import opened ReplayCache

  /** The primitives, each of which may fail, and the encodings. */
  datatype Crypto = Crypto(
    deriveKey: (string, seq<byte>) -> Option<seq<byte>>,
    hmac: (seq<byte>, seq<byte>) -> Option<seq<byte>>,
    sha256: seq<byte> -> seq<byte>,
    sharedSecret: (seq<byte>, seq<byte>) -> Option<seq<byte>>,
    toBase64: seq<byte> -> string,
    fromBase64: string -> seq<byte>,
    utf8: string -> seq<byte>,
    number: int -> seq<byte>)

  datatype KeyPair = KeyPair(privateKey: seq<byte>, publicKey: seq<byte>)

  datatype Config = Config(deviceId: string, virtualIp: string)

  datatype Request = Request(
    sessionId: string, senderDeviceId: string, receiverDeviceId: string, timestamp: int,
    salt: string, ephemeralPublicKey: string, proposedVirtualIp: string, authProof: string)

  datatype Response = Response(
    sessionId: string, senderDeviceId: string, receiverDeviceId: string, timestamp: int,
    salt: string, ephemeralPublicKey: string, proposedVirtualIp: string, authProof: string, status: string)

  datatype PairingState = Idle | Initiating | AwaitingResponse | Verifying | Paired | Failed

  datatype PairingError =
    | NoError | InvalidMessage | AuthFailed | TimestampExpired | ReplayDetected | CryptoError | Cancelled

  datatype PairingResult = PairingResult(
    peerDeviceId: string, peerPublicKey: string, peerVirtualIp: string, sharedSecret: seq<byte>)

  /** The fields of a pairing session. */
  datatype Session = Session(
    state: PairingState, lastError: PairingError, sessionId: string, peerDeviceId: string,
    keyPair: KeyPair, salt: seq<byte>, result: Option<PairingResult>, seen: map<string, Entry>)

  const NO_KEYS := KeyPair([], [])
  const NEW_SESSION := Session(Idle, NoError, "", "", NO_KEYS, [], None, map[])
  const RESPONSE_SUFFIX := "_resp"
  const ACCEPTED := "accepted"

  function Transcript(c: Crypto, sender: string, receiver: string, timestamp: int, publicKey: string): seq<byte> {
    c.utf8(sender) + c.utf8(receiver) + c.number(timestamp) + c.utf8(publicKey)
  }

  function RequestTranscript(c: Crypto, r: Request): seq<byte> {
    Transcript(c, r.senderDeviceId, r.receiverDeviceId, r.timestamp, r.ephemeralPublicKey)
  }

  function ResponseTranscript(c: Crypto, r: Response): seq<byte> {
    Transcript(c, r.senderDeviceId, r.receiverDeviceId, r.timestamp, r.ephemeralPublicKey)
  }

  /** Both are 32 bytes, and equal. */
  predicate SameProof(expected: seq<byte>, actual: seq<byte>) {
    |expected| == 32 && expected == actual
  }

  function ProposedIp(localVirtualIp: string, cfg: Config): string {
    if localVirtualIp == "" then cfg.virtualIp else localVirtualIp
  }

  function ResetSession(s: Session): Session {
    NEW_SESSION.(seen := s.seen)
  }

  function FailedWith(s: Session, error: PairingError): Session {
    s.(state := Failed, lastError := error)
  }

  function CancelledSession(s: Session): Session {
    if s.state != Idle && s.state != Failed then ResetSession(s) else s
  }

  // ---------------------------------------------------------------------
  // Checking a message
  // ---------------------------------------------------------------------

  /**
   A message is refused for a reason, before or after the replay check has pruned the cache, or its
   proof is right under the key derived from the password.
   */
  datatype Verdict = Refused(error: PairingError, pruned: bool) | Verified(kdfKey: seq<byte>, peerKey: seq<byte>, salt: seq<byte>)

  /** The decoding and the proof check that both kinds of message go through. */
  function CheckProof(
    c: Crypto, publicKey: string, salt64: string, proof64: string, transcript: seq<byte>, password: string): Verdict
  {
    var peerKey, salt, proof := c.fromBase64(publicKey), c.fromBase64(salt64), c.fromBase64(proof64);
    if |peerKey| != 32 || |salt| < 8 || |proof| != 32 then Refused(InvalidMessage, true)
    else
      match c.deriveKey(password, salt)
      case None => Refused(CryptoError, true)
      case Some(kdfKey) =>
        match c.hmac(kdfKey, transcript)
        case None => Refused(CryptoError, true)
        case Some(expected) =>
          if SameProof(expected, proof) then Verified(kdfKey, peerKey, salt) else Refused(AuthFailed, true)
  }

  function CheckRequest(seen: map<string, Entry>, c: Crypto, cfg: Config, r: Request, password: string, now: int): Verdict {
    if r.receiverDeviceId != cfg.deviceId then Refused(InvalidMessage, false)
    else if !TimestampValid(r.timestamp, now) then Refused(TimestampExpired, false)
    else if Replayed(seen, r.sessionId, c.sha256(RequestTranscript(c, r)), r.timestamp, now) then Refused(ReplayDetected, true)
    else CheckProof(c, r.ephemeralPublicKey, r.salt, r.authProof, RequestTranscript(c, r), password)
  }

  function CheckResponse(s: Session, c: Crypto, cfg: Config, r: Response, password: string, now: int): Verdict {
    if r.sessionId != s.sessionId then Refused(InvalidMessage, false)
    else if r.receiverDeviceId != cfg.deviceId || r.senderDeviceId != s.peerDeviceId then Refused(InvalidMessage, false)
    else if r.status != ACCEPTED then Refused(AuthFailed, false)
    else if !TimestampValid(r.timestamp, now) then Refused(TimestampExpired, false)
    else if Replayed(s.seen, r.sessionId + RESPONSE_SUFFIX, c.sha256(ResponseTranscript(c, r)), r.timestamp, now)
    then Refused(ReplayDetected, true)
    else CheckProof(c, r.ephemeralPublicKey, r.salt, r.authProof, ResponseTranscript(c, r), password)
  }

  // ---------------------------------------------------------------------
  // The steps
  // ---------------------------------------------------------------------

  datatype Requested = Requested(session: Session, request: Option<Request>)
  datatype Responded = Responded(session: Session, response: Option<Response>)

  function InitiatePairing(
    s: Session, c: Crypto, cfg: Config, peer: string, password: string, localVirtualIp: string,
    keyPair: Option<KeyPair>, salt: seq<byte>, sessionId: string, now: int): Requested
  {
    var start := ResetSession(s).(state := Initiating);
    if cfg.deviceId == "" || peer == "" || password == "" then Requested(FailedWith(start, InvalidMessage), None)
    else if keyPair.None? then Requested(FailedWith(start, CryptoError), None)
    else
      var keyed := start.(keyPair := keyPair.value, salt := salt);
      if |salt| != 16 then Requested(FailedWith(keyed, CryptoError), None)
      else
        match c.deriveKey(password, salt)
        case None => Requested(FailedWith(keyed, CryptoError), None)
        case Some(kdfKey) =>
          var named := keyed.(sessionId := sessionId, peerDeviceId := peer);
          var unsigned := Request(
            sessionId, cfg.deviceId, peer, now, c.toBase64(salt), c.toBase64(keyPair.value.publicKey),
            ProposedIp(localVirtualIp, cfg), "");
          var transcript := RequestTranscript(c, unsigned);
          match c.hmac(kdfKey, transcript)
          case None => Requested(FailedWith(named, CryptoError), None)
          case Some(proof) =>
            Requested(
              named.(state := AwaitingResponse, seen := Registered(s.seen, sessionId, c.sha256(transcript), now)),
              Some(unsigned.(authProof := c.toBase64(proof))))
  }

  function SeenAfterCheck(seen: map<string, Entry>, verdict: Verdict, now: int): map<string, Entry> {
    if verdict.Verified? || verdict.pruned then Pruned(seen, now) else seen
  }

  /** What follows once the request's proof was right; `later` is the clock when the response is stamped. */
  function Respond(
    s: Session, c: Crypto, cfg: Config, r: Request, v: Verdict, localVirtualIp: string,
    keyPair: Option<KeyPair>, later: int): Responded
    requires v.Verified?
  {
    if keyPair.None? then Responded(FailedWith(s, CryptoError), None)
    else
      var keyed := s.(keyPair := keyPair.value);
      match c.sharedSecret(keyPair.value.privateKey, v.peerKey)
      case None => Responded(FailedWith(keyed, CryptoError), None)
      case Some(secret) =>
        var unsigned := Response(
          r.sessionId, cfg.deviceId, r.senderDeviceId, later, c.toBase64(v.salt),
          c.toBase64(keyPair.value.publicKey), ProposedIp(localVirtualIp, cfg), "", ACCEPTED);
        var transcript := ResponseTranscript(c, unsigned);
        match c.hmac(v.kdfKey, transcript)
        case None => Responded(FailedWith(keyed, CryptoError), None)
        case Some(proof) =>
          Responded(
            keyed.(state := Paired,
                   seen := Registered(s.seen, r.sessionId + RESPONSE_SUFFIX, c.sha256(transcript), later),
                   result := Some(PairingResult(r.senderDeviceId, r.ephemeralPublicKey, r.proposedVirtualIp, secret))),
            Some(unsigned.(authProof := c.toBase64(proof))))
  }

  function HandleIncomingRequest(
    s: Session, c: Crypto, cfg: Config, r: Request, password: string, localVirtualIp: string,
    keyPair: Option<KeyPair>, now: int, later: int): Responded
  {
    var v := CheckRequest(s.seen, c, cfg, r, password, now);
    var checked := ResetSession(s).(state := Verifying, seen := SeenAfterCheck(s.seen, v, now));
    if v.Refused? then Responded(FailedWith(checked, v.error), None)
    else
      var admitted := checked.(
        seen := Registered(checked.seen, r.sessionId, c.sha256(RequestTranscript(c, r)), r.timestamp));
      Respond(admitted, c, cfg, r, v, localVirtualIp, keyPair, later)
  }

  function HandleIncomingResponse(s: Session, c: Crypto, cfg: Config, r: Response, password: string, now: int): Session {
    if s.state != AwaitingResponse then FailedWith(s, InvalidMessage)
    else
      var v := CheckResponse(s, c, cfg, r, password, now);
      var checked := s.(state := Verifying, seen := SeenAfterCheck(s.seen, v, now));
      if v.Refused? then FailedWith(checked, v.error)
      else
        match c.sharedSecret(s.keyPair.privateKey, v.peerKey)
        case None => FailedWith(checked, CryptoError)
        case Some(secret) =>
          checked.(
            state := Paired,
            seen := Registered(checked.seen, r.sessionId + RESPONSE_SUFFIX, c.sha256(ResponseTranscript(c, r)), r.timestamp),
            result := Some(PairingResult(r.senderDeviceId, r.ephemeralPublicKey, r.proposedVirtualIp, secret)))
  }

  // ---------------------------------------------------------------------
  // Runs
  // ---------------------------------------------------------------------

  /** What can happen to a session, each at a time read from the clock. */
  datatype Action =
    | Initiate(peer: string, password: string, localVirtualIp: string, keyPair: Option<KeyPair>, salt: seq<byte>,
               sessionId: string, now: int)
    | Incoming(request: Request, password: string, localVirtualIp: string, keyPair: Option<KeyPair>, now: int, later: int)
    | Answer(response: Response, password: string, now: int)
    | Cancel
    | Reset

  function Act(s: Session, c: Crypto, cfg: Config, a: Action): Session {
    match a
    case Initiate(peer, password, ip, keyPair, salt, sessionId, now) =>
      InitiatePairing(s, c, cfg, peer, password, ip, keyPair, salt, sessionId, now).session
    case Incoming(request, password, ip, keyPair, now, later) =>
      HandleIncomingRequest(s, c, cfg, request, password, ip, keyPair, now, later).session
    case Answer(response, password, now) => HandleIncomingResponse(s, c, cfg, response, password, now)
    case Cancel => CancelledSession(s)
    case Reset => ResetSession(s)
  }

  /** The time after an action. */
  function Clock(clock: int, a: Action): int {
    match a
    case Initiate(_, _, _, _, _, _, now) => now
    case Incoming(_, _, _, _, _, later) => later
    case Answer(_, _, now) => now
    case Cancel => clock
    case Reset => clock
  }

  /** The request was checked and admitted: its proof was right and it entered the cache. */
  predicate Admits(s: Session, c: Crypto, cfg: Config, a: Action) {
    a.Incoming? && CheckRequest(s.seen, c, cfg, a.request, a.password, a.now).Verified?
  }

  /** The response was checked, its proof was right and it entered the cache. */
  predicate Confirms(s: Session, c: Crypto, cfg: Config, a: Action) {
    && a.Answer? && s.state == AwaitingResponse && CheckResponse(s, c, cfg, a.response, a.password, a.now).Verified?
    && c.sharedSecret(s.keyPair.privateKey, c.fromBase64(a.response.ephemeralPublicKey)).Some?
  }

  function SeenRequest(c: Crypto, r: Request): Seen {
    Seen(r.sessionId, c.sha256(RequestTranscript(c, r)), r.timestamp)
  }

  function SeenResponse(c: Crypto, r: Response): Seen {
    Seen(r.sessionId + RESPONSE_SUFFIX, c.sha256(ResponseTranscript(c, r)), r.timestamp)
  }

  /** What an action admits. */
  function AdmittedBy(s: Session, c: Crypto, cfg: Config, a: Action): seq<Seen> {
    if Admits(s, c, cfg, a) then [SeenRequest(c, a.request)]
    else if Confirms(s, c, cfg, a) then [SeenResponse(c, a.response)]
    else []
  }

  /** A run so far: the session, the requests and responses it admitted, and the clock. */
  datatype Run = Run(session: Session, admitted: seq<Seen>, clock: int)

  function Extended(run: Run, c: Crypto, cfg: Config, a: Action): Run {
    Run(Act(run.session, c, cfg, a),
        run.admitted + AdmittedBy(run.session, c, cfg, a),
        Clock(run.clock, a))
  }

  function RunOf(c: Crypto, cfg: Config, run: Run, actions: seq<Action>): Run
    decreases |actions|
  {
    if actions == [] then run else RunOf(c, cfg, Extended(run, c, cfg, actions[0]), actions[1..])
  }

  /** No admitted message of which the timestamp can still be valid has this id. */
  predicate Unused(id: string, admitted: seq<Seen>, now: int) {
    forall a :: a in admitted ==> a.sessionId != id || now > a.timestamp + REPLAY_WINDOW_SECONDS
  }

  /**
   The clock does not go back; fresh session ids, and the id under which the response to an admitted request is
   registered, are not those of admitted messages that are still valid.
   */
  predicate Allowed(run: Run, c: Crypto, cfg: Config, a: Action) {
    match a
    case Initiate(_, _, _, _, _, sessionId, now) => run.clock <= now && Unused(sessionId, run.admitted, now)
    case Incoming(request, _, _, _, now, later) =>
      && run.clock <= now <= later
      && (Admits(run.session, c, cfg, a) ==> Unused(request.sessionId + RESPONSE_SUFFIX, run.admitted, now))
    case Answer(_, _, now) => run.clock <= now
    case Cancel => true
    case Reset => true
  }

  predicate AllAllowed(c: Crypto, cfg: Config, run: Run, actions: seq<Action>)
    decreases |actions|
  {
    actions == [] || (Allowed(run, c, cfg, actions[0]) && AllAllowed(c, cfg, Extended(run, c, cfg, actions[0]), actions[1..]))
  }

  // ---------------------------------------------------------------------
  // Replay safety
  // ---------------------------------------------------------------------

  predicate GuardsAll(run: Run) {
    forall a :: a in run.admitted ==> Guarded(run.session.seen, run.clock, a)
  }

  lemma OwnResponseId(sessionId: string)
    ensures sessionId + RESPONSE_SUFFIX != sessionId
  {
    assert |sessionId + RESPONSE_SUFFIX| > |sessionId|;
  }

  /** How an action changes the cache: at most one pruning, then at most two registrations. */
  ghost predicate SeenChange(s: Session, c: Crypto, cfg: Config, a: Action, t: map<string, Entry>) {
    match a
    case Initiate(_, _, _, _, _, sessionId, now) =>
      t == s.seen || exists h :: t == Registered(s.seen, sessionId, h, now)
    case Incoming(r, _, _, _, now, later) =>
      if Admits(s, c, cfg, a) then
        var g := SeenRequest(c, r);
        var u := Registered(Pruned(s.seen, now), g.sessionId, g.hash, g.timestamp);
        t == u || exists h :: t == Registered(u, r.sessionId + RESPONSE_SUFFIX, h, later)
      else t == s.seen || t == Pruned(s.seen, now)
    case Answer(r, _, now) =>
      if Confirms(s, c, cfg, a) then
        var g := SeenResponse(c, r);
        t == Registered(Pruned(s.seen, now), g.sessionId, g.hash, g.timestamp)
      else t == s.seen || t == Pruned(s.seen, now)
    case Cancel => t == s.seen
    case Reset => t == s.seen
  }

  lemma SeenAfter(s: Session, c: Crypto, cfg: Config, a: Action)
    ensures SeenChange(s, c, cfg, a, Act(s, c, cfg, a).seen)
  {
    hide Transcript, Pruned, Registered, CheckProof, Replayed, TimestampValid;
    if a.Answer? {
      CheckProofIff(c, a.response.ephemeralPublicKey, a.response.salt, a.response.authProof,
                    ResponseTranscript(c, a.response), a.password);
    }
  }

  lemma RegisterOther(seen: map<string, Entry>, clock: int, g: Seen, id: string, hash: seq<byte>, ts: int)
    requires Guarded(seen, clock, g) && (id != g.sessionId || clock > g.timestamp + REPLAY_WINDOW_SECONDS)
    ensures Guarded(Registered(seen, id, hash, ts), clock, g)
  {
  }

  lemma NotReplayed(s: Session, c: Crypto, cfg: Config, a: Action)
    requires Admits(s, c, cfg, a) || Confirms(s, c, cfg, a)
    ensures var g := AdmittedBy(s, c, cfg, a)[0];
            !Replayed(s.seen, g.sessionId, g.hash, g.timestamp, a.now)
  {
    hide Transcript, CheckProof, Replayed;
  }

  /** A guarded request stays guarded. */
  lemma ActKeepsGuard(run: Run, c: Crypto, cfg: Config, a: Action, g: Seen)
    requires g in run.admitted && Guarded(run.session.seen, run.clock, g) && Allowed(run, c, cfg, a)
    ensures Guarded(Act(run.session, c, cfg, a).seen, Clock(run.clock, a), g)
  {
    hide Act, Pruned, Registered, Guarded, CheckRequest, CheckResponse, Transcript, Replayed;
    var s, t := run.session.seen, Act(run.session, c, cfg, a).seen;
    SeenAfter(run.session, c, cfg, a);
    match a
    case Initiate(_, _, _, _, _, sessionId, now) =>
      PruneKeepsGuard(s, run.clock, g, now);
      if t != s {
        var h :| t == Registered(s, sessionId, h, now);
        RegisterOther(s, now, g, sessionId, h, now);
      }
    case Incoming(r, _, _, _, now, later) =>
      PruneKeepsGuard(s, run.clock, g, now);
      PruneKeepsGuard(s, now, g, later);
      PruneKeepsGuard(Pruned(s, now), now, g, later);
      if Admits(run.session, c, cfg, a) {
        var n := SeenRequest(c, r);
        NotReplayed(run.session, c, cfg, a);
        AdmittedIsGuarded(s, run.clock, g, n, now);
        var u := Registered(Pruned(s, now), n.sessionId, n.hash, n.timestamp);
        PruneKeepsGuard(u, now, g, later);
        if t != u {
          var h :| t == Registered(u, r.sessionId + RESPONSE_SUFFIX, h, later);
          RegisterOther(u, later, g, r.sessionId + RESPONSE_SUFFIX, h, later);
        }
      }
    case Answer(r, _, now) =>
      PruneKeepsGuard(s, run.clock, g, now);
      if Confirms(run.session, c, cfg, a) {
        NotReplayed(run.session, c, cfg, a);
        AdmittedIsGuarded(s, run.clock, g, SeenResponse(c, r), now);
      }
    case Cancel =>
    case Reset =>
  }

  /** A message is guarded once it is admitted. */
  lemma AdmissionGuards(run: Run, c: Crypto, cfg: Config, a: Action)
    requires (Admits(run.session, c, cfg, a) || Confirms(run.session, c, cfg, a)) && Allowed(run, c, cfg, a)
    ensures Guarded(Act(run.session, c, cfg, a).seen, Clock(run.clock, a), AdmittedBy(run.session, c, cfg, a)[0])
  {
    hide Act, Pruned, Registered, Guarded, CheckRequest, CheckResponse, Transcript, Replayed;
    var s, t, n := run.session.seen, Act(run.session, c, cfg, a).seen, AdmittedBy(run.session, c, cfg, a)[0];
    SeenAfter(run.session, c, cfg, a);
    NotReplayed(run.session, c, cfg, a);
    AdmittedIsGuarded(s, run.clock, n, n, a.now);
    if a.Incoming? {
      var u := Registered(Pruned(s, a.now), n.sessionId, n.hash, n.timestamp);
      PruneKeepsGuard(u, a.now, n, a.later);
      if t != u {
        var h :| t == Registered(u, a.request.sessionId + RESPONSE_SUFFIX, h, a.later);
        OwnResponseId(a.request.sessionId);
        RegisterOther(u, a.later, n, a.request.sessionId + RESPONSE_SUFFIX, h, a.later);
      }
    }
  }

  lemma {:induction false} RunKeepsGuards(c: Crypto, cfg: Config, run: Run, actions: seq<Action>)
    requires GuardsAll(run) && AllAllowed(c, cfg, run, actions)
    ensures GuardsAll(RunOf(c, cfg, run, actions)) && RunOf(c, cfg, run, actions).clock >= run.clock
    ensures run.admitted <= RunOf(c, cfg, run, actions).admitted
    decreases |actions|
  {
    hide Act, Guarded, CheckRequest;
    if actions != [] {
      var a := actions[0];
      var next := Extended(run, c, cfg, a);
      forall g | g in next.admitted
        ensures Guarded(next.session.seen, next.clock, g)
      {
        if g in run.admitted {
          ActKeepsGuard(run, c, cfg, a, g);
        } else {
          AdmissionGuards(run, c, cfg, a);
        }
      }
      RunKeepsGuards(c, cfg, next, actions[1..]);
    }
  }

  /**
   Once a run has admitted a message, then, whatever happens after it - cancelling, resetting, pruning,
   other pairings - no request and no response with its timestamp that shares its id in the cache or its
   transcript is ever admitted again.
   */
  lemma ReplaySafety(
    c: Crypto, cfg: Config, clock: int, actions: seq<Action>, g: Seen, r: Request, q: Response, password: string, now: int)
    requires AllAllowed(c, cfg, Run(NEW_SESSION, [], clock), actions)
    requires g in RunOf(c, cfg, Run(NEW_SESSION, [], clock), actions).admitted
    requires now >= RunOf(c, cfg, Run(NEW_SESSION, [], clock), actions).clock
    ensures var end := RunOf(c, cfg, Run(NEW_SESSION, [], clock), actions).session;
            && (Repeats(SeenRequest(c, r), g) ==> CheckRequest(end.seen, c, cfg, r, password, now).Refused?)
            && (Repeats(SeenResponse(c, q), g) ==> CheckResponse(end, c, cfg, q, password, now).Refused?)
  {
    hide Guarded, Transcript, Replayed, RunOf, AllAllowed;
    var end := RunOf(c, cfg, Run(NEW_SESSION, [], clock), actions);
    RunKeepsGuards(c, cfg, Run(NEW_SESSION, [], clock), actions);
    var n, m := SeenRequest(c, r), SeenResponse(c, q);
    if Repeats(n, g) {
      GuardedIsReplayed(end.session.seen, end.clock, g, n.sessionId, n.hash, now);
    }
    if Repeats(m, g) {
      GuardedIsReplayed(end.session.seen, end.clock, g, m.sessionId, m.hash, now);
    }
  }

  /** The message has the timestamp and the id, or the timestamp and the transcript, of an earlier one. */
  predicate Repeats(m: Seen, g: Seen) {
    m.timestamp == g.timestamp && (m.sessionId == g.sessionId || m.hash == g.hash)
  }

  // ---------------------------------------------------------------------
  // Agreement
  // ---------------------------------------------------------------------

  /** The decoded proof is the HMAC of the transcript under the key derived from password and salt. */
  predicate Proven(c: Crypto, publicKey: string, salt64: string, proof64: string, transcript: seq<byte>, password: string) {
    var key := c.deriveKey(password, c.fromBase64(salt64));
    && |c.fromBase64(publicKey)| == 32 && |c.fromBase64(salt64)| >= 8 && |c.fromBase64(proof64)| == 32
    && key.Some? && c.hmac(key.value, transcript) == Some(c.fromBase64(proof64))
  }

  /** The result of pairing takes every field from the message, and the secret from its key. */
  predicate ResultOf(
    result: Option<PairingResult>, c: Crypto, sender: string, publicKey: string, ip: string, privateKey: seq<byte>)
  {
    var secret := c.sharedSecret(privateKey, c.fromBase64(publicKey));
    secret.Some? && result == Some(PairingResult(sender, publicKey, ip, secret.value))
  }

  predicate GoodRequest(s: Session, c: Crypto, cfg: Config, r: Request, password: string, now: int) {
    && r.receiverDeviceId == cfg.deviceId
    && !Replayed(s.seen, r.sessionId, c.sha256(RequestTranscript(c, r)), r.timestamp, now)
    && Proven(c, r.ephemeralPublicKey, r.salt, r.authProof, RequestTranscript(c, r), password)
  }

  predicate GoodResponse(s: Session, c: Crypto, cfg: Config, r: Response, password: string, now: int) {
    && s.state == AwaitingResponse && r.sessionId == s.sessionId && r.senderDeviceId == s.peerDeviceId
    && r.receiverDeviceId == cfg.deviceId && r.status == ACCEPTED
    && !Replayed(s.seen, r.sessionId + RESPONSE_SUFFIX, c.sha256(ResponseTranscript(c, r)), r.timestamp, now)
    && Proven(c, r.ephemeralPublicKey, r.salt, r.authProof, ResponseTranscript(c, r), password)
  }

  lemma CheckProofIff(
    c: Crypto, publicKey: string, salt64: string, proof64: string, transcript: seq<byte>, password: string)
    ensures var v := CheckProof(c, publicKey, salt64, proof64, transcript, password);
            && (v.Verified? <==> Proven(c, publicKey, salt64, proof64, transcript, password))
            && (v.Verified? ==> v.peerKey == c.fromBase64(publicKey))
            && (v.Verified? ==> v.salt == c.fromBase64(salt64) && Some(v.kdfKey) == c.deriveKey(password, v.salt))
            && (v.Refused? ==> v.error != NoError)
  {
  }

  /**
   In whatever state a session is, an action leaves it paired only if the action is a message of
   which the proof is right, and then the result is what this message says: no session stays
   paired through another action, and none is paired without a checked message.
   */
  lemma PairedOnlyByProof(s: Session, c: Crypto, cfg: Config, a: Action)
    requires Act(s, c, cfg, a).state == Paired
    ensures a.Incoming? || a.Answer?
    ensures a.Incoming? ==>
              && GoodRequest(s, c, cfg, a.request, a.password, a.now) && a.keyPair.Some?
              && ResultOf(Act(s, c, cfg, a).result, c, a.request.senderDeviceId, a.request.ephemeralPublicKey,
                          a.request.proposedVirtualIp, a.keyPair.value.privateKey)
    ensures a.Answer? ==>
              && GoodResponse(s, c, cfg, a.response, a.password, a.now)
              && ResultOf(Act(s, c, cfg, a).result, c, a.response.senderDeviceId, a.response.ephemeralPublicKey,
                          a.response.proposedVirtualIp, s.keyPair.privateKey)
  {
    hide Transcript, Pruned, Registered, Proven, CheckProof, Replayed, TimestampValid;
    match a
    case Initiate(_, _, _, _, _, _, _) =>
    case Incoming(r, password, _, _, _, _) =>
      CheckProofIff(c, r.ephemeralPublicKey, r.salt, r.authProof, RequestTranscript(c, r), password);
    case Answer(r, password, _) =>
      CheckProofIff(c, r.ephemeralPublicKey, r.salt, r.authProof, ResponseTranscript(c, r), password);
    case Cancel =>
    case Reset =>
  }

  /** An awaiting session is paired by a response exactly if it is good and a secret can be derived. */
  lemma AnswerPairsIff(s: Session, c: Crypto, cfg: Config, r: Response, password: string, now: int)
    ensures HandleIncomingResponse(s, c, cfg, r, password, now).state == Paired <==>
            && GoodResponse(s, c, cfg, r, password, now)
            && c.sharedSecret(s.keyPair.privateKey, c.fromBase64(r.ephemeralPublicKey)).Some?
  {
    hide Transcript, Pruned, Registered, Proven, CheckProof;
    CheckProofIff(c, r.ephemeralPublicKey, r.salt, r.authProof, ResponseTranscript(c, r), password);
  }

  /** Two devices pairing with each other, and what each of them draws at random. */
  datatype Exchange = Exchange(
    alice: Config, bob: Config, aliceIp: string, bobIp: string, aliceKeys: KeyPair, bobKeys: KeyPair,
    salt: seq<byte>, sessionId: string, sent: int, received: int, answered: int, completed: int)

  function FirstMessage(x: Exchange, a: Session, c: Crypto, password: string): Requested {
    InitiatePairing(a, c, x.alice, x.bob.deviceId, password, x.aliceIp, Some(x.aliceKeys), x.salt, x.sessionId, x.sent)
  }

  function SecondMessage(x: Exchange, b: Session, c: Crypto, r: Request, password: string): Responded {
    HandleIncomingRequest(b, c, x.bob, r, password, x.bobIp, Some(x.bobKeys), x.received, x.answered)
  }

  function RequestHash(x: Exchange, c: Crypto): seq<byte> {
    c.sha256(Transcript(c, x.alice.deviceId, x.bob.deviceId, x.sent, c.toBase64(x.aliceKeys.publicKey)))
  }

  function ResponseHash(x: Exchange, c: Crypto): seq<byte> {
    c.sha256(Transcript(c, x.bob.deviceId, x.alice.deviceId, x.answered, c.toBase64(x.bobKeys.publicKey)))
  }

  /** The encodings and primitives work on what the exchange needs, and the two secrets agree. */
  ghost predicate Working(x: Exchange, c: Crypto, password: string) {
    && (forall b :: c.fromBase64(c.toBase64(b)) == b)
    && c.deriveKey(password, x.salt).Some?
    && (forall m :: c.hmac(c.deriveKey(password, x.salt).value, m).Some?
                    && |c.hmac(c.deriveKey(password, x.salt).value, m).value| == 32)
    && |x.aliceKeys.publicKey| == |x.bobKeys.publicKey| == 32 && |x.salt| == 16
    && c.sharedSecret(x.aliceKeys.privateKey, x.bobKeys.publicKey).Some?
    && c.sharedSecret(x.aliceKeys.privateKey, x.bobKeys.publicKey) ==
       c.sharedSecret(x.bobKeys.privateKey, x.aliceKeys.publicKey)
  }

  /** Everything is named, both messages arrive within the window, and neither cache knows them. */
  predicate Timely(x: Exchange, a: Session, b: Session, c: Crypto) {
    && x.alice.deviceId != "" && x.bob.deviceId != "" && x.sessionId != ""
    && RequestHash(x, c) != ResponseHash(x, c)
    && !Replayed(b.seen, x.sessionId, RequestHash(x, c), x.sent, x.received)
    && !Replayed(a.seen, x.sessionId + RESPONSE_SUFFIX, ResponseHash(x, c), x.answered, x.completed)
  }

  lemma RequestSent(x: Exchange, a: Session, c: Crypto, password: string)
    requires Working(x, c, password) && password != "" && x.alice.deviceId != "" && x.bob.deviceId != ""
    ensures var i := FirstMessage(x, a, c, password);
            && i.request.Some? && i.session.state == AwaitingResponse
            && i.session.sessionId == x.sessionId && i.session.peerDeviceId == x.bob.deviceId
            && i.session.keyPair == x.aliceKeys
            && i.session.seen == Registered(a.seen, x.sessionId, RequestHash(x, c), x.sent)
            && var r := i.request.value;
               && r.sessionId == x.sessionId && r.senderDeviceId == x.alice.deviceId
               && r.receiverDeviceId == x.bob.deviceId && r.timestamp == x.sent
               && r.ephemeralPublicKey == c.toBase64(x.aliceKeys.publicKey)
               && r.proposedVirtualIp == ProposedIp(x.aliceIp, x.alice)
               && Proven(c, r.ephemeralPublicKey, r.salt, r.authProof, RequestTranscript(c, r), password)
               && c.fromBase64(r.salt) == x.salt && c.sha256(RequestTranscript(c, r)) == RequestHash(x, c)
  {
    hide Transcript, Registered;
  }

  lemma ResponseSent(x: Exchange, b: Session, c: Crypto, password: string, r: Request)
    requires Working(x, c, password)
    requires r.receiverDeviceId == x.bob.deviceId && r.ephemeralPublicKey == c.toBase64(x.aliceKeys.publicKey)
    requires c.fromBase64(r.salt) == x.salt
    requires !Replayed(b.seen, r.sessionId, c.sha256(RequestTranscript(c, r)), r.timestamp, x.received)
    requires Proven(c, r.ephemeralPublicKey, r.salt, r.authProof, RequestTranscript(c, r), password)
    ensures var d := SecondMessage(x, b, c, r, password);
            && d.response.Some? && d.session.state == Paired
            && ResultOf(d.session.result, c, r.senderDeviceId, r.ephemeralPublicKey, r.proposedVirtualIp,
                        x.bobKeys.privateKey)
            && var t := d.response.value;
               && t.sessionId == r.sessionId && t.senderDeviceId == x.bob.deviceId
               && t.receiverDeviceId == r.senderDeviceId && t.timestamp == x.answered && t.status == ACCEPTED
               && t.ephemeralPublicKey == c.toBase64(x.bobKeys.publicKey)
               && t.proposedVirtualIp == ProposedIp(x.bobIp, x.bob)
               && Proven(c, t.ephemeralPublicKey, t.salt, t.authProof, ResponseTranscript(c, t), password)
  {
    hide Transcript, Registered, Pruned, Replayed, CheckProof;
    CheckProofIff(c, r.ephemeralPublicKey, r.salt, r.authProof, RequestTranscript(c, r), password);
    NotReplayedInTime(b.seen, r.sessionId, c.sha256(RequestTranscript(c, r)), r.timestamp, x.received);
  }

  lemma NotReplayedInTime(seen: map<string, Entry>, id: string, hash: seq<byte>, timestamp: int, now: int)
    requires !Replayed(seen, id, hash, timestamp, now)
    ensures TimestampValid(timestamp, now)
  {
  }

  /** Registering something else does not make a message a replay. */
  lemma OtherRegistration(
    seen: map<string, Entry>, id: string, hash: seq<byte>, ts: int, id': string, hash': seq<byte>, ts': int, now: int)
    requires !Replayed(seen, id, hash, ts, now) && id != id' && hash != hash'
    ensures !Replayed(Registered(seen, id', hash', ts'), id, hash, ts, now)
  {
    var m, p := Pruned(Registered(seen, id', hash', ts'), now), Pruned(seen, now);
    forall s | s in m
      ensures m[s].transcriptHash != hash
    {
      if s != id' {
        assert s in p && p[s] == m[s];
      }
    }
  }

  /**
   An undisturbed exchange with equal passwords ends with both sides paired, with the same secret,
   and each with the other's id, key and virtual address.
   */
  lemma HonestRunPairs(x: Exchange, a: Session, b: Session, c: Crypto, password: string)
    requires Working(x, c, password) && password != "" && Timely(x, a, b, c)
    ensures FirstMessage(x, a, c, password).request.Some?
    ensures var first := FirstMessage(x, a, c, password);
            var second := SecondMessage(x, b, c, first.request.value, password);
            && second.response.Some?
            && var end := HandleIncomingResponse(first.session, c, x.alice, second.response.value, password, x.completed);
               && end.state == Paired && second.session.state == Paired
               && end.result.Some? && second.session.result.Some?
               && var atAlice, atBob := end.result.value, second.session.result.value;
                  && atAlice.sharedSecret == atBob.sharedSecret
                  && atAlice.peerDeviceId == x.bob.deviceId && atBob.peerDeviceId == x.alice.deviceId
                  && atAlice.peerVirtualIp == ProposedIp(x.bobIp, x.bob)
                  && atBob.peerVirtualIp == ProposedIp(x.aliceIp, x.alice)
                  && atAlice.peerPublicKey == c.toBase64(x.bobKeys.publicKey)
                  && atBob.peerPublicKey == c.toBase64(x.aliceKeys.publicKey)
  {
    hide FirstMessage, SecondMessage, Replayed, Registered, Pruned, HandleIncomingResponse, Transcript, Proven;
    RequestSent(x, a, c, password);
    var first := FirstMessage(x, a, c, password);
    ResponseSent(x, b, c, password, first.request.value);
    var second := SecondMessage(x, b, c, first.request.value, password);
    OwnResponseId(x.sessionId);
    OtherRegistration(a.seen, x.sessionId + RESPONSE_SUFFIX, ResponseHash(x, c), x.answered,
                      x.sessionId, RequestHash(x, c), x.sent, x.completed);
    AnswerPairsIff(first.session, c, x.alice, second.response.value, password, x.completed);
    PairedOnlyByProof(first.session, c, x.alice, Answer(second.response.value, password, x.completed));
  }

  /** A responder for whom the proof is wrong fails, and its cache takes no new entry. */
  lemma WrongProofFails(x: Exchange, b: Session, c: Crypto, r: Request, password: string)
    requires r.receiverDeviceId == x.bob.deviceId
    requires !Replayed(b.seen, r.sessionId, c.sha256(RequestTranscript(c, r)), r.timestamp, x.received)
    requires !Proven(c, r.ephemeralPublicKey, r.salt, r.authProof, RequestTranscript(c, r), password)
    ensures var d := SecondMessage(x, b, c, r, password);
            d.session.state == Failed && d.response == None && d.session.result == None
            && d.session.seen == Pruned(b.seen, x.received)
  {
    hide Transcript, Registered, Pruned, Replayed, CheckProof, Proven;
    CheckProofIff(c, r.ephemeralPublicKey, r.salt, r.authProof, RequestTranscript(c, r), password);
    NotReplayedInTime(b.seen, r.sessionId, c.sha256(RequestTranscript(c, r)), r.timestamp, x.received);
    RefusedLate(c, r.ephemeralPublicKey, r.salt, r.authProof, RequestTranscript(c, r), password);
  }

  /**
   A responder with another password admits the request exactly if the key that it derives gives the
   same HMAC of the transcript as the initiator's key; otherwise it fails and remembers nothing.
   */
  lemma OtherPasswordFails(x: Exchange, a: Session, b: Session, c: Crypto, password: string, other: string)
    requires Working(x, c, password) && password != "" && Timely(x, a, b, c)
    requires c.deriveKey(other, x.salt).Some?
    ensures FirstMessage(x, a, c, password).request.Some?
    ensures var r := FirstMessage(x, a, c, password).request.value;
            var mine, yours := c.deriveKey(password, x.salt).value, c.deriveKey(other, x.salt).value;
            var same := c.hmac(yours, RequestTranscript(c, r)) == c.hmac(mine, RequestTranscript(c, r));
            var d := SecondMessage(x, b, c, r, other);
            && (CheckRequest(b.seen, c, x.bob, r, other, x.received).Verified? <==> same)
            && (!same ==> d.session.state == Failed && d.response == None && d.session.result == None
                          && d.session.seen == Pruned(b.seen, x.received))
  {
    hide FirstMessage, SecondMessage, Replayed, Registered, Pruned, Transcript, CheckProof;
    RequestSent(x, a, c, password);
    var r := FirstMessage(x, a, c, password).request.value;
    CheckProofIff(c, r.ephemeralPublicKey, r.salt, r.authProof, RequestTranscript(c, r), other);
    NotReplayedInTime(b.seen, r.sessionId, c.sha256(RequestTranscript(c, r)), r.timestamp, x.received);
    if !Proven(c, r.ephemeralPublicKey, r.salt, r.authProof, RequestTranscript(c, r), other) {
      WrongProofFails(x, b, c, r, other);
    }
  }

  lemma RefusedLate(
    c: Crypto, publicKey: string, salt64: string, proof64: string, transcript: seq<byte>, password: string)
    ensures var v := CheckProof(c, publicKey, salt64, proof64, transcript, password);
            v.Refused? ==> v.pruned
  {
  }

  // ---------------------------------------------------------------------
  // Without the assumption on ids
  // ---------------------------------------------------------------------

  /** Primitives under which every message has a right proof and the two requests below have different hashes. */
  const LENIENT := Crypto(
    (password, salt) => Some([1]), (key, message) => Some(Padding(32)), message => message + [0],
    (privateKey, publicKey) => Some([2]), bytes => "", text => Padding(32),
    text => if text == "x" then [1] else if text == "y" then [2] else [], number => [])

  const HERE := Config("b", "ip")

  function PlainRequest(sessionId: string, timestamp: int, publicKey: string): Request {
    Request(sessionId, "a", "b", timestamp, "", publicKey, "", "")
  }

  function Admission(sessionId: string, timestamp: int, publicKey: string, now: int): Action {
    Incoming(PlainRequest(sessionId, timestamp, publicKey), "p", "", Some(NO_KEYS), now, now)
  }

  lemma LenientTranscripts(sessionId: string, timestamp: int, publicKey: string, now: int)
    ensures RequestTranscript(LENIENT, PlainRequest(sessionId, timestamp, publicKey)) == LENIENT.utf8(publicKey)
    ensures Transcript(LENIENT, "b", "a", now, "") == [] && LENIENT.sha256([]) == [0]
  {
    assert LENIENT.utf8("a") == [] && LENIENT.utf8("b") == [] && LENIENT.utf8("") == [];
  }

  /** Whatever is not replayed passes the check. */
  lemma LenientCheck(seen: map<string, Entry>, sessionId: string, timestamp: int, publicKey: string, now: int)
    requires !Replayed(seen, sessionId, LENIENT.utf8(publicKey) + [0], timestamp, now)
    ensures CheckRequest(seen, LENIENT, HERE, PlainRequest(sessionId, timestamp, publicKey), "p", now) ==
            Verified([1], Padding(32), Padding(32))
  {
    hide Replayed, TimestampValid, Transcript;
    LenientTranscripts(sessionId, timestamp, publicKey, now);
    NotReplayedInTime(seen, sessionId, LENIENT.utf8(publicKey) + [0], timestamp, now);
  }

  /** One admission: what enters the cache for the request and for its response. */
  lemma AdmissionRegisters(s: Session, sessionId: string, timestamp: int, publicKey: string, now: int)
    requires sessionId != ""
    requires !Replayed(s.seen, sessionId, LENIENT.utf8(publicKey) + [0], timestamp, now)
    ensures var a := Admission(sessionId, timestamp, publicKey, now);
            && Admits(s, LENIENT, HERE, a)
            && Act(s, LENIENT, HERE, a).seen ==
               Pruned(s.seen, now)[sessionId := Entry(timestamp, LENIENT.utf8(publicKey) + [0])]
                                  [sessionId + RESPONSE_SUFFIX := Entry(now, [0])]
  {
    hide Pruned, Replayed, CheckRequest, Transcript;
    LenientCheck(s.seen, sessionId, timestamp, publicKey, now);
    LenientTranscripts(sessionId, timestamp, publicKey, now);
    OwnResponseId(sessionId);
    assert |sessionId + RESPONSE_SUFFIX| > 0;
  }

  const FIRST := "s_resp"
  const SECOND := "s"

  /** The cache after the request with the id "s_resp", which is stamped 300 seconds ahead. */
  function SeenFirst(now: int): map<string, Entry> {
    map[FIRST := Entry(now + 300, [1, 0]), FIRST + RESPONSE_SUFFIX := Entry(now, [0])]
  }

  lemma FirstAdmission(s: Session, now: int)
    requires now > 0 && s.seen == map[]
    ensures Admits(s, LENIENT, HERE, Admission(FIRST, now + 300, "x", now))
    ensures Act(s, LENIENT, HERE, Admission(FIRST, now + 300, "x", now)).seen == SeenFirst(now)
  {
    hide Act, Admits;
    assert LENIENT.utf8("x") + [0] == [1, 0];
    assert Pruned(s.seen, now) == map[];
    AdmissionRegisters(s, FIRST, now + 300, "x", now);
  }

  /** The request with the id "s" replaces the entry of the first by that of its own response. */
  lemma SecondAdmission(s: Session, now: int)
    requires now > 0 && s.seen == SeenFirst(now)
    ensures Act(s, LENIENT, HERE, Admission(SECOND, now, "y", now)).seen ==
            map[FIRST := Entry(now, [0]), FIRST + RESPONSE_SUFFIX := Entry(now, [0]), SECOND := Entry(now, [2, 0])]
  {
    hide Act, Admits;
    assert LENIENT.utf8("y") + [0] == [2, 0] && SECOND + RESPONSE_SUFFIX == FIRST;
    assert |FIRST + RESPONSE_SUFFIX| == 11 && |FIRST| == 6 && |SECOND| == 1;
    assert Pruned(s.seen, now) == SeenFirst(now);
    assert forall t :: t in SeenFirst(now) ==> |SeenFirst(now)[t].transcriptHash| == 1 || SeenFirst(now)[t].transcriptHash[0] == 1;
    AdmissionRegisters(s, SECOND, now, "y", now);
  }

  /**
   A request with the id "s_resp", one with the id "s", whose response is registered under the same id
   with an earlier timestamp, and once that has expired the first request is admitted again.
   */
  lemma ResponseIdEndsGuard(now: int)
    requires now > 0
    ensures var first, second := Admission(FIRST, now + 300, "x", now), Admission(SECOND, now, "y", now);
            var end := RunOf(LENIENT, HERE, Run(NEW_SESSION, [], now), [first, second]);
            && SeenRequest(LENIENT, first.request) in end.admitted
            && CheckRequest(end.session.seen, LENIENT, HERE, first.request, "p", now + 301).Verified?
  {
    hide Act, CheckRequest, Pruned, Replayed;
    var first, second := Admission(FIRST, now + 300, "x", now), Admission(SECOND, now, "y", now);
    var start := Run(NEW_SESSION, [], now);
    FirstAdmission(NEW_SESSION, now);
    var next := Extended(start, LENIENT, HERE, first);
    SecondAdmission(next.session, now);
    var end := Extended(next, LENIENT, HERE, second);
    assert [first, second][1..] == [second] && [second][1..] == [];
    assert RunOf(LENIENT, HERE, next, [second]) == end;
    AllExpired(end.session.seen, now, FIRST, LENIENT.utf8("x") + [0]);
    AdmissionRegisters(end.session, FIRST, now + 300, "x", now + 301);
  }

  lemma AllExpired(seen: map<string, Entry>, now: int, sessionId: string, hash: seq<byte>)
    requires now > 0 && sessionId != "" && hash != [] && forall s :: s in seen ==> seen[s].timestamp == now
    ensures !Replayed(seen, sessionId, hash, now + 300, now + 301)
  {
    assert Pruned(seen, now + 301) == map[];
  }
}
