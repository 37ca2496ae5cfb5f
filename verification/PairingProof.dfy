/** What a proof is about: which changes of a message it rules out, and which steps a pairing takes. */
module PairingProof {
  import opened Bytes
  import opened Wrappers
  import opened ReplayCache
  import opened Pairing

  // ---------------------------------------------------------------------
  // The transcript
  // ---------------------------------------------------------------------

  lemma SamePrefix(a: seq<byte>, b: seq<byte>, c: seq<byte>)
    ensures a + b == a + c <==> b == c
  {
    assert (a + b)[|a|..] == b && (a + c)[|a|..] == c;
  }

  lemma SameSuffix(a: seq<byte>, b: seq<byte>, c: seq<byte>)
    ensures b + a == c + a <==> b == c
  {
    if b + a == c + a {
      assert |b + a| == |b| + |a| && |c + a| == |c| + |a|;
      assert (b + a)[..|b|] == b && (c + a)[..|c|] == c;
    }
  }

  /** Each field by itself is told apart by the transcript exactly as its encoding tells it apart. */
  lemma TranscriptFields(c: Crypto, s: string, r: string, t: int, k: string)
    ensures forall s' :: Transcript(c, s, r, t, k) == Transcript(c, s', r, t, k) <==> c.utf8(s) == c.utf8(s')
    ensures forall r' :: Transcript(c, s, r, t, k) == Transcript(c, s, r', t, k) <==> c.utf8(r) == c.utf8(r')
    ensures forall t' :: Transcript(c, s, r, t, k) == Transcript(c, s, r, t', k) <==> c.number(t) == c.number(t')
    ensures forall k' :: Transcript(c, s, r, t, k) == Transcript(c, s, r, t, k') <==> c.utf8(k) == c.utf8(k')
  {
    forall s'
      ensures Transcript(c, s, r, t, k) == Transcript(c, s', r, t, k) <==> c.utf8(s) == c.utf8(s')
    {
      SameSuffix(c.utf8(k), c.utf8(s) + c.utf8(r) + c.number(t), c.utf8(s') + c.utf8(r) + c.number(t));
      SameSuffix(c.number(t), c.utf8(s) + c.utf8(r), c.utf8(s') + c.utf8(r));
      SameSuffix(c.utf8(r), c.utf8(s), c.utf8(s'));
    }
    forall r'
      ensures Transcript(c, s, r, t, k) == Transcript(c, s, r', t, k) <==> c.utf8(r) == c.utf8(r')
    {
      SameSuffix(c.utf8(k), c.utf8(s) + c.utf8(r) + c.number(t), c.utf8(s) + c.utf8(r') + c.number(t));
      SameSuffix(c.number(t), c.utf8(s) + c.utf8(r), c.utf8(s) + c.utf8(r'));
      SamePrefix(c.utf8(s), c.utf8(r), c.utf8(r'));
    }
    forall t'
      ensures Transcript(c, s, r, t, k) == Transcript(c, s, r, t', k) <==> c.number(t) == c.number(t')
    {
      SameSuffix(c.utf8(k), c.utf8(s) + c.utf8(r) + c.number(t), c.utf8(s) + c.utf8(r) + c.number(t'));
      SamePrefix(c.utf8(s) + c.utf8(r), c.number(t), c.number(t'));
    }
    forall k'
      ensures Transcript(c, s, r, t, k) == Transcript(c, s, r, t, k') <==> c.utf8(k) == c.utf8(k')
    {
      SamePrefix(c.utf8(s) + c.utf8(r) + c.number(t), c.utf8(k), c.utf8(k'));
    }
  }

  /** The fields are not separated: two of them together are told apart as their joint encoding is. */
  lemma TranscriptPairs(c: Crypto, s: string, r: string, t: int, k: string, s': string, r': string, t': int, k': string)
    ensures Transcript(c, s, r, t, k) == Transcript(c, s', r', t, k) <==> c.utf8(s) + c.utf8(r) == c.utf8(s') + c.utf8(r')
    ensures Transcript(c, s, r, t, k) == Transcript(c, s, r, t', k') <==> c.number(t) + c.utf8(k) == c.number(t') + c.utf8(k')
  {
    var names := c.utf8(s) + c.utf8(r);
    SameSuffix(c.utf8(k), names + c.number(t), c.utf8(s') + c.utf8(r') + c.number(t));
    SameSuffix(c.number(t), names, c.utf8(s') + c.utf8(r'));
    SamePrefix(names, c.number(t) + c.utf8(k), c.number(t') + c.utf8(k'));
    assert names + (c.number(t) + c.utf8(k)) == Transcript(c, s, r, t, k);
    assert names + (c.number(t') + c.utf8(k')) == Transcript(c, s, r, t', k');
  }

  // ---------------------------------------------------------------------
  // Messages that were altered on the way
  // ---------------------------------------------------------------------

  /** An honest request, altered in any field but its receiver, its salt and its proof. */
  predicate AlteredRequest(r: Request, r': Request) {
    r'.receiverDeviceId == r.receiverDeviceId && r'.salt == r.salt && r'.authProof == r.authProof
  }

  predicate SameHmac(x: Exchange, c: Crypto, password: string, m: seq<byte>, m': seq<byte>)
    requires c.deriveKey(password, x.salt).Some?
  {
    var key := c.deriveKey(password, x.salt).value;
    c.hmac(key, m) == c.hmac(key, m')
  }

  /**
   An honest request that arrives altered is admitted exactly if the HMACs of the two transcripts are equal;
   otherwise the responder fails and remembers nothing.
   */
  lemma AlteredRequestIff(x: Exchange, a: Session, b: Session, c: Crypto, password: string, r': Request)
    requires Working(x, c, password) && password != "" && x.alice.deviceId != "" && x.bob.deviceId != ""
    ensures FirstMessage(x, a, c, password).request.Some?
    ensures var r := FirstMessage(x, a, c, password).request.value;
            var same := SameHmac(x, c, password, RequestTranscript(c, r), RequestTranscript(c, r'));
            var d := SecondMessage(x, b, c, r', password);
            AlteredRequest(r, r') && |c.fromBase64(r'.ephemeralPublicKey)| == 32
            && !Replayed(b.seen, r'.sessionId, c.sha256(RequestTranscript(c, r')), r'.timestamp, x.received) ==>
              && (CheckRequest(b.seen, c, x.bob, r', password, x.received).Verified? <==> same)
              && (!same ==> d.session.state == Failed && d.response == None && d.session.result == None
                            && d.session.seen == Pruned(b.seen, x.received))
  {
    hide FirstMessage, SecondMessage, Replayed, Registered, Pruned, Transcript, CheckProof;
    RequestSent(x, a, c, password);
    var r := FirstMessage(x, a, c, password).request.value;
    if AlteredRequest(r, r') && |c.fromBase64(r'.ephemeralPublicKey)| == 32
       && !Replayed(b.seen, r'.sessionId, c.sha256(RequestTranscript(c, r')), r'.timestamp, x.received)
    {
      CheckProofIff(c, r'.ephemeralPublicKey, r'.salt, r'.authProof, RequestTranscript(c, r'), password);
      NotReplayedInTime(b.seen, r'.sessionId, c.sha256(RequestTranscript(c, r')), r'.timestamp, x.received);
      if !SameHmac(x, c, password, RequestTranscript(c, r), RequestTranscript(c, r')) {
        WrongProofFails(x, b, c, r', password);
      }
    }
  }

  /** The HMAC tells different messages apart, and the encoding different timestamps. */
  ghost predicate Distinguishing(x: Exchange, c: Crypto, password: string)
    requires c.deriveKey(password, x.salt).Some?
  {
    && (forall m, m' :: m != m' ==> !SameHmac(x, c, password, m, m'))
    && (forall t, t' :: t != t' ==> c.number(t) != c.number(t'))
  }

  /**
   A request of which only the timestamp was changed, which then is in time and not replayed, is admitted
   exactly if the HMACs of the two transcripts are equal, and these are different transcripts; so it is never
   admitted where the HMAC and the encoding of numbers tell them apart.
   */
  lemma ChangedTimestampIff(x: Exchange, a: Session, b: Session, c: Crypto, password: string, t: int)
    requires Working(x, c, password) && password != "" && x.alice.deviceId != "" && x.bob.deviceId != "" && t != x.sent
    ensures FirstMessage(x, a, c, password).request.Some?
    ensures var r := FirstMessage(x, a, c, password).request.value;
            var r' := r.(timestamp := t);
            var admitted := CheckRequest(b.seen, c, x.bob, r', password, x.received).Verified?;
            !Replayed(b.seen, r'.sessionId, c.sha256(RequestTranscript(c, r')), t, x.received) ==>
              && (admitted <==> SameHmac(x, c, password, RequestTranscript(c, r), RequestTranscript(c, r')))
              && (RequestTranscript(c, r) == RequestTranscript(c, r') <==> c.number(x.sent) == c.number(t))
              && (Distinguishing(x, c, password) ==> !admitted)
  {
    hide FirstMessage, Replayed, Transcript, CheckRequest, SecondMessage, Pruned;
    RequestSent(x, a, c, password);
    var r := FirstMessage(x, a, c, password).request.value;
    AlteredRequestIff(x, a, b, c, password, r.(timestamp := t));
    TranscriptFields(c, r.senderDeviceId, r.receiverDeviceId, r.timestamp, r.ephemeralPublicKey);
  }

  /** An honest response, altered in its timestamp, its key or its virtual address. */
  predicate AlteredResponse(t: Response, t': Response) {
    t' == t.(timestamp := t'.timestamp, ephemeralPublicKey := t'.ephemeralPublicKey, proposedVirtualIp := t'.proposedVirtualIp)
  }

  /** The same for an honest response: it pairs the initiator exactly if the HMACs of the two transcripts are equal. */
  lemma AlteredResponseIff(x: Exchange, a: Session, b: Session, c: Crypto, password: string, t': Response)
    requires Working(x, c, password) && password != "" && Timely(x, a, b, c)
    ensures FirstMessage(x, a, c, password).request.Some?
    ensures var first := FirstMessage(x, a, c, password);
            var second := SecondMessage(x, b, c, first.request.value, password);
            && second.response.Some?
            && var t := second.response.value;
               AlteredResponse(t, t') && |c.fromBase64(t'.ephemeralPublicKey)| == 32
               && c.sharedSecret(x.aliceKeys.privateKey, c.fromBase64(t'.ephemeralPublicKey)).Some?
               && !Replayed(first.session.seen, t'.sessionId + RESPONSE_SUFFIX, c.sha256(ResponseTranscript(c, t')),
                            t'.timestamp, x.completed) ==>
                 (HandleIncomingResponse(first.session, c, x.alice, t', password, x.completed).state == Paired
                  <==> SameHmac(x, c, password, ResponseTranscript(c, t), ResponseTranscript(c, t')))
  {
    hide FirstMessage, SecondMessage, Replayed, Registered, Pruned, HandleIncomingResponse, Transcript;
    RequestSent(x, a, c, password);
    var first := FirstMessage(x, a, c, password);
    ResponseSent(x, b, c, password, first.request.value);
    ResponseSalt(x, b, c, password, first.request.value);
    AnswerPairsIff(first.session, c, x.alice, t', password, x.completed);
  }

  lemma ResponseSalt(x: Exchange, b: Session, c: Crypto, password: string, r: Request)
    requires Working(x, c, password) && c.fromBase64(r.salt) == x.salt
    ensures var d := SecondMessage(x, b, c, r, password);
            d.response.Some? ==> c.fromBase64(d.response.value.salt) == x.salt
  {
    hide Transcript, Registered, Pruned, Replayed, CheckProof;
    CheckProofIff(c, r.ephemeralPublicKey, r.salt, r.authProof, RequestTranscript(c, r), password);
  }

  // ---------------------------------------------------------------------
  // The order of steps
  // ---------------------------------------------------------------------

  /**
   A request goes out exactly if everything is named and every primitive succeeds; otherwise the pairing has
   failed. It names both devices, the salt, the key, and the address that was asked for or the configured one.
   */
  lemma RequestGoesOutIff(
    s: Session, c: Crypto, cfg: Config, peer: string, password: string, ip: string, keyPair: Option<KeyPair>,
    salt: seq<byte>, sessionId: string, now: int)
    ensures var i := InitiatePairing(s, c, cfg, peer, password, ip, keyPair, salt, sessionId, now);
            && (i.request.Some? <==>
                  && cfg.deviceId != "" && peer != "" && password != "" && keyPair.Some? && |salt| == 16
                  && c.deriveKey(password, salt).Some?
                  && c.hmac(c.deriveKey(password, salt).value,
                            Transcript(c, cfg.deviceId, peer, now, c.toBase64(keyPair.value.publicKey))).Some?)
            && i.session.state == (if i.request.Some? then AwaitingResponse else Failed)
            && i.session.result == None
            && (i.request.Some? ==>
                  var r := i.request.value;
                  && r.sessionId == sessionId && r.senderDeviceId == cfg.deviceId && r.receiverDeviceId == peer
                  && r.timestamp == now && r.salt == c.toBase64(salt)
                  && r.ephemeralPublicKey == c.toBase64(keyPair.value.publicKey)
                  && r.proposedVirtualIp == if ip != "" then ip else cfg.virtualIp)
  {
    hide Transcript, Registered;
  }

  /** A request pairs the responder exactly if it is good and the answer can be made; then the answer is sent. */
  lemma RequestPairsIff(
    s: Session, c: Crypto, cfg: Config, r: Request, password: string, ip: string, keyPair: Option<KeyPair>,
    now: int, later: int)
    ensures var d := HandleIncomingRequest(s, c, cfg, r, password, ip, keyPair, now, later);
            && (d.session.state == Paired <==>
                  && GoodRequest(s, c, cfg, r, password, now) && keyPair.Some?
                  && c.sharedSecret(keyPair.value.privateKey, c.fromBase64(r.ephemeralPublicKey)).Some?
                  && c.hmac(c.deriveKey(password, c.fromBase64(r.salt)).value,
                            Transcript(c, cfg.deviceId, r.senderDeviceId, later,
                                       c.toBase64(keyPair.value.publicKey))).Some?)
            && (d.session.state == Paired <==> d.response.Some?)
            && (d.response.Some? ==>
                  var t := d.response.value;
                  && t.sessionId == r.sessionId && t.senderDeviceId == cfg.deviceId && t.receiverDeviceId == r.senderDeviceId
                  && t.timestamp == later && t.salt == c.toBase64(c.fromBase64(r.salt)) && t.status == "accepted"
                  && t.ephemeralPublicKey == c.toBase64(keyPair.value.publicKey)
                  && t.proposedVirtualIp == if ip != "" then ip else cfg.virtualIp)
            && (d.session.state != Paired ==> d.session.state == Failed && d.session.result == None)
  {
    hide Transcript, Registered, Pruned, Proven, CheckProof;
    CheckProofIff(c, r.ephemeralPublicKey, r.salt, r.authProof, RequestTranscript(c, r), password);
  }

  /** The key, the salt and the proof decode to the right sizes. */
  predicate Decodable(c: Crypto, publicKey: string, salt64: string, proof64: string) {
    |c.fromBase64(publicKey)| == 32 && |c.fromBase64(salt64)| >= 8 && |c.fromBase64(proof64)| == 32
  }

  /** The proof can be recomputed. */
  predicate Computable(c: Crypto, password: string, salt64: string, transcript: seq<byte>) {
    var key := c.deriveKey(password, c.fromBase64(salt64));
    key.Some? && c.hmac(key.value, transcript).Some?
  }

  /** Why a message whose address is right fails: in time, then new, then decodable, then computable, then proven. */
  predicate FailsFor(
    e: PairingError, c: Crypto, publicKey: string, salt64: string, proof64: string, transcript: seq<byte>, password: string,
    inTime: bool, replayed: bool)
  {
    && (e == TimestampExpired <==> !inTime)
    && (e == ReplayDetected <==> inTime && replayed)
    && (e == InvalidMessage <==> inTime && !replayed && !Decodable(c, publicKey, salt64, proof64))
    && (e == CryptoError <==> inTime && !replayed && Decodable(c, publicKey, salt64, proof64)
                              && !Computable(c, password, salt64, transcript))
    && (e == AuthFailed <==> inTime && !replayed && Decodable(c, publicKey, salt64, proof64)
                             && Computable(c, password, salt64, transcript)
                             && !Proven(c, publicKey, salt64, proof64, transcript, password))
  }

  /** Exactly for which reason a request is refused, and that the session then fails with it and nothing is answered. */
  lemma RequestFailsFor(
    s: Session, c: Crypto, cfg: Config, r: Request, password: string, ip: string, keyPair: Option<KeyPair>,
    now: int, later: int)
    ensures var v := CheckRequest(s.seen, c, cfg, r, password, now);
            var d := HandleIncomingRequest(s, c, cfg, r, password, ip, keyPair, now, later);
            v.Refused? ==>
              && d.session.state == Failed && d.session.lastError == v.error && d.response == None
              && if r.receiverDeviceId != cfg.deviceId then v.error == InvalidMessage
                 else FailsFor(v.error, c, r.ephemeralPublicKey, r.salt, r.authProof, RequestTranscript(c, r), password,
                               r.timestamp > 0 && -300 <= now - r.timestamp <= 300,
                               Replayed(s.seen, r.sessionId, c.sha256(RequestTranscript(c, r)), r.timestamp, now))
  {
    hide Transcript, Registered, Pruned, Replayed;
  }

  /** The same for a response: it is for this session, from its peer, to this device, and an acceptance. */
  lemma ResponseFailsFor(s: Session, c: Crypto, cfg: Config, r: Response, password: string, now: int)
    requires s.state == AwaitingResponse
    ensures var v := CheckResponse(s, c, cfg, r, password, now);
            var t := HandleIncomingResponse(s, c, cfg, r, password, now);
            v.Refused? ==>
              && t.state == Failed && t.lastError == v.error
              && if r.sessionId != s.sessionId || r.receiverDeviceId != cfg.deviceId || r.senderDeviceId != s.peerDeviceId
                 then v.error == InvalidMessage
                 else if r.status != ACCEPTED then v.error == AuthFailed
                 else FailsFor(v.error, c, r.ephemeralPublicKey, r.salt, r.authProof, ResponseTranscript(c, r), password,
                               r.timestamp > 0 && -300 <= now - r.timestamp <= 300,
                               Replayed(s.seen, r.sessionId + RESPONSE_SUFFIX, c.sha256(ResponseTranscript(c, r)),
                                        r.timestamp, now))
  {
    hide Transcript, Registered, Pruned, Replayed;
  }

  /** A session awaits a response only directly after it has sent its request, and it is that request's. */
  lemma AwaitsOnlyAfterInitiate(s: Session, c: Crypto, cfg: Config, a: Action)
    requires Act(s, c, cfg, a).state == AwaitingResponse
    ensures a.Initiate? && a.keyPair.Some?
    ensures var t := Act(s, c, cfg, a);
            t.sessionId == a.sessionId && t.peerDeviceId == a.peer && t.keyPair == a.keyPair.value && t.result == None
  {
    hide Transcript, Registered, Pruned, CheckRequest, CheckResponse;
  }

  /**
   A response pairs a session only directly after the request that it answers: any other step in between, a
   cancel, a reset, another message, even a refused one, makes every response fail.
   */
  lemma AnswerFollowsRequest(s: Session, c: Crypto, cfg: Config, a: Action, r: Response, password: string, now: int)
    requires HandleIncomingResponse(Act(s, c, cfg, a), c, cfg, r, password, now).state == Paired
    ensures a.Initiate? && a.keyPair.Some? && r.sessionId == a.sessionId && r.senderDeviceId == a.peer
    ensures c.sharedSecret(a.keyPair.value.privateKey, c.fromBase64(r.ephemeralPublicKey)).Some?
  {
    hide Act, Replayed, Proven;
    AnswerPairsIff(Act(s, c, cfg, a), c, cfg, r, password, now);
    AwaitsOnlyAfterInitiate(s, c, cfg, a);
  }

  /** After a cancel or a reset nothing of the pairing is left, and no response pairs; only the cache is kept. */
  lemma CancelForgets(s: Session, c: Crypto, cfg: Config, r: Response, password: string, now: int)
    ensures var t := Act(s, c, cfg, Cancel);
            && t.state != Paired && t.state != AwaitingResponse && t.seen == s.seen
            && (s.state != Failed ==> t.state == s.state == Idle || t == NEW_SESSION.(seen := s.seen))
            && HandleIncomingResponse(t, c, cfg, r, password, now).state == Failed
    ensures Act(s, c, cfg, Reset) == NEW_SESSION.(seen := s.seen)
  {
    hide CheckResponse;
  }

  // ---------------------------------------------------------------------
  // The cache
  // ---------------------------------------------------------------------

  /** Every entry has an id and a transcript hash. */
  predicate Named(seen: map<string, Entry>) {
    forall id :: id in seen ==> id != "" && seen[id].transcriptHash != []
  }

  lemma RegisterKeepsNamed(seen: map<string, Entry>, id: string, hash: seq<byte>, ts: int, now: int)
    requires Named(seen)
    ensures Named(Registered(seen, id, hash, ts)) && Named(Pruned(seen, now))
  {
  }

  lemma ActKeepsNamed(s: Session, c: Crypto, cfg: Config, a: Action)
    requires Named(s.seen)
    ensures Named(Act(s, c, cfg, a).seen)
  {
    hide Act, Named, Pruned, Registered, CheckRequest, CheckResponse, Transcript, Replayed;
    var t := Act(s, c, cfg, a).seen;
    SeenAfter(s, c, cfg, a);
    match a
    case Initiate(_, _, _, _, _, sessionId, now) =>
      if t != s.seen {
        var h :| t == Registered(s.seen, sessionId, h, now);
        RegisterKeepsNamed(s.seen, sessionId, h, now, now);
      }
    case Incoming(r, _, _, _, now, later) =>
      var g := SeenRequest(c, r);
      var u := Registered(Pruned(s.seen, now), g.sessionId, g.hash, g.timestamp);
      RegisterKeepsNamed(s.seen, "", [], now, now);
      RegisterKeepsNamed(Pruned(s.seen, now), g.sessionId, g.hash, g.timestamp, now);
      if Admits(s, c, cfg, a) && t != u {
        var h :| t == Registered(u, r.sessionId + RESPONSE_SUFFIX, h, later);
        RegisterKeepsNamed(u, r.sessionId + RESPONSE_SUFFIX, h, later, now);
      }
    case Answer(r, _, now) =>
      var g := SeenResponse(c, r);
      RegisterKeepsNamed(s.seen, "", [], now, now);
      RegisterKeepsNamed(Pruned(s.seen, now), g.sessionId, g.hash, g.timestamp, now);
    case Cancel =>
    case Reset =>
  }

  /** In every run the cache holds no entry without an id or a transcript. */
  lemma {:induction false} RunKeepsNamed(c: Crypto, cfg: Config, run: Run, actions: seq<Action>)
    requires Named(run.session.seen)
    ensures Named(RunOf(c, cfg, run, actions).session.seen)
    decreases |actions|
  {
    hide Act, Named;
    if actions != [] {
      ActKeepsNamed(run.session, c, cfg, actions[0]);
      RunKeepsNamed(c, cfg, Extended(run, c, cfg, actions[0]), actions[1..]);
    }
  }
}
