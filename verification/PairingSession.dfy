/** The pairing session as an object over its replay cache. */
module PairingSession {
  import opened Bytes
  import opened Wrappers
  import opened ReplayCache
  import opened Pairing

  class PairingSession {
    const crypto: Crypto
    const config: Config
    const replayCache: ReplayProtectionCache
    var state: PairingState
    var lastError: PairingError
    var sessionId: string
    var peerDeviceId: string
    var ephemeralKeyPair: KeyPair
    var salt: seq<byte>
    var result: Option<PairingResult>

    ghost function AsSession(): Session
      reads this, replayCache
    {
      Session(state, lastError, sessionId, peerDeviceId, ephemeralKeyPair, salt, result, replayCache.seenSessions)
    }

    constructor (crypto: Crypto, config: Config)
      ensures fresh(replayCache) && AsSession() == NEW_SESSION
      ensures this.crypto == crypto && this.config == config
    {
      this.crypto, this.config := crypto, config;
      replayCache := new ReplayProtectionCache();
      state, lastError, sessionId, peerDeviceId := Idle, NoError, "", "";
      ephemeralKeyPair, salt, result := NO_KEYS, [], None;
    }

    method SetFailed(error: PairingError)
      modifies this`state, this`lastError
      ensures AsSession() == FailedWith(old(AsSession()), error)
    {
      lastError := error;
      state := Failed;
    }

    /** The replay cache outlives a reset. */
    method Reset()
      modifies this
      ensures AsSession() == ResetSession(old(AsSession()))
    {
      ephemeralKeyPair, salt, sessionId, peerDeviceId := NO_KEYS, [], "", "";
      result, lastError, state := None, NoError, Idle;
    }

    method CancelPairing()
      modifies this
      ensures AsSession() == CancelledSession(old(AsSession()))
    {
      if state != Idle && state != Failed {
        SetFailed(Cancelled);
        Reset();
      }
    }

    /** The key pair, the salt and the session id are the fresh ones that are drawn here. */
    method Initiate(peer: string, password: string, localVirtualIp: string,
                    freshKeys: Option<KeyPair>, freshSalt: seq<byte>, freshId: string, now: int)
      returns (request: Option<Request>)
      modifies this, replayCache
      ensures Requested(AsSession(), request) ==
              InitiatePairing(old(AsSession()), crypto, config, peer, password, localVirtualIp,
                              freshKeys, freshSalt, freshId, now)
    {
      hide Transcript, Registered;
      Reset();
      state := Initiating;
      if config.deviceId == "" || peer == "" || password == "" {
        SetFailed(InvalidMessage);
        return None;
      }
      if freshKeys.None? {
        SetFailed(CryptoError);
        return None;
      }
      ephemeralKeyPair := freshKeys.value;
      salt := freshSalt;
      if |salt| != 16 {
        SetFailed(CryptoError);
        return None;
      }
      var kdfKey := crypto.deriveKey(password, salt);
      if kdfKey.None? {
        SetFailed(CryptoError);
        return None;
      }
      sessionId, peerDeviceId := freshId, peer;
      var req := Request(sessionId, config.deviceId, peer, now, crypto.toBase64(salt),
                         crypto.toBase64(ephemeralKeyPair.publicKey), ProposedIp(localVirtualIp, config), "");
      var transcript := RequestTranscript(crypto, req);
      var proof := crypto.hmac(kdfKey.value, transcript);
      if proof.None? {
        SetFailed(CryptoError);
        return None;
      }
      req := req.(authProof := crypto.toBase64(proof.value));
      replayCache.RegisterSession(req.sessionId, crypto.sha256(transcript), req.timestamp);
      state := AwaitingResponse;
      return Some(req);
    }

    /** Decoding and proof check, as both kinds of message go through them. */
    method VerifyProof(publicKey: string, salt64: string, proof64: string, transcript: seq<byte>, password: string)
      returns (v: Verdict)
      ensures v == CheckProof(crypto, publicKey, salt64, proof64, transcript, password)
    {
      var peerPubKey := crypto.fromBase64(publicKey);
      var peerSalt := crypto.fromBase64(salt64);
      var peerProof := crypto.fromBase64(proof64);
      if |peerPubKey| != 32 || |peerSalt| < 8 || |peerProof| != 32 {
        return Refused(InvalidMessage, true);
      }
      var kdfKey := crypto.deriveKey(password, peerSalt);
      if kdfKey.None? {
        return Refused(CryptoError, true);
      }
      var expected := crypto.hmac(kdfKey.value, transcript);
      if expected.None? {
        return Refused(CryptoError, true);
      }
      if !SameProof(expected.value, peerProof) {
        return Refused(AuthFailed, true);
      }
      return Verified(kdfKey.value, peerPubKey, peerSalt);
    }

    /** `now` and `later` are the two clock readings of this slot. */
    method OnIncomingRequest(request: Request, password: string, localVirtualIp: string,
                             freshKeys: Option<KeyPair>, now: int, later: int)
      returns (response: Option<Response>)
      requires now > 0
      modifies this, replayCache
      ensures Responded(AsSession(), response) ==
              HandleIncomingRequest(old(AsSession()), crypto, config, request, password, localVirtualIp,
                                    freshKeys, now, later)
    {
      hide Transcript, Registered, Pruned, Replayed, TimestampValid, CheckProof, Respond;
      Reset();
      state := Verifying;
      if request.receiverDeviceId != config.deviceId {
        SetFailed(InvalidMessage);
        return None;
      }
      var valid := replayCache.IsTimestampValid(request.timestamp, now, now);
      if !valid {
        SetFailed(TimestampExpired);
        return None;
      }
      var transcript := RequestTranscript(crypto, request);
      var transcriptHash := crypto.sha256(transcript);
      var replayed := replayCache.IsReplayed(request.sessionId, transcriptHash, request.timestamp, now, now);
      if replayed {
        SetFailed(ReplayDetected);
        return None;
      }
      var v := VerifyProof(request.ephemeralPublicKey, request.salt, request.authProof, transcript, password);
      if v.Refused? {
        RefusedLate(crypto, request.ephemeralPublicKey, request.salt, request.authProof, transcript, password);
        SetFailed(v.error);
        return None;
      }
      replayCache.RegisterSession(request.sessionId, transcriptHash, request.timestamp);
      response := Answer(request, v, localVirtualIp, freshKeys, later);
    }

    method Answer(request: Request, v: Verdict, localVirtualIp: string, freshKeys: Option<KeyPair>, later: int)
      returns (response: Option<Response>)
      requires v.Verified?
      modifies this, replayCache
      ensures Responded(AsSession(), response) ==
              Respond(old(AsSession()), crypto, config, request, v, localVirtualIp, freshKeys, later)
    {
      hide Transcript, Registered;
      if freshKeys.None? {
        SetFailed(CryptoError);
        return None;
      }
      ephemeralKeyPair := freshKeys.value;
      var sharedSecret := crypto.sharedSecret(ephemeralKeyPair.privateKey, v.peerKey);
      if sharedSecret.None? {
        SetFailed(CryptoError);
        return None;
      }
      var resp := Response(request.sessionId, config.deviceId, request.senderDeviceId, later, crypto.toBase64(v.salt),
                           crypto.toBase64(ephemeralKeyPair.publicKey), ProposedIp(localVirtualIp, config), "", ACCEPTED);
      var transcript := ResponseTranscript(crypto, resp);
      var proof := crypto.hmac(v.kdfKey, transcript);
      if proof.None? {
        SetFailed(CryptoError);
        return None;
      }
      resp := resp.(authProof := crypto.toBase64(proof.value));
      replayCache.RegisterSession(resp.sessionId + RESPONSE_SUFFIX, crypto.sha256(transcript), resp.timestamp);
      result := Some(PairingResult(request.senderDeviceId, request.ephemeralPublicKey,
                                   request.proposedVirtualIp, sharedSecret.value));
      state := Paired;
      return Some(resp);
    }

    method OnIncomingResponse(response: Response, password: string, now: int) returns (ok: bool)
      requires now > 0
      modifies this, replayCache
      ensures AsSession() == HandleIncomingResponse(old(AsSession()), crypto, config, response, password, now)
      ensures ok <==> state == Paired
    {
      hide Transcript, Registered, Pruned, Replayed, TimestampValid, CheckProof;
      if state != AwaitingResponse {
        SetFailed(InvalidMessage);
        return false;
      }
      state := Verifying;
      if response.sessionId != sessionId {
        SetFailed(InvalidMessage);
        return false;
      }
      if response.receiverDeviceId != config.deviceId || response.senderDeviceId != peerDeviceId {
        SetFailed(InvalidMessage);
        return false;
      }
      if response.status != ACCEPTED {
        SetFailed(AuthFailed);
        return false;
      }
      var valid := replayCache.IsTimestampValid(response.timestamp, now, now);
      if !valid {
        SetFailed(TimestampExpired);
        return false;
      }
      var transcript := ResponseTranscript(crypto, response);
      var transcriptHash := crypto.sha256(transcript);
      var replayed := replayCache.IsReplayed(
        response.sessionId + RESPONSE_SUFFIX, transcriptHash, response.timestamp, now, now);
      if replayed {
        SetFailed(ReplayDetected);
        return false;
      }
      var v := VerifyProof(response.ephemeralPublicKey, response.salt, response.authProof, transcript, password);
      RefusedLate(crypto, response.ephemeralPublicKey, response.salt, response.authProof, transcript, password);
      if v.Refused? {
        SetFailed(v.error);
        return false;
      }
      var sharedSecret := crypto.sharedSecret(ephemeralKeyPair.privateKey, v.peerKey);
      if sharedSecret.None? {
        SetFailed(CryptoError);
        return false;
      }
      replayCache.RegisterSession(response.sessionId + RESPONSE_SUFFIX, transcriptHash, response.timestamp);
      result := Some(PairingResult(response.senderDeviceId, response.ephemeralPublicKey,
                                   response.proposedVirtualIp, sharedSecret.value));
      state := Paired;
      return true;
    }
  }
}
