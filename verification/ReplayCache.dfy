/** The replay protection of pairing: which sessions were seen, and for how long they are remembered. */
module ReplayCache {
  import opened Bytes

  const REPLAY_WINDOW_SECONDS: int := 300

  datatype Entry = Entry(timestamp: int, transcriptHash: seq<byte>)

  function Distance(a: int, b: int): nat {
    if a < b then b - a else a - b
  }

  predicate TimestampValid(timestamp: int, now: int) {
    timestamp > 0 && Distance(now, timestamp) <= REPLAY_WINDOW_SECONDS
  }

  /** What is left when the entries outside the window are gone. */
  function Pruned(seen: map<string, Entry>, now: int): map<string, Entry> {
    map s | s in seen && Distance(now, seen[s].timestamp) <= REPLAY_WINDOW_SECONDS :: seen[s]
  }

  predicate HashSeen(seen: map<string, Entry>, hash: seq<byte>) {
    exists s :: s in seen && seen[s].transcriptHash == hash
  }

  predicate Replayed(seen: map<string, Entry>, sessionId: string, hash: seq<byte>, timestamp: int, now: int) {
    sessionId == "" || hash == [] || !TimestampValid(timestamp, now) || sessionId in Pruned(seen, now)
    || HashSeen(Pruned(seen, now), hash)
  }

  function Registered(seen: map<string, Entry>, sessionId: string, hash: seq<byte>, timestamp: int): map<string, Entry> {
    if sessionId == "" || hash == [] then seen else seen[sessionId := Entry(timestamp, hash)]
  }

  class ReplayProtectionCache {
    var seenSessions: map<string, Entry>

    constructor ()
      ensures seenSessions == map[]
    {
      seenSessions := map[];
    }

    /** A current timestamp that is not positive stands for the clock. */
    function Now(currentTimestamp: int, clock: int): int {
      if currentTimestamp > 0 then currentTimestamp else clock
    }

    method IsTimestampValid(timestamp: int, currentTimestamp: int, clock: int) returns (valid: bool)
      ensures valid == TimestampValid(timestamp, Now(currentTimestamp, clock))
    {
      if timestamp <= 0 {
        return false;
      }
      var now := Now(currentTimestamp, clock);
      valid := Distance(now, timestamp) <= REPLAY_WINDOW_SECONDS;
    }

    method PruneExpired(currentTimestamp: int, clock: int)
      modifies this
      ensures seenSessions == Pruned(old(seenSessions), Now(currentTimestamp, clock))
    {
      var now := Now(currentTimestamp, clock);
      var left := seenSessions.Keys;
      while left != {}
        invariant left <= seenSessions.Keys <= old(seenSessions).Keys
        invariant forall s :: s in seenSessions ==> seenSessions[s] == old(seenSessions)[s]
        invariant forall s :: s in old(seenSessions) && s !in left ==>
                    (s in seenSessions <==> Distance(now, old(seenSessions)[s].timestamp) <= REPLAY_WINDOW_SECONDS)
        decreases left
      {
        var s :| s in left;
        if Distance(now, seenSessions[s].timestamp) > REPLAY_WINDOW_SECONDS {
          seenSessions := seenSessions - {s};
        }
        left := left - {s};
      }
    }

    method IsReplayed(sessionId: string, transcriptHash: seq<byte>, timestamp: int, currentTimestamp: int, clock: int)
      returns (replayed: bool)
      modifies this
      ensures var now := Now(currentTimestamp, clock);
              && replayed == Replayed(old(seenSessions), sessionId, transcriptHash, timestamp, now)
              && seenSessions == Pruned(old(seenSessions), now)
    {
      PruneExpired(currentTimestamp, clock);
      if sessionId == "" || transcriptHash == [] {
        return true;
      }
      var valid := IsTimestampValid(timestamp, currentTimestamp, clock);
      if !valid {
        return true;
      }
      if sessionId in seenSessions {
        return true;
      }
      var left := seenSessions.Keys;
      while left != {}
        invariant left <= seenSessions.Keys
        invariant forall s :: s in seenSessions && s !in left ==> seenSessions[s].transcriptHash != transcriptHash
        decreases left
      {
        var s :| s in left;
        if seenSessions[s].transcriptHash == transcriptHash {
          return true;
        }
        left := left - {s};
      }
      return false;
    }

    method RegisterSession(sessionId: string, transcriptHash: seq<byte>, timestamp: int)
      modifies this
      ensures seenSessions == Registered(old(seenSessions), sessionId, transcriptHash, timestamp)
    {
      if sessionId == "" || transcriptHash == [] {
        return;
      }
      seenSessions := seenSessions[sessionId := Entry(timestamp, transcriptHash)];
    }
  }

  // ---------------------------------------------------------------------
  // How long a session stays guarded
  // ---------------------------------------------------------------------

  datatype Seen = Seen(sessionId: string, hash: seq<byte>, timestamp: int)

  /** From `clock` on, the session is remembered until its timestamp is too old to be valid. */
  predicate Guarded(seen: map<string, Entry>, clock: int, a: Seen) {
    && a.timestamp <= clock + REPLAY_WINDOW_SECONDS
    && (clock > a.timestamp + REPLAY_WINDOW_SECONDS
        || (a.sessionId in seen && seen[a.sessionId] == Entry(a.timestamp, a.hash)))
  }

  /** Nothing that carries the timestamp and the id, or the hash, of a guarded session gets past the cache. */
  lemma GuardedIsReplayed(seen: map<string, Entry>, clock: int, a: Seen, sessionId: string, hash: seq<byte>, now: int)
    requires Guarded(seen, clock, a) && clock <= now && (sessionId == a.sessionId || hash == a.hash)
    ensures Replayed(seen, sessionId, hash, a.timestamp, now)
  {
    if TimestampValid(a.timestamp, now) {
      assert a.sessionId in Pruned(seen, now) && Pruned(seen, now)[a.sessionId].transcriptHash == a.hash;
    }
  }

  /** Pruning and the passage of time keep the guard. */
  lemma PruneKeepsGuard(seen: map<string, Entry>, clock: int, a: Seen, now: int)
    requires Guarded(seen, clock, a) && clock <= now
    ensures Guarded(Pruned(seen, now), now, a) && Guarded(seen, now, a)
  {
  }

  /**
   Registering keeps the guard of an earlier session exactly if it has another id, or registers the
   very same entry, or comes when the earlier timestamp has expired.
   */
  lemma RegisterKeepsGuardIff(seen: map<string, Entry>, clock: int, a: Seen, b: Seen)
    requires Guarded(seen, clock, a) && b.sessionId != "" && b.hash != []
    ensures Guarded(Registered(seen, b.sessionId, b.hash, b.timestamp), clock, a) <==>
            b.sessionId != a.sessionId || Entry(b.timestamp, b.hash) == Entry(a.timestamp, a.hash)
            || clock > a.timestamp + REPLAY_WINDOW_SECONDS
  {
  }

  // ---------------------------------------------------------------------
  // When replays are refused
  // ---------------------------------------------------------------------

  /** From `clock` on, no request with the timestamp is let through that shares the id or the transcript. */
  ghost predicate RefusedForever(seen: map<string, Entry>, clock: int, a: Seen) {
    forall sessionId, hash, now :: clock <= now && (sessionId == a.sessionId || hash == a.hash) ==>
      Replayed(seen, sessionId, hash, a.timestamp, now)
  }

  /** No entry is stamped beyond the window. */
  predicate Dated(seen: map<string, Entry>, clock: int) {
    forall s :: s in seen ==> seen[s].timestamp <= clock + REPLAY_WINDOW_SECONDS
  }

  /** Some entry, other than that of `except`, holds the hash as long as the timestamp is valid. */
  predicate HashCovered(seen: map<string, Entry>, a: Seen, except: string) {
    exists s :: s in seen && s != except && seen[s].transcriptHash == a.hash && seen[s].timestamp >= a.timestamp
  }

  /** The id and the hash are both held that long. */
  predicate Covered(seen: map<string, Entry>, a: Seen) {
    && a.sessionId in seen && seen[a.sessionId].timestamp >= a.timestamp
    && (seen[a.sessionId].transcriptHash == a.hash || HashCovered(seen, a, a.sessionId))
  }

  /** Some length is that of no sequence in the set. */
  lemma {:induction false} LongerThanAll<T>(ks: set<seq<T>>) returns (n: nat)
    ensures n > 0 && forall k :: k in ks ==> |k| < n
    decreases |ks|
  {
    if ks == {} {
      n := 1;
    } else {
      var k :| k in ks;
      var m := LongerThanAll(ks - {k});
      n := if |k| < m then m else |k| + 1;
    }
  }

  /** At the last moment at which the timestamp is valid, exactly the entries that are not older are left. */
  lemma LastMoment(seen: map<string, Entry>, clock: int, a: Seen)
    requires Dated(seen, clock) && clock <= a.timestamp + REPLAY_WINDOW_SECONDS
    ensures var left := Pruned(seen, a.timestamp + REPLAY_WINDOW_SECONDS);
            forall s :: s in left <==> s in seen && seen[s].timestamp >= a.timestamp
  {
  }

  lemma CoveredIsRefused(seen: map<string, Entry>, clock: int, a: Seen, sessionId: string, hash: seq<byte>, now: int)
    requires Dated(seen, clock) && Covered(seen, a) && clock <= now && (sessionId == a.sessionId || hash == a.hash)
    ensures Replayed(seen, sessionId, hash, a.timestamp, now)
  {
    if TimestampValid(a.timestamp, now) {
      var left := Pruned(seen, now);
      assert a.sessionId in left;
      var s :| s in seen && seen[s].transcriptHash == a.hash && seen[s].timestamp >= a.timestamp;
      assert s in left && left[s].transcriptHash == a.hash;
    }
  }

  lemma UncoveredIsLetThrough(seen: map<string, Entry>, clock: int, a: Seen) returns (sessionId: string, hash: seq<byte>)
    requires Dated(seen, clock) && !Covered(seen, a) && clock <= a.timestamp + REPLAY_WINDOW_SECONDS
    requires a.timestamp > 0 && a.sessionId != "" && a.hash != []
    ensures sessionId == a.sessionId || hash == a.hash
    ensures !Replayed(seen, sessionId, hash, a.timestamp, a.timestamp + REPLAY_WINDOW_SECONDS)
  {
    var last := a.timestamp + REPLAY_WINDOW_SECONDS;
    var left := Pruned(seen, last);
    LastMoment(seen, clock, a);
    if a.sessionId !in left {
      var n := LongerThanAll(set s | s in left :: left[s].transcriptHash);
      sessionId, hash := a.sessionId, Padding(n);
      forall s | s in left
        ensures left[s].transcriptHash != hash
      {
        assert left[s].transcriptHash in (set s | s in left :: left[s].transcriptHash);
      }
    } else {
      var n := LongerThanAll(left.Keys);
      sessionId, hash := seq(n, _ => 'a'), a.hash;
      assert sessionId !in left;
    }
  }

  /**
   Replays are refused for good exactly if the timestamp has expired, or the id and the hash are held by
   entries that are not older than it.
   */
  lemma RefusedIffCovered(seen: map<string, Entry>, clock: int, a: Seen)
    requires Dated(seen, clock) && a.timestamp > 0 && a.sessionId != "" && a.hash != []
    ensures RefusedForever(seen, clock, a) <==> clock > a.timestamp + REPLAY_WINDOW_SECONDS || Covered(seen, a)
  {
    hide Covered, Dated;
    if clock > a.timestamp + REPLAY_WINDOW_SECONDS {
    } else if Covered(seen, a) {
      forall sessionId, hash, now | clock <= now && (sessionId == a.sessionId || hash == a.hash)
        ensures Replayed(seen, sessionId, hash, a.timestamp, now)
      {
        CoveredIsRefused(seen, clock, a, sessionId, hash, now);
      }
    } else {
      var sessionId, hash := UncoveredIsLetThrough(seen, clock, a);
    }
  }

  /**
   A registration `b` leaves replays of a guarded session refused exactly if it has another id, or the
   guarded timestamp has expired, or it is not older and the hash is still held: by itself or another entry.
   */
  lemma RegisterKeepsRefusalIff(seen: map<string, Entry>, clock: int, a: Seen, b: Seen)
    requires Guarded(seen, clock, a) && Dated(seen, clock) && a.timestamp > 0 && a.sessionId != "" && a.hash != []
    requires b.sessionId != "" && b.hash != [] && b.timestamp <= clock + REPLAY_WINDOW_SECONDS
    ensures RefusedForever(Registered(seen, b.sessionId, b.hash, b.timestamp), clock, a) <==>
            || b.sessionId != a.sessionId || clock > a.timestamp + REPLAY_WINDOW_SECONDS
            || (b.timestamp >= a.timestamp && (b.hash == a.hash || HashCovered(seen, a, a.sessionId)))
  {
    hide RefusedForever;
    var after := Registered(seen, b.sessionId, b.hash, b.timestamp);
    RefusedIffCovered(after, clock, a);
    if b.sessionId == a.sessionId {
      assert HashCovered(after, a, a.sessionId) <==> HashCovered(seen, a, a.sessionId) by {
        assert forall s :: s != a.sessionId ==> (s in after <==> s in seen) && (s in seen ==> after[s] == seen[s]);
      }
    }
  }

  /** What was not replayed is guarded once it is registered, and all that was guarded stays so. */
  lemma AdmittedIsGuarded(seen: map<string, Entry>, clock: int, a: Seen, b: Seen, now: int)
    requires clock <= now && !Replayed(seen, b.sessionId, b.hash, b.timestamp, now)
    ensures Guarded(Registered(Pruned(seen, now), b.sessionId, b.hash, b.timestamp), now, b)
    ensures Guarded(seen, clock, a) ==>
              Guarded(Registered(Pruned(seen, now), b.sessionId, b.hash, b.timestamp), now, a)
  {
  }
}
