/** `PeerRegistry` and the two protocol phases, changing the maps in place. */
module PeerRegistry {
  import opened LogNames
  import opened RegistrySpec

  /** The pending map when all records but those in `left` have been looked at. */
  function PartlyCleaned(p: map<InstanceId, TeeRecord>, left: set<InstanceId>, now: nat): map<InstanceId, TeeRecord> {
    map id | id in p && (id in left || !IsChallengeExpired(p[id], now)) :: p[id]
  }

  lemma {:induction false} CleanOne(p: map<InstanceId, TeeRecord>, left: set<InstanceId>, id: InstanceId, now: nat)
    requires id in left && id in p
    ensures id in PartlyCleaned(p, left, now) && PartlyCleaned(p, left, now)[id] == p[id]
    ensures PartlyCleaned(p, left - {id}, now) ==
            if IsChallengeExpired(p[id], now) then PartlyCleaned(p, left, now) - {id} else PartlyCleaned(p, left, now)
    ensures var kept := PartlyCleaned(p, left, now).Keys;
            |p.Keys - (PartlyCleaned(p, left, now) - {id}).Keys| == |p.Keys - kept| + 1
  {
    var kept := PartlyCleaned(p, left, now).Keys;
    assert (PartlyCleaned(p, left, now) - {id}).Keys == kept - {id};
    assert p.Keys - (kept - {id}) == (p.Keys - kept) + {id};
  }

  class PeerRegistry {
    var pending: map<InstanceId, TeeRecord>
    var verified: map<InstanceId, TeeRecord>
    /** Everything sent on the broadcast channel. */
    var events: seq<Event>
    const expiry: nat

    ghost function State(): Registry
      reads this
    {
      Registry(pending, verified, events, expiry)
    }

    constructor (challengeExpiry: nat)
      ensures State() == Empty(challengeExpiry)
    {
      pending, verified, events := map[], map[], [];
      expiry := challengeExpiry;
    }

    method Register(id: InstanceId, ns: string, hash: string, tee: Tee, draw: Challenge, now: nat)
      returns (reply: Reply)
      modifies this
      ensures (State(), reply) == Step(old(State()), Call.Register(id, ns, hash, tee, draw), now)
    {
      if id in verified { return Collision; }
      if id in pending {
        match GetValidChallenge(pending[id], now) {
          case Some(challenge) => return Issued(challenge, false);
          case None =>
        }
      }
      pending := pending[id := NewPending(id, ns, draw, hash, tee, now, expiry)];
      events := events + [RegisteredEvent(ns, id, draw, hash)];
      reply := Issued(draw, true);
    }

    method GetPendingChallenge(id: InstanceId, now: nat) returns (challenge: Option<Challenge>)
      ensures Step(State(), Call.GetPendingChallenge(id), now) == (State(), Pending(challenge))
    {
      challenge := if id in pending then GetValidChallenge(pending[id], now) else None;
    }

    method CompleteVerification(id: InstanceId, state: TeeState, now: nat) returns (record: Option<TeeRecord>)
      modifies this
      ensures (State(), Completed(record)) == Step(old(State()), Call.CompleteVerification(id, state), now)
    {
      if id !in pending { return None; }
      var was := pending[id];
      pending := pending - {id};
      var complete := TeeRecord(id, was.namespace, state, was.ipAddress, was.apiPort);
      verified := verified[id := complete];
      events := events + [VerifiedEvent(complete.namespace, id, complete)];
      record := Some(complete);
    }

    method Reject(id: InstanceId, ns: string, reason: string, now: nat)
      modifies this
      ensures State() == Step(old(State()), Call.Reject(id, ns, reason), now).0
    {
      pending := pending - {id};
      events := events + [RejectedEvent(ns, id, reason)];
    }

    method Revoke(id: InstanceId, reason: string, now: nat) returns (revoked: bool)
      modifies this
      ensures (State(), Flag(revoked)) == Step(old(State()), Call.Revoke(id, reason), now)
    {
      revoked := id in verified;
      if revoked {
        var record := verified[id];
        verified := verified - {id};
        events := events + [RevokedEvent(record.namespace, id, reason, record)];
      }
    }

    /** `retain`, one record after the other in no particular order. */
    method Retain(now: nat) returns (removed: nat)
      modifies `pending
      ensures pending == Unexpired(old(pending), now) && removed == |old(pending).Keys - pending.Keys|
    {
      ghost var was := pending;
      removed := 0;
      var left := pending.Keys;
      assert PartlyCleaned(was, left, now) == was;
      while left != {}
        invariant left <= was.Keys
        invariant pending == PartlyCleaned(was, left, now) && removed == |was.Keys - pending.Keys|
        decreases left
      {
        var id :| id in left;
        CleanOne(was, left, id, now);
        if IsChallengeExpired(pending[id], now) {
          pending := pending - {id};
          removed := removed + 1;
        }
        left := left - {id};
      }
      assert PartlyCleaned(was, {}, now) == Unexpired(was, now);
    }

    method CleanupExpired(now: nat) returns (removed: nat)
      modifies this
      ensures (State(), Removed(removed)) == Step(old(State()), Call.CleanupExpired, now)
    {
      removed := Retain(now);
    }

    /** Phase 1 */
    method RegisterTee(ns: string, e: Evidence, trusted: Option<bool>, draw: Challenge, now: nat) returns (reply: Reply)
      modifies this
      ensures (State(), reply) == Step(old(State()), Call.RegisterTee(ns, e, trusted, draw), now)
    {
      if !Supported(e) || e.parsed.None? { return Refused(InvalidQuoteFormat); }
      if e.tee.value.Tdx? && IsZero(e.parsed.value) { return Refused(IdentityRequired); }
      if e.quote.None? { return Refused(AttestationFailed); }
      var quote := e.quote.value;
      if trusted.None? { return Refused(ConnectionFailed); }
      if !trusted.value { return Refused(MeasurementNotTrusted); }
      var registered := Register(quote.instanceId, ns, quote.measurementHash, e.tee.value, draw, now);
      match registered {
        case Issued(challenge, _) => reply := Granted(challenge, now + REPORTED_EXPIRY);
        case _ => reply := Refused(IdentityConflict);
      }
    }

    /** Phase 2 */
    method VerifyTee(ns: string, e: Evidence, now: nat) returns (reply: Reply)
      modifies this
      ensures (State(), reply) == Step(old(State()), Call.VerifyTee(ns, e), now)
    {
      if !Supported(e) || e.parsed.None? { return Refused(InvalidQuoteFormat); }
      var id := e.parsed.value;
      if id !in pending { return Refused(NoPendingChallenge); }
      var was := pending[id];
      if was.namespace != ns { return Refused(NonceVerificationFailed); }
      var challenge := GetValidChallenge(was, now);
      if challenge.None? { return Refused(NonceVerificationFailed); }
      if e.quote.None? { return Refused(AttestationFailed); }
      var quote := e.quote.value;
      if quote.reportData != challenge.value { return Refused(NonceVerificationFailed); }
      if quote.instanceId != id { return Refused(NonceVerificationFailed); }
      var tcb := if quote.tcbStatus.Some? then quote.tcbStatus.value else "Unknown";
      var record := CompleteVerification(id, Verified(quote.measurementHash, tcb, e.tee.value, now), now);
      if record.None? { return Refused(AttestationFailed); }
      reply := Accepted(quote.measurementHash, quote.tcbStatus);
    }
  }
}
