/** What each call on the registry answers and changes, case by case. */
module RegistryOutcomes {
  import opened LogNames
  import opened RegistrySpec

  /** A challenge that can still be answered. */
  predicate Open(r: Registry, id: InstanceId, now: nat) {
    id in r.pending && r.pending[id].state.PendingChallenge? && now <= r.pending[id].state.expiresAt
  }

  /** A verified instance collides; an open challenge is handed out again; otherwise a new
      one replaces whatever was pending and is announced. */
  lemma {:induction false} RegisterExactly(r: Registry, id: InstanceId, ns: string, hash: string, tee: Tee,
      draw: Challenge, now: nat)
    ensures var (after, reply) := Step(r, Register(id, ns, hash, tee, draw), now);
            && (reply == Collision <==> id in r.verified)
            && (reply.Issued? <==> id !in r.verified)
            && (id in r.verified || Open(r, id, now) ==> after == r)
            && (id !in r.verified && Open(r, id, now) ==> reply == Issued(r.pending[id].state.challenge, false))
            && (id !in r.verified && !Open(r, id, now) ==>
                 && reply == Issued(draw, true)
                 && after.pending == r.pending[id := TeeRecord(id, ns,
                      PendingChallenge(draw, now, now + r.expiry, hash, tee), None, None)]
                 && after.events == r.events + [RegisteredEvent(ns, id, draw, hash)]
                 && after.verified == r.verified && after.expiry == r.expiry)
  {}

  predicate Readable(e: Evidence) {
    (e.tee == Some(Tdx) || e.tee == Some(Snp)) && e.parsed.Some?
  }

  predicate Anonymous(e: Evidence)
    requires Readable(e)
  {
    e.tee == Some(Tdx) && forall k :: 0 <= k < |e.parsed.value| ==> e.parsed.value[k] == 0
  }

  /** Phase 1 grants a challenge exactly if every check passes; each refusal names the first
      check that failed and leaves the registry alone. */
  lemma {:induction false} GrantedExactly(r: Registry, ns: string, e: Evidence, trusted: Option<bool>, draw: Challenge,
      now: nat)
    ensures var (after, reply) := Step(r, RegisterTee(ns, e, trusted, draw), now);
            && (reply.Granted? <==>
                 && Readable(e) && !Anonymous(e) && e.quote.Some? && trusted == Some(true)
                 && e.quote.value.instanceId !in r.verified)
            && (reply.Granted? || (reply.Refused? && after == r))
            && (reply == Refused(InvalidQuoteFormat) <==> !Readable(e))
            && (reply == Refused(IdentityRequired) <==> Readable(e) && Anonymous(e))
            && (reply == Refused(AttestationFailed) <==> Readable(e) && !Anonymous(e) && e.quote.None?)
            && (reply == Refused(ConnectionFailed) <==>
                 Readable(e) && !Anonymous(e) && e.quote.Some? && trusted == None)
            && (reply == Refused(MeasurementNotTrusted) <==>
                 Readable(e) && !Anonymous(e) && e.quote.Some? && trusted == Some(false))
            && (reply == Refused(IdentityConflict) <==>
                 && Readable(e) && !Anonymous(e) && e.quote.Some? && trusted == Some(true)
                 && e.quote.value.instanceId in r.verified)
  {}

  /** What is granted: the open challenge of the signed instance if there is one, with nothing
      changed; otherwise the fresh one, pending under the signed measurement and platform. */
  lemma {:induction false} GrantedChallenge(r: Registry, ns: string, e: Evidence, trusted: Option<bool>,
      draw: Challenge, now: nat)
    requires Step(r, RegisterTee(ns, e, trusted, draw), now).1.Granted?
    ensures var (after, reply) := Step(r, RegisterTee(ns, e, trusted, draw), now);
            && reply.expiresAt == now + 60 && e.quote.Some? && e.tee.Some?
            && var q := e.quote.value;
               if Open(r, q.instanceId, now)
               then after == r && reply.challenge == r.pending[q.instanceId].state.challenge
               else && reply.challenge == draw
                    && after.pending == r.pending[q.instanceId := TeeRecord(q.instanceId, ns,
                         PendingChallenge(draw, now, now + r.expiry, q.measurementHash, e.tee.value), None, None)]
                    && after.events == r.events + [RegisteredEvent(ns, q.instanceId, draw, q.measurementHash)]
                    && after.verified == r.verified && after.expiry == r.expiry
  {
    var q := e.quote.value;
    RegisterExactly(r, q.instanceId, ns, q.measurementHash, e.tee.value, draw, now);
  }

  /** Completion takes a pending record into `verified`, address and namespace included, and
      announces it; without a pending record it does nothing. */
  lemma {:induction false} CompletedExactly(r: Registry, id: InstanceId, state: TeeState, now: nat)
    ensures var (after, reply) := Step(r, CompleteVerification(id, state), now);
            if id !in r.pending then after == r && reply == Completed(None) else
              var p := r.pending[id];
              var record := TeeRecord(id, p.namespace, state, p.ipAddress, p.apiPort);
              && reply == Completed(Some(record))
              && after.pending == (map i | i in r.pending && i != id :: r.pending[i])
              && after.verified == r.verified[id := record]
              && after.events == r.events + [VerifiedEvent(p.namespace, id, record)]
              && after.expiry == r.expiry
  {}

  /** An accepted phase 2 completes: the instance leaves `pending`, the other records stay,
      `verified` gains it with what the quote says, the one event is sent and the reply
      carries the quote's measurement and status. */
  lemma {:induction false} AcceptedCompletes(r: Registry, ns: string, e: Evidence, now: nat)
    requires Step(r, VerifyTee(ns, e), now).1.Accepted?
    ensures Readable(e) && e.quote.Some? && e.parsed.value in r.pending
    ensures var (after, reply) := Step(r, VerifyTee(ns, e), now);
            var q, id := e.quote.value, e.parsed.value;
            var tcb := if q.tcbStatus.Some? then q.tcbStatus.value else "Unknown";
            var record := TeeRecord(id, ns, Verified(q.measurementHash, tcb, e.tee.value, now),
                                    r.pending[id].ipAddress, r.pending[id].apiPort);
            && reply == Accepted(q.measurementHash, q.tcbStatus)
            && q.instanceId == id
            && after.pending == (map i | i in r.pending && i != id :: r.pending[i])
            && after.verified == r.verified[id := record]
            && after.events == r.events + [VerifiedEvent(ns, id, record)]
            && after.expiry == r.expiry
  {
    var q := e.quote.value;
    var tcb := if q.tcbStatus.Some? then q.tcbStatus.value else "Unknown";
    CompletedExactly(r, e.parsed.value, Verified(q.measurementHash, tcb, e.tee.value, now), now);
  }

  /** The challenge that phase 2 looks for, in the right namespace. */
  predicate Expected(r: Registry, ns: string, e: Evidence, now: nat)
    requires Readable(e) && e.parsed.value in r.pending
  {
    r.pending[e.parsed.value].namespace == ns && Open(r, e.parsed.value, now)
  }

  /** Which refusal phase 2 gives, and that it leaves the registry alone. */
  lemma {:induction false} Phase2Refusals(r: Registry, ns: string, e: Evidence, now: nat)
    ensures var (after, reply) := Step(r, VerifyTee(ns, e), now);
            && (reply.Accepted? || (reply.Refused? && after == r))
            && (reply == Refused(InvalidQuoteFormat) <==> !Readable(e))
            && (reply == Refused(NoPendingChallenge) <==> Readable(e) && e.parsed.value !in r.pending)
            && (reply == Refused(AttestationFailed) <==>
                 Readable(e) && e.parsed.value in r.pending && Expected(r, ns, e, now) && e.quote.None?)
            && (reply == Refused(NonceVerificationFailed) <==>
                 && Readable(e) && e.parsed.value in r.pending
                 && (|| !Expected(r, ns, e, now)
                     || (e.quote.Some? && (|| e.quote.value.reportData != r.pending[e.parsed.value].state.challenge
                                           || e.quote.value.instanceId != e.parsed.value))))
  {}

  /** Looking up changes nothing and finds open challenges only. */
  lemma {:induction false} LookUpExactly(r: Registry, id: InstanceId, now: nat)
    ensures Step(r, GetPendingChallenge(id), now).0 == r && Step(r, IsVerified(id), now) == (r, Flag(id in r.verified))
    ensures Step(r, GetPendingChallenge(id), now).1
            == Pending(if Open(r, id, now) then Some(r.pending[id].state.challenge) else None)
  {}

  /** A rejection is always announced, whether or not anything was pending. */
  lemma {:induction false} RejectedExactly(r: Registry, id: InstanceId, ns: string, reason: string, now: nat)
    ensures var (after, reply) := Step(r, Reject(id, ns, reason), now);
            && reply == Sent
            && after.pending == (map i | i in r.pending && i != id :: r.pending[i])
            && after.events == r.events + [RejectedEvent(ns, id, reason)]
            && after.verified == r.verified && after.expiry == r.expiry
  {}

  /** A revocation takes a verified record away and announces it, or answers false. */
  lemma {:induction false} RevokedExactly(r: Registry, id: InstanceId, reason: string, now: nat)
    ensures var (after, reply) := Step(r, Revoke(id, reason), now);
            && reply == Flag(id in r.verified)
            && after.verified == (map i | i in r.verified && i != id :: r.verified[i])
            && after.events == r.events + (if id in r.verified
                 then [RevokedEvent(r.verified[id].namespace, id, reason, r.verified[id])] else [])
            && after.pending == r.pending && after.expiry == r.expiry
  {}

  lemma {:induction false} CountExpired(pending: map<InstanceId, TeeRecord>, now: nat)
    ensures |Expired(pending, now)| == |pending| - |Unexpired(pending, now)|
  {
    var all, kept := pending.Keys, Unexpired(pending, now).Keys;
    assert kept <= all;
    assert |all - kept| == |all| - |kept|;
  }

  /** Cleaning up keeps exactly the records that are not expired challenges, and counts the
      rest. */
  lemma {:induction false} CleanedExactly(r: Registry, now: nat)
    ensures var (after, reply) := Step(r, CleanupExpired, now);
            && (forall id :: id in after.pending <==>
                  id in r.pending && !(r.pending[id].state.PendingChallenge? && now > r.pending[id].state.expiresAt))
            && (forall id :: id in after.pending ==> after.pending[id] == r.pending[id])
            && reply == Removed(|r.pending| - |after.pending|)
            && after.verified == r.verified && after.events == r.events && after.expiry == r.expiry
  {
    CountExpired(r.pending, now);
  }
}
