/** The two-phase attestation registry as a function of calls and clock readings. */
module RegistrySpec {
  import opened LogNames

  /** The lifetime `register_tee` reports, in seconds, whatever the registry's is. */
  const REPORTED_EXPIRY: nat := 60

  type InstanceId = seq<nat>
  type Challenge = seq<nat>

  datatype Tee = Tdx | Snp | OtherTee

  datatype TeeState =
    | PendingChallenge(challenge: Challenge, issuedAt: nat, expiresAt: nat, measurementHash: string, tee: Tee)
    | Verified(measurementHash: string, tcbStatus: string, tee: Tee, verifiedAt: nat)
    | Rejected(reason: string, rejectedAt: nat)

  datatype TeeRecord = TeeRecord(
    instanceId: InstanceId,
    namespace: string,
    state: TeeState,
    ipAddress: Option<string>,
    apiPort: Option<nat>)

  function NewPending(id: InstanceId, ns: string, challenge: Challenge, hash: string, tee: Tee, now: nat,
        expiry: nat): TeeRecord {
    TeeRecord(id, ns, PendingChallenge(challenge, now, now + expiry, hash, tee), None, None)
  }

  predicate IsChallengeExpired(r: TeeRecord, now: nat) {
    r.state.PendingChallenge? && now > r.state.expiresAt
  }

  function GetValidChallenge(r: TeeRecord, now: nat): Option<Challenge> {
    if r.state.PendingChallenge? && now <= r.state.expiresAt then Some(r.state.challenge) else None
  }

  datatype Event =
    | RegisteredEvent(namespace: string, instanceId: InstanceId, challenge: Challenge, measurementHash: string)
    | VerifiedEvent(namespace: string, instanceId: InstanceId, record: TeeRecord)
    | RejectedEvent(namespace: string, instanceId: InstanceId, reason: string)
    | RevokedEvent(namespace: string, instanceId: InstanceId, reason: string, record: TeeRecord)

  /** The registry, with every event it has broadcast. */
  datatype Registry = Registry(
    pending: map<InstanceId, TeeRecord>,
    verified: map<InstanceId, TeeRecord>,
    events: seq<Event>,
    expiry: nat)

  /** A quote whose signature has been verified. */
  datatype Quote = Quote(
    instanceId: InstanceId,
    reportData: Challenge,
    measurementHash: string,
    tcbStatus: Option<string>)

  /** Evidence as the decoders and the signature check see it: the platform it decodes
      to, the instance id it parses to, and the quote if its signature holds. */
  datatype Evidence = Evidence(tee: Option<Tee>, parsed: Option<InstanceId>, quote: Option<Quote>)

  datatype Error =
    | InvalidQuoteFormat | IdentityRequired | AttestationFailed | ConnectionFailed
    | MeasurementNotTrusted | IdentityConflict | NoPendingChallenge | NonceVerificationFailed

  /** `draw` is the random challenge; `trusted` the answer of the measurement registry. */
  datatype Call =
    | Register(id: InstanceId, namespace: string, measurementHash: string, tee: Tee, draw: Challenge)
    | GetPendingChallenge(id: InstanceId)
    | IsVerified(id: InstanceId)
    | CompleteVerification(id: InstanceId, state: TeeState)
    | Reject(id: InstanceId, namespace: string, reason: string)
    | Revoke(id: InstanceId, reason: string)
    | CleanupExpired
    | RegisterTee(namespace: string, evidence: Evidence, trusted: Option<bool>, draw: Challenge)
    | VerifyTee(namespace: string, evidence: Evidence)

  datatype Reply =
    | Issued(challenge: Challenge, isNew: bool)
    | Granted(challenge: Challenge, expiresAt: nat)
    | Collision
    | Pending(maybe: Option<Challenge>)
    | Flag(flag: bool)
    | Completed(record: Option<TeeRecord>)
    | Sent
    | Removed(count: nat)
    | Accepted(measurementHash: string, tcbStatus: Option<string>)
    | Refused(error: Error)

  function DoRegister(r: Registry, id: InstanceId, ns: string, hash: string, tee: Tee, draw: Challenge,
        now: nat): (Registry, Reply) {
    if id in r.verified then (r, Collision)
    else if id in r.pending && GetValidChallenge(r.pending[id], now).Some? then
      (r, Issued(GetValidChallenge(r.pending[id], now).value, false))
    else
      (r.(pending := r.pending[id := NewPending(id, ns, draw, hash, tee, now, r.expiry)],
          events := r.events + [RegisteredEvent(ns, id, draw, hash)]),
       Issued(draw, true))
  }

  function DoComplete(r: Registry, id: InstanceId, state: TeeState): (Registry, Option<TeeRecord>) {
    if id !in r.pending then (r, None) else
      var p := r.pending[id];
      var record := TeeRecord(id, p.namespace, state, p.ipAddress, p.apiPort);
      (r.(pending := r.pending - {id},
          verified := r.verified[id := record],
          events := r.events + [VerifiedEvent(p.namespace, id, record)]),
       Some(record))
  }

  function Unexpired(pending: map<InstanceId, TeeRecord>, now: nat): map<InstanceId, TeeRecord> {
    map id | id in pending && !IsChallengeExpired(pending[id], now) :: pending[id]
  }

  function Expired(pending: map<InstanceId, TeeRecord>, now: nat): set<InstanceId> {
    pending.Keys - Unexpired(pending, now).Keys
  }

  predicate Supported(e: Evidence) {
    e.tee == Some(Tdx) || e.tee == Some(Snp)
  }

  predicate IsZero(id: InstanceId) {
    forall k :: 0 <= k < |id| ==> id[k] == 0
  }

  /** Phase 1: signature, measurement, then a challenge. */
  function DoRegisterTee(r: Registry, ns: string, e: Evidence, trusted: Option<bool>, draw: Challenge,
        now: nat): (Registry, Reply) {
    if !Supported(e) || e.parsed.None? then (r, Refused(InvalidQuoteFormat))
    else if e.tee == Some(Tdx) && IsZero(e.parsed.value) then (r, Refused(IdentityRequired))
    else if e.quote.None? then (r, Refused(AttestationFailed))
    else if trusted.None? then (r, Refused(ConnectionFailed))
    else if !trusted.value then (r, Refused(MeasurementNotTrusted))
    else
      var q := e.quote.value;
      var (after, reply) := DoRegister(r, q.instanceId, ns, q.measurementHash, e.tee.value, draw, now);
      (after, if reply.Issued? then Granted(reply.challenge, now + REPORTED_EXPIRY) else Refused(IdentityConflict))
  }

  /** Phase 2: the pending challenge of the instance must be in the quote. */
  function DoVerifyTee(r: Registry, ns: string, e: Evidence, now: nat): (Registry, Reply) {
    if !Supported(e) || e.parsed.None? then (r, Refused(InvalidQuoteFormat))
    else if e.parsed.value !in r.pending then (r, Refused(NoPendingChallenge))
    else
      var id, p := e.parsed.value, r.pending[e.parsed.value];
      if p.namespace != ns then (r, Refused(NonceVerificationFailed))
      else if GetValidChallenge(p, now).None? then (r, Refused(NonceVerificationFailed))
      else if e.quote.None? then (r, Refused(AttestationFailed))
      else if e.quote.value.reportData != GetValidChallenge(p, now).value then (r, Refused(NonceVerificationFailed))
      else if e.quote.value.instanceId != id then (r, Refused(NonceVerificationFailed))
      else
        var q := e.quote.value;
        var tcb := if q.tcbStatus.Some? then q.tcbStatus.value else "Unknown";
        var verified := Verified(q.measurementHash, tcb, e.tee.value, now);
        (DoComplete(r, id, verified).0, Accepted(q.measurementHash, q.tcbStatus))
  }

  function Step(r: Registry, call: Call, now: nat): (Registry, Reply) {
    match call
    case Register(id, ns, hash, tee, draw) => DoRegister(r, id, ns, hash, tee, draw, now)
    case GetPendingChallenge(id) =>
      (r, Pending(if id in r.pending then GetValidChallenge(r.pending[id], now) else None))
    case IsVerified(id) => (r, Flag(id in r.verified))
    case CompleteVerification(id, state) => var (after, record) := DoComplete(r, id, state); (after, Completed(record))
    case Reject(id, ns, reason) =>
      (r.(pending := r.pending - {id}, events := r.events + [RejectedEvent(ns, id, reason)]), Sent)
    case Revoke(id, reason) =>
      if id !in r.verified then (r, Flag(false)) else
        (r.(verified := r.verified - {id},
            events := r.events + [RevokedEvent(r.verified[id].namespace, id, reason, r.verified[id])]),
         Flag(true))
    case CleanupExpired =>
      (r.(pending := Unexpired(r.pending, now)), Removed(|Expired(r.pending, now)|))
    case RegisterTee(ns, e, trusted, draw) => DoRegisterTee(r, ns, e, trusted, draw, now)
    case VerifyTee(ns, e) => DoVerifyTee(r, ns, e, now)
  }

  // -------------------------------------------------------------------- runs

  datatype Timed = Timed(call: Call, now: nat)

  function Empty(expiry: nat): Registry {
    Registry(map[], map[], [], expiry)
  }

  function Run(r: Registry, calls: seq<Timed>): Registry {
    if calls == [] then r else
      var k := |calls| - 1;
      Step(Run(r, calls[..k]), calls[k].call, calls[k].now).0
  }

  /** The reply to the k-th call of a run. */
  function ReplyTo(r: Registry, calls: seq<Timed>, k: nat): Reply
    requires k < |calls|
  {
    Step(Run(r, calls[..k]), calls[k].call, calls[k].now).1
  }
}
