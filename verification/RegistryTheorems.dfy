/** What every run of the attestation registry keeps. */
module RegistryTheorems {
  import opened LogNames
  import opened RegistrySpec

  // ------------------------------------------------------------ event replay

  /** A subscriber's copy of the verified set, folded from the event history. */
  function Replay(events: seq<Event>): map<InstanceId, TeeRecord> {
    if events == [] then map[] else
      var before := Replay(events[..|events| - 1]);
      match events[|events| - 1]
      case VerifiedEvent(_, id, record) => before[id := record]
      case RevokedEvent(_, id, _, _) => before - {id}
      case _ => before
  }

  /** The namespace given in the latest registration of an instance. */
  function RegisteredFor(events: seq<Event>, id: InstanceId): Option<string> {
    if events == [] then None else
      var e := events[|events| - 1];
      if e.RegisteredEvent? && e.instanceId == id then Some(e.namespace)
      else RegisteredFor(events[..|events| - 1], id)
  }

  predicate Consistent(r: Registry) {
    && r.pending.Keys !! r.verified.Keys
    && Replay(r.events) == r.verified
    && (forall id :: id in r.pending ==> Belongs(r.events, id, r.pending[id]) && r.pending[id].state.PendingChallenge?)
    && (forall id :: id in r.verified ==> Belongs(r.events, id, r.verified[id]))
  }

  /** The record is of that instance, in the namespace of its latest registration. */
  predicate Belongs(events: seq<Event>, id: InstanceId, record: TeeRecord) {
    record.instanceId == id && RegisteredFor(events, id) == Some(record.namespace)
  }

  lemma {:induction false} Snoc(events: seq<Event>, e: Event)
    ensures (events + [e])[..|events + [e]| - 1] == events && (events + [e])[|events + [e]| - 1] == e
  {}

  lemma {:induction false} RegisterConsistent(r: Registry, id: InstanceId, ns: string, hash: string, tee: Tee,
      draw: Challenge, now: nat)
    requires Consistent(r)
    ensures Consistent(DoRegister(r, id, ns, hash, tee, draw, now).0)
  {
    var e := RegisteredEvent(ns, id, draw, hash);
    Snoc(r.events, e);
    var after := DoRegister(r, id, ns, hash, tee, draw, now).0;
    forall x | x in after.pending && x != id ensures Belongs(after.events, x, after.pending[x]) {
      assert Belongs(r.events, x, r.pending[x]);
    }
    forall x | x in after.verified ensures Belongs(after.events, x, after.verified[x]) {
      assert Belongs(r.events, x, r.verified[x]);
    }
  }

  lemma {:induction false} OtherEventConsistent(r: Registry, e: Event)
    requires !e.RegisteredEvent?
    ensures forall x, record :: Belongs(r.events, x, record) ==> Belongs(r.events + [e], x, record)
  {
    Snoc(r.events, e);
  }

  lemma {:induction false} CompleteConsistent(r: Registry, id: InstanceId, state: TeeState)
    requires Consistent(r)
    ensures Consistent(DoComplete(r, id, state).0)
  {
    if id in r.pending {
      var after := DoComplete(r, id, state).0;
      var e := after.events[|r.events|];
      Snoc(r.events, e);
      OtherEventConsistent(r, e);
      assert Belongs(r.events, id, r.pending[id]);
      assert Belongs(r.events, id, after.verified[id]);
    }
  }

  lemma {:induction false} RejectConsistent(r: Registry, id: InstanceId, ns: string, reason: string)
    requires Consistent(r)
    ensures Consistent(Step(r, Reject(id, ns, reason), 0).0)
  {
    Snoc(r.events, RejectedEvent(ns, id, reason));
    OtherEventConsistent(r, RejectedEvent(ns, id, reason));
  }

  lemma {:induction false} RevokeConsistent(r: Registry, id: InstanceId, reason: string)
    requires Consistent(r)
    ensures Consistent(Step(r, Revoke(id, reason), 0).0)
  {
    if id in r.verified {
      var e := RevokedEvent(r.verified[id].namespace, id, reason, r.verified[id]);
      Snoc(r.events, e);
      OtherEventConsistent(r, e);
    }
  }

  lemma {:induction false} RegisterTeeConsistent(r: Registry, ns: string, e: Evidence, trusted: Option<bool>,
      draw: Challenge, now: nat)
    requires Consistent(r)
    ensures Consistent(DoRegisterTee(r, ns, e, trusted, draw, now).0)
  {
    if DoRegisterTee(r, ns, e, trusted, draw, now).0 != r {
      RegisterConsistent(r, e.quote.value.instanceId, ns, e.quote.value.measurementHash, e.tee.value, draw, now);
    }
  }

  lemma {:induction false} VerifyTeeConsistent(r: Registry, ns: string, e: Evidence, now: nat)
    requires Consistent(r)
    ensures Consistent(DoVerifyTee(r, ns, e, now).0)
  {
    if DoVerifyTee(r, ns, e, now).1.Accepted? {
      var q := e.quote.value;
      var tcb := if q.tcbStatus.Some? then q.tcbStatus.value else "Unknown";
      CompleteConsistent(r, e.parsed.value, Verified(q.measurementHash, tcb, e.tee.value, now));
    }
  }

  lemma {:induction false} CleanupConsistent(r: Registry, now: nat)
    requires Consistent(r)
    ensures Consistent(r.(pending := Unexpired(r.pending, now)))
  {}

  lemma {:induction false} StepConsistent(r: Registry, call: Call, now: nat)
    requires Consistent(r)
    ensures Consistent(Step(r, call, now).0)
  {
    match call
    case Register(id, ns, hash, tee, draw) => RegisterConsistent(r, id, ns, hash, tee, draw, now);
    case CompleteVerification(id, state) => CompleteConsistent(r, id, state);
    case Reject(id, ns, reason) => RejectConsistent(r, id, ns, reason);
    case Revoke(id, reason) => RevokeConsistent(r, id, reason);
    case CleanupExpired => CleanupConsistent(r, now);
    case RegisterTee(ns, e, trusted, draw) => RegisterTeeConsistent(r, ns, e, trusted, draw, now);
    case VerifyTee(ns, e) => VerifyTeeConsistent(r, ns, e, now);
    case _ =>
  }

  /** Event replay: after every run, no instance is both pending and verified, folding
      the event history gives exactly the verified map, and every record is of its
      instance and in the namespace it was last registered for. */
  lemma {:induction false} EventReplay(expiry: nat, calls: seq<Timed>)
    ensures Consistent(Run(Empty(expiry), calls))
  {
    if calls != [] {
      var k := |calls| - 1;
      EventReplay(expiry, calls[..k]);
      StepConsistent(Run(Empty(expiry), calls[..k]), calls[k].call, calls[k].now);
    }
  }

  // -------------------------------------------------------------- single use

  /** Acceptance, exactly: a pending record of the instance in the same namespace,
      unexpired, whose challenge is in the signed quote of that instance. */
  lemma {:induction false} AcceptedExactly(r: Registry, ns: string, e: Evidence, now: nat)
    ensures DoVerifyTee(r, ns, e, now).1.Accepted? <==>
            && Supported(e) && e.parsed.Some? && e.parsed.value in r.pending
            && var p := r.pending[e.parsed.value];
               && p.namespace == ns && p.state.PendingChallenge? && now <= p.state.expiresAt
               && e.quote.Some? && e.quote.value.instanceId == e.parsed.value
               && e.quote.value.reportData == p.state.challenge
  {}

  function Challenges(events: seq<Event>): set<Challenge> {
    set k | 0 <= k < |events| && events[k].RegisteredEvent? :: events[k].challenge
  }

  /** No challenge was drawn twice. */
  predicate FreshDraws(events: seq<Event>) {
    forall i, j :: 0 <= i < j < |events| && events[i].RegisteredEvent? && events[j].RegisteredEvent? ==>
      events[i].challenge != events[j].challenge
  }

  predicate IsAccepted(r: Registry, calls: seq<Timed>, k: nat)
    requires k < |calls|
  {
    calls[k].call.VerifyTee? && ReplyTo(r, calls, k).Accepted?
  }

  function Binding(e: Evidence): Challenge {
    if e.quote.Some? then e.quote.value.reportData else []
  }

  function Used(r: Registry, calls: seq<Timed>): set<Challenge> {
    if calls == [] then {} else
      var k := |calls| - 1;
      Used(r, calls[..k]) + if IsAccepted(r, calls, k) then {Binding(calls[k].call.evidence)} else {}
  }

  /** Outstanding challenges were all drawn, are distinct, and none has been used. */
  predicate Unspent(r: Registry, used: set<Challenge>) {
    && used <= Challenges(r.events)
    && (forall id :: id in r.pending && r.pending[id].state.PendingChallenge? ==>
         r.pending[id].state.challenge in Challenges(r.events) - used)
    && (forall id, jd :: id in r.pending && jd in r.pending && id != jd ==>
         r.pending[id].state.PendingChallenge? && r.pending[jd].state.PendingChallenge? ==>
         r.pending[id].state.challenge != r.pending[jd].state.challenge)
  }

  lemma {:induction false} ChallengesGrow(events: seq<Event>, e: Event)
    ensures Challenges(events + [e]) == Challenges(events) + if e.RegisteredEvent? then {e.challenge} else {}
  {
    var all := events + [e];
    assert all[|events|] == e;
    assert forall k :: 0 <= k < |events| ==> all[k] == events[k];
    forall ch | ch in Challenges(events) ensures ch in Challenges(all) {
      var k :| 0 <= k < |events| && events[k].RegisteredEvent? && events[k].challenge == ch;
      assert all[k].challenge == ch;
    }
  }

  lemma {:induction false} RegisterUnspent(r: Registry, id: InstanceId, ns: string, hash: string, tee: Tee,
      draw: Challenge, now: nat, used: set<Challenge>)
    requires Unspent(r, used) && FreshDraws(DoRegister(r, id, ns, hash, tee, draw, now).0.events)
    ensures Unspent(DoRegister(r, id, ns, hash, tee, draw, now).0, used)
  {
    var after := DoRegister(r, id, ns, hash, tee, draw, now).0;
    if after != r {
      ChallengesGrow(r.events, RegisteredEvent(ns, id, draw, hash));
      assert after.events[|r.events|].challenge == draw;
      forall k | 0 <= k < |r.events| && r.events[k].RegisteredEvent? ensures r.events[k].challenge != draw {
        assert after.events[k] == r.events[k];
      }
    }
  }

  lemma {:induction false} CompleteUnspent(r: Registry, id: InstanceId, state: TeeState, used: set<Challenge>)
    requires Unspent(r, used)
    ensures Unspent(DoComplete(r, id, state).0, used)
    ensures id in r.pending && r.pending[id].state.PendingChallenge? ==>
              Unspent(DoComplete(r, id, state).0, used + {r.pending[id].state.challenge})
  {
    if id in r.pending {
      ChallengesGrow(r.events, DoComplete(r, id, state).0.events[|r.events|]);
    }
  }

  lemma {:induction false} QuietUnspent(r: Registry, after: Registry, used: set<Challenge>)
    requires Unspent(r, used)
    requires forall id :: id in after.pending ==> id in r.pending && after.pending[id] == r.pending[id]
    requires after.events == r.events || (|after.events| == |r.events| + 1
               && after.events == r.events + [after.events[|r.events|]] && !after.events[|r.events|].RegisteredEvent?)
    ensures Unspent(after, used)
  {
    if after.events != r.events { ChallengesGrow(r.events, after.events[|r.events|]); }
  }

  lemma {:induction false} VerifyUnspent(r: Registry, ns: string, e: Evidence, now: nat, used: set<Challenge>)
    requires Unspent(r, used) && DoVerifyTee(r, ns, e, now).1.Accepted?
    ensures Binding(e) !in used && Unspent(DoVerifyTee(r, ns, e, now).0, used + {Binding(e)})
  {
    AcceptedExactly(r, ns, e, now);
    var q := e.quote.value;
    var tcb := if q.tcbStatus.Some? then q.tcbStatus.value else "Unknown";
    CompleteUnspent(r, e.parsed.value, Verified(q.measurementHash, tcb, e.tee.value, now), used);
  }

  lemma {:induction false} RegisterTeeUnspent(r: Registry, ns: string, e: Evidence, trusted: Option<bool>,
      draw: Challenge, now: nat, used: set<Challenge>)
    requires Unspent(r, used) && FreshDraws(DoRegisterTee(r, ns, e, trusted, draw, now).0.events)
    ensures Unspent(DoRegisterTee(r, ns, e, trusted, draw, now).0, used)
  {
    if DoRegisterTee(r, ns, e, trusted, draw, now).0 != r {
      RegisterUnspent(r, e.quote.value.instanceId, ns, e.quote.value.measurementHash, e.tee.value, draw, now, used);
    }
  }

  lemma {:induction false} RestUnspent(r: Registry, call: Call, now: nat, used: set<Challenge>)
    requires Unspent(r, used)
    requires call.Reject? || call.Revoke? || call.CleanupExpired? || call.GetPendingChallenge? || call.IsVerified?
    ensures Unspent(Step(r, call, now).0, used)
  {
    QuietUnspent(r, Step(r, call, now).0, used);
  }

  function Spent(call: Call, reply: Reply): set<Challenge> {
    if call.VerifyTee? && reply.Accepted? then {Binding(call.evidence)} else {}
  }

  lemma {:induction false} StepUnspent(r: Registry, call: Call, now: nat, used: set<Challenge>)
    requires Unspent(r, used) && FreshDraws(Step(r, call, now).0.events)
    ensures Unspent(Step(r, call, now).0, used + Spent(call, Step(r, call, now).1))
  {
    assert used + {} == used;
    match call
    case Register(id, ns, hash, tee, draw) => RegisterUnspent(r, id, ns, hash, tee, draw, now, used);
    case CompleteVerification(id, state) => CompleteUnspent(r, id, state, used);
    case RegisterTee(ns, e, trusted, draw) => RegisterTeeUnspent(r, ns, e, trusted, draw, now, used);
    case VerifyTee(ns, e) =>
      if DoVerifyTee(r, ns, e, now).1.Accepted? { VerifyUnspent(r, ns, e, now, used); }
    case _ => RestUnspent(r, call, now, used);
  }

  lemma {:induction false} StepKeepsEvents(r: Registry, call: Call, now: nat)
    ensures r.events <= Step(r, call, now).0.events
  {}

  lemma {:induction false} RunUnspent(r: Registry, calls: seq<Timed>)
    requires Unspent(r, {}) && FreshDraws(Run(r, calls).events)
    ensures Unspent(Run(r, calls), Used(r, calls))
  {
    if calls != [] {
      var k := |calls| - 1;
      StepKeepsEvents(Run(r, calls[..k]), calls[k].call, calls[k].now);
      RunUnspent(r, calls[..k]);
      StepUnspent(Run(r, calls[..k]), calls[k].call, calls[k].now, Used(r, calls[..k]));
      assert calls[..k][..k] == calls[..k];
    }
  }

  lemma {:induction false} RunKeepsEvents(r: Registry, calls: seq<Timed>, n: nat)
    requires n <= |calls|
    ensures Run(r, calls[..n]).events <= Run(r, calls).events
  {
    if n == |calls| {
      assert calls[..n] == calls;
    } else {
      var k := |calls| - 1;
      RunKeepsEvents(r, calls[..k], n);
      assert calls[..k][..n] == calls[..n];
      StepKeepsEvents(Run(r, calls[..k]), calls[k].call, calls[k].now);
    }
  }

  lemma {:induction false} AcceptedIsUsed(r: Registry, calls: seq<Timed>, i: nat)
    requires i < |calls| && IsAccepted(r, calls, i)
    ensures Binding(calls[i].call.evidence) in Used(r, calls)
  {
    var k := |calls| - 1;
    if i < k {
      assert calls[..k][..i] == calls[..i];
      AcceptedIsUsed(r, calls[..k], i);
    }
  }

  /** Evidence is single-use: if no challenge is drawn twice, no two acceptances of a run
      rest on the same challenge, so no piece of evidence is accepted twice. */
  lemma {:induction false} SingleUse(expiry: nat, calls: seq<Timed>, i: nat, j: nat)
    requires FreshDraws(Run(Empty(expiry), calls).events)
    requires i < j < |calls| && IsAccepted(Empty(expiry), calls, i) && IsAccepted(Empty(expiry), calls, j)
    ensures Binding(calls[i].call.evidence) != Binding(calls[j].call.evidence)
    ensures calls[i].call.evidence != calls[j].call.evidence
  {
    AcceptedOnce(Empty(expiry), calls, i, j);
  }

  lemma {:induction false} AcceptedOnce(r: Registry, calls: seq<Timed>, i: nat, j: nat)
    requires Unspent(r, {}) && FreshDraws(Run(r, calls).events)
    requires i < j < |calls| && IsAccepted(r, calls, i) && IsAccepted(r, calls, j)
    ensures Binding(calls[i].call.evidence) != Binding(calls[j].call.evidence)
  {
    var past := calls[..j];
    RunKeepsEvents(r, calls, j);
    RunUnspent(r, past);
    assert past[..i] == calls[..i] && past[i] == calls[i];
    assert IsAccepted(r, past, i);
    AcceptedIsUsed(r, past, i);
    VerifyUnspent(Run(r, past), calls[j].call.namespace, calls[j].call.evidence, calls[j].now, Used(r, past));
  }

  // ------------------------------------------------------ challenge stability

  /** The call takes the pending record of `id` away. */
  predicate Consumes(r: Registry, call: Call, now: nat, id: InstanceId) {
    match call
    case CompleteVerification(x, _) => x == id
    case Reject(x, _, _) => x == id
    case VerifyTee(ns, e) => e.parsed == Some(id) && DoVerifyTee(r, ns, e, now).1.Accepted?
    case _ => false
  }

  predicate Undisturbed(r: Registry, calls: seq<Timed>, id: InstanceId, until: nat) {
    forall k :: 0 <= k < |calls| ==>
      calls[k].now <= until && !Consumes(Run(r, calls[..k]), calls[k].call, calls[k].now, id)
  }

  lemma {:induction false} StepStable(r: Registry, call: Call, now: nat, id: InstanceId)
    requires id in r.pending && id !in r.verified
    requires r.pending[id].state.PendingChallenge? && now <= r.pending[id].state.expiresAt
    requires !Consumes(r, call, now, id)
    ensures var after := Step(r, call, now).0;
            id in after.pending && after.pending[id] == r.pending[id] && id !in after.verified
  {}

  /** Challenge stability: an issued challenge is what every `register` and
      `get_pending_challenge` returns until it expires, unless the record is
      completed or rejected; after that time it is not returned any more. */
  lemma {:induction false} ChallengeStability(r: Registry, calls: seq<Timed>, id: InstanceId, until: nat)
    requires id in r.pending && id !in r.verified
    requires r.pending[id].state.PendingChallenge? && r.pending[id].state.expiresAt == until
    requires Undisturbed(r, calls, id, until)
    ensures var after := Run(r, calls);
            && id in after.pending && id !in after.verified && after.pending[id] == r.pending[id]
            && (forall now: nat :: Step(after, GetPendingChallenge(id), now).1
                  == Pending(if now <= until then Some(r.pending[id].state.challenge) else None))
            && (forall ns, hash, tee, draw, now: nat :: now <= until ==>
                  Step(after, Register(id, ns, hash, tee, draw), now)
                  == (after, Issued(r.pending[id].state.challenge, false)))
  {
    if calls != [] {
      var k := |calls| - 1;
      forall j | 0 <= j < k ensures calls[..k][..j] == calls[..j] {}
      assert Undisturbed(r, calls[..k], id, until);
      ChallengeStability(r, calls[..k], id, until);
      StepStable(Run(r, calls[..k]), calls[k].call, calls[k].now, id);
    }
  }

  // -------------------------------------------------------- invisible cleanup

  /** `b` is `a` without some records that had expired by `from`. */
  predicate Alike(a: Registry, b: Registry, from: nat) {
    && a.verified == b.verified && a.events == b.events && a.expiry == b.expiry
    && (forall id :: id in b.pending ==> id in a.pending && a.pending[id] == b.pending[id])
    && (forall id :: id in a.pending && id !in b.pending ==> IsChallengeExpired(a.pending[id], from))
  }

  /** The same answer, up to which error a refusal names and how much was cleaned up. */
  predicate SameOutcome(x: Reply, y: Reply) {
    x == y || (x.Refused? && y.Refused?) || (x.Removed? && y.Removed?)
  }

  predicate Dropped(a: Registry, b: Registry, id: InstanceId) {
    id in a.pending && id !in b.pending
  }

  /** The calls that are answered differently by `a` and by `b`, which lacks some expired
      records: a verification names another error, a cleanup counts less, and a direct
      completion finds nothing. */
  predicate SeesCleanup(a: Registry, b: Registry, call: Call) {
    match call
    case VerifyTee(_, e) => Supported(e) && e.parsed.Some? && Dropped(a, b, e.parsed.value)
    case CleanupExpired => a.pending.Keys != b.pending.Keys
    case CompleteVerification(id, _) => Dropped(a, b, id)
    case _ => false
  }

  lemma {:induction false} StepAlike(a: Registry, b: Registry, call: Call, from: nat, now: nat)
    requires Alike(a, b, from) && from <= now
    ensures Step(a, call, now).1 != Step(b, call, now).1 <==> SeesCleanup(a, b, call)
    ensures Alike(Step(a, call, now).0, Step(b, call, now).0, from)
            <==> !(call.CompleteVerification? && Dropped(a, b, call.id))
    ensures !call.CompleteVerification? ==> SameOutcome(Step(a, call, now).1, Step(b, call, now).1)
  {
    match call
    case VerifyTee(ns, e) => VerifyAlike(a, b, ns, e, from, now);
    case RegisterTee(ns, e, trusted, draw) => RegisterTeeAlike(a, b, ns, e, trusted, draw, from, now);
    case Register(id, ns, hash, tee, draw) => RegisterAlike(a, b, id, ns, hash, tee, draw, from, now);
    case CompleteVerification(id, state) => CompleteAlike(a, b, id, state, from);
    case CleanupExpired => CleanupAlike(a, b, from, now);
    case _ => PlainAlike(a, b, call, from, now);
  }

  lemma {:induction false} PlainAlike(a: Registry, b: Registry, call: Call, from: nat, now: nat)
    requires Alike(a, b, from) && from <= now
    requires call.Reject? || call.Revoke? || call.GetPendingChallenge? || call.IsVerified?
    ensures Alike(Step(a, call, now).0, Step(b, call, now).0, from)
    ensures Step(a, call, now).1 == Step(b, call, now).1
  {}

  lemma {:induction false} CompleteAlike(a: Registry, b: Registry, id: InstanceId, state: TeeState, from: nat)
    requires Alike(a, b, from)
    ensures DoComplete(a, id, state).1 != DoComplete(b, id, state).1 <==> Dropped(a, b, id)
    ensures Alike(DoComplete(a, id, state).0, DoComplete(b, id, state).0, from) <==> !Dropped(a, b, id)
  {}

  lemma {:induction false} ExpiredIs(pending: map<InstanceId, TeeRecord>, now: nat, id: InstanceId)
    ensures id in Expired(pending, now) <==> id in pending && IsChallengeExpired(pending[id], now)
  {}

  lemma {:induction false} ExpiredAlike(a: Registry, b: Registry, from: nat, now: nat)
    requires Alike(a, b, from) && from <= now
    ensures Expired(a.pending, now) == Expired(b.pending, now) + (a.pending.Keys - b.pending.Keys)
  {
    forall id
      ensures id in Expired(a.pending, now) <==> id in Expired(b.pending, now) + (a.pending.Keys - b.pending.Keys)
    {
      ExpiredIs(a.pending, now, id);
      ExpiredIs(b.pending, now, id);
    }
  }

  lemma {:induction false} CountSplits(whole: set<InstanceId>, part: set<InstanceId>, p: set<InstanceId>,
      q: set<InstanceId>)
    requires part <= q <= p && whole == part + (p - q)
    ensures |whole| == |part| <==> p == q
  {
    assert part !! p - q;
    assert |whole| == |part| + |p - q|;
    if p - q == {} { assert p == q; }
  }

  lemma {:induction false} CountAlike(a: Registry, b: Registry, from: nat, now: nat)
    requires Alike(a, b, from) && from <= now
    ensures |Expired(a.pending, now)| == |Expired(b.pending, now)| <==> a.pending.Keys == b.pending.Keys
  {
    ExpiredAlike(a, b, from, now);
    KeysAlike(a, b, from);
    CountSplits(Expired(a.pending, now), Expired(b.pending, now), a.pending.Keys, b.pending.Keys);
  }

  lemma {:induction false} KeysAlike(a: Registry, b: Registry, from: nat)
    requires Alike(a, b, from)
    ensures b.pending.Keys <= a.pending.Keys
  {}

  lemma {:induction false} UnexpiredAlike(a: Registry, b: Registry, from: nat, now: nat)
    requires Alike(a, b, from) && from <= now
    ensures Unexpired(a.pending, now) == Unexpired(b.pending, now)
  {}

  /** A later cleanup finds the dropped records still there, and counts them. */
  lemma {:induction false} CleanupAlike(a: Registry, b: Registry, from: nat, now: nat)
    requires Alike(a, b, from) && from <= now
    ensures Alike(Step(a, CleanupExpired, now).0, Step(b, CleanupExpired, now).0, from)
    ensures Step(a, CleanupExpired, now).1 != Step(b, CleanupExpired, now).1 <==> a.pending.Keys != b.pending.Keys
  {
    CountAlike(a, b, from, now);
    UnexpiredAlike(a, b, from, now);
  }

  lemma {:induction false} RegisterTeeAlike(a: Registry, b: Registry, ns: string, e: Evidence,
      trusted: Option<bool>, draw: Challenge, from: nat, now: nat)
    requires Alike(a, b, from) && from <= now
    ensures Alike(DoRegisterTee(a, ns, e, trusted, draw, now).0, DoRegisterTee(b, ns, e, trusted, draw, now).0, from)
    ensures DoRegisterTee(a, ns, e, trusted, draw, now).1 == DoRegisterTee(b, ns, e, trusted, draw, now).1
  {
    if e.quote.Some? && e.tee.Some? {
      RegisterAlike(a, b, e.quote.value.instanceId, ns, e.quote.value.measurementHash, e.tee.value, draw, from, now);
    }
  }

  lemma {:induction false} RegisterAlike(a: Registry, b: Registry, id: InstanceId, ns: string, hash: string,
      tee: Tee, draw: Challenge, from: nat, now: nat)
    requires Alike(a, b, from) && from <= now
    ensures Alike(DoRegister(a, id, ns, hash, tee, draw, now).0, DoRegister(b, id, ns, hash, tee, draw, now).0, from)
    ensures DoRegister(a, id, ns, hash, tee, draw, now).1 == DoRegister(b, id, ns, hash, tee, draw, now).1
  {}

  lemma {:induction false} VerifyAlike(a: Registry, b: Registry, ns: string, e: Evidence, from: nat, now: nat)
    requires Alike(a, b, from) && from <= now
    ensures Alike(DoVerifyTee(a, ns, e, now).0, DoVerifyTee(b, ns, e, now).0, from)
    ensures SameOutcome(DoVerifyTee(a, ns, e, now).1, DoVerifyTee(b, ns, e, now).1)
    ensures DoVerifyTee(a, ns, e, now).1 != DoVerifyTee(b, ns, e, now).1
            <==> Supported(e) && e.parsed.Some? && Dropped(a, b, e.parsed.value)
  {
    AcceptedExactly(a, ns, e, now);
    AcceptedExactly(b, ns, e, now);
  }

  /** No clock reading is before `from`. */
  predicate NotBefore(calls: seq<Timed>, from: nat) {
    forall k :: 0 <= k < |calls| ==> from <= calls[k].now
  }

  /** `complete_verification` is not called directly on a record that had expired by `from`. */
  predicate Timely(r: Registry, calls: seq<Timed>, from: nat) {
    forall k :: 0 <= k < |calls| ==> TimelyCall(Run(r, calls[..k]), calls[k].call, from)
  }

  predicate TimelyCall(r: Registry, call: Call, from: nat) {
    call.CompleteVerification? && call.id in r.pending ==> !IsChallengeExpired(r.pending[call.id], from)
  }

  lemma {:induction false} RunAlike(a: Registry, b: Registry, calls: seq<Timed>, from: nat)
    requires Alike(a, b, from) && NotBefore(calls, from) && Timely(a, calls, from)
    ensures Alike(Run(a, calls), Run(b, calls), from)
  {
    if calls != [] {
      var n := |calls| - 1;
      forall j | 0 <= j < n ensures calls[..n][..j] == calls[..j] {}
      RunAlike(a, b, calls[..n], from);
      assert TimelyCall(Run(a, calls[..n]), calls[n].call, from);
      StepAlike(Run(a, calls[..n]), Run(b, calls[..n]), calls[n].call, from, calls[n].now);
    }
  }

  lemma {:induction false} ReplyAlike(a: Registry, b: Registry, calls: seq<Timed>, from: nat, k: nat)
    requires Alike(a, b, from) && NotBefore(calls, from) && Timely(a, calls, from) && k < |calls|
    ensures ReplyTo(a, calls, k) != ReplyTo(b, calls, k)
            <==> SeesCleanup(Run(a, calls[..k]), Run(b, calls[..k]), calls[k].call)
    ensures SameOutcome(ReplyTo(a, calls, k), ReplyTo(b, calls, k))
  {
    var past := calls[..k];
    forall j | 0 <= j < k ensures past[..j] == calls[..j] {}
    RunAlike(a, b, past, from);
    assert TimelyCall(Run(a, past), calls[k].call, from);
    StepAlike(Run(a, past), Run(b, past), calls[k].call, from, calls[k].now);
  }

  /** Cleanup, exactly. Dropping the expired challenges at any moment changes no later event and
      no verified record, provided that no record that had expired then is completed directly.
      A later reply changes if and only if it is that of a cleanup while a dropped record would
      still be there, which counts less, or of a verification of such a record, which is
      refused with another error. */
  lemma {:induction false} CleanupInvisible(r: Registry, now: nat, later: seq<Timed>)
    requires NotBefore(later, now) && Timely(r, later, now)
    ensures var cleaned := Step(r, CleanupExpired, now).0;
            && (forall k :: 0 <= k < |later| ==>
                 && SameOutcome(ReplyTo(r, later, k), ReplyTo(cleaned, later, k))
                 && (ReplyTo(r, later, k) != ReplyTo(cleaned, later, k)
                     <==> SeesCleanup(Run(r, later[..k]), Run(cleaned, later[..k]), later[k].call)))
            && Run(cleaned, later).verified == Run(r, later).verified
            && Run(cleaned, later).events == Run(r, later).events
  {
    var cleaned := Step(r, CleanupExpired, now).0;
    RunAlike(r, cleaned, later, now);
    forall k | 0 <= k < |later|
      ensures SameOutcome(ReplyTo(r, later, k), ReplyTo(cleaned, later, k))
      ensures ReplyTo(r, later, k) != ReplyTo(cleaned, later, k)
              <==> SeesCleanup(Run(r, later[..k]), Run(cleaned, later[..k]), later[k].call)
    {
      ReplyAlike(r, cleaned, later, now, k);
    }
  }

  /** Why those completions are set apart: called directly, `complete_verification` tells a
      cleaned registry from an uncleaned one exactly on an expired record. */
  lemma {:induction false} CompletionSeesCleanup(r: Registry, now: nat, id: InstanceId, state: TeeState)
    ensures var cleaned := Step(r, CleanupExpired, now).0;
            SameOutcome(Step(r, CompleteVerification(id, state), now).1,
                        Step(cleaned, CompleteVerification(id, state), now).1)
            <==> !(id in r.pending && IsChallengeExpired(r.pending[id], now))
  {}

  /** An instance registered and left to expire. */
  function Lapsed(expiry: nat, id: InstanceId, ns: string, hash: string, tee: Tee, draw: Challenge,
      start: nat): Registry {
    Run(Empty(expiry), [Timed(Register(id, ns, hash, tee, draw), start)])
  }

  lemma {:induction false} LapsedIs(expiry: nat, id: InstanceId, ns: string, hash: string, tee: Tee, draw: Challenge,
      start: nat)
    ensures var r := Lapsed(expiry, id, ns, hash, tee, draw, start);
            && r.verified == map[] && r.pending == map[id := NewPending(id, ns, draw, hash, tee, start, expiry)]
  {
    var call := Timed(Register(id, ns, hash, tee, draw), start);
    assert [call][..0] == [];
    assert Run(Empty(expiry), []) == Empty(expiry);
    assert Run(Empty(expiry), [call]) == Step(Empty(expiry), call.call, start).0;
  }

  /** Register, let the challenge expire, complete directly: without a cleanup in between the
      instance becomes verified, with one it does not. */
  lemma {:induction false} LapsedCompletionDiffers(expiry: nat, id: InstanceId, ns: string, hash: string, tee: Tee,
      draw: Challenge, start: nat, now: nat, state: TeeState)
    requires now > start + expiry
    ensures var r := Lapsed(expiry, id, ns, hash, tee, draw, start);
            var cleaned := Step(r, CleanupExpired, now).0;
            && id in Step(r, CompleteVerification(id, state), now).0.verified
            && id !in Step(cleaned, CompleteVerification(id, state), now).0.verified
            && Step(cleaned, CompleteVerification(id, state), now).1 == Completed(None)
  {
    LapsedIs(expiry, id, ns, hash, tee, draw, start);
  }

  /** The same with a verification: refused either way, with another error. */
  lemma {:induction false} LapsedVerificationDiffers(expiry: nat, id: InstanceId, ns: string, hash: string, tee: Tee,
      draw: Challenge, start: nat, now: nat, e: Evidence)
    requires now > start + expiry && Supported(e) && e.parsed == Some(id)
    ensures var r := Lapsed(expiry, id, ns, hash, tee, draw, start);
            var cleaned := Step(r, CleanupExpired, now).0;
            && Step(r, VerifyTee(ns, e), now).1 == Refused(NonceVerificationFailed)
            && Step(cleaned, VerifyTee(ns, e), now).1 == Refused(NoPendingChallenge)
  {
    LapsedIs(expiry, id, ns, hash, tee, draw, start);
  }

  /** The expiry time phase 1 reports is a minute from now. It is that of the challenge if and
      only if the challenge is new and lives a minute, or an older one happens to end then. */
  lemma {:induction false} ReportedExpiryExactly(r: Registry, ns: string, e: Evidence, trusted: Option<bool>,
      draw: Challenge, now: nat)
    requires DoRegisterTee(r, ns, e, trusted, draw, now).1.Granted?
    ensures e.quote.Some?
    ensures var (after, reply) := DoRegisterTee(r, ns, e, trusted, draw, now);
            var id := e.quote.value.instanceId;
            && id in after.pending && after.pending[id].state.PendingChallenge?
            && after.pending[id].state.challenge == reply.challenge
            && (after.pending[id].state.expiresAt == reply.expiresAt
                <==> if id in r.pending && GetValidChallenge(r.pending[id], now).Some?
                     then r.pending[id].state.expiresAt == now + REPORTED_EXPIRY
                     else r.expiry == REPORTED_EXPIRY)
  {}

  /** Phase 1 twice with the same good evidence, the second time while the challenge lives: the
      second answer repeats the challenge and reports an expiry it does not have. */
  lemma {:induction false} SecondReportIsLate(ns: string, e: Evidence, draw: Challenge, other: Challenge,
      start: nat, later: nat)
    requires Supported(e) && e.quote.Some? && e.parsed.Some? && !IsZero(e.parsed.value)
    requires start < later <= start + REPORTED_EXPIRY
    ensures var calls := [Timed(RegisterTee(ns, e, Some(true), draw), start),
                          Timed(RegisterTee(ns, e, Some(true), other), later)];
            var r := Run(Empty(REPORTED_EXPIRY), calls);
            var id := e.quote.value.instanceId;
            && ReplyTo(Empty(REPORTED_EXPIRY), calls, 1) == Granted(draw, later + REPORTED_EXPIRY)
            && id in r.pending && r.pending[id].state.PendingChallenge?
            && r.pending[id].state.expiresAt == start + REPORTED_EXPIRY
  {
    var first := Timed(RegisterTee(ns, e, Some(true), draw), start);
    var calls := [first, Timed(RegisterTee(ns, e, Some(true), other), later)];
    assert calls[..1] == [first] && [first][..0] == [];
    assert Run(Empty(REPORTED_EXPIRY), [first]) == Step(Empty(REPORTED_EXPIRY), first.call, start).0;
  }
}
