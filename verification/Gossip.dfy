/** The gossip cache: per node, the latest verified advertisement. */
module Gossip {
  import opened LogNames

  type NodeId = nat

  const FUTURE_TOLERANCE_SECS: nat := 300

  datatype PeerAdvertisement = PeerAdvertisement(
    nodeId: NodeId,
    raftAddress: string,
    apiAddress: string,
    measurementHash: string,
    instanceId: string,
    timestamp: nat,
    evidence: string)

  /** An advertisement and the local time it was received. */
  datatype Arrival = Arrival(ad: PeerAdvertisement, at: nat)

  type Cache = map<NodeId, Arrival>

  /** `add_verified`: an entry gives way only to a strictly newer advertisement. */
  function Add(cache: Cache, arrival: Arrival): Cache {
    var id := arrival.ad.nodeId;
    if id in cache && cache[id].ad.timestamp >= arrival.ad.timestamp then cache else cache[id := arrival]
  }

  function AddAll(arrivals: seq<Arrival>): Cache {
    if arrivals == [] then map[] else Add(AddAll(arrivals[..|arrivals| - 1]), arrivals[|arrivals| - 1])
  }

  /** The k-th arrival is the earliest one of maximal timestamp for its node. */
  predicate Wins(arrivals: seq<Arrival>, k: nat) {
    && k < |arrivals|
    && (forall j :: 0 <= j < k && arrivals[j].ad.nodeId == arrivals[k].ad.nodeId ==>
         arrivals[j].ad.timestamp < arrivals[k].ad.timestamp)
    && (forall j :: k < j < |arrivals| && arrivals[j].ad.nodeId == arrivals[k].ad.nodeId ==>
         arrivals[j].ad.timestamp <= arrivals[k].ad.timestamp)
  }

  function Ads(arrivals: seq<Arrival>): set<PeerAdvertisement> {
    set a | a in arrivals :: a.ad
  }

  predicate Advertised(arrivals: seq<Arrival>, id: NodeId) {
    exists ad :: ad in Ads(arrivals) && ad.nodeId == id
  }

  lemma {:induction false} AdsGrow(arrivals: seq<Arrival>)
    requires arrivals != []
    ensures Ads(arrivals) == Ads(arrivals[..|arrivals| - 1]) + {arrivals[|arrivals| - 1].ad}
  {
    assert arrivals == arrivals[..|arrivals| - 1] + [arrivals[|arrivals| - 1]];
  }

  /** Exactly the advertised nodes are in the cache. */
  lemma {:induction false} CachedExactly(arrivals: seq<Arrival>, id: NodeId)
    ensures id in AddAll(arrivals) <==> Advertised(arrivals, id)
  {
    if arrivals != [] {
      AdsGrow(arrivals);
      CachedExactly(arrivals[..|arrivals| - 1], id);
    }
  }

  lemma {:induction false} WinsOn(arrivals: seq<Arrival>, k: nat)
    requires arrivals != []
    requires var n := |arrivals| - 1;
             k < n && Wins(arrivals[..n], k)
             && (arrivals[n].ad.nodeId == arrivals[k].ad.nodeId ==>
                  arrivals[n].ad.timestamp <= arrivals[k].ad.timestamp)
    ensures Wins(arrivals, k)
  {
    var before := arrivals[..|arrivals| - 1];
    assert forall j :: 0 <= j < |before| ==> before[j] == arrivals[j];
  }

  /** The last arrival takes over from a winner it is newer than. */
  lemma {:induction false} WinsOver(arrivals: seq<Arrival>, k: nat)
    requires arrivals != []
    requires var n := |arrivals| - 1;
             k < n && Wins(arrivals[..n], k)
             && arrivals[n].ad.nodeId == arrivals[k].ad.nodeId && arrivals[k].ad.timestamp < arrivals[n].ad.timestamp
    ensures Wins(arrivals, |arrivals| - 1)
  {
    var before := arrivals[..|arrivals| - 1];
    assert forall j :: 0 <= j < |before| ==> before[j] == arrivals[j];
  }

  lemma {:induction false} WinsFirst(arrivals: seq<Arrival>)
    requires arrivals != []
    requires !Advertised(arrivals[..|arrivals| - 1], arrivals[|arrivals| - 1].ad.nodeId)
    ensures Wins(arrivals, |arrivals| - 1)
  {
    var n := |arrivals| - 1;
    forall j | 0 <= j < n ensures arrivals[j].ad.nodeId != arrivals[n].ad.nodeId {
      assert arrivals[j] in arrivals[..n];
      assert arrivals[j].ad in Ads(arrivals[..n]);
    }
  }

  /** The cache after any sequence of arrivals holds, for each advertised node, the
      earliest-received advertisement of maximal timestamp. */
  lemma {:induction false} EarliestOfMaximalTimestamp(arrivals: seq<Arrival>, id: NodeId) returns (k: nat)
    requires Advertised(arrivals, id)
    ensures Wins(arrivals, k) && arrivals[k].ad.nodeId == id
    ensures id in AddAll(arrivals) && AddAll(arrivals)[id] == arrivals[k]
  {
    CachedExactly(arrivals, id);
    var n := |arrivals| - 1;
    var before, last := arrivals[..n], arrivals[n];
    CachedExactly(before, id);
    if !Advertised(before, id) {
      k := n;
      WinsFirst(arrivals);
    } else {
      k := EarliestOfMaximalTimestamp(before, id);
      if last.ad.nodeId == id && before[k].ad.timestamp < last.ad.timestamp {
        WinsOver(arrivals, k);
        k := n;
      } else {
        WinsOn(arrivals, k);
      }
    }
  }

  /** No node signs two different advertisements with one timestamp. */
  predicate DistinctTimestamps(ads: set<PeerAdvertisement>) {
    forall a, b :: a in ads && b in ads && a.nodeId == b.nodeId && a.timestamp == b.timestamp ==> a == b
  }

  /** Gossip merge: with distinct timestamps per node, the advertisements kept depend only
      on which ones arrived, not on their order or repetition. */
  lemma {:induction false} MergeIsOrderIndependent(xs: seq<Arrival>, ys: seq<Arrival>, id: NodeId)
    requires Ads(xs) == Ads(ys) && DistinctTimestamps(Ads(xs))
    ensures id in AddAll(xs) <==> id in AddAll(ys)
    ensures id in AddAll(xs) ==> AddAll(xs)[id].ad == AddAll(ys)[id].ad
  {
    CachedExactly(xs, id);
    CachedExactly(ys, id);
    if Advertised(xs, id) {
      var i := EarliestOfMaximalTimestamp(xs, id);
      var j := EarliestOfMaximalTimestamp(ys, id);
      assert xs[i] in xs && ys[j] in ys;
      Outranks(xs, i, ys[j].ad);
      Outranks(ys, j, xs[i].ad);
    }
  }

  lemma {:induction false} Outranks(xs: seq<Arrival>, i: nat, ad: PeerAdvertisement)
    requires Wins(xs, i) && ad in Ads(xs) && ad.nodeId == xs[i].ad.nodeId
    ensures ad.timestamp <= xs[i].ad.timestamp
  {
    var k :| 0 <= k < |xs| && xs[k].ad == ad;
  }

  // -------------------------------------------------------------- validation

  predicate IsHex64(s: string) {
    |s| == 64 && forall k :: 0 <= k < |s| ==> DigitValue(s[k]).Some?
  }

  predicate ValidFormat(ad: PeerAdvertisement, now: nat) {
    IsHex64(ad.instanceId) && IsHex64(ad.measurementHash) && ad.timestamp <= now + FUTURE_TOLERANCE_SECS
  }

  function AgeHours(ad: PeerAdvertisement, now: nat): nat {
    (if now < ad.timestamp then 0 else now - ad.timestamp) / 3600
  }

  /** This node, and the configured age beyond which advertisements are refused. */
  datatype Config = Config(self: NodeId, maxAgeHours: nat)

  datatype Outcome = Ok | BadFormat | TooOld | BadEvidence

  predicate HasAsNew(cache: Cache, ad: PeerAdvertisement) {
    ad.nodeId in cache && cache[ad.nodeId].ad.timestamp >= ad.timestamp
  }

  /** `validate_and_add_advertisement`; `genuine` is the verdict of the evidence check. */
  function Validate(config: Config, cache: Cache, ad: PeerAdvertisement, now: nat, genuine: bool): (Cache, Outcome) {
    if !ValidFormat(ad, now) then (cache, BadFormat)
    else if AgeHours(ad, now) > config.maxAgeHours then (cache, TooOld)
    else if ad.nodeId == config.self then (cache, Ok)
    else if HasAsNew(cache, ad) then (cache, Ok)
    else if !genuine then (cache, BadEvidence)
    else (Add(cache, Arrival(ad, now)), Ok)
  }

  predicate Hex64(s: string) {
    |s| == 64 && forall c :: c in s ==> c in "0123456789abcdefABCDEF"
  }

  lemma {:induction false} Hex64Exactly(s: string)
    ensures IsHex64(s) <==> Hex64(s)
  {
    forall k | 0 <= k < |s| ensures DigitValue(s[k]).Some? <==> s[k] in "0123456789abcdefABCDEF" {
      DigitExactly(s[k]);
    }
  }

  /** Two fields of 64 hex digits, and a time at most five minutes ahead. */
  lemma {:induction false} FormatExactly(ad: PeerAdvertisement, now: nat)
    ensures ValidFormat(ad, now) <==> Hex64(ad.instanceId) && Hex64(ad.measurementHash) && ad.timestamp <= now + 300
  {
    Hex64Exactly(ad.instanceId);
    Hex64Exactly(ad.measurementHash);
  }

  /** Whole hours: the limit is passed one hour after it is reached. */
  lemma {:induction false} AgeExactly(ad: PeerAdvertisement, now: nat, max: nat)
    ensures AgeHours(ad, now) > max <==> now >= ad.timestamp + 3600 * (max + 1)
  {}

  /** A known node's advertisement is at least as new. */
  predicate Stale(cache: Cache, ad: PeerAdvertisement) {
    ad.nodeId in cache && ad.timestamp <= cache[ad.nodeId].ad.timestamp
  }

  /** Which check an advertisement fails, and that the cache takes it in, under its node and
      with the time, exactly if it passes all of them and is news about another node. */
  lemma {:induction false} ValidatedExactly(config: Config, cache: Cache, ad: PeerAdvertisement, now: nat,
      genuine: bool)
    ensures var (after, outcome) := Validate(config, cache, ad, now, genuine);
            var formed := Hex64(ad.instanceId) && Hex64(ad.measurementHash) && ad.timestamp <= now + 300;
            var recent := now < ad.timestamp + 3600 * (config.maxAgeHours + 1);
            var news := ad.nodeId != config.self && !Stale(cache, ad);
            && (outcome == BadFormat <==> !formed)
            && (outcome == TooOld <==> formed && !recent)
            && (outcome == BadEvidence <==> formed && recent && news && !genuine)
            && (outcome == Ok <==> formed && recent && (news ==> genuine))
            && after == if formed && recent && news && genuine then cache[ad.nodeId := Arrival(ad, now)] else cache
  {
    FormatExactly(ad, now);
    AgeExactly(ad, now, config.maxAgeHours);
  }

  /** The same without the shortcut for advertisements already known. */
  function ValidateAlways(config: Config, cache: Cache, ad: PeerAdvertisement, now: nat,
      genuine: bool): (Cache, Outcome) {
    if !ValidFormat(ad, now) then (cache, BadFormat)
    else if AgeHours(ad, now) > config.maxAgeHours then (cache, TooOld)
    else if ad.nodeId == config.self then (cache, Ok)
    else if !genuine then (cache, BadEvidence)
    else (Add(cache, Arrival(ad, now)), Ok)
  }

  datatype Received = Received(ad: PeerAdvertisement, now: nat, genuine: bool)

  function ValidateAll(config: Config, received: seq<Received>, shortcut: bool): Cache {
    if received == [] then map[] else
      var n := |received| - 1;
      var cache := ValidateAll(config, received[..n], shortcut);
      var r := received[n];
      (if shortcut then Validate(config, cache, r.ad, r.now, r.genuine)
       else ValidateAlways(config, cache, r.ad, r.now, r.genuine)).0
  }

  /** Over any history of advertisements, the shortcut that skips the evidence check never
      changes the cache. */
  lemma {:induction false} ShortcutIsInvisible(config: Config, received: seq<Received>)
    ensures ValidateAll(config, received, true) == ValidateAll(config, received, false)
  {
    if received != [] {
      ShortcutIsInvisible(config, received[..|received| - 1]);
    }
  }

  /** Its one effect: a stale advertisement with bad evidence is not reported as such. */
  lemma {:induction false} ShortcutHidesExactly(config: Config, cache: Cache, ad: PeerAdvertisement, now: nat,
      genuine: bool)
    ensures Validate(config, cache, ad, now, genuine).1 != ValidateAlways(config, cache, ad, now, genuine).1 <==>
            && ValidFormat(ad, now) && AgeHours(ad, now) <= config.maxAgeHours && ad.nodeId != config.self
            && HasAsNew(cache, ad) && !genuine
  {}

  class GossipedPeerCache {
    var peers: Cache

    constructor ()
      ensures peers == map[]
    {
      peers := map[];
    }

    method AddVerified(ad: PeerAdvertisement, now: nat)
      modifies this
      ensures peers == Add(old(peers), Arrival(ad, now))
    {
      if ad.nodeId in peers {
        var existing := peers[ad.nodeId].ad;
        if existing.timestamp >= ad.timestamp { return; }
      }
      peers := peers[ad.nodeId := Arrival(ad, now)];
    }

    method Contains(id: NodeId) returns (known: bool)
      ensures known <==> id in peers
    {
      known := id in peers;
    }

    method Get(id: NodeId) returns (ad: Option<PeerAdvertisement>)
      ensures ad == if id in peers then Some(peers[id].ad) else None
    {
      ad := if id in peers then Some(peers[id].ad) else None;
    }
  }

  class PeerGossipManager {
    const config: Config
    const cache: GossipedPeerCache

    constructor (settings: Config, shared: GossipedPeerCache)
      ensures config == settings && cache == shared
    {
      config := settings;
      cache := shared;
    }

    method ValidateAndAddAdvertisement(ad: PeerAdvertisement, now: nat, genuine: bool) returns (outcome: Outcome)
      modifies cache
      ensures (cache.peers, outcome) == Validate(config, old(cache.peers), ad, now, genuine)
    {
      if !ValidFormat(ad, now) { return BadFormat; }
      if AgeHours(ad, now) > config.maxAgeHours { return TooOld; }
      if ad.nodeId == config.self { return Ok; }
      var known := cache.Contains(ad.nodeId);
      if known {
        var existing := cache.Get(ad.nodeId);
        if existing.Some? && existing.value.timestamp >= ad.timestamp { return Ok; }
      }
      if !genuine { return BadEvidence; }
      cache.AddVerified(ad, now);
      outcome := Ok;
    }
  }
}
