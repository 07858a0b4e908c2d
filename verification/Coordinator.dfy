/** `RaftCoordinator`, `TrustedPeerRegistry` and the membership part of `RaftNode`, as
    objects changed in place, tied to the transition system of Formation. */
module Coordinator {
  import opened LogNames
  import opened Ordered
  import opened Health
  import opened LocalMoves
  import F = Formation

  type Address = string

  datatype PeerInfo = PeerInfo(raftAddr: Address, apiAddr: Address)

  datatype TrustChange = Mark(id: NodeId, raftAddr: Address, apiAddr: Address) | Revoke(id: NodeId)

  function Changed(trusted: map<NodeId, PeerInfo>, changes: seq<TrustChange>): map<NodeId, PeerInfo> {
    if changes == [] then trusted else
      var before := Changed(trusted, changes[..|changes| - 1]);
      match changes[|changes| - 1]
      case Mark(id, raftAddr, apiAddr) => before[id := PeerInfo(raftAddr, apiAddr)]
      case Revoke(id) => before - {id}
  }

  class TrustedPeerRegistry {
    var trusted: map<NodeId, PeerInfo>

    constructor ()
      ensures trusted == map[]
    {
      trusted := map[];
    }

    method MarkTrusted(id: NodeId, raftAddr: Address, apiAddr: Address)
      modifies this
      ensures trusted == old(trusted)[id := PeerInfo(raftAddr, apiAddr)]
    {
      trusted := trusted[id := PeerInfo(raftAddr, apiAddr)];
    }

    method RevokeTrust(id: NodeId)
      modifies this
      ensures trusted == old(trusted) - {id}
    {
      trusted := trusted - {id};
    }

    /** What the attestation managers do to the registry, in their order. */
    method Change(changes: seq<TrustChange>)
      modifies this
      ensures trusted == Changed(old(trusted), changes)
    {
      for k := 0 to |changes|
        invariant trusted == Changed(old(trusted), changes[..k])
      {
        assert changes[..k + 1][..k] == changes[..k];
        match changes[k] {
          case Mark(id, raftAddr, apiAddr) => MarkTrusted(id, raftAddr, apiAddr);
          case Revoke(id) => RevokeTrust(id);
        }
      }
      assert changes[..|changes|] == changes;
    }

    method GetTrustedNodes() returns (nodes: seq<NodeId>)
      ensures Increasing(nodes) && ToSet(nodes) == trusted.Keys && |nodes| == |trusted.Keys|
    {
      nodes := Ascending(trusted.Keys);
    }

    method GetRaftAddresses() returns (addresses: map<NodeId, Address>)
      ensures addresses.Keys == trusted.Keys
      ensures forall id :: id in trusted ==> addresses[id] == trusted[id].raftAddr
    {
      addresses := map id | id in trusted :: trusted[id].raftAddr;
    }
  }

  /** The router after `add_node` for each of these peers in turn. */
  function Routed(base: map<NodeId, Address>, peers: map<NodeId, Address>, order: seq<NodeId>): map<NodeId, Address>
    requires forall p :: p in order ==> p in peers
  {
    if order == [] then base else
      var k := |order| - 1;
      Routed(base, peers, order[..k])[order[k] := peers[order[k]]]
  }

  lemma {:induction false} RoutedIs(base: map<NodeId, Address>, peers: map<NodeId, Address>, order: seq<NodeId>)
    requires forall p :: p in order ==> p in peers
    ensures Routed(base, peers, order).Keys == base.Keys + ToSet(order)
    ensures forall p :: p in Routed(base, peers, order) ==>
              Routed(base, peers, order)[p] == if p in order then peers[p] else base[p]
  {
    if order != [] {
      var k := |order| - 1;
      RoutedIs(base, peers, order[..k]);
      assert order == order[..k] + [order[k]];
    }
  }

  lemma {:induction false} RoutedAll(base: map<NodeId, Address>, peers: map<NodeId, Address>, order: seq<NodeId>)
    requires forall p :: p in order <==> p in peers
    ensures Routed(base, peers, order) == base + peers
  {
    RoutedIs(base, peers, order);
  }

  /** The OpenRaft node: `view` is what its metrics show. */
  class RaftNode {
    const nodeId: NodeId
    var view: RaftView
    var router: map<NodeId, Address>

    constructor (id: NodeId)
      ensures nodeId == id && Pristine(view) && router == map[]
    {
      nodeId := id;
      view := RaftView({}, {}, None, 0);
      router := map[];
    }

    /** OpenRaft's contract: `initialize` succeeds on a pristine node, if nothing else is in
        the way, and on no other. */
    method Initialize(members: set<NodeId>, agrees: bool) returns (ok: bool)
      requires members != {}
      modifies `view
      ensures ok <==> agrees && Pristine(old(view))
      ensures view == if ok then old(view).(voters := members) else old(view)
    {
      ok := agrees && Pristine(view);
      if ok { view := view.(voters := members); }
    }

    method AddNodes(peers: map<NodeId, Address>, order: seq<NodeId>) returns (members: set<NodeId>)
      requires forall p :: p in order ==> p in peers
      modifies `router
      ensures members == ToSet(order) && router == Routed(old(router), peers, order)
    {
      members := {};
      for k := 0 to |order|
        invariant members == ToSet(order[..k])
        invariant router == Routed(old(router), peers, order[..k])
      {
        ToSetSnoc(order, k);
        assert order[..k + 1][..k] == order[..k];
        router := router[order[k] := peers[order[k]]];
        members := members + {order[k]};
      }
      assert order[..|order|] == order;
    }

    method AddAll(peers: map<NodeId, Address>) returns (members: set<NodeId>)
      modifies `router
      ensures members == peers.Keys && router == old(router) + peers
    {
      var order := Ascending(peers.Keys);
      ghost var before := router;
      RoutedAll(before, peers, order);
      members := AddNodes(peers, order);
    }

    method InitializeCluster(peers: map<NodeId, Address>, agrees: bool) returns (ok: bool)
      modifies this
      ensures router == old(router) + peers
      ensures ok <==> agrees && Pristine(old(view))
      ensures view == if ok then old(view).(voters := peers.Keys + {nodeId}) else old(view)
    {
      var members := AddAll(peers);
      ok := Initialize(members + {nodeId}, agrees);
    }

    /** Learner first, then voter; OpenRaft may refuse either. */
    method AddPeer(peer: NodeId, addr: Address, asLearner: bool, asVoter: bool) returns (ok: bool)
      modifies this
      ensures router == old(router)[peer := addr]
      ensures ok <==> asLearner && asVoter
      ensures view == old(view).(voters := view.voters, learners := view.learners)
      ensures view.voters == if ok then old(view.voters) + {peer} else old(view.voters)
      ensures view.learners == if ok then old(view.learners) - {peer}
                               else if asLearner && peer !in old(view.voters) then old(view.learners) + {peer}
                               else old(view.learners)
    {
      router := router[peer := addr];
      if !asLearner { return false; }
      if peer !in view.voters { view := view.(learners := view.learners + {peer}); }
      var newVoters := if peer in view.voters then view.voters else view.voters + {peer};
      if !asVoter { return false; }
      view := view.(voters := newVoters, learners := view.learners - {peer});
      ok := true;
    }

    /** OpenRaft refuses a membership without voters. */
    method RemovePeer(peer: NodeId, agrees: bool) returns (ok: bool)
      modifies this
      ensures ok <==> peer !in old(view.voters) || (agrees && old(view.voters) != {peer})
      ensures view == if ok then old(view).(voters := old(view.voters) - {peer}) else old(view)
      ensures router == if ok then old(router) - {peer} else old(router)
      ensures !Pristine(old(view)) ==> !Pristine(view)
    {
      var newVoters := view.voters - {peer};
      if newVoters < view.voters {
        ok := ChangeVoters(newVoters, agrees);
        if !ok { return; }
      }
      router := router - {peer};
      ok := true;
    }

    /** OpenRaft's contract: `change_membership` never leaves a cluster without voters. */
    method ChangeVoters(voters: set<NodeId>, agrees: bool) returns (ok: bool)
      modifies `view
      ensures ok <==> agrees && voters != {}
      ensures view == if ok then old(view).(voters := voters) else old(view)
    {
      ok := agrees && voters != {};
      if ok { view := view.(voters := voters); }
    }
  }

  const BOOTSTRAP_WAIT_TIMEOUT: nat := 60
  const MEMBERSHIP_WAIT_TIMEOUT: nat := 300

  datatype CoordinatorState =
    | WaitingForPeers
    | CheckingCluster
    | CoordinatingBootstrap
    | Bootstrapping
    | WaitingForBootstrap(deadline: nat)
    | Joining(deadline: nat)
    | ClusterActive

  function PhaseOf(s: CoordinatorState): F.Phase {
    match s
    case WaitingForPeers => F.WaitingForPeers
    case CheckingCluster => F.CheckingCluster
    case CoordinatingBootstrap => F.CoordinatingBootstrap
    case Bootstrapping => F.Phase.Bootstrapping
    case WaitingForBootstrap(_) => F.WaitingForBootstrap
    case Joining(_) => F.Joining
    case ClusterActive => F.ClusterActive
  }

  function ReadyPeers(self: NodeId, peers: set<NodeId>, answers: Answers): set<NodeId> {
    set p | p in peers && p in answers && answers[p].IsMutuallyReady(self, MIN_PEERS_FOR_BOOTSTRAP)
  }

  lemma {:induction false} ReadySetIs(self: NodeId, ours: set<NodeId>, answers: Answers)
    ensures F.ReadySet(self, ours, answers)
            == (if |ours| >= MIN_PEERS_FOR_BOOTSTRAP then {self} else {}) + ReadyPeers(self, ours, answers)
  {}

  lemma {:induction false} ReadyPeersGrow(self: NodeId, peers: set<NodeId>, p: NodeId, answers: Answers)
    ensures ReadyPeers(self, peers + {p}, answers) ==
            ReadyPeers(self, peers, answers)
            + if p in answers && answers[p].IsMutuallyReady(self, MIN_PEERS_FOR_BOOTSTRAP) then {p} else {}
  {}

  lemma {:induction false} DecidedCoordinating(self: NodeId, trusted: set<NodeId>, answers: Answers)
    ensures var ready := F.ReadySet(self, trusted, answers);
            Decided(self, F.CoordinatingBootstrap, F.FindReady, trusted, answers).phase ==
            if |ready| < BOOTSTRAP_QUORUM then F.CoordinatingBootstrap
            else if F.Elects(self, ready) then F.Phase.Bootstrapping else F.WaitingForBootstrap
  {
    ReadyHeard(self, trusted, answers);
  }

  lemma {:induction false} DecidedBootstrapping(self: NodeId, trusted: set<NodeId>, answers: Answers)
    ensures var ready := F.ReadySet(self, trusted, answers);
            var after := Decided(self, F.Phase.Bootstrapping, F.FindReady, trusted, answers);
            if |ready| < BOOTSTRAP_QUORUM then after.phase == F.CoordinatingBootstrap
            else if F.Elects(self, ready) then after.activity.Initialising?
            else after.phase == F.WaitingForBootstrap
  {
    ReadyHeard(self, trusted, answers);
  }

  /** There is a membership, and in it the node is not a mere learner. */
  predicate FullMember(self: NodeId, view: RaftView) {
    view.voters + view.learners != {} && self !in view.learners
  }

  /** The addresses of the ready peers that are trusted. */
  function ReadyAddresses(trusted: map<NodeId, PeerInfo>, ready: set<NodeId>): (r: map<NodeId, Address>)
    ensures forall id :: id in r <==> id in trusted && id in ready
    ensures forall id :: id in r ==> r[id] == trusted[id].raftAddr
  {
    map id | id in trusted && id in ready :: trusted[id].raftAddr
  }

  lemma {:induction false} LowerComeFirst(order: seq<NodeId>, k: nat)
    requires Increasing(order) && k < |order|
    ensures forall p :: p in ToSet(order) && p < order[k] ==> exists j :: 0 <= j < k && order[j] == p
  {
    forall p | p in ToSet(order) && p < order[k] ensures exists j :: 0 <= j < k && order[j] == p {
      var j :| 0 <= j < |order| && order[j] == p;
      assert j < k;
    }
  }

  /** What it means to have tried to add these peers. */
  ghost predicate Added(peers: set<NodeId>, asLearner: set<NodeId>, asVoter: set<NodeId>, before: set<NodeId>,
      was: RaftView, routes: map<NodeId, Address>, trusted: map<NodeId, PeerInfo>, after: set<NodeId>, view: RaftView,
      router: map<NodeId, Address>) {
    && after == before + (peers * asLearner * asVoter)
    && view == was.(voters := was.voters + (peers * asLearner * asVoter),
                    learners := was.learners + (peers * asLearner - asVoter))
    && router == routes + ReadyAddresses(trusted, peers)
  }

  /** Whether the loop skips a peer does not depend on what it has added. */
  lemma {:induction false} CandidateExactly(ours: seq<NodeId>, k: nat, candidates: set<NodeId>, current: set<NodeId>,
      before: set<NodeId>, trusted: set<NodeId>, added: set<NodeId>)
    requires Increasing(ours) && k < |ours| && ToSet(ours) == trusted
    requires candidates == trusted - current - before
    requires before <= added && added - before <= candidates * ToSet(ours[..k])
    ensures ours[k] !in current && ours[k] !in added <==> ours[k] in candidates
    ensures ours[k] !in ToSet(ours[..k])
    ensures candidates * ToSet(ours[..k + 1])
            == candidates * ToSet(ours[..k]) + if ours[k] in candidates then {ours[k]} else {}
  {
    ToSetSnoc(ours, k);
    assert ours[k] in ToSet(ours);
    forall j | 0 <= j < k ensures ours[j] != ours[k] {}
    assert ours[k] !in added - before;
  }

  /** One more peer tried. */
  lemma {:induction false} AddedStep(p: NodeId, peers: set<NodeId>, asLearner: set<NodeId>, asVoter: set<NodeId>,
      before: set<NodeId>, was: RaftView, routes: map<NodeId, Address>, trusted: map<NodeId, PeerInfo>,
      after: set<NodeId>, view: RaftView, router: map<NodeId, Address>)
    requires Added(peers, asLearner, asVoter, before, was, routes, trusted, after, view, router)
    requires p in trusted && p !in peers && p !in was.voters + was.learners
    ensures var both := p in asLearner && p in asVoter;
            Added(peers + {p}, asLearner, asVoter, before, was, routes, trusted,
                  if both then after + {p} else after,
                  view.(voters := if both then view.voters + {p} else view.voters,
                        learners := if both then view.learners - {p}
                                    else if p in asLearner then view.learners + {p} else view.learners),
                  router[p := trusted[p].raftAddr])
    ensures p !in view.voters
  {
    assert (peers + {p}) * asLearner * asVoter
           == peers * asLearner * asVoter + if p in asLearner && p in asVoter then {p} else {};
    assert (peers + {p}) * asLearner - asVoter
           == (peers * asLearner - asVoter) + if p in asLearner && p !in asVoter then {p} else {};
    assert ReadyAddresses(trusted, peers + {p}) == ReadyAddresses(trusted, peers)[p := trusted[p].raftAddr];
  }

  /** What the coordinator, its registry and its OpenRaft node hold between two rounds. */
  datatype Held = Held(
    state: CoordinatorState,
    trusted: map<NodeId, PeerInfo>,
    view: RaftView,
    router: map<NodeId, Address>,
    added: set<NodeId>)

  /** This node as Formation sees it. */
  function Here(h: Held): Local {
    Local(PhaseOf(h.state), h.trusted.Keys, h.view)
  }

  /** The trusted peers that are neither members nor added before. */
  function Candidates(h: Held): set<NodeId> {
    h.trusted.Keys - h.view.voters - h.view.learners - h.added
  }

  /** One round of `run`: a move that Formation allows this node, along an edge of the state
      diagram, with the deadlines set and kept to. */
  ghost predicate RoundDone(self: NodeId, before: Held, after: Held, answers: Answers, again: Answers, now: nat,
      agrees: bool, asLearner: set<NodeId>, asVoter: set<NodeId>) {
    && Edge(before.state, after.state)
    && Moves(self, Here(before), answers, again, Here(after))
    && DeadlineSet(before.state, after.state, now)
    && (before.state.Joining? ==>
          after.state == if now >= before.state.deadline then WaitingForPeers
                         else if FullMember(self, before.view) then ClusterActive else before.state)
    && (before.state.WaitingForBootstrap? ==>
          if now >= before.state.deadline then after.state == CoordinatingBootstrap
          else PhaseOf(after.state) == WaitsOn(self, Here(before), answers, again)
               && (after.state.WaitingForBootstrap? ==> after.state == before.state))
    && (before.state.Bootstrapping? ==> BootstrapDone(self, before, after, answers, agrees))
    && (before.state.ClusterActive? ==>
          if before.view.leader != Some(self)
          then after.view == before.view && after.router == before.router && after.added == before.added
          else Added(Candidates(before), asLearner, asVoter, before.added, before.view, before.router,
                     after.trusted, after.added, after.view, after.router))
    && (Pristine(before.view) && !Pristine(after.view) ==>
          before.state.ClusterActive? || (before.state.Bootstrapping? && after.state.ClusterActive?))
  }

  /** An elected node initialises if OpenRaft lets it, with the ready peers as members. */
  ghost predicate BootstrapDone(self: NodeId, before: Held, after: Held, answers: Answers, agrees: bool) {
    var ready := F.ReadySet(self, before.trusted.Keys, answers);
    && (after.state.ClusterActive? <==> F.Elects(self, ready) && agrees && Pristine(before.view))
    && (after.state.ClusterActive? ==> after.view.voters == F.Members(self, ready, after.trusted.Keys))
  }

  lemma {:induction false} ElectedRound(self: NodeId, before: Held, after: Held, answers: Answers, again: Answers,
      now: nat, agrees: bool, asLearner: set<NodeId>, asVoter: set<NodeId>)
    requires before.state.Bootstrapping?
    requires var ready := F.ReadySet(self, before.trusted.Keys, answers);
             && F.Elects(self, ready)
             && after.state == (if agrees && Pristine(before.view) then ClusterActive else CoordinatingBootstrap)
             && after.view == if after.state.ClusterActive?
                              then before.view.(voters := F.Members(self, ready, after.trusted.Keys)) else before.view
    ensures RoundDone(self, before, after, answers, again, now, agrees, asLearner, asVoter)
  {
    assert Bootstraps(self, Here(before), answers, Here(after));
  }

  lemma {:induction false} DeposedRound(self: NodeId, before: Held, after: Held, answers: Answers, again: Answers,
      now: nat, agrees: bool, asLearner: set<NodeId>, asVoter: set<NodeId>)
    requires before.state.Bootstrapping? && !F.Elects(self, F.ReadySet(self, before.trusted.Keys, answers))
    requires PhaseOf(after.state)
             == Decided(self, F.Phase.Bootstrapping, F.FindReady, before.trusted.Keys, answers).phase
    requires after.state == CoordinatingBootstrap || after.state == WaitingForBootstrap(now + 60)
    requires after.view == before.view && after.trusted == before.trusted
    ensures RoundDone(self, before, after, answers, again, now, agrees, asLearner, asVoter)
  {
    assert Bootstraps(self, Here(before), answers, Here(after));
  }

  lemma {:induction false} WaitedRound(self: NodeId, before: Held, after: Held, answers: Answers, again: Answers,
      now: nat, agrees: bool, asLearner: set<NodeId>, asVoter: set<NodeId>)
    requires before.state.WaitingForBootstrap? && Edge(before.state, after.state)
    requires after == before.(state := after.state, router := after.router)
    requires if now >= before.state.deadline then after.state == CoordinatingBootstrap
             else PhaseOf(after.state) == WaitsOn(self, Here(before), answers, again)
    requires after.state.Joining? ==> after.state == Joining(now + 300)
    requires after.state.WaitingForBootstrap? ==> after.state == before.state
    ensures RoundDone(self, before, after, answers, again, now, agrees, asLearner, asVoter)
  {
    assert Here(after) == Here(before).(phase := PhaseOf(after.state));
  }

  class RaftCoordinator {
    const nodeId: NodeId
    const raft: RaftNode
    const registry: TrustedPeerRegistry
    var state: CoordinatorState
    var addedPeers: set<NodeId>

    constructor (raftNode: RaftNode, peers: TrustedPeerRegistry)
      ensures nodeId == raftNode.nodeId && raft == raftNode && registry == peers
      ensures state == WaitingForPeers && addedPeers == {}
    {
      nodeId := raftNode.nodeId;
      raft := raftNode;
      registry := peers;
      state := WaitingForPeers;
      addedPeers := {};
    }

    /** Self if it has enough peers, and every trusted peer whose answer says that it is
        ready and trusts us. */
    method BuildMutualReadySet(answers: Answers) returns (ready: set<NodeId>)
      ensures ready == F.ReadySet(nodeId, registry.trusted.Keys, answers)
    {
      ready := {};
      var ours := registry.GetTrustedNodes();
      if |ours| >= MIN_PEERS_FOR_BOOTSTRAP { ready := ready + {nodeId}; }
      ghost var self := ready;
      ghost var asked: set<NodeId> := {};
      for k := 0 to |ours|
        invariant asked == ToSet(ours[..k])
        invariant ready == self + ReadyPeers(nodeId, asked, answers)
      {
        ToSetSnoc(ours, k);
        ReadyPeersGrow(nodeId, asked, ours[k], answers);
        if ours[k] in answers && answers[ours[k]].IsMutuallyReady(nodeId, MIN_PEERS_FOR_BOOTSTRAP) {
          ready := ready + {ours[k]};
        }
        asked := asked + {ours[k]};
      }
      assert ours[..|ours|] == ours;
      ReadySetIs(nodeId, registry.trusted.Keys, answers);
    }

    method HandleWaitingForPeers() returns (next: CoordinatorState)
      ensures next == if |registry.trusted.Keys| >= 2 then CheckingCluster else WaitingForPeers
    {
      var ours := registry.GetTrustedNodes();
      next := if |ours| >= MIN_PEERS_FOR_BOOTSTRAP then CheckingCluster else WaitingForPeers;
    }

    /** Joins behind the lowest-numbered trusted leader that answers, if there is one. */
    method HandleCheckingCluster(answers: Answers, now: nat) returns (next: CoordinatorState, leader: Option<NodeId>)
      modifies raft
      ensures PhaseOf(next) == Decided(nodeId, F.CheckingCluster, F.FindLeader, registry.trusted.Keys, answers).phase
      ensures Edge(CheckingCluster, next)
      ensures next.Joining? ==> next.deadline == now + 300
      ensures next.Joining? <==> leader.Some?
      ensures leader.Some? ==>
                && leader.value in registry.trusted && leader.value in answers
                && answers[leader.value].clusterSize > 0 && answers[leader.value].status.Leader?
                && (forall p :: p in registry.trusted && p in answers && p < leader.value ==>
                     !(answers[p].InCluster() && answers[p].IsLeader()))
                && raft.router == old(raft.router)[leader.value := registry.trusted[leader.value].raftAddr]
      ensures leader.None? ==>
                && next == CoordinatingBootstrap && raft.router == old(raft.router)
                && forall p :: p in registry.trusted && p in answers ==>
                     !(answers[p].clusterSize > 0 && answers[p].status.Leader?)
      ensures raft.view == old(raft.view)
    {
      var ours := registry.GetTrustedNodes();
      leader := None;
      for k := 0 to |ours|
        invariant leader.None? && raft.view == old(raft.view) && raft.router == old(raft.router)
        invariant forall j :: 0 <= j < k && ours[j] in answers ==>
                    !(answers[ours[j]].InCluster() && answers[ours[j]].IsLeader())
      {
        var p := ours[k];
        assert p in ToSet(ours);
        if p in answers && answers[p].InCluster() && answers[p].IsLeader() {
          leader := Some(p);
          raft.router := raft.router[p := registry.trusted[p].raftAddr];
          next := Joining(now + MEMBERSHIP_WAIT_TIMEOUT);
          assert p in Heard(registry.trusted.Keys, answers);
          LowerComeFirst(ours, k);
          return;
        }
      }
      assert forall p :: p in registry.trusted.Keys ==> p in ToSet(ours);
      next := CoordinatingBootstrap;
    }

    method HandleCoordinatingBootstrap(answers: Answers, now: nat) returns (next: CoordinatorState)
      ensures PhaseOf(next)
              == Decided(nodeId, F.CoordinatingBootstrap, F.FindReady, registry.trusted.Keys, answers).phase
      ensures var ready := F.ReadySet(nodeId, registry.trusted.Keys, answers);
              next == if |ready| < 3 then CoordinatingBootstrap
                      else if F.Elects(nodeId, ready) then CoordinatorState.Bootstrapping
                      else WaitingForBootstrap(now + 60)
      ensures Edge(CoordinatingBootstrap, next)
    {
      DecidedCoordinating(nodeId, registry.trusted.Keys, answers);
      var ready := BuildMutualReadySet(answers);
      if |ready| < BOOTSTRAP_QUORUM {
        next := CoordinatingBootstrap;
      } else if Least(ready) == nodeId {
        next := CoordinatorState.Bootstrapping;
      } else {
        next := WaitingForBootstrap(now + BOOTSTRAP_WAIT_TIMEOUT);
      }
    }

    /** The last check, then the call. The registry may change between the two; `agrees` is
        OpenRaft's answer. */
    method HandleBootstrapping(answers: Answers, now: nat, meanwhile: seq<TrustChange>, agrees: bool)
      returns (next: CoordinatorState)
      requires raft.nodeId == nodeId
      modifies registry, raft
      ensures !F.Elects(nodeId, F.ReadySet(nodeId, old(registry.trusted.Keys), answers)) ==>
                && PhaseOf(next)
                   == Decided(nodeId, F.Phase.Bootstrapping, F.FindReady, old(registry.trusted.Keys), answers).phase
                && next == (if |F.ReadySet(nodeId, old(registry.trusted.Keys), answers)| < 3 then CoordinatingBootstrap
                            else WaitingForBootstrap(now + 60))
                && raft.view == old(raft.view) && raft.router == old(raft.router)
                && registry.trusted == old(registry.trusted)
      ensures var ready := F.ReadySet(nodeId, old(registry.trusted.Keys), answers);
              F.Elects(nodeId, ready) ==>
                && registry.trusted == Changed(old(registry.trusted), meanwhile)
                && raft.router == old(raft.router) + ReadyAddresses(registry.trusted, ready)
                && next == (if agrees && Pristine(old(raft.view)) then ClusterActive else CoordinatingBootstrap)
                && raft.view == if next.ClusterActive?
                                then old(raft.view).(voters := F.Members(nodeId, ready, registry.trusted.Keys))
                                else old(raft.view)
      ensures Edge(CoordinatorState.Bootstrapping, next)
    {
      DecidedBootstrapping(nodeId, registry.trusted.Keys, answers);
      var ready := BuildMutualReadySet(answers);
      if |ready| < BOOTSTRAP_QUORUM {
        return CoordinatingBootstrap;
      }
      if Least(ready) != nodeId {
        return WaitingForBootstrap(now + BOOTSTRAP_WAIT_TIMEOUT);
      }
      registry.Change(meanwhile);
      var ok := CallInitialize(ready, agrees);
      next := if ok then ClusterActive else CoordinatingBootstrap;
    }

    method CallInitialize(ready: set<NodeId>, agrees: bool) returns (ok: bool)
      requires raft.nodeId == nodeId
      modifies raft
      ensures ok <==> agrees && Pristine(old(raft.view))
      ensures raft.router == old(raft.router) + ReadyAddresses(registry.trusted, ready)
      ensures raft.view == if ok then old(raft.view).(voters := F.Members(nodeId, ready, registry.trusted.Keys))
                           else old(raft.view)
    {
      var addresses := registry.GetRaftAddresses();
      var bootstrapPeers := map id | id in addresses && id in ready :: addresses[id];
      assert bootstrapPeers == ReadyAddresses(registry.trusted, ready);
      assert bootstrapPeers.Keys == ready * registry.trusted.Keys;
      ok := raft.InitializeCluster(bootstrapPeers, agrees);
    }

    /** Timeout first, then look for a cluster, then, asking again, for a chance to take over. */
    method HandleWaitingForBootstrap(deadline: nat, answers: Answers, again: Answers, now: nat)
      returns (next: CoordinatorState, found: Option<NodeId>)
      modifies raft
      ensures raft.view == old(raft.view) && Edge(WaitingForBootstrap(deadline), next)
      ensures now >= deadline ==> next == CoordinatingBootstrap && found.None?
      ensures now < deadline ==> (found.Some? <==> F.Found(ScanOf(F.FindCluster, registry.trusted.Keys, answers)))
      ensures found.Some? ==>
                && next == Joining(now + 300)
                && found.value in registry.trusted && found.value in answers && answers[found.value].clusterSize > 0
                && (forall p :: p in registry.trusted && p in answers && p < found.value ==>
                     answers[p].clusterSize == 0)
                && raft.router == old(raft.router)[found.value := registry.trusted[found.value].raftAddr]
      ensures found.None? ==> raft.router == old(raft.router)
      ensures now < deadline && found.None? ==>
                forall p :: p in registry.trusted && p in answers ==> answers[p].clusterSize == 0
      ensures now < deadline && found.None? ==>
                next == if F.Elects(nodeId, F.ReadySet(nodeId, registry.trusted.Keys, again))
                        then CoordinatorState.Bootstrapping else WaitingForBootstrap(deadline)
      ensures now < deadline ==>
                PhaseOf(next) == WaitsOn(nodeId, Local(F.WaitingForBootstrap, registry.trusted.Keys, raft.view),
                                         answers, again)
    {
      found := None;
      if now >= deadline { return CoordinatingBootstrap, None; }
      found := FindCluster(answers);
      if found.Some? {
        raft.router := raft.router[found.value := registry.trusted[found.value].raftAddr];
        return Joining(now + MEMBERSHIP_WAIT_TIMEOUT), found;
      }
      var ready := BuildMutualReadySet(again);
      next := if |ready| >= BOOTSTRAP_QUORUM && Least(ready) == nodeId
              then CoordinatorState.Bootstrapping else WaitingForBootstrap(deadline);
    }

    /** The lowest-numbered trusted peer that answers from inside a cluster. */
    method FindCluster(answers: Answers) returns (found: Option<NodeId>)
      ensures found.Some? <==> F.Found(ScanOf(F.FindCluster, registry.trusted.Keys, answers))
      ensures found.Some? ==>
                && found.value in registry.trusted && found.value in answers && answers[found.value].clusterSize > 0
                && forall p :: p in registry.trusted && p in answers && p < found.value ==> answers[p].clusterSize == 0
      ensures found.None? ==> forall p :: p in registry.trusted && p in answers ==> answers[p].clusterSize == 0
    {
      var ours := registry.GetTrustedNodes();
      for k := 0 to |ours|
        invariant forall j :: 0 <= j < k && ours[j] in answers ==> !answers[ours[j]].InCluster()
      {
        var p := ours[k];
        assert p in ToSet(ours);
        if p in answers && answers[p].InCluster() {
          assert p in Heard(registry.trusted.Keys, answers);
          LowerComeFirst(ours, k);
          return Some(p);
        }
      }
      assert forall p :: p in registry.trusted.Keys ==> p in ToSet(ours);
      found := None;
    }

    method HandleJoining(deadline: nat, now: nat) returns (next: CoordinatorState)
      ensures next == if now >= deadline then WaitingForPeers
                      else if FullMember(nodeId, raft.view) then ClusterActive else Joining(deadline)
    {
      if now >= deadline { return WaitingForPeers; }
      var status := StatusOf(nodeId, raft.view);
      StatusExactly(nodeId, raft.view);
      next := if status.InCluster() && !status.Learner? then ClusterActive else Joining(deadline);
    }

    /** The leader tries to add every candidate, and remembers exactly those OpenRaft took as
        learner and as voter. */
    method HandleClusterActive(asLearner: set<NodeId>, asVoter: set<NodeId>) returns (next: CoordinatorState)
      modifies `addedPeers, raft
      ensures next == ClusterActive
      ensures old(raft.view.leader) != Some(nodeId) ==>
                addedPeers == old(addedPeers) && raft.view == old(raft.view) && raft.router == old(raft.router)
      ensures old(raft.view.leader) == Some(nodeId) ==>
                Added(old(Candidates(All())), asLearner, asVoter, old(addedPeers), old(raft.view), old(raft.router),
                      registry.trusted, addedPeers, raft.view, raft.router)
      ensures old(raft.view.voters + raft.view.learners) <= raft.view.voters + raft.view.learners
    {
      if raft.view.leader != Some(nodeId) { return ClusterActive; }
      var current := raft.view.voters + raft.view.learners;
      var ours := registry.GetTrustedNodes();
      ghost var done: set<NodeId> := {};
      ghost var candidates := Candidates(All());
      for k := 0 to |ours|
        invariant done == candidates * ToSet(ours[..k])
        invariant Added(done, asLearner, asVoter, old(addedPeers), old(raft.view), old(raft.router),
                        registry.trusted, addedPeers, raft.view, raft.router)
      {
        CandidateExactly(ours, k, candidates, current, old(addedPeers), registry.trusted.Keys, addedPeers);
        if ours[k] !in current && ours[k] !in addedPeers {
          AddedStep(ours[k], done, asLearner, asVoter, old(addedPeers), old(raft.view), old(raft.router),
                    registry.trusted, addedPeers, raft.view, raft.router);
          AddAndRemember(ours[k], ours[k] in asLearner, ours[k] in asVoter);
          done := done + {ours[k]};
        }
      }
      assert ours[..|ours|] == ours && candidates * ToSet(ours) == candidates;
      next := ClusterActive;
    }

    method AddAndRemember(p: NodeId, asLearner: bool, asVoter: bool)
      requires p in registry.trusted
      modifies `addedPeers, raft
      ensures addedPeers == if asLearner && asVoter then old(addedPeers) + {p} else old(addedPeers)
      ensures raft.router == old(raft.router)[p := registry.trusted[p].raftAddr]
      ensures raft.view == old(raft.view).(voters := raft.view.voters, learners := raft.view.learners)
      ensures raft.view.voters == if asLearner && asVoter then old(raft.view.voters) + {p} else old(raft.view.voters)
      ensures raft.view.learners == if asLearner && asVoter then old(raft.view.learners) - {p}
                                    else if asLearner && p !in old(raft.view.voters) then old(raft.view.learners) + {p}
                                    else old(raft.view.learners)
    {
      var ok := raft.AddPeer(p, registry.trusted[p].raftAddr, asLearner, asVoter);
      if ok { addedPeers := addedPeers + {p}; }
    }

    ghost function All(): Held
      reads this, raft, registry
    {
      Held(state, registry.trusted, raft.view, raft.router, addedPeers)
    }

    /** `agrees`, `asLearner` and `asVoter` are OpenRaft's answers. */
    method Step(answers: Answers, again: Answers, now: nat, meanwhile: seq<TrustChange>, agrees: bool,
        asLearner: set<NodeId>, asVoter: set<NodeId>)
      requires raft.nodeId == nodeId
      modifies this, raft, registry
      ensures RoundDone(nodeId, old(All()), All(), answers, again, now, agrees, asLearner, asVoter)
    {
      match state {
        case WaitingForPeers => StepEarly(answers, again, now, agrees, asLearner, asVoter);
        case CheckingCluster => StepEarly(answers, again, now, agrees, asLearner, asVoter);
        case CoordinatingBootstrap => StepEarly(answers, again, now, agrees, asLearner, asVoter);
        case Bootstrapping => StepBootstrapping(answers, again, now, meanwhile, agrees, asLearner, asVoter);
        case WaitingForBootstrap(_) => StepWaiting(answers, again, now, agrees, asLearner, asVoter);
        case Joining(_) => StepJoining(answers, again, now, agrees, asLearner, asVoter);
        case ClusterActive => StepActive(answers, again, now, agrees, asLearner, asVoter);
      }
    }

    /** The arms before this node is elected. */
    method StepEarly(answers: Answers, again: Answers, now: nat, agrees: bool, asLearner: set<NodeId>,
        asVoter: set<NodeId>)
      requires state.WaitingForPeers? || state.CheckingCluster? || state.CoordinatingBootstrap?
      modifies this, raft
      ensures RoundDone(nodeId, old(All()), All(), answers, again, now, agrees, asLearner, asVoter)
    {
      var next;
      match state {
        case WaitingForPeers => next := HandleWaitingForPeers();
        case CheckingCluster => var leader; next, leader := HandleCheckingCluster(answers, now);
        case CoordinatingBootstrap => next := HandleCoordinatingBootstrap(answers, now);
      }
      state := next;
    }

    method StepBootstrapping(answers: Answers, again: Answers, now: nat, meanwhile: seq<TrustChange>, agrees: bool,
        asLearner: set<NodeId>, asVoter: set<NodeId>)
      requires raft.nodeId == nodeId && state.Bootstrapping?
      modifies this, raft, registry
      ensures RoundDone(nodeId, old(All()), All(), answers, again, now, agrees, asLearner, asVoter)
    {
      ghost var before := All();
      state := HandleBootstrapping(answers, now, meanwhile, agrees);
      if F.Elects(nodeId, F.ReadySet(nodeId, before.trusted.Keys, answers)) {
        ElectedRound(nodeId, before, All(), answers, again, now, agrees, asLearner, asVoter);
      } else {
        DeposedRound(nodeId, before, All(), answers, again, now, agrees, asLearner, asVoter);
      }
    }

    method StepWaiting(answers: Answers, again: Answers, now: nat, agrees: bool, asLearner: set<NodeId>,
        asVoter: set<NodeId>)
      requires state.WaitingForBootstrap?
      modifies this, raft
      ensures RoundDone(nodeId, old(All()), All(), answers, again, now, agrees, asLearner, asVoter)
    {
      ghost var before := All();
      var next, found := HandleWaitingForBootstrap(state.deadline, answers, again, now);
      state := next;
      WaitedRound(nodeId, before, All(), answers, again, now, agrees, asLearner, asVoter);
    }

    method StepJoining(answers: Answers, again: Answers, now: nat, agrees: bool, asLearner: set<NodeId>,
        asVoter: set<NodeId>)
      requires state.Joining?
      modifies this
      ensures RoundDone(nodeId, old(All()), All(), answers, again, now, agrees, asLearner, asVoter)
    {
      StatusExactly(nodeId, raft.view);
      state := HandleJoining(state.deadline, now);
    }

    method StepActive(answers: Answers, again: Answers, now: nat, agrees: bool, asLearner: set<NodeId>,
        asVoter: set<NodeId>)
      requires state.ClusterActive?
      modifies this, raft
      ensures RoundDone(nodeId, old(All()), All(), answers, again, now, agrees, asLearner, asVoter)
    {
      state := HandleClusterActive(asLearner, asVoter);
    }
  }

  /** Entering a waiting state starts its clock. */
  predicate DeadlineSet(before: CoordinatorState, after: CoordinatorState, now: nat) {
    && (after.Joining? && !before.Joining? ==> after.deadline == now + 300)
    && (after.WaitingForBootstrap? && !before.WaitingForBootstrap? ==> after.deadline == now + 60)
  }

  predicate Edge(s: CoordinatorState, t: CoordinatorState) {
    match s
    case WaitingForPeers => t.WaitingForPeers? || t.CheckingCluster?
    case CheckingCluster => t.Joining? || t.CoordinatingBootstrap?
    case CoordinatingBootstrap => t.CoordinatingBootstrap? || t.Bootstrapping? || t.WaitingForBootstrap?
    case Bootstrapping => t.CoordinatingBootstrap? || t.WaitingForBootstrap? || t.ClusterActive?
    case WaitingForBootstrap(_) =>
      t.CoordinatingBootstrap? || t.Joining? || t.Bootstrapping? || t == s
    case Joining(_) => t.WaitingForPeers? || t.ClusterActive? || t == s
    case ClusterActive => t.ClusterActive?
  }
}
