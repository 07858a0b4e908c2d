/** Node status and the health answer that cluster formation is decided on. */
module Health {
  import opened LogNames
  import opened Ordered

  type NodeId = nat

  const MIN_PEERS_FOR_BOOTSTRAP: nat := 2
  const BOOTSTRAP_QUORUM: nat := 3

  datatype NodeStatus = Bootstrapping | Learner | Follower | Candidate | Leader {
    predicate InCluster() {
      Learner? || Follower? || Candidate? || Leader?
    }
  }

  datatype HealthResponse = HealthResponse(
    nodeId: NodeId,
    status: NodeStatus,
    term: nat,
    clusterSize: nat,
    trustedPeers: seq<NodeId>)
  {
    predicate IsLeader() { status.Leader? }

    predicate InCluster() { clusterSize > 0 }

    predicate ReadyForBootstrap(minPeers: nat) {
      clusterSize == 0 && |trustedPeers| >= minPeers && status.Bootstrapping?
    }

    predicate IsMutuallyReady(ourNodeId: NodeId, minPeers: nat) {
      ReadyForBootstrap(minPeers) && ourNodeId in trustedPeers
    }
  }

  /** What OpenRaft's metrics say on one node. */
  datatype RaftView = RaftView(voters: set<NodeId>, learners: set<NodeId>, leader: Option<NodeId>, term: nat)

  /** No membership yet: the only state in which OpenRaft can be initialised. */
  predicate Pristine(v: RaftView) {
    v.voters == {} && v.learners == {}
  }

  /** `get_node_state` */
  function StatusOf(self: NodeId, v: RaftView): NodeStatus {
    if self in v.learners then Learner
    else if v.voters == {} && v.learners == {} then Bootstrapping
    else if v.leader == Some(self) then Leader
    else if v.leader.Some? then Follower
    else Candidate
  }

  /** The answer of the health endpoint. */
  function HealthOf(self: NodeId, v: RaftView, trust: set<NodeId>): HealthResponse {
    HealthResponse(self, StatusOf(self, v), v.term, |v.voters|, Ascending(trust))
  }

  /** Readiness is exactly: no membership yet, and enough trusted peers. */
  lemma {:induction false} ReadyMeansPristine(self: NodeId, v: RaftView, trust: set<NodeId>, our: NodeId, minPeers: nat)
    ensures HealthOf(self, v, trust).IsMutuallyReady(our, minPeers)
            <==> Pristine(v) && |trust| >= minPeers && our in trust
    ensures HealthOf(self, v, trust).status.Bootstrapping? <==> Pristine(v)
    ensures HealthOf(self, v, trust).InCluster() ==> !Pristine(v) && HealthOf(self, v, trust).status.InCluster()
  {}

  /** Which status a node reports, and when. */
  lemma {:induction false} StatusExactly(self: NodeId, v: RaftView)
    ensures StatusOf(self, v).Learner? <==> self in v.learners
    ensures StatusOf(self, v).Bootstrapping? <==> v.voters == {} && v.learners == {}
    ensures StatusOf(self, v).Leader? <==>
              self !in v.learners && v.voters + v.learners != {} && v.leader == Some(self)
    ensures StatusOf(self, v).Follower? <==>
              self !in v.learners && v.voters + v.learners != {} && v.leader.Some? && v.leader.value != self
    ensures StatusOf(self, v).Candidate? <==>
              self !in v.learners && v.voters + v.learners != {} && v.leader == None
    ensures StatusOf(self, v).InCluster() <==> v.voters + v.learners != {}
  {}

  /** What the health endpoint answers. */
  lemma {:induction false} HealthExactly(self: NodeId, v: RaftView, trust: set<NodeId>)
    ensures var h := HealthOf(self, v, trust);
            && h.nodeId == self && h.status == StatusOf(self, v) && h.term == v.term && h.clusterSize == |v.voters|
            && Increasing(h.trustedPeers) && (forall p :: p in h.trustedPeers <==> p in trust)
            && |h.trustedPeers| == |trust|
            && (h.InCluster() <==> v.voters != {})
            && (h.IsLeader() <==> self !in v.learners && v.voters + v.learners != {} && v.leader == Some(self))
  {}
}
