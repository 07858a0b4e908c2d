/** The moves of one coordinator, from the answers it gets, without the rest of the cluster. */
module LocalMoves {
  import opened LogNames
  import opened Health
  import opened Formation

  /** What the peers answered. A peer that did not answer has no entry; nor has one that was
      revoked before its address was looked up, which the loops pass over in the same way. */
  type Answers = map<NodeId, HealthResponse>

  /** The answers of these peers. */
  function Heard(trusted: set<NodeId>, answers: Answers): Answers {
    map p | p in trusted && p in answers :: answers[p]
  }

  lemma {:induction false} ReadyHeard(i: NodeId, trust: set<NodeId>, answers: Answers)
    ensures ReadySet(i, trust, Heard(trust, answers)) == ReadySet(i, trust, answers)
  {}

  function ScanOf(goal: Goal, trusted: set<NodeId>, answers: Answers): Scan {
    Scan(goal, trusted, [], Heard(trusted, answers))
  }

  /** The phase Formation puts a node in when that scan ends. */
  function Decided(self: NodeId, phase: Phase, goal: Goal, trusted: set<NodeId>, answers: Answers): Node {
    var scan := ScanOf(goal, trusted, answers);
    Decide(self, Node(trusted, RaftView({}, {}, None, 0), phase, Scanning(scan)), scan)
  }

  /** What a coordinator and its OpenRaft node hold between two rounds of `run`. */
  datatype Local = Local(phase: Phase, trust: set<NodeId>, view: RaftView)

  function NodeOf(l: Local): Node {
    Node(l.trust, l.view, l.phase, Idle)
  }

  /** What one round of `run` may do, timeouts being free to happen. `again` are the answers
      to the second scan of a waiting node. */
  predicate Moves(self: NodeId, before: Local, answers: Answers, again: Answers, after: Local) {
    match before.phase
    case WaitingForPeers =>
      after == before.(phase := if |before.trust| >= MIN_PEERS_FOR_BOOTSTRAP then CheckingCluster else before.phase)
    case CheckingCluster =>
      after == before.(phase := Decided(self, before.phase, FindLeader, before.trust, answers).phase)
    case CoordinatingBootstrap =>
      after == before.(phase := Decided(self, before.phase, FindReady, before.trust, answers).phase)
    case Bootstrapping => Bootstraps(self, before, answers, after)
    case WaitingForBootstrap =>
      || after == before.(phase := CoordinatingBootstrap)
      || after == before.(phase := WaitsOn(self, before, answers, again))
    case Joining =>
      || after == before || after == before.(phase := WaitingForPeers)
      || (after == before.(phase := ClusterActive)
          && StatusOf(self, before.view).InCluster() && !StatusOf(self, before.view).Learner?)
    case ClusterActive =>
      after == before.(view := after.view) && (!Pristine(before.view) ==> !Pristine(after.view))
  }

  predicate Bootstraps(self: NodeId, before: Local, answers: Answers, after: Local) {
    var ready := ReadySet(self, before.trust, answers);
    if !Elects(self, ready) then
      after == before.(phase := Decided(self, before.phase, FindReady, before.trust, answers).phase)
    else
      || (after.phase == CoordinatingBootstrap && after.view == before.view)
      || (after.phase == ClusterActive && Pristine(before.view)
          && after.view == before.view.(voters := Members(self, ready, after.trust)))
  }

  function WaitsOn(self: NodeId, before: Local, answers: Answers, again: Answers): Phase {
    if Found(ScanOf(FindCluster, before.trust, answers)) then Joining
    else if Elects(self, ReadySet(self, before.trust, again)) then Phase.Bootstrapping
    else before.phase
  }
}
