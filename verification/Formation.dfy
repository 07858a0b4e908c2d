/** Cluster formation: n coordinators whose scans interleave query by query. */
module Formation {
  import opened LogNames
  import opened Ordered
  import opened Health

  datatype Phase =
    | WaitingForPeers | CheckingCluster | CoordinatingBootstrap | Bootstrapping
    | WaitingForBootstrap | Joining | ClusterActive

  datatype Goal = FindLeader | FindCluster | FindReady

  /** A scan of the peers trusted when it began: those still to ask, and the answers. */
  datatype Scan = Scan(goal: Goal, ours: set<NodeId>, pending: seq<NodeId>, seen: map<NodeId, HealthResponse>)

  datatype Activity = Idle | Scanning(scan: Scan) | Initialising(scan: Scan)

  datatype Node = Node(trust: set<NodeId>, raft: RaftView, phase: Phase, activity: Activity)

  /** All nodes, and the history of successful `initialize_cluster` calls. */
  datatype Cluster = Cluster(nodes: map<NodeId, Node>, initialised: seq<NodeId>)

  /** `build_mutual_ready_set`, from the peers trusted and the answers received. */
  function ReadySet(self: NodeId, ours: set<NodeId>, seen: map<NodeId, HealthResponse>): set<NodeId> {
    (if |ours| >= MIN_PEERS_FOR_BOOTSTRAP then {self} else {})
    + set p | p in ours && p in seen && seen[p].IsMutuallyReady(self, MIN_PEERS_FOR_BOOTSTRAP)
  }

  predicate Elects(self: NodeId, ready: set<NodeId>) {
    |ready| >= BOOTSTRAP_QUORUM && ready != {} && Least(ready) == self
  }

  predicate Found(scan: Scan) {
    match scan.goal
    case FindLeader => exists p :: p in scan.seen && scan.seen[p].InCluster() && scan.seen[p].IsLeader()
    case FindCluster => exists p :: p in scan.seen && scan.seen[p].InCluster()
    case FindReady => false
  }

  function NewScan(goal: Goal, trust: set<NodeId>): Scan {
    Scan(goal, trust, Ascending(trust), map[])
  }

  /** The member set handed to OpenRaft: self and the ready peers still trusted. */
  function Members(self: NodeId, ready: set<NodeId>, trustNow: set<NodeId>): set<NodeId> {
    (ready * trustNow) + {self}
  }

  // ------------------------------------------------------------------- steps

  /** Trust and Distrust: the registry. Replicate: OpenRaft. The rest: the coordinator. */
  datatype Step =
    | Trust(node: NodeId, peer: NodeId)
    | Distrust(node: NodeId, peer: NodeId)
    | Replicate(node: NodeId, view: RaftView)
    | Wake(node: NodeId)
    | Begin(node: NodeId)
    | Query(node: NodeId, answered: bool)
    | Finish(node: NodeId)
    | Initialise(node: NodeId, ok: bool)
    | Timeout(node: NodeId)
    | Joined(node: NodeId)
    | Restart(node: NodeId)

  predicate Enabled(s: Cluster, step: Step) {
    step.node in s.nodes &&
    var n := s.nodes[step.node];
    match step
    case Trust(_, _) => true
    case Distrust(_, _) => true
    case Replicate(_, view) => !Pristine(n.raft) ==> !Pristine(view)
    case Wake(_) => n.phase.WaitingForPeers? && |n.trust| >= MIN_PEERS_FOR_BOOTSTRAP
    case Begin(_) =>
      && n.activity.Idle?
      && (|| n.phase.CheckingCluster? || n.phase.CoordinatingBootstrap?
          || n.phase.Bootstrapping? || n.phase.WaitingForBootstrap?)
    case Query(_, answered) =>
      && n.activity.Scanning? && n.activity.scan.pending != [] && !Found(n.activity.scan)
      && (answered ==> n.activity.scan.pending[0] in s.nodes && n.activity.scan.pending[0] in n.trust)
    case Finish(_) => n.activity.Scanning? && (n.activity.scan.pending == [] || Found(n.activity.scan))
    case Initialise(_, ok) => n.activity.Initialising? && (ok ==> Pristine(n.raft))
    case Timeout(_) => n.activity.Idle? && (n.phase.WaitingForBootstrap? || n.phase.Joining?)
    case Joined(_) =>
      n.phase.Joining? && StatusOf(step.node, n.raft).InCluster() && !StatusOf(step.node, n.raft).Learner?
    case Restart(_) => true
  }

  function GoalOf(phase: Phase): Goal {
    match phase
    case CheckingCluster => FindLeader
    case WaitingForBootstrap => FindCluster
    case _ => FindReady
  }

  /** What a node does when its scan is over. */
  function Decide(self: NodeId, n: Node, scan: Scan): Node {
    match scan.goal
    case FindLeader => n.(phase := if Found(scan) then Joining else CoordinatingBootstrap, activity := Idle)
    case FindCluster =>
      if Found(scan) then n.(phase := Joining, activity := Idle)
      else n.(activity := Scanning(NewScan(FindReady, n.trust)))
    case FindReady => DecideReady(self, n, scan, ReadySet(self, scan.ours, scan.seen))
  }

  function DecideReady(self: NodeId, n: Node, scan: Scan, ready: set<NodeId>): Node {
    match n.phase
    case CoordinatingBootstrap =>
      n.(phase := if |ready| < BOOTSTRAP_QUORUM then CoordinatingBootstrap
                  else if Elects(self, ready) then Phase.Bootstrapping else WaitingForBootstrap,
         activity := Idle)
    case Bootstrapping =>
      if |ready| < BOOTSTRAP_QUORUM then n.(phase := CoordinatingBootstrap, activity := Idle)
      else if !Elects(self, ready) then n.(phase := WaitingForBootstrap, activity := Idle)
      else n.(activity := Initialising(scan))
    case _ =>
      n.(phase := if Elects(self, ready) then Phase.Bootstrapping else n.phase, activity := Idle)
  }

  function Asked(n: Node, answer: Option<HealthResponse>): Node
    requires n.activity.Scanning? && n.activity.scan.pending != []
  {
    var scan := n.activity.scan;
    var seen := if answer.Some? then scan.seen[scan.pending[0] := answer.value] else scan.seen;
    n.(activity := Scanning(scan.(pending := scan.pending[1..], seen := seen)))
  }

  function HealthAt(s: Cluster, p: NodeId): HealthResponse
    requires p in s.nodes
  {
    HealthOf(p, s.nodes[p].raft, s.nodes[p].trust)
  }

  /** The acting node after its step. */
  function NodeAfter(s: Cluster, step: Step): Node
    requires Enabled(s, step)
  {
    var i, n := step.node, s.nodes[step.node];
    match step
    case Trust(_, p) => n.(trust := n.trust + {p})
    case Distrust(_, p) => n.(trust := n.trust - {p})
    case Replicate(_, view) => n.(raft := view)
    case Wake(_) => n.(phase := CheckingCluster)
    case Begin(_) => n.(activity := Scanning(NewScan(GoalOf(n.phase), n.trust)))
    case Query(_, answered) =>
      Asked(n, if answered then Some(HealthAt(s, n.activity.scan.pending[0])) else None)
    case Finish(_) => Decide(i, n, n.activity.scan)
    case Initialise(_, ok) =>
      if !ok then n.(phase := CoordinatingBootstrap, activity := Idle) else
        var ready := ReadySet(i, n.activity.scan.ours, n.activity.scan.seen);
        n.(raft := n.raft.(voters := Members(i, ready, n.trust)), phase := ClusterActive, activity := Idle)
    case Timeout(_) =>
      n.(phase := if n.phase.WaitingForBootstrap? then CoordinatingBootstrap else WaitingForPeers)
    case Joined(_) => n.(phase := ClusterActive)
    case Restart(_) => n.(phase := WaitingForPeers, activity := Idle)
  }

  function Do(s: Cluster, step: Step): Cluster
    requires Enabled(s, step)
  {
    Cluster(
      s.nodes[step.node := NodeAfter(s, step)],
      if step.Initialise? && step.ok then s.initialised + [step.node] else s.initialised)
  }

  predicate LegalRun(s: Cluster, steps: seq<Step>)
    decreases |steps|, 0
  {
    steps == [] ||
    (LegalRun(s, steps[..|steps| - 1]) && Enabled(Run(s, steps[..|steps| - 1]), steps[|steps| - 1]))
  }

  function Run(s: Cluster, steps: seq<Step>): Cluster
    requires LegalRun(s, steps)
    decreases |steps|, 1
  {
    if steps == [] then s else Do(Run(s, steps[..|steps| - 1]), steps[|steps| - 1])
  }

  /** Every coordinator is about to start; memberships may be there already. */
  predicate Start(s: Cluster) {
    s.initialised == [] &&
    forall i :: i in s.nodes ==> s.nodes[i].phase.WaitingForPeers? && s.nodes[i].activity.Idle?
  }
}
