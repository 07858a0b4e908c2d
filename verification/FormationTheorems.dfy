/** Who can initialise a cluster, in every interleaving. */
module FormationTheorems {
  import opened LogNames
  import opened Ordered
  import opened Health
  import opened Formation

  lemma {:induction false} RunSnoc(s: Cluster, steps: seq<Step>, step: Step)
    requires LegalRun(s, steps) && Enabled(Run(s, steps), step)
    ensures LegalRun(s, steps + [step]) && Run(s, steps + [step]) == Do(Run(s, steps), step)
  {
    var longer := steps + [step];
    assert longer[..|longer| - 1] == steps && longer[|longer| - 1] == step;
  }

  lemma {:induction false} RunConcat(s: Cluster, a: seq<Step>, b: seq<Step>)
    requires LegalRun(s, a) && LegalRun(Run(s, a), b)
    ensures LegalRun(s, a + b) && Run(s, a + b) == Run(Run(s, a), b)
  {
    if b == [] {
      assert a + b == a;
    } else {
      var k := |b| - 1;
      RunConcat(s, a, b[..k]);
      assert Run(Run(s, a), b) == Do(Run(s, a + b[..k]), b[k]);
      RunSnoc(s, a + b[..k], b[k]);
      assert a + b == a + b[..k] + [b[k]];
    }
  }

  function Settled(s: Cluster): set<NodeId> {
    set i | i in s.nodes && !Pristine(s.nodes[i].raft)
  }

  lemma {:induction false} StaysSettled(s: Cluster, step: Step)
    requires Enabled(s, step)
    ensures !Pristine(s.nodes[step.node].raft) ==> !Pristine(NodeAfter(s, step).raft)
    ensures step.Initialise? && step.ok ==> Pristine(s.nodes[step.node].raft) && !Pristine(NodeAfter(s, step).raft)
  {
    if step.Initialise? && step.ok { assert step.node in NodeAfter(s, step).raft.voters; }
  }

  lemma {:induction false} StepKeepsSettled(s: Cluster, step: Step)
    requires Enabled(s, step)
    ensures Do(s, step).nodes.Keys == s.nodes.Keys
    ensures Settled(s) <= Settled(Do(s, step))
    ensures step.Initialise? && step.ok ==> step.node in Settled(Do(s, step)) && step.node !in Settled(s)
  {
    StaysSettled(s, step);
  }

  // ------------------------------------------- what is asked and found, exactly

  /** Who is ready: this node with two trusted peers, and each trusted peer whose answer says
      that it is bootstrapping without a cluster and trusts two peers, this node among them. */
  lemma {:induction false} ReadyExactly(self: NodeId, ours: set<NodeId>, seen: map<NodeId, HealthResponse>, p: NodeId)
    ensures p in ReadySet(self, ours, seen) <==>
              || (p == self && |ours| >= 2)
              || (p in ours && p in seen && seen[p].status.Bootstrapping? && seen[p].clusterSize == 0
                  && |seen[p].trustedPeers| >= 2 && self in seen[p].trustedPeers)
  {}

  /** Who wins: the lowest of three or more. */
  lemma {:induction false} ElectsExactly(self: NodeId, ready: set<NodeId>)
    ensures Elects(self, ready) <==> |ready| >= 3 && self in ready && forall p :: p in ready ==> self <= p
  {}

  /** What ends a scan early: a leader of a cluster, or any member of one. */
  lemma {:induction false} FoundExactly(scan: Scan)
    ensures scan.goal.FindLeader? ==>
              (Found(scan) <==>
                exists p :: p in scan.seen && scan.seen[p].clusterSize > 0 && scan.seen[p].status.Leader?)
    ensures scan.goal.FindCluster? ==> (Found(scan) <==> exists p :: p in scan.seen && scan.seen[p].clusterSize > 0)
    ensures scan.goal.FindReady? ==> !Found(scan)
  {}

  // ------------------------------------------------------------ no overtaking

  predicate HasScan(n: Node) {
    n.activity.Scanning? || n.activity.Initialising?
  }

  /** Answers are consistent, and whoever answered that it has a membership still has one. */
  predicate AnswersHold(settled: set<NodeId>, n: Node) {
    HasScan(n) ==>
    forall p :: p in n.activity.scan.seen ==>
      && (n.activity.scan.seen[p].status.Bootstrapping? ==> n.activity.scan.seen[p].clusterSize == 0)
      && (!n.activity.scan.seen[p].status.Bootstrapping? ==> p in settled)
  }

  /** Only the winner of a completed scan gets to call `initialize_cluster`. */
  predicate WonElection(self: NodeId, n: Node) {
    n.activity.Initialising? ==>
    && n.activity.scan.pending == []
    && Elects(self, ReadySet(self, n.activity.scan.ours, n.activity.scan.seen))
  }

  predicate General(s: Cluster) {
    forall i :: i in s.nodes ==> NodeFine(Settled(s), i, s.nodes[i])
  }

  predicate NodeFine(settled: set<NodeId>, i: NodeId, n: Node) {
    AnswersHold(settled, n) && WonElection(i, n) && PendingOurs(n)
  }

  predicate PendingOurs(n: Node) {
    HasScan(n) ==>
    && n.activity.scan.seen.Keys <= n.activity.scan.ours
    && forall p :: p in n.activity.scan.pending ==> p in n.activity.scan.ours
  }

  /** A finished scan ends in rest, in the second scan of a waiting node, or in a won election. */
  predicate Outcome(i: NodeId, n: Node, scan: Scan, after: Node) {
    && after.trust == n.trust && after.raft == n.raft
    && (|| after.activity.Idle?
        || after == n.(activity := Scanning(NewScan(FindReady, n.trust)))
        || (after.activity == Initialising(scan) && Elects(i, ReadySet(i, scan.ours, scan.seen))))
  }

  lemma {:induction false} ReadyOutcome(i: NodeId, n: Node, scan: Scan)
    ensures Outcome(i, n, scan, DecideReady(i, n, scan, ReadySet(i, scan.ours, scan.seen)))
  {}

  lemma {:induction false} DecisionShape(i: NodeId, n: Node, scan: Scan)
    requires scan.pending == [] || Found(scan)
    ensures Outcome(i, n, scan, Decide(i, n, scan))
    ensures Decide(i, n, scan).activity.Initialising? ==> scan.pending == []
  {
    if scan.goal.FindReady? { ReadyOutcome(i, n, scan); }
  }

  lemma {:induction false} BegunFine(settled: set<NodeId>, i: NodeId, n: Node, goal: Goal)
    ensures NodeFine(settled, i, n.(activity := Scanning(NewScan(goal, n.trust))))
  {
    assert ToSet(Ascending(n.trust)) == n.trust;
  }

  lemma {:induction false} DecidedFine(settled: set<NodeId>, i: NodeId, n: Node)
    requires NodeFine(settled, i, n) && n.activity.Scanning?
    requires n.activity.scan.pending == [] || Found(n.activity.scan)
    ensures NodeFine(settled, i, Decide(i, n, n.activity.scan))
  {
    DecisionShape(i, n, n.activity.scan);
    if Decide(i, n, n.activity.scan).activity.Scanning? { BegunFine(settled, i, n, FindReady); }
  }

  lemma {:induction false} AskedFine(settled: set<NodeId>, i: NodeId, n: Node, h: Option<HealthResponse>)
    requires NodeFine(settled, i, n) && n.activity.Scanning? && n.activity.scan.pending != []
    requires h.Some? ==>
      && (h.value.status.Bootstrapping? ==> h.value.clusterSize == 0)
      && (!h.value.status.Bootstrapping? ==> n.activity.scan.pending[0] in settled)
    ensures NodeFine(settled, i, Asked(n, h))
  {
    assert n.activity.scan.pending[0] in n.activity.scan.pending;
  }

  lemma {:induction false} QueryFine(s: Cluster, i: NodeId, answered: bool)
    requires General(s) && Enabled(s, Query(i, answered))
    ensures NodeFine(Settled(s), i, NodeAfter(s, Query(i, answered)))
  {
    var n := s.nodes[i];
    assert NodeFine(Settled(s), i, n);
    if answered {
      var p := n.activity.scan.pending[0];
      ReadyMeansPristine(p, s.nodes[p].raft, s.nodes[p].trust, i, 0);
      AskedFine(Settled(s), i, n, Some(HealthAt(s, p)));
    } else {
      AskedFine(Settled(s), i, n, None);
    }
  }

  lemma {:induction false} ActorStaysFine(s: Cluster, step: Step)
    requires General(s) && Enabled(s, step)
    ensures NodeFine(Settled(s), step.node, NodeAfter(s, step))
  {
    var n := s.nodes[step.node];
    assert NodeFine(Settled(s), step.node, n);
    match step
    case Query(_, answered) => QueryFine(s, step.node, answered);
    case Begin(_) => BegunFine(Settled(s), step.node, n, GoalOf(n.phase));
    case Finish(_) => DecidedFine(Settled(s), step.node, n);
    case _ =>
  }

  lemma {:induction false} RunGeneral(s: Cluster, steps: seq<Step>)
    requires Start(s) && LegalRun(s, steps)
    ensures General(Run(s, steps))
  {
    if steps != [] {
      var k := |steps| - 1;
      var t, step := Run(s, steps[..k]), steps[k];
      RunGeneral(s, steps[..k]);
      StepKeepsSettled(t, step);
      ActorStaysFine(t, step);
      forall i | i in Do(t, step).nodes ensures NodeFine(Settled(Do(t, step)), i, Do(t, step).nodes[i]) {
        assert NodeFine(Settled(t), i, Do(t, step).nodes[i]);
      }
    }
  }

  lemma {:induction false} LowerPeerWasNotReady(settled: set<NodeId>, b: NodeId, n: Node, a: NodeId)
    requires NodeFine(settled, b, n) && n.activity.Initialising? && a < b && a in n.activity.scan.seen
    requires b in n.activity.scan.seen[a].trustedPeers
    requires |n.activity.scan.seen[a].trustedPeers| >= MIN_PEERS_FOR_BOOTSTRAP
    ensures !n.activity.scan.seen[a].ReadyForBootstrap(MIN_PEERS_FOR_BOOTSTRAP)
  {
    var scan := n.activity.scan;
    assert scan.seen[a].IsMutuallyReady(b, MIN_PEERS_FOR_BOOTSTRAP) ==> a in ReadySet(b, scan.ours, scan.seen);
  }

  /** No overtaking: when a node is about to initialise a cluster, in any run with any
      changes of trust and any lost answers, every lower-numbered peer that answered
      its final scan, trusted it then and trusted two peers, had left the
      bootstrapping state when asked, and still has. */
  lemma {:induction false} NoOvertaking(s: Cluster, steps: seq<Step>, b: NodeId, a: NodeId)
    requires Start(s) && LegalRun(s, steps) && b in Run(s, steps).nodes
    requires Run(s, steps).nodes[b].activity.Initialising?
    requires var seen := Run(s, steps).nodes[b].activity.scan.seen;
             a < b && a in seen && b in seen[a].trustedPeers && |seen[a].trustedPeers| >= MIN_PEERS_FOR_BOOTSTRAP
    ensures !Run(s, steps).nodes[b].activity.scan.seen[a].status.Bootstrapping?
    ensures a in Settled(Run(s, steps))
  {
    var t := Run(s, steps);
    RunGeneral(s, steps);
    assert NodeFine(Settled(t), b, t.nodes[b]);
    LowerPeerWasNotReady(Settled(t), b, t.nodes[b], a);
  }

  /** The answers of an atomic scan in which every trusted peer that exists answers. */
  function AllAnswers(s: Cluster, i: NodeId): map<NodeId, HealthResponse>
    requires i in s.nodes
  {
    map p | p in s.nodes[i].trust && p in s.nodes :: HealthAt(s, p)
  }

  /** Two nodes that trust each other and have no membership yet never both elect
      themselves from the same state. */
  lemma {:induction false} NoTwinElection(s: Cluster, a: NodeId, b: NodeId)
    requires a in s.nodes && b in s.nodes && a < b
    requires a in s.nodes[b].trust && b in s.nodes[a].trust
    requires Pristine(s.nodes[a].raft)
    requires Elects(a, ReadySet(a, s.nodes[a].trust, AllAnswers(s, a)))
    ensures !Elects(b, ReadySet(b, s.nodes[b].trust, AllAnswers(s, b)))
  {
    assert a in ReadySet(a, s.nodes[a].trust, AllAnswers(s, a));
    ReadyMeansPristine(a, s.nodes[a].raft, s.nodes[a].trust, b, MIN_PEERS_FOR_BOOTSTRAP);
    assert AllAnswers(s, b)[a] == HealthAt(s, a);
    if |s.nodes[a].trust| >= MIN_PEERS_FOR_BOOTSTRAP {
      assert a in ReadySet(b, s.nodes[b].trust, AllAnswers(s, b));
    }
  }

  // ------------------------------------------------------- initial membership

  /** The members handed to OpenRaft are the bootstrapper and the ready peers it still
      trusts; they are the whole ready set, three nodes at least, exactly when no
      ready peer was revoked since the scan. */
  lemma {:induction false} InitialMembership(s: Cluster, steps: seq<Step>, i: NodeId)
    requires Start(s) && LegalRun(s, steps) && Enabled(Run(s, steps), Initialise(i, true))
    ensures var t := Run(s, steps);
            var n := t.nodes[i];
            var ready := ReadySet(i, n.activity.scan.ours, n.activity.scan.seen);
            var voters := Do(t, Initialise(i, true)).nodes[i].raft.voters;
            && (forall p :: p in voters <==> p == i || (p in ready && p in n.trust))
            && (voters == ready <==> ready - {i} <= n.trust)
            && (ready - {i} <= n.trust ==> |voters| >= BOOTSTRAP_QUORUM)
  {
    var t := Run(s, steps);
    RunGeneral(s, steps);
    assert NodeFine(Settled(t), i, t.nodes[i]);
    var scan := t.nodes[i].activity.scan;
    assert i in ReadySet(i, scan.ours, scan.seen);
  }

  // -------------------------------------- order and number of the initialisers

  /** Everybody trusts everybody else. */
  predicate CompleteTrust(s: Cluster) {
    forall i :: i in s.nodes ==> s.nodes[i].trust == s.nodes.Keys - {i}
  }

  /** Trust does not change and every question is answered. */
  predicate Calm(steps: seq<Step>) {
    forall k :: 0 <= k < |steps| ==> CalmStep(steps[k])
  }

  predicate CalmStep(step: Step) {
    !step.Trust? && !step.Distrust? && (step.Query? ==> step.answered)
  }

  function Above(all: set<NodeId>, b: NodeId): set<NodeId> {
    set x | x in all && b < x
  }

  predicate CalmNode(all: set<NodeId>, settled: set<NodeId>, i: NodeId, n: Node) {
    && n.trust == all - {i}
    && WonElection(i, n)
    && (HasScan(n) ==>
         && n.activity.scan.ours == all - {i}
         && n.activity.scan.seen.Keys + ToSet(n.activity.scan.pending) == all - {i}
         && (|all| >= BOOTSTRAP_QUORUM ==> forall p :: p in n.activity.scan.seen ==>
              n.activity.scan.seen[p].IsMutuallyReady(i, MIN_PEERS_FOR_BOOTSTRAP) || p in settled))
  }

  predicate LowerSettled(all: set<NodeId>, settled: set<NodeId>, b: NodeId) {
    forall a :: a in all && a <= b ==> a in settled
  }

  ghost predicate HistoryFine(all: set<NodeId>, settled: set<NodeId>, h: seq<NodeId>) {
    && Increasing(h)
    && forall b :: b in h ==> b in all && LowerSettled(all, settled, b) && |Above(all, b)| >= 2
  }

  ghost predicate CalmState(s: Cluster) {
    && (forall i :: i in s.nodes ==> CalmNode(s.nodes.Keys, Settled(s), i, s.nodes[i]))
    && HistoryFine(s.nodes.Keys, Settled(s), s.initialised)
  }

  lemma {:induction false} AnswerTells(s: Cluster, i: NodeId, p: NodeId)
    requires CalmState(s) && |s.nodes.Keys| >= BOOTSTRAP_QUORUM && i in s.nodes && p in s.nodes && p != i
    ensures HealthAt(s, p).IsMutuallyReady(i, MIN_PEERS_FOR_BOOTSTRAP) || p in Settled(s)
  {
    var all := s.nodes.Keys;
    assert CalmNode(all, Settled(s), p, s.nodes[p]);
    assert |all - {p}| == |all| - 1;
    ReadyMeansPristine(p, s.nodes[p].raft, s.nodes[p].trust, i, MIN_PEERS_FOR_BOOTSTRAP);
  }

  lemma {:induction false} AskedCalm(all: set<NodeId>, settled: set<NodeId>, i: NodeId, n: Node, h: HealthResponse)
    requires CalmNode(all, settled, i, n) && n.activity.Scanning? && n.activity.scan.pending != []
    requires |all| >= BOOTSTRAP_QUORUM ==>
               h.IsMutuallyReady(i, MIN_PEERS_FOR_BOOTSTRAP) || n.activity.scan.pending[0] in settled
    ensures CalmNode(all, settled, i, Asked(n, Some(h)))
  {
    var pending := n.activity.scan.pending;
    assert pending == [pending[0]] + pending[1..];
    assert ToSet(pending) == {pending[0]} + ToSet(pending[1..]);
  }

  lemma {:induction false} CalmQuery(s: Cluster, i: NodeId)
    requires CalmState(s) && Enabled(s, Query(i, true))
    ensures CalmNode(s.nodes.Keys, Settled(s), i, NodeAfter(s, Query(i, true)))
  {
    var n := s.nodes[i];
    assert CalmNode(s.nodes.Keys, Settled(s), i, n);
    var p := n.activity.scan.pending[0];
    assert p in ToSet(n.activity.scan.pending);
    if |s.nodes.Keys| >= BOOTSTRAP_QUORUM { AnswerTells(s, i, p); }
    AskedCalm(s.nodes.Keys, Settled(s), i, n, HealthAt(s, p));
  }

  lemma {:induction false} BegunCalm(all: set<NodeId>, settled: set<NodeId>, i: NodeId, n: Node, goal: Goal)
    requires CalmNode(all, settled, i, n)
    ensures CalmNode(all, settled, i, n.(activity := Scanning(NewScan(goal, n.trust))))
  {
    assert ToSet(Ascending(n.trust)) == n.trust;
  }

  lemma {:induction false} DecidedCalm(all: set<NodeId>, settled: set<NodeId>, i: NodeId, n: Node)
    requires CalmNode(all, settled, i, n) && n.activity.Scanning?
    requires n.activity.scan.pending == [] || Found(n.activity.scan)
    ensures CalmNode(all, settled, i, Decide(i, n, n.activity.scan))
  {
    DecisionShape(i, n, n.activity.scan);
    if Decide(i, n, n.activity.scan).activity.Scanning? {
      BegunCalm(all, settled, i, n, FindReady);
    }
  }

  lemma {:induction false} CalmActor(s: Cluster, step: Step)
    requires CalmState(s) && Enabled(s, step) && CalmStep(step)
    ensures CalmNode(s.nodes.Keys, Settled(s), step.node, NodeAfter(s, step))
  {
    var n := s.nodes[step.node];
    assert CalmNode(s.nodes.Keys, Settled(s), step.node, n);
    match step
    case Query(_, _) => CalmQuery(s, step.node);
    case Begin(_) => BegunCalm(s.nodes.Keys, Settled(s), step.node, n, GoalOf(n.phase));
    case Finish(_) => DecidedCalm(s.nodes.Keys, Settled(s), step.node, n);
    case _ =>
  }

  /** The winner of an election is below two others, and above only settled nodes. */
  lemma {:induction false} WinnerIsNext(all: set<NodeId>, settled: set<NodeId>, b: NodeId, n: Node)
    requires CalmNode(all, settled, b, n) && n.activity.Initialising? && b in all
    ensures forall a :: a in all && a < b ==> a in settled
    ensures |Above(all, b)| >= 2
  {
    var scan := n.activity.scan;
    var ready := ReadySet(b, scan.ours, scan.seen);
    assert ready <= all;
    Contained(ready, all);
    forall a | a in all && a < b ensures a in settled {
      assert a in all - {b} && ToSet(scan.pending) == {};
      assert a !in ready;
    }
    assert ready - {b} <= Above(all, b);
    Contained(ready - {b}, Above(all, b));
  }

  lemma {:induction false} Contained(a: set<NodeId>, b: set<NodeId>)
    requires a <= b
    ensures |a| <= |b|
  {
    if a != {} {
      var x :| x in a;
      Contained(a - {x}, b - {x});
    }
  }

  lemma {:induction false} HistoryGrows(all: set<NodeId>, before: set<NodeId>, after: set<NodeId>,
      h: seq<NodeId>, b: NodeId)
    requires HistoryFine(all, before, h) && before <= after && b in all && b !in before && b in after
    requires forall a :: a in all && a < b ==> a in before
    requires |Above(all, b)| >= 2
    ensures HistoryFine(all, after, h + [b])
  {
    forall k | 0 <= k < |h| ensures h[k] < b {
      assert h[k] in h && LowerSettled(all, before, h[k]);
    }
    forall c | c in h + [b] ensures c in all && LowerSettled(all, after, c) && |Above(all, c)| >= 2 {
      assert c != b ==> c in h && LowerSettled(all, before, c);
    }
  }

  lemma {:induction false} CalmStepKeeps(s: Cluster, step: Step)
    requires CalmState(s) && Enabled(s, step) && CalmStep(step)
    ensures CalmState(Do(s, step))
  {
    var t := Do(s, step);
    var all := s.nodes.Keys;
    StepKeepsSettled(s, step);
    CalmActor(s, step);
    forall i | i in t.nodes ensures CalmNode(t.nodes.Keys, Settled(t), i, t.nodes[i]) {
      assert CalmNode(all, Settled(s), i, t.nodes[i]);
    }
    if step.Initialise? && step.ok {
      WinnerIsNext(all, Settled(s), step.node, s.nodes[step.node]);
      HistoryGrows(all, Settled(s), Settled(t), s.initialised, step.node);
    } else {
      forall b | b in t.initialised ensures LowerSettled(all, Settled(t), b) {
        assert LowerSettled(all, Settled(s), b);
      }
    }
  }

  lemma {:induction false} RunCalm(s: Cluster, steps: seq<Step>)
    requires Start(s) && CompleteTrust(s)
    requires LegalRun(s, steps) && Calm(steps)
    ensures CalmState(Run(s, steps)) && Run(s, steps).nodes.Keys == s.nodes.Keys
  {
    if steps != [] {
      var k := |steps| - 1;
      RunCalm(s, steps[..k]);
      CalmStepKeeps(Run(s, steps[..k]), steps[k]);
    }
  }

  /** In complete trust with every question answered, in every interleaving, a node about to
      initialise is below two others and above only nodes that have a membership. */
  lemma {:induction false} InitialiserIsNext(s: Cluster, steps: seq<Step>, b: NodeId)
    requires Start(s) && CompleteTrust(s)
    requires LegalRun(s, steps) && Calm(steps)
    requires b in Run(s, steps).nodes && Run(s, steps).nodes[b].activity.Initialising?
    ensures forall a :: a in s.nodes && a < b ==> a in Settled(Run(s, steps))
    ensures |Above(s.nodes.Keys, b)| >= 2
  {
    RunCalm(s, steps);
    WinnerIsNext(s.nodes.Keys, Settled(Run(s, steps)), b, Run(s, steps).nodes[b]);
  }

  /** Bootstrap order and bound: among n nodes in complete mutual trust with every
      question answered, in every interleaving, the nodes whose initialisation
      succeeds do so in strictly increasing order of node id, and there are at most
      n - 2 of them, or none if n is less than 3: at most one when n is 3. */
  lemma {:induction false} BootstrapOrderAndBound(s: Cluster, steps: seq<Step>)
    requires Start(s) && CompleteTrust(s)
    requires LegalRun(s, steps) && Calm(steps)
    ensures Increasing(Run(s, steps).initialised)
    ensures |Run(s, steps).initialised| <= if |s.nodes| < BOOTSTRAP_QUORUM then 0 else |s.nodes| - 2
  {
    RunCalm(s, steps);
    HistoryBound(s.nodes.Keys, Settled(Run(s, steps)), Run(s, steps).initialised);
  }

  lemma {:induction false} HistoryBound(all: set<NodeId>, settled: set<NodeId>, h: seq<NodeId>)
    requires HistoryFine(all, settled, h)
    ensures h == [] || |h| + 2 <= |all|
  {
    if h != [] {
      var b := h[|h| - 1];
      assert b in h;
      IncreasingCard(h);
      assert forall x :: x in h ==> x <= b;
      assert ToSet(h) !! Above(all, b);
      assert |ToSet(h) + Above(all, b)| == |h| + |Above(all, b)|;
      Contained(ToSet(h) + Above(all, b), all);
    }
  }
}
