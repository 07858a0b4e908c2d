/** The bound of n - 2 initialisations is reached, for every n from 3 on. */
module FormationWorstCase {
  import opened LogNames
  import opened Ordered
  import opened Health
  import opened Formation
  import opened FormationTheorems

  ghost predicate CalmRun(s: Cluster, steps: seq<Step>, t: Cluster) {
    LegalRun(s, steps) && Calm(steps) && Run(s, steps) == t
  }

  /** Some calm run leads from `s` to `t`. */
  ghost predicate Reaches(s: Cluster, t: Cluster) {
    exists steps :: CalmRun(s, steps, t)
  }

  lemma {:induction false} ReachSelf(s: Cluster)
    ensures Reaches(s, s)
  {
    assert CalmRun(s, [], s);
  }

  lemma {:induction false} ReachStep(s: Cluster, step: Step)
    requires Enabled(s, step) && CalmStep(step)
    ensures Reaches(s, Do(s, step))
  {
    var one := [step];
    assert one == [] + [step] && one[0] == step;
    RunSnoc(s, [], step);
    assert Calm(one);
    assert CalmRun(s, one, Do(s, step));
  }

  lemma {:induction false} ReachOn(s: Cluster, t: Cluster, u: Cluster)
    requires Reaches(s, t) && Reaches(t, u)
    ensures Reaches(s, u)
  {
    var a :| CalmRun(s, a, t);
    var b :| CalmRun(t, b, u);
    RunConcat(s, a, b);
    assert CalmRun(s, a + b, u);
  }

  predicate NoLeader(s: Cluster) {
    forall p :: p in s.nodes ==> s.nodes[p].raft.leader == None
  }

  /** Node `i` of `s` replaced. */
  function With(s: Cluster, i: NodeId, n: Node): Cluster {
    s.(nodes := s.nodes[i := n])
  }

  function Answers(s: Cluster, peers: set<NodeId>): map<NodeId, HealthResponse>
    requires peers <= s.nodes.Keys
  {
    map p | p in peers :: HealthAt(s, p)
  }

  predicate Leaderless(seen: map<NodeId, HealthResponse>) {
    forall p :: p in seen ==> !seen[p].IsLeader()
  }

  /** Node `i` in the middle of a scan, all else as in `s`. */
  function At(s: Cluster, i: NodeId, scan: Scan): Cluster
    requires i in s.nodes
  {
    With(s, i, s.nodes[i].(activity := Scanning(scan)))
  }

  function OneAnswer(s: Cluster, scan: Scan): Scan
    requires scan.pending != [] && scan.pending[0] in s.nodes
  {
    scan.(pending := scan.pending[1..], seen := scan.seen[scan.pending[0] := HealthAt(s, scan.pending[0])])
  }

  predicate Askable(s: Cluster, i: NodeId, scan: Scan) {
    && i in s.nodes && NoLeader(s) && !scan.goal.FindCluster? && Leaderless(scan.seen)
    && forall k :: 0 <= k < |scan.pending| ==> scan.pending[k] in s.nodes && scan.pending[k] in s.nodes[i].trust
  }

  lemma {:induction false} StaysAskable(s: Cluster, i: NodeId, scan: Scan)
    requires Askable(s, i, scan) && scan.pending != []
    ensures Askable(s, i, OneAnswer(s, scan))
  {
    assert !HealthAt(s, scan.pending[0]).IsLeader();
  }

  lemma {:induction false} NotFound(scan: Scan)
    requires !scan.goal.FindCluster? && Leaderless(scan.seen)
    ensures !Found(scan)
  {}

  lemma {:induction false} SameHealthAt(s: Cluster, i: NodeId, scan: Scan, p: NodeId)
    requires i in s.nodes && p in s.nodes
    ensures HealthAt(At(s, i, scan), p) == HealthAt(s, p)
  {}

  lemma {:induction false} WithTwice(s: Cluster, i: NodeId, m: Node, n: Node)
    ensures With(With(s, i, m), i, n) == With(s, i, n)
  {}

  lemma {:induction false} AskOne(s: Cluster, i: NodeId, scan: Scan)
    requires Askable(s, i, scan) && scan.pending != []
    ensures Enabled(At(s, i, scan), Query(i, true))
    ensures Do(At(s, i, scan), Query(i, true)) == At(s, i, OneAnswer(s, scan))
  {
    var u := At(s, i, scan);
    NotFound(scan);
    assert u.nodes[i] == s.nodes[i].(activity := Scanning(scan));
    SameHealthAt(s, i, scan, scan.pending[0]);
    var after := s.nodes[i].(activity := Scanning(OneAnswer(s, scan)));
    assert NodeAfter(u, Query(i, true)) == after;
    WithTwice(s, i, u.nodes[i], after);
  }

  /** All questions of a scan asked and answered, with nothing else happening. */
  lemma {:induction false} AskAll(s: Cluster, i: NodeId, scan: Scan) returns (done: Scan)
    requires Askable(s, i, scan)
    ensures Reaches(At(s, i, scan), At(s, i, done))
    ensures done.goal == scan.goal && done.ours == scan.ours && done.pending == []
    ensures Collected(s, scan, done)
    decreases |scan.pending|
  {
    if scan.pending == [] {
      done := scan;
      ReachSelf(At(s, i, scan));
    } else {
      var next := OneAnswer(s, scan);
      AskOne(s, i, scan);
      StaysAskable(s, i, scan);
      ReachStep(At(s, i, scan), Query(i, true));
      done := AskAll(s, i, next);
      ReachOn(At(s, i, scan), At(s, i, next), At(s, i, done));
      CollectedStep(s, scan, done);
    }
  }

  /** `done` holds the answers of `scan` and those of all its pending peers. */
  ghost predicate Collected(s: Cluster, scan: Scan, done: Scan) {
    forall p :: CollectedAt(s, scan, done, p)
  }

  predicate CollectedAt(s: Cluster, scan: Scan, done: Scan, p: NodeId) {
    && (p in done.seen <==> p in scan.seen || p in scan.pending)
    && (p in scan.seen && p !in scan.pending ==> done.seen[p] == scan.seen[p])
    && (p in scan.pending ==> p in s.nodes && done.seen[p] == HealthAt(s, p))
  }

  lemma {:induction false} CollectedStep(s: Cluster, scan: Scan, done: Scan)
    requires scan.pending != [] && scan.pending[0] in s.nodes
    requires Collected(s, OneAnswer(s, scan), done)
    ensures Collected(s, scan, done)
  {
    var first, rest := scan.pending[0], scan.pending[1..];
    assert scan.pending == [first] + rest;
    forall p ensures CollectedAt(s, scan, done, p) {
      assert CollectedAt(s, OneAnswer(s, scan), done, p);
      assert p in scan.pending <==> p == first || p in rest;
    }
  }

  function FullScan(s: Cluster, i: NodeId): Scan
    requires i in s.nodes && s.nodes[i].trust <= s.nodes.Keys
  {
    Scan(GoalOf(s.nodes[i].phase), s.nodes[i].trust, [], Answers(s, s.nodes[i].trust))
  }

  /** The node a complete, undisturbed scan turns node `i` into. */
  function Scanned(s: Cluster, i: NodeId): Node
    requires i in s.nodes && s.nodes[i].trust <= s.nodes.Keys
  {
    Decide(i, s.nodes[i].(activity := Scanning(FullScan(s, i))), FullScan(s, i))
  }

  lemma {:induction false} ScanBegins(s: Cluster, i: NodeId)
    requires Enabled(s, Begin(i)) && NoLeader(s) && s.nodes[i].trust <= s.nodes.Keys
    requires !s.nodes[i].phase.WaitingForBootstrap?
    ensures Do(s, Begin(i)) == At(s, i, NewScan(GoalOf(s.nodes[i].phase), s.nodes[i].trust))
    ensures Askable(s, i, NewScan(GoalOf(s.nodes[i].phase), s.nodes[i].trust))
  {
    AscendingWithin(s.nodes[i].trust);
  }

  lemma {:induction false} CollectedAll(s: Cluster, goal: Goal, trust: set<NodeId>, done: Scan)
    requires trust <= s.nodes.Keys && Collected(s, NewScan(goal, trust), done)
    ensures done.seen == Answers(s, trust)
  {
    AscendingWithin(trust);
    forall p ensures (p in done.seen <==> p in trust) && (p in trust ==> done.seen[p] == HealthAt(s, p)) {
      assert CollectedAt(s, NewScan(goal, trust), done, p);
      assert p in ToSet(Ascending(trust)) <==> p in Ascending(trust);
    }
  }

  lemma {:induction false} ScanEnds(s: Cluster, i: NodeId)
    requires i in s.nodes && s.nodes[i].trust <= s.nodes.Keys
    ensures Enabled(At(s, i, FullScan(s, i)), Finish(i))
    ensures Do(At(s, i, FullScan(s, i)), Finish(i)) == With(s, i, Scanned(s, i))
  {
    var u := At(s, i, FullScan(s, i));
    assert u.nodes[i].activity == Scanning(FullScan(s, i));
    assert NodeAfter(u, Finish(i)) == Decide(i, u.nodes[i], FullScan(s, i));
  }

  /** One whole scan of node `i`, undisturbed. */
  lemma {:induction false} ScanRound(s: Cluster, i: NodeId)
    requires Enabled(s, Begin(i)) && NoLeader(s) && s.nodes[i].trust <= s.nodes.Keys
    requires !s.nodes[i].phase.WaitingForBootstrap?
    ensures Reaches(s, With(s, i, Scanned(s, i)))
  {
    var goal, trust := GoalOf(s.nodes[i].phase), s.nodes[i].trust;
    ReachStep(s, Begin(i));
    ScanBegins(s, i);
    var done := AskAll(s, i, NewScan(goal, trust));
    CollectedAll(s, goal, trust, done);
    ReachOn(s, At(s, i, NewScan(goal, trust)), At(s, i, done));
    ScanEnds(s, i);
    ReachStep(At(s, i, done), Finish(i));
    ReachOn(s, At(s, i, done), With(s, i, Scanned(s, i)));
  }

  lemma {:induction false} AscendingWithin(trust: set<NodeId>)
    ensures ToSet(Ascending(trust)) == trust
    ensures forall k :: 0 <= k < |Ascending(trust)| ==> Ascending(trust)[k] in trust
  {}

  // ----------------------------------------------------------- the worst case

  ghost predicate Lists(order: seq<NodeId>, all: set<NodeId>) {
    (forall p :: p in order <==> p in all) && |order| == |all|
  }

  /** The `k` lowest nodes have initialised clusters of their own that have not spread
      yet; the others have not moved. */
  ghost predicate Stage(s: Cluster, order: seq<NodeId>, k: nat) {
    && Increasing(order) && Lists(order, s.nodes.Keys)
    && k <= |order| && s.initialised == order[..k]
    && CompleteTrust(s) && NoLeader(s)
    && forall j :: 0 <= j < |order| ==> order[j] in s.nodes && StageNode(s.nodes[order[j]], j < k)
  }

  predicate StageNode(n: Node, moved: bool) {
    && n.activity.Idle?
    && (if moved then !Pristine(n.raft) else Pristine(n.raft) && n.phase.WaitingForPeers?)
  }

  /** Node `i` in another phase, all else as in `s`. */
  function In(s: Cluster, i: NodeId, phase: Phase): Cluster
    requires i in s.nodes
  {
    With(s, i, s.nodes[i].(phase := phase))
  }

  lemma {:induction false} SameHealth(s: Cluster, i: NodeId, phase: Phase, p: NodeId)
    requires i in s.nodes && p in s.nodes
    ensures HealthAt(In(s, i, phase), p) == HealthAt(s, p)
  {}

  lemma {:induction false} SameAnswers(s: Cluster, i: NodeId, phase: Phase, trust: set<NodeId>)
    requires i in s.nodes && trust <= s.nodes.Keys
    ensures Answers(In(s, i, phase), trust) == Answers(s, trust)
  {
    forall p | p in trust ensures Answers(In(s, i, phase), trust)[p] == Answers(s, trust)[p] {
      SameHealth(s, i, phase, p);
    }
  }

  lemma {:induction false} NobodyFound(s: Cluster, trust: set<NodeId>)
    requires NoLeader(s) && trust <= s.nodes.Keys
    ensures Leaderless(Answers(s, trust))
  {
    forall p | p in trust ensures !HealthAt(s, p).IsLeader() {}
  }

  function Won(n: Node, answers: map<NodeId, HealthResponse>): Node {
    n.(phase := Phase.Bootstrapping, activity := Initialising(Scan(FindReady, n.trust, [], answers)))
  }

  /** What a scan makes of node `i` when nobody leads and it would elect itself. */
  lemma {:induction false} ScanMoves(i: NodeId, n: Node, scan: Scan)
    requires scan.ours == n.trust && scan.pending == [] && Leaderless(scan.seen)
    requires Elects(i, ReadySet(i, n.trust, scan.seen))
    ensures scan.goal.FindLeader? ==>
              Decide(i, n, scan) == n.(phase := CoordinatingBootstrap, activity := Idle)
    ensures scan.goal.FindReady? && n.phase.CoordinatingBootstrap? ==>
              Decide(i, n, scan) == n.(phase := Phase.Bootstrapping, activity := Idle)
    ensures scan.goal.FindReady? && n.phase.Bootstrapping? ==>
              Decide(i, n, scan) == n.(activity := Initialising(scan))
  {}

  predicate Next(s: Cluster, i: NodeId) {
    && i in s.nodes && s.nodes[i].activity.Idle? && NoLeader(s) && s.nodes[i].trust <= s.nodes.Keys
    && Elects(i, ReadySet(i, s.nodes[i].trust, Answers(s, s.nodes[i].trust)))
  }

  lemma {:induction false} ScanIn(s: Cluster, i: NodeId, phase: Phase)
    requires Next(s, i)
    requires phase.CheckingCluster? || phase.CoordinatingBootstrap? || phase.Bootstrapping?
    ensures var u := In(s, i, phase);
            && u.nodes[i].trust <= u.nodes.Keys
            && Scanned(u, i) ==
               (if phase.CheckingCluster? then s.nodes[i].(phase := CoordinatingBootstrap)
                else if phase.CoordinatingBootstrap? then s.nodes[i].(phase := Phase.Bootstrapping)
                else Won(s.nodes[i], Answers(s, s.nodes[i].trust)))
  {
    var n := s.nodes[i];
    var u := In(s, i, phase);
    SameAnswers(s, i, phase, n.trust);
    NobodyFound(s, n.trust);
    ScanMoves(i, u.nodes[i].(activity := Scanning(FullScan(u, i))), FullScan(u, i));
  }

  lemma {:induction false} CanScanIn(s: Cluster, i: NodeId, phase: Phase)
    requires i in s.nodes && s.nodes[i].activity.Idle? && NoLeader(s)
    requires phase.CheckingCluster? || phase.CoordinatingBootstrap? || phase.Bootstrapping?
    ensures NoLeader(In(s, i, phase)) && Enabled(In(s, i, phase), Begin(i))
  {}

  lemma {:induction false} ReachesNextPhase(s: Cluster, i: NodeId, phase: Phase, after: Node)
    requires i in s.nodes && s.nodes[i].activity.Idle? && NoLeader(s)
    requires phase.CheckingCluster? || phase.CoordinatingBootstrap? || phase.Bootstrapping?
    requires s.nodes[i].trust <= In(s, i, phase).nodes.Keys && Scanned(In(s, i, phase), i) == after
    ensures Reaches(In(s, i, phase), With(s, i, after))
  {
    CanScanIn(s, i, phase);
    ScanRound(In(s, i, phase), i);
    WithTwice(s, i, s.nodes[i].(phase := phase), after);
  }

  /** From waking up to the call of `initialize_cluster`. */
  lemma {:induction false} ReachesWon(s: Cluster, i: NodeId)
    requires Next(s, i) && s.nodes[i].phase.WaitingForPeers? && |s.nodes[i].trust| >= MIN_PEERS_FOR_BOOTSTRAP
    ensures Reaches(s, With(s, i, Won(s.nodes[i], Answers(s, s.nodes[i].trust))))
  {
    var n := s.nodes[i];
    var s1, s2, s3 := In(s, i, CheckingCluster), In(s, i, CoordinatingBootstrap), In(s, i, Phase.Bootstrapping);
    ReachStep(s, Wake(i));
    assert Do(s, Wake(i)) == s1;
    ScanIn(s, i, CheckingCluster);
    ReachesNextPhase(s, i, CheckingCluster, n.(phase := CoordinatingBootstrap));
    ReachOn(s, s1, s2);
    ScanIn(s, i, CoordinatingBootstrap);
    ReachesNextPhase(s, i, CoordinatingBootstrap, n.(phase := Phase.Bootstrapping));
    ReachOn(s, s2, s3);
    ScanIn(s, i, Phase.Bootstrapping);
    var won := Won(n, Answers(s, n.trust));
    ReachesNextPhase(s, i, Phase.Bootstrapping, won);
    ReachOn(s, s3, With(s, i, won));
  }

  lemma {:induction false} StageOrder(s: Cluster, order: seq<NodeId>, k: nat, p: NodeId)
    requires Stage(s, order, k) && k < |order| && p in s.nodes
    ensures Pristine(s.nodes[p].raft) <==> order[k] <= p
  {
    var j :| 0 <= j < |order| && order[j] == p;
    assert StageNode(s.nodes[order[j]], j < k);
  }

  lemma {:induction false} InReady(s: Cluster, i: NodeId, trust: set<NodeId>, p: NodeId)
    requires trust <= s.nodes.Keys && |trust| >= MIN_PEERS_FOR_BOOTSTRAP
    ensures p in ReadySet(i, trust, Answers(s, trust))
            <==> p == i || (p in trust && HealthAt(s, p).IsMutuallyReady(i, MIN_PEERS_FOR_BOOTSTRAP))
  {}

  lemma {:induction false} ReadyAtStage(s: Cluster, order: seq<NodeId>, k: nat, p: NodeId)
    requires Stage(s, order, k) && k + 3 <= |order|
    ensures order[k] in s.nodes && s.nodes[order[k]].trust <= s.nodes.Keys
    ensures p in ReadySet(order[k], s.nodes[order[k]].trust, Answers(s, s.nodes[order[k]].trust))
            <==> p in s.nodes && order[k] <= p
  {
    var i, all := order[k], s.nodes.Keys;
    assert i in order && s.nodes[i].trust == all - {i} && |all - {i}| == |all| - 1;
    InReady(s, i, s.nodes[i].trust, p);
    if p in s.nodes {
      assert s.nodes[p].trust == all - {p} && |all - {p}| == |all| - 1;
      ReadyMeansPristine(p, s.nodes[p].raft, s.nodes[p].trust, i, MIN_PEERS_FOR_BOOTSTRAP);
      StageOrder(s, order, k, p);
    }
  }

  lemma {:induction false} LeastOfThree(ready: set<NodeId>, a: NodeId, b: NodeId, c: NodeId)
    requires a in ready && b in ready && c in ready && a < b < c
    requires forall p :: p in ready ==> a <= p
    ensures Elects(a, ready)
  {
    Contained({a, b, c}, ready);
  }

  lemma {:induction false} ElectsAtStage(s: Cluster, order: seq<NodeId>, k: nat)
    requires Stage(s, order, k) && k + 3 <= |order|
    ensures Next(s, order[k])
  {
    var i := order[k];
    assert StageNode(s.nodes[i], k < k);
    ReadyAtStage(s, order, k, i);
    var ready := ReadySet(i, s.nodes[i].trust, Answers(s, s.nodes[i].trust));
    forall p ensures p in ready <==> p in s.nodes && i <= p { ReadyAtStage(s, order, k, p); }
    LeastOfThree(ready, i, order[k + 1], order[k + 2]);
  }

  lemma {:induction false} InitialisedFrom(s: Cluster, i: NodeId, n: Node) returns (m: Node)
    requires i in s.nodes && n.activity.Initialising? && Pristine(n.raft)
    ensures Enabled(With(s, i, n), Initialise(i, true))
    ensures Do(With(s, i, n), Initialise(i, true)) == Cluster(s.nodes[i := m], s.initialised + [i])
    ensures m.trust == n.trust && m.raft.leader == n.raft.leader && StageNode(m, true)
  {
    var u := With(s, i, n);
    m := NodeAfter(u, Initialise(i, true));
    assert i in m.raft.voters;
    assert u.nodes[i := m] == s.nodes[i := m];
  }

  lemma {:induction false} StageReached(s: Cluster, order: seq<NodeId>, k: nat, m: Node, t: Cluster)
    requires Stage(s, order, k) && k < |order|
    requires m.trust == s.nodes[order[k]].trust && m.raft.leader == None && StageNode(m, true)
    requires t == Cluster(s.nodes[order[k] := m], s.initialised + [order[k]])
    ensures Stage(t, order, k + 1)
  {
    assert t.nodes.Keys == s.nodes.Keys;
    assert order[..k + 1] == order[..k] + [order[k]];
    forall j | 0 <= j < |order| ensures order[j] in t.nodes && StageNode(t.nodes[order[j]], j < k + 1) {
      assert StageNode(s.nodes[order[j]], j < k);
    }
  }

  /** The next node up initialises as well. */
  lemma {:induction false} StageAdvances(s: Cluster, order: seq<NodeId>, k: nat) returns (t: Cluster)
    requires Stage(s, order, k) && k + 3 <= |order|
    ensures Reaches(s, t) && Stage(t, order, k + 1)
  {
    var i := order[k];
    ElectsAtStage(s, order, k);
    assert StageNode(s.nodes[i], k < k);
    assert |s.nodes.Keys - {i}| == |s.nodes.Keys| - 1;
    ReachesWon(s, i);
    var won := Won(s.nodes[i], Answers(s, s.nodes[i].trust));
    var m := InitialisedFrom(s, i, won);
    ReachStep(With(s, i, won), Initialise(i, true));
    t := Cluster(s.nodes[i := m], s.initialised + [i]);
    StageReached(s, order, k, m, t);
    ReachOn(s, With(s, i, won), t);
  }

  lemma {:induction false} StagesReached(s: Cluster, order: seq<NodeId>, k: nat) returns (t: Cluster)
    requires Stage(s, order, 0) && k + 2 <= |order|
    ensures Reaches(s, t) && Stage(t, order, k)
  {
    if k == 0 {
      t := s;
      ReachSelf(s);
    } else {
      var u := StagesReached(s, order, k - 1);
      t := StageAdvances(u, order, k - 1);
      ReachOn(s, u, t);
    }
  }

  lemma {:induction false} CalmRunTo(s: Cluster, order: seq<NodeId>, k: nat) returns (steps: seq<Step>)
    requires Stage(s, order, 0) && k + 2 <= |order|
    ensures LegalRun(s, steps) && Calm(steps) && Run(s, steps).initialised == order[..k]
  {
    var t := StagesReached(s, order, k);
    assert t.initialised == order[..k];
    steps :| CalmRun(s, steps, t);
  }

  lemma {:induction false} StartIsStage(s: Cluster)
    requires Start(s) && CompleteTrust(s) && NoLeader(s)
    requires forall i :: i in s.nodes ==> Pristine(s.nodes[i].raft)
    ensures Stage(s, Ascending(s.nodes.Keys), 0)
  {
    var order := Ascending(s.nodes.Keys);
    AscendingWithin(s.nodes.Keys);
    forall p ensures p in order <==> p in s.nodes.Keys { assert p in ToSet(order) <==> p in order; }
    forall j | 0 <= j < |order| ensures order[j] in s.nodes && StageNode(s.nodes[order[j]], j < 0) {
      assert order[j] in s.nodes.Keys;
    }
  }

  /** The bound of BootstrapOrderAndBound is exact: from any fresh cluster of n >= 3 nodes
      in complete trust, some calm run lets all but the two highest initialise. */
  lemma {:induction false} BoundIsReached(s: Cluster)
    requires Start(s) && CompleteTrust(s) && NoLeader(s) && |s.nodes.Keys| >= BOOTSTRAP_QUORUM
    requires forall i :: i in s.nodes ==> Pristine(s.nodes[i].raft)
    ensures exists steps ::
              && LegalRun(s, steps) && Calm(steps)
              && Run(s, steps).initialised == Ascending(s.nodes.Keys)[..|s.nodes.Keys| - 2]
  {
    StartIsStage(s);
    var steps := CalmRunTo(s, Ascending(s.nodes.Keys), |s.nodes.Keys| - 2);
    assert LegalRun(s, steps);
  }

  ghost predicate InitialisesAtMostOnce(s: Cluster) {
    forall steps :: LegalRun(s, steps) && Calm(steps) ==> |Run(s, steps).initialised| <= 1
  }

  /** When a single bootstrapper is guaranteed: for a fresh cluster in complete trust,
      exactly when it has no more than three nodes. */
  lemma {:induction false} SingleBootstrapperExactly(s: Cluster)
    requires Start(s) && CompleteTrust(s) && NoLeader(s)
    requires forall i :: i in s.nodes ==> Pristine(s.nodes[i].raft)
    ensures InitialisesAtMostOnce(s) <==> |s.nodes.Keys| <= BOOTSTRAP_QUORUM
  {
    if |s.nodes.Keys| <= BOOTSTRAP_QUORUM {
      forall steps | LegalRun(s, steps) && Calm(steps) ensures |Run(s, steps).initialised| <= 1 {
        BootstrapOrderAndBound(s, steps);
      }
    } else {
      BoundIsReached(s);
    }
  }
}
