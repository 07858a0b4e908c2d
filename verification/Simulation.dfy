/** A round of a coordinator is a run of Formation, while the other nodes do as they like. */
module Simulation {
  import opened Ordered
  import opened Health
  import opened Formation
  import opened FormationTheorems
  import opened LocalMoves

  // --------------------------------------------------------- steps of the others

  predicate ByOthers(i: NodeId, steps: seq<Step>) {
    forall k :: 0 <= k < |steps| ==> steps[k].node != i
  }

  lemma {:induction false} OthersLeaveAlone(u: Cluster, i: NodeId, steps: seq<Step>)
    requires i in u.nodes && LegalRun(u, steps) && ByOthers(i, steps)
    ensures i in Run(u, steps).nodes && Run(u, steps).nodes[i] == u.nodes[i]
  {
    if steps != [] {
      var k := |steps| - 1;
      OthersLeaveAlone(u, i, steps[..k]);
      assert steps[k].node != i;
    }
  }

  /** The steps of a run that are not node i's. */
  function OthersOf(i: NodeId, steps: seq<Step>): seq<Step> {
    if steps == [] then [] else
      var k := |steps| - 1;
      OthersOf(i, steps[..k]) + if steps[k].node == i then [] else [steps[k]]
  }

  lemma {:induction false} OthersOfConcat(i: NodeId, a: seq<Step>, b: seq<Step>)
    ensures OthersOf(i, a + b) == OthersOf(i, a) + OthersOf(i, b)
  {
    if b == [] {
      assert a + b == a;
    } else {
      var k := |b| - 1;
      OthersOfConcat(i, a, b[..k]);
      assert (a + b)[..|a + b| - 1] == a + b[..k];
    }
  }

  lemma {:induction false} OthersOfOthers(i: NodeId, steps: seq<Step>)
    requires ByOthers(i, steps)
    ensures OthersOf(i, steps) == steps
  {
    if steps != [] {
      var k := |steps| - 1;
      OthersOfOthers(i, steps[..k]);
      assert steps == steps[..k] + [steps[k]];
    }
  }

  function Flatten(parts: seq<seq<Step>>): seq<Step> {
    if parts == [] then [] else parts[0] + Flatten(parts[1..])
  }

  /** Run `a` then `b`, keeping the others' steps apart. */
  lemma {:induction false} Then(s: Cluster, i: NodeId, a: seq<Step>, b: seq<Step>)
    requires LegalRun(s, a) && LegalRun(Run(s, a), b)
    ensures LegalRun(s, a + b) && Run(s, a + b) == Run(Run(s, a), b)
    ensures OthersOf(i, a + b) == OthersOf(i, a) + OthersOf(i, b)
  {
    RunConcat(s, a, b);
    OthersOfConcat(i, a, b);
  }

  lemma {:induction false} One(s: Cluster, i: NodeId, step: Step)
    requires Enabled(s, step) && step.node == i
    ensures LegalRun(s, [step]) && Run(s, [step]) == Do(s, step) && OthersOf(i, [step]) == []
  {
    RunSnoc(s, [], step);
    assert [] + [step] == [step];
    assert [step][..0] == [];
  }

  // -------------------------------------------------------------- scans as runs

  /** Node i is in the middle of a scan, the others take the steps `others[k]` before its
      next k-th query, and each peer, when asked, answers as in `answers` or not at all. */
  ghost predicate Witnessed(u: Cluster, i: NodeId, answers: Answers, others: seq<seq<Step>>)
    decreases |others|
  {
    i in u.nodes && u.nodes[i].activity.Scanning? &&
    var scan := u.nodes[i].activity.scan;
    if scan.pending == [] || Found(scan) then others == [] else
      && others != [] && LegalRun(u, others[0]) && ByOthers(i, others[0])
      && var v, p := Run(u, others[0]), scan.pending[0];
         && (p in answers ==> p in v.nodes && answers[p] == HealthAt(v, p))
         && Enabled(v, Query(i, p in answers))
         && Witnessed(Do(v, Query(i, p in answers)), i, answers, others[1..])
  }

  /** The run those queries and steps make. */
  ghost function ScanSteps(u: Cluster, i: NodeId, answers: Answers, others: seq<seq<Step>>): seq<Step>
    requires Witnessed(u, i, answers, others)
    decreases |others|
  {
    if others == [] then [] else
      var v, p := Run(u, others[0]), u.nodes[i].activity.scan.pending[0];
      others[0] + [Query(i, p in answers)]
      + ScanSteps(Do(v, Query(i, p in answers)), i, answers, others[1..])
  }

  /** What a scan has seen is what was answered, and nobody was passed over. */
  predicate Truthful(scan: Scan, answers: Answers) {
    && (forall p :: p in scan.seen ==> p in scan.ours && p in answers && scan.seen[p] == answers[p])
    && (forall p :: p in scan.ours && p in answers ==> p in scan.seen || p in scan.pending)
    && (forall p :: p in scan.pending ==> p in scan.ours)
  }

  function AskedScan(scan: Scan, answers: Answers): Scan
    requires scan.pending != []
  {
    var p := scan.pending[0];
    scan.(pending := scan.pending[1..], seen := if p in answers then scan.seen[p := answers[p]] else scan.seen)
  }

  lemma {:induction false} AskedTruthful(scan: Scan, answers: Answers)
    requires Truthful(scan, answers) && scan.pending != []
    ensures Truthful(AskedScan(scan, answers), answers)
  {
    assert scan.pending == [scan.pending[0]] + scan.pending[1..];
  }

  lemma {:induction false} QueryAsks(v: Cluster, i: NodeId, answers: Answers)
    requires i in v.nodes && v.nodes[i].activity.Scanning? && v.nodes[i].activity.scan.pending != []
    requires var p := v.nodes[i].activity.scan.pending[0];
             && (p in answers ==> p in v.nodes && answers[p] == HealthAt(v, p))
             && Enabled(v, Query(i, p in answers))
    ensures var scan := v.nodes[i].activity.scan;
            var w := Do(v, Query(i, scan.pending[0] in answers));
            i in w.nodes && w.nodes[i] == v.nodes[i].(activity := Scanning(AskedScan(scan, answers)))
  {}

  predicate Over(scan: Scan) {
    scan.pending == [] || Found(scan)
  }

  /** The cluster after the next query of a scan that goes on. */
  ghost function NextQuery(u: Cluster, i: NodeId, answers: Answers, others: seq<seq<Step>>): Cluster
    requires Witnessed(u, i, answers, others) && others != []
  {
    Do(Run(u, others[0]), Query(i, u.nodes[i].activity.scan.pending[0] in answers))
  }

  lemma {:induction false} OneQuery(u: Cluster, i: NodeId, answers: Answers, others: seq<seq<Step>>)
    returns (steps: seq<Step>)
    requires Witnessed(u, i, answers, others) && others != []
    ensures u.nodes[i].activity.scan.pending != []
    ensures steps == others[0] + [Query(i, u.nodes[i].activity.scan.pending[0] in answers)]
    ensures LegalRun(u, steps) && Run(u, steps) == NextQuery(u, i, answers, others)
    ensures OthersOf(i, steps) == others[0]
    ensures Witnessed(NextQuery(u, i, answers, others), i, answers, others[1..])
    ensures ScanSteps(u, i, answers, others)
            == steps + ScanSteps(NextQuery(u, i, answers, others), i, answers, others[1..])
    ensures var scan := u.nodes[i].activity.scan;
            && scan.pending != []
            && NextQuery(u, i, answers, others).nodes[i] == u.nodes[i].(activity := Scanning(AskedScan(scan, answers)))
  {
    var v, q := Run(u, others[0]), Query(i, u.nodes[i].activity.scan.pending[0] in answers);
    OthersLeaveAlone(u, i, others[0]);
    QueryAsks(v, i, answers);
    One(v, i, q);
    Then(u, i, others[0], [q]);
    OthersOfOthers(i, others[0]);
    steps := others[0] + [q];
  }

  /** A witnessed scan is a legal run, made of the others' steps and queries of node i, that
      leaves node i with a truthful scan that is over. */
  lemma {:induction false} ScanIsRun(u: Cluster, i: NodeId, answers: Answers, others: seq<seq<Step>>)
    returns (final: Scan)
    requires Witnessed(u, i, answers, others) && Truthful(u.nodes[i].activity.scan, answers)
    ensures var steps := ScanSteps(u, i, answers, others);
            && LegalRun(u, steps) && OthersOf(i, steps) == Flatten(others)
            && i in Run(u, steps).nodes
            && Run(u, steps).nodes[i] == u.nodes[i].(activity := Scanning(final))
    ensures Truthful(final, answers) && Over(final)
    ensures final.goal == u.nodes[i].activity.scan.goal && final.ours == u.nodes[i].activity.scan.ours
    decreases |others|
  {
    if others == [] {
      final := u.nodes[i].activity.scan;
    } else {
      var first := OneQuery(u, i, answers, others);
      var w := NextQuery(u, i, answers, others);
      AskedTruthful(u.nodes[i].activity.scan, answers);
      final := ScanIsRun(w, i, answers, others[1..]);
      Then(u, i, first, ScanSteps(w, i, answers, others[1..]));
    }
  }

  predicate CalmParts(parts: seq<seq<Step>>) {
    forall k :: 0 <= k < |parts| ==> Calm(parts[k])
  }

  lemma {:induction false} CalmConcat(a: seq<Step>, b: seq<Step>)
    requires Calm(a) && Calm(b)
    ensures Calm(a + b)
  {}

  lemma {:induction false} CalmOne(step: Step)
    requires CalmStep(step)
    ensures Calm([step])
  {
    assert forall k :: 0 <= k < |[step]| ==> [step][k] == step;
  }

  /** A scan is calm if the others are and everybody it asks answers. */
  lemma {:induction false} ScanIsCalm(u: Cluster, i: NodeId, answers: Answers, others: seq<seq<Step>>)
    requires Witnessed(u, i, answers, others) && CalmParts(others)
    requires forall p :: p in u.nodes[i].activity.scan.pending ==> p in answers
    ensures Calm(ScanSteps(u, i, answers, others))
    decreases |others|
  {
    if others != [] {
      var q := Query(i, u.nodes[i].activity.scan.pending[0] in answers);
      var first := OneQuery(u, i, answers, others);
      var w := NextQuery(u, i, answers, others);
      CalmParts1(others);
      ScanIsCalm(w, i, answers, others[1..]);
      CalmOne(q);
      CalmConcat(others[0], [q]);
      CalmConcat(first, ScanSteps(w, i, answers, others[1..]));
    }
  }

  lemma {:induction false} CalmParts1(parts: seq<seq<Step>>)
    requires CalmParts(parts) && parts != []
    ensures Calm(parts[0]) && CalmParts(parts[1..])
  {}

  /** Whether the goal was found, and if not everything that was seen, is as if the answers
      had all been looked at together. */
  lemma {:induction false} TruthfulAtEnd(scan: Scan, answers: Answers)
    requires Truthful(scan, answers) && Over(scan)
    ensures Found(scan) <==> Found(ScanOf(scan.goal, scan.ours, answers))
    ensures !Found(scan) ==> scan == ScanOf(scan.goal, scan.ours, answers)
  {
    var full := ScanOf(scan.goal, scan.ours, answers);
    assert forall p :: p in scan.seen ==> p in full.seen && full.seen[p] == scan.seen[p];
    if !Found(scan) { assert scan.seen == full.seen; }
  }

  lemma {:induction false} NewScanTruthful(goal: Goal, trust: set<NodeId>, answers: Answers)
    ensures Truthful(NewScan(goal, trust), answers)
  {}

  // -------------------------------------------------------------- rounds as runs

  /** The answers come from a scan begun in `s`. */
  ghost predicate Scans(s: Cluster, i: NodeId, answers: Answers, others: seq<seq<Step>>) {
    Enabled(s, Begin(i)) && Witnessed(Do(s, Begin(i)), i, answers, others)
  }

  ghost function BeginAndScan(s: Cluster, i: NodeId, answers: Answers, others: seq<seq<Step>>): seq<Step>
    requires Scans(s, i, answers, others)
  {
    [Begin(i)] + ScanSteps(Do(s, Begin(i)), i, answers, others)
  }

  /** A scan from its beginning: where it leaves node i. */
  lemma {:induction false} WholeScan(s: Cluster, i: NodeId, answers: Answers, others: seq<seq<Step>>)
    returns (scan: Scan)
    requires Scans(s, i, answers, others)
    ensures var steps := BeginAndScan(s, i, answers, others);
            && LegalRun(s, steps) && OthersOf(i, steps) == Flatten(others)
            && i in Run(s, steps).nodes
            && Run(s, steps).nodes[i] == s.nodes[i].(activity := Scanning(scan))
    ensures Truthful(scan, answers) && Over(scan)
    ensures scan.goal == GoalOf(s.nodes[i].phase) && scan.ours == s.nodes[i].trust
  {
    var u := Do(s, Begin(i));
    assert u.nodes[i] == s.nodes[i].(activity := Scanning(NewScan(GoalOf(s.nodes[i].phase), s.nodes[i].trust)));
    NewScanTruthful(GoalOf(s.nodes[i].phase), s.nodes[i].trust, answers);
    scan := ScanIsRun(u, i, answers, others);
    One(s, i, Begin(i));
    Then(s, i, [Begin(i)], ScanSteps(u, i, answers, others));
  }

  lemma {:induction false} WholeScanIsCalm(s: Cluster, i: NodeId, answers: Answers, others: seq<seq<Step>>)
    requires Scans(s, i, answers, others) && CalmParts(others) && s.nodes[i].trust <= answers.Keys
    ensures Calm(BeginAndScan(s, i, answers, others) + [Finish(i)])
  {
    var u := Do(s, Begin(i));
    assert u.nodes[i].activity.scan.pending == Ascending(s.nodes[i].trust);
    ScanIsCalm(u, i, answers, others);
    CalmOne(Begin(i));
    CalmOne(Finish(i));
    CalmConcat([Begin(i)], ScanSteps(u, i, answers, others));
    CalmConcat(BeginAndScan(s, i, answers, others), [Finish(i)]);
  }

  /** Append a step of node i to a run. */
  lemma {:induction false} AndThen(s: Cluster, i: NodeId, steps: seq<Step>, step: Step)
    requires LegalRun(s, steps) && Enabled(Run(s, steps), step) && step.node == i
    ensures LegalRun(s, steps + [step]) && Run(s, steps + [step]) == Do(Run(s, steps), step)
    ensures OthersOf(i, steps + [step]) == OthersOf(i, steps)
  {
    One(Run(s, steps), i, step);
    Then(s, i, steps, [step]);
  }

  ghost predicate IsRunOf(s: Cluster, i: NodeId, steps: seq<Step>, others: seq<Step>, after: Node) {
    && LegalRun(s, steps) && OthersOf(i, steps) == others
    && i in Run(s, steps).nodes && Run(s, steps).nodes[i] == after
  }

  /** A scan and the decision at its end. */
  lemma {:induction false} ScanAndDecide(s: Cluster, i: NodeId, answers: Answers, others: seq<seq<Step>>)
    returns (scan: Scan)
    requires Scans(s, i, answers, others)
    ensures Truthful(scan, answers) && Over(scan)
    ensures scan.goal == GoalOf(s.nodes[i].phase) && scan.ours == s.nodes[i].trust
    ensures IsRunOf(s, i, BeginAndScan(s, i, answers, others) + [Finish(i)], Flatten(others),
                    Decide(i, s.nodes[i].(activity := Scanning(scan)), scan))
  {
    scan := WholeScan(s, i, answers, others);
    AndThen(s, i, BeginAndScan(s, i, answers, others), Finish(i));
  }

  /** The decision is the one the coordinator takes. */
  lemma {:induction false} DecisionAgrees(i: NodeId, before: Local, scan: Scan, answers: Answers)
    requires Truthful(scan, answers) && Over(scan) && scan.ours == before.trust && !scan.goal.FindCluster?
    requires scan.goal.FindReady? ==> !before.phase.Bootstrapping? || !Elects(i, ReadySet(i, before.trust, answers))
    ensures var n := NodeOf(before).(activity := Scanning(scan));
            Decide(i, n, scan)
            == NodeOf(before.(phase := Decided(i, before.phase, scan.goal, before.trust, answers).phase))
  {
    TruthfulAtEnd(scan, answers);
    ReadyHeard(i, before.trust, answers);
  }

  /** The rounds that are one scan and a decision. */
  lemma {:induction false} ScanningRound(s: Cluster, i: NodeId, before: Local, answers: Answers,
      others: seq<seq<Step>>, after: Local) returns (steps: seq<Step>)
    requires i in s.nodes && s.nodes[i] == NodeOf(before) && Scans(s, i, answers, others)
    requires || before.phase.CheckingCluster? || before.phase.CoordinatingBootstrap?
             || (before.phase.Bootstrapping? && !Elects(i, ReadySet(i, before.trust, answers)))
    requires Moves(i, before, answers, answers, after)
    ensures IsRunOf(s, i, steps, Flatten(others), NodeOf(after))
    ensures CalmParts(others) && before.trust <= answers.Keys ==> Calm(steps)
  {
    var scan := ScanAndDecide(s, i, answers, others);
    DecisionAgrees(i, before, scan, answers);
    steps := BeginAndScan(s, i, answers, others) + [Finish(i)];
    if CalmParts(others) && before.trust <= answers.Keys { WholeScanIsCalm(s, i, answers, others); }
  }

  // ------------------------------------------------------------------ bootstrapping

  /** Node i loses its trust in these peers, one after the other. */
  lemma {:induction false} DistrustAll(s: Cluster, i: NodeId, peers: seq<NodeId>) returns (steps: seq<Step>)
    requires i in s.nodes
    ensures IsRunOf(s, i, steps, [], s.nodes[i].(trust := s.nodes[i].trust - ToSet(peers)))
    ensures |steps| == |peers|
  {
    if peers == [] {
      steps := [];
      assert s.nodes[i].trust - {} == s.nodes[i].trust;
    } else {
      var k := |peers| - 1;
      var before := DistrustAll(s, i, peers[..k]);
      AndThen(s, i, before, Distrust(i, peers[k]));
      steps := before + [Distrust(i, peers[k])];
      ToSetSnoc(peers, k);
      assert peers[..k + 1] == peers;
      assert s.nodes[i].trust - ToSet(peers[..k]) - {peers[k]} == s.nodes[i].trust - ToSet(peers);
    }
  }

  /** Node i trusts these peers, one after the other. */
  lemma {:induction false} TrustAll(s: Cluster, i: NodeId, peers: seq<NodeId>) returns (steps: seq<Step>)
    requires i in s.nodes
    ensures IsRunOf(s, i, steps, [], s.nodes[i].(trust := s.nodes[i].trust + ToSet(peers)))
    ensures |steps| == |peers|
  {
    if peers == [] {
      steps := [];
      assert s.nodes[i].trust + {} == s.nodes[i].trust;
    } else {
      var k := |peers| - 1;
      var before := TrustAll(s, i, peers[..k]);
      AndThen(s, i, before, Trust(i, peers[k]));
      steps := before + [Trust(i, peers[k])];
      ToSetSnoc(peers, k);
      assert peers[..k + 1] == peers;
      assert s.nodes[i].trust + ToSet(peers[..k]) + {peers[k]} == s.nodes[i].trust + ToSet(peers);
    }
  }

  /** Two runs in a row, seen from node i. */
  lemma {:induction false} RunsInARow(s: Cluster, i: NodeId, a: seq<Step>, xs: seq<Step>, n: Node, b: seq<Step>,
      ys: seq<Step>, m: Node)
    requires IsRunOf(s, i, a, xs, n) && IsRunOf(Run(s, a), i, b, ys, m)
    ensures IsRunOf(s, i, a + b, xs + ys, m)
  {
    Then(s, i, a, b);
  }

  lemma {:induction false} InitialiseIs(u: Cluster, i: NodeId, won: Local, scan: Scan, after: Local)
    requires i in u.nodes && u.nodes[i] == NodeOf(won).(activity := Initialising(scan))
    requires || (after == won.(phase := CoordinatingBootstrap))
             || (Pristine(won.view) && after == won.(phase := ClusterActive,
                   view := won.view.(voters := Members(i, ReadySet(i, scan.ours, scan.seen), won.trust))))
    ensures IsRunOf(u, i, [Initialise(i, after.phase.ClusterActive?)], [], NodeOf(after))
  {
    One(u, i, Initialise(i, after.phase.ClusterActive?));
  }

  /** A scan for ready peers sees them all. */
  lemma {:induction false} ReadyScanIs(i: NodeId, trust: set<NodeId>, scan: Scan, answers: Answers)
    requires Truthful(scan, answers) && Over(scan) && scan.ours == trust && scan.goal.FindReady?
    ensures scan == ScanOf(FindReady, trust, answers)
    ensures ReadySet(i, scan.ours, scan.seen) == ReadySet(i, trust, answers)
  {
    TruthfulAtEnd(scan, answers);
    ReadyHeard(i, trust, answers);
  }

  lemma {:induction false} WonDecision(i: NodeId, before: Local, scan: Scan)
    requires before.phase.Bootstrapping? && scan.goal.FindReady? && Elects(i, ReadySet(i, scan.ours, scan.seen))
    ensures Decide(i, NodeOf(before).(activity := Scanning(scan)), scan)
            == NodeOf(before).(activity := Initialising(scan))
  {}

  /** A won election leads to the call of `initialize_cluster`. */
  lemma {:induction false} WonElectionScan(s: Cluster, i: NodeId, before: Local, answers: Answers,
      others: seq<seq<Step>>)
    requires i in s.nodes && s.nodes[i] == NodeOf(before) && before.phase.Bootstrapping?
    requires Scans(s, i, answers, others) && Elects(i, ReadySet(i, before.trust, answers))
    ensures IsRunOf(s, i, BeginAndScan(s, i, answers, others) + [Finish(i)], Flatten(others),
                    NodeOf(before).(activity := Initialising(ScanOf(FindReady, before.trust, answers))))
  {
    var scan := ScanAndDecide(s, i, answers, others);
    assert scan.goal == FindReady;
    ReadyScanIs(i, before.trust, scan, answers);
    WonDecision(i, before, scan);
    assert Decide(i, s.nodes[i].(activity := Scanning(scan)), scan) == NodeOf(before).(activity := Initialising(scan));
  }

  /** Whatever happens to its trust, node i can follow in steps of its own. */
  lemma {:induction false} TrustChanges(u: Cluster, i: NodeId, trust: set<NodeId>) returns (steps: seq<Step>)
    requires i in u.nodes
    ensures IsRunOf(u, i, steps, [], u.nodes[i].(trust := trust))
    ensures trust == u.nodes[i].trust ==> steps == []
  {
    var now := u.nodes[i].trust;
    var gone, come := Ascending(now - trust), Ascending(trust - now);
    var leaving := DistrustAll(u, i, gone);
    var v := Run(u, leaving);
    var coming := TrustAll(v, i, come);
    assert now - ToSet(gone) + ToSet(come) == trust;
    RunsInARow(u, i, leaving, [], v.nodes[i], coming, [], u.nodes[i].(trust := trust));
    steps := leaving + coming;
  }

  /** The call, after the changes of trust that came before it. */
  lemma {:induction false} CallRound(u: Cluster, i: NodeId, before: Local, scan: Scan, after: Local)
    returns (steps: seq<Step>)
    requires i in u.nodes && u.nodes[i] == NodeOf(before).(activity := Initialising(scan))
    requires || after == Local(CoordinatingBootstrap, after.trust, before.view)
             || (Pristine(before.view) && after == Local(ClusterActive, after.trust,
                   before.view.(voters := Members(i, ReadySet(i, scan.ours, scan.seen), after.trust))))
    ensures IsRunOf(u, i, steps, [], NodeOf(after))
    ensures steps != [] && steps[|steps| - 1] == Initialise(i, after.phase.ClusterActive?)
    ensures after.trust == before.trust ==> Calm(steps)
  {
    var changes := TrustChanges(u, i, after.trust);
    var won := before.(trust := after.trust);
    var n := NodeOf(won).(activity := Initialising(scan));
    InitialiseIs(Run(u, changes), i, won, scan, after);
    var last := [Initialise(i, after.phase.ClusterActive?)];
    RunsInARow(u, i, changes, [], n, last, [], NodeOf(after));
    CalmOne(last[0]);
    steps := changes + last;
  }

  /** The round that initialises a cluster, or tries to. */
  lemma {:induction false} BootstrapRound(s: Cluster, i: NodeId, before: Local, answers: Answers,
      others: seq<seq<Step>>, after: Local) returns (steps: seq<Step>)
    requires i in s.nodes && s.nodes[i] == NodeOf(before) && before.phase.Bootstrapping?
    requires Scans(s, i, answers, others) && Elects(i, ReadySet(i, before.trust, answers))
    requires Bootstraps(i, before, answers, after)
    ensures IsRunOf(s, i, steps, Flatten(others), NodeOf(after))
    ensures steps != [] && steps[|steps| - 1] == Initialise(i, after.phase.ClusterActive?)
    ensures CalmParts(others) && before.trust <= answers.Keys && after.trust == before.trust ==> Calm(steps)
  {
    var scanned := BeginAndScan(s, i, answers, others) + [Finish(i)];
    var scan := ScanOf(FindReady, before.trust, answers);
    WonElectionScan(s, i, before, answers, others);
    ReadyHeard(i, before.trust, answers);
    var call := CallRound(Run(s, scanned), i, before, scan, after);
    var won := NodeOf(before).(activity := Initialising(scan));
    RunsInARow(s, i, scanned, Flatten(others), won, call, [], NodeOf(after));
    steps := scanned + call;
    assert Flatten(others) + [] == Flatten(others);
    if CalmParts(others) && before.trust <= answers.Keys && after.trust == before.trust {
      WholeScanIsCalm(s, i, answers, others);
      CalmConcat(scanned, call);
    }
  }

  // ------------------------------------------------------------------- waiting

  lemma {:induction false} TakeOverDecision(i: NodeId, before: Local, scan: Scan)
    requires before.phase.WaitingForBootstrap? && scan.goal.FindReady?
    ensures var elected := Elects(i, ReadySet(i, scan.ours, scan.seen));
            Decide(i, NodeOf(before).(activity := Scanning(scan)), scan)
            == NodeOf(before.(phase := if elected then Phase.Bootstrapping else before.phase))
  {}

  /** The second scan of a waiting node, which has found no cluster. */
  lemma {:induction false} SecondScan(u: Cluster, i: NodeId, before: Local, again: Answers, others: seq<seq<Step>>)
    returns (steps: seq<Step>)
    requires i in u.nodes && before.phase.WaitingForBootstrap?
    requires u.nodes[i] == NodeOf(before).(activity := Scanning(NewScan(FindReady, before.trust)))
    requires Witnessed(u, i, again, others)
    ensures var phase := if Elects(i, ReadySet(i, before.trust, again)) then Phase.Bootstrapping else before.phase;
            IsRunOf(u, i, steps, Flatten(others), NodeOf(before.(phase := phase)))
    ensures CalmParts(others) && before.trust <= again.Keys ==> Calm(steps)
  {
    NewScanTruthful(FindReady, before.trust, again);
    var scan := ScanIsRun(u, i, again, others);
    ReadyScanIs(i, before.trust, scan, again);
    TakeOverDecision(i, before, scan);
    AndThen(u, i, ScanSteps(u, i, again, others), Finish(i));
    steps := ScanSteps(u, i, again, others) + [Finish(i)];
    if CalmParts(others) && before.trust <= again.Keys {
      ScanIsCalm(u, i, again, others);
      CalmOne(Finish(i));
      CalmConcat(ScanSteps(u, i, again, others), [Finish(i)]);
    }
  }

  /** How a waiting node's answers came about: a scan for a cluster and, if none was found,
      one for ready peers. */
  ghost predicate ScansTwice(s: Cluster, i: NodeId, before: Local, answers: Answers, others: seq<seq<Step>>,
      again: Answers, later: seq<seq<Step>>) {
    Scans(s, i, answers, others) &&
    if Found(ScanOf(FindCluster, before.trust, answers)) then later == [] else
      var steps := BeginAndScan(s, i, answers, others) + [Finish(i)];
      LegalRun(s, steps) && Witnessed(Run(s, steps), i, again, later)
  }

  lemma {:induction false} FirstScanDecides(i: NodeId, before: Local, scan: Scan, answers: Answers)
    requires Truthful(scan, answers) && Over(scan) && scan.ours == before.trust && scan.goal.FindCluster?
    ensures var n := NodeOf(before).(activity := Scanning(scan));
            Decide(i, n, scan) == if Found(ScanOf(FindCluster, before.trust, answers))
                                  then NodeOf(before.(phase := Joining))
                                  else n.(activity := Scanning(NewScan(FindReady, before.trust)))
  {
    TruthfulAtEnd(scan, answers);
  }

  /** The first scan of a waiting node. */
  lemma {:induction false} FirstScan(s: Cluster, i: NodeId, before: Local, answers: Answers, others: seq<seq<Step>>)
    requires i in s.nodes && s.nodes[i] == NodeOf(before) && before.phase.WaitingForBootstrap?
    requires Scans(s, i, answers, others)
    ensures var n := if Found(ScanOf(FindCluster, before.trust, answers)) then NodeOf(before.(phase := Joining))
                     else NodeOf(before).(activity := Scanning(NewScan(FindReady, before.trust)));
            IsRunOf(s, i, BeginAndScan(s, i, answers, others) + [Finish(i)], Flatten(others), n)
  {
    var scan := ScanAndDecide(s, i, answers, others);
    FirstScanDecides(i, before, scan, answers);
  }

  /** A waiting node that has found no cluster and asks again. */
  lemma {:induction false} AskingAgain(s: Cluster, i: NodeId, before: Local, answers: Answers, others: seq<seq<Step>>,
      again: Answers, later: seq<seq<Step>>) returns (second: seq<Step>)
    requires i in s.nodes && s.nodes[i] == NodeOf(before) && before.phase.WaitingForBootstrap?
    requires ScansTwice(s, i, before, answers, others, again, later)
    requires !Found(ScanOf(FindCluster, before.trust, answers))
    ensures IsRunOf(s, i, BeginAndScan(s, i, answers, others) + [Finish(i)] + second, Flatten(others) + Flatten(later),
                    NodeOf(before.(phase := WaitsOn(i, before, answers, again))))
    ensures CalmParts(later) && before.trust <= again.Keys ==> Calm(second)
  {
    FirstScan(s, i, before, answers, others);
    var first := BeginAndScan(s, i, answers, others) + [Finish(i)];
    var u := Run(s, first);
    second := SecondScan(u, i, before, again, later);
    RunsInARow(s, i, first, Flatten(others), u.nodes[i], second, Flatten(later),
      NodeOf(before.(phase := WaitsOn(i, before, answers, again))));
  }

  lemma {:induction false} WaitingRound(s: Cluster, i: NodeId, before: Local, answers: Answers, others: seq<seq<Step>>,
      again: Answers, later: seq<seq<Step>>) returns (steps: seq<Step>)
    requires i in s.nodes && s.nodes[i] == NodeOf(before) && before.phase.WaitingForBootstrap?
    requires ScansTwice(s, i, before, answers, others, again, later)
    ensures IsRunOf(s, i, steps, Flatten(others) + Flatten(later),
                    NodeOf(before.(phase := WaitsOn(i, before, answers, again))))
    ensures CalmParts(others) && CalmParts(later) && before.trust <= answers.Keys && before.trust <= again.Keys ==>
              Calm(steps)
  {
    steps := BeginAndScan(s, i, answers, others) + [Finish(i)];
    if CalmParts(others) && before.trust <= answers.Keys { WholeScanIsCalm(s, i, answers, others); }
    if Found(ScanOf(FindCluster, before.trust, answers)) {
      FirstScan(s, i, before, answers, others);
      assert Flatten(others) + Flatten(later) == Flatten(others);
    } else {
      var second := AskingAgain(s, i, before, answers, others, again, later);
      if Calm(steps) && Calm(second) { CalmConcat(steps, second); }
      steps := steps + second;
    }
  }

  // --------------------------------------------------------------- the whole machine

  /** The answers of a round were given, in the course of `others` and `later`, by the peers. */
  ghost predicate Observed(s: Cluster, i: NodeId, before: Local, answers: Answers, others: seq<seq<Step>>,
      again: Answers, later: seq<seq<Step>>, after: Local) {
    match before.phase
    case CheckingCluster => Scans(s, i, answers, others) && later == []
    case CoordinatingBootstrap => Scans(s, i, answers, others) && later == []
    case Bootstrapping => Scans(s, i, answers, others) && later == []
    case WaitingForBootstrap =>
      if after.phase.CoordinatingBootstrap? then others == [] && later == []
      else ScansTwice(s, i, before, answers, others, again, later)
    case _ => others == [] && later == []
  }

  /** The rounds that ask nobody. */
  lemma {:induction false} QuietRound(s: Cluster, i: NodeId, before: Local, answers: Answers, after: Local)
    returns (steps: seq<Step>)
    requires i in s.nodes && s.nodes[i] == NodeOf(before) && Moves(i, before, answers, answers, after)
    requires || before.phase.WaitingForPeers? || before.phase.Joining? || before.phase.ClusterActive?
    ensures IsRunOf(s, i, steps, [], NodeOf(after)) && Calm(steps)
  {
    if after == before {
      steps := [];
    } else {
      var step :=
        if before.phase.WaitingForPeers? then Wake(i)
        else if before.phase.ClusterActive? then Replicate(i, after.view)
        else if after.phase.ClusterActive? then Joined(i)
        else Timeout(i);
      One(s, i, step);
      CalmOne(step);
      steps := [step];
    }
  }

  /** Becoming active from bootstrapping takes a won election. */
  lemma {:induction false} ActiveMeansElected(i: NodeId, before: Local, answers: Answers, after: Local)
    requires before.phase.Bootstrapping? && Bootstraps(i, before, answers, after) && after.phase.ClusterActive?
    ensures Elects(i, ReadySet(i, before.trust, answers))
  {
    ReadyHeard(i, before.trust, answers);
  }

  /** Nobody's trust changes and every question is answered, by this node's peers and by all. */
  predicate CalmRound(before: Local, answers: Answers, others: seq<seq<Step>>, again: Answers,
      later: seq<seq<Step>>, after: Local) {
    && after.trust == before.trust && CalmParts(others) && CalmParts(later)
    && before.trust <= answers.Keys && before.trust <= again.Keys
  }

  /** Simulation: a round of the coordinator of node i, with answers its peers gave while the
      other nodes took any steps they could, is a legal run of Formation that consists of
      those steps and of steps of node i, and ends with node i where the round leaves it. It is
      calm if the round is, and a successful initialisation is its last step. */
  lemma {:induction false} RoundIsRun(s: Cluster, i: NodeId, before: Local, answers: Answers, others: seq<seq<Step>>,
      again: Answers, later: seq<seq<Step>>, after: Local) returns (steps: seq<Step>)
    requires i in s.nodes && s.nodes[i] == NodeOf(before) && Moves(i, before, answers, again, after)
    requires Observed(s, i, before, answers, others, again, later, after)
    ensures IsRunOf(s, i, steps, Flatten(others) + Flatten(later), NodeOf(after))
    ensures CalmRound(before, answers, others, again, later, after) ==> Calm(steps)
    ensures before.phase.Bootstrapping? && after.phase.ClusterActive? ==>
              steps != [] && steps[|steps| - 1] == Initialise(i, true)
  {
    assert Flatten(others) + [] == Flatten(others);
    if before.phase.WaitingForBootstrap? {
      if after.phase.CoordinatingBootstrap? {
        One(s, i, Timeout(i));
        CalmOne(Timeout(i));
        steps := [Timeout(i)];
      } else {
        steps := WaitingRound(s, i, before, answers, others, again, later);
      }
    } else if before.phase.WaitingForPeers? || before.phase.Joining? || before.phase.ClusterActive? {
      steps := QuietRound(s, i, before, answers, after);
    } else if before.phase.Bootstrapping? && Elects(i, ReadySet(i, before.trust, answers)) {
      steps := BootstrapRound(s, i, before, answers, others, after);
    } else {
      steps := ScanningRound(s, i, before, answers, others, after);
      if before.phase.Bootstrapping? && after.phase.ClusterActive? { ActiveMeansElected(i, before, answers, after); }
    }
  }

  /** Order and bound, of the coordinators themselves: in complete trust, after a calm run and
      a calm round, the initialisations there have been are in strictly increasing order of
      node id and at most n - 2, and one that the round made is the last of them. */
  lemma {:induction false} CoordinatorsInitialiseInOrder(start: Cluster, past: seq<Step>, i: NodeId, before: Local,
      answers: Answers, others: seq<seq<Step>>, again: Answers, later: seq<seq<Step>>, after: Local)
    returns (steps: seq<Step>)
    requires Start(start) && CompleteTrust(start) && LegalRun(start, past) && Calm(past)
    requires i in Run(start, past).nodes && Run(start, past).nodes[i] == NodeOf(before)
    requires Moves(i, before, answers, again, after)
    requires Observed(Run(start, past), i, before, answers, others, again, later, after)
    requires CalmRound(before, answers, others, again, later, after)
    ensures IsRunOf(Run(start, past), i, steps, Flatten(others) + Flatten(later), NodeOf(after))
    ensures LegalRun(start, past + steps) && Calm(past + steps)
    ensures var history := Run(start, past + steps).initialised;
            && Increasing(history)
            && |history| <= (if |start.nodes| < BOOTSTRAP_QUORUM then 0 else |start.nodes| - 2)
            && (before.phase.Bootstrapping? && after.phase.ClusterActive? ==>
                 history != [] && history[|history| - 1] == i)
  {
    var s := Run(start, past);
    steps := RoundIsRun(s, i, before, answers, others, again, later, after);
    RunConcat(start, past, steps);
    CalmConcat(past, steps);
    BootstrapOrderAndBound(start, past + steps);
    if before.phase.Bootstrapping? && after.phase.ClusterActive? { LastInitialised(s, steps, i); }
  }

  lemma {:induction false} LastInitialised(s: Cluster, steps: seq<Step>, i: NodeId)
    requires LegalRun(s, steps) && steps != [] && steps[|steps| - 1] == Initialise(i, true)
    ensures var history := Run(s, steps).initialised;
            history != [] && history[|history| - 1] == i
  {}

  /** Next in line, of the coordinator itself: in complete trust, after a calm run, the calm
      round that initialises is that of a node below two others and above only nodes that
      have a membership by then. */
  lemma {:induction false} CoordinatorIsNext(start: Cluster, past: seq<Step>, i: NodeId, before: Local,
      answers: Answers, others: seq<seq<Step>>, after: Local)
    requires Start(start) && CompleteTrust(start) && LegalRun(start, past) && Calm(past)
    requires i in Run(start, past).nodes && Run(start, past).nodes[i] == NodeOf(before)
    requires before.phase.Bootstrapping? && Scans(Run(start, past), i, answers, others)
    requires CalmParts(others) && before.trust <= answers.Keys
    requires Bootstraps(i, before, answers, after) && after.phase.ClusterActive?
    ensures var run := past + (BeginAndScan(Run(start, past), i, answers, others) + [Finish(i)]);
            && LegalRun(start, run)
            && (forall a :: a in start.nodes && a < i ==> a in Settled(Run(start, run)))
    ensures |Above(start.nodes.Keys, i)| >= 2
  {
    var s := Run(start, past);
    var steps := BeginAndScan(s, i, answers, others) + [Finish(i)];
    ActiveMeansElected(i, before, answers, after);
    WonElectionScan(s, i, before, answers, others);
    WholeScanIsCalm(s, i, answers, others);
    RunConcat(start, past, steps);
    CalmConcat(past, steps);
    InitialiserIsNext(start, past + steps, i);
  }

  /** No overtaking, of the coordinator itself: when its round initialises a cluster, in
      whatever the cluster has been through and whatever the others do meanwhile, each
      lower-numbered peer that answered, trusted it and had two peers said that it was no
      longer bootstrapping. */
  lemma {:induction false} CoordinatorDoesNotOvertake(start: Cluster, past: seq<Step>, i: NodeId, before: Local,
      answers: Answers, others: seq<seq<Step>>, after: Local, a: NodeId)
    requires Start(start) && LegalRun(start, past) && i in Run(start, past).nodes
    requires Run(start, past).nodes[i] == NodeOf(before) && before.phase.Bootstrapping?
    requires Scans(Run(start, past), i, answers, others)
    requires Bootstraps(i, before, answers, after) && after.phase.ClusterActive?
    requires a < i && a in before.trust && a in answers && i in answers[a].trustedPeers
    requires |answers[a].trustedPeers| >= MIN_PEERS_FOR_BOOTSTRAP
    ensures !answers[a].status.Bootstrapping?
  {
    var s := Run(start, past);
    var steps := BeginAndScan(s, i, answers, others) + [Finish(i)];
    ReadyHeard(i, before.trust, answers);
    ActiveMeansElected(i, before, answers, after);
    WonElectionScan(s, i, before, answers, others);
    RunConcat(start, past, steps);
    NoOvertaking(start, past + steps, i, a);
  }
}
