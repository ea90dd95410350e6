/** The consistency checker accepts what replicas deliver in any run. */
module CheckedRuns {
  import opened Committees
  import opened Leaves
  import opened Replicas
  import opened Protocol
  import opened Agreement
  import opened Delivery
  import opened Consistency

  /** Every justify certificate from `l` back to genesis is for its leaf's own view. */
  predicate Matched(l: Leaf)
  {
    l.Block? ==> l.justify.view == l.justify.leaf.View() && Matched(l.justify.leaf)
  }

  lemma {:induction false} OnPathBelow(l: Leaf, x: Leaf)
    requires Falls(l) && Matched(l) && x in Path(l)
    ensures x.Block? && Matched(x) && (x != l ==> x.View() < l.View())
  {
    if x != l {
      OnPathBelow(l.justify.leaf, x);
    }
  }

  /** Leaves of one path are told apart by their views, and two with nothing between are parent and child. */
  lemma {:induction false} OnPath(l: Leaf, x: Leaf, y: Leaf)
    requires Falls(l) && Matched(l) && x in Path(l) && y in Path(l)
    ensures x.View() == y.View() ==> x == y
    ensures x.View() < y.View() ==> Linked(x, y) || exists z :: z in Path(l) && x.View() < z.View() < y.View()
  {
    OnPathBelow(l, x);
    OnPathBelow(l, y);
    if x != l && y != l {
      OnPath(l.justify.leaf, x, y);
      assert forall z | z in Path(l.justify.leaf) :: z in Path(l);
    } else if x != l {
      OnPathBelow(l.justify.leaf, x);
      var parent := l.justify.leaf;
      assert parent in Path(parent);
      assert parent in Path(l);
    }
  }

  /** The nodes' anchors lie on one chain and each node reported its whole path. */
  ghost predicate ReportsOfOneChain(anchors: map<nat, Leaf>, n: map<nat, NodeMap>)
  {
    && n.Keys == anchors.Keys
    && (forall id | id in anchors :: Falls(anchors[id]) && Matched(anchors[id]) && Records(n[id], Path(anchors[id])))
    && (forall i, j | i in anchors && j in anchors :: Comparable(anchors[i], anchors[j]))
  }

  lemma FirstRecorded(m: NodeMap, log: seq<Leaf>, v: nat)
    requires Records(m, log) && v in FirstLeaves(m)
    ensures FirstLeaves(m)[v] in log && FirstLeaves(m)[v].View() == v
  {
    assert m[v][0] in m[v];
  }

  lemma ReportedOnPath(anchors: map<nat, Leaf>, n: map<nat, NodeMap>, id: nat, v: nat)
    requires ReportsOfOneChain(anchors, n)
    ensures At(Sanitized(n), id, v).Some? ==>
              && id in anchors
              && At(Sanitized(n), id, v).value in Path(anchors[id])
              && At(Sanitized(n), id, v).value.View() == v
  {
    if id in n && v in FirstLeaves(n[id]) {
      FirstRecorded(n[id], Path(anchors[id]), v);
    }
  }

  lemma PathReported(anchors: map<nat, Leaf>, n: map<nat, NodeMap>, id: nat, l: Leaf)
    requires ReportsOfOneChain(anchors, n) && id in anchors && l in Path(anchors[id])
    ensures l.View() in FirstLeaves(n[id]) && l.View() in ViewsOf(Sanitized(n))
  {
    assert At(Sanitized(n), id, l.View()).Some?;
  }

  /** Two reports can be read off one path. */
  lemma CommonPath(anchors: map<nat, Leaf>, n: map<nat, NodeMap>, i: nat, j: nat, x: Leaf, y: Leaf)
    returns (top: nat)
    requires ReportsOfOneChain(anchors, n) && i in anchors && j in anchors
    requires x in Path(anchors[i]) && y in Path(anchors[j])
    ensures top in anchors && x in Path(anchors[top]) && y in Path(anchors[top])
  {
    assert Comparable(anchors[i], anchors[j]);
    if Extends(anchors[i], anchors[j]) {
      PathPrefix(anchors[i], anchors[j]);
      top := i;
    } else {
      PathPrefix(anchors[j], anchors[i]);
      top := j;
    }
  }

  lemma SelfConsistentReports(anchors: map<nat, Leaf>, n: map<nat, NodeMap>, id: nat)
    requires ReportsOfOneChain(anchors, n) && id in n
    ensures SelfConsistent(n[id])
  {
    forall v, i | v in n[id] && 0 <= i < |n[id][v]| ensures n[id][v][i] == n[id][v][0] {
      OnPath(anchors[id], n[id][v][i], n[id][v][0]);
    }
  }

  lemma HistoryOfReports(anchors: map<nat, Leaf>, n: map<nat, NodeMap>, id: nat)
    requires ReportsOfOneChain(anchors, n) && id in n
    ensures Consecutive(FirstLeaves(n[id]), HistoryOk)
  {
    var m := FirstLeaves(n[id]);
    forall a, b | Follows(m.Keys, a, b) ensures HistoryOk(m[a], m[b]) {
      OnPath(anchors[id], m[a], m[b]);
      OnPathBelow(anchors[id], m[b]);
      if !Linked(m[a], m[b]) {
        var z :| z in Path(anchors[id]) && m[a].View() < z.View() < m[b].View();
        PathReported(anchors, n, id, z);
        assert false;
      }
    }
  }

  lemma NodesAgreeOnReports(anchors: map<nat, Leaf>, n: map<nat, NodeMap>)
    requires ReportsOfOneChain(anchors, n)
    ensures NodesAgree(Sanitized(n))
  {
    var s := Sanitized(n);
    forall i, j, v | At(s, i, v).Some? && At(s, j, v).Some? ensures At(s, i, v) == At(s, j, v) {
      ReportedOnPath(anchors, n, i, v);
      ReportedOnPath(anchors, n, j, v);
      var top := CommonPath(anchors, n, i, j, At(s, i, v).value, At(s, j, v).value);
      OnPath(anchors[top], At(s, i, v).value, At(s, j, v).value);
    }
  }

  lemma ReportsLinked(anchors: map<nat, Leaf>, n: map<nat, NodeMap>)
    requires ReportsOfOneChain(anchors, n)
    ensures ChainLinked(Sanitized(n))
  {
    var s := Sanitized(n);
    forall i, j, a, b | At(s, i, a).Some? && At(s, j, b).Some? && Follows(ViewsOf(s), a, b)
      ensures Linked(At(s, i, a).value, At(s, j, b).value)
    {
      var x, y := At(s, i, a).value, At(s, j, b).value;
      ReportedOnPath(anchors, n, i, a);
      ReportedOnPath(anchors, n, j, b);
      var top := CommonPath(anchors, n, i, j, x, y);
      OnPath(anchors[top], x, y);
      if !Linked(x, y) {
        var z :| z in Path(anchors[top]) && x.View() < z.View() < y.View();
        PathReported(anchors, n, top, z);
        assert false;
      }
    }
  }

  lemma OneChainIsConsistent(anchors: map<nat, Leaf>, n: map<nat, NodeMap>)
    requires ReportsOfOneChain(anchors, n)
    ensures Consistent(n)
  {
    forall id | id in n ensures SelfConsistent(n[id]) {
      SelfConsistentReports(anchors, n, id);
    }
    forall id | id in Sanitized(n) ensures Consecutive(Sanitized(n)[id], HistoryOk) {
      HistoryOfReports(anchors, n, id);
    }
    NodesAgreeOnReports(anchors, n);
    ReportsLinked(anchors, n);
  }

  lemma CertifiedMatched(c: Committee, rule: Rule, n: Network, qc: QC)
    requires c.Sound() && Inv(c, rule, n) && ValidQC(c, n.votes, qc)
    ensures Matched(qc.leaf)
    decreases qc.view
  {
    CertifiedLeaf(c, rule, n, qc);
    if qc.view > 0 {
      CertifiedLeaf(c, rule, n, qc.leaf.justify);
      CertifiedMatched(c, rule, n, qc.leaf.justify);
    }
  }

  /** The whole path to the anchor has been delivered. */
  predicate IsGapless(r: Replica)
  {
    r.log == Path(r.anchor)
  }

  /** Entry `id` of `n` holds what replica `nodes[id]` delivered. */
  ghost predicate Reports(net: Network, nodes: map<nat, Node>, n: map<nat, NodeMap>)
  {
    n.Keys == nodes.Keys && forall id | id in nodes :: ReportOf(net, nodes[id], n[id])
  }

  ghost predicate ReportOf(net: Network, h: Node, m: NodeMap)
  {
    h in net.replicas && IsGapless(net.replicas[h]) && Records(m, net.replicas[h].log)
  }

  lemma AnchorsMatched(c: Committee, rule: Rule, net: Network, h: Node)
    requires c.Sound() && Inv(c, rule, net) && h in net.replicas
    ensures Falls(net.replicas[h].anchor) && Matched(net.replicas[h].anchor)
  {
    var r := net.replicas[h];
    assert AnchorOk(rule, c, net.votes, r) && LogOk(r);
    CommittedCertified(c, rule, net, r.anchor, r.proof);
    CertifiedMatched(c, rule, net, CertificateOf(rule, r.anchor, r.proof));
  }

  lemma AnchorsComparable(c: Committee, rule: Rule, net: Network, g: Node, h: Node)
    requires c.Sound() && Inv(c, rule, net) && g in net.replicas && h in net.replicas
    ensures Comparable(net.replicas[g].anchor, net.replicas[h].anchor)
  {
    var x, y := net.replicas[g], net.replicas[h];
    assert AnchorOk(rule, c, net.votes, x) && AnchorOk(rule, c, net.votes, y);
    CommittedComparable(c, rule, net, x.anchor, x.proof, y.anchor, y.proof);
  }

  /** What holds of the anchors of all replicas. */
  ghost predicate AnchorsOnOneChain(net: Network)
  {
    && (forall h | h in net.replicas :: Falls(net.replicas[h].anchor) && Matched(net.replicas[h].anchor))
    && (forall g, h | g in net.replicas && h in net.replicas :: Comparable(net.replicas[g].anchor, net.replicas[h].anchor))
  }

  lemma AllAnchors(c: Committee, rule: Rule, net: Network)
    requires c.Sound() && Inv(c, rule, net)
    ensures AnchorsOnOneChain(net)
  {
    forall h | h in net.replicas ensures Falls(net.replicas[h].anchor) && Matched(net.replicas[h].anchor) {
      AnchorsMatched(c, rule, net, h);
    }
    forall g, h | g in net.replicas && h in net.replicas
      ensures Comparable(net.replicas[g].anchor, net.replicas[h].anchor)
    {
      AnchorsComparable(c, rule, net, g, h);
    }
  }

  lemma ReportsAreOneChain(net: Network, nodes: map<nat, Node>, n: map<nat, NodeMap>)
    returns (anchors: map<nat, Leaf>)
    requires AnchorsOnOneChain(net) && Reports(net, nodes, n)
    ensures ReportsOfOneChain(anchors, n)
  {
    anchors := map id | id in nodes :: net.replicas[nodes[id]].anchor;
  }

  // ---- the events of a run ----

  /** The decide event a step makes `h` broadcast, if any. */
  function Event(rule: Rule, n: Network, step: Step, h: Node): seq<Leaf>
  {
    if step.ProposalHandled? && step.leaf.Block? && step.node == h && h in n.replicas && !step.fails
    then DecideEvent(rule, n.replicas[h], step.leaf) else []
  }

  /** What the checker has collected from `h` after `i` steps. */
  function Collected(rule: Rule, run: seq<Network>, steps: seq<Step>, i: nat, h: Node): NodeMap
    requires i <= |steps| && |run| == |steps| + 1
  {
    if i == 0 then map[] else PushAll(Collected(rule, run, steps, i - 1, h), Event(rule, run[i - 1], steps[i - 1], h))
  }

  /** An event holds exactly what the step adds to the log. */
  lemma EventIsLogGrowth(c: Committee, rule: Rule, n: Network, step: Step, h: Node)
    requires Enabled(c, rule, n, step) && h in n.replicas
    ensures h in Next(rule, n, step).replicas
    ensures Next(rule, n, step).replicas[h].log == n.replicas[h].log + Reverse(Event(rule, n, step, h))
  {
    if Event(rule, n, step, h) == [] {
      assert Next(rule, n, step).replicas[h].log == n.replicas[h].log;
    }
  }

  lemma {:induction false} CollectedRecordsLog(c: Committee, rule: Rule, run: seq<Network>, steps: seq<Step>, i: nat, h: Node)
    requires IsRun(c, rule, run, steps) && i < |run| && h in run[0].replicas
    ensures h in run[i].replicas && Records(Collected(rule, run, steps, i, h), run[i].replicas[h].log)
  {
    if i > 0 {
      CollectedRecordsLog(c, rule, run, steps, i - 1, h);
      EventIsLogGrowth(c, rule, run[i - 1], steps[i - 1], h);
      EventRecorded(Collected(rule, run, steps, i - 1, h), Event(rule, run[i - 1], steps[i - 1], h), run[i - 1].replicas[h].log);
    }
  }

  lemma CollectedReport(c: Committee, rule: Rule, run: seq<Network>, steps: seq<Step>, i: nat, h: Node)
    requires c.Sound() && IsRun(c, rule, run, steps) && i < |run| && h in run[0].replicas
    requires rule.TwoChainRule? ==> FoundAll(run, i, h)
    ensures ReportOf(run[i], h, Collected(rule, run, steps, i, h))
  {
    CollectedRecordsLog(c, rule, run, steps, i, h);
    Gapless(c, rule, run, steps, i, h);
  }

  /** The checker's network map: an entry for each watched node that has sent an event. */
  function CollectedAll(rule: Rule, run: seq<Network>, steps: seq<Step>, i: nat, nodes: map<nat, Node>): map<nat, NodeMap>
    requires i <= |steps| && |run| == |steps| + 1
  {
    map id | id in nodes && Collected(rule, run, steps, i, nodes[id]) != map[] :: Collected(rule, run, steps, i, nodes[id])
  }

  /** In any run the checker accepts the decide events collected so far from any honest replicas; under
      HotStuff-2, from those whose decides found all ancestors. */
  lemma CheckerAcceptsRuns(c: Committee, rule: Rule, run: seq<Network>, steps: seq<Step>, i: nat, nodes: map<nat, Node>)
    requires c.Sound() && IsRun(c, rule, run, steps) && i < |run|
    requires forall id | id in nodes ::
               nodes[id] in run[0].replicas && (rule.TwoChainRule? ==> FoundAll(run, i, nodes[id]))
    ensures Consistent(CollectedAll(rule, run, steps, i, nodes))
  {
    RunKeeps(c, rule, run, steps, i);
    AllAnchors(c, rule, run[i]);
    var n := CollectedAll(rule, run, steps, i, nodes);
    var heard := map id | id in n :: nodes[id];
    forall id | id in heard ensures ReportOf(run[i], heard[id], n[id]) {
      CollectedReport(c, rule, run, steps, i, heard[id]);
    }
    var anchors := ReportsAreOneChain(run[i], heard, n);
    OneChainIsConsistent(anchors, n);
  }
}
