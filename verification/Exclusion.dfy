/** What once-per-view voting means for certificates across the whole committee, crashes included. */
module Exclusion {
  import opened Committees
  import opened Leaves
  import Transmit

  type Nodes = map<Node, Transmit.NodeState>

  /** A run of the committee: at each point one node takes one of its own steps. */
  predicate IsRun(run: seq<Nodes>, who: seq<Node>, steps: seq<Transmit.Step>)
  {
    && |run| == |steps| + 1 && |who| == |steps|
    && (forall h | h in run[0] :: run[0][h] == Transmit.FRESH)
    && forall i | 0 <= i < |steps| ::
         && who[i] in run[i] && Transmit.Enabled(run[i][who[i]], steps[i])
         && run[i + 1] == run[i][who[i] := Transmit.Next(run[i][who[i]], steps[i])]
  }

  /** A quorum certificate on `leaf`: every honest signer has sent a quorum or extended vote for it. */
  predicate QuorumCertified(c: Committee, nodes: Nodes, view: nat, leaf: Leaf, signers: set<Node>)
  {
    c.SuccessQuorum(signers) &&
    forall h | h in signers && c.Honest(h) ::
      h in nodes && (Transmit.QuorumVote(view, leaf) in nodes[h].sent ||
                     Transmit.ExtendedQuorumVote(view, leaf) in nodes[h].sent)
  }

  predicate TimeoutCertified(c: Committee, nodes: Nodes, view: nat, signers: set<Node>)
  {
    c.SuccessQuorum(signers) &&
    forall h | h in signers && c.Honest(h) :: h in nodes && Transmit.TimeoutVote(view) in nodes[h].sent
  }

  lemma {:induction false} NodesKeep(run: seq<Nodes>, who: seq<Node>, steps: seq<Transmit.Step>, i: nat, h: Node)
    requires IsRun(run, who, steps) && i < |run| && h in run[i]
    ensures Transmit.Inv(run[i][h], Transmit.Vote)
  {
    if i > 0 {
      NodesKeep(run, who, steps, i - 1, h);
      if who[i - 1] == h {
        Transmit.StepKeeps(run[i - 1][h], steps[i - 1], Transmit.Vote);
      }
    }
  }

  /** One node never sends two different votes for one view. */
  lemma OneVotePerView(run: seq<Nodes>, who: seq<Node>, steps: seq<Transmit.Step>, i: nat, h: Node,
                       a: Transmit.Message, b: Transmit.Message)
    requires IsRun(run, who, steps) && i < |run| && h in run[i]
    requires a in run[i][h].sent && b in run[i][h].sent && a.view == b.view
    requires Transmit.IsVote(a) && Transmit.IsVote(b)
    ensures a == b
  {
    NodesKeep(run, who, steps, i, h);
    var sent := run[i][h].sent;
    var j :| 0 <= j < |sent| && sent[j] == a;
    var k :| 0 <= k < |sent| && sent[k] == b;
  }

  /** No view ever has both a quorum certificate and a timeout certificate. */
  lemma QuorumExcludesTimeout(c: Committee, run: seq<Nodes>, who: seq<Node>, steps: seq<Transmit.Step>, i: nat,
                              view: nat, leaf: Leaf, quorum: set<Node>, timeout: set<Node>)
    requires c.Sound() && IsRun(run, who, steps) && i < |run|
    requires QuorumCertified(c, run[i], view, leaf, quorum)
    ensures !TimeoutCertified(c, run[i], view, timeout)
  {
    if TimeoutCertified(c, run[i], view, timeout) {
      var h := SuccessQuorumsShareHonest(c, quorum, timeout);
      var vote := if Transmit.QuorumVote(view, leaf) in run[i][h].sent
                  then Transmit.QuorumVote(view, leaf) else Transmit.ExtendedQuorumVote(view, leaf);
      OneVotePerView(run, who, steps, i, h, vote, Transmit.TimeoutVote(view));
    }
  }

  /** Nor two quorum certificates for different leaves. */
  lemma QuorumCertifiesOneLeaf(c: Committee, run: seq<Nodes>, who: seq<Node>, steps: seq<Transmit.Step>, i: nat,
                               view: nat, a: Leaf, b: Leaf, forA: set<Node>, forB: set<Node>)
    requires c.Sound() && IsRun(run, who, steps) && i < |run|
    requires QuorumCertified(c, run[i], view, a, forA) && QuorumCertified(c, run[i], view, b, forB)
    ensures a == b
  {
    var h := SuccessQuorumsShareHonest(c, forA, forB);
    var va := if Transmit.QuorumVote(view, a) in run[i][h].sent
              then Transmit.QuorumVote(view, a) else Transmit.ExtendedQuorumVote(view, a);
    var vb := if Transmit.QuorumVote(view, b) in run[i][h].sent
              then Transmit.QuorumVote(view, b) else Transmit.ExtendedQuorumVote(view, b);
    OneVotePerView(run, who, steps, i, h, va, vb);
  }
}
