/** Why agreement asks for its guards: for each of them a run that meets all the others and still
    delivers two leaves that lie on no common chain. */
module Forks {
  import opened Committees
  import opened Leaves
  import opened Replicas
  import opened Protocol
  import opened ForkRuns
  import opened TwoChainForks
  import opened ThreeChainForks

  /** In every sound committee with a quorum, an honest node outside it, and three groups of honest nodes any
      two of which make a quorum with the Byzantine ones: for each guard a run that meets all the others
      ends in disagreement. */
  lemma GuardsAreNeeded(c: Committee, signers: set<Node>, h: Node, t: Trio, g: Guard)
    returns (rule: Rule, run: seq<Network>, steps: seq<Step>)
    requires c.Sound() && c.SuccessQuorum(signers) && h !in signers && c.Honest(h) && IsTrio(c, t)
    ensures IsRunBut(c, rule, {g}, run, steps) && ArePrompt(run, steps) && Disagrees(c, run[|steps|])
  {
    var voters := set n | n in signers && c.Honest(n);
    match g {
      case GenesisNamed =>
        rule := TwoChainRule;
        run, steps := GenesisClaimForks(c, signers, voters, h, ClaimOf(signers));
      case WalksFall =>
        rule := TwoChainRule;
        run, steps := ClimbingWalkForks(c, t, SplitForkOf(t));
      case Settled =>
        rule := TwoChainRule;
        run, steps := UnsettledForks(c, signers, voters, h, ForkOf(signers));
      case NotOvertaken =>
        rule := TwoChainRule;
        run, steps := OvertakenForks(c, signers, voters, h, ForkOf(signers));
      case EntryCertified =>
        rule := ThreeChainRule;
        run, steps := EquivocationForks(c, signers, voters, h, EquivocationOf(signers));
      case StoreClosed =>
        rule := ThreeChainRule;
        run, steps := OpenStoreForks(c, t, RowsOf(t));
      case NoLostLock =>
        rule := TwoChainRule;
        run, steps := LostLockForks(c, signers, voters, h, ForkOf(signers));
    }
  }

  /** Four nodes of equal stake, one of them Byzantine, are such a committee. */
  lemma FourNodes(c: Committee)
    requires |c.table| == 4 && c.byzantine == {3} && c.success == 3 && c.failure == 2
    requires forall i | 0 <= i < 4 :: c.table[i] == Entry(i, 1)
    ensures IsParty(c, {1, 2, 3}, {1, 2}, 0)
    ensures IsTrio(c, Trio({1}, {0}, {2}, {0, 1, 3}, {0, 2, 3}, {1, 2, 3}))
  {
    forall s: set<Node> ensures Weight(c.table, s) == Bit(0, s) + Bit(1, s) + Bit(2, s) + Bit(3, s) {
      WeightOfFour(c.table, s);
    }
    UnitTotal(c.table);
  }

  function Bit(v: Node, s: set<Node>): nat { if v in s then 1 else 0 }

  lemma WeightOfFour(table: seq<Entry>, s: set<Node>)
    requires |table| == 4 && forall i | 0 <= i < 4 :: table[i] == Entry(i, 1)
    ensures Weight(table, s) == Bit(0, s) + Bit(1, s) + Bit(2, s) + Bit(3, s)
  {
    assert Weight(table[1..][1..][1..], s) == Bit(3, s);
    assert Weight(table[1..][1..], s) == Bit(2, s) + Bit(3, s);
  }
}
