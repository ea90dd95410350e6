/** Agreement without an assumption on the acceptance walk: it is enough that every leaf a replica
    saves carries a valid certificate of an earlier view. */
module JustifiedRuns {
  import opened Committees
  import opened Leaves
  import opened Decide
  import opened Replicas
  import opened Protocol
  import opened Agreement

  predicate EarlierJustified(c: Committee, votes: set<CastVote>, l: Leaf)
  {
    l.Block? && ValidQC(c, votes, l.justify) && l.justify.view < l.view
  }

  /** A leaf that enters a store is justified by an earlier view than its own. */
  predicate SavesJustified(step: Step)
  {
    (step.ProposalReceived? || step.LeafSaved?) && step.leaf.Block? ==>
      step.leaf.justify.view < step.leaf.view && NamesGenesis(step.leaf.justify)
  }

  /** A run in which that holds, in place of the guard on acceptance walks. */
  predicate IsJustifiedRun(c: Committee, rule: Rule, run: seq<Network>, steps: seq<Step>)
  {
    && IsRunBut(c, rule, {WalksFall}, run, steps)
    && forall i | 0 <= i < |steps| :: SavesJustified(steps[i])
  }

  /** What the state map holds is genesis or justified by an earlier view. */
  predicate StoreOk(c: Committee, votes: set<CastVote>, s: Store)
  {
    forall v | v in s.views && s.views[v].LeafView? ::
      s.views[v].leaf == Genesis || EarlierJustified(c, votes, s.views[v].leaf)
  }

  /** So is whatever may be voted for, and is saved once more for the vote. */
  predicate AcceptedOk(c: Committee, votes: set<CastVote>, r: Replica)
  {
    && (forall l | l in r.checking :: EarlierJustified(c, votes, l))
    && (forall l | l in r.Votable() :: EarlierJustified(c, votes, l))
  }

  predicate StoresOk(c: Committee, n: Network)
  {
    forall h | h in n.replicas :: StoreOk(c, n.votes, n.replicas[h].store) && AcceptedOk(c, n.votes, n.replicas[h])
  }

  lemma OkGrows(c: Committee, votes: set<CastVote>, more: set<CastVote>, r: Replica)
    requires StoreOk(c, votes, r.store) && AcceptedOk(c, votes, r) && votes <= more
    ensures StoreOk(c, more, r.store) && AcceptedOk(c, more, r)
  {}

  lemma SaveKeepsStore(c: Committee, votes: set<CastVote>, s: Store, l: Leaf, delta: bool)
    requires StoreOk(c, votes, s) && EarlierJustified(c, votes, l)
    ensures StoreOk(c, votes, UpdateLeaf(s, l, delta))
  {}

  lemma ReceiveKeepsOk(c: Committee, rule: Rule, votes: set<CastVote>, r: Replica, p: Leaf, found: Lookup)
    requires StoreOk(c, votes, r.store) && AcceptedOk(c, votes, r) && EarlierJustified(c, votes, p)
    ensures StoreOk(c, votes, Receive(rule, r, p, found).store) && AcceptedOk(c, votes, Receive(rule, r, p, found))
  {
    SaveKeepsStore(c, votes, r.store, p, false);
  }

  lemma TakeUpKeepsOk(c: Committee, rule: Rule, votes: set<CastVote>, r: Replica, p: Leaf, fails: bool)
    requires StoreOk(c, votes, r.store) && AcceptedOk(c, votes, r) && p in r.pending && p.Block?
    ensures StoreOk(c, votes, TakeUp(rule, r, p, fails).store) && AcceptedOk(c, votes, TakeUp(rule, r, p, fails))
  {
    var r' := TakeUp(rule, r, p, fails);
    assert r'.Votable() == r.Votable();
  }

  lemma StepKeepsStores(c: Committee, rule: Rule, n: Network, step: Step)
    requires StoresOk(c, n) && EnabledBut(c, rule, {WalksFall}, n, step) && SavesJustified(step)
    ensures StoresOk(c, Next(rule, n, step))
  {
    var n', r := Next(rule, n, step), n.replicas[step.node];
    match step {
      case ProposalReceived(_, p, found) => ReceiveKeepsOk(c, rule, n.votes, r, p, found);
      case ProposalHandled(_, p, fails) => TakeUpKeepsOk(c, rule, n.votes, r, p, fails);
      case LeafSaved(_, l, delta) => SaveKeepsStore(c, n.votes, r.store, l, delta);
      case _ =>
    }
    forall h | h in n'.replicas
      ensures StoreOk(c, n'.votes, n'.replicas[h].store) && AcceptedOk(c, n'.votes, n'.replicas[h])
    {
      OkGrows(c, n.votes, n'.votes, n'.replicas[h]);
    }
  }

  /** The acceptance rule is only ever applied to a leaf along whose parents views fall. */
  lemma StoreOkWalkFalls(c: Committee, rule: Rule, n: Network, r: Replica, p: Leaf)
    requires c.Sound() && Inv(c, rule, n) && StoreOk(c, n.votes, r.store) && p.Block?
    ensures WalkFalls(r, p)
  {
    var start := StartAt(r.store, p.justify.view);
    if start.Some? && start.value.Block? {
      assert EarlierJustified(c, n.votes, start.value);
      CertifiedLeaf(c, rule, n, start.value.justify);
      CertifiedFalls(c, rule, n, start.value.justify);
    }
  }

  lemma JustifiedStepIsStep(c: Committee, rule: Rule, n: Network, step: Step)
    requires c.Sound() && Inv(c, rule, n) && StoresOk(c, n) && EnabledBut(c, rule, {WalksFall}, n, step)
    ensures Enabled(c, rule, n, step)
  {
    if step.ProposalChecked? {
      StoreOkWalkFalls(c, rule, n, n.replicas[step.node], step.leaf);
    }
  }

  lemma JustifiedStepKeeps(c: Committee, rule: Rule, n: Network, step: Step)
    requires c.Sound() && Inv(c, rule, n) && StoresOk(c, n)
    requires EnabledBut(c, rule, {WalksFall}, n, step) && SavesJustified(step)
    ensures Inv(c, rule, Next(rule, n, step)) && StoresOk(c, Next(rule, n, step))
  {
    JustifiedStepIsStep(c, rule, n, step);
    StepKeeps(c, rule, n, step);
    StepKeepsStores(c, rule, n, step);
  }

  lemma InitialOk(c: Committee, rule: Rule, n: Network)
    requires Initial(n)
    ensures Inv(c, rule, n) && StoresOk(c, n)
  {}

  lemma StepOf(c: Committee, rule: Rule, run: seq<Network>, steps: seq<Step>, i: nat)
    requires IsJustifiedRun(c, rule, run, steps) && i < |steps|
    ensures EnabledBut(c, rule, {WalksFall}, run[i], steps[i]) && SavesJustified(steps[i])
    ensures run[i + 1] == Next(rule, run[i], steps[i])
  {}

  lemma {:induction false} JustifiedKeeps(c: Committee, rule: Rule, run: seq<Network>, steps: seq<Step>, i: nat)
    requires c.Sound() && IsJustifiedRun(c, rule, run, steps) && i < |run|
    ensures Inv(c, rule, run[i]) && StoresOk(c, run[i])
  {
    if i == 0 {
      InitialOk(c, rule, run[0]);
    } else {
      JustifiedKeeps(c, rule, run, steps, i - 1);
      StepOf(c, rule, run, steps, i - 1);
      JustifiedStepKeeps(c, rule, run[i - 1], steps[i - 1]);
    }
  }

  /** Such a run meets the guard on acceptance walks by itself. */
  lemma JustifiedRunIsRun(c: Committee, rule: Rule, run: seq<Network>, steps: seq<Step>)
    requires c.Sound() && IsJustifiedRun(c, rule, run, steps)
    ensures IsRun(c, rule, run, steps)
  {
    forall i | 0 <= i < |steps| ensures Enabled(c, rule, run[i], steps[i]) {
      JustifiedKeeps(c, rule, run, steps, i);
      StepOf(c, rule, run, steps, i);
      JustifiedStepIsStep(c, rule, run[i], steps[i]);
    }
  }

  /** Agreement under both rules: any two leaves ever delivered by honest replicas lie on one chain. */
  lemma JustifiedAgreement(c: Committee, rule: Rule, run: seq<Network>, steps: seq<Step>, i: nat, j: nat,
                           g: Node, h: Node, a: Leaf, b: Leaf)
    requires c.Sound() && IsJustifiedRun(c, rule, run, steps) && i <= j < |run|
    requires g in run[i].replicas && h in run[j].replicas
    requires a in run[i].replicas[g].log && b in run[j].replicas[h].log
    ensures Comparable(a, b)
  {
    JustifiedRunIsRun(c, rule, run, steps);
    DecidedLeavesAgree(c, rule, run, steps, i, j, g, h, a, b);
  }
}
