/** Every step keeps the agreement invariant, and what that gives for whole runs. */
module Agreement {
  import opened Committees
  import opened Leaves
  import opened Decide
  import opened Replicas
  import opened Protocol

  // ---- receiving a proposal ----

  /** An accepted proposal is justified at or above the lock. */
  lemma AcceptedAboveLock(r: Replica, p: Leaf)
    requires r.store.Keyed() && p.Block? && WalkFalls(r, p) && Accepts(r, p)
    ensures p.justify.view >= r.locked
  {
    AcceptedNotBelowLock(r.store, p, r.locked);
  }

  /** The exact interleaving condition: accepting keeps the discipline of locks if and only if no
      proposal still waiting for the vote task will lock above the new one's justify view, and the new
      one will not lock above the justify view of one accepted for a higher view. */
  lemma AcceptKeepsLocksIffOrdered(c: Committee, rule: Rule, votes: set<CastVote>, r: Replica, p: Leaf, r': Replica)
    requires LocksOk(rule, c, votes, r) && p.Block? && ValidQC(c, votes, p.justify) && p.justify.view >= r.locked
    requires r'.checking <= r.checking && r'.pending == r.pending + {p} && r'.validated == r.validated
    requires r'.locked == r.locked && r'.marked == r.marked
    ensures LocksOk(rule, c, votes, r') <==> IsSettled(rule, r, p) && IsNotOvertaken(rule, r, p)
  {}

  // ---- the three-chain walk ----

  /** What `EntryIsCertified` decides: the three-chain walk visits the certified leaf and its ancestors
      if and only if the state map's entry at the justify view is that leaf. */
  lemma WalkIffEntryCertified(s: Store, qc: QC, anchor: nat)
    requires qc.leaf in s.leaves && s.HasState(qc.view) && qc.leaf.View() == qc.view != anchor
    ensures VisitedFrom(s, qc.view, anchor) == Visited(s, qc.leaf, anchor) <==> EntryIsCertified(s, qc)
  {
    var certified, walked := Visited(s, qc.leaf, anchor), VisitedFrom(s, qc.view, anchor);
    assert certified[0] == qc.leaf;
    if walked == certified {
      assert walked[0] == StartAt(s, qc.view).value;
    }
  }

  predicate Stored(s: Store, l: Leaf) { l in s.leaves && s.HasState(l.View()) }

  /** What closure decides: a proposal that should raise the three-chain lock does so if and only if its
      parent and grandparent are stored. */
  lemma LockReachedIffStored(r: Replica, p: Leaf)
    requires p.Block? && EntryIsCertified(r.seen, p.justify)
    requires r.anchor.View() <= r.locked < LockOf(ThreeChainRule, p)
    ensures HandleValidated(ThreeChainRule, r, p).locked >= LockOf(ThreeChainRule, p) <==>
            Stored(r.seen, p.justify.leaf) && Stored(r.seen, p.justify.leaf.justify.leaf)
  {
    var parent := p.justify.leaf;
    var a := VisitedFrom(r.seen, p.justify.view, r.anchor.View());
    assert a == Visited(r.seen, parent, r.anchor.View());
    if Stored(r.seen, parent) && Stored(r.seen, parent.justify.leaf) {
      assert a[0] == parent && a[1..] == Visited(r.seen, parent.justify.leaf, r.anchor.View());
      assert a[1] == parent.justify.leaf;
      assert ChainOf(p.view, a, 2);
    } else if Stored(r.seen, parent) {
      assert Visited(r.seen, parent.justify.leaf, r.anchor.View()) == [];
      assert |a| < 2;
    } else {
      assert a == [];
    }
  }

  /** On a ready store the three-chain walk starts with the proposal's certified ancestors. */
  lemma ThreeChainWalk(s: Store, p: Leaf, anchor: nat)
    requires p.Block? && EntryIsCertified(s, p.justify)
    requires Reaches(s, p.justify.leaf, anchor)
    ensures var a := VisitedFrom(s, p.justify.view, anchor);
            && (p.justify.leaf.View() != anchor ==> |a| > 0 && a[0] == p.justify.leaf)
            && (|a| > 0 ==> a[0] == p.justify.leaf)
            && (|a| > 1 ==> a[0].Block? && a[1] == a[0].justify.leaf)
            && (|a| > 2 ==> a[1].Block? && a[2] == a[1].justify.leaf)
            && (|a| == 1 && a[0].Block? ==> a[0].justify.leaf.View() == anchor)
            && (|a| > 2 ==> a[2..] == Visited(s, a[2], anchor) && Reaches(s, a[2], anchor))
  {
    var a := VisitedFrom(s, p.justify.view, anchor);
    if |a| > 2 {
      VisitedAt(s, p.justify.leaf, anchor, 2);
    }
    if |a| > 1 {
      assert a[1..] == Visited(s, a[0].justify.leaf, anchor);
    }
  }

  lemma LockReached(c: Committee, rule: Rule, n: Network, r: Replica, p: Leaf)
    requires c.Sound() && Inv(c, rule, n) && AnchorOk(rule, c, n.votes, r)
    requires p.Block? && ValidQC(c, n.votes, p.justify)
    requires rule.ThreeChainRule? ==>
               EntryIsCertified(r.seen, p.justify) && Reaches(r.seen, p.justify.leaf, r.anchor.View())
    ensures var r' := HandleValidated(rule, r, p);
            r'.locked >= r.locked && r'.locked >= LockOf(rule, p)
  {
    if rule.ThreeChainRule? {
      ThreeChainWalk(r.seen, p, r.anchor.View());
      CertifiedFalls(c, rule, n, p.justify);
    }
  }

  /** The decided leaf is committed by the proposal's justify certificate, above the old anchor and
      below the new lock, and the certificate handed out with it is a valid one for it. */
  lemma DecideCommits(c: Committee, rule: Rule, n: Network, r: Replica, p: Leaf)
    requires c.Sound() && Inv(c, rule, n) && AnchorOk(rule, c, n.votes, r)
    requires p.Block? && ValidQC(c, n.votes, p.justify)
    requires rule.ThreeChainRule? ==>
               EntryIsCertified(r.seen, p.justify) && Reaches(r.seen, p.justify.leaf, r.anchor.View())
    ensures var out := Decides(rule, r.seen, p, r.anchor.View());
            out.decided.Some? && out.decided.value > r.anchor.View() ==>
              && out.lock.Some? && out.lock.value > out.decided.value
              && Commits(rule, p.justify.leaf, out.leafViews[0])
              && out.decideQc.Some? && out.decideQc.value.leaf == out.leafViews[0]
              && ValidQC(c, n.votes, out.decideQc.value)
              && (forall x | x in out.leafViews :: Extends(out.leafViews[0], x))
  {
    CertifiedLeaf(c, rule, n, p.justify);
    var anchor := r.anchor.View();
    var out := Decides(rule, r.seen, p, anchor);
    if out.decided.Some? && out.decided.value > anchor {
      var b := out.leafViews[0];
      match rule {
        case TwoChainRule =>
          forall x | x in out.leafViews ensures Extends(b, x) {
            AboveExtended(r.seen, b, anchor, x);
          }
        case ThreeChainRule =>
          ThreeChainWalk(r.seen, p, anchor);
          CertifiedLeaf(c, rule, n, p.justify.leaf.justify);
          forall x | x in out.leafViews ensures Extends(b, x) {
            var i :| 0 <= i < |out.leafViews| && out.leafViews[i] == x;
            VisitedAt(r.seen, b, anchor, i);
          }
      }
    }
  }

  /** A decide extends the old anchor, and whatever it delivers is an ancestor of the new one. */
  lemma DeliverKeepsLog(c: Committee, rule: Rule, n: Network, r: Replica, p: Leaf)
    requires c.Sound() && Inv(c, rule, n) && AnchorOk(rule, c, n.votes, r) && LogOk(r)
    requires p.Block? && ValidQC(c, n.votes, p.justify)
    requires rule.ThreeChainRule? ==>
               EntryIsCertified(r.seen, p.justify) && Reaches(r.seen, p.justify.leaf, r.anchor.View())
    requires var out := Decides(rule, r.seen, p, r.anchor.View());
             out.decided.Some? && out.decided.value > r.anchor.View()
    ensures LogOk(Deliver(r, p, Decides(rule, r.seen, p, r.anchor.View())))
  {
    var out := Decides(rule, r.seen, p, r.anchor.View());
    var b := out.leafViews[0];
    var r' := Deliver(r, p, out);
    DecideCommits(c, rule, n, r, p);
    CommittedComparable(c, rule, n, r.anchor, r.proof, b, p.justify);
    forall l | l in r'.log ensures Extends(b, l) {
      ReverseMembers(out.leafViews, l);
      if l in r.log {
        ExtendsTransitive(b, r.anchor, l);
      }
    }
  }

  lemma DeliverKeeps(c: Committee, rule: Rule, n: Network, r: Replica, p: Leaf)
    requires c.Sound() && Inv(c, rule, n) && AnchorOk(rule, c, n.votes, r) && LogOk(r)
    requires p.Block? && ValidQC(c, n.votes, p.justify)
    requires rule.ThreeChainRule? ==>
               EntryIsCertified(r.seen, p.justify) && Reaches(r.seen, p.justify.leaf, r.anchor.View())
    requires var out := Decides(rule, r.seen, p, r.anchor.View());
             out.decided.Some? && out.decided.value > r.anchor.View()
    ensures var out := Decides(rule, r.seen, p, r.anchor.View());
            out.lock.Some? &&
            var r' := Deliver(r.(locked := out.lock.value), p, out);
            AnchorOk(rule, c, n.votes, r') && LogOk(r')
  {
    var out := Decides(rule, r.seen, p, r.anchor.View());
    DecideCommits(c, rule, n, r, p);
    DeliverKeepsLog(c, rule, n, r, p);
    var locked := r.(locked := out.lock.value);
    assert Deliver(locked, p, out) == Deliver(r, p, out).(locked := out.lock.value);
  }

  lemma HandleKeeps(c: Committee, rule: Rule, n: Network, r: Replica, p: Leaf)
    requires c.Sound() && Inv(c, rule, n) && AnchorOk(rule, c, n.votes, r) && LogOk(r)
    requires p.Block? && ValidQC(c, n.votes, p.justify)
    requires rule.ThreeChainRule? ==>
               EntryIsCertified(r.seen, p.justify) && Reaches(r.seen, p.justify.leaf, r.anchor.View())
    ensures var r' := HandleValidated(rule, r, p);
            && AnchorOk(rule, c, n.votes, r') && LogOk(r')
            && r'.checking == r.checking && r'.pending == r.pending && r'.validated == r.validated
            && r'.marked == r.marked
            && r'.voted == r.voted
  {
    var out := Decides(rule, r.seen, p, r.anchor.View());
    if out.decided.Some? && out.decided.value > r.anchor.View() {
      DeliverKeeps(c, rule, n, r, p);
    }
  }

  /** What a step leaves of the replica that takes it. */
  predicate Kept(c: Committee, rule: Rule, votes: set<CastVote>, r: Replica, r': Replica)
  {
    && LocksOk(rule, c, votes, r') && AnchorOk(rule, c, votes, r') && LogOk(r')
    && r.Votable() <= r'.Votable() && r.voted <= r'.voted
  }

  /** Steps that accept nothing and take nothing up. */
  lemma QuietKeeps(c: Committee, rule: Rule, votes: set<CastVote>, r: Replica, r': Replica)
    requires LocksOk(rule, c, votes, r) && AnchorOk(rule, c, votes, r) && LogOk(r)
    requires r'.checking <= r.checking && r'.pending == r.pending && r'.validated == r.validated
    requires r'.marked <= r.Votable()
    requires r'.locked >= r.locked && r'.voted >= r.voted && r'.store.Keyed() && r'.seen.Keyed()
    requires r'.anchor == r.anchor && r'.proof == r.proof && r'.log == r.log
    ensures Kept(c, rule, votes, r, r')
  {}

  lemma CheckingKeeps(c: Committee, rule: Rule, votes: set<CastVote>, r: Replica, p: Leaf)
    requires LocksOk(rule, c, votes, r) && p.Block? && ValidQC(c, votes, p.justify)
    ensures LocksOk(rule, c, votes, r.(checking := r.checking + {p}))
  {}

  lemma ReceiveKeepsReplica(c: Committee, rule: Rule, votes: set<CastVote>, r: Replica, p: Leaf, found: Lookup)
    requires LocksOk(rule, c, votes, r) && AnchorOk(rule, c, votes, r) && LogOk(r)
    requires p.Block? && ValidQC(c, votes, p.justify)
    ensures Kept(c, rule, votes, r, Receive(rule, r, p, found))
  {
    CheckingKeeps(c, rule, votes, r, p);
    QuietKeeps(c, rule, votes, r.(checking := r.checking + {p}), Receive(rule, r, p, found));
  }

  lemma ReceiveKeeps(c: Committee, rule: Rule, n: Network, h: Node, p: Leaf, found: Lookup)
    requires c.Sound() && Inv(c, rule, n) && Enabled(c, rule, n, ProposalReceived(h, p, found))
    ensures Kept(c, rule, n.votes, n.replicas[h], Receive(rule, n.replicas[h], p, found))
  {
    ReceiveKeepsReplica(c, rule, n.votes, n.replicas[h], p, found);
  }

  lemma CheckKeeps(c: Committee, rule: Rule, n: Network, h: Node, p: Leaf)
    requires c.Sound() && Inv(c, rule, n) && Enabled(c, rule, n, ProposalChecked(h, p))
    ensures Kept(c, rule, n.votes, n.replicas[h], Check(n.replicas[h], p))
  {
    var r := n.replicas[h];
    assert LocksOk(rule, c, n.votes, r) && AnchorOk(rule, c, n.votes, r) && LogOk(r);
    if Accepts(r, p) {
      AcceptedAboveLock(r, p);
      AcceptKeepsLocksIffOrdered(c, rule, n.votes, r, p, Check(r, p));
    } else {
      QuietKeeps(c, rule, n.votes, r, Check(r, p));
    }
  }

  // ---- taking a proposal up ----

  /** Taking a proposal up keeps the discipline of locks if and only if its lock has been reached. */
  lemma TakeUpKeepsLocksIffReached(c: Committee, rule: Rule, votes: set<CastVote>, r: Replica, p: Leaf, r': Replica)
    requires LocksOk(rule, c, votes, r) && p in r.pending && p.Block?
    requires r'.checking == r.checking && r'.pending == r.pending - {p} && r'.validated == r.validated + {p}
    requires r'.locked >= r.locked && r'.marked == r.marked
    ensures LocksOk(rule, c, votes, r') <==> LockOf(rule, p) <= r'.locked
  {
    assert r'.Votable() == r.Votable();
  }

  lemma TakeUpKeeps(c: Committee, rule: Rule, n: Network, h: Node, p: Leaf, fails: bool)
    requires c.Sound() && Inv(c, rule, n) && Enabled(c, rule, n, ProposalHandled(h, p, fails))
    ensures Kept(c, rule, n.votes, n.replicas[h], TakeUp(rule, n.replicas[h], p, fails))
  {
    var r := n.replicas[h];
    var taken := r.(pending := r.pending - {p}, validated := r.validated + {p});
    assert LocksOk(rule, c, n.votes, r) && AnchorOk(rule, c, n.votes, taken) && LogOk(taken);
    if !fails {
      HandleKeeps(c, rule, n, taken, p);
      LockReached(c, rule, n, taken, p);
    }
    TakeUpKeepsLocksIffReached(c, rule, n.votes, r, p, TakeUp(rule, r, p, fails));
  }

  // ---- every step ----

  /** Steps other than voting leave every vote covered. */
  lemma OtherStepKeepsVotes(c: Committee, n: Network, h: Node, r: Replica)
    requires VotesOk(c, n) && h in n.replicas
    requires n.replicas[h].Votable() <= r.Votable() && n.replicas[h].voted <= r.voted
    ensures VotesOk(c, n.(replicas := n.replicas[h := r]))
  {}

  /** The vote being cast is new for its view, and its justify view lies below it. */
  lemma VoteIsNew(c: Committee, rule: Rule, n: Network, h: Node, p: Leaf)
    requires c.Sound() && Inv(c, rule, n) && Enabled(c, rule, n, VoteCast(h, p))
    ensures p.Block? && p.view > 0
    ensures forall v | v in n.votes && v.node == h :: v.view < p.view
    ensures p.justify.view > 0 && h in p.justify.signers ==> p.justify.view < p.view
  {
    assert LocksOk(rule, c, n.votes, n.replicas[h]);
  }

  lemma NewVoteKeeps(c: Committee, n: Network, h: Node, p: Leaf)
    requires VotesOk(c, n) && h in n.replicas && c.Honest(h) && p.Block? && p.view > 0
    requires p in n.replicas[h].Votable() && p.view <= n.replicas[h].voted
    requires forall v | v in n.votes && v.node == h :: v.view < p.view
    requires p.justify.view > 0 && h in p.justify.signers ==> p.justify.view < p.view
    ensures VotesOk(c, n.(votes := n.votes + {CastVote(h, p.view, p)}))
  {}

  lemma VoteKeeps(c: Committee, rule: Rule, n: Network, h: Node, p: Leaf)
    requires c.Sound() && Inv(c, rule, n) && Enabled(c, rule, n, VoteCast(h, p))
    ensures VotesOk(c, Next(rule, n, VoteCast(h, p)))
  {
    VoteIsNew(c, rule, n, h, p);
    var r' := StepReplica(rule, n.replicas[h], VoteCast(h, p));
    var marked := n.(replicas := n.replicas[h := r']);
    OtherStepKeepsVotes(c, n, h, r');
    NewVoteKeeps(c, marked, h, p);
    assert Next(rule, n, VoteCast(h, p)) == marked.(votes := n.votes + {CastVote(h, p.view, p)});
  }

  lemma ReplicaKeeps(c: Committee, rule: Rule, votes: set<CastVote>, more: set<CastVote>, r: Replica)
    requires LocksOk(rule, c, votes, r) && AnchorOk(rule, c, votes, r) && votes <= more
    ensures LocksOk(rule, c, more, r) && AnchorOk(rule, c, more, r)
  {}

  lemma StepKeepsReplica(c: Committee, rule: Rule, n: Network, step: Step)
    requires c.Sound() && Inv(c, rule, n) && Enabled(c, rule, n, step)
    ensures Kept(c, rule, n.votes, n.replicas[step.node], StepReplica(rule, n.replicas[step.node], step))
  {
    var r := n.replicas[step.node];
    assert LocksOk(rule, c, n.votes, r) && AnchorOk(rule, c, n.votes, r) && LogOk(r);
    match step {
      case ProposalReceived(h, p, found) => ReceiveKeeps(c, rule, n, h, p, found);
      case ProposalChecked(h, p) => CheckKeeps(c, rule, n, h, p);
      case ProposalHandled(h, p, fails) => TakeUpKeeps(c, rule, n, h, p, fails);
      case _ => QuietKeeps(c, rule, n.votes, r, StepReplica(rule, r, step));
    }
  }

  lemma StepKeeps(c: Committee, rule: Rule, n: Network, step: Step)
    requires c.Sound() && Inv(c, rule, n) && Enabled(c, rule, n, step)
    ensures Inv(c, rule, Next(rule, n, step))
  {
    var n', h := Next(rule, n, step), step.node;
    StepKeepsReplica(c, rule, n, step);
    if step.VoteCast? {
      VoteKeeps(c, rule, n, h, step.leaf);
    } else {
      OtherStepKeepsVotes(c, n, h, n'.replicas[h]);
    }
    forall g | g in n'.replicas
      ensures LocksOk(rule, c, n'.votes, n'.replicas[g]) && AnchorOk(rule, c, n'.votes, n'.replicas[g])
      ensures LogOk(n'.replicas[g])
    {
      ReplicaKeeps(c, rule, n.votes, n'.votes, n'.replicas[g]);
    }
  }

  lemma {:induction false} RunKeeps(c: Committee, rule: Rule, run: seq<Network>, steps: seq<Step>, i: nat)
    requires c.Sound() && IsRun(c, rule, run, steps) && i < |run|
    ensures Inv(c, rule, run[i])
  {
    if i > 0 {
      RunKeeps(c, rule, run, steps, i - 1);
      StepKeeps(c, rule, run[i - 1], steps[i - 1]);
    }
  }

  // ---- the theorems ----

  lemma StepGrowsLog(c: Committee, rule: Rule, n: Network, step: Step, h: Node)
    requires Enabled(c, rule, n, step) && h in n.replicas
    ensures h in Next(rule, n, step).replicas && n.replicas[h].log <= Next(rule, n, step).replicas[h].log
  {}

  /** What has been delivered is never taken back. */
  lemma {:induction false} LogGrows(c: Committee, rule: Rule, run: seq<Network>, steps: seq<Step>, i: nat, j: nat, h: Node)
    requires IsRun(c, rule, run, steps) && i <= j < |run| && h in run[i].replicas
    ensures h in run[j].replicas && run[i].replicas[h].log <= run[j].replicas[h].log
    decreases j
  {
    if i < j {
      LogGrows(c, rule, run, steps, i, j - 1, h);
      StepGrowsLog(c, rule, run[j - 1], steps[j - 1], h);
    }
  }

  /** Agreement: in every run, any two leaves ever delivered by honest replicas lie on one ancestor
      chain. */
  lemma DecidedLeavesAgree(c: Committee, rule: Rule, run: seq<Network>, steps: seq<Step>, i: nat, j: nat,
                           g: Node, h: Node, a: Leaf, b: Leaf)
    requires c.Sound() && IsRun(c, rule, run, steps) && i <= j < |run|
    requires g in run[i].replicas && h in run[j].replicas
    requires a in run[i].replicas[g].log && b in run[j].replicas[h].log
    ensures Comparable(a, b)
  {
    LogGrows(c, rule, run, steps, i, j, g);
    RunKeeps(c, rule, run, steps, j);
    var n := run[j];
    var x, y := n.replicas[g], n.replicas[h];
    assert a in x.log;
    CommittedComparable(c, rule, n, x.anchor, x.proof, y.anchor, y.proof);
    if Extends(y.anchor, x.anchor) {
      ExtendsTransitive(y.anchor, x.anchor, a);
      AncestorsComparable(y.anchor, a, b);
    } else {
      ExtendsTransitive(x.anchor, y.anchor, b);
      AncestorsComparable(x.anchor, a, b);
    }
  }
}
