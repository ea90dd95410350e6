/** What a replica locks, decides, delivers and stores over a run, in terms of ancestry and of the
    steps it took. */
module Delivery {
  import opened Committees
  import opened Leaves
  import opened Decide
  import opened Replicas
  import opened Protocol
  import opened Agreement

  function Max(a: nat, b: nat): nat { if a > b then a else b }

  /** The parent of `l` can be found: it is saved and its view has a state. */
  predicate Found(s: Store, l: Leaf)
  {
    l.Block? && l.justify.leaf in s.leaves && s.HasState(l.justify.view)
  }

  // ---- what is delivered ----

  /** `d`, oldest first, is `b` with its ancestors above view `anchor`, down to the first one that is
      missing from `s`. */
  predicate StoredSegment(s: Store, b: Leaf, anchor: nat, d: seq<Leaf>)
  {
    && |d| > 0 && d[|d| - 1] == b
    && (forall i | 0 <= i < |d| :: d[i].View() > anchor)
    && (forall i | 0 < i < |d| :: Found(s, d[i]) && d[i].justify.leaf == d[i - 1])
    && (d[0].Block? && d[0].justify.leaf.View() > anchor ==> !Found(s, d[0]))
  }

  lemma SegmentGoesOn(s: Store, b: Leaf, anchor: nat, d: seq<Leaf>)
    requires StoredSegment(s, b, anchor, d)
    ensures |d| > 1 <==> Found(s, b) && b.justify.leaf.View() > anchor
  {
    if |d| > 1 {
      assert d[|d| - 2] == b.justify.leaf;
    }
  }

  /** There is only one such segment. */
  lemma {:induction false} SegmentUnique(s: Store, b: Leaf, anchor: nat, d: seq<Leaf>, e: seq<Leaf>)
    requires StoredSegment(s, b, anchor, d) && StoredSegment(s, b, anchor, e)
    ensures d == e
    decreases b
  {
    SegmentGoesOn(s, b, anchor, d);
    SegmentGoesOn(s, b, anchor, e);
    if |d| > 1 {
      var d', e' := d[..|d| - 1], e[..|e| - 1];
      assert b.justify.leaf == d'[|d'| - 1] == e'[|e'| - 1];
      SegmentUnique(s, b.justify.leaf, anchor, d', e');
      assert d == d' + [b] && e == e' + [b];
    }
  }

  lemma {:induction false} AboveIsSegment(s: Store, b: Leaf, anchor: nat)
    requires b.View() > anchor
    ensures StoredSegment(s, b, anchor, Reverse(Above(s, b, anchor)))
  {
    var all := Above(s, b, anchor);
    assert Reverse(all) == Reverse(all[1..]) + [b];
    if ParentInfo(s, b).Some? && b.justify.leaf.View() > anchor {
      var parent := b.justify.leaf;
      AboveIsSegment(s, parent, anchor);
      assert all[1..] == Above(s, parent, anchor);
    } else {
      assert all[1..] == [];
    }
  }

  // ---- taking up a proposal under HotStuff-2 ----

  /** The proposal raises the lock, its parent and grandparent are stored and in consecutive views, and
      the grandparent is above the anchor. */
  predicate DecidesTwoChain(r: Replica, p: Leaf)
    requires p.Block?
  {
    && p.justify.view > r.locked
    && Found(r.seen, p) && Found(r.seen, p.justify.leaf)
    && p.justify.leaf.justify.leaf.View() + 1 == p.justify.leaf.View()
    && p.justify.leaf.justify.leaf.View() > r.anchor.View()
  }

  /** HotStuff-2, one proposal: the lock becomes the higher of itself and the justify view; the
      grandparent is decided exactly under the condition above, and then the log grows by exactly the
      stored ancestors down to the first missing one. */
  lemma TwoChainTakenUp(r: Replica, p: Leaf, d: seq<Leaf>)
    requires p.Block?
    requires DecidesTwoChain(r, p) ==> StoredSegment(r.seen, p.justify.leaf.justify.leaf, r.anchor.View(), d)
    ensures var r' := TakeUp(TwoChainRule, r, p, false);
            && r'.locked == Max(r.locked, p.justify.view)
            && (DecidesTwoChain(r, p) ==> r'.anchor == p.justify.leaf.justify.leaf && r'.log == r.log + d)
            && (!DecidesTwoChain(r, p) ==> r'.anchor == r.anchor && r'.log == r.log && r'.store == r.store)
  {
    if DecidesTwoChain(r, p) {
      var b, anchor := p.justify.leaf.justify.leaf, r.anchor.View();
      AboveIsSegment(r.seen, b, anchor);
      SegmentUnique(r.seen, b, anchor, d, Reverse(Above(r.seen, b, anchor)));
    }
  }

  // ---- and under the three-chain rule ----

  /** Parent, grandparent and great-grandparent in consecutive views, the second raising the lock and
      the third above the anchor. */
  predicate DecidesThreeChain(r: Replica, p: Leaf)
    requires p.Block?
  {
    var parent := p.justify.leaf;
    && parent.Block? && parent.view + 1 == p.view
    && parent.justify.leaf.Block? && parent.justify.leaf.view + 1 == parent.view
    && parent.justify.leaf.justify.leaf.View() + 1 == parent.justify.leaf.view
    && parent.justify.leaf.view > r.locked
    && parent.justify.leaf.justify.leaf.View() > r.anchor.View()
  }

  /** On a ready store the walk goes through every certified ancestor above the anchor. */
  lemma ThreeChainAncestors(s: Store, p: Leaf, anchor: nat)
    requires p.Block? && EntryIsCertified(s, p.justify) && Falls(p.justify.leaf)
    requires Reaches(s, p.justify.leaf, anchor)
    ensures var a := VisitedFrom(s, p.justify.view, anchor);
            && (p.justify.leaf.View() > anchor ==> |a| > 0 && a[0] == p.justify.leaf)
            && (|a| > 0 ==> a[0] == p.justify.leaf && a[0].View() > anchor)
            && (|a| > 0 && a[0].Block? && a[0].justify.leaf.View() > anchor ==> |a| > 1)
            && (|a| > 1 ==> a[0].Block? && a[1] == a[0].justify.leaf && a[1].View() > anchor)
            && (|a| > 1 && a[1].Block? && a[1].justify.leaf.View() > anchor ==> |a| > 2)
            && (|a| > 2 ==> a[1].Block? && a[2] == a[1].justify.leaf && a[2].View() > anchor)
            && (|a| > 2 ==> Reaches(s, a[2], anchor) && a[2..] == Visited(s, a[2], anchor))
  {
    ThreeChainWalk(s, p, anchor);
    var a := VisitedFrom(s, p.justify.view, anchor);
    ReachesBelow(s, p.justify.leaf, anchor);
    if |a| > 0 && a[0].Block? {
      assert a[1..] == Visited(s, a[0].justify.leaf, anchor);
      ReachesBelow(s, a[0].justify.leaf, anchor);
      if |a| > 1 && a[1].Block? {
        assert a[1..][1..] == Visited(s, a[1].justify.leaf, anchor);
        ReachesBelow(s, a[1].justify.leaf, anchor);
      }
    }
  }

  /** The three-chain rule, one proposal: the lock becomes the higher of itself and what the proposal
      asks for; the great-grandparent is decided exactly under the condition above, and then the log
      grows by every ancestor that leads to it from the old anchor. */
  lemma ThreeChainTakenUp(r: Replica, p: Leaf)
    requires p.Block? && Falls(p.justify.leaf) && r.anchor.View() <= r.locked
    requires EntryIsCertified(r.seen, p.justify) && Reaches(r.seen, p.justify.leaf, r.anchor.View())
    ensures var r' := TakeUp(ThreeChainRule, r, p, false);
            && r'.locked == Max(r.locked, LockOf(ThreeChainRule, p))
            && (DecidesThreeChain(r, p) ==>
                  var b := p.justify.leaf.justify.leaf.justify.leaf;
                  && r'.anchor == b
                  && (Extends(b, r.anchor) ==> r'.log == r.log + Reverse(FullAbove(b, r.anchor.View()))))
            && (!DecidesThreeChain(r, p) ==> r'.anchor == r.anchor && r'.log == r.log && r'.store == r.store)
  {
    var anchor := r.anchor.View();
    var a := VisitedFrom(r.seen, p.justify.view, anchor);
    ThreeChainAncestors(r.seen, p, anchor);
    if DecidesThreeChain(r, p) {
      assert ChainOf(p.view, a, 3);
      if Extends(a[2], r.anchor) {
        FallsBelow(p.justify.leaf, a[1]);
        VisitedComplete(r.seen, a[2], r.anchor);
      }
    } else {
      assert ChainOf(p.view, a, 3) ==> a[1].View() <= r.locked;
    }
  }

  // ---- one step ----

  /** The lock a step of `h` asks for. */
  function LockAsked(rule: Rule, step: Step, h: Node): nat
  {
    if step.node != h then 0
    else if step.ProposalHandled? && step.leaf.Block? && !step.fails then LockOf(rule, step.leaf)
    else if rule.TwoChainRule? && step.ProposalReceived? && step.leaf.Block? && step.found.ParentMissing?
    then step.leaf.justify.view
    else 0
  }

  lemma OtherStepLocks(rule: Rule, r: Replica, step: Step)
    requires step.ProposalReceived? || step.ProposalChecked? || step.ProposalHandled? ==> step.leaf.Block?
    requires step.ProposalHandled? ==> step.fails
    ensures StepReplica(rule, r, step).locked == Max(r.locked, LockAsked(rule, step, step.node))
    ensures StepReplica(rule, r, step).anchor == r.anchor && StepReplica(rule, r, step).log == r.log
  {}

  /** What an anchor's move delivers: HotStuff-2 what is stored above the old one, the three-chain rule
      everything. */
  function Delivered(rule: Rule, seen: Store, b: Leaf, anchor: nat): seq<Leaf>
  {
    match rule
    case TwoChainRule => Above(seen, b, anchor)
    case ThreeChainRule => FullAbove(b, anchor)
  }

  predicate Delivers(rule: Rule, r: Replica, r': Replica)
  {
    if r'.anchor == r.anchor then r'.log == r.log
    else
      && Falls(r'.anchor) && Extends(r'.anchor, r.anchor)
      && r'.log == r.log + Reverse(Delivered(rule, r.seen, r'.anchor, r.anchor.View()))
  }

  /** Taking a proposal up moves the anchor along its own chain and delivers what lies between. */
  lemma HandledDelivers(c: Committee, rule: Rule, n: Network, h: Node, p: Leaf)
    requires c.Sound() && Inv(c, rule, n) && Enabled(c, rule, n, ProposalHandled(h, p, false))
    ensures var r, r' := n.replicas[h], TakeUp(rule, n.replicas[h], p, false);
            Delivers(rule, r, r') && r'.locked == Max(r.locked, LockOf(rule, p))
  {
    var r, r' := n.replicas[h], TakeUp(rule, n.replicas[h], p, false);
    assert LocksOk(rule, c, n.votes, r) && AnchorOk(rule, c, n.votes, r);
    CertifiedFalls(c, rule, n, p.justify);
    DecideCommits(c, rule, n, r, p);
    if r'.anchor != r.anchor {
      CommittedComparable(c, rule, n, r.anchor, r.proof, r'.anchor, p.justify);
    }
    match rule {
      case ThreeChainRule => ThreeChainTakenUp(r, p);
      case TwoChainRule =>
        if DecidesTwoChain(r, p) {
          var b, anchor := p.justify.leaf.justify.leaf, r.anchor.View();
          AboveIsSegment(r.seen, b, anchor);
          TwoChainTakenUp(r, p, Reverse(Above(r.seen, b, anchor)));
        } else {
          TwoChainTakenUp(r, p, []);
        }
    }
  }

  /** What a step does to the lock, anchor and log of the replica that takes it. */
  lemma StepDelivers(c: Committee, rule: Rule, n: Network, step: Step)
    requires c.Sound() && Inv(c, rule, n) && Enabled(c, rule, n, step)
    ensures var r := n.replicas[step.node];
            var r' := StepReplica(rule, r, step);
            Delivers(rule, r, r') && r'.locked == Max(r.locked, LockAsked(rule, step, step.node))
  {
    if step.ProposalHandled? && !step.fails {
      HandledDelivers(c, rule, n, step.node, step.leaf);
    } else {
      OtherStepLocks(rule, n.replicas[step.node], step);
    }
  }

  // ---- whole runs ----

  /** One step of a run, as one replica sees it. */
  lemma RunNext(c: Committee, rule: Rule, run: seq<Network>, steps: seq<Step>, k: nat, h: Node)
    requires IsRun(c, rule, run, steps) && k < |steps| && h in run[k].replicas
    ensures Enabled(c, rule, run[k], steps[k]) && h in run[k + 1].replicas
    ensures run[k + 1].replicas[h] ==
            if steps[k].node == h then StepReplica(rule, run[k].replicas[h], steps[k]) else run[k].replicas[h]
  {}

  /** What one step of a run does to a replica's lock, anchor and log. */
  lemma RunStep(c: Committee, rule: Rule, run: seq<Network>, steps: seq<Step>, k: nat, h: Node)
    requires c.Sound() && IsRun(c, rule, run, steps) && k < |steps| && h in run[k].replicas
    ensures h in run[k + 1].replicas
    ensures Delivers(rule, run[k].replicas[h], run[k + 1].replicas[h])
    ensures run[k + 1].replicas[h].locked == Max(run[k].replicas[h].locked, LockAsked(rule, steps[k], h))
  {
    RunNext(c, rule, run, steps, k, h);
    if steps[k].node == h {
      RunKeeps(c, rule, run, steps, k);
      StepDelivers(c, rule, run[k], steps[k]);
    }
  }

  /** In every run the lock is exactly the highest lock any step so far has asked for. */
  lemma {:induction false} LockIsHighestAsked(c: Committee, rule: Rule, run: seq<Network>, steps: seq<Step>, i: nat, h: Node)
    requires c.Sound() && IsRun(c, rule, run, steps) && i < |run| && h in run[0].replicas
    ensures h in run[i].replicas
    ensures forall k | 0 <= k < i :: LockAsked(rule, steps[k], h) <= run[i].replicas[h].locked
    ensures run[i].replicas[h].locked == 0 || exists k | 0 <= k < i :: LockAsked(rule, steps[k], h) == run[i].replicas[h].locked
  {
    if i > 0 {
      LockIsHighestAsked(c, rule, run, steps, i - 1, h);
      RunStep(c, rule, run, steps, i - 1, h);
    }
  }

  /** Every decide of `h` in the first `i` steps found all ancestors down to the old anchor. */
  predicate FoundAll(run: seq<Network>, i: nat, h: Node)
    requires i < |run|
  {
    forall k | 0 <= k < i && h in run[k].replicas && h in run[k + 1].replicas ::
      FoundOne(run[k].replicas[h], run[k + 1].replicas[h])
  }

  predicate FoundOne(r: Replica, r': Replica)
  {
    r'.anchor != r.anchor ==> ClosedAbove(r.seen, r'.anchor, r.anchor.View())
  }

  lemma {:induction false} ReverseInjective(a: seq<Leaf>, b: seq<Leaf>)
    requires Reverse(a) == Reverse(b)
    ensures a == b
  {
    if |a| > 0 {
      assert Reverse(a)[|a| - 1] == a[0] && Reverse(b)[|a| - 1] == b[0];
      assert Reverse(a[1..]) == Reverse(a)[..|a| - 1] == Reverse(b)[..|a| - 1] == Reverse(b[1..]);
      ReverseInjective(a[1..], b[1..]);
      assert a == [a[0]] + a[1..] && b == [b[0]] + b[1..];
    }
  }

  lemma {:induction false} AboveIsShorter(s: Store, l: Leaf, anchor: nat)
    ensures |Above(s, l, anchor)| <= |FullAbove(l, anchor)|
  {
    if l.View() > anchor && l.Block? {
      AboveIsShorter(s, l.justify.leaf, anchor);
    }
  }

  /** A decide leaves the log gapless exactly when it was gapless and all ancestors were found. */
  lemma DecideGapless(r: Replica, r': Replica)
    requires Delivers(TwoChainRule, r, r') && |r.log| <= |Path(r.anchor)|
    ensures |r'.log| <= |Path(r'.anchor)|
    ensures r'.log == Path(r'.anchor) <==> r.log == Path(r.anchor) && FoundOne(r, r')
  {
    if r'.anchor != r.anchor {
      var b, anchor := r'.anchor, r.anchor.View();
      var some, all := Above(r.seen, b, anchor), FullAbove(b, anchor);
      PathSplit(b, r.anchor);
      AboveIsShorter(r.seen, b, anchor);
      AboveCompleteIffClosed(r.seen, b, anchor);
      if r'.log == Path(b) {
        assert r.log == Path(b)[..|r.log|] && Path(r.anchor) == Path(b)[..|Path(r.anchor)|];
        assert Reverse(some) == Path(b)[|r.log|..] && Reverse(all) == Path(b)[|Path(r.anchor)|..];
        ReverseInjective(some, all);
      }
    }
  }

  /** Gapless delivery, exactly: under HotStuff-2 a replica has delivered the whole path from genesis to
      its anchor if and only if each of its decides found all ancestors down to the anchor before. */
  lemma {:induction false} TwoChainGaplessIffFound(c: Committee, run: seq<Network>, steps: seq<Step>, i: nat, h: Node)
    requires c.Sound() && IsRun(c, TwoChainRule, run, steps) && i < |run| && h in run[0].replicas
    ensures h in run[i].replicas && |run[i].replicas[h].log| <= |Path(run[i].replicas[h].anchor)|
    ensures run[i].replicas[h].log == Path(run[i].replicas[h].anchor) <==> FoundAll(run, i, h)
  {
    if i > 0 {
      TwoChainGaplessIffFound(c, run, steps, i - 1, h);
      RunStep(c, TwoChainRule, run, steps, i - 1, h);
      DecideGapless(run[i - 1].replicas[h], run[i].replicas[h]);
      assert FoundAll(run, i, h) <==> FoundAll(run, i - 1, h) && FoundOne(run[i - 1].replicas[h], run[i].replicas[h]);
    }
  }

  /** Under the three-chain rule it always has. */
  lemma {:induction false} ThreeChainGapless(c: Committee, run: seq<Network>, steps: seq<Step>, i: nat, h: Node)
    requires c.Sound() && IsRun(c, ThreeChainRule, run, steps) && i < |run| && h in run[0].replicas
    ensures h in run[i].replicas && run[i].replicas[h].log == Path(run[i].replicas[h].anchor)
  {
    if i > 0 {
      ThreeChainGapless(c, run, steps, i - 1, h);
      RunStep(c, ThreeChainRule, run, steps, i - 1, h);
      var r, r' := run[i - 1].replicas[h], run[i].replicas[h];
      if r'.anchor != r.anchor {
        PathSplit(r'.anchor, r.anchor);
      }
    }
  }

  lemma Gapless(c: Committee, rule: Rule, run: seq<Network>, steps: seq<Step>, i: nat, h: Node)
    requires c.Sound() && IsRun(c, rule, run, steps) && i < |run| && h in run[0].replicas
    requires rule.TwoChainRule? ==> FoundAll(run, i, h)
    ensures h in run[i].replicas && run[i].replicas[h].log == Path(run[i].replicas[h].anchor)
  {
    match rule {
      case TwoChainRule => TwoChainGaplessIffFound(c, run, steps, i, h);
      case ThreeChainRule => ThreeChainGapless(c, run, steps, i, h);
    }
  }

  /** So the logs of any two such replicas are prefixes of one another. */
  lemma DeliveredInOneOrder(c: Committee, rule: Rule, run: seq<Network>, steps: seq<Step>, i: nat,
                            g: Node, h: Node)
    requires c.Sound() && IsRun(c, rule, run, steps) && i < |run|
    requires g in run[0].replicas && h in run[0].replicas
    requires rule.TwoChainRule? ==> FoundAll(run, i, g) && FoundAll(run, i, h)
    ensures g in run[i].replicas && h in run[i].replicas
    ensures run[i].replicas[g].log <= run[i].replicas[h].log || run[i].replicas[h].log <= run[i].replicas[g].log
  {
    RunKeeps(c, rule, run, steps, i);
    Gapless(c, rule, run, steps, i, g);
    Gapless(c, rule, run, steps, i, h);
    var n := run[i];
    var x, y := n.replicas[g], n.replicas[h];
    CommittedComparable(c, rule, n, x.anchor, x.proof, y.anchor, y.proof);
    if Extends(y.anchor, x.anchor) {
      PathPrefix(y.anchor, x.anchor);
    } else {
      PathPrefix(x.anchor, y.anchor);
    }
  }

  // ---- the store over a run ----

  /** No entry is more than one view behind the anchor. */
  predicate NothingBehind(r: Replica)
  {
    forall v | v in r.store.views :: v + 1 >= r.anchor.View()
  }

  /** What a step keeps of a replica's states: each one, with its delta, unless it falls behind the
      anchor; and a decide leaves nothing behind it. */
  ghost predicate KeepsStates(r: Replica, r': Replica)
  {
    && r.anchor.View() <= r'.anchor.View()
    && (forall v: nat | r.store.HasState(v) && v + 1 >= r'.anchor.View() ::
          r'.store.HasState(v) && (r.store.views[v].delta ==> r'.store.views[v].delta))
    && (r'.anchor != r.anchor ==> NothingBehind(r'))
  }

  lemma TakeUpKeepsStates(rule: Rule, r: Replica, p: Leaf, fails: bool)
    requires p.Block? && r.store.Keyed()
    ensures KeepsStates(r, TakeUp(rule, r, p, fails))
  {
    var out := Decides(rule, r.seen, p, r.anchor.View());
    if out.decided.Some? && out.decided.value > r.anchor.View() {
      CollectedExactly(r.store, r.anchor.View(), out.decided.value);
    }
  }

  lemma StepKeepsStates(rule: Rule, r: Replica, step: Step)
    requires r.store.Keyed()
    requires step.ProposalReceived? || step.ProposalChecked? || step.ProposalHandled? ==> step.leaf.Block?
    ensures KeepsStates(r, StepReplica(rule, r, step)) && StepReplica(rule, r, step).store.Keyed()
  {
    match step {
      case ProposalReceived(_, p, _) => SavedExactly(r.store, p, false);
      case LeafSaved(_, l, delta) => SavedExactly(r.store, l, delta);
      case DaSaved(_, v, payload) => DaSavedExactly(r.store, v, payload);
      case ProposalHandled(_, p, fails) => TakeUpKeepsStates(rule, r, p, fails);
      case _ =>
    }
  }

  lemma {:induction false} RunKeyed(c: Committee, rule: Rule, dropped: set<Guard>, run: seq<Network>, steps: seq<Step>,
                                    i: nat, h: Node)
    requires IsRunBut(c, rule, dropped, run, steps) && i < |run| && h in run[0].replicas
    ensures h in run[i].replicas && run[i].replicas[h].store.Keyed()
  {
    if i > 0 {
      RunKeyed(c, rule, dropped, run, steps, i - 1, h);
      if steps[i - 1].node == h {
        StepKeepsStates(rule, run[i - 1].replicas[h], steps[i - 1]);
      }
    }
  }

  lemma RunKeepsStates(c: Committee, rule: Rule, dropped: set<Guard>, run: seq<Network>, steps: seq<Step>, k: nat, h: Node)
    requires IsRunBut(c, rule, dropped, run, steps) && k < |steps| && h in run[0].replicas
    ensures h in run[k].replicas && h in run[k + 1].replicas
    ensures KeepsStates(run[k].replicas[h], run[k + 1].replicas[h])
  {
    RunKeyed(c, rule, dropped, run, steps, k, h);
    if steps[k].node == h {
      StepKeepsStates(rule, run[k].replicas[h], steps[k]);
    } else {
      assert run[k + 1].replicas[h] == run[k].replicas[h];
    }
  }

  predicate StateKept(r: Replica, r': Replica, v: nat)
    requires r.store.HasState(v)
  {
    && r.anchor.View() <= r'.anchor.View()
    && (v + 1 >= r'.anchor.View() ==> r'.store.HasState(v) && (r.store.views[v].delta ==> r'.store.views[v].delta))
  }

  lemma StateKeptOn(r: Replica, r': Replica, r'': Replica, v: nat)
    requires r.store.HasState(v) && StateKept(r, r', v) && KeepsStates(r', r'')
    ensures StateKept(r, r'', v)
  {}

  ghost predicate KeepsAt(life: seq<Replica>, k: nat)
  {
    k + 1 < |life| ==> KeepsStates(life[k], life[k + 1])
  }

  lemma {:induction false} LifeKeeps(life: seq<Replica>, i: nat, j: nat, v: nat)
    requires i <= j < |life| && life[i].store.HasState(v) && forall k | 0 <= k < |life| :: KeepsAt(life, k)
    ensures StateKept(life[i], life[j], v)
    decreases j
  {
    if i < j {
      LifeKeeps(life, i, j - 1, v);
      assert KeepsAt(life, j - 1);
      StateKeptOn(life[i], life[j - 1], life[j], v);
    }
  }

  /** In every run, whatever guards it meets: a view that has a state keeps one, and one with a delta
      keeps that, until the anchor has passed it. */
  lemma {:induction false} StatesKept(c: Committee, rule: Rule, dropped: set<Guard>, run: seq<Network>, steps: seq<Step>,
                                      i: nat, j: nat, h: Node, v: nat)
    requires IsRunBut(c, rule, dropped, run, steps) && i <= j < |run| && h in run[0].replicas
    requires h in run[i].replicas && run[i].replicas[h].store.HasState(v)
    ensures h in run[j].replicas && StateKept(run[i].replicas[h], run[j].replicas[h], v)
  {
    forall k | 0 <= k < |run| ensures h in run[k].replicas {
      RunKeyed(c, rule, dropped, run, steps, k, h);
    }
    var life := seq(|run|, k requires 0 <= k < |run| => run[k].replicas[h]);
    forall k | 0 <= k < |life| ensures KeepsAt(life, k) {
      if k + 1 < |life| {
        RunKeepsStates(c, rule, dropped, run, steps, k, h);
      }
    }
    LifeKeeps(life, i, j, v);
  }

  /** And whenever the anchor moves, everything more than one view behind it is gone. */
  lemma DecideCollects(c: Committee, rule: Rule, dropped: set<Guard>, run: seq<Network>, steps: seq<Step>, i: nat, h: Node)
    requires IsRunBut(c, rule, dropped, run, steps) && i < |steps| && h in run[0].replicas
    ensures h in run[i].replicas && h in run[i + 1].replicas
    ensures run[i + 1].replicas[h].anchor != run[i].replicas[h].anchor ==>
              NothingBehind(run[i + 1].replicas[h])
  {
    RunKeepsStates(c, rule, dropped, run, steps, i, h);
  }

  /** The lookup tells a parent that is not saved from one that is saved without a state. */
  lemma LookedUp(s: Store, p: Leaf)
    requires p.Block?
    ensures LookUp(s, p).ParentFound? <==> Stored(s, p.justify.leaf)
    ensures LookUp(s, p).ParentMissing? <==> p.justify.leaf !in s.leaves
  {}

  /** A received proposal is saved unless its parent lacks a state, is checked only if its parent was
      found, and moves the lock only under HotStuff-2 without a parent. */
  lemma ReceivedExactly(rule: Rule, r: Replica, p: Leaf, found: Lookup)
    requires p.Block?
    ensures var r' := Receive(rule, r, p, found);
            && (found.ParentStateless? ==> r' == r)
            && (!found.ParentStateless? ==>
                  && r'.store.HasState(p.view)
                  && ((Named(r'.store, p) && p in r'.store.leaves) || (r'.store == r.store && r.store.views[p.view].delta)))
            && r'.checking == (if found.ParentFound? then r.checking + {p} else r.checking)
            && r'.locked == Max(r.locked, LockAsked(rule, ProposalReceived(0, p, found), 0))
            && r'.Votable() == r.Votable() && r'.log == r.log && r'.anchor == r.anchor
  {
    SavedExactly(r.store, p, false);
  }

  /** A checked proposal may be voted for exactly when it is justified above the lock, or the entry at
      its justify view leads through stored leaves to one of the locked view. */
  lemma CheckedExactly(r: Replica, p: Leaf)
    requires p.Block? && p !in r.Votable()
    ensures var r' := Check(r, p);
            p in r'.Votable() <==>
              || p.justify.view > r.locked
              || (r.store.HasState(p.justify.view) &&
                  exists a :: StoredDownTo(r.store, r.store.views[p.justify.view].leaf, a) && a.View() == r.locked)
  {
    if r.store.HasState(p.justify.view) {
      ReachesIffStored(r.store, r.store.views[p.justify.view].leaf, r.locked);
    }
  }
}
