/** The two decide rules of `helpers.rs` and the acceptance walk, each as the loop the source runs,
    proved against a declarative reading of the ancestor chain. */
module Decide {
  import opened Leaves

  /** `LeafChainTraversalOutcome`, without transactions and upgrade certificates. */
  datatype Outcome = Outcome(
    lock: Option<nat>, decided: Option<nat>, decideQc: Option<QC>, leafViews: seq<Leaf>)

  const NO_OUTCOME := Outcome(None, None, None, [])

  /** The genesis leaf carries a null certificate. */
  function JustifyOf(l: Leaf): QC
  {
    if l.Genesis? then QC(0, Genesis, {}) else l.justify
  }

  /** Where a walk from view `v` begins: the leaf the state map names there. */
  function StartAt(s: Store, v: nat): (r: Option<Leaf>)
    ensures r.Some? && s.Keyed() ==> r.value.View() == v
  {
    if s.HasState(v) then Some(s.views[v].leaf) else None
  }

  // ---- the three-chain rule ----

  /** The leaves `visit_leaf_ancestors` hands to a callback that never stops it, from `l` down to,
      but not including, the first leaf of view `anchor`. */
  function Visited(s: Store, l: Leaf, anchor: nat): (r: seq<Leaf>)
  {
    if l !in s.leaves || !s.HasState(l.View()) || l.View() == anchor then []
    else [l] + if l.Genesis? then [] else Visited(s, l.justify.leaf, anchor)
  }

  function VisitedFrom(s: Store, v: nat, anchor: nat): (r: seq<Leaf>)
  {
    match StartAt(s, v)
    case None => []
    case Some(l) => Visited(s, l, anchor)
  }

  predicate Stops(s: Store, l: Leaf, anchor: nat)
  {
    l !in s.leaves || !s.HasState(l.View()) || l.View() == anchor
  }

  predicate ParentNext(a: seq<Leaf>, i: nat)
  {
    i + 1 < |a| ==> a[i].Block? && a[i].justify.leaf == a[i + 1]
  }

  /** `a` are `l` and its ancestors, newest first, as long as they are stored and not of view `anchor`. */
  predicate WalkedFrom(s: Store, l: Leaf, anchor: nat, a: seq<Leaf>)
  {
    && (forall i | 0 <= i < |a| :: !Stops(s, a[i], anchor))
    && (forall i | 0 <= i < |a| :: ParentNext(a, i))
    && (if a == [] then Stops(s, l, anchor)
        else a[0] == l && (a[|a| - 1].Block? ==> Stops(s, a[|a| - 1].justify.leaf, anchor)))
  }

  lemma WalkGoesOn(s: Store, l: Leaf, anchor: nat, a: seq<Leaf>)
    requires WalkedFrom(s, l, anchor, a)
    ensures |a| > 1 ==> l.Block? && l.justify.leaf == a[1]
  {
    if |a| > 1 {
      assert ParentNext(a, 0);
    }
  }

  lemma WalkTail(s: Store, l: Leaf, anchor: nat, a: seq<Leaf>)
    requires a != [] && a[0] == l && !Stops(s, l, anchor) && l.Block?
    ensures WalkedFrom(s, l, anchor, a) <==> WalkedFrom(s, l.justify.leaf, anchor, a[1..])
  {
    var t := a[1..];
    if WalkedFrom(s, l, anchor, a) {
      WalkGoesOn(s, l, anchor, a);
      forall i | 0 <= i < |t| ensures ParentNext(t, i) && !Stops(s, t[i], anchor) {
        assert ParentNext(a, i + 1) && !Stops(s, a[i + 1], anchor);
      }
    }
    if WalkedFrom(s, l.justify.leaf, anchor, t) {
      forall i | 0 <= i < |a| ensures ParentNext(a, i) && !Stops(s, a[i], anchor) {
        assert i > 0 ==> ParentNext(t, i - 1) && !Stops(s, t[i - 1], anchor);
      }
    }
  }

  lemma {:induction false} VisitedExactly(s: Store, l: Leaf, anchor: nat)
    ensures WalkedFrom(s, l, anchor, Visited(s, l, anchor))
  {
    var a := Visited(s, l, anchor);
    if !Stops(s, l, anchor) && l.Block? {
      VisitedExactly(s, l.justify.leaf, anchor);
      assert a[1..] == Visited(s, l.justify.leaf, anchor);
      WalkTail(s, l, anchor, a);
    }
  }

  /** No other sequence fits that. */
  lemma {:induction false} WalkUnique(s: Store, l: Leaf, anchor: nat, a: seq<Leaf>, b: seq<Leaf>)
    requires WalkedFrom(s, l, anchor, a) && WalkedFrom(s, l, anchor, b)
    ensures a == b
  {
    WalkGoesOn(s, l, anchor, a);
    WalkGoesOn(s, l, anchor, b);
    if a != [] {
      if l.Block? {
        WalkTail(s, l, anchor, a);
        WalkTail(s, l, anchor, b);
        WalkUnique(s, l.justify.leaf, anchor, a[1..], b[1..]);
      }
      assert a == [l] + a[1..] && b == [l] + b[1..];
    }
  }

  /** The first `n` leaves of `a` have the consecutive views `v - 1`, `v - 2`, ... */
  predicate ChainOf(v: nat, a: seq<Leaf>, n: nat)
  {
    n <= |a| && forall i | 0 <= i < n :: a[i].View() + i + 1 == v
  }

  /** Section 5 of HotStuff (arXiv 1803.05069), on the ancestors `a` of a proposal for view `v`:
      two consecutive ancestors lock the second one, three decide the third one, and everything
      visited from the decided leaf on is delivered. */
  function ThreeChain(v: nat, a: seq<Leaf>): Outcome
  {
    if !ChainOf(v, a, 2) then NO_OUTCOME
    else if !ChainOf(v, a, 3) then Outcome(Some(a[1].View()), None, Some(JustifyOf(a[1])), [])
    else Outcome(Some(a[1].View()), Some(a[2].View()), Some(JustifyOf(a[1])), a[2..])
  }

  /** The variables the walk's callback captures. */
  datatype Walk = Walk(res: Outcome, last: nat, length: nat)

  /** What the callback has computed after visiting `done`. */
  predicate WalkOk(v: nat, done: seq<Leaf>, w: Walk)
  {
    if w.res.decided.None? then
      && |done| == w.length <= 2 && ChainOf(v, done, w.length) && w.last + w.length == v
      && w.res == if w.length < 2 then NO_OUTCOME
                  else Outcome(Some(done[1].View()), None, Some(JustifyOf(done[1])), [])
    else
      && ChainOf(v, done, 3)
      && w.res == Outcome(Some(done[1].View()), Some(done[2].View()), Some(JustifyOf(done[1])), done[2..])
  }

  /** The callback: count consecutive views until a decide, then collect; stop at a broken chain. */
  method Callback(leaf: Leaf, w: Walk, ghost v: nat, ghost done: seq<Leaf>) returns (w': Walk, more: bool)
    requires WalkOk(v, done, w)
    ensures more ==> WalkOk(v, done + [leaf], w')
    ensures !more ==> w' == w && w.res.decided.None? && leaf.View() + |done| + 1 != v
  {
    var res, last, length := w.res, w.last, w.length;
    if res.decided.None? {
      if last == leaf.View() + 1 {
        last := leaf.View();
        length := length + 1;
        if length == 2 {
          res := res.(lock := Some(leaf.View()), decideQc := Some(JustifyOf(leaf)));
        } else if length == 3 {
          res := res.(decided := Some(leaf.View()));
        }
      } else {
        return w, false;
      }
    }
    if res.decided.Some? {
      res := res.(leafViews := res.leafViews + [leaf]);
    }
    return Walk(res, last, length), true;
  }

  lemma WalkResult(v: nat, done: seq<Leaf>, rest: seq<Leaf>, w: Walk)
    requires WalkOk(v, done, w)
    requires rest != [] ==> w.res.decided.None? && rest[0].View() + |done| + 1 != v
    ensures w.res == ThreeChain(v, done + rest)
  {
    var a := done + rest;
    if w.res.decided.Some? {
      assert a == done;
    } else {
      assert w.length < 3 && (rest != [] ==> a[w.length] == rest[0]);
      assert !ChainOf(v, a, w.length + 1);
    }
  }

  lemma MoveFirst(done: seq<Leaf>, left: seq<Leaf>)
    requires left != []
    ensures done + left == done + [left[0]] + left[1..]
  {}

  /** `decide_from_proposal`: one walk whose callback counts the chain as it goes. */
  method DecideFromProposal(s: Store, proposal: Leaf, anchor: nat) returns (res: Outcome)
    requires proposal.Block?
    ensures res == ThreeChain(proposal.view, VisitedFrom(s, proposal.justify.view, anchor))
  {
    var start := StartAt(s, proposal.justify.view);
    if start.None? {
      return NO_OUTCOME;
    }
    var w := Walk(NO_OUTCOME, proposal.view, 0);
    var leaf, more := start.value, true;
    ghost var left, done := Visited(s, leaf, anchor), [];
    while more && leaf in s.leaves && s.HasState(leaf.View()) && leaf.View() != anchor
      invariant left == if more then Visited(s, leaf, anchor) else []
      invariant Visited(s, start.value, anchor) == done + left
      invariant WalkOk(proposal.view, done, w)
      decreases leaf, more
    {
      var goOn;
      w, goOn := Callback(leaf, w, proposal.view, done);
      if !goOn {
        WalkResult(proposal.view, done, left, w);
        return w.res;
      }
      MoveFirst(done, left);
      done, left := done + [leaf], left[1..];
      if leaf.Block? {
        leaf := leaf.justify.leaf;
      } else {
        more := false;
      }
    }
    WalkResult(proposal.view, done, left, w);
    return w.res;
  }

  // ---- the HotStuff-2 rule ----

  /** The decided leaf and its ancestors as far as `parent_leaf_info` finds them above `anchor`. */
  function Above(s: Store, l: Leaf, anchor: nat): (r: seq<Leaf>)
    ensures l.View() > anchor ==> |r| > 0 && r[0] == l
  {
    if l.View() <= anchor then []
    else [l] + if ParentInfo(s, l).None? then [] else Above(s, l.justify.leaf, anchor)
  }

  /** A proposal locks its justify certificate's view; it decides its grandparent when parent and
      grandparent have consecutive views and both are stored. */
  function TwoChain(s: Store, proposal: Leaf, anchor: nat): (r: Outcome)
    requires proposal.Block?
  {
    var lock := Some(proposal.justify.view);
    var parent := proposal.justify.leaf;
    if ParentInfo(s, proposal).None? || ParentInfo(s, parent).None? ||
       parent.justify.leaf.View() + 1 != parent.view
    then Outcome(lock, None, None, [])
    else Outcome(lock, Some(parent.justify.leaf.View()), Some(parent.justify),
                 Above(s, parent.justify.leaf, anchor))
  }

  /** `decide_from_proposal_2`. */
  method DecideFromProposal2(s: Store, proposal: Leaf, anchor: nat) returns (res: Outcome)
    requires proposal.Block?
    ensures res == TwoChain(s, proposal, anchor)
  {
    res := NO_OUTCOME.(lock := Some(proposal.justify.view));
    var parent := ParentInfo(s, proposal);
    if parent.None? {
      return;
    }
    var grandParent := ParentInfo(s, parent.value);
    if grandParent.None? {
      return;
    }
    if grandParent.value.View() + 1 != parent.value.View() {
      return;
    }
    res := res.(decideQc := Some(parent.value.justify), decided := Some(grandParent.value.View()));
    var leaf, more := grandParent.value, true;
    var leafViews := [];
    ghost var all := Above(s, leaf, anchor);
    while more && leaf.View() > anchor
      invariant all == leafViews + if more then Above(s, leaf, anchor) else []
      decreases leaf, more
    {
      leafViews := leafViews + [leaf];
      var info := ParentInfo(s, leaf);
      if info.Some? {
        leaf := info.value;
      } else {
        more := false;
      }
    }
    res := res.(leafViews := leafViews);
  }

  // ---- accepting a proposal ----

  /** The safety walk: parents from `l` reach a leaf of view `locked` through stored leaves. */
  predicate Reaches(s: Store, l: Leaf, locked: nat)
  {
    l in s.leaves && s.HasState(l.View()) &&
    (l.View() == locked || (l.Block? && Reaches(s, l.justify.leaf, locked)))
  }

  /** `visit_leaf_ancestors` from the justify view, stopping at the locked view: `is_ok()`. */
  method SafetyCheck(s: Store, justifyView: nat, locked: nat) returns (ok: bool)
    ensures ok == (StartAt(s, justifyView).Some? && Reaches(s, StartAt(s, justifyView).value, locked))
  {
    var start := StartAt(s, justifyView);
    if start.None? {
      return false;
    }
    var leaf, more := start.value, true;
    while more && leaf in s.leaves && s.HasState(leaf.View())
      invariant Reaches(s, start.value, locked) == (more && Reaches(s, leaf, locked))
      decreases leaf, more
    {
      if leaf.View() == locked {
        return true;
      }
      if leaf.Block? {
        leaf := leaf.justify.leaf;
      } else {
        more := false;
      }
    }
    return false;
  }

  /** "Safety or liveness" (the source's `safety_check || liveness_check`). */
  predicate SafeOrLive(s: Store, proposal: Leaf, locked: nat)
    requires proposal.Block?
  {
    || proposal.justify.view > locked
    || (StartAt(s, proposal.justify.view).Some? &&
        Reaches(s, StartAt(s, proposal.justify.view).value, locked))
  }

  /** Everything from `l` down to its ancestor `a` is stored. */
  ghost predicate StoredDownTo(s: Store, l: Leaf, a: Leaf)
  {
    Extends(l, a) && forall x | Extends(l, x) && Extends(x, a) :: x in s.leaves && s.HasState(x.View())
  }

  /** The walk succeeds exactly when an ancestor of the locked view is reached through stored leaves only. */
  lemma {:induction false} ReachesIffStored(s: Store, l: Leaf, locked: nat)
    ensures Reaches(s, l, locked) <==> exists a :: StoredDownTo(s, l, a) && a.View() == locked
  {
    if l.Block? {
      ReachesIffStored(s, l.justify.leaf, locked);
    }
    if Reaches(s, l, locked) {
      if l.View() == locked {
        OnlyItself(l);
        assert StoredDownTo(s, l, l);
      } else {
        var a :| StoredDownTo(s, l.justify.leaf, a) && a.View() == locked;
        assert StoredDownTo(s, l, a);
      }
    }
    if a :| StoredDownTo(s, l, a) && a.View() == locked {
      assert Extends(l, l);
      if l != a {
        assert StoredDownTo(s, l.justify.leaf, a);
      }
    }
  }

  lemma {:induction false} OnlyItself(l: Leaf)
    ensures forall x | Extends(l, x) && Extends(x, l) :: x == l
  {
    forall x | Extends(l, x) && Extends(x, l) ensures x == l {
      ExtendsBothWays(l, x);
    }
  }

  lemma {:induction false} ReachesBelow(s: Store, l: Leaf, locked: nat)
    requires Reaches(s, l, locked) && Falls(l)
    ensures locked <= l.View()
  {
    if l.View() != locked {
      ReachesBelow(s, l.justify.leaf, locked);
    }
  }

  /** An accepted proposal is justified no earlier than the lock, as long as views fall along the
      parents of whatever leaf the state map holds at the justify view. */
  lemma AcceptedNotBelowLock(s: Store, proposal: Leaf, locked: nat)
    requires proposal.Block? && s.Keyed() && SafeOrLive(s, proposal, locked)
    requires StartAt(s, proposal.justify.view).Some? ==> Falls(StartAt(s, proposal.justify.view).value)
    ensures proposal.justify.view >= locked
  {
    if proposal.justify.view <= locked {
      ReachesBelow(s, StartAt(s, proposal.justify.view).value, locked);
    }
  }

  // ---- completeness of what is delivered ----

  /** Every ancestor of `l` (itself included) above view `anchor`, stored or not. */
  function FullAbove(l: Leaf, anchor: nat): (r: seq<Leaf>)
  {
    if l.View() <= anchor then []
    else [l] + if l.Genesis? then [] else FullAbove(l.justify.leaf, anchor)
  }

  /** `parent_leaf_info` finds every ancestor of `l` that is still above `anchor`. */
  predicate ClosedAbove(s: Store, l: Leaf, anchor: nat)
  {
    l.View() > anchor && l.Block? && l.justify.leaf.View() > anchor ==>
      ParentInfo(s, l).Some? && ClosedAbove(s, l.justify.leaf, anchor)
  }

  /** HotStuff-2 delivers all ancestors above the anchor exactly when the store is closed above it. */
  lemma {:induction false} AboveCompleteIffClosed(s: Store, l: Leaf, anchor: nat)
    ensures Above(s, l, anchor) == FullAbove(l, anchor) <==> ClosedAbove(s, l, anchor)
  {
    if l.View() > anchor && l.Block? {
      var p := l.justify.leaf;
      AboveCompleteIffClosed(s, p, anchor);
      var rest := if ParentInfo(s, l).None? then [] else Above(s, p, anchor);
      assert Above(s, l, anchor) == [l] + rest && FullAbove(l, anchor) == [l] + FullAbove(p, anchor);
      assert Above(s, l, anchor)[1..] == rest && FullAbove(l, anchor)[1..] == FullAbove(p, anchor);
      assert p.View() > anchor ==> |FullAbove(p, anchor)| > 0;
    }
  }

  /** On a closed store the three-chain walk visits every ancestor above the anchor leaf. */
  lemma {:induction false} VisitedComplete(s: Store, l: Leaf, anchor: Leaf)
    requires Falls(l) && Extends(l, anchor) && Reaches(s, l, anchor.View())
    ensures Visited(s, l, anchor.View()) == FullAbove(l, anchor.View())
  {
    FallsBelow(l, anchor);
    if l != anchor {
      VisitedComplete(s, l.justify.leaf, anchor);
    }
  }

  /** What a complete decide appends is exactly what leads from the old anchor to the new one. */
  lemma {:induction false} PathSplit(l: Leaf, anchor: Leaf)
    requires Falls(l) && Extends(l, anchor)
    ensures Path(l) == Path(anchor) + Reverse(FullAbove(l, anchor.View()))
  {
    FallsBelow(l, anchor);
    if l == anchor {
      assert Path(l) == Path(anchor) + [];
    } else {
      PathSplit(l.justify.leaf, anchor);
      assert FullAbove(l, anchor.View())[1..] == FullAbove(l.justify.leaf, anchor.View());
    }
  }

  lemma {:induction false} AboveExtended(s: Store, l: Leaf, anchor: nat, x: Leaf)
    requires x in Above(s, l, anchor)
    ensures Extends(l, x)
  {
    if x != l {
      assert x in Above(s, l.justify.leaf, anchor);
      AboveExtended(s, l.justify.leaf, anchor, x);
    }
  }

  /** What a walk visits from its `i`-th leaf on are ancestors of that leaf. */
  lemma {:induction false} VisitedAt(s: Store, l: Leaf, anchor: nat, i: nat)
    requires i < |Visited(s, l, anchor)|
    ensures Extends(l, Visited(s, l, anchor)[i])
    ensures Visited(s, l, anchor)[i..] == Visited(s, Visited(s, l, anchor)[i], anchor)
  {
    if i > 0 {
      var rest := Visited(s, l.justify.leaf, anchor);
      assert Visited(s, l, anchor)[1..] == rest;
      VisitedAt(s, l.justify.leaf, anchor, i - 1);
    }
  }

  // ---- garbage collection ----

  /** Collecting up to `newAnchor` neither cuts nor opens any walk that stops at `v` or above, for
      every `v` from the view before the new anchor on. */
  lemma {:induction false} GarbageKeepsWalks(s: Store, oldAnchor: nat, newAnchor: nat, l: Leaf, v: nat)
    requires s.Keyed() && Falls(l) && newAnchor <= v + 1
    ensures Reaches(CollectGarbage(s, oldAnchor, newAnchor), l, v) <==> Reaches(s, l, v)
  {
    if l.Block? {
      GarbageKeepsWalks(s, oldAnchor, newAnchor, l.justify.leaf, v);
    }
    if Reaches(s, l, v) {
      ReachesBelow(s, l, v);
    }
  }

  /** So it changes no verdict of the acceptance rule while the lock is not behind the anchor. */
  lemma GarbageKeepsAcceptance(s: Store, oldAnchor: nat, newAnchor: nat, p: Leaf, locked: nat)
    requires p.Block? && s.Keyed() && newAnchor <= locked + 1
    requires StartAt(s, p.justify.view).Some? ==> Falls(StartAt(s, p.justify.view).value)
    ensures SafeOrLive(CollectGarbage(s, oldAnchor, newAnchor), p, locked) <==> SafeOrLive(s, p, locked)
  {
    var start := StartAt(s, p.justify.view);
    if start.Some? {
      GarbageKeepsWalks(s, oldAnchor, newAnchor, start.value, locked);
      if Reaches(s, start.value, locked) {
        ReachesBelow(s, start.value, locked);
      }
    }
  }

  /** And a decide walk down to the new anchor visits the same leaves. */
  lemma {:induction false} GarbageKeepsVisited(s: Store, oldAnchor: nat, newAnchor: nat, l: Leaf)
    requires s.Keyed() && Falls(l) && Reaches(s, l, newAnchor)
    ensures Visited(CollectGarbage(s, oldAnchor, newAnchor), l, newAnchor) == Visited(s, l, newAnchor)
  {
    ReachesBelow(s, l, newAnchor);
    if l.View() != newAnchor {
      GarbageKeepsVisited(s, oldAnchor, newAnchor, l.justify.leaf);
    }
  }
}
