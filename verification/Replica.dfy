/** One replica: what it does with a quorum proposal, from receiving it to locking, deciding and
    delivering. */
module Replicas {
  import opened Leaves
  import opened Decide

  /** Which rule the protocol version in force selects. */
  datatype Rule = ThreeChainRule | TwoChainRule

  /** The fields of `Consensus` that agreement depends on, and what the replica has done so far.
      `anchor` is the last decided leaf, `checking` the proposals saved but not yet checked for safety
      and liveness, `pending` the accepted ones whose validation event the
      vote task has not taken up yet, `validated` the ones it has, `marked` those saved with their state
      delta in order to vote for them,
      `seen` the store as the vote task last read it for a decide rule, `log` the leaves delivered in
      decide events, oldest first.  `proof` records, for specifications only, the certificate behind
      the last decide. */
  datatype Replica = Replica(
    store: Store, seen: Store, curView: nat, locked: nat, voted: nat, anchor: Leaf,
    checking: set<Leaf>, pending: set<Leaf>, validated: set<Leaf>, marked: set<Leaf>, log: seq<Leaf>, proof: QC)
  {
    /** What may be voted for, taken up or not. */
    function Votable(): set<Leaf> { pending + validated }
  }

  const GENESIS_REPLICA :=
    Replica(GENESIS_STORE, GENESIS_STORE, 0, 0, 0, Genesis, {}, {}, {}, {}, [], QC(0, Genesis, {}))

  function Decides(rule: Rule, s: Store, p: Leaf, anchor: nat): (out: Outcome)
    requires p.Block?
    ensures out.decided.Some? && out.decided.value > anchor ==>
              |out.leafViews| > 0 && out.leafViews[0].View() == out.decided.value
  {
    match rule
    case ThreeChainRule => ThreeChain(p.view, VisitedFrom(s, p.justify.view, anchor))
    case TwoChainRule => TwoChain(s, p, anchor)
  }

  /** A decide: collect garbage, move the anchor, emit the decided leaves. */
  function Deliver(r: Replica, p: Leaf, out: Outcome): Replica
    requires p.Block? && out.decided.Some? && |out.leafViews| > 0
  {
    r.(store := CollectGarbage(r.store, r.anchor.View(), out.decided.value),
       anchor := out.leafViews[0],
       log := r.log + Reverse(out.leafViews),
       proof := p.justify)
  }

  /** `handle_quorum_proposal_validated`.  The decide rule works on the store as it was read, and what
      follows on the store as it is.  The lock is only ever raised, and when the outcome's lock
      does not raise it the handler returns early, before any decide. */
  function HandleValidated(rule: Rule, r: Replica, p: Leaf): Replica
    requires p.Block?
  {
    var out := Decides(rule, r.seen, p, r.anchor.View());
    if out.lock.Some? && out.lock.value <= r.locked then r
    else
      var r' := if out.lock.Some? then r.(locked := out.lock.value) else r;
      if out.decided.None? || out.decided.value <= r.anchor.View() then r'
      else Deliver(r', p, out)
  }

  /** What the receiving task found of the proposal's parent, some time before it goes on. */
  datatype Lookup = ParentMissing | ParentStateless | ParentFound

  function LookUp(s: Store, p: Leaf): Lookup
    requires p.Block?
  {
    if p.justify.leaf !in s.leaves then ParentMissing
    else if !s.HasState(p.justify.leaf.View()) then ParentStateless
    else ParentFound
  }

  /** `handle_quorum_proposal_recv` once the proposal's view and certificates have been checked and its
      parent looked up: save the proposed leaf.  Without a parent, liveness only and no vote, but
      HotStuff-2 still moves the lock. */
  function Receive(rule: Rule, r: Replica, p: Leaf, found: Lookup): Replica
    requires p.Block?
  {
    var saved := r.(store := UpdateLeaf(r.store, p, false));
    match found
    case ParentMissing => if rule.TwoChainRule? && p.justify.view > r.locked then saved.(locked := p.justify.view) else saved
    case ParentStateless => r
    case ParentFound => saved.(checking := r.checking + {p})
  }

  /** The proposal passes safety or liveness. */
  predicate Accepts(r: Replica, p: Leaf)
    requires p.Block?
  {
    SafeOrLive(r.store, p, r.locked)
  }

  /** `validate_proposal_safety_and_liveness`.  An accepted proposal waits for the vote task, and the view
      moves when the view change it announces is handled. */
  function Check(r: Replica, p: Leaf): Replica
    requires p.Block?
  {
    r.(checking := r.checking - {p}, pending := if Accepts(r, p) then r.pending + {p} else r.pending)
  }

  /** The vote task takes up a pending proposal.  An error before the decide rule is reached is logged
      and voting goes on without the lock having moved. */
  function TakeUp(rule: Rule, r: Replica, p: Leaf, fails: bool): Replica
    requires p.Block?
  {
    var taken := r.(pending := r.pending - {p}, validated := r.validated + {p});
    if fails then taken else HandleValidated(rule, taken, p)
  }

  /** The decide event of taking up a proposal: the delivered leaves, newest first. */
  function DecideEvent(rule: Rule, r: Replica, p: Leaf): (event: seq<Leaf>)
    requires p.Block?
  {
    var out := Decides(rule, r.seen, p, r.anchor.View());
    if (out.lock.Some? && out.lock.value <= r.locked) || out.decided.None? || out.decided.value <= r.anchor.View()
    then [] else out.leafViews
  }

  /** The `Consensus` object itself, its fields updated in place. */
  class Consensus {
    var views: map<nat, ViewInner>
    var leaves: set<Leaf>
    var lockedView: nat
    var lastDecided: Leaf
    var delivered: seq<Leaf>

    constructor ()
      ensures views == GENESIS_STORE.views && leaves == GENESIS_STORE.leaves
      ensures lockedView == 0 && lastDecided == Genesis && delivered == []
    {
      views, leaves := map[0 := LeafView(Genesis, true)], {Genesis};
      lockedView := 0;
      lastDecided, delivered := Genesis, [];
    }

    /** The store and counters of `r` are this object's. */
    ghost predicate Shows(r: Replica)
      reads this
    {
      && r.store == Store(views, leaves) && r.locked == lockedView
      && r.anchor == lastDecided && r.log == delivered
    }

    method UpdateViewEntry(v: nat, inner: ViewInner) returns (ok: bool)
      modifies this`views
      ensures ok == UpdateView(Store(old(views), leaves), v, inner).Some?
      ensures ok ==> Store(views, leaves) == UpdateView(Store(old(views), leaves), v, inner).value
      ensures !ok ==> views == old(views)
    {
      if v in views && views[v].LeafView? {
        if inner.LeafView? {
          if !inner.delta && views[v].delta {
            return false;
          }
        } else {
          return false;
        }
      }
      views := views[v := inner];
      return true;
    }

    method SaveLeaf(l: Leaf, delta: bool)
      modifies this`views, this`leaves
      ensures Store(views, leaves) == UpdateLeaf(old(Store(views, leaves)), l, delta)
    {
      var ok := UpdateViewEntry(l.View(), LeafView(l, delta));
      if ok {
        leaves := leaves + {l};
      }
    }

    method UpdateLockedView(v: nat) returns (ok: bool)
      modifies this`lockedView
      ensures ok == (v > old(lockedView))
      ensures lockedView == if ok then v else old(lockedView)
    {
      ok := v > lockedView;
      if ok {
        lockedView := v;
      }
    }

    /** The state map is walked in ascending view order, as a `BTreeMap` range. */
    method Collect(oldAnchor: nat, newAnchor: nat)
      modifies this`views, this`leaves
      ensures Store(views, leaves) == CollectGarbage(old(Store(views, leaves)), oldAnchor, newAnchor)
    {
      if newAnchor <= oldAnchor {
        return;
      }
      var gc := newAnchor - 1;
      var v := oldAnchor;
      while v < gc
        invariant oldAnchor <= v <= gc
        invariant views == old(views)
        invariant leaves == old(leaves) -
                            set u | u in views && oldAnchor <= u < v && views[u].LeafView? :: views[u].leaf
      {
        if v in views && views[v].LeafView? {
          leaves := leaves - {views[v].leaf};
        }
        v := v + 1;
      }
      views := map u | u in views && gc <= u :: views[u];
    }

    /** The vote task's handler, in place, with the decide event it broadcasts; `r` is the functional
        replica this object shows, `seen` the store as it was read, and `fails` an error before the
        decide rule is reached. */
    method HandleProposalValidated(rule: Rule, p: Leaf, fails: bool, seen: Store, ghost r: Replica)
      returns (event: seq<Leaf>)
      requires p.Block? && Shows(r) && seen == r.seen
      modifies this
      ensures Shows(TakeUp(rule, r, p, fails))
      ensures event == if fails then [] else DecideEvent(rule, r, p)
    {
      if fails {
        return [];
      }
      var out: Outcome;
      match rule {
        case ThreeChainRule => out := DecideFromProposal(seen, p, lastDecided.View());
        case TwoChainRule => out := DecideFromProposal2(seen, p, lastDecided.View());
      }
      assert out == Decides(rule, r.seen, p, r.anchor.View());
      if out.lock.Some? {
        var raised := UpdateLockedView(out.lock.value);
        if !raised {
          return [];
        }
      }
      if out.decided.None? {
        return [];
      }
      Collect(lastDecided.View(), out.decided.value);
      if out.decided.value <= lastDecided.View() {
        return [];
      }
      lastDecided := out.leafViews[0];
      delivered := delivered + Reverse(out.leafViews);
      return out.leafViews;
    }

    method LookUpParent(p: Leaf, ghost r: Replica) returns (found: Lookup)
      requires p.Block? && Shows(r)
      ensures found == LookUp(r.store, p)
    {
      if p.justify.leaf !in leaves {
        return ParentMissing;
      }
      var parentView := p.justify.leaf.View();
      if parentView in views && views[parentView].LeafView? {
        return ParentFound;
      }
      return ParentStateless;
    }

    /** A received proposal whose parent has been looked up, in place, and whether it goes on to be checked. */
    method ReceiveProposal(rule: Rule, p: Leaf, found: Lookup, ghost r: Replica) returns (goesOn: bool)
      requires p.Block? && Shows(r)
      modifies this
      ensures Shows(Receive(rule, r, p, found))
      ensures goesOn <==> found.ParentFound?
    {
      match found {
        case ParentMissing =>
          SaveLeaf(p, false);
          var live := p.justify.view > lockedView;
          if live && rule.TwoChainRule? {
            var _ := UpdateLockedView(p.justify.view);
          }
          return false;
        case ParentStateless =>
          return false;
        case ParentFound =>
          SaveLeaf(p, false);
          return true;
      }
    }

    /** The check itself, and whether a validation event is sent. */
    method CheckProposal(p: Leaf, ghost r: Replica) returns (accepted: bool)
      requires p.Block? && Shows(r)
      ensures Shows(Check(r, p)) && accepted == Accepts(r, p)
    {
      var live := p.justify.view > lockedView;
      var safe := SafetyCheck(Store(views, leaves), p.justify.view, lockedView);
      return safe || live;
    }
  }
}
