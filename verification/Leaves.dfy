/** Leaves, quorum certificates and the in-memory leaf store.

    A leaf commitment stands for the leaf it commits to: hashing is taken to be collision free, so a
    certificate carries the certified leaf itself and "look the commitment up" becomes membership in
    the set of saved leaves.
 */
module Leaves {
  import opened Committees

  datatype Option<+T> = None | Some(value: T)

  /** The genesis leaf has view 0 and a parent commitment with no preimage.  Every other leaf takes
      its parent from the certificate that justifies it. */
  datatype Leaf = Genesis | Block(view: nat, justify: QC, payload: nat)
  {
    function View(): nat { if Genesis? then 0 else view }
  }

  datatype QC = QC(view: nat, leaf: Leaf, signers: set<Node>)

  // ---- ancestry ----

  /** `a` is `l` or one of its ancestors. */
  predicate Extends(l: Leaf, a: Leaf)
  {
    l == a || (l.Block? && Extends(l.justify.leaf, a))
  }

  predicate Comparable(a: Leaf, b: Leaf)
  {
    Extends(a, b) || Extends(b, a)
  }

  /** Views strictly fall from `l` all the way to genesis. */
  predicate Falls(l: Leaf)
  {
    l.Block? ==> l.justify.leaf.View() < l.view && Falls(l.justify.leaf)
  }

  /** The leaves after genesis up to and including `l`, oldest first. */
  function Path(l: Leaf): (s: seq<Leaf>)
    ensures l.Block? ==> |s| > 0 && s[|s| - 1] == l
  {
    if l.Genesis? then [] else Path(l.justify.leaf) + [l]
  }

  lemma {:induction false} ExtendsTransitive(a: Leaf, b: Leaf, c: Leaf)
    requires Extends(a, b) && Extends(b, c)
    ensures Extends(a, c)
  {
    if a != b {
      ExtendsTransitive(a.justify.leaf, b, c);
    }
  }

  lemma {:induction false} ExtendsGenesis(l: Leaf)
    ensures Extends(l, Genesis)
  {
    if l.Block? {
      ExtendsGenesis(l.justify.leaf);
    }
  }

  function Depth(l: Leaf): nat
  {
    if l.Genesis? then 0 else Depth(l.justify.leaf) + 1
  }

  lemma {:induction false} ExtendsDeeper(l: Leaf, a: Leaf)
    requires Extends(l, a)
    ensures Depth(a) <= Depth(l) && (Depth(a) == Depth(l) ==> l == a)
  {
    if l != a {
      ExtendsDeeper(l.justify.leaf, a);
    }
  }

  /** No leaf is an ancestor of its own ancestors. */
  lemma ExtendsBothWays(a: Leaf, b: Leaf)
    requires Extends(a, b) && Extends(b, a)
    ensures a == b
  {
    ExtendsDeeper(a, b);
    ExtendsDeeper(b, a);
  }

  /** The ancestors of one leaf form a line. */
  lemma {:induction false} AncestorsComparable(l: Leaf, a: Leaf, b: Leaf)
    requires Extends(l, a) && Extends(l, b)
    ensures Comparable(a, b)
  {
    if l != a && l != b {
      AncestorsComparable(l.justify.leaf, a, b);
    }
  }

  lemma {:induction false} FallsBelow(l: Leaf, a: Leaf)
    requires Falls(l) && Extends(l, a)
    ensures Falls(a)
    ensures l != a ==> a.View() < l.View()
  {
    if l != a {
      FallsBelow(l.justify.leaf, a);
    }
  }

  /** A path is a prefix of every path that extends it. */
  lemma {:induction false} PathPrefix(l: Leaf, a: Leaf)
    requires Extends(l, a)
    ensures Path(a) <= Path(l)
  {
    if l != a {
      PathPrefix(l.justify.leaf, a);
    }
  }

  function Reverse(s: seq<Leaf>): (r: seq<Leaf>)
    ensures |r| == |s|
  {
    if |s| == 0 then [] else Reverse(s[1..]) + [s[0]]
  }

  lemma {:induction false} ReverseMembers(s: seq<Leaf>, x: Leaf)
    ensures x in Reverse(s) <==> x in s
  {
    if |s| > 0 {
      ReverseMembers(s[1..], x);
    }
  }

  // ---- the store ----

  /** `ViewInner`: a pending DA view, a leaf with its state (and perhaps a delta), or a failure. */
  datatype ViewInner = Da(payload: nat) | LeafView(leaf: Leaf, delta: bool) | Failed

  /** `validated_state_map` and `saved_leaves`. */
  datatype Store = Store(views: map<nat, ViewInner>, leaves: set<Leaf>)
  {
    /** `state_and_delta(view).0.is_some()` */
    predicate HasState(v: nat) { v in views && views[v].LeafView? }

    /** Every leaf entry of the state map sits at its own leaf's view. */
    predicate Keyed() {
      forall v | v in views && views[v].LeafView? :: views[v].leaf.View() == v
    }
  }

  const GENESIS_STORE := Store(map[0 := LeafView(Genesis, true)], {Genesis})

  /** `update_validated_state_map`: a leaf that carries a state delta is not overwritten by one that
      does not, nor by anything that is not a leaf. */
  function UpdateView(s: Store, v: nat, inner: ViewInner): (r: Option<Store>)
  {
    if v in s.views && s.views[v].LeafView? &&
       (if inner.LeafView? then !inner.delta && s.views[v].delta else true)
    then None
    else Some(s.(views := s.views[v := inner]))
  }

  /** `update_leaf`, whose error the callers log and ignore. */
  function UpdateLeaf(s: Store, l: Leaf, delta: bool): (r: Store)
    ensures s.Keyed() ==> r.Keyed()
    ensures s.leaves <= r.leaves <= s.leaves + {l}
  {
    match UpdateView(s, l.View(), LeafView(l, delta))
    case None => s
    case Some(t) => t.(leaves := t.leaves + {l})
  }

  function UpdateDaView(s: Store, v: nat, payload: nat): (r: Store)
    ensures s.Keyed() ==> r.Keyed()
    ensures r.leaves == s.leaves
  {
    match UpdateView(s, v, Da(payload))
    case None => s
    case Some(t) => t
  }

  /** `collect_garbage`: forget the leaves that the state map names in `old .. new - 1`, then every
      map entry below `new - 1`. */
  function CollectGarbage(s: Store, oldAnchor: nat, newAnchor: nat): (r: Store)
    ensures s.Keyed() ==> r.Keyed()
    ensures r.leaves <= s.leaves
  {
    if newAnchor <= oldAnchor then s
    else
      var gc := newAnchor - 1;
      var dropped := set v | v in s.views && oldAnchor <= v < gc && s.views[v].LeafView? :: s.views[v].leaf;
      Store(map v | v in s.views && gc <= v :: s.views[v], s.leaves - dropped)
  }

  /** An entry that already has its state delta is safe from a save without one; any other save takes
      the view, and touches nothing else. */
  lemma SavedExactly(s: Store, l: Leaf, delta: bool)
    ensures var r, v := UpdateLeaf(s, l, delta), l.View();
            if s.HasState(v) && s.views[v].delta && !delta then r == s
            else
              && v in r.views && r.views[v] == LeafView(l, delta) && r.leaves == s.leaves + {l}
              && (forall u | u != v :: (u in r.views <==> u in s.views) && (u in s.views ==> r.views[u] == s.views[u]))
  {}

  /** A DA entry takes a view without a state, and touches nothing else. */
  lemma DaSavedExactly(s: Store, v: nat, payload: nat)
    ensures var r := UpdateDaView(s, v, payload);
            if s.HasState(v) then r == s
            else
              && v in r.views && r.views[v] == Da(payload) && r.leaves == s.leaves
              && (forall u | u != v :: (u in r.views <==> u in s.views) && (u in s.views ==> r.views[u] == s.views[u]))
  {}

  /** The leaf that the state map names at its own view. */
  predicate Named(s: Store, l: Leaf)
  {
    s.HasState(l.View()) && s.views[l.View()].leaf == l
  }

  /** Advancing the anchor forgets every view before the one below it, and of the saved leaves exactly
      those the map names from the old anchor up to there. */
  lemma CollectedExactly(s: Store, oldAnchor: nat, newAnchor: nat)
    requires s.Keyed() && oldAnchor < newAnchor
    ensures var r := CollectGarbage(s, oldAnchor, newAnchor);
            && (forall v :: v in r.views <==> v in s.views && v + 1 >= newAnchor)
            && (forall v | v in r.views :: r.views[v] == s.views[v])
            && (forall l :: l in r.leaves <==> l in s.leaves && !(Named(s, l) && oldAnchor <= l.View() && l.View() + 1 < newAnchor))
  {
    var r := CollectGarbage(s, oldAnchor, newAnchor);
    forall l | l in s.leaves && !(Named(s, l) && oldAnchor <= l.View() && l.View() + 1 < newAnchor)
      ensures l in r.leaves
    {
      assert forall v | v in s.views && s.views[v].LeafView? && s.views[v].leaf == l :: v == l.View();
    }
  }

  /** `parent_leaf_info`: the parent, if its leaf is saved and its view has a state. */
  function ParentInfo(s: Store, l: Leaf): (r: Option<Leaf>)
    ensures r.Some? ==> l.Block? && r.value == l.justify.leaf
  {
    if l.Block? && l.justify.leaf in s.leaves && s.HasState(l.justify.view) then Some(l.justify.leaf)
    else None
  }
}
