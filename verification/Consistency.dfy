/** The cross-node consistency checker: its passes, exactly when they succeed, and that they succeed
    on what replicas of a sound committee deliver. */
module Consistency {
  import opened Leaves

  /** Leaves a node reported, per view; several per view are possible a priori. */
  type NodeMap = map<nat, seq<Leaf>>

  type OneLeaf = map<nat, Leaf>

  // ---- adjacent duplicates ----

  /** `Vec::dedup`: drop repeats of the element just before. */
  function Dedup(s: seq<Leaf>): (r: seq<Leaf>)
    ensures |s| > 0 ==> |r| > 0 && r[0] == s[0]
    ensures |s| == 0 ==> r == []
  {
    if |s| < 2 then s
    else if s[0] == s[1] then Dedup(s[1..])
    else [s[0]] + Dedup(s[1..])
  }

  predicate AllEqual(s: seq<Leaf>)
  {
    forall i | 0 <= i < |s| :: s[i] == s[0]
  }

  /** Dropping adjacent repeats leaves at most one element exactly when all were equal. */
  lemma {:induction false} DedupToOneIffEqual(s: seq<Leaf>)
    ensures |Dedup(s)| <= 1 <==> AllEqual(s)
  {
    if |s| >= 2 {
      var rest := s[1..];
      DedupToOneIffEqual(rest);
      assert forall i | 0 <= i < |rest| :: rest[i] == s[i + 1];
      if s[0] == s[1] && AllEqual(rest) {
        assert forall i | 1 <= i < |s| :: s[i] == rest[i - 1];
      }
    }
  }

  // ---- ascending iteration over a map ----

  predicate Least(s: set<nat>, m: nat)
  {
    m in s && forall x | x in s :: m <= x
  }

  lemma {:induction false} LeastExists(s: set<nat>)
    requires s != {}
    ensures exists m :: Least(s, m)
  {
    var y :| y in s;
    if s == {y} {
      assert Least(s, y);
    } else {
      LeastExists(s - {y});
      var m :| Least(s - {y}, m);
      assert forall x | x in s :: x == y || x in s - {y};
      assert Least(s, if y < m then y else m);
    }
  }

  predicate Ascending(keys: seq<nat>)
  {
    forall i, j | 0 <= i < j < |keys| :: keys[i] < keys[j]
  }

  /** The keys of a `BTreeMap` in the order it is iterated. */
  method SortedKeys(s: set<nat>) returns (keys: seq<nat>)
    ensures Ascending(keys)
    ensures forall k :: k in keys <==> k in s
  {
    keys := [];
    var todo := s;
    while todo != {}
      invariant todo <= s && Ascending(keys)
      invariant forall k | k in s :: k in keys || k in todo
      invariant forall i | 0 <= i < |keys| :: keys[i] in s
      invariant forall i, t | 0 <= i < |keys| && t in todo :: keys[i] < t
    {
      LeastExists(todo);
      var k :| k in todo && Least(todo, k);
      keys := keys + [k];
      todo := todo - {k};
    }
  }

  /** `b` is the key that comes after `a`. */
  ghost predicate Follows(keys: set<nat>, a: nat, b: nat)
  {
    a in keys && b in keys && a < b && forall c | c in keys :: c <= a || b <= c
  }

  lemma FollowsIsNext(s: set<nat>, keys: seq<nat>, a: nat, b: nat)
    requires Ascending(keys) && forall k :: k in keys <==> k in s
    ensures Follows(s, a, b) <==> exists i :: 0 < i < |keys| && keys[i - 1] == a && keys[i] == b
  {
    if Follows(s, a, b) {
      var i :| 0 <= i < |keys| && keys[i] == b;
      var j :| 0 <= j < |keys| && keys[j] == a;
      assert j < i;
      assert keys[i - 1] in s;
      assert keys[i - 1] == a;
    }
    if i :| 0 < i < |keys| && keys[i - 1] == a && keys[i] == b {
      forall c | c in s ensures c <= a || b <= c {
        var j :| 0 <= j < |keys| && keys[j] == c;
        assert j <= i - 1 || i <= j;
      }
    }
  }

  ghost predicate Consecutive(m: OneLeaf, ok: (Leaf, Leaf) -> bool)
  {
    forall a, b | Follows(m.Keys, a, b) :: ok(m[a], m[b])
  }

  /** Zip the values with themselves shifted by one and test every pair. */
  method AllConsecutive(m: OneLeaf, ok: (Leaf, Leaf) -> bool) returns (r: bool)
    ensures r == Consecutive(m, ok)
  {
    var keys := SortedKeys(m.Keys);
    var i := 1;
    while i < |keys|
      invariant 1 <= i
      invariant forall j | 1 <= j < i && j < |keys| :: ok(m[keys[j - 1]], m[keys[j]])
    {
      if !ok(m[keys[i - 1]], m[keys[i]]) {
        FollowsIsNext(m.Keys, keys, keys[i - 1], keys[i]);
        return false;
      }
      i := i + 1;
    }
    forall a, b | Follows(m.Keys, a, b) ensures ok(m[a], m[b]) {
      FollowsIsNext(m.Keys, keys, a, b);
    }
    return true;
  }

  // ---- a node on its own ----

  /** Each view's leaves of one node, reduced to the one they agree on. */
  function FirstLeaves(m: NodeMap): OneLeaf
  {
    map v | v in m && |m[v]| > 0 :: m[v][0]
  }

  predicate SelfConsistent(m: NodeMap)
  {
    forall v | v in m :: AllEqual(m[v])
  }

  method SanitizeNodeMap(m: NodeMap) returns (r: Option<OneLeaf>)
    ensures r.Some? <==> SelfConsistent(m)
    ensures r.Some? ==> r.value == FirstLeaves(m)
  {
    var result: OneLeaf := map[];
    var keys := SortedKeys(m.Keys);
    for i := 0 to |keys|
      invariant forall j | 0 <= j < i :: AllEqual(m[keys[j]])
      invariant forall v | v in result :: v in m && |m[v]| > 0 && result[v] == m[v][0]
      invariant forall j | 0 <= j < i && |m[keys[j]]| > 0 :: keys[j] in result
    {
      var reduced := Dedup(m[keys[i]]);
      DedupToOneIffEqual(m[keys[i]]);
      if |reduced| == 1 {
        result := result[keys[i] := reduced[0]];
      } else if |reduced| > 1 {
        return None;
      }
    }
    return Some(result);
  }

  method SanitizeNetworkMap(n: map<nat, NodeMap>) returns (r: Option<map<nat, OneLeaf>>)
    ensures r.Some? <==> forall id | id in n :: SelfConsistent(n[id])
    ensures r.Some? ==> r.value == Sanitized(n)
  {
    var result: map<nat, OneLeaf> := map[];
    var ids := SortedKeys(n.Keys);
    for i := 0 to |ids|
      invariant forall j | 0 <= j < i :: SelfConsistent(n[ids[j]]) && ids[j] in result
      invariant forall id | id in result :: id in n && result[id] == FirstLeaves(n[id])
    {
      var one := SanitizeNodeMap(n[ids[i]]);
      if one.None? {
        return None;
      }
      result := result[ids[i] := one.value];
    }
    return Some(result);
  }

  function Sanitized(n: map<nat, NodeMap>): map<nat, OneLeaf>
  {
    map id | id in n :: FirstLeaves(n[id])
  }

  /** `validate_node_map` for one parent and child: the child's certificate is for the parent's view
      or a later one, and for the parent itself when the views agree. */
  predicate HistoryOk(parent: Leaf, child: Leaf)
  {
    child.Block? && child.justify.view >= parent.View() &&
    (child.justify.view == parent.View() ==> child.justify.leaf == parent)
  }

  ghost predicate HistoriesOk(n: map<nat, OneLeaf>)
  {
    forall id | id in n :: Consecutive(n[id], HistoryOk)
  }

  // ---- interchanging node and view ----

  function At(m: map<nat, OneLeaf>, a: nat, b: nat): Option<Leaf>
  {
    if a in m && b in m[a] then Some(m[a][b]) else None
  }

  /** The same entries under interchanged keys, with no empty row. */
  ghost predicate Inverse(n: map<nat, OneLeaf>, inv: map<nat, OneLeaf>)
  {
    && (forall v, id :: At(inv, v, id) == At(n, id, v))
    && (forall v | v in inv :: inv[v] != map[])
  }

  method InvertNetworkMap(n: map<nat, OneLeaf>) returns (r: Option<map<nat, OneLeaf>>)
    ensures r.Some? <==> HistoriesOk(n)
    ensures r.Some? ==> Inverse(n, r.value)
  {
    var inverted: map<nat, OneLeaf> := map[];
    var ids := SortedKeys(n.Keys);
    for i := 0 to |ids|
      invariant forall j | 0 <= j < i :: Consecutive(n[ids[j]], HistoryOk)
      invariant forall v | v in inverted :: inverted[v] != map[]
      invariant forall v, id :: At(inverted, v, id) == if id in ids[..i] then At(n, id, v) else None
    {
      var ok := AllConsecutive(n[ids[i]], HistoryOk);
      if !ok {
        return None;
      }
      assert ids[..i + 1] == ids[..i] + [ids[i]];
      inverted := InsertRow(inverted, ids[i], n[ids[i]]);
    }
    assert ids[..|ids|] == ids;
    return Some(inverted);
  }

  /** `entry(a).or_insert(..).insert(b, l)` */
  function Put(m: map<nat, OneLeaf>, a: nat, b: nat, l: Leaf): (r: map<nat, OneLeaf>)
    ensures forall x, y :: At(r, x, y) == if x == a && y == b then Some(l) else At(m, x, y)
    ensures (forall x | x in m :: m[x] != map[]) ==> forall x | x in r :: r[x] != map[]
  {
    var row: OneLeaf := (if a in m then m[a] else map[])[b := l];
    assert b in row;
    m[a := row]
  }

  /** Add one node's leaves. */
  method InsertRow(m: map<nat, OneLeaf>, id: nat, row: OneLeaf) returns (r: map<nat, OneLeaf>)
    requires forall v | v in m :: m[v] != map[]
    requires forall v :: At(m, v, id) == None
    ensures forall v | v in r :: r[v] != map[]
    ensures forall v, j :: At(r, v, j) == if j != id then At(m, v, j) else if v in row then Some(row[v]) else None
  {
    r := m;
    var views := SortedKeys(row.Keys);
    for i := 0 to |views|
      invariant forall v | v in r :: r[v] != map[]
      invariant forall v, j | j != id :: At(r, v, j) == At(m, v, j)
      invariant forall v :: At(r, v, id) == if v in views[..i] then Some(row[v]) else None
    {
      assert views[..i + 1] == views[..i] + [views[i]];
      r := Put(r, views[i], id, row[views[i]]);
    }
    assert views[..|views|] == views;
  }

  // ---- the network ----

  predicate ViewAgrees(m: OneLeaf)
  {
    forall i, j | i in m && j in m :: m[i] == m[j]
  }

  predicate Linked(parent: Leaf, child: Leaf)
  {
    child.Block? && child.justify.leaf == parent
  }

  /** A view's leaf when its nodes agree on one; an empty view has none. */
  method Agreed(m: OneLeaf) returns (ok: bool, leaf: Option<Leaf>)
    ensures ok <==> ViewAgrees(m)
    ensures ok ==> (leaf.None? <==> m == map[]) && forall id | id in m :: leaf == Some(m[id])
  {
    var ids := SortedKeys(m.Keys);
    var leaves := seq(|ids|, i requires 0 <= i < |ids| => m[ids[i]]);
    var reduced := Dedup(leaves);
    DedupToOneIffEqual(leaves);
    if AllEqual(leaves) {
      forall id | id in m ensures m[id] == leaves[0] {
        var x :| 0 <= x < |ids| && ids[x] == id;
        assert leaves[x] == m[id];
      }
    } else {
      var x :| 0 <= x < |leaves| && leaves[x] != leaves[0];
      assert m[ids[x]] != m[ids[0]];
    }
    ok := |reduced| <= 1;
    leaf := if |reduced| == 0 then None else Some(reduced[0]);
    if |ids| > 0 {
      assert ids[0] in m;
    }
  }

  ghost function SomeLeaf(m: OneLeaf): Leaf
    requires m != map[]
  {
    var id :| id in m; m[id]
  }

  /** One leaf per view across the network. */
  ghost function Merged(vm: map<nat, OneLeaf>): OneLeaf
  {
    map v | v in vm && vm[v] != map[] :: SomeLeaf(vm[v])
  }

  ghost predicate ViewsAgree(vm: map<nat, OneLeaf>)
  {
    forall v | v in vm :: ViewAgrees(vm[v])
  }

  method SanitizeViewMap(vm: map<nat, OneLeaf>) returns (r: Option<OneLeaf>)
    ensures r.Some? <==> ViewsAgree(vm) && Consecutive(Merged(vm), Linked)
    ensures r.Some? ==> r.value == Merged(vm)
  {
    var result: OneLeaf := map[];
    var views := SortedKeys(vm.Keys);
    for i := 0 to |views|
      invariant forall j | 0 <= j < i :: ViewAgrees(vm[views[j]])
      invariant forall j | 0 <= j < i && vm[views[j]] != map[] :: views[j] in result
      invariant forall v | v in result :: v in vm && vm[v] != map[] && result[v] == SomeLeaf(vm[v])
    {
      var ok, leaf := Agreed(vm[views[i]]);
      if !ok {
        return None;
      }
      if leaf.Some? {
        result := result[views[i] := leaf.value];
      }
    }
    assert result == Merged(vm);
    var linked := AllConsecutive(result, Linked);
    return if linked then Some(result) else None;
  }

  // ---- the verdict ----

  function ViewsOf(s: map<nat, OneLeaf>): set<nat>
  {
    set id, v | id in s && v in s[id] :: v
  }

  ghost predicate NodesAgree(s: map<nat, OneLeaf>)
  {
    forall i, j, v | At(s, i, v).Some? && At(s, j, v).Some? :: At(s, i, v) == At(s, j, v)
  }

  /** Across the whole network, each reported leaf's parent is the leaf of the reported view before. */
  ghost predicate ChainLinked(s: map<nat, OneLeaf>)
  {
    forall i, j, a, b | At(s, i, a).Some? && At(s, j, b).Some? && Follows(ViewsOf(s), a, b) ::
      Linked(At(s, i, a).value, At(s, j, b).value)
  }

  ghost predicate Consistent(n: map<nat, NodeMap>)
  {
    && (forall id | id in n :: SelfConsistent(n[id]))
    && HistoriesOk(Sanitized(n))
    && NodesAgree(Sanitized(n))
    && ChainLinked(Sanitized(n))
  }

  lemma AgreementByView(s: map<nat, OneLeaf>, inv: map<nat, OneLeaf>)
    requires Inverse(s, inv)
    ensures NodesAgree(s) <==> ViewsAgree(inv)
  {
    if NodesAgree(s) {
      forall v, i, j | v in inv && i in inv[v] && j in inv[v] ensures inv[v][i] == inv[v][j] {
        assert At(inv, v, i) == At(s, i, v) && At(inv, v, j) == At(s, j, v);
      }
    }
    if ViewsAgree(inv) {
      forall i, j, v | At(s, i, v).Some? && At(s, j, v).Some? ensures At(s, i, v) == At(s, j, v) {
        assert At(inv, v, i) == At(s, i, v) && At(inv, v, j) == At(s, j, v);
      }
    }
  }

  /** The merged map holds exactly the reported leaves. */
  lemma MergeHolds(s: map<nat, OneLeaf>, inv: map<nat, OneLeaf>)
    requires Inverse(s, inv) && ViewsAgree(inv)
    ensures Merged(inv).Keys == ViewsOf(s)
    ensures forall id, v | At(s, id, v).Some? :: v in Merged(inv) && At(s, id, v) == Some(Merged(inv)[v])
    ensures forall v | v in Merged(inv) :: exists id :: At(s, id, v).Some?
  {
    var r := Merged(inv);
    forall id, v | At(s, id, v).Some? ensures v in r && At(s, id, v) == Some(r[v]) {
      assert At(inv, v, id) == At(s, id, v);
      assert id in inv[v];
    }
    forall v | v in r ensures exists id :: At(s, id, v).Some? {
      var id :| id in inv[v];
      assert At(inv, v, id) == At(s, id, v);
    }
    forall v ensures v in r <==> v in ViewsOf(s) {
      if v in r {
        var id :| At(s, id, v).Some?;
      }
      if v in ViewsOf(s) {
        var id :| id in s && v in s[id];
        assert At(s, id, v).Some?;
      }
    }
  }

  lemma LinkedByView(s: map<nat, OneLeaf>, inv: map<nat, OneLeaf>)
    requires Inverse(s, inv) && ViewsAgree(inv)
    ensures ChainLinked(s) <==> Consecutive(Merged(inv), Linked)
  {
    MergeHolds(s, inv);
    var r := Merged(inv);
    if ChainLinked(s) {
      forall a, b | Follows(r.Keys, a, b) ensures Linked(r[a], r[b]) {
        var i :| At(s, i, a).Some?;
        var j :| At(s, j, b).Some?;
      }
    }
  }

  /** The whole check, up to its expectations on upgrades and transaction counts. */
  method Validate(n: map<nat, NodeMap>) returns (ok: bool)
    ensures ok <==> Consistent(n)
  {
    var network := SanitizeNetworkMap(n);
    if network.None? {
      return false;
    }
    var inverted := InvertNetworkMap(network.value);
    if inverted.None? {
      return false;
    }
    AgreementByView(network.value, inverted.value);
    if ViewsAgree(inverted.value) {
      LinkedByView(network.value, inverted.value);
    }
    var merged := SanitizeViewMap(inverted.value);
    return merged.Some?;
  }

  // ---- what the verdict means ----

  lemma {:induction false} PredecessorExists(keys: set<nat>, a: nat, b: nat)
    requires a in keys && b in keys && a < b
    ensures exists p :: Follows(keys, p, b) && a <= p
    decreases b - a
  {
    if c :| c in keys && a < c < b {
      PredecessorExists(keys, c, b);
    } else {
      assert Follows(keys, a, b);
    }
  }

  /** Whatever was reported at a higher view extends whatever was reported at a lower one. */
  lemma {:induction false} LinkedExtends(s: map<nat, OneLeaf>, i: nat, a: nat, j: nat, b: nat)
    requires NodesAgree(s) && ChainLinked(s) && At(s, i, a).Some? && At(s, j, b).Some? && a <= b
    ensures Extends(At(s, j, b).value, At(s, i, a).value)
    decreases b
  {
    if a < b {
      var id, p := LinkedBefore(s, i, a, j, b);
      LinkedExtends(s, i, a, id, p);
    }
  }

  /** The parent of a leaf that is not the lowest was itself reported, at the view before. */
  lemma LinkedBefore(s: map<nat, OneLeaf>, i: nat, a: nat, j: nat, b: nat) returns (id: nat, p: nat)
    requires ChainLinked(s) && At(s, i, a).Some? && At(s, j, b).Some? && a < b
    ensures a <= p < b && At(s, id, p).Some?
    ensures At(s, j, b).value.Block? && At(s, j, b).value.justify.leaf == At(s, id, p).value
  {
    PredecessorExists(ViewsOf(s), a, b);
    p :| Follows(ViewsOf(s), p, b) && a <= p;
    id :| id in s && p in s[id];
    assert At(s, id, p).Some?;
  }

  /** Every leaf a node reported for a view is the one it is reduced to. */
  lemma ReducedTo(n: map<nat, NodeMap>, id: nat, v: nat, l: Leaf)
    requires Consistent(n) && id in n && v in n[id] && l in n[id][v]
    ensures At(Sanitized(n), id, v) == Some(l)
  {
    assert AllEqual(n[id][v]);
  }

  /** What acceptance means, whatever was collected: any two leaves reported anywhere lie on one chain. */
  lemma ConsistentIsOneChain(n: map<nat, NodeMap>, i: nat, a: nat, l: Leaf, j: nat, b: nat, m: Leaf)
    requires Consistent(n)
    requires i in n && a in n[i] && l in n[i][a] && j in n && b in n[j] && m in n[j][b]
    ensures Comparable(l, m)
    ensures a <= b ==> Extends(m, l)
  {
    ReducedTo(n, i, a, l);
    ReducedTo(n, j, b, m);
    if a <= b {
      LinkedExtends(Sanitized(n), i, a, j, b);
    } else {
      LinkedExtends(Sanitized(n), j, b, i, a);
    }
  }

  predicate Reported(n: map<nat, NodeMap>, id: nat, l: Leaf)
  {
    id in n && l.View() in n[id] && l in n[id][l.View()]
  }

  /** Every leaf is recorded under its own view. */
  predicate OwnViews(n: map<nat, NodeMap>)
  {
    forall id | id in n :: forall v | v in n[id] :: forall l | l in n[id][v] :: l.View() == v
  }

  /** Leaves of higher views extend those of lower ones. */
  ghost predicate OnOneChain(n: map<nat, NodeMap>)
  {
    forall i, j, l, m | Reported(n, i, l) && Reported(n, j, m) && l.View() <= m.View() :: Extends(m, l)
  }

  /** Only the lowest may be without a reported parent. */
  ghost predicate WithoutGap(n: map<nat, NodeMap>)
  {
    forall i, j, l, m | Reported(n, i, l) && Reported(n, j, m) && l.View() < m.View() ::
      m.Block? && exists k :: Reported(n, k, m.justify.leaf)
  }

  /** Each node's leaves are justified at or above all lower ones of that node, and at the same view only
      by that very leaf. */
  ghost predicate JustifiedInOrder(n: map<nat, NodeMap>)
  {
    forall i, l, m | Reported(n, i, l) && Reported(n, i, m) && l.View() < m.View() ::
      m.Block? && m.justify.view >= l.View() && (m.justify.view == l.View() ==> m.justify.leaf == l)
  }

  lemma ConsistentJustifies(n: map<nat, NodeMap>, i: nat, l: Leaf, m: Leaf)
    requires OwnViews(n) && Consistent(n) && Reported(n, i, l) && Reported(n, i, m) && l.View() < m.View()
    ensures m.Block? && m.justify.view >= l.View() && (m.justify.view == l.View() ==> m.justify.leaf == l)
  {
    var first := FirstLeaves(n[i]);
    ReducedTo(n, i, l.View(), l);
    ReducedTo(n, i, m.View(), m);
    PredecessorExists(first.Keys, l.View(), m.View());
    var p :| Follows(first.Keys, p, m.View()) && l.View() <= p;
    assert Consecutive(Sanitized(n)[i], HistoryOk);
    assert HistoryOk(first[p], first[m.View()]);
    assert n[i][p][0] in n[i][p];
  }

  lemma ConsistentHasNoGap(n: map<nat, NodeMap>, i: nat, j: nat, l: Leaf, m: Leaf)
    requires OwnViews(n) && Consistent(n) && Reported(n, i, l) && Reported(n, j, m) && l.View() < m.View()
    ensures m.Block? && exists k :: Reported(n, k, m.justify.leaf)
  {
    ReducedTo(n, i, l.View(), l);
    ReducedTo(n, j, m.View(), m);
    var k, p := LinkedBefore(Sanitized(n), i, l.View(), j, m.View());
    assert n[k][p][0] in n[k][p];
    assert Reported(n, k, m.justify.leaf);
  }

  lemma SanitizedReported(n: map<nat, NodeMap>, id: nat, v: nat)
    requires OwnViews(n) && At(Sanitized(n), id, v).Some?
    ensures Reported(n, id, At(Sanitized(n), id, v).value) && At(Sanitized(n), id, v).value.View() == v
  {
    assert n[id][v][0] in n[id][v];
  }

  /** On one chain, a leaf is told by its view. */
  lemma SameViewSameLeaf(n: map<nat, NodeMap>, i: nat, j: nat, l: Leaf, m: Leaf)
    requires OnOneChain(n) && Reported(n, i, l) && Reported(n, j, m) && l.View() == m.View()
    ensures l == m
  {
    assert Extends(l, m) && Extends(m, l);
    ExtendsBothWays(l, m);
  }

  lemma OneChainAgrees(n: map<nat, NodeMap>)
    requires OwnViews(n) && OnOneChain(n)
    ensures forall id | id in n :: SelfConsistent(n[id])
    ensures NodesAgree(Sanitized(n))
  {
    forall id, v, x | id in n && v in n[id] && 0 <= x < |n[id][v]| ensures n[id][v][x] == n[id][v][0] {
      assert n[id][v][x] in n[id][v] && n[id][v][0] in n[id][v];
      SameViewSameLeaf(n, id, id, n[id][v][x], n[id][v][0]);
    }
    var s := Sanitized(n);
    forall i, j, v | At(s, i, v).Some? && At(s, j, v).Some? ensures At(s, i, v) == At(s, j, v) {
      SanitizedReported(n, i, v);
      SanitizedReported(n, j, v);
      SameViewSameLeaf(n, i, j, At(s, i, v).value, At(s, j, v).value);
    }
  }

  /** The parent of `m` is the leaf reported at the view before. */
  lemma ParentIsBefore(n: map<nat, NodeMap>, i: nat, j: nat, k: nat, l: Leaf, m: Leaf)
    requires OwnViews(n) && OnOneChain(n) && Reported(n, i, l) && Reported(n, j, m) && m.Block?
    requires Reported(n, k, m.justify.leaf) && l.View() < m.View()
    requires forall x, id | Reported(n, id, x) :: x.View() <= l.View() || m.View() <= x.View()
    ensures m.justify.leaf == l
  {
    var p := m.justify.leaf;
    assert Extends(p, p) && Extends(m, p) && Depth(m) == Depth(p) + 1;
    if p.View() >= m.View() {
      ExtendsDeeper(p, m);
    }
    assert Extends(m, l) && Extends(p, l) && Extends(l, p);
    ExtendsBothWays(p, l);
  }

  lemma NothingBetween(n: map<nat, NodeMap>, a: nat, b: nat, id: nat, x: Leaf)
    requires Follows(ViewsOf(Sanitized(n)), a, b) && Reported(n, id, x)
    ensures x.View() <= a || b <= x.View()
  {
    assert x.View() in FirstLeaves(n[id]);
    assert id in Sanitized(n) && x.View() in Sanitized(n)[id];
    assert x.View() in ViewsOf(Sanitized(n));
  }

  lemma NextIsLinked(n: map<nat, NodeMap>, i: nat, j: nat, a: nat, b: nat)
    requires OwnViews(n) && OnOneChain(n) && WithoutGap(n)
    requires At(Sanitized(n), i, a).Some? && At(Sanitized(n), j, b).Some? && Follows(ViewsOf(Sanitized(n)), a, b)
    ensures Linked(At(Sanitized(n), i, a).value, At(Sanitized(n), j, b).value)
  {
    SanitizedReported(n, i, a);
    SanitizedReported(n, j, b);
    var l, m := At(Sanitized(n), i, a).value, At(Sanitized(n), j, b).value;
    assert m.Block?;
    var k :| Reported(n, k, m.justify.leaf);
    forall x, id | Reported(n, id, x) ensures x.View() <= a || b <= x.View() {
      NothingBetween(n, a, b, id, x);
    }
    ParentIsBefore(n, i, j, k, l, m);
  }

  lemma OneChainLinks(n: map<nat, NodeMap>)
    requires OwnViews(n) && OnOneChain(n) && WithoutGap(n)
    ensures ChainLinked(Sanitized(n))
  {
    var s := Sanitized(n);
    forall i: nat, j: nat, a: nat, b: nat | At(s, i, a).Some? && At(s, j, b).Some? && Follows(ViewsOf(s), a, b)
      ensures Linked(At(s, i, a).value, At(s, j, b).value)
    {
      NextIsLinked(n, i, j, a, b);
    }
  }

  lemma OrderedHistories(n: map<nat, NodeMap>)
    requires OwnViews(n) && JustifiedInOrder(n)
    ensures HistoriesOk(Sanitized(n))
  {
    forall id, a, b | id in n && Follows(Sanitized(n)[id].Keys, a, b)
      ensures HistoryOk(Sanitized(n)[id][a], Sanitized(n)[id][b])
    {
      SanitizedReported(n, id, a);
      SanitizedReported(n, id, b);
    }
  }

  /** The verdict, exactly: leaves recorded under their own views are accepted if and only if they lie on
      one chain, without a gap, each node's justified in order. */
  lemma ConsistentIffOneChain(n: map<nat, NodeMap>)
    requires OwnViews(n)
    ensures Consistent(n) <==> OnOneChain(n) && WithoutGap(n) && JustifiedInOrder(n)
  {
    if Consistent(n) {
      forall i, j, l, m | Reported(n, i, l) && Reported(n, j, m) && l.View() <= m.View() ensures Extends(m, l) {
        ConsistentIsOneChain(n, i, l.View(), l, j, m.View(), m);
      }
      forall i, j, l, m | Reported(n, i, l) && Reported(n, j, m) && l.View() < m.View()
        ensures m.Block? && exists k :: Reported(n, k, m.justify.leaf)
      {
        ConsistentHasNoGap(n, i, j, l, m);
      }
      forall i, l, m | Reported(n, i, l) && Reported(n, i, m) && l.View() < m.View()
        ensures m.Block? && m.justify.view >= l.View() && (m.justify.view == l.View() ==> m.justify.leaf == l)
      {
        ConsistentJustifies(n, i, l, m);
      }
    }
    if OnOneChain(n) && WithoutGap(n) && JustifiedInOrder(n) {
      OneChainAgrees(n);
      OrderedHistories(n);
      OneChainLinks(n);
    }
  }

  // ---- collecting decide events ----

  /** `m` holds the leaves of `log`, each under its view, and nothing else. */
  ghost predicate Records(m: NodeMap, log: seq<Leaf>)
  {
    && (forall v | v in m :: |m[v]| > 0)
    && (forall v, l | v in m && l in m[v] :: l in log && l.View() == v)
    && (forall l | l in log :: l.View() in m && l in m[l.View()])
  }

  function RowOf(n: map<nat, NodeMap>, id: nat): NodeMap
  {
    if id in n then n[id] else map[]
  }

  /** `entry(view).and_modify(push).or_insert(vec![leaf])` */
  function Push(m: NodeMap, l: Leaf): NodeMap
  {
    m[l.View() := (if l.View() in m then m[l.View()] else []) + [l]]
  }

  function PushAll(m: NodeMap, chain: seq<Leaf>): NodeMap
  {
    if |chain| == 0 then m else Push(PushAll(m, chain[..|chain| - 1]), chain[|chain| - 1])
  }

  /** Collecting an event adds exactly its leaves to what the node has delivered. */
  lemma {:induction false} EventRecorded(m: NodeMap, chain: seq<Leaf>, log: seq<Leaf>)
    requires Records(m, log)
    ensures Records(PushAll(m, chain), log + Reverse(chain))
  {
    forall l ensures l in log + Reverse(chain) <==> l in log + chain {
      ReverseMembers(chain, l);
    }
    PushAllRecords(m, chain, log);
  }

  lemma {:induction false} PushAllRecords(m: NodeMap, chain: seq<Leaf>, log: seq<Leaf>)
    requires Records(m, log)
    ensures Records(PushAll(m, chain), log + chain)
  {
    if |chain| == 0 {
      assert log + chain == log;
    } else {
      var most, last := chain[..|chain| - 1], chain[|chain| - 1];
      PushAllRecords(m, most, log);
      assert log + chain == log + most + [last];
      PushRecords(PushAll(m, most), last, log + most);
    }
  }

  lemma PushRecords(m: NodeMap, l: Leaf, log: seq<Leaf>)
    requires Records(m, log)
    ensures Records(Push(m, l), log + [l])
  {}

  class ConsistencyTask {
    var consensusLeaves: map<nat, NodeMap>

    constructor ()
      ensures consensusLeaves == map[]
    {
      consensusLeaves := map[];
    }

    /** A decide event of node `id`; other nodes' records stay as they are. */
    method HandleDecide(id: nat, chain: seq<Leaf>)
      modifies this
      ensures consensusLeaves == old(consensusLeaves)[id := PushAll(RowOf(old(consensusLeaves), id), chain)]
    {
      var m := RowOf(consensusLeaves, id);
      for i := 0 to |chain|
        invariant m == PushAll(RowOf(consensusLeaves, id), chain[..i])
      {
        assert chain[..i + 1][..i] == chain[..i];
        m := Push(m, chain[i]);
      }
      assert chain[..|chain|] == chain;
      consensusLeaves := consensusLeaves[id := m];
    }

    method Check() returns (ok: bool)
      ensures ok <==> Consistent(consensusLeaves)
    {
      ok := Validate(consensusLeaves);
    }
  }
}
