/** Runs of the three-chain rule that miss one guard and end in disagreement. */
module ThreeChainForks {
  import opened Committees
  import opened Leaves
  import opened Decide
  import opened Replicas
  import opened Protocol
  import opened Agreement
  import opened ForkRuns

  // ---- rounds ----

  lemma {:induction false} ReachesSaved(s: Store, p: Leaf, l: Leaf, v: nat)
    requires Reaches(s, l, v)
    ensures Reaches(Save(s, p), l, v)
  {
    if l.View() != v {
      ReachesSaved(s, p, l.justify.leaf, v);
    }
  }

  /** From an entry whose ancestors are stored, the walk to genesis sees all of them. */
  lemma LineWalk(s: Store, l: Leaf)
    requires Held(s, l) && Reaches(s, l, 0) && Falls(l)
    ensures VisitedFrom(s, l.View(), 0) == FullAbove(l, 0)
  {
    ExtendsGenesis(l);
    VisitedComplete(s, l, Genesis);
  }

  /** What the three-chain rule makes of ancestors `a` short of a decide. */
  predicate ReachesLock(view: nat, a: seq<Leaf>, locked: nat, lock: nat)
  {
    && !ChainOf(view, a, 3)
    && if ChainOf(view, a, 2) then lock == a[1].View() > locked else lock == locked
  }

  lemma ThreeChainLocks(r: Replica, p: Leaf, lock: nat)
    requires p.Block? && ReachesLock(p.view, VisitedFrom(r.seen, p.justify.view, r.anchor.View()), r.locked, lock)
    ensures TakeUp(ThreeChainRule, r, p, false) == Taken(r, p, lock)
  {}

  lemma ThreeChainDelivers(r: Replica, p: Leaf)
    requires p.Block?
    requires var a := VisitedFrom(r.seen, p.justify.view, r.anchor.View());
             ChainOf(p.view, a, 3) && a[1].View() > r.locked && a[2].View() > r.anchor.View()
    ensures VisitedFrom(r.seen, p.justify.view, r.anchor.View())[2] in TakeUp(ThreeChainRule, r, p, false).log
  {
    var a := VisitedFrom(r.seen, p.justify.view, r.anchor.View());
    var out := ThreeChain(p.view, a);
    assert out.leafViews[0] == a[2];
    ReverseMembers(out.leafViews, a[2]);
    assert TakeUp(ThreeChainRule, r, p, false).log == r.log + Reverse(out.leafViews);
  }

  /** A node whose entry `l` has all its ancestors stored. */
  predicate OnLine(r: Replica, l: Leaf)
  {
    Idle(r) && Held(r.store, l) && Reaches(r.store, l, 0) && Falls(l) && r.anchor == Genesis
  }

  lemma {:induction false} ReachesMarked(s: Store, p: Leaf, l: Leaf, v: nat)
    requires Reaches(s, l, v)
    ensures Reaches(Mark(s, p), l, v)
  {
    if l.View() != v {
      ReachesMarked(s, p, l.justify.leaf, v);
    }
  }

  lemma StillReaches(r: Replica, p: Leaf, lock: nat, l: Leaf)
    requires Reaches(r.store, l, 0)
    ensures Reaches(Voted(r, p, lock).store, l, 0)
  {
    ReachesSaved(r.store, p, l, 0);
    ReachesMarked(Save(r.store, p), p, l, 0);
  }

  /** A three-chain round of a group on a child of `parent`, meeting every guard. */
  lemma LineRound(c: Committee, dropped: set<Guard>, run: seq<Network>, steps: seq<Step>, n: Network,
                  group: set<Node>, r: Replica, p: Leaf, parent: Leaf, signers: set<Node>, lock: nat)
    returns (run': seq<Network>, steps': seq<Step>, r': Replica)
    requires InState(c, n, group, r) && Follows(p, p.View(), parent, signers) && Checks(c, n.votes, p.justify)
    requires p.view > r.voted && p.view > parent.View() && OnLine(r, parent) && NamesGenesis(p.justify)
    requires parent.View() > r.locked || (parent == Genesis && r.locked == 0)
    requires ReachesLock(p.view, FullAbove(parent, 0), r.locked, lock)
    requires RunTo(c, ThreeChainRule, dropped, run, steps, n)
    ensures RunTo(c, ThreeChainRule, dropped, run', steps', PutVotes(n, group, r', VoteCast(0, p)))
    ensures OnLine(r', p) && HasVoted(r, p, r', lock)
    ensures forall l | Reaches(r.store, l, 0) :: Reaches(r'.store, l, 0)
  {
    HeldWalkFalls(r, p, parent);
    PlainSave(r.store, p);
    ReachesSaved(r.store, p, parent, 0);
    IdleInOrder(ThreeChainRule, r, p);
    LineWalk(Save(r.store, p), parent);
    ThreeChainLocks(Prepared(r, p), p, lock);
    run', steps' := Round(c, ThreeChainRule, dropped, run, steps, n, group, r, p, false, lock);
    r' := Voted(r, p, lock);
    forall l | Reaches(r.store, l, 0) ensures Reaches(r'.store, l, 0) {
      StillReaches(r, p, lock, l);
    }
    assert Reaches(r'.store, p, 0);
  }

  /** The third consecutive ancestor of `p` is delivered when a group takes `p` up. */
  lemma LineDecides(c: Committee, dropped: set<Guard>, run: seq<Network>, steps: seq<Step>, n: Network,
                    group: set<Node>, r: Replica, p: Leaf, parent: Leaf, signers: set<Node>)
    returns (run': seq<Network>, steps': seq<Step>, r': Replica)
    requires InState(c, n, group, r) && Follows(p, p.View(), parent, signers) && Checks(c, n.votes, p.justify)
    requires p.view > r.voted && p.view > parent.View() > r.locked && OnLine(r, parent)
    requires var a := FullAbove(parent, 0); ChainOf(p.view, a, 3) && a[1].View() > r.locked && a[2].View() > 0
    requires RunTo(c, ThreeChainRule, dropped, run, steps, n)
    ensures RunTo(c, ThreeChainRule, dropped, run', steps', Put(n, group, r')) && FullAbove(parent, 0)[2] in r'.log
  {
    HeldWalkFalls(r, p, parent);
    PlainSave(r.store, p);
    ReachesSaved(r.store, p, parent, 0);
    IdleInOrder(ThreeChainRule, r, p);
    run', steps' := Prepare(c, ThreeChainRule, dropped, run, steps, n, group, r, p);
    var q := Prepared(r, p);
    LineWalk(q.seen, parent);
    ThreeChainDelivers(q, p);
    r' := TakeUp(ThreeChainRule, q, p, false);
    run', steps' := Each(c, ThreeChainRule, dropped, run', steps', Put(n, group, q), group, q, ProposalHandled(0, p, false));
    PutAgain(n, group, q, r');
  }

  /** The leader of view 3 signs two leaves, `a3` over `a2` over `a1`, and `b`; the rest builds on `b`. */
  datatype Equivocation = Equivocation(a1: Leaf, a2: Leaf, a3: Leaf, b: Leaf, p: Leaf, q: Leaf, z: Leaf)

  predicate IsEquivocation(e: Equivocation, signers: set<Node>)
  {
    && Follows(e.a1, 1, Genesis, signers) && Follows(e.a2, 2, e.a1, signers) && Follows(e.a3, 3, e.a2, signers)
    && Follows(e.b, 3, Genesis, signers) && Follows(e.p, 4, e.b, signers) && Follows(e.q, 5, e.p, signers)
    && Follows(e.z, 6, e.q, signers)
  }

  function EquivocationOf(signers: set<Node>): (e: Equivocation)
    ensures IsEquivocation(e, signers)
  {
    var a1 := Child(1, Genesis, signers);
    var a2 := Child(2, a1, signers);
    var b := Child(3, Genesis, signers);
    var p := Child(4, b, signers);
    var q := Child(5, p, signers);
    Equivocation(a1, a2, Child(3, a2, signers), b, p, q, Child(6, q, signers))
  }

  lemma EquivocationChains(e: Equivocation, signers: set<Node>)
    requires IsEquivocation(e, signers)
    ensures FullAbove(Genesis, 0) == [] && FullAbove(e.a1, 0) == [e.a1] && FullAbove(e.b, 0) == [e.b]
    ensures FullAbove(e.a3, 0) == [e.a3, e.a2, e.a1]
    ensures FullAbove(e.p, 0) == [e.p, e.b] && FullAbove(e.q, 0) == [e.q, e.p, e.b]
    ensures !Comparable(e.a1, e.b) && Falls(e.a3)
  {
    assert FullAbove(e.a2, 0) == [e.a2] + FullAbove(e.a1, 0);
    assert !Extends(Genesis, e.a1) && !Extends(Genesis, e.b);
    assert Falls(e.a1);
    assert Falls(e.a2);
  }

  /** A round of all voters beside an observer. */
  lemma VoterLineRound(c: Committee, dropped: set<Guard>, run: seq<Network>, steps: seq<Step>, signers: set<Node>,
                       voters: set<Node>, h: Node, r: Replica, o: Replica, votes: set<CastVote>, p: Leaf, parent: Leaf, lock: nat)
    returns (run': seq<Network>, steps': seq<Step>, r': Replica, votes': set<CastVote>)
    requires IsParty(c, signers, voters, h) && Follows(p, p.View(), parent, signers)
    requires parent == Genesis || (parent.View() > 0 && Ballots(voters, parent) <= votes)
    requires p.view > r.voted && p.view > parent.View() && OnLine(r, parent)
    requires parent.View() > r.locked || (parent == Genesis && r.locked == 0)
    requires ReachesLock(p.view, FullAbove(parent, 0), r.locked, lock)
    requires RunTo(c, ThreeChainRule, dropped, run, steps, Net(voters, h, r, o, votes))
    ensures RunTo(c, ThreeChainRule, dropped, run', steps', Net(voters, h, r', o, votes'))
    ensures OnLine(r', p) && HasVoted(r, p, r', lock) && votes' == votes + Ballots(voters, p)
    ensures forall l | Reaches(r.store, l, 0) :: Reaches(r'.store, l, 0)
  {
    if parent != Genesis {
      BallotsCertify(c, signers, voters, votes, parent);
    }
    run', steps', r' := LineRound(c, dropped, run, steps, Net(voters, h, r, o, votes), voters, r, p, parent, signers, lock);
    votes' := votes + Ballots(voters, p);
    NetPut(voters, h, r, o, votes, r');
  }

  /** The voters go along `a1` and `a2`, then along `b`. */
  lemma VoteAlongB(c: Committee, dropped: set<Guard>, signers: set<Node>, voters: set<Node>, h: Node, e: Equivocation)
    returns (run: seq<Network>, steps: seq<Step>, r: Replica, votes: set<CastVote>)
    requires IsParty(c, signers, voters, h) && IsEquivocation(e, signers)
    ensures RunTo(c, ThreeChainRule, dropped, run, steps, Net(voters, h, r, GENESIS_REPLICA, votes))
    ensures OnLine(r, e.b) && r.locked == 0 && r.voted == 3
    ensures Ballots(voters, e.a1) <= votes && Ballots(voters, e.a2) <= votes && Ballots(voters, e.b) <= votes
  {
    EquivocationChains(e, signers);
    var g := GENESIS_REPLICA;
    run, steps, votes := [Net(voters, h, g, g, {})], [], {};
    assert OnLine(g, Genesis);
    run, steps, r, votes := VoterLineRound(c, dropped, run, steps, signers, voters, h, g, g, votes, e.a1, Genesis, 0);
    assert Held(r.store, Genesis) && Reaches(r.store, Genesis, 0);
    run, steps, r, votes := VoterLineRound(c, dropped, run, steps, signers, voters, h, r, g, votes, e.a2, e.a1, 0);
    assert Held(r.store, Genesis) && Reaches(r.store, Genesis, 0);
    run, steps, r, votes := VoterLineRound(c, dropped, run, steps, signers, voters, h, r, g, votes, e.b, Genesis, 0);
  }

  /** They certify `p` and `q`. */
  lemma CertifyQ(c: Committee, dropped: set<Guard>, signers: set<Node>, voters: set<Node>, h: Node, e: Equivocation)
    returns (run: seq<Network>, steps: seq<Step>, r: Replica, votes: set<CastVote>)
    requires IsParty(c, signers, voters, h) && IsEquivocation(e, signers)
    ensures RunTo(c, ThreeChainRule, dropped, run, steps, Net(voters, h, r, GENESIS_REPLICA, votes))
    ensures Ballots(voters, e.a1) <= votes && Ballots(voters, e.a2) <= votes && Ballots(voters, e.b) <= votes
    ensures Ballots(voters, e.q) <= votes && OnLine(r, e.q) && r.locked == 3 && r.voted == 5
  {
    EquivocationChains(e, signers);
    var g := GENESIS_REPLICA;
    run, steps, r, votes := VoteAlongB(c, dropped, signers, voters, h, e);
    run, steps, r, votes := VoterLineRound(c, dropped, run, steps, signers, voters, h, r, g, votes, e.p, e.b, 0);
    run, steps, r, votes := VoterLineRound(c, dropped, run, steps, signers, voters, h, r, g, votes, e.q, e.p, 3);
  }

  /** They deliver `b`. */
  lemma DeliverB(c: Committee, dropped: set<Guard>, signers: set<Node>, voters: set<Node>, h: Node, e: Equivocation)
    returns (run: seq<Network>, steps: seq<Step>, r: Replica, votes: set<CastVote>)
    requires IsParty(c, signers, voters, h) && IsEquivocation(e, signers)
    ensures RunTo(c, ThreeChainRule, dropped, run, steps, Net(voters, h, r, GENESIS_REPLICA, votes))
    ensures Ballots(voters, e.a1) <= votes && Ballots(voters, e.a2) <= votes && Ballots(voters, e.b) <= votes
    ensures e.b in r.log
  {
    var g, last := GENESIS_REPLICA, GENESIS_REPLICA;
    run, steps, last, votes := CertifyQ(c, dropped, signers, voters, h, e);
    EquivocationChains(e, signers);
    BallotsCertify(c, signers, voters, votes, e.q);
    run, steps, r := LineDecides(c, dropped, run, steps, Net(voters, h, last, g, votes), voters, last, e.z, e.q, signers);
    NetPut(voters, h, last, g, votes, r);
  }

  /** The observer has fetched `a1`, `a2`, `b` and, last, `a3`: its entry at view 3 is `a3`. */
  function Misled(e: Equivocation): Replica
  {
    var o := Fetched(e.a1, e.a2);
    o.(store := Save(Save(o.store, e.b), e.a3))
  }

  lemma FetchAll(c: Committee, dropped: set<Guard>, run: seq<Network>, steps: seq<Step>, signers: set<Node>,
                 voters: set<Node>, h: Node, r: Replica, votes: set<CastVote>, e: Equivocation)
    returns (run': seq<Network>, steps': seq<Step>)
    requires IsParty(c, signers, voters, h) && IsEquivocation(e, signers)
    requires Ballots(voters, e.a1) <= votes && Ballots(voters, e.a2) <= votes
    requires RunTo(c, ThreeChainRule, dropped, run, steps, Net(voters, h, r, GENESIS_REPLICA, votes))
    ensures RunTo(c, ThreeChainRule, dropped, run', steps', Net(voters, h, r, Misled(e), votes))
    ensures Idle(Misled(e))
  {
    BallotsCertify(c, signers, voters, votes, e.a1);
    BallotsCertify(c, signers, voters, votes, e.a2);
    run', steps' := Fetch(c, ThreeChainRule, dropped, run, steps, voters, h, r, votes, e.a1, e.a2);
    var o := Fetched(e.a1, e.a2);
    run', steps' := FetchOne(c, dropped, run', steps', voters, h, r, o, votes, e.b);
    o := o.(store := Save(o.store, e.b));
    run', steps' := FetchOne(c, dropped, run', steps', voters, h, r, o, votes, e.a3);
  }

  lemma FetchOne(c: Committee, dropped: set<Guard>, run: seq<Network>, steps: seq<Step>,
                 voters: set<Node>, h: Node, r: Replica, o: Replica, votes: set<CastVote>, l: Leaf)
    returns (run': seq<Network>, steps': seq<Step>)
    requires h !in voters && c.Honest(h) && l.Block? && l.view > 0 && Checks(c, votes, l.justify)
    requires Idle(o) && Free(o.store, l.view)
    requires RunTo(c, ThreeChainRule, dropped, run, steps, Net(voters, h, r, o, votes))
    ensures RunTo(c, ThreeChainRule, dropped, run', steps', Net(voters, h, r, o.(store := Save(o.store, l)), votes))
    ensures Idle(o.(store := Save(o.store, l)))
  {
    PlainSave(o.store, l);
    run', steps' := Watch(c, ThreeChainRule, dropped, run, steps, voters, h, r, o, votes, LeafSaved(h, l, false));
  }

  lemma MisledStore(e: Equivocation, signers: set<Node>)
    requires IsEquivocation(e, signers)
    ensures var s := Misled(e).store;
            Held(s, e.a3) && Reaches(s, e.a3, 0) && Stored(s, e.b) && Reaches(s, e.b, 0)
  {
    var s := Misled(e).store;
    assert Reaches(s, Genesis, 0);
    assert Reaches(s, e.a1, 0);
    assert Reaches(s, e.a2, 0);
  }

  /** An equivocating leader: the observer's walk starts from the leaf that was saved last instead of the
      certified one, and delivers an ancestor of the wrong leaf. */
  lemma EquivocationForks(c: Committee, signers: set<Node>, voters: set<Node>, h: Node, e: Equivocation)
    returns (run: seq<Network>, steps: seq<Step>)
    requires IsParty(c, signers, voters, h) && IsEquivocation(e, signers)
    ensures IsRunBut(c, ThreeChainRule, {EntryCertified}, run, steps) && ArePrompt(run, steps) && Disagrees(c, run[|steps|])
  {
    var dropped := {EntryCertified};
    EquivocationChains(e, signers);
    var r, votes;
    run, steps, r, votes := DeliverB(c, dropped, signers, voters, h, e);
    run, steps := FetchAll(c, dropped, run, steps, signers, voters, h, r, votes, e);
    MisledStore(e, signers);
    var o;
    run, steps, o := Mistake(c, dropped, run, steps, signers, voters, h, r, votes, e);
    var v := SuccessQuorumHasHonest(c, signers);
    var n := Net(voters, h, r, o, votes);
    assert n.replicas[v] == r && n.replicas[h] == o;
  }

  /** The observer takes `p` up as its walk goes: along `a3`. */
  lemma MisledWalk(e: Equivocation, signers: set<Node>)
    requires IsEquivocation(e, signers) && Idle(Misled(e))
    ensures var m, q := Misled(e), Prepared(Misled(e), e.p);
            && SafeOrLive(Save(m.store, e.p), e.p, m.locked) && WalkFalls(Saved(m, e.p), e.p) && Stored(m.store, e.b)
            && Reaches(q.seen, e.b, 0) && e.a1 in TakeUp(ThreeChainRule, q, e.p, false).log
  {
    EquivocationChains(e, signers);
    MisledStore(e, signers);
    var m := Misled(e);
    HeldWalkFalls(m, e.p, e.a3);
    ReachesSaved(m.store, e.p, e.a3, 0);
    ReachesSaved(m.store, e.p, e.b, 0);
    var q := Prepared(m, e.p);
    LineWalk(q.seen, e.a3);
    ThreeChainDelivers(q, e.p);
  }

  lemma Mistake(c: Committee, dropped: set<Guard>, run: seq<Network>, steps: seq<Step>, signers: set<Node>,
                voters: set<Node>, h: Node, r: Replica, votes: set<CastVote>, e: Equivocation)
    returns (run': seq<Network>, steps': seq<Step>, o: Replica)
    requires IsParty(c, signers, voters, h) && IsEquivocation(e, signers) && EntryCertified in dropped
    requires Idle(Misled(e)) && Ballots(voters, e.b) <= votes
    requires RunTo(c, ThreeChainRule, dropped, run, steps, Net(voters, h, r, Misled(e), votes))
    ensures RunTo(c, ThreeChainRule, dropped, run', steps', Net(voters, h, r, o, votes)) && e.a1 in o.log
  {
    var m, q, n := Misled(e), Prepared(Misled(e), e.p), Net(voters, h, r, Misled(e), votes);
    MisledWalk(e, signers);
    IdleInOrder(ThreeChainRule, m, e.p);
    BallotsCertify(c, signers, voters, votes, e.b);
    run', steps' := Prepare(c, ThreeChainRule, dropped, run, steps, n, {h}, m, e.p);
    o := TakeUp(ThreeChainRule, q, e.p, false);
    run', steps' := Each(c, ThreeChainRule, dropped, run', steps', Put(n, {h}, q), {h}, q, ProposalHandled(0, e.p, false));
    PutAgain(n, {h}, q, o);
    NetPut(voters, h, r, m, votes, o);
  }

  // ---- a store that is not closed ----

  /** `a1`, `a2`, `a3`, `p` in a row, and `w`, `x`, `y`, `z` in a row beside them. */
  datatype Rows = Rows(a1: Leaf, a2: Leaf, a3: Leaf, p: Leaf, w: Leaf, x: Leaf, y: Leaf, z: Leaf)

  predicate AreRows(e: Rows, t: Trio)
  {
    && Follows(e.a1, 1, Genesis, t.first) && Follows(e.a2, 2, e.a1, t.first) && Follows(e.a3, 3, e.a2, t.first)
    && Follows(e.p, 4, e.a3, t.second)
    && Follows(e.w, 5, Genesis, t.third) && Follows(e.x, 6, e.w, t.third) && Follows(e.y, 7, e.x, t.third)
    && Follows(e.z, 8, e.y, t.third)
  }

  function RowsOf(t: Trio): (e: Rows)
    ensures AreRows(e, t)
  {
    var a1 := Child(1, Genesis, t.first);
    var a2 := Child(2, a1, t.first);
    var a3 := Child(3, a2, t.first);
    var w := Child(5, Genesis, t.third);
    var x := Child(6, w, t.third);
    var y := Child(7, x, t.third);
    Rows(a1, a2, a3, Child(4, a3, t.second), w, x, y, Child(8, y, t.third))
  }

  lemma RowChains(e: Rows, t: Trio)
    requires AreRows(e, t)
    ensures FullAbove(Genesis, 0) == [] && FullAbove(e.a1, 0) == [e.a1] && FullAbove(e.a2, 0) == [e.a2, e.a1]
    ensures FullAbove(e.a3, 0) == [e.a3, e.a2, e.a1]
    ensures FullAbove(e.w, 0) == [e.w] && FullAbove(e.x, 0) == [e.x, e.w] && FullAbove(e.y, 0) == [e.y, e.x, e.w]
    ensures !Comparable(e.a1, e.w) && Falls(e.a2)
  {
    assert !Extends(Genesis, e.a1) && !Extends(Genesis, e.w);
    assert Falls(e.a1);
  }

  /** `low` and `both` vote for `a1` and `a2`. */
  lemma RowStart(c: Committee, dropped: set<Guard>, t: Trio, e: Rows)
    returns (run: seq<Network>, steps: seq<Step>, r: Replica, votes: set<CastVote>)
    requires IsTrio(c, t) && AreRows(e, t)
    ensures RunTo(c, ThreeChainRule, dropped, run, steps, Net3(t, r, r, GENESIS_REPLICA, votes))
    ensures OnLine(r, e.a2) && OnLine(r, Genesis) && r.voted == 2 && r.locked == 0
    ensures Ballots(t.low + t.both, e.a1) <= votes && Ballots(t.low + t.both, e.a2) <= votes
  {
    RowChains(e, t);
    var g, group := GENESIS_REPLICA, t.low + t.both;
    var n := Net3(t, g, g, g, {});
    run, steps := [n], [];
    assert OnLine(g, Genesis);
    run, steps, r := LineRound(c, dropped, run, steps, n, group, g, e.a1, Genesis, t.first, 0);
    Net3Put(t, g, g, g, {}, r);
    votes := {} + Ballots(group, e.a1);
    BallotsCertify(c, t.first, group, votes, e.a1);
    assert Held(r.store, Genesis) && Reaches(r.store, Genesis, 0);
    var r2;
    run, steps, r2 := LineRound(c, dropped, run, steps, Net3(t, r, r, g, votes), group, r, e.a2, e.a1, t.first, 0);
    Net3Put(t, r, r, g, votes, r2);
    r, votes := r2, votes + Ballots(group, e.a2);
    assert Held(r.store, Genesis) && Reaches(r.store, Genesis, 0);
  }

  /** `both` votes for `a3`, locking `a1`. */
  lemma BothVotes(c: Committee, dropped: set<Guard>, run: seq<Network>, steps: seq<Step>, t: Trio, e: Rows,
                  r: Replica, cut: Replica, votes: set<CastVote>)
    returns (run': seq<Network>, steps': seq<Step>, both: Replica, votes': set<CastVote>)
    requires IsTrio(c, t) && AreRows(e, t) && OnLine(r, e.a2) && r.voted == 2 && r.locked == 0
    requires Ballots(t.low + t.both, e.a2) <= votes
    requires RunTo(c, ThreeChainRule, dropped, run, steps, Net3(t, r, r, cut, votes))
    ensures RunTo(c, ThreeChainRule, dropped, run', steps', Net3(t, r, both, cut, votes'))
    ensures OnLine(both, e.a3) && both.voted == 3 && both.locked == 1 && votes' == votes + Ballots(t.both, e.a3)
  {
    RowChains(e, t);
    BallotsCertify(c, t.first, t.low + t.both, votes, e.a2);
    run', steps', both := LineRound(c, dropped, run, steps, Net3(t, r, r, cut, votes), t.both, r, e.a3, e.a2, t.first, 1);
    Net3Put(t, r, r, cut, votes, both);
    votes' := votes + Ballots(t.both, e.a3);
  }

  /** A node that has fetched `a2` but not `a1` takes `a3` up, its entry certified and its walk cut short:
      the lock stays where it was, below what `a3` asks for. */
  lemma CutWalkKeepsLock(r: Replica, e: Rows, t: Trio)
    requires AreRows(e, t) && r == GENESIS_REPLICA.(store := Save(GENESIS_STORE, e.a2))
    ensures Idle(r) && Held(r.store, e.a2) && SafeOrLive(Save(r.store, e.a3), e.a3, r.locked)
    ensures TakeUp(ThreeChainRule, Prepared(r, e.a3), e.a3, false) == Taken(Prepared(r, e.a3), e.a3, 0)
    ensures EntryIsCertified(Prepared(r, e.a3).seen, e.a3.justify) && 0 < LockOf(ThreeChainRule, e.a3)
  {
    assert Plain(GENESIS_STORE);
    PlainSave(GENESIS_STORE, e.a2);
    PlainSave(r.store, e.a3);
    var s := Save(r.store, e.a3);
    assert e.a1 !in s.leaves;
    assert Visited(s, e.a2, 0) == [e.a2];
    ThreeChainLocks(Prepared(r, e.a3), e.a3, 0);
  }

  /** `cut` fetches `a2` and votes for `a3` with its lock still at genesis. */
  lemma CutVotes(c: Committee, dropped: set<Guard>, run: seq<Network>, steps: seq<Step>, t: Trio, e: Rows,
                 low: Replica, both: Replica, votes: set<CastVote>)
    returns (run': seq<Network>, steps': seq<Step>, cut: Replica, votes': set<CastVote>)
    requires IsTrio(c, t) && AreRows(e, t) && StoreClosed in dropped
    requires Ballots(t.low + t.both, e.a1) <= votes && Ballots(t.low + t.both, e.a2) <= votes
    requires RunTo(c, ThreeChainRule, dropped, run, steps, Net3(t, low, both, GENESIS_REPLICA, votes))
    ensures RunTo(c, ThreeChainRule, dropped, run', steps', Net3(t, low, both, cut, votes'))
    ensures OnLine(cut, Genesis) && cut.voted == 3 && cut.locked == 0
    ensures votes' == votes + Ballots(t.cut, e.a3)
  {
    RowChains(e, t);
    var g := GENESIS_REPLICA;
    BallotsCertify(c, t.first, t.low + t.both, votes, e.a1);
    BallotsCertify(c, t.first, t.low + t.both, votes, e.a2);
    assert Plain(g.store);
    PlainSave(g.store, e.a2);
    var r := g.(store := Save(GENESIS_STORE, e.a2));
    run', steps' := Each(c, ThreeChainRule, dropped, run, steps, Net3(t, low, both, g, votes), t.cut, g,
                         LeafSaved(0, e.a2, false));
    Net3Put(t, low, both, g, votes, r);
    run', steps', cut := CutRound(c, dropped, run', steps', Net3(t, low, both, r, votes), t, r, e);
    votes' := votes + Ballots(t.cut, e.a3);
    Net3Put(t, low, both, r, votes, cut);
  }

  lemma CutRound(c: Committee, dropped: set<Guard>, run: seq<Network>, steps: seq<Step>, n: Network, t: Trio, r: Replica, e: Rows)
    returns (run': seq<Network>, steps': seq<Step>, cut: Replica)
    requires AreRows(e, t) && StoreClosed in dropped && InState(c, n, t.cut, r) && Checks(c, n.votes, e.a3.justify)
    requires r == GENESIS_REPLICA.(store := Save(GENESIS_STORE, e.a2)) && RunTo(c, ThreeChainRule, dropped, run, steps, n)
    ensures RunTo(c, ThreeChainRule, dropped, run', steps', PutVotes(n, t.cut, cut, VoteCast(0, e.a3)))
    ensures OnLine(cut, Genesis) && cut.voted == 3 && cut.locked == 0
  {
    RowChains(e, t);
    CutWalkKeepsLock(r, e, t);
    HeldWalkFalls(r, e.a3, e.a2);
    IdleInOrder(ThreeChainRule, r, e.a3);
    run', steps' := Round(c, ThreeChainRule, dropped, run, steps, n, t.cut, r, e.a3, false, 0);
    cut := Voted(r, e.a3, 0);
    StillReaches(r, e.a3, 0, Genesis);
  }

  /** `low` and `cut` vote for one more leaf of the other row. */
  lemma OtherRow(c: Committee, dropped: set<Guard>, run: seq<Network>, steps: seq<Step>, t: Trio,
                 low: Replica, both: Replica, cut: Replica, votes: set<CastVote>, p: Leaf, parent: Leaf, lock: nat)
    returns (run': seq<Network>, steps': seq<Step>, low': Replica, cut': Replica, votes': set<CastVote>)
    requires IsTrio(c, t) && Follows(p, p.View(), parent, t.third) && Checks(c, votes, p.justify)
    requires OnLine(low, parent) && OnLine(cut, parent) && low.locked == cut.locked == 0
    requires p.view > parent.View() && p.view > low.voted && p.view > cut.voted
    requires ReachesLock(p.view, FullAbove(parent, 0), 0, lock) && (parent.View() > 0 || parent == Genesis)
    requires RunTo(c, ThreeChainRule, dropped, run, steps, Net3(t, low, both, cut, votes))
    ensures RunTo(c, ThreeChainRule, dropped, run', steps', Net3(t, low', both, cut', votes'))
    ensures OnLine(low', p) && OnLine(cut', p) && low'.locked == cut'.locked == lock
    ensures low'.voted == cut'.voted == p.view
    ensures votes <= votes' && Ballots(t.low + t.cut, p) <= votes'
  {
    run', steps', low' := LineRound(c, dropped, run, steps, Net3(t, low, both, cut, votes), t.low, low, p, parent,
                                    t.third, lock);
    Net3Put(t, low, both, cut, votes, low');
    var mid := votes + Ballots(t.low, p);
    assert Checks(c, mid, p.justify);
    run', steps', cut' := LineRound(c, dropped, run', steps', Net3(t, low', both, cut, mid), t.cut, cut, p, parent, t.third, lock);
    Net3Put(t, low', both, cut, mid, cut');
    votes' := mid + Ballots(t.cut, p);
  }

  /** The other row is certified up to `y`. */
  lemma OtherRows(c: Committee, dropped: set<Guard>, run: seq<Network>, steps: seq<Step>, t: Trio, e: Rows,
                  low: Replica, both: Replica, cut: Replica, votes: set<CastVote>)
    returns (run': seq<Network>, steps': seq<Step>, low': Replica, cut': Replica, votes': set<CastVote>)
    requires IsTrio(c, t) && AreRows(e, t) && OnLine(low, Genesis) && OnLine(cut, Genesis)
    requires low.locked == cut.locked == 0 && low.voted == 2 && cut.voted == 3
    requires RunTo(c, ThreeChainRule, dropped, run, steps, Net3(t, low, both, cut, votes))
    ensures RunTo(c, ThreeChainRule, dropped, run', steps', Net3(t, low', both, cut', votes'))
    ensures OnLine(low', e.y) && low'.locked == 5 && low'.voted == 7
    ensures votes <= votes' && Ballots(t.low + t.cut, e.y) <= votes'
  {
    RowChains(e, t);
    run', steps', low', cut', votes' := OtherRow(c, dropped, run, steps, t, low, both, cut, votes, e.w, Genesis, 0);
    BallotsCertify(c, t.third, t.low + t.cut, votes', e.w);
    run', steps', low', cut', votes' := OtherRow(c, dropped, run', steps', t, low', both, cut', votes', e.x, e.w, 0);
    BallotsCertify(c, t.third, t.low + t.cut, votes', e.x);
    run', steps', low', cut', votes' := OtherRow(c, dropped, run', steps', t, low', both, cut', votes', e.y, e.x, 5);
  }

  /** The lock is read off stored ancestors: nodes that lack one vote for both rows. */
  lemma OpenStoreForks(c: Committee, t: Trio, e: Rows)
    returns (run: seq<Network>, steps: seq<Step>)
    requires IsTrio(c, t) && AreRows(e, t)
    ensures IsRunBut(c, ThreeChainRule, {StoreClosed}, run, steps) && ArePrompt(run, steps) && Disagrees(c, run[|steps|])
  {
    var dropped := {StoreClosed};
    RowChains(e, t);
    var low, both, cut, votes;
    run, steps, low, votes := RowStart(c, dropped, t, e);
    run, steps, both, votes := BothVotes(c, dropped, run, steps, t, e, low, GENESIS_REPLICA, votes);
    run, steps, cut, votes := CutVotes(c, dropped, run, steps, t, e, low, both, votes);
    assert Ballots(t.both + t.cut, e.a3) <= votes;
    run, steps, low, cut, votes := OtherRows(c, dropped, run, steps, t, e, low, both, cut, votes);
    run, steps := BothRows(c, dropped, run, steps, t, e, low, both, cut, votes);
  }

  /** `both` delivers `a1` and `low` delivers `w`. */
  lemma BothRows(c: Committee, dropped: set<Guard>, run: seq<Network>, steps: seq<Step>, t: Trio, e: Rows,
                 low: Replica, both: Replica, cut: Replica, votes: set<CastVote>)
    returns (run': seq<Network>, steps': seq<Step>)
    requires IsTrio(c, t) && AreRows(e, t)
    requires OnLine(low, e.y) && low.locked == 5 && low.voted == 7
    requires OnLine(both, e.a3) && both.locked == 1 && both.voted == 3
    requires Ballots(t.both + t.cut, e.a3) <= votes && Ballots(t.low + t.cut, e.y) <= votes
    requires RunTo(c, ThreeChainRule, dropped, run, steps, Net3(t, low, both, cut, votes))
    ensures IsRunBut(c, ThreeChainRule, dropped, run', steps') && ArePrompt(run', steps') && Disagrees(c, run'[|steps'|])
  {
    RowChains(e, t);
    BallotsCertify(c, t.second, t.both + t.cut, votes, e.a3);
    BallotsCertify(c, t.third, t.low + t.cut, votes, e.y);
    var low', both';
    run', steps', both' := LineDecides(c, dropped, run, steps, Net3(t, low, both, cut, votes), t.both, both, e.p, e.a3, t.second);
    Net3Put(t, low, both, cut, votes, both');
    run', steps', low' := LineDecides(c, dropped, run', steps', Net3(t, low, both', cut, votes), t.low, low, e.z, e.y, t.third);
    Net3Put(t, low, both', cut, votes, low');
    GroupsDisagree(c, t, low', both', cut, votes, e.w, e.a1);
  }
}
