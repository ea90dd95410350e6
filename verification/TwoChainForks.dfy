/** HotStuff-2 runs that miss one guard and end in disagreement. */
module TwoChainForks {
  import opened Committees
  import opened Leaves
  import opened Decide
  import opened Replicas
  import opened Protocol
  import opened Agreement
  import opened ForkRuns

  // ---- rounds ----

  function Max(a: nat, b: nat): nat { if a > b then a else b }

  /** The parent of `p` does not follow its own parent directly, so `p` decides nothing. */
  predicate Skips(p: Leaf)
    requires p.Block?
  {
    p.justify.leaf.Genesis? || p.justify.leaf.justify.leaf.View() + 1 != p.justify.leaf.view
  }

  /** Taking up a proposal that decides nothing moves the lock to its justify view. */
  lemma LocksOnly(r: Replica, p: Leaf)
    requires p.Block? && Skips(p)
    ensures TakeUp(TwoChainRule, r, p, false) == Taken(r, p, Max(r.locked, p.justify.view))
  {}

  /** Taking up a proposal over a parent and grandparent of consecutive views delivers the grandparent. */
  lemma DeliversGrandparent(r: Replica, p: Leaf)
    requires p.Block? && p.justify.leaf.Block?
    requires ParentInfo(r.seen, p).Some? && ParentInfo(r.seen, p.justify.leaf).Some?
    requires var b := p.justify.leaf.justify.leaf; b.View() + 1 == p.justify.leaf.view && b.View() > r.anchor.View()
    requires p.justify.view > r.locked
    ensures p.justify.leaf.justify.leaf in TakeUp(TwoChainRule, r, p, false).log
  {
    var out := TwoChain(r.seen, p, r.anchor.View());
    var b := p.justify.leaf.justify.leaf;
    assert out.leafViews[0] == b;
    ReverseMembers(out.leafViews, b);
    assert TakeUp(TwoChainRule, r, p, false).log == r.log + Reverse(out.leafViews);
  }

  /** A group's round above the lock, or one whose walk from the justify view meets the lock. */
  lemma TwoChainRound(c: Committee, dropped: set<Guard>, run: seq<Network>, steps: seq<Step>, n: Network,
                      group: set<Node>, r: Replica, p: Leaf)
    returns (run': seq<Network>, steps': seq<Step>, r': Replica)
    requires InState(c, n, group, r) && Idle(r) && p.Block? && p.view > r.voted && Skips(p)
    requires Checks(c, n.votes, p.justify) && (GenesisNamed in dropped || NamesGenesis(p.justify))
    requires Stored(r.store, p.justify.leaf) && SafeOrLive(Save(r.store, p), p, r.locked)
    requires WalksFall in dropped || WalkFalls(Saved(r, p), p)
    requires RunTo(c, TwoChainRule, dropped, run, steps, n)
    ensures RunTo(c, TwoChainRule, dropped, run', steps', PutVotes(n, group, r', VoteCast(0, p)))
    ensures HasVoted(r, p, r', Max(r.locked, p.justify.view))
  {
    var lock := Max(r.locked, p.justify.view);
    IdleInOrder(TwoChainRule, r, p);
    LocksOnly(Prepared(r, p), p);
    run', steps' := Round(c, TwoChainRule, dropped, run, steps, n, group, r, p, false, lock);
    r' := Voted(r, p, lock);
  }

  /** A round on a child of `parent`, whose entry is `start`: the walk from there meets the lock, or the
      certificate is above it. */
  lemma VoteFor(c: Committee, dropped: set<Guard>, run: seq<Network>, steps: seq<Step>, n: Network,
                group: set<Node>, r: Replica, p: Leaf, parent: Leaf, signers: set<Node>, start: Leaf)
    returns (run': seq<Network>, steps': seq<Step>, r': Replica)
    requires InState(c, n, group, r) && Idle(r) && Follows(p, p.View(), parent, signers) && Checks(c, n.votes, p.justify)
    requires p.view > r.voted && p.view > parent.View() && Skips(p) && NamesGenesis(p.justify)
    requires parent in r.store.leaves && Held(r.store, start) && start.View() == parent.View()
    requires WalksFall in dropped || Falls(start)
    requires parent.View() > r.locked || Reaches(Save(r.store, p), start, r.locked)
    requires RunTo(c, TwoChainRule, dropped, run, steps, n)
    ensures RunTo(c, TwoChainRule, dropped, run', steps', PutVotes(n, group, r', VoteCast(0, p)))
    ensures HasVoted(r, p, r', Max(r.locked, parent.View()))
  {
    if Falls(start) {
      HeldWalkFalls(r, p, start);
    }
    PlainSave(r.store, p);
    run', steps', r' := TwoChainRound(c, dropped, run, steps, n, group, r, p);
  }

  /** A group receives and takes up a grandchild over consecutive views and delivers the grandparent. */
  lemma Conclude(c: Committee, dropped: set<Guard>, run: seq<Network>, steps: seq<Step>, n: Network,
                 group: set<Node>, r: Replica, w: Leaf, x: Leaf, y: Leaf, signers: set<Node>)
    returns (run': seq<Network>, steps': seq<Step>, r': Replica)
    requires InState(c, n, group, r) && Idle(r) && RunTo(c, TwoChainRule, dropped, run, steps, n)
    requires w.Block? && w.view > 0 && x.Block? && x.view == w.view + 1 && x.justify.leaf == w && Falls(x)
    requires x.justify.view == w.view || x.justify.view == 0
    requires Follows(y, x.view + 1, x, signers) && Checks(c, n.votes, y.justify)
    requires Held(r.store, w) && Held(r.store, x)
    requires r.voted < y.view && r.locked < x.view && r.anchor == Genesis
    ensures RunTo(c, TwoChainRule, dropped, run', steps', Put(n, group, r')) && w in r'.log
  {
    HeldWalkFalls(r, y, x);
    IdleInOrder(TwoChainRule, r, y);
    run', steps' := Prepare(c, TwoChainRule, dropped, run, steps, n, group, r, y);
    var q := Prepared(r, y);
    DeliversGrandparent(q, y);
    run', steps' := Each(c, TwoChainRule, dropped, run', steps', Put(n, group, q), group, q, ProposalHandled(0, y, false));
    r' := TakeUp(TwoChainRule, q, y, false);
    PutAgain(n, group, q, r');
  }

  // ---- one quorum and an observer ----

  lemma VoterVoteFor(c: Committee, dropped: set<Guard>, run: seq<Network>, steps: seq<Step>, signers: set<Node>,
                     voters: set<Node>, h: Node, r: Replica, o: Replica, votes: set<CastVote>, p: Leaf, parent: Leaf)
    returns (run': seq<Network>, steps': seq<Step>, r': Replica, votes': set<CastVote>)
    requires IsParty(c, signers, voters, h) && Idle(r) && Follows(p, p.View(), parent, signers)
    requires p.view > r.voted && p.view > parent.View() && Skips(p)
    requires parent == Genesis || (parent.View() > 0 && Ballots(voters, parent) <= votes)
    requires Held(r.store, parent) && Falls(parent)
    requires parent.View() > r.locked || Reaches(Save(r.store, p), parent, r.locked)
    requires RunTo(c, TwoChainRule, dropped, run, steps, Net(voters, h, r, o, votes))
    ensures RunTo(c, TwoChainRule, dropped, run', steps', Net(voters, h, r', o, votes'))
    ensures HasVoted(r, p, r', Max(r.locked, parent.View())) && votes' == votes + Ballots(voters, p)
  {
    if parent != Genesis {
      BallotsCertify(c, signers, voters, votes, parent);
    }
    run', steps', r' := VoteFor(c, dropped, run, steps, Net(voters, h, r, o, votes), voters, r, p, parent, signers, parent);
    votes' := votes + Ballots(voters, p);
    NetPut(voters, h, r, o, votes, r');
  }

  /** Once `w` is certified, its child and grandchild deliver it at every voter. */
  lemma Finish(c: Committee, dropped: set<Guard>, run: seq<Network>, steps: seq<Step>, signers: set<Node>,
               voters: set<Node>, h: Node, r: Replica, o: Replica, votes: set<CastVote>, w: Leaf, x: Leaf, y: Leaf)
    returns (run': seq<Network>, steps': seq<Step>, r': Replica, votes': set<CastVote>)
    requires IsParty(c, signers, voters, h) && Ballots(voters, w) <= votes
    requires RunTo(c, TwoChainRule, dropped, run, steps, Net(voters, h, r, o, votes))
    requires Idle(r) && w.Block? && w.view > 0 && Held(r.store, w) && Falls(w) && w.justify.leaf.View() + 1 != w.view
    requires r.voted <= w.view && r.locked < w.view && r.anchor == Genesis
    requires Follows(x, w.view + 1, w, signers) && Follows(y, x.view + 1, x, signers)
    ensures RunTo(c, TwoChainRule, dropped, run', steps', Net(voters, h, r', o, votes'))
    ensures votes' == votes + Ballots(voters, x) && w in r'.log
  {
    var mid;
    run', steps', mid, votes' := VoterVoteFor(c, dropped, run, steps, signers, voters, h, r, o, votes, x, w);
    BallotsCertify(c, signers, voters, votes', x);
    run', steps', r' := Conclude(c, dropped, run', steps', Net(voters, h, mid, o, votes'), voters, mid, w, x, y, signers);
    NetPut(voters, h, mid, o, votes', r');
  }

  /** An observer that has fetched `b` and its certified child delivers `b`. */
  lemma Observe(c: Committee, dropped: set<Guard>, run: seq<Network>, steps: seq<Step>, signers: set<Node>,
                voters: set<Node>, h: Node, r: Replica, votes: set<CastVote>, b: Leaf, x: Leaf, y: Leaf)
    returns (run': seq<Network>, steps': seq<Step>, o: Replica)
    requires IsParty(c, signers, voters, h) && Ballots(voters, x) <= votes
    requires RunTo(c, TwoChainRule, dropped, run, steps, Net(voters, h, r, GENESIS_REPLICA, votes))
    requires b.Block? && b.view > 0 && x.Block? && x.view == b.view + 1 && Falls(x)
    requires x.justify.leaf == b && (x.justify.view == b.view || x.justify.view == 0)
    requires Checks(c, votes, b.justify) && Checks(c, votes, x.justify) && Follows(y, x.view + 1, x, signers)
    ensures RunTo(c, TwoChainRule, dropped, run', steps', Net(voters, h, r, o, votes)) && b in o.log
  {
    run', steps' := Fetch(c, TwoChainRule, dropped, run, steps, voters, h, r, votes, b, x);
    var f := Fetched(b, x);
    BallotsCertify(c, signers, voters, votes, x);
    run', steps', o := Conclude(c, dropped, run', steps', Net(voters, h, r, f, votes), {h}, f, b, x, y, signers);
    NetPut(voters, h, r, f, votes, o);
  }

  // ---- two branches ----

  /** Two branches over `a`: `b`, `c`, `d` and `w`, `u`, `z`. */
  datatype Fork = Fork(a: Leaf, b: Leaf, c: Leaf, d: Leaf, w: Leaf, u: Leaf, z: Leaf)

  predicate IsFork(f: Fork, signers: set<Node>)
  {
    && Follows(f.a, 2, Genesis, signers)
    && Follows(f.b, 4, f.a, signers) && Follows(f.c, 5, f.b, signers) && Follows(f.d, 6, f.c, signers)
    && Follows(f.w, 7, f.a, signers) && Follows(f.u, 8, f.w, signers) && Follows(f.z, 9, f.u, signers)
  }

  function ForkOf(signers: set<Node>): (f: Fork)
    ensures IsFork(f, signers)
  {
    var a := Child(2, Genesis, signers);
    var b := Child(4, a, signers);
    var c := Child(5, b, signers);
    var w := Child(7, a, signers);
    var u := Child(8, w, signers);
    Fork(a, b, c, Child(6, c, signers), w, u, Child(9, u, signers))
  }

  predicate Branches(f: Fork)
  {
    && f.a.Block? && f.a.view == 2 && f.a.justify.leaf == Genesis
    && f.b.Block? && f.b.view == 4 && f.b.justify.leaf == f.a && f.c.Block? && f.c.view == 5 && f.c.justify.leaf == f.b
    && f.w.Block? && f.w.view == 7 && f.w.justify.leaf == f.a && f.u.Block? && f.u.view == 8 && f.u.justify.leaf == f.w
  }

  lemma BranchesApart(f: Fork)
    requires Branches(f)
    ensures !Comparable(f.b, f.w) && Falls(f.a) && Falls(f.b) && Falls(f.c) && Falls(f.w) && Falls(f.u)
  {
    assert !Extends(Genesis, f.w) && !Extends(Genesis, f.b);
    assert !Extends(f.a, f.w) && !Extends(f.a, f.b);
    assert Falls(f.a);
    assert Falls(f.b);
    assert Falls(f.w);
  }

  /** A voter that has voted for `a` and `b`: locked at `a`. */
  predicate AtB(r: Replica, f: Fork)
  {
    Idle(r) && Held(r.store, f.a) && Held(r.store, f.b) && r.voted == 4 && r.locked == 2 && r.anchor == Genesis
  }

  lemma ToB(c: Committee, dropped: set<Guard>, signers: set<Node>, voters: set<Node>, h: Node, f: Fork)
    returns (run: seq<Network>, steps: seq<Step>, r: Replica, votes: set<CastVote>)
    requires IsParty(c, signers, voters, h) && IsFork(f, signers)
    ensures RunTo(c, TwoChainRule, dropped, run, steps, Net(voters, h, r, GENESIS_REPLICA, votes))
    ensures AtB(r, f) && Ballots(voters, f.a) <= votes && Ballots(voters, f.b) <= votes
  {
    var g := GENESIS_REPLICA;
    run, steps, votes := [Net(voters, h, g, g, {})], [], {};
    BranchesApart(f);
    assert Idle(g) && Held(g.store, Genesis) && Reaches(Save(g.store, f.a), Genesis, 0);
    run, steps, r, votes := VoterVoteFor(c, dropped, run, steps, signers, voters, h, g, g, votes, f.a, Genesis);
    run, steps, r, votes := VoterVoteFor(c, dropped, run, steps, signers, voters, h, r, g, votes, f.b, f.a);
  }

  /** A voter that has voted for both `c` and `w`. */
  predicate AtW(r: Replica, f: Fork)
  {
    Idle(r) && Held(r.store, f.w) && r.voted == 7 && r.locked <= 4 && r.anchor == Genesis
  }

  lemma BothBranches(c: Committee, dropped: set<Guard>, run: seq<Network>, steps: seq<Step>, signers: set<Node>,
                     voters: set<Node>, h: Node, r: Replica, votes: set<CastVote>, f: Fork)
    returns (run': seq<Network>, steps': seq<Step>)
    requires IsParty(c, signers, voters, h) && IsFork(f, signers) && AtW(r, f)
    requires Ballots(voters, f.a) <= votes && Ballots(voters, f.b) <= votes
    requires Ballots(voters, f.c) <= votes && Ballots(voters, f.w) <= votes
    requires RunTo(c, TwoChainRule, dropped, run, steps, Net(voters, h, r, GENESIS_REPLICA, votes))
    ensures IsRunBut(c, TwoChainRule, dropped, run', steps') && ArePrompt(run', steps') && Disagrees(c, run'[|steps'|])
  {
    BranchesApart(f);
    var r', votes', o;
    run', steps', r', votes' := Finish(c, dropped, run, steps, signers, voters, h, r, GENESIS_REPLICA, votes, f.w, f.u, f.z);
    BallotsCertify(c, signers, voters, votes', f.a);
    BallotsCertify(c, signers, voters, votes', f.b);
    run', steps', o := Observe(c, dropped, run', steps', signers, voters, h, r', votes', f.b, f.c, f.d);
    PartyDisagrees(c, signers, voters, h, r', o, votes', f.w, f.b);
  }

  lemma PartyDisagrees(c: Committee, signers: set<Node>, voters: set<Node>, h: Node, r: Replica, o: Replica,
                       votes: set<CastVote>, a: Leaf, b: Leaf)
    requires IsParty(c, signers, voters, h) && a in r.log && b in o.log && !Comparable(b, a)
    ensures Disagrees(c, Net(voters, h, r, o, votes))
  {
    var v := SuccessQuorumHasHonest(c, signers);
    var n := Net(voters, h, r, o, votes);
    assert n.replicas[v] == r && n.replicas[h] == o;
  }

  // ---- an early error ----

  /** The voters accept `c`, fail to take it up and vote for it, with the lock still at `a`. */
  lemma FailAndVote(c: Committee, dropped: set<Guard>, run: seq<Network>, steps: seq<Step>, signers: set<Node>,
                    voters: set<Node>, h: Node, r: Replica, o: Replica, votes: set<CastVote>, f: Fork)
    returns (run': seq<Network>, steps': seq<Step>, r': Replica)
    requires IsParty(c, signers, voters, h) && IsFork(f, signers) && AtB(r, f) && NoLostLock in dropped
    requires Ballots(voters, f.b) <= votes && RunTo(c, TwoChainRule, dropped, run, steps, Net(voters, h, r, o, votes))
    ensures RunTo(c, TwoChainRule, dropped, run', steps', Net(voters, h, r', o, votes + Ballots(voters, f.c)))
    ensures HasVoted(r, f.c, r', 2)
  {
    BranchesApart(f);
    BallotsCertify(c, signers, voters, votes, f.b);
    HeldWalkFalls(r, f.c, f.b);
    IdleInOrder(TwoChainRule, r, f.c);
    run', steps' := Round(c, TwoChainRule, dropped, run, steps, Net(voters, h, r, o, votes), voters, r, f.c, true, 2);
    r' := Voted(r, f.c, 2);
    NetPut(voters, h, r, o, votes, r');
  }

  /** An early error in the vote task loses the lock: the next proposal is accepted against the old one. */
  lemma LostLockForks(c: Committee, signers: set<Node>, voters: set<Node>, h: Node, f: Fork)
    returns (run: seq<Network>, steps: seq<Step>)
    requires IsParty(c, signers, voters, h) && IsFork(f, signers)
    ensures IsRunBut(c, TwoChainRule, {NoLostLock}, run, steps) && ArePrompt(run, steps) && Disagrees(c, run[|steps|])
  {
    var dropped := {NoLostLock};
    var g := GENESIS_REPLICA;
    var r, votes;
    run, steps, r, votes := ToB(c, dropped, signers, voters, h, f);
    BranchesApart(f);
    run, steps, r := FailAndVote(c, dropped, run, steps, signers, voters, h, r, g, votes, f);
    votes := votes + Ballots(voters, f.c);
    assert Reaches(Save(r.store, f.w), f.a, 2);
    run, steps, r, votes := VoterVoteFor(c, dropped, run, steps, signers, voters, h, r, g, votes, f.w, f.a);
    run, steps := BothBranches(c, dropped, run, steps, signers, voters, h, r, votes, f);
  }

  // ---- the order of accepting ----

  /** Two proposals are accepted before either is taken up. */
  lemma AcceptBoth(c: Committee, dropped: set<Guard>, run: seq<Network>, steps: seq<Step>,
                   voters: set<Node>, h: Node, r: Replica, o: Replica, votes: set<CastVote>, p: Leaf, q: Leaf)
    returns (run': seq<Network>, steps': seq<Step>)
    requires h !in voters && (forall v | v in voters :: c.Honest(v))
    requires Acceptable(c, TwoChainRule, dropped, r, votes, p)
    requires Acceptable(c, TwoChainRule, dropped, Accepted(r, p), votes, q)
    requires RunTo(c, TwoChainRule, dropped, run, steps, Net(voters, h, r, o, votes))
    ensures RunTo(c, TwoChainRule, dropped, run', steps', Net(voters, h, Accepted(Accepted(r, p), q), o, votes))
  {
    var mid := Accepted(r, p);
    run', steps' := Accept(c, TwoChainRule, dropped, run, steps, Net(voters, h, r, o, votes), voters, r, p);
    NetPut(voters, h, r, o, votes, mid);
    run', steps' := Accept(c, TwoChainRule, dropped, run', steps', Net(voters, h, mid, o, votes), voters, mid, q);
    NetPut(voters, h, mid, o, votes, Accepted(mid, q));
  }

  /** The store is read, a pending proposal taken up, moving the lock, and voted for. */
  function TakenAndVoted(r: Replica, p: Leaf): Replica
    requires p.Block?
  {
    Marked(Taken(r.(seen := r.store), p, Max(r.locked, p.justify.view)), p)
  }

  lemma TakeAndVote(c: Committee, dropped: set<Guard>, run: seq<Network>, steps: seq<Step>,
                    voters: set<Node>, h: Node, r: Replica, o: Replica, votes: set<CastVote>, p: Leaf)
    returns (run': seq<Network>, steps': seq<Step>)
    requires h !in voters && (forall v | v in voters :: c.Honest(v)) && Plain(r.store)
    requires p in r.pending && p.Block? && p.view > r.voted && Skips(p)
    requires RunTo(c, TwoChainRule, dropped, run, steps, Net(voters, h, r, o, votes))
    ensures RunTo(c, TwoChainRule, dropped, run', steps', Net(voters, h, TakenAndVoted(r, p), o, votes + Ballots(voters, p)))
  {
    run', steps' := EachVoter(c, TwoChainRule, dropped, run, steps, voters, h, r, o, votes, StoreRead(h));
    var q := r.(seen := r.store);
    LocksOnly(q, p);
    run', steps' := EachVoter(c, TwoChainRule, dropped, run', steps', voters, h, q, o, votes, ProposalHandled(h, p, false));
    var taken := Taken(q, p, Max(r.locked, p.justify.view));
    assert p in taken.validated;
    run', steps' := CastVotes(c, TwoChainRule, dropped, run', steps', Net(voters, h, taken, o, votes), voters, taken, p);
    NetPut(voters, h, taken, o, votes, Marked(taken, p));
  }

  /** `q` is `r` after accepting `c` and `w`. */
  predicate HasBoth(r: Replica, q: Replica, f: Fork)
  {
    && q.pending == {f.c, f.w} && Plain(q.store) && q == r.(store := q.store, pending := q.pending)
    && q.store.views == r.store.views[5 := LeafView(f.c, false)][7 := LeafView(f.w, false)]
  }

  lemma BothTaken(r: Replica, q: Replica, f: Fork, signers: set<Node>)
    requires IsFork(f, signers) && AtB(r, f) && HasBoth(r, q, f)
    ensures Plain(TakenAndVoted(q, f.c).store) && AtW(TakenAndVoted(TakenAndVoted(q, f.c), f.w), f)
  {
    var q1 := TakenAndVoted(q, f.c);
    PlainMark(q.store, f.c);
    var q2 := TakenAndVoted(q1, f.w);
    PlainMark(q1.store, f.w);
    assert q2.pending == {};
    assert q2.store.views == r.store.views[5 := LeafView(f.c, true)][7 := LeafView(f.w, true)];
  }

  /** From both accepted to disagreement. */
  lemma BothAccepted(c: Committee, dropped: set<Guard>, run: seq<Network>, steps: seq<Step>, signers: set<Node>,
                     voters: set<Node>, h: Node, r: Replica, q: Replica, votes: set<CastVote>, f: Fork)
    returns (run': seq<Network>, steps': seq<Step>)
    requires IsParty(c, signers, voters, h) && IsFork(f, signers) && AtB(r, f) && HasBoth(r, q, f)
    requires Ballots(voters, f.a) <= votes && Ballots(voters, f.b) <= votes
    requires RunTo(c, TwoChainRule, dropped, run, steps, Net(voters, h, q, GENESIS_REPLICA, votes))
    ensures IsRunBut(c, TwoChainRule, dropped, run', steps') && ArePrompt(run', steps') && Disagrees(c, run'[|steps'|])
  {
    BothTaken(r, q, f, signers);
    var g := GENESIS_REPLICA;
    run', steps' := TakeAndVote(c, dropped, run, steps, voters, h, q, g, votes, f.c);
    var q1, votes1 := TakenAndVoted(q, f.c), votes + Ballots(voters, f.c);
    run', steps' := TakeAndVote(c, dropped, run', steps', voters, h, q1, g, votes1, f.w);
    run', steps' := BothBranches(c, dropped, run', steps', signers, voters, h, TakenAndVoted(q1, f.w),
                                 votes1 + Ballots(voters, f.w), f);
  }

  /** What a voter at `b` has to offer `c` and `w`, whether or not it has accepted the other. */
  lemma EitherFits(c: Committee, signers: set<Node>, voters: set<Node>, h: Node, r: Replica, q: Replica,
                   votes: set<CastVote>, f: Fork)
    requires IsParty(c, signers, voters, h) && IsFork(f, signers) && AtB(r, f)
    requires Ballots(voters, f.a) <= votes && Ballots(voters, f.b) <= votes
    requires Held(q.store, f.a) && Held(q.store, f.b) && q.locked == 2
    ensures Checks(c, votes, f.c.justify) && Checks(c, votes, f.w.justify)
    ensures WalkFalls(Saved(q, f.c), f.c) && WalkFalls(Saved(q, f.w), f.w)
    ensures SafeOrLive(Save(q.store, f.c), f.c, 2) && SafeOrLive(Save(q.store, f.w), f.w, 2)
  {
    BranchesApart(f);
    BallotsCertify(c, signers, voters, votes, f.a);
    BallotsCertify(c, signers, voters, votes, f.b);
    HeldWalkFalls(q, f.c, f.b);
    HeldWalkFalls(q, f.w, f.a);
    assert Reaches(Save(q.store, f.w), f.a, 2);
  }

  lemma CThenW(c: Committee, signers: set<Node>, voters: set<Node>, h: Node, r: Replica, votes: set<CastVote>, f: Fork)
    requires IsParty(c, signers, voters, h) && IsFork(f, signers) && AtB(r, f)
    requires Ballots(voters, f.a) <= votes && Ballots(voters, f.b) <= votes
    ensures Acceptable(c, TwoChainRule, {Settled}, r, votes, f.c)
    ensures Acceptable(c, TwoChainRule, {Settled}, Accepted(r, f.c), votes, f.w)
    ensures HasBoth(r, Accepted(Accepted(r, f.c), f.w), f)
  {
    IdleInOrder(TwoChainRule, r, f.c);
    IdleInOrder(TwoChainRule, r, f.w);
    var mid := Accepted(r, f.c);
    PlainSave(r.store, f.c);
    PlainSave(mid.store, f.w);
    EitherFits(c, signers, voters, h, r, r, votes, f);
    EitherFits(c, signers, voters, h, r, mid, votes, f);
  }

  lemma WThenC(c: Committee, signers: set<Node>, voters: set<Node>, h: Node, r: Replica, votes: set<CastVote>, f: Fork)
    requires IsParty(c, signers, voters, h) && IsFork(f, signers) && AtB(r, f)
    requires Ballots(voters, f.a) <= votes && Ballots(voters, f.b) <= votes
    ensures Acceptable(c, TwoChainRule, {NotOvertaken}, r, votes, f.w)
    ensures Acceptable(c, TwoChainRule, {NotOvertaken}, Accepted(r, f.w), votes, f.c)
    ensures HasBoth(r, Accepted(Accepted(r, f.w), f.c), f)
  {
    IdleInOrder(TwoChainRule, r, f.c);
    IdleInOrder(TwoChainRule, r, f.w);
    var mid := Accepted(r, f.w);
    PlainSave(r.store, f.w);
    PlainSave(mid.store, f.c);
    EitherFits(c, signers, voters, h, r, r, votes, f);
    EitherFits(c, signers, voters, h, r, mid, votes, f);
    BothEitherWay(r, f, signers);
  }

  lemma BothEitherWay(r: Replica, f: Fork, signers: set<Node>)
    requires IsFork(f, signers) && AtB(r, f)
    ensures HasBoth(r, Accepted(Accepted(r, f.w), f.c), f)
  {
    IdleInOrder(TwoChainRule, r, f.c);
    IdleInOrder(TwoChainRule, r, f.w);
    PlainSave(r.store, f.w);
    PlainSave(Save(r.store, f.w), f.c);
    assert Save(Save(r.store, f.w), f.c).views == r.store.views[5 := LeafView(f.c, false)][7 := LeafView(f.w, false)];
  }

  /** The vote task lags: a second proposal is accepted against the lock before the first is taken up. */
  lemma UnsettledForks(c: Committee, signers: set<Node>, voters: set<Node>, h: Node, f: Fork)
    returns (run: seq<Network>, steps: seq<Step>)
    requires IsParty(c, signers, voters, h) && IsFork(f, signers)
    ensures IsRunBut(c, TwoChainRule, {Settled}, run, steps) && ArePrompt(run, steps) && Disagrees(c, run[|steps|])
  {
    var r, votes;
    run, steps, r, votes := ToB(c, {Settled}, signers, voters, h, f);
    CThenW(c, signers, voters, h, r, votes, f);
    run, steps := AcceptBoth(c, {Settled}, run, steps, voters, h, r, GENESIS_REPLICA, votes, f.c, f.w);
    run, steps := BothAccepted(c, {Settled}, run, steps, signers, voters, h, r, Accepted(Accepted(r, f.c), f.w), votes, f);
  }

  /** The view lags: a proposal for a lower view is accepted after one for a higher view, and will lock
      above what that one is justified by. */
  lemma OvertakenForks(c: Committee, signers: set<Node>, voters: set<Node>, h: Node, f: Fork)
    returns (run: seq<Network>, steps: seq<Step>)
    requires IsParty(c, signers, voters, h) && IsFork(f, signers)
    ensures IsRunBut(c, TwoChainRule, {NotOvertaken}, run, steps) && ArePrompt(run, steps) && Disagrees(c, run[|steps|])
  {
    var r, votes;
    run, steps, r, votes := ToB(c, {NotOvertaken}, signers, voters, h, f);
    WThenC(c, signers, voters, h, r, votes, f);
    run, steps := AcceptBoth(c, {NotOvertaken}, run, steps, voters, h, r, GENESIS_REPLICA, votes, f.w, f.c);
    run, steps := BothAccepted(c, {NotOvertaken}, run, steps, signers, voters, h, r, Accepted(Accepted(r, f.w), f.c), votes, f);
  }

  // ---- a walk that climbs ----

  /** A proposal justified below the lock is accepted when the entry at its justify view has a stored
      parent of the locked view: the walk climbs to the lock instead of falling past it. */
  lemma ClimbingWalkAccepts(r: Replica, p: Leaf, late: Leaf)
    requires p.Block? && p.view > r.locked && late.Block? && Held(r.store, late) && late.view == p.justify.view < r.locked
    requires Stored(r.store, late.justify.leaf) && late.justify.leaf.View() == r.locked
    ensures Accepts(Saved(r, p), p) && p.justify.view < r.locked && Reaches(Save(r.store, p), late, r.locked)
  {
    assert Reaches(Save(r.store, p), late.justify.leaf, r.locked);
  }

  /** `low` and `both` certify `a`, `both` and `cut` certify `b` and `c`, and `low` and `cut` certify `w` and `u`. */
  predicate IsSplitFork(f: Fork, t: Trio)
  {
    && Follows(f.a, 2, Genesis, t.first)
    && Follows(f.b, 4, f.a, t.first) && Follows(f.c, 5, f.b, t.second) && Follows(f.d, 6, f.c, t.second)
    && Follows(f.w, 7, f.a, t.first) && Follows(f.u, 8, f.w, t.third) && Follows(f.z, 9, f.u, t.third)
  }

  function SplitForkOf(t: Trio): (f: Fork)
    ensures IsSplitFork(f, t)
  {
    var a := Child(2, Genesis, t.first);
    var b := Child(4, a, t.first);
    var c := Child(5, b, t.second);
    var w := Child(7, a, t.first);
    var u := Child(8, w, t.third);
    Fork(a, b, c, Child(6, c, t.second), w, u, Child(9, u, t.third))
  }

  /** A node that has fetched `a` without voting for it. */
  function FetchedA(f: Fork): Replica
  {
    GENESIS_REPLICA.(store := Save(GENESIS_STORE, f.a))
  }

  /** `low` and `both` vote for `a`. */
  lemma SplitA(c: Committee, dropped: set<Guard>, t: Trio, f: Fork)
    returns (run: seq<Network>, steps: seq<Step>, r: Replica, votes: set<CastVote>)
    requires IsTrio(c, t) && IsSplitFork(f, t)
    ensures RunTo(c, TwoChainRule, dropped, run, steps, Net3(t, r, r, GENESIS_REPLICA, votes))
    ensures Idle(r) && Held(r.store, f.a) && r.voted == 2 && r.locked == 0 && r.anchor == Genesis
    ensures Ballots(t.low + t.both, f.a) <= votes
  {
    var g, group := GENESIS_REPLICA, t.low + t.both;
    var n := Net3(t, g, g, g, {});
    run, steps := [n], [];
    assert Idle(g) && Held(g.store, Genesis) && Reaches(Save(g.store, f.a), Genesis, 0);
    run, steps, r := VoteFor(c, dropped, run, steps, n, group, g, f.a, Genesis, t.first, Genesis);
    Net3Put(t, g, g, g, {}, r);
    votes := {} + Ballots(group, f.a);
  }

  /** `cut` fetches it. */
  lemma SplitStart(c: Committee, dropped: set<Guard>, t: Trio, f: Fork)
    returns (run: seq<Network>, steps: seq<Step>, r: Replica, votes: set<CastVote>)
    requires IsTrio(c, t) && IsSplitFork(f, t)
    ensures RunTo(c, TwoChainRule, dropped, run, steps, Net3(t, r, r, FetchedA(f), votes))
    ensures Idle(r) && Held(r.store, f.a) && r.voted == 2 && r.locked == 0 && r.anchor == Genesis
    ensures Idle(FetchedA(f)) && Ballots(t.low + t.both, f.a) <= votes
  {
    var g := GENESIS_REPLICA;
    run, steps, r, votes := SplitA(c, dropped, t, f);
    PlainSave(g.store, f.a);
    run, steps := Each(c, TwoChainRule, dropped, run, steps, Net3(t, r, r, g, votes), t.cut, g, LeafSaved(0, f.a, false));
    Net3Put(t, r, r, g, votes, FetchedA(f));
  }

  /** `both` and `cut` vote for one more leaf. */
  lemma SecondVotes(c: Committee, dropped: set<Guard>, run: seq<Network>, steps: seq<Step>, t: Trio, low: Replica,
                    both: Replica, cut: Replica, votes: set<CastVote>, p: Leaf, parent: Leaf, signers: set<Node>)
    returns (run': seq<Network>, steps': seq<Step>, both': Replica, cut': Replica, votes': set<CastVote>)
    requires IsTrio(c, t) && Follows(p, p.View(), parent, signers) && Checks(c, votes, p.justify)
    requires Idle(both) && Idle(cut) && Held(both.store, parent) && Held(cut.store, parent) && Falls(parent)
    requires p.view > both.voted && p.view > cut.voted && p.view > parent.View() > 0 && Skips(p)
    requires parent.View() > both.locked && parent.View() > cut.locked
    requires RunTo(c, TwoChainRule, dropped, run, steps, Net3(t, low, both, cut, votes))
    ensures RunTo(c, TwoChainRule, dropped, run', steps', Net3(t, low, both', cut', votes'))
    ensures HasVoted(both, p, both', parent.View()) && HasVoted(cut, p, cut', parent.View())
    ensures votes <= votes' && Ballots(t.both + t.cut, p) <= votes'
  {
    run', steps', both' := VoteFor(c, dropped, run, steps, Net3(t, low, both, cut, votes), t.both, both, p, parent, signers,
                                   parent);
    Net3Put(t, low, both, cut, votes, both');
    var mid := votes + Ballots(t.both, p);
    assert Checks(c, mid, p.justify);
    run', steps', cut' := VoteFor(c, dropped, run', steps', Net3(t, low, both', cut, mid), t.cut, cut, p, parent, signers, parent);
    Net3Put(t, low, both', cut, mid, cut');
    votes' := mid + Ballots(t.cut, p);
  }

  /** `b` and `c` are certified; `cut`, which never voted for `a`, then saves the late leaf in its place. */
  lemma SplitUpper(c: Committee, dropped: set<Guard>, t: Trio, f: Fork)
    returns (run: seq<Network>, steps: seq<Step>, low: Replica, both: Replica, cut: Replica, late: Leaf, votes: set<CastVote>)
    requires IsTrio(c, t) && IsSplitFork(f, t)
    ensures RunTo(c, TwoChainRule, dropped, run, steps, Net3(t, low, both, cut, votes))
    ensures Idle(low) && Held(low.store, f.a) && low.voted == 2 && low.locked == 0 && low.anchor == Genesis
    ensures Idle(both) && Held(both.store, f.b) && Held(both.store, f.c) && both.voted == 5 && both.locked == 4
    ensures both.anchor == Genesis
    ensures Idle(cut) && f.a in cut.store.leaves && Held(cut.store, f.b) && cut.voted == 5 && cut.locked == 4
    ensures cut.anchor == Genesis && late.Block? && late.view == 2 && late.justify.leaf == f.b && Held(cut.store, late)
    ensures Ballots(t.low + t.both, f.a) <= votes && Ballots(t.both + t.cut, f.c) <= votes
  {
    BranchesApart(f);
    run, steps, low, votes := SplitStart(c, dropped, t, f);
    cut := FetchedA(f);
    BallotsCertify(c, t.first, t.low + t.both, votes, f.a);
    run, steps, both, cut, votes := SecondVotes(c, dropped, run, steps, t, low, low, cut, votes, f.b, f.a, t.first);
    BallotsCertify(c, t.second, t.both + t.cut, votes, f.b);
    run, steps, both, cut, votes := SecondVotes(c, dropped, run, steps, t, low, both, cut, votes, f.c, f.b, t.second);
    late := Block(2, QC(4, f.b, t.second), 0);
    run, steps, cut := SaveLate(c, dropped, run, steps, t, low, both, cut, votes, late);
  }

  lemma SaveLate(c: Committee, dropped: set<Guard>, run: seq<Network>, steps: seq<Step>, t: Trio, low: Replica,
                 both: Replica, cut: Replica, votes: set<CastVote>, late: Leaf)
    returns (run': seq<Network>, steps': seq<Step>, cut': Replica)
    requires IsTrio(c, t) && late.Block? && 0 < late.view <= cut.voted && Checks(c, votes, late.justify)
    requires Idle(cut) && Free(cut.store, late.view)
    requires RunTo(c, TwoChainRule, dropped, run, steps, Net3(t, low, both, cut, votes))
    ensures RunTo(c, TwoChainRule, dropped, run', steps', Net3(t, low, both, cut', votes))
    ensures cut' == cut.(store := Save(cut.store, late)) && Idle(cut')
  {
    PlainSave(cut.store, late);
    cut' := cut.(store := Save(cut.store, late));
    run', steps' := Each(c, TwoChainRule, dropped, run, steps, Net3(t, low, both, cut, votes), t.cut, cut,
                         LeafSaved(0, late, false));
    Net3Put(t, low, both, cut, votes, cut');
  }

  /** `low` and `cut` vote for `w` and `u`; for `cut` the walk from `w`'s justify view climbs to the lock. */
  lemma SplitLower(c: Committee, dropped: set<Guard>, run: seq<Network>, steps: seq<Step>, t: Trio, f: Fork,
                   low: Replica, both: Replica, cut: Replica, late: Leaf, votes: set<CastVote>)
    returns (run': seq<Network>, steps': seq<Step>, low': Replica, cut': Replica, votes': set<CastVote>)
    requires IsTrio(c, t) && IsSplitFork(f, t) && WalksFall in dropped && Ballots(t.low + t.both, f.a) <= votes
    requires Idle(low) && Held(low.store, f.a) && low.voted == 2 && low.locked == 0 && low.anchor == Genesis
    requires Idle(cut) && f.a in cut.store.leaves && Held(cut.store, f.b) && cut.voted == 5 && cut.locked == 4
    requires cut.anchor == Genesis && late.Block? && late.view == 2 && late.justify.leaf == f.b && Held(cut.store, late)
    requires RunTo(c, TwoChainRule, dropped, run, steps, Net3(t, low, both, cut, votes))
    ensures RunTo(c, TwoChainRule, dropped, run', steps', Net3(t, low', both, cut', votes'))
    ensures Idle(low') && Held(low'.store, f.w) && low'.voted == 7 && low'.locked == 2 && low'.anchor == Genesis
    ensures Idle(cut') && Held(cut'.store, f.w) && cut'.voted == 7 && cut'.locked == 4
    ensures votes <= votes' && Ballots(t.low + t.cut, f.w) <= votes'
  {
    BranchesApart(f);
    BallotsCertify(c, t.first, t.low + t.both, votes, f.a);
    run', steps', low' := VoteFor(c, dropped, run, steps, Net3(t, low, both, cut, votes), t.low, low, f.w, f.a, t.first, f.a);
    Net3Put(t, low, both, cut, votes, low');
    var mid := votes + Ballots(t.low, f.w);
    assert Checks(c, mid, f.w.justify);
    ClimbingWalkAccepts(cut, f.w, late);
    run', steps', cut' := VoteFor(c, dropped, run', steps', Net3(t, low', both, cut, mid), t.cut, cut, f.w, f.a, t.first, late);
    Net3Put(t, low', both, cut, mid, cut');
    votes' := mid + Ballots(t.cut, f.w);
  }

  /** `u` is certified too, `low` delivers `w` and `both` delivers `b`. */
  lemma SplitEnd(c: Committee, dropped: set<Guard>, run: seq<Network>, steps: seq<Step>, t: Trio, f: Fork,
                 low: Replica, both: Replica, cut: Replica, votes: set<CastVote>)
    returns (run': seq<Network>, steps': seq<Step>)
    requires IsTrio(c, t) && IsSplitFork(f, t)
    requires Idle(low) && Held(low.store, f.w) && low.voted == 7 && low.locked == 2 && low.anchor == Genesis
    requires Idle(cut) && Held(cut.store, f.w) && cut.voted == 7 && cut.locked == 4
    requires Idle(both) && Held(both.store, f.b) && Held(both.store, f.c) && both.voted == 5 && both.locked == 4
    requires both.anchor == Genesis && Ballots(t.both + t.cut, f.c) <= votes && Ballots(t.low + t.cut, f.w) <= votes
    requires RunTo(c, TwoChainRule, dropped, run, steps, Net3(t, low, both, cut, votes))
    ensures IsRunBut(c, TwoChainRule, dropped, run', steps') && ArePrompt(run', steps') && Disagrees(c, run'[|steps'|])
  {
    BranchesApart(f);
    var low1, cut1, votes1 := low, cut, votes;
    run', steps', low1, cut1, votes1 := ThirdVotes(c, dropped, run, steps, t, low, both, cut, votes, f.u, f.w);
    BallotsCertify(c, t.second, t.both + t.cut, votes1, f.c);
    BallotsCertify(c, t.third, t.low + t.cut, votes1, f.u);
    var low2, both2 := low, both;
    run', steps', both2 := Conclude(c, dropped, run', steps', Net3(t, low1, both, cut1, votes1), t.both, both, f.b, f.c, f.d,
                                    t.second);
    Net3Put(t, low1, both, cut1, votes1, both2);
    run', steps', low2 := Conclude(c, dropped, run', steps', Net3(t, low1, both2, cut1, votes1), t.low, low1, f.w, f.u, f.z,
                                   t.third);
    Net3Put(t, low1, both2, cut1, votes1, low2);
    GroupsDisagree(c, t, low2, both2, cut1, votes1, f.w, f.b);
  }

  lemma ThirdVotes(c: Committee, dropped: set<Guard>, run: seq<Network>, steps: seq<Step>, t: Trio, low: Replica,
                   both: Replica, cut: Replica, votes: set<CastVote>, p: Leaf, parent: Leaf)
    returns (run': seq<Network>, steps': seq<Step>, low': Replica, cut': Replica, votes': set<CastVote>)
    requires IsTrio(c, t) && Follows(p, p.View(), parent, t.third) && Ballots(t.low + t.cut, parent) <= votes
    requires Idle(low) && Idle(cut) && Held(low.store, parent) && Held(cut.store, parent) && Falls(parent)
    requires p.view > low.voted && p.view > cut.voted && p.view > parent.View() > 0 && Skips(p)
    requires parent.View() > low.locked && parent.View() > cut.locked
    requires RunTo(c, TwoChainRule, dropped, run, steps, Net3(t, low, both, cut, votes))
    ensures RunTo(c, TwoChainRule, dropped, run', steps', Net3(t, low', both, cut', votes'))
    ensures HasVoted(low, p, low', parent.View()) && HasVoted(cut, p, cut', parent.View())
    ensures votes <= votes' && Ballots(t.low + t.cut, p) <= votes'
  {
    BallotsCertify(c, t.third, t.low + t.cut, votes, parent);
    run', steps', low' := VoteFor(c, dropped, run, steps, Net3(t, low, both, cut, votes), t.low, low, p, parent, t.third, parent);
    Net3Put(t, low, both, cut, votes, low');
    var mid := votes + Ballots(t.low, p);
    assert Checks(c, mid, p.justify);
    run', steps', cut' := VoteFor(c, dropped, run', steps', Net3(t, low', both, cut, mid), t.cut, cut, p, parent, t.third, parent);
    Net3Put(t, low', both, cut, mid, cut');
    votes' := mid + Ballots(t.cut, p);
  }

  /** The walk climbs: a saved leaf justified above its own view leads the safety check to the lock. */
  lemma ClimbingWalkForks(c: Committee, t: Trio, f: Fork)
    returns (run: seq<Network>, steps: seq<Step>)
    requires IsTrio(c, t) && IsSplitFork(f, t)
    ensures IsRunBut(c, TwoChainRule, {WalksFall}, run, steps) && ArePrompt(run, steps) && Disagrees(c, run[|steps|])
  {
    var dropped := {WalksFall};
    var low, both, cut, late, votes;
    run, steps, low, both, cut, late, votes := SplitUpper(c, dropped, t, f);
    run, steps, low, cut, votes := SplitLower(c, dropped, run, steps, t, f, low, both, cut, late, votes);
    run, steps := SplitEnd(c, dropped, run, steps, t, f, low, both, cut, votes);
  }

  // ---- a certificate of the genesis view that names another leaf ----

  /** `b` is nobody's vote; `c` claims it through a certificate of the genesis view. */
  predicate IsClaim(f: Fork, signers: set<Node>)
  {
    && Follows(f.b, 2, Genesis, signers)
    && f.c.Block? && f.c.view == 3 && f.c.justify == QC(0, f.b, signers) && Follows(f.d, 4, f.c, signers)
    && Follows(f.w, 5, Genesis, signers) && Follows(f.u, 6, f.w, signers) && Follows(f.z, 7, f.u, signers)
  }

  function ClaimOf(signers: set<Node>): (f: Fork)
    ensures IsClaim(f, signers)
  {
    var b := Child(2, Genesis, signers);
    var c := Block(3, QC(0, b, signers), 0);
    var w := Child(5, Genesis, signers);
    var u := Child(6, w, signers);
    Fork(Genesis, b, c, Child(4, c, signers), w, u, Child(7, u, signers))
  }

  lemma ClaimApart(f: Fork, signers: set<Node>)
    requires IsClaim(f, signers)
    ensures !Comparable(f.b, f.w) && Falls(f.c) && Falls(f.w)
  {
    assert !Extends(Genesis, f.w) && !Extends(Genesis, f.b);
    assert Falls(f.b);
  }

  /** The voters fetch `b` and vote for the leaf that claims it. */
  lemma VoteForClaim(c: Committee, dropped: set<Guard>, signers: set<Node>, voters: set<Node>, h: Node, f: Fork)
    returns (run: seq<Network>, steps: seq<Step>, r: Replica)
    requires IsParty(c, signers, voters, h) && IsClaim(f, signers) && GenesisNamed in dropped
    ensures RunTo(c, TwoChainRule, dropped, run, steps, Net(voters, h, r, GENESIS_REPLICA, Ballots(voters, f.c)))
    ensures Idle(r) && r.voted == 3 && r.locked == 0 && r.anchor == Genesis
  {
    var g := GENESIS_REPLICA;
    run, steps := [Net(voters, h, g, g, {})], [];
    assert Idle(g);
    PlainSave(g.store, f.b);
    run, steps := EachVoter(c, TwoChainRule, dropped, run, steps, voters, h, g, g, {}, LeafSaved(h, f.b, false));
    var q := g.(store := Save(g.store, f.b));
    PlainSave(q.store, f.c);
    HeldWalkFalls(q, f.c, Genesis);
    assert Reaches(Save(q.store, f.c), Genesis, 0);
    run, steps, r := TwoChainRound(c, dropped, run, steps, Net(voters, h, q, g, {}), voters, q, f.c);
    NetPut(voters, h, q, g, {}, r);
    assert {} + Ballots(voters, f.c) == Ballots(voters, f.c);
  }

  /** They also vote for the other branch, nothing having moved their lock. */
  lemma VoteForOther(c: Committee, dropped: set<Guard>, signers: set<Node>, voters: set<Node>, h: Node, f: Fork)
    returns (run: seq<Network>, steps: seq<Step>, r: Replica, votes: set<CastVote>)
    requires IsParty(c, signers, voters, h) && IsClaim(f, signers) && GenesisNamed in dropped
    ensures RunTo(c, TwoChainRule, dropped, run, steps, Net(voters, h, r, GENESIS_REPLICA, votes))
    ensures Idle(r) && Held(r.store, f.w) && r.anchor == Genesis && r.voted == 5 && r.locked == 0
    ensures votes == Ballots(voters, f.c) + Ballots(voters, f.w)
  {
    run, steps, r := VoteForClaim(c, dropped, signers, voters, h, f);
    votes := Ballots(voters, f.c);
    assert Reaches(Save(r.store, f.w), Genesis, 0);
    run, steps, r, votes := VoterVoteFor(c, dropped, run, steps, signers, voters, h, r, GENESIS_REPLICA, votes, f.w, Genesis);
  }

  /** A leaf nobody voted for is delivered, beside one on another branch. */
  lemma GenesisClaimForks(c: Committee, signers: set<Node>, voters: set<Node>, h: Node, f: Fork)
    returns (run: seq<Network>, steps: seq<Step>)
    requires IsParty(c, signers, voters, h) && IsClaim(f, signers)
    ensures IsRunBut(c, TwoChainRule, {GenesisNamed}, run, steps) && ArePrompt(run, steps) && Disagrees(c, run[|steps|])
    ensures h in run[|steps|].replicas && f.b in run[|steps|].replicas[h].log
    ensures forall v | v in run[|steps|].votes :: v.leaf != f.b
  {
    var dropped := {GenesisNamed};
    var r, votes, o;
    run, steps, r, votes := VoteForOther(c, dropped, signers, voters, h, f);
    ClaimApart(f, signers);
    run, steps, r, votes := Finish(c, dropped, run, steps, signers, voters, h, r, GENESIS_REPLICA, votes, f.w, f.u, f.z);
    run, steps, o := Observe(c, dropped, run, steps, signers, voters, h, r, votes, f.b, f.c, f.d);
    PartyDisagrees(c, signers, voters, h, r, o, votes, f.w, f.b);
    NobodysVote(voters, f, signers);
  }

  lemma NobodysVote(voters: set<Node>, f: Fork, signers: set<Node>)
    requires IsClaim(f, signers)
    ensures forall v | v in Ballots(voters, f.c) + Ballots(voters, f.w) + Ballots(voters, f.u) :: v.leaf != f.b
  {}
}
