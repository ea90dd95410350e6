/** Building runs step by step: groups of honest nodes go through the same steps. */
module ForkRuns {
  import opened Committees
  import opened Leaves
  import opened Decide
  import opened Replicas
  import opened Protocol
  import opened Agreement

  // ---- building runs ----

  /** A proposal is saved while its view is not old and right after its parent has been looked up. */
  predicate IsPrompt(n: Network, step: Step)
  {
    step.ProposalReceived? && step.node in n.replicas && step.leaf.Block? ==>
      step.leaf.view >= n.replicas[step.node].curView && step.found == LookUp(n.replicas[step.node].store, step.leaf)
  }

  predicate ArePrompt(run: seq<Network>, steps: seq<Step>)
    requires |run| == |steps| + 1
  {
    forall i | 0 <= i < |steps| :: IsPrompt(run[i], steps[i])
  }

  predicate RunTo(c: Committee, rule: Rule, dropped: set<Guard>, run: seq<Network>, steps: seq<Step>, n: Network)
  {
    IsRunBut(c, rule, dropped, run, steps) && ArePrompt(run, steps) && run[|steps|] == n
  }

  function Ballots(voters: set<Node>, p: Leaf): set<CastVote>
  {
    set v | v in voters :: CastVote(v, p.View(), p)
  }

  /** A node in state `r` may take the step, whichever node it is. */
  predicate Local(c: Committee, rule: Rule, dropped: set<Guard>, r: Replica, votes: set<CastVote>, t: Step)
  {
    && Possible(c, r, votes, t) && Guarded(rule, dropped, r, t)
    && (t.ProposalReceived? ==> t.leaf.view >= r.curView && t.found == LookUp(r.store, t.leaf))
  }

  /** The honest nodes of `group` are all in state `r`. */
  predicate InState(c: Committee, n: Network, group: set<Node>, r: Replica)
  {
    forall v | v in group :: v in n.replicas && c.Honest(v) && n.replicas[v] == r
  }

  /** The network with every node of `group` in state `r`. */
  function Put(n: Network, group: set<Node>, r: Replica): Network
  {
    n.(replicas := map v | v in n.replicas :: if v in group then r else n.replicas[v])
  }

  function PutVotes(n: Network, group: set<Node>, r: Replica, t: Step): Network
  {
    var n' := Put(n, group, r);
    if t.VoteCast? then n'.(votes := n.votes + Ballots(group, t.leaf)) else n'
  }

  lemma One(c: Committee, rule: Rule, dropped: set<Guard>, run: seq<Network>, steps: seq<Step>, n: Network, step: Step)
    returns (run': seq<Network>, steps': seq<Step>)
    requires RunTo(c, rule, dropped, run, steps, n) && EnabledBut(c, rule, dropped, n, step) && IsPrompt(n, step)
    ensures RunTo(c, rule, dropped, run', steps', Next(rule, n, step))
  {
    run', steps' := run + [Next(rule, n, step)], steps + [step];
  }

  function At(t: Step, v: Node): Step { t.(node := v) }

  lemma SameAnywhere(c: Committee, rule: Rule, dropped: set<Guard>, r: Replica, votes: set<CastVote>, more: set<CastVote>,
                     t: Step, v: Node)
    requires Local(c, rule, dropped, r, votes, t) && votes <= more
    ensures Local(c, rule, dropped, r, more, At(t, v))
    ensures StepReplica(rule, r, At(t, v)) == StepReplica(rule, r, t)
  {
    match t {
      case ProposalReceived(_, _, _) =>
      case _ =>
    }
  }

  /** One more node takes the step. */
  lemma OneMore(rule: Rule, n: Network, done: set<Node>, r': Replica, t: Step, v: Node)
    requires v in n.replicas && v !in done && (t.ProposalReceived? || t.ProposalChecked? || t.ProposalHandled? ==> t.leaf.Block?)
    requires StepReplica(rule, n.replicas[v], At(t, v)) == r'
    ensures Next(rule, PutVotes(n, done, r', t), At(t, v)) == PutVotes(n, done + {v}, r', t)
  {
    assert Put(n, done, r').replicas[v := r'] == Put(n, done + {v}, r').replicas;
    if t.VoteCast? {
      MoreBallots(done, n.votes, t.leaf, v);
    }
  }

  lemma MoreBallots(done: set<Node>, votes: set<CastVote>, p: Leaf, v: Node)
    ensures votes + Ballots(done, p) + {CastVote(v, p.View(), p)} == votes + Ballots(done + {v}, p)
  {
    assert Ballots(done + {v}, p) == Ballots(done, p) + {CastVote(v, p.View(), p)};
  }

  lemma EachFrom(c: Committee, rule: Rule, dropped: set<Guard>, run: seq<Network>, steps: seq<Step>, n: Network,
                 group: set<Node>, left: set<Node>, r: Replica, t: Step)
    returns (run': seq<Network>, steps': seq<Step>)
    requires left <= group && InState(c, n, group, r) && Local(c, rule, dropped, r, n.votes, t)
    requires RunTo(c, rule, dropped, run, steps, PutVotes(n, group - left, StepReplica(rule, r, t), t))
    ensures RunTo(c, rule, dropped, run', steps', PutVotes(n, group, StepReplica(rule, r, t), t))
    decreases left
  {
    if left == {} {
      assert group - left == group;
      run', steps' := run, steps;
    } else {
      var v :| v in left;
      var r', done := StepReplica(rule, r, t), group - left;
      var mid := PutVotes(n, done, r', t);
      SameAnywhere(c, rule, dropped, r, n.votes, mid.votes, t, v);
      run', steps' := One(c, rule, dropped, run, steps, mid, At(t, v));
      OneMore(rule, n, done, r', t, v);
      assert done + {v} == group - (left - {v});
      run', steps' := EachFrom(c, rule, dropped, run', steps', n, group, left - {v}, r, t);
    }
  }

  /** Every node of the group takes the same step. */
  lemma Each(c: Committee, rule: Rule, dropped: set<Guard>, run: seq<Network>, steps: seq<Step>, n: Network,
             group: set<Node>, r: Replica, t: Step)
    returns (run': seq<Network>, steps': seq<Step>)
    requires InState(c, n, group, r) && Local(c, rule, dropped, r, n.votes, t)
    requires RunTo(c, rule, dropped, run, steps, n)
    ensures RunTo(c, rule, dropped, run', steps', PutVotes(n, group, StepReplica(rule, r, t), t))
  {
    assert Put(n, {}, StepReplica(rule, r, t)).replicas == n.replicas;
    assert t.VoteCast? ==> n.votes + Ballots({}, t.leaf) == n.votes;
    assert group - group == {};
    run', steps' := EachFrom(c, rule, dropped, run, steps, n, group, group, r, t);
  }

  // ---- what one node does ----

  /** Genesis is in place and every entry is a leaf. */
  predicate Plain(s: Store)
  {
    && 0 in s.views && s.views[0] == LeafView(Genesis, true) && Genesis in s.leaves
    && forall v | v in s.views :: s.views[v].LeafView?
  }

  /** A leaf without a state delta can be saved at `v`. */
  predicate Free(s: Store, v: nat)
  {
    v in s.views && s.views[v].LeafView? ==> !s.views[v].delta
  }

  function Save(s: Store, l: Leaf): Store
  {
    Store(s.views[l.View() := LeafView(l, false)], s.leaves + {l})
  }

  /** Saving with a state delta, as a voter does. */
  function Mark(s: Store, l: Leaf): Store
  {
    Store(s.views[l.View() := LeafView(l, true)], s.leaves + {l})
  }

  lemma PlainSave(s: Store, l: Leaf)
    requires Plain(s) && l.View() > 0 && Free(s, l.View())
    ensures UpdateLeaf(s, l, false) == Save(s, l) && Plain(Save(s, l))
  {}

  lemma PlainMark(s: Store, l: Leaf)
    requires Plain(s) && l.View() > 0
    ensures UpdateLeaf(s, l, true) == Mark(s, l) && Plain(Mark(s, l))
  {}

  /** `l` is saved and is the entry of its view. */
  predicate Held(s: Store, l: Leaf)
  {
    l in s.leaves && l.View() in s.views && s.views[l.View()].LeafView? && s.views[l.View()].leaf == l
  }

  /** Nothing waits for the vote task, and nothing above the last vote has been accepted or voted for. */
  predicate Idle(r: Replica)
  {
    && Plain(r.store) && r.checking == {} && r.pending == {} && r.curView <= r.voted
    && (forall l | l in r.validated :: l.View() <= r.voted)
    && (forall v | v in r.store.views && v > r.voted :: Free(r.store, v))
  }

  function Accepted(r: Replica, p: Leaf): Replica
  {
    r.(store := Save(r.store, p), pending := r.pending + {p})
  }

  /** The proposal is saved and waits for its check. */
  function Saved(r: Replica, p: Leaf): Replica
  {
    r.(store := Save(r.store, p), checking := {p})
  }

  /** The node can save `p`, its parent being there, and accept it. */
  predicate Acceptable(c: Committee, rule: Rule, dropped: set<Guard>, r: Replica, votes: set<CastVote>, p: Leaf)
  {
    && p.Block? && p.view > 0 && p.view >= r.curView && Plain(r.store) && Free(r.store, p.view) && r.checking == {}
    && Checks(c, votes, p.justify) && (GenesisNamed in dropped || NamesGenesis(p.justify))
    && Stored(r.store, p.justify.leaf) && SafeOrLive(Save(r.store, p), p, r.locked)
    && (WalksFall in dropped || WalkFalls(Saved(r, p), p))
    && (Settled in dropped || IsSettled(rule, r, p))
    && (NotOvertaken in dropped || IsNotOvertaken(rule, r, p))
  }

  /** A group receives `p` and accepts it. */
  lemma Accept(c: Committee, rule: Rule, dropped: set<Guard>, run: seq<Network>, steps: seq<Step>, n: Network,
               group: set<Node>, r: Replica, p: Leaf)
    returns (run': seq<Network>, steps': seq<Step>)
    requires InState(c, n, group, r) && Acceptable(c, rule, dropped, r, n.votes, p)
    requires RunTo(c, rule, dropped, run, steps, n)
    ensures RunTo(c, rule, dropped, run', steps', Put(n, group, Accepted(r, p)))
  {
    PlainSave(r.store, p);
    var q := Saved(r, p);
    assert {} + {p} == {p};
    run', steps' := Each(c, rule, dropped, run, steps, n, group, r, ProposalReceived(0, p, ParentFound));
    assert {p} - {p} == {};
    run', steps' := Each(c, rule, dropped, run', steps', Put(n, group, q), group, q, ProposalChecked(0, p));
    PutAgain(n, group, q, Accepted(r, p));
  }

  /** The view change is handled and the store read. */
  function Prepared(r: Replica, p: Leaf): Replica
  {
    Accepted(r, p).(curView := p.View(), seen := Save(r.store, p))
  }

  /** The state of a node that has taken `p` up, with its lock at `lock`. */
  function Taken(r: Replica, p: Leaf, lock: nat): Replica
  {
    r.(pending := r.pending - {p}, validated := r.validated + {p}, locked := lock)
  }

  function Marked(r: Replica, p: Leaf): Replica
  {
    r.(voted := p.View(), store := Mark(r.store, p), marked := r.marked + {p})
  }

  function Voted(r: Replica, p: Leaf, lock: nat): Replica
  {
    Marked(Taken(Prepared(r, p), p, lock), p)
  }

  /** What a voter's state is after voting for `p`. */
  ghost predicate HasVoted(r: Replica, p: Leaf, r': Replica, lock: nat)
  {
    && Idle(r') && Held(r'.store, p) && r.store.leaves <= r'.store.leaves
    && (forall v | v in r.store.views && v != p.View() :: v in r'.store.views && r'.store.views[v] == r.store.views[v])
    && (forall l | Held(r.store, l) && l.View() != p.View() :: Held(r'.store, l))
    && r'.voted == p.View() && r'.locked == lock && r'.anchor == r.anchor
  }

  lemma VotedState(r: Replica, p: Leaf, lock: nat)
    requires Idle(r) && p.View() > r.voted
    ensures HasVoted(r, p, Voted(r, p, lock), lock)
  {
    PlainSave(r.store, p);
    PlainMark(Save(r.store, p), p);
    var r' := Voted(r, p, lock);
    assert r'.pending == {};
    assert r'.store.views == r.store.views[p.View() := LeafView(p, true)];
  }

  /** A group receives `p`, enters its view, takes it up and votes for it. */
  lemma Round(c: Committee, rule: Rule, dropped: set<Guard>, run: seq<Network>, steps: seq<Step>, n: Network,
              group: set<Node>, r: Replica, p: Leaf, fails: bool, lock: nat)
    returns (run': seq<Network>, steps': seq<Step>)
    requires InState(c, n, group, r) && Idle(r) && p.Block? && p.view > r.voted
    requires Acceptable(c, rule, dropped, r, n.votes, p)
    requires Local(c, rule, dropped, Prepared(r, p), n.votes, ProposalHandled(0, p, fails))
    requires TakeUp(rule, Prepared(r, p), p, fails) == Taken(Prepared(r, p), p, lock)
    requires RunTo(c, rule, dropped, run, steps, n)
    ensures RunTo(c, rule, dropped, run', steps', PutVotes(n, group, Voted(r, p, lock), VoteCast(0, p)))
    ensures HasVoted(r, p, Voted(r, p, lock), lock)
  {
    VotedState(r, p, lock);
    run', steps' := Prepare(c, rule, dropped, run, steps, n, group, r, p);
    var r' := Prepared(r, p);
    run', steps' := Each(c, rule, dropped, run', steps', Put(n, group, r'), group, r', ProposalHandled(0, p, fails));
    var taken := Taken(r', p, lock);
    PutAgain(n, group, r', taken);
    PlainSave(r.store, p);
    run', steps' := CastVotes(c, rule, dropped, run', steps', Put(n, group, taken), group, taken, p);
    PutAgain(n, group, taken, Voted(r, p, lock));
  }

  lemma CastVotes(c: Committee, rule: Rule, dropped: set<Guard>, run: seq<Network>, steps: seq<Step>, n: Network,
                  group: set<Node>, r: Replica, p: Leaf)
    returns (run': seq<Network>, steps': seq<Step>)
    requires InState(c, n, group, r) && Plain(r.store) && p in r.Votable() && p.View() > r.voted
    requires RunTo(c, rule, dropped, run, steps, n)
    ensures RunTo(c, rule, dropped, run', steps', PutVotes(n, group, Marked(r, p), VoteCast(0, p)))
  {
    PlainMark(r.store, p);
    var r1 := r.(store := Mark(r.store, p), marked := r.marked + {p});
    run', steps' := Each(c, rule, dropped, run, steps, n, group, r, LeafSaved(0, p, true));
    run', steps' := Each(c, rule, dropped, run', steps', Put(n, group, r1), group, r1, VoteCast(0, p));
    PutAgain(n, group, r1, Marked(r, p));
  }

  lemma Prepare(c: Committee, rule: Rule, dropped: set<Guard>, run: seq<Network>, steps: seq<Step>, n: Network,
                group: set<Node>, r: Replica, p: Leaf)
    returns (run': seq<Network>, steps': seq<Step>)
    requires InState(c, n, group, r) && Acceptable(c, rule, dropped, r, n.votes, p) && p.view > r.curView
    requires RunTo(c, rule, dropped, run, steps, n)
    ensures RunTo(c, rule, dropped, run', steps', Put(n, group, Prepared(r, p)))
  {
    var r1 := Accepted(r, p);
    run', steps' := Accept(c, rule, dropped, run, steps, n, group, r, p);
    run', steps' := Each(c, rule, dropped, run', steps', Put(n, group, r1), group, r1, ViewEntered(0, p.view));
    var r2 := r1.(curView := p.view);
    PutAgain(n, group, r1, r2);
    run', steps' := Each(c, rule, dropped, run', steps', Put(n, group, r2), group, r2, StoreRead(0));
    PutAgain(n, group, r2, Prepared(r, p));
  }

  lemma PutAgain(n: Network, group: set<Node>, r: Replica, r': Replica)
    ensures Put(Put(n, group, r), group, r') == Put(n, group, r')
  {}

  /** Enough ballots make a certificate. */
  lemma BallotsCertify(c: Committee, signers: set<Node>, voters: set<Node>, votes: set<CastVote>, p: Leaf)
    requires c.SuccessQuorum(signers) && (forall v | v in signers && c.Honest(v) :: v in voters)
    requires Ballots(voters, p) <= votes
    ensures Checks(c, votes, QC(p.View(), p, signers))
  {
    forall v | v in signers && c.Honest(v) ensures CastVote(v, p.View(), p) in votes {
      assert CastVote(v, p.View(), p) in Ballots(voters, p);
    }
  }

  lemma HeldWalkFalls(r: Replica, p: Leaf, l: Leaf)
    requires p.Block? && p.view > p.justify.view && Held(r.store, l) && l.View() == p.justify.view && Falls(l)
    ensures WalkFalls(Saved(r, p), p)
  {}

  /** Nothing accepted so far stands in the way of a proposal above it. */
  lemma IdleInOrder(rule: Rule, r: Replica, p: Leaf)
    requires Idle(r) && p.Block? && p.view > r.voted
    ensures IsSettled(rule, r, p) && IsNotOvertaken(rule, r, p) && Free(r.store, p.view)
  {}

  // ---- leaves in a row ----

  predicate Follows(l: Leaf, view: nat, parent: Leaf, signers: set<Node>)
  {
    l.Block? && l.view == view && l.justify == QC(parent.View(), parent, signers)
  }

  function Child(view: nat, parent: Leaf, signers: set<Node>): (l: Leaf)
    ensures Follows(l, view, parent, signers)
  {
    Block(view, QC(parent.View(), parent, signers), 0)
  }

  /** Some honest node delivered a leaf that lies on no common chain with one another delivered. */
  ghost predicate Disagrees(c: Committee, n: Network)
  {
    exists g: Node, h: Node, a: Leaf, b: Leaf ::
      && g in n.replicas && h in n.replicas && c.Honest(g) && c.Honest(h)
      && a in n.replicas[g].log && b in n.replicas[h].log && !Comparable(a, b)
  }

  // ---- one quorum and an observer ----

  /** Every voter is in state `r`, the observer `h` in state `o`. */
  function Net(voters: set<Node>, h: Node, r: Replica, o: Replica, votes: set<CastVote>): Network
  {
    Network(map n | n in voters + {h} :: if n == h then o else r, votes)
  }

  /** `voters` are the honest members of the quorum `signers`, and `h` is an honest node outside it. */
  predicate IsParty(c: Committee, signers: set<Node>, voters: set<Node>, h: Node)
  {
    && c.Sound() && c.SuccessQuorum(signers) && h !in signers && c.Honest(h)
    && voters == set n | n in signers && c.Honest(n)
  }

  lemma NetPut(voters: set<Node>, h: Node, r: Replica, o: Replica, votes: set<CastVote>, r': Replica)
    requires h !in voters
    ensures Put(Net(voters, h, r, o, votes), voters, r') == Net(voters, h, r', o, votes)
    ensures Put(Net(voters, h, r, o, votes), {h}, r') == Net(voters, h, r, r', votes)
  {}

  lemma EachVoter(c: Committee, rule: Rule, dropped: set<Guard>, run: seq<Network>, steps: seq<Step>,
                  voters: set<Node>, h: Node, r: Replica, o: Replica, votes: set<CastVote>, t: Step)
    returns (run': seq<Network>, steps': seq<Step>)
    requires h !in voters && (forall v | v in voters :: c.Honest(v)) && Local(c, rule, dropped, r, votes, t)
    requires RunTo(c, rule, dropped, run, steps, Net(voters, h, r, o, votes))
    ensures RunTo(c, rule, dropped, run', steps',
                  Net(voters, h, StepReplica(rule, r, t), o, if t.VoteCast? then votes + Ballots(voters, t.leaf) else votes))
  {
    run', steps' := Each(c, rule, dropped, run, steps, Net(voters, h, r, o, votes), voters, r, t);
    NetPut(voters, h, r, o, votes, StepReplica(rule, r, t));
  }

  /** The observer takes a step. */
  lemma Watch(c: Committee, rule: Rule, dropped: set<Guard>, run: seq<Network>, steps: seq<Step>,
              voters: set<Node>, h: Node, r: Replica, o: Replica, votes: set<CastVote>, t: Step)
    returns (run': seq<Network>, steps': seq<Step>)
    requires h !in voters && c.Honest(h) && Local(c, rule, dropped, o, votes, t) && !t.VoteCast?
    requires RunTo(c, rule, dropped, run, steps, Net(voters, h, r, o, votes))
    ensures RunTo(c, rule, dropped, run', steps', Net(voters, h, r, StepReplica(rule, o, t), votes))
  {
    run', steps' := Each(c, rule, dropped, run, steps, Net(voters, h, r, o, votes), {h}, o, t);
    NetPut(voters, h, r, o, votes, StepReplica(rule, o, t));
  }

  /** A node that has fetched `b` and its child. */
  function Fetched(b: Leaf, x: Leaf): Replica
  {
    GENESIS_REPLICA.(store := Save(Save(GENESIS_STORE, b), x))
  }

  lemma Fetch(c: Committee, rule: Rule, dropped: set<Guard>, run: seq<Network>, steps: seq<Step>,
              voters: set<Node>, h: Node, r: Replica, votes: set<CastVote>, b: Leaf, x: Leaf)
    returns (run': seq<Network>, steps': seq<Step>)
    requires h !in voters && c.Honest(h) && b.Block? && b.view > 0 && x.Block? && x.view > 0
    requires Checks(c, votes, b.justify) && Checks(c, votes, x.justify)
    requires RunTo(c, rule, dropped, run, steps, Net(voters, h, r, GENESIS_REPLICA, votes))
    ensures RunTo(c, rule, dropped, run', steps', Net(voters, h, r, Fetched(b, x), votes))
    ensures Idle(Fetched(b, x))
  {
    var g := GENESIS_REPLICA;
    assert Plain(g.store);
    PlainSave(g.store, b);
    run', steps' := Watch(c, rule, dropped, run, steps, voters, h, r, g, votes, LeafSaved(h, b, false));
    var o := g.(store := Save(g.store, b));
    PlainSave(o.store, x);
    run', steps' := Watch(c, rule, dropped, run', steps', voters, h, r, o, votes, LeafSaved(h, x, false));
  }

  // ---- three groups ----

  /** Three groups of honest nodes.  With the Byzantine ones, `low` and `both` make the quorum `first`,
      `both` and `cut` make `second`, and `low` and `cut` make `third`. */
  datatype Trio = Trio(low: set<Node>, both: set<Node>, cut: set<Node>, first: set<Node>, second: set<Node>, third: set<Node>)

  predicate HonestWithin(c: Committee, signers: set<Node>, group: set<Node>)
  {
    c.SuccessQuorum(signers) && forall v | v in signers && c.Honest(v) :: v in group
  }

  predicate IsTrio(c: Committee, t: Trio)
  {
    && c.Sound() && t.low !! t.both && t.low !! t.cut && t.both !! t.cut
    && (forall v | v in t.low + t.both + t.cut :: c.Honest(v))
    && HonestWithin(c, t.first, t.low + t.both)
    && HonestWithin(c, t.second, t.both + t.cut)
    && HonestWithin(c, t.third, t.low + t.cut)
  }

  function Net3(t: Trio, low: Replica, both: Replica, cut: Replica, votes: set<CastVote>): Network
  {
    Network(map v | v in t.low + t.both + t.cut :: if v in t.low then low else if v in t.both then both else cut, votes)
  }

  predicate Apart(t: Trio) { t.low !! t.both && t.low !! t.cut && t.both !! t.cut }

  lemma PutLow(t: Trio, low: Replica, both: Replica, cut: Replica, votes: set<CastVote>, r: Replica)
    requires Apart(t)
    ensures Put(Net3(t, low, both, cut, votes), t.low, r) == Net3(t, r, both, cut, votes)
    ensures low == both ==> Put(Net3(t, low, both, cut, votes), t.low + t.both, r) == Net3(t, r, r, cut, votes)
  {}

  lemma PutBoth(t: Trio, low: Replica, both: Replica, cut: Replica, votes: set<CastVote>, r: Replica)
    requires Apart(t)
    ensures Put(Net3(t, low, both, cut, votes), t.both, r) == Net3(t, low, r, cut, votes)
  {}

  lemma PutCut(t: Trio, low: Replica, both: Replica, cut: Replica, votes: set<CastVote>, r: Replica)
    requires Apart(t)
    ensures Put(Net3(t, low, both, cut, votes), t.cut, r) == Net3(t, low, both, r, votes)
  {}

  lemma Net3Put(t: Trio, low: Replica, both: Replica, cut: Replica, votes: set<CastVote>, r: Replica)
    requires t.low !! t.both && t.low !! t.cut && t.both !! t.cut
    ensures Put(Net3(t, low, both, cut, votes), t.low, r) == Net3(t, r, both, cut, votes)
    ensures Put(Net3(t, low, both, cut, votes), t.both, r) == Net3(t, low, r, cut, votes)
    ensures Put(Net3(t, low, both, cut, votes), t.cut, r) == Net3(t, low, both, r, votes)
    ensures low == both ==> Put(Net3(t, low, both, cut, votes), t.low + t.both, r) == Net3(t, r, r, cut, votes)
  {
    PutLow(t, low, both, cut, votes, r);
    PutBoth(t, low, both, cut, votes, r);
    PutCut(t, low, both, cut, votes, r);
  }

  /** Two groups that have delivered leaves on no common chain. */
  lemma GroupsDisagree(c: Committee, t: Trio, low: Replica, both: Replica, cut: Replica, votes: set<CastVote>, a: Leaf, b: Leaf)
    requires IsTrio(c, t) && a in low.log && b in both.log && !Comparable(a, b)
    ensures Disagrees(c, Net3(t, low, both, cut, votes))
  {
    var g := SuccessQuorumsShareHonest(c, t.first, t.third);
    var h := SuccessQuorumsShareHonest(c, t.first, t.second);
    var n := Net3(t, low, both, cut, votes);
    assert n.replicas[g] == low && n.replicas[h] == both;
  }
}
