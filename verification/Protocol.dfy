/** Agreement over every run of a network of replicas.

    Honest replicas take the steps of `Replicas`; Byzantine ones may propose any leaf and sign
    anything.  A certificate is valid when its signers form a success quorum and every honest
    signer really cast that vote.
 */
module Protocol {
  import opened Committees
  import opened Leaves
  import opened Decide
  import opened Replicas

  datatype CastVote = CastVote(node: Node, view: nat, leaf: Leaf)

  datatype Network = Network(replicas: map<Node, Replica>, votes: set<CastVote>)

  /** Every step is one use of the shared state; the code lets go of it in between.  `ProposalReceived`
      saves a proposal, whatever an earlier lookup `found` of its parent, and `ProposalChecked` applies
      the acceptance rule.  `ProposalHandled` is the vote task taking up an accepted proposal, some time after the receiving
      task accepted it and after `StoreRead`, its reading of the store; `fails` is an error before it
      reaches the decide rule.  A vote comes from a task of its own, which need not wait for the proposal
      to be taken up: it saves the leaf with its state delta (`LeafSaved`) and then votes (`VoteCast`).  `ViewEntered` is the
      handling of a view change, however long after the proposal that announced it. */
  datatype Step =
    | ProposalReceived(node: Node, leaf: Leaf, found: Lookup)
    | ProposalChecked(node: Node, leaf: Leaf)
    | StoreRead(node: Node)
    | ProposalHandled(node: Node, leaf: Leaf, fails: bool)
    | VoteCast(node: Node, leaf: Leaf)
    | TimeoutVoteCast(node: Node, view: nat)
    | ViewEntered(node: Node, view: nat)
    | LeafSaved(node: Node, leaf: Leaf, delta: bool)
    | DaSaved(node: Node, view: nat, payload: nat)

  // ---- what the code checks ----

  /** `is_valid_cert`: certificates of the genesis view are taken as they are. */
  predicate Checks(c: Committee, votes: set<CastVote>, qc: QC)
  {
    || qc.view == 0
    || (c.SuccessQuorum(qc.signers) &&
        forall n | n in qc.signers && c.Honest(n) :: CastVote(n, qc.view, qc.leaf) in votes)
  }

  predicate Possible(c: Committee, r: Replica, votes: set<CastVote>, step: Step)
  {
    match step
    case ProposalReceived(_, p, _) => p.Block? && Checks(c, votes, p.justify)
    case ProposalChecked(_, p) => p in r.checking && p.Block?
    case StoreRead(_) => true
    case ProposalHandled(_, p, _) => p in r.pending && p.Block?
    case VoteCast(_, p) => p in r.marked && p.View() > r.voted
    case TimeoutVoteCast(_, v) => v > r.voted
    case ViewEntered(_, v) => v > r.curView
    case LeafSaved(_, l, delta) => if delta then l in r.Votable() else l.Block? && Checks(c, votes, l.justify)
    case DaSaved(_, _, _) => true
  }

  // ---- what agreement needs beyond that ----

  /** The things the code does not check.  Agreement is proved for runs that meet all of them. */
  datatype Guard = GenesisNamed | WalksFall | Settled | NotOvertaken | EntryCertified | StoreClosed | NoLostLock

  /** A certificate of the genesis view names the genesis leaf. */
  predicate NamesGenesis(qc: QC)
  {
    qc.view == 0 ==> qc.leaf == Genesis
  }

  /** Views fall along the parents of whatever leaf the state map holds at the justify view. */
  predicate WalkFalls(r: Replica, p: Leaf)
    requires p.Block?
  {
    var start := StartAt(r.store, p.justify.view);
    start.Some? ==> Falls(start.value)
  }

  /** No proposal still waiting for the vote task will raise the lock above this one's justify view. */
  predicate IsSettled(rule: Rule, r: Replica, p: Leaf)
    requires p.Block?
  {
    forall q | q in r.pending && q.Block? && q.view < p.view :: LockOf(rule, q) <= p.justify.view
  }

  /** No proposal accepted earlier for a higher view is justified below the lock this one asks for. */
  predicate IsNotOvertaken(rule: Rule, r: Replica, p: Leaf)
    requires p.Block?
  {
    forall w | w in r.Votable() && w.Block? && w.view > p.view :: LockOf(rule, p) <= w.justify.view
  }

  /** The state map's entry at the justify view is the leaf the certificate names. */
  predicate EntryIsCertified(s: Store, qc: QC)
  {
    StartAt(s, qc.view) == Some(qc.leaf)
  }

  /** Guards on checking concern acceptance; the ones on handling concern the three-chain rule, which
      reads its lock and its decision from the store, and errors that lose a lock. */
  predicate Guarded(rule: Rule, dropped: set<Guard>, r: Replica, step: Step)
    requires step.ProposalReceived? || step.ProposalChecked? || step.ProposalHandled? ==> step.leaf.Block?
  {
    match step
    case ProposalReceived(_, p, _) => GenesisNamed in dropped || NamesGenesis(p.justify)
    case ProposalChecked(_, p) =>
      Accepts(r, p) ==>
        && (WalksFall in dropped || WalkFalls(r, p))
        && (Settled in dropped || IsSettled(rule, r, p))
        && (NotOvertaken in dropped || IsNotOvertaken(rule, r, p))
    case ProposalHandled(_, p, fails) =>
      if fails then NoLostLock in dropped || LockOf(rule, p) <= r.locked
      else rule.ThreeChainRule? ==>
             && (EntryCertified in dropped || EntryIsCertified(r.seen, p.justify))
             && (StoreClosed in dropped || Reaches(r.seen, p.justify.leaf, r.anchor.View()))
    case _ => true
  }

  // ---- runs ----

  predicate EnabledBut(c: Committee, rule: Rule, dropped: set<Guard>, n: Network, step: Step)
  {
    && step.node in n.replicas && c.Honest(step.node)
    && Possible(c, n.replicas[step.node], n.votes, step)
    && Guarded(rule, dropped, n.replicas[step.node], step)
  }

  predicate Enabled(c: Committee, rule: Rule, n: Network, step: Step)
  {
    EnabledBut(c, rule, {}, n, step)
  }

  function StepReplica(rule: Rule, r: Replica, step: Step): Replica
    requires step.ProposalReceived? || step.ProposalChecked? || step.ProposalHandled? ==> step.leaf.Block?
  {
    match step
    case ProposalReceived(_, p, found) => Receive(rule, r, p, found)
    case ProposalChecked(_, p) => Check(r, p)
    case ProposalHandled(_, p, fails) => TakeUp(rule, r, p, fails)
    case StoreRead(_) => r.(seen := r.store)
    case VoteCast(_, p) => r.(voted := p.View())
    case TimeoutVoteCast(_, v) => r.(voted := v)
    case ViewEntered(_, v) => r.(curView := v)
    case LeafSaved(_, l, delta) =>
      r.(store := UpdateLeaf(r.store, l, delta), marked := if delta then r.marked + {l} else r.marked)
    case DaSaved(_, v, payload) => r.(store := UpdateDaView(r.store, v, payload))
  }

  function Next(rule: Rule, n: Network, step: Step): Network
    requires step.node in n.replicas
    requires step.ProposalReceived? || step.ProposalChecked? || step.ProposalHandled? ==> step.leaf.Block?
  {
    Network(n.replicas[step.node := StepReplica(rule, n.replicas[step.node], step)],
            if step.VoteCast? then n.votes + {CastVote(step.node, step.leaf.View(), step.leaf)} else n.votes)
  }

  predicate Initial(n: Network)
  {
    n.votes == {} && forall h | h in n.replicas :: n.replicas[h] == GENESIS_REPLICA
  }

  /** `run` is a sequence of network states, each following from the one before by some step that
      meets every guard not in `dropped`. */
  predicate IsRunBut(c: Committee, rule: Rule, dropped: set<Guard>, run: seq<Network>, steps: seq<Step>)
  {
    && |run| == |steps| + 1
    && Initial(run[0])
    && forall i | 0 <= i < |steps| ::
         EnabledBut(c, rule, dropped, run[i], steps[i]) && run[i + 1] == Next(rule, run[i], steps[i])
  }

  predicate IsRun(c: Committee, rule: Rule, run: seq<Network>, steps: seq<Step>)
  {
    IsRunBut(c, rule, {}, run, steps)
  }

  // ---- the invariant ----

  predicate ValidQC(c: Committee, votes: set<CastVote>, qc: QC)
  {
    Checks(c, votes, qc) && NamesGenesis(qc)
  }

  /** The view a replica's lock has reached once it has processed `l`. */
  function LockOf(rule: Rule, l: Leaf): nat
    requires l.Block?
  {
    match rule
    case TwoChainRule => l.justify.view
    case ThreeChainRule =>
      var parent := l.justify.leaf;
      if parent.Block? && parent.view + 1 == l.view && parent.justify.leaf.View() + 1 == parent.view
      then parent.justify.leaf.View() else 0
  }

  /** A certificate for `l` commits `b`. */
  predicate Commits(rule: Rule, l: Leaf, b: Leaf)
  {
    l.Block? &&
    match rule
    case TwoChainRule => b == l.justify.leaf && b.View() + 1 == l.view
    case ThreeChainRule =>
      var parent := l.justify.leaf;
      parent.Block? && parent.view + 1 == l.view && b == parent.justify.leaf && b.View() + 1 == parent.view
  }

  predicate VotesOk(c: Committee, n: Network)
  {
    && (forall v | v in n.votes ::
          && v.node in n.replicas && c.Honest(v.node)
          && v.leaf.Block? && v.view == v.leaf.view > 0
          && v.leaf in n.replicas[v.node].Votable() && v.view <= n.replicas[v.node].voted
          && (v.leaf.justify.view > 0 && v.node in v.leaf.justify.signers ==> v.leaf.justify.view < v.view))
    && (forall v, w | v in n.votes && w in n.votes && v.node == w.node && v.view == w.view :: v == w)
  }

  /** Whatever is accepted is justified at or above the lock of everything accepted in lower views, and
      what may be voted for has left its lock behind. */
  predicate LocksOk(rule: Rule, c: Committee, votes: set<CastVote>, r: Replica)
  {
    && r.marked <= r.Votable()
    && (forall l | l in r.checking :: l.Block? && ValidQC(c, votes, l.justify))
    && (forall l | l in r.Votable() :: l.Block? && ValidQC(c, votes, l.justify))
    && (forall l | l in r.validated && l.Block? :: LockOf(rule, l) <= r.locked)
    && (forall p, w | p in r.Votable() && w in r.Votable() && p.View() < w.View() &&
                      p.Block? && w.Block? ::
          LockOf(rule, p) <= w.justify.view)
  }

  predicate Committed(rule: Rule, c: Committee, votes: set<CastVote>, b: Leaf, proof: QC)
  {
    b == Genesis || (ValidQC(c, votes, proof) && Commits(rule, proof.leaf, b))
  }

  predicate AnchorOk(rule: Rule, c: Committee, votes: set<CastVote>, r: Replica)
  {
    && r.store.Keyed() && r.seen.Keyed()
    && r.anchor.View() <= r.locked
    && Committed(rule, c, votes, r.anchor, r.proof)
  }

  predicate LogOk(r: Replica)
  {
    forall l | l in r.log :: Extends(r.anchor, l)
  }

  predicate Inv(c: Committee, rule: Rule, n: Network)
  {
    && VotesOk(c, n)
    && forall h | h in n.replicas ::
         && LocksOk(rule, c, n.votes, n.replicas[h])
         && AnchorOk(rule, c, n.votes, n.replicas[h])
         && LogOk(n.replicas[h])
  }

  // ---- what a certificate means in a state that satisfies the invariant ----

  lemma CertifiedLeaf(c: Committee, rule: Rule, n: Network, qc: QC)
    requires c.Sound() && Inv(c, rule, n) && ValidQC(c, n.votes, qc)
    ensures qc.leaf.View() == qc.view
    ensures qc.view > 0 ==>
              && qc.leaf.Block? && ValidQC(c, n.votes, qc.leaf.justify)
              && qc.leaf.justify.view < qc.view
  {
    if qc.view > 0 {
      var h := SuccessQuorumHasHonest(c, qc.signers);
      assert CastVote(h, qc.view, qc.leaf) in n.votes;
      var j := qc.leaf.justify;
      if j.view > 0 {
        var both := SuccessQuorumsShareHonest(c, qc.signers, j.signers);
        assert CastVote(both, qc.view, qc.leaf) in n.votes;
      }
    }
  }

  /** Views fall along the ancestors of a certified leaf, although nothing checks a proposal's
      justify view against its own. */
  lemma CertifiedFalls(c: Committee, rule: Rule, n: Network, qc: QC)
    requires c.Sound() && Inv(c, rule, n) && ValidQC(c, n.votes, qc)
    ensures Falls(qc.leaf)
    decreases qc.view
  {
    CertifiedLeaf(c, rule, n, qc);
    if qc.view > 0 {
      CertifiedLeaf(c, rule, n, qc.leaf.justify);
      CertifiedFalls(c, rule, n, qc.leaf.justify);
    }
  }

  lemma OneLeafPerView(c: Committee, rule: Rule, n: Network, q: QC, w: QC)
    requires c.Sound() && Inv(c, rule, n) && ValidQC(c, n.votes, q) && ValidQC(c, n.votes, w)
    requires q.view == w.view
    ensures q.leaf == w.leaf
  {
    if q.view > 0 {
      var h := SuccessQuorumsShareHonest(c, q.signers, w.signers);
      assert CastVote(h, q.view, q.leaf) in n.votes && CastVote(h, w.view, w.leaf) in n.votes;
    }
  }

  /** The certificates behind a commit: `b`'s own, and in the three-chain rule its child's. */
  lemma CommitChain(c: Committee, rule: Rule, n: Network, q: QC, b: Leaf)
    requires c.Sound() && Inv(c, rule, n) && ValidQC(c, n.votes, q) && Commits(rule, q.leaf, b)
    ensures q.view > 0 && LockOf(rule, q.leaf) == b.View()
    ensures rule.TwoChainRule? ==>
              q.leaf.justify.leaf == b && q.view == b.View() + 1 &&
              ValidQC(c, n.votes, q.leaf.justify) && q.leaf.justify.view == b.View()
    ensures rule.ThreeChainRule? ==>
              var mid := q.leaf.justify;
              mid.leaf.Block? && mid.leaf.justify.leaf == b && q.view == b.View() + 2 &&
              ValidQC(c, n.votes, mid) && mid.view == b.View() + 1 &&
              ValidQC(c, n.votes, mid.leaf.justify) && mid.leaf.justify.view == b.View()
  {
    CertifiedLeaf(c, rule, n, q);
    CertifiedLeaf(c, rule, n, q.leaf.justify);
    if rule.ThreeChainRule? {
      CertifiedLeaf(c, rule, n, q.leaf.justify.leaf.justify);
    }
  }

  /** Everything certified at or above a committed view extends the committed leaf. */
  lemma CertifiedExtendsCommitted(c: Committee, rule: Rule, n: Network, q: QC, b: Leaf, w: QC)
    requires c.Sound() && Inv(c, rule, n)
    requires ValidQC(c, n.votes, q) && Commits(rule, q.leaf, b)
    requires ValidQC(c, n.votes, w) && w.view >= b.View()
    ensures Extends(w.leaf, b)
    decreases w.view
  {
    CommitChain(c, rule, n, q, b);
    CertifiedLeaf(c, rule, n, q);
    CertifiedLeaf(c, rule, n, w);
    if w.view > q.view {
      var h := SuccessQuorumsShareHonest(c, q.signers, w.signers);
      assert CastVote(h, q.view, q.leaf) in n.votes && CastVote(h, w.view, w.leaf) in n.votes;
      assert LocksOk(rule, c, n.votes, n.replicas[h]);
      CertifiedExtendsCommitted(c, rule, n, q, b, w.leaf.justify);
    } else if w.view == q.view {
      OneLeafPerView(c, rule, n, q, w);
      assert rule.ThreeChainRule? ==> Extends(q.leaf.justify.leaf, b);
    } else if w.view == q.leaf.justify.view {
      OneLeafPerView(c, rule, n, q.leaf.justify, w);
    } else {
      OneLeafPerView(c, rule, n, q.leaf.justify.leaf.justify, w);
    }
  }

  /** Two committed leaves lie on one chain. */
  lemma CommittedComparable(c: Committee, rule: Rule, n: Network, a: Leaf, p: QC, b: Leaf, q: QC)
    requires c.Sound() && Inv(c, rule, n)
    requires Committed(rule, c, n.votes, a, p) && Committed(rule, c, n.votes, b, q)
    ensures a.View() <= b.View() ==> Extends(b, a)
    ensures Comparable(a, b) && Falls(a) && Falls(b)
  {
    ExtendsGenesis(a);
    ExtendsGenesis(b);
    CommittedCertified(c, rule, n, a, p);
    CommittedCertified(c, rule, n, b, q);
    if a != Genesis {
      if a.View() <= b.View() {
        var own := CertificateOf(rule, b, q);
        CertifiedExtendsCommitted(c, rule, n, p, a, own);
      } else if b != Genesis {
        var own := CertificateOf(rule, a, p);
        CertifiedExtendsCommitted(c, rule, n, q, b, own);
      }
    }
  }

  function CertificateOf(rule: Rule, b: Leaf, proof: QC): QC
    requires b == Genesis || Commits(rule, proof.leaf, b)
  {
    if b == Genesis then QC(0, Genesis, {})
    else match rule
      case TwoChainRule => proof.leaf.justify
      case ThreeChainRule => proof.leaf.justify.leaf.justify
  }

  lemma CommittedCertified(c: Committee, rule: Rule, n: Network, b: Leaf, proof: QC)
    requires c.Sound() && Inv(c, rule, n) && Committed(rule, c, n.votes, b, proof)
    ensures var own := CertificateOf(rule, b, proof);
            ValidQC(c, n.votes, own) && own.leaf == b && own.view == b.View() && Falls(b)
  {
    if b != Genesis {
      CommitChain(c, rule, n, proof, b);
      CertifiedFalls(c, rule, n, CertificateOf(rule, b, proof));
    }
  }
}
