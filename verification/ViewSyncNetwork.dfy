/** View synchronisation across the committee: no honest node is moved to a view without an honest
    cause. */
module ViewSyncNetwork {
  import opened Committees
  import opened Leaves
  import opened ViewSync

  datatype Cast = Cast(node: Node, kind: Phase, view: nat, relay: nat)

  /** A node with the timers its tasks have started.  An abort may come too late, so a started timer
      counts as able to fire from then on. */
  datatype Peer = Peer(main: Main, timers: set<Timer>)

  /** `causes` holds `(node, v)` when the node handled a timeout of view `v` as its second or later
      in a row; `moves` holds `(node, v)` when one of its replica tasks emitted a change to `v`. */
  datatype Network = Network(
    peers: map<Node, Peer>, votes: set<Cast>, causes: set<(Node, nat)>, moves: set<(Node, nat)>, panicked: bool)

  datatype Step =
    | Certified(node: Node, kind: Phase, view: nat, relay: nat, signers: set<Node>, signs: bool)
    | Fired(node: Node, timer: Timer, signs: bool)
    | TimedOut(node: Node, view: nat, leaderKnown: bool, signs: bool)
    | Entered(node: Node, view: nat)

  /** `is_valid_cert`: pre-commit needs the failure threshold, the later phases the success
      threshold; certificates of the genesis view are taken as they are. */
  predicate ValidCertificate(c: Committee, votes: set<Cast>, kind: Phase, view: nat, relay: nat, signers: set<Node>)
  {
    || view == 0
    || ((if kind.PreCommit? then c.FailureQuorum(signers) else c.SuccessQuorum(signers)) &&
        forall h | h in signers && c.Honest(h) :: Cast(h, kind, view, relay) in votes)
  }

  predicate Enabled(c: Committee, n: Network, step: Step)
  {
    && step.node in n.peers && c.Honest(step.node)
    && (step.Certified? ==> !step.kind.NoPhase?)
    && (step.Fired? ==> step.timer in n.peers[step.node].timers)
  }

  function EventOf(c: Committee, n: Network, step: Step): Event
  {
    match step
    case Certified(_, kind, view, relay, signers, signs) =>
      CertificateRecv(kind, view, relay, ValidCertificate(c, n.votes, kind, view, relay, signers), signs)
    case Fired(_, timer, signs) => TimerFired(timer, signs)
    case TimedOut(_, view, leaderKnown, signs) => Timeout(view, leaderKnown, signs)
    case Entered(_, view) => ViewChange(view)
  }

  function Next(c: Committee, n: Network, step: Step): Network
    requires Enabled(c, n, step)
  {
    var h := step.node;
    var peer := n.peers[h];
    var e := EventOf(c, n, step);
    var r := Handle(peer.main, e);
    Network(n.peers[h := Peer(r.main, peer.timers + set o | o in r.out && o.StartTimer? :: o.timer)],
            n.votes + set o | o in r.out && o.SendVote? :: Cast(h, o.kind, o.view, o.relay),
            n.causes + if StartsSync(peer.main, e) then {(h, e.view)} else {},
            n.moves + set o | o in r.out && o.ReplicaChange? :: (h, o.view),
            n.panicked || r.panics)
  }

  predicate Initial(n: Network)
  {
    && n.votes == {} && n.causes == {} && n.moves == {} && !n.panicked
    && forall h | h in n.peers ::
         n.peers[h].timers == {} && n.peers[h].main.lastGc == 0 && n.peers[h].main.replicas == map[]
  }

  predicate IsRun(c: Committee, run: seq<Network>, steps: seq<Step>)
  {
    && |run| == |steps| + 1
    && Initial(run[0])
    && forall i | 0 <= i < |steps| :: Enabled(c, run[i], steps[i]) && run[i + 1] == Next(c, run[i], steps[i])
  }

  /** Some honest node counted a second timeout in the view before `v`. */
  ghost predicate Caused(c: Committee, n: Network, v: nat)
  {
    v > 0 && exists h: Node :: c.Honest(h) && (h, v - 1) in n.causes
  }

  /** What holds whatever the Byzantine stake: no timer carries phase Finalize. */
  predicate TimersOk(n: Network)
  {
    && !n.panicked
    && (forall h | h in n.peers :: Tidy(n.peers[h].main))
    && (forall h, t | h in n.peers && t in n.peers[h].timers :: !t.phase.Finalize?)
  }

  ghost predicate Inv(c: Committee, n: Network)
  {
    && TimersOk(n)
    && (forall v | v in n.votes && v.view > 0 :: Caused(c, n, v.view))
    && (forall m | m in n.moves && m.1 > 0 :: Caused(c, n, m.1))
    && (forall h, t | h in n.peers && t in n.peers[h].timers && t.view > 0 :: Caused(c, n, t.view))
  }

  /** A valid certificate of any phase has an honest signer, whose vote had a cause. */
  lemma CertificateCaused(c: Committee, n: Network, kind: Phase, view: nat, relay: nat, signers: set<Node>)
    requires c.Sound() && Inv(c, n) && view > 0 && ValidCertificate(c, n.votes, kind, view, relay, signers)
    ensures Caused(c, n, view)
  {
    var h: Node;
    if kind.PreCommit? {
      h := FailureQuorumHasHonest(c, signers);
    } else {
      h := SuccessQuorumHasHonest(c, signers);
    }
    assert Cast(h, kind, view, relay) in n.votes;
  }

  /** Whatever a node's replica tasks emit is for the event's view, never starts a Finalize timer, and
      answers a valid certificate, a fired timer or a timeout that starts view sync. */
  lemma HandleTargets(m: Main, e: Event)
    requires Tidy(m) && (e.TimerFired? ==> !e.timer.phase.Finalize?)
    ensures var x := Handle(m, e);
            && !x.panics
            && (forall o | o in x.out && !o.MainChange? ::
                  && o.View() == Target(e)
                  && (o.StartTimer? ==> !o.timer.phase.Finalize?)
                  && (e.CertificateRecv? ==> e.valid)
                  && (e.CertificateRecv? || e.TimerFired? || StartsSync(m, e)))
  {}

  lemma StepKeepsTimers(c: Committee, n: Network, step: Step)
    requires TimersOk(n) && Enabled(c, n, step)
    ensures TimersOk(Next(c, n, step))
  {
    HandleTargets(n.peers[step.node].main, EventOf(c, n, step));
    HandleKeepsTidy(n.peers[step.node].main, EventOf(c, n, step));
  }

  lemma CausesGrow(c: Committee, n: Network, n': Network, v: nat)
    requires n.causes <= n'.causes && Caused(c, n, v)
    ensures Caused(c, n', v)
  {}

  /** Whatever an honest node's replica task emits has a cause once the step is done. */
  lemma OutputCaused(c: Committee, n: Network, step: Step, o: Out)
    requires c.Sound() && Inv(c, n) && Enabled(c, n, step)
    requires o in Handle(n.peers[step.node].main, EventOf(c, n, step)).out && !o.MainChange? && o.View() > 0
    ensures Caused(c, Next(c, n, step), o.View())
  {
    var n', h := Next(c, n, step), step.node;
    HandleTargets(n.peers[h].main, EventOf(c, n, step));
    if step.TimedOut? {
      assert (h, step.view) in n'.causes;
    } else {
      if step.Certified? {
        CertificateCaused(c, n, step.kind, step.view, step.relay, step.signers);
      }
      CausesGrow(c, n, n', o.View());
    }
  }

  lemma VotesCaused(c: Committee, n: Network, step: Step, v: Cast)
    requires c.Sound() && Inv(c, n) && Enabled(c, n, step) && v in Next(c, n, step).votes && v.view > 0
    ensures Caused(c, Next(c, n, step), v.view)
  {
    if v in n.votes {
      CausesGrow(c, n, Next(c, n, step), v.view);
    } else {
      var out := Handle(n.peers[step.node].main, EventOf(c, n, step)).out;
      var o :| o in out && o.SendVote? && v == Cast(step.node, o.kind, o.view, o.relay);
      OutputCaused(c, n, step, o);
    }
  }

  lemma MovesCaused(c: Committee, n: Network, step: Step, m: (Node, nat))
    requires c.Sound() && Inv(c, n) && Enabled(c, n, step) && m in Next(c, n, step).moves && m.1 > 0
    ensures Caused(c, Next(c, n, step), m.1)
  {
    if m in n.moves {
      CausesGrow(c, n, Next(c, n, step), m.1);
    } else {
      var out := Handle(n.peers[step.node].main, EventOf(c, n, step)).out;
      var o :| o in out && o.ReplicaChange? && m == (step.node, o.view);
      OutputCaused(c, n, step, o);
    }
  }

  lemma TimersCaused(c: Committee, n: Network, step: Step, h: Node, t: Timer)
    requires c.Sound() && Inv(c, n) && Enabled(c, n, step)
    requires h in n.peers && t in Next(c, n, step).peers[h].timers && t.view > 0
    ensures Caused(c, Next(c, n, step), t.view)
  {
    if t in n.peers[h].timers {
      CausesGrow(c, n, Next(c, n, step), t.view);
    } else {
      var out := Handle(n.peers[step.node].main, EventOf(c, n, step)).out;
      var o :| o in out && o.StartTimer? && o.timer == t;
      OutputCaused(c, n, step, o);
    }
  }

  lemma StepKeeps(c: Committee, n: Network, step: Step)
    requires c.Sound() && Inv(c, n) && Enabled(c, n, step)
    ensures Inv(c, Next(c, n, step))
  {
    var n' := Next(c, n, step);
    StepKeepsTimers(c, n, step);
    forall v | v in n'.votes && v.view > 0 ensures Caused(c, n', v.view) {
      VotesCaused(c, n, step, v);
    }
    forall m | m in n'.moves && m.1 > 0 ensures Caused(c, n', m.1) {
      MovesCaused(c, n, step, m);
    }
    forall h, t | h in n'.peers && t in n'.peers[h].timers && t.view > 0 ensures Caused(c, n', t.view) {
      TimersCaused(c, n, step, h, t);
    }
  }

  lemma {:induction false} RunKeeps(c: Committee, run: seq<Network>, steps: seq<Step>, i: nat)
    requires c.Sound() && IsRun(c, run, steps) && i < |run|
    ensures Inv(c, run[i])
  {
    if i > 0 {
      RunKeeps(c, run, steps, i - 1);
      StepKeeps(c, run[i - 1], steps[i - 1]);
    }
  }

  /** In every run, whenever an honest replica task emits a change to view `v > 0`, some honest node
      has by then handled a timeout of view `v - 1` with at least two timeouts counted. */
  lemma NoMoveWithoutHonestCause(c: Committee, run: seq<Network>, steps: seq<Step>, i: nat, h: Node, v: nat)
    requires c.Sound() && IsRun(c, run, steps) && i < |run| && v > 0
    requires (h, v) in run[i].moves
    ensures Caused(c, run[i], v)
  {
    RunKeeps(c, run, steps, i);
  }

  /** The `unimplemented!()` branch is never reached, even if every signature were Byzantine. */
  lemma {:induction false} NeverPanics(c: Committee, run: seq<Network>, steps: seq<Step>, i: nat)
    requires IsRun(c, run, steps) && i < |run|
    ensures TimersOk(run[i]) && !run[i].panicked
  {
    if i > 0 {
      NeverPanics(c, run, steps, i - 1);
      StepKeepsTimers(c, run[i - 1], steps[i - 1]);
    }
  }

  // ---- the phases in order ----

  /** The honest members of a quorum for `kind` all voted for it at this view and relay. */
  predicate SignedBy(c: Committee, votes: set<Cast>, kind: Phase, view: nat, relay: nat, signers: set<Node>)
  {
    && (if kind.PreCommit? then c.FailureQuorum(signers) else c.SuccessQuorum(signers))
    && forall h | h in signers && c.Honest(h) :: Cast(h, kind, view, relay) in votes
  }

  ghost predicate Backed(c: Committee, votes: set<Cast>, kind: Phase, view: nat, relay: nat)
  {
    exists signers :: SignedBy(c, votes, kind, view, relay, signers)
  }

  ghost predicate CommitBacked(c: Committee, votes: set<Cast>, view: nat)
  {
    exists relay: nat :: Backed(c, votes, Commit, view, relay)
  }

  /** Commit votes rest on a failure quorum of pre-commit votes for the same view and relay, finalize
      votes on a success quorum of commit votes, and view changes on some success quorum of commit
      votes. */
  ghost predicate InOrder(c: Committee, n: Network)
  {
    && (forall v | v in n.votes :: !v.kind.NoPhase?)
    && (forall v | v in n.votes && v.view > 0 && v.kind == Commit :: Backed(c, n.votes, PreCommit, v.view, v.relay))
    && (forall v | v in n.votes && v.view > 0 && v.kind == Finalize :: Backed(c, n.votes, Commit, v.view, v.relay))
    && (forall m | m in n.moves && m.1 > 0 :: CommitBacked(c, n.votes, m.1))
  }

  lemma BackedGrows(c: Committee, votes: set<Cast>, more: set<Cast>, kind: Phase, view: nat, relay: nat)
    requires votes <= more && Backed(c, votes, kind, view, relay)
    ensures Backed(c, more, kind, view, relay)
  {
    var signers :| SignedBy(c, votes, kind, view, relay, signers);
    assert SignedBy(c, more, kind, view, relay, signers);
  }

  lemma VoteInOrder(c: Committee, n: Network, step: Step, v: Cast)
    requires TimersOk(n) && InOrder(c, n) && Enabled(c, n, step) && v in Next(c, n, step).votes
    ensures var votes := Next(c, n, step).votes;
            && !v.kind.NoPhase?
            && (v.view > 0 && v.kind == Commit ==> Backed(c, votes, PreCommit, v.view, v.relay))
            && (v.view > 0 && v.kind == Finalize ==> Backed(c, votes, Commit, v.view, v.relay))
  {
    var n' := Next(c, n, step);
    if v in n.votes {
      if v.view > 0 && (v.kind == Commit || v.kind == Finalize) {
        BackedGrows(c, n.votes, n'.votes, if v.kind == Commit then PreCommit else Commit, v.view, v.relay);
      }
    } else {
      var main, e := n.peers[step.node].main, EventOf(c, n, step);
      var o :| o in Handle(main, e).out && o.SendVote? && v == Cast(step.node, o.kind, o.view, o.relay);
      AnsweredOnly(main, e, o);
      if v.view > 0 && v.kind != PreCommit {
        assert SignedBy(c, n'.votes, step.kind, v.view, v.relay, step.signers);
      }
    }
  }

  lemma MoveInOrder(c: Committee, n: Network, step: Step, m: (Node, nat))
    requires c.Sound() && TimersOk(n) && InOrder(c, n) && Enabled(c, n, step)
    requires m in Next(c, n, step).moves && m.1 > 0
    ensures CommitBacked(c, Next(c, n, step).votes, m.1)
  {
    var n' := Next(c, n, step);
    var relay: nat;
    if m in n.moves {
      relay :| Backed(c, n.votes, Commit, m.1, relay);
    } else {
      var main, e := n.peers[step.node].main, EventOf(c, n, step);
      var o :| o in Handle(main, e).out && o.ReplicaChange? && m == (step.node, o.view);
      AnsweredOnly(main, e, o);
      relay := step.relay;
      if step.kind == Commit {
        assert SignedBy(c, n.votes, Commit, m.1, relay, step.signers);
      } else {
        var h := SuccessQuorumHasHonest(c, step.signers);
        assert Cast(h, Finalize, m.1, relay) in n.votes;
      }
    }
    BackedGrows(c, n.votes, n'.votes, Commit, m.1, relay);
  }

  lemma StepKeepsOrder(c: Committee, n: Network, step: Step)
    requires c.Sound() && TimersOk(n) && InOrder(c, n) && Enabled(c, n, step)
    ensures InOrder(c, Next(c, n, step))
  {
    var n' := Next(c, n, step);
    forall v | v in n'.votes
      ensures !v.kind.NoPhase?
      ensures v.view > 0 && v.kind == Commit ==> Backed(c, n'.votes, PreCommit, v.view, v.relay)
      ensures v.view > 0 && v.kind == Finalize ==> Backed(c, n'.votes, Commit, v.view, v.relay)
    {
      VoteInOrder(c, n, step, v);
    }
    forall m | m in n'.moves && m.1 > 0 ensures CommitBacked(c, n'.votes, m.1) {
      MoveInOrder(c, n, step, m);
    }
  }

  /** In every run the phases come in order, and whoever is moved to a view is moved by a success quorum
      of commit votes for it. */
  lemma {:induction false} PhasesInOrder(c: Committee, run: seq<Network>, steps: seq<Step>, i: nat)
    requires c.Sound() && IsRun(c, run, steps) && i < |run|
    ensures InOrder(c, run[i])
  {
    if i > 0 {
      PhasesInOrder(c, run, steps, i - 1);
      NeverPanics(c, run, steps, i - 1);
      StepKeepsOrder(c, run[i - 1], steps[i - 1]);
    }
  }

  /** And every step that calls for a vote or a move makes it: a valid certificate the next phase's vote to
      its relay and, after pre-commit, the move; a timer of the relay in use the vote to the next relay; a
      second timeout the first vote. */
  lemma StepAnswers(c: Committee, run: seq<Network>, steps: seq<Step>, i: nat)
    requires IsRun(c, run, steps) && i < |steps| && !steps[i].Entered? && steps[i].signs
    ensures var n, n', step := run[i], run[i + 1], steps[i];
            var h, main := step.node, n.peers[step.node].main;
            match step {
              case Certified(_, kind, v, relay, signers, _) =>
                ValidCertificate(c, n.votes, kind, v, relay, signers) && main.curView <= v ==>
                  && (kind == PreCommit ==> Cast(h, Commit, v, relay) in n'.votes)
                  && (kind == Commit ==> Cast(h, Finalize, v, relay) in n'.votes)
                  && (kind != PreCommit ==> (h, v) in n'.moves)
              case Fired(_, t, _) =>
                main.curView <= t.view && t.relay == RelayOf(main, t.view) ==>
                  Cast(h, PreCommit, t.view, t.relay + 1) in n'.votes
              case TimedOut(_, v, leaderKnown, _) =>
                main.curView <= v && leaderKnown && main.timeouts > 0 ==> Cast(h, PreCommit, v + 1, 0) in n'.votes
              case Entered(_, _) => true
            }
  {
    NeverPanics(c, run, steps, i);
    var n, step := run[i], steps[i];
    var main := n.peers[step.node].main;
    match step {
      case Certified(_, kind, v, relay, signers, _) =>
        if ValidCertificate(c, n.votes, kind, v, relay, signers) && main.curView <= v {
          CertificateAnswered(main, kind, v, relay);
        }
      case Fired(_, t, _) =>
        if main.curView <= t.view && t.relay == RelayOf(main, t.view) {
          TimerAnswered(main, t);
        }
      case TimedOut(_, v, leaderKnown, _) =>
        if main.curView <= v && leaderKnown {
          TimeoutAnswered(main, v);
        }
      case Entered(_, _) =>
    }
  }
}
