/** Gating of outgoing votes and proposals, and its recovery after a crash.

    A vote or proposal leaves the node in three steps of its own task: claim the view in memory
    (`update_action`), record it in storage (`record_action`), transmit.  Tasks interleave freely and
    a crash may fall between any two steps.
 */
module Transmit {
  import opened Leaves

  datatype Action =
    | Vote | ViewSyncVote | Propose | DaPropose | DaVote | DaCert | VidDisperse | UpgradeVote | UpgradePropose

  /** The messages a node puts on the wire, as far as gating tells them apart. */
  datatype Message =
    | QuorumProposal(view: nat, body: nat)
    | QuorumVote(view: nat, leaf: Leaf)
    | ExtendedQuorumVote(view: nat, leaf: Leaf)
    | TimeoutVote(view: nat)
    | DaProposal(view: nat) | DaVoteMessage(view: nat) | Dac(view: nat)
    | ViewSyncPreCommitVote(view: nat, relay: nat)
    | ViewSyncCommitVote(view: nat, relay: nat)
    | ViewSyncFinalizeVote(view: nat, relay: nat)
    | Ungated(view: nat)

  /** The action `parse_event` attaches.  Quorum, extended and timeout votes share one action. */
  function ActionOf(m: Message): Option<Action>
  {
    match m
    case QuorumProposal(_, _) => Some(Propose)
    case QuorumVote(_, _) | ExtendedQuorumVote(_, _) | TimeoutVote(_) => Some(Vote)
    case DaProposal(_) => Some(DaPropose)
    case DaVoteMessage(_) => Some(DaVote)
    case Dac(_) => Some(DaCert)
    case ViewSyncCommitVote(_, _) | ViewSyncFinalizeVote(_, _) => Some(ViewSyncVote)
    case ViewSyncPreCommitVote(_, _) | Ungated(_) => None
  }

  /** The messages of which a node may send one per view. */
  predicate IsProposal(m: Message) { m.QuorumProposal? }

  predicate IsVote(m: Message) { m.QuorumVote? || m.ExtendedQuorumVote? || m.TimeoutVote? }

  /** `HotShotActionViews`. */
  datatype ActionViews = ActionViews(proposed: nat, voted: nat, daProposed: nat, daVote: nat)

  function FromView(v: nat): ActionViews { ActionViews(v, v, v, v) }

  /** `update_action`: the new views, and whether the action may go ahead. */
  function UpdateAction(a: ActionViews, action: Action, v: nat): (ActionViews, bool)
  {
    match action
    case Vote => if v > a.voted then (a.(voted := v), true) else (a, false)
    case Propose => if v > a.proposed then (a.(proposed := v), true) else (a, false)
    case DaPropose => if v > a.daProposed then (a.(daProposed := v), true) else (a, false)
    case DaVote => (if v > a.daVote then a.(daVote := v) else a, true)
    case _ => (a, true)
  }

  /** What `TestStorage` keeps across a crash. */
  datatype Disk = Disk(action: nat, epoch: Option<nat>)

  predicate Later(a: Option<nat>, b: Option<nat>)
  {
    a.Some? && (b.None? || a.value > b.value)
  }

  /** `record_action` when storage does not fail: only votes and proposals move the mark, which
      keeps the maximum. */
  function RecordAction(d: Disk, v: nat, epoch: Option<nat>, action: Action): Disk
  {
    if action.Vote? || action.Propose? then
      Disk(if v > d.action then v else d.action, if Later(epoch, d.epoch) then epoch else d.epoch)
    else d
  }

  /** View sync votes are recorded as votes, but not limited to one per view. */
  function Recorded(action: Action): Action
  {
    if action.ViewSyncVote? then Vote else action
  }

  class Storage {
    var action: nat
    var epoch: Option<nat>
    var shouldReturnErr: bool

    constructor ()
      ensures action == 0 && epoch == None && !shouldReturnErr
    {
      action, epoch, shouldReturnErr := 0, None, false;
    }

    method RecordActionInPlace(v: nat, e: Option<nat>, act: Action) returns (ok: bool)
      modifies this`action, this`epoch
      ensures ok == !shouldReturnErr
      ensures Disk(action, epoch) ==
              if ok then RecordAction(old(Disk(action, epoch)), v, e, act) else old(Disk(action, epoch))
    {
      if shouldReturnErr {
        return false;
      }
      if act.Vote? || act.Propose? {
        if v > action {
          action := v;
        }
        if Later(e, epoch) {
          epoch := e;
        }
      }
      return true;
    }
  }

  class Actions {
    var proposed: nat
    var voted: nat
    var daProposed: nat
    var daVote: nat

    constructor (v: nat)
      ensures State() == FromView(v)
    {
      proposed, voted, daProposed, daVote := v, v, v, v;
    }

    function State(): ActionViews
      reads this
    {
      ActionViews(proposed, voted, daProposed, daVote)
    }

    method UpdateActionInPlace(act: Action, v: nat) returns (ok: bool)
      modifies this
      ensures (State(), ok) == UpdateAction(old(State()), act, v)
    {
      match act {
        case Vote =>
          ok := v > voted;
          if ok { voted := v; }
        case Propose =>
          ok := v > proposed;
          if ok { proposed := v; }
        case DaPropose =>
          ok := v > daProposed;
          if ok { daProposed := v; }
        case DaVote =>
          if v > daVote { daVote := v; }
          ok := true;
        case _ => ok := true;
      }
    }
  }

  /** `maybe_record_action`: memory first, then storage; transmitting needs both. */
  method MaybeRecordAction(act: Option<Action>, storage: Storage, actions: Actions, v: nat, epoch: Option<nat>)
    returns (ok: bool)
    modifies storage, actions
    ensures act.None? ==>
              ok && actions.State() == old(actions.State()) &&
              storage.action == old(storage.action) && storage.epoch == old(storage.epoch)
    ensures act.Some? ==>
              var (views, claimed) := UpdateAction(old(actions.State()), act.value, v);
              && actions.State() == views
              && ok == (claimed && !old(storage.shouldReturnErr))
              && Disk(storage.action, storage.epoch) ==
                   if ok then RecordAction(old(Disk(storage.action, storage.epoch)), v, epoch, Recorded(act.value))
                   else old(Disk(storage.action, storage.epoch))
    ensures storage.shouldReturnErr == old(storage.shouldReturnErr)
  {
    if act.None? {
      return true;
    }
    ok := actions.UpdateActionInPlace(act.value, v);
    if ok {
      ok := storage.RecordActionInPlace(v, epoch, Recorded(act.value));
    }
  }

  // ---- the node as a machine over the steps of its transmit tasks ----

  datatype Stage = Spawned | Claimed | Stored

  /** `ticket` numbers the granted claims of the node in the order they were granted. */
  datatype Task = Task(message: Message, epoch: Option<nat>, stage: Stage, ticket: nat)

  /** `sent` is what has gone out, over all lives of the node, and `order` the tickets it went out
      under; `tickets` have been handed out so far. */
  datatype NodeState = NodeState(
    up: bool, views: ActionViews, disk: Disk, tasks: map<nat, Task>, sent: seq<Message>, order: seq<nat>, tickets: nat)

  datatype Step =
    | Spawn(id: nat, message: Message, epoch: Option<nat>)
    | Claim(id: nat)
    | Record(id: nat, fails: bool)
    | Send(id: nat)
    | Abort(id: nat)
    | Crash
    | Restart

  const FRESH := NodeState(true, FromView(0), Disk(0, None), map[], [], [], 0)

  predicate Enabled(s: NodeState, step: Step)
  {
    match step
    case Spawn(id, _, _) => s.up && id !in s.tasks
    case Claim(id) => s.up && id in s.tasks && s.tasks[id].stage.Spawned?
    case Record(id, _) => s.up && id in s.tasks && s.tasks[id].stage.Claimed?
    case Send(id) => s.up && id in s.tasks && s.tasks[id].stage.Stored?
    case Abort(id) => s.up && id in s.tasks
    case Crash => s.up
    case Restart => !s.up
  }

  predicate Claims(t: Task, a: Action)
  {
    !t.stage.Spawned? && ActionOf(t.message) == Some(a)
  }

  function LastView(a: ActionViews, act: Action): nat
    requires act.Vote? || act.Propose?
  {
    if act.Vote? then a.voted else a.proposed
  }

  /** A task whose action is refused ends there. */
  function ClaimTask(s: NodeState, id: nat): (r: NodeState)
    requires Enabled(s, Claim(id))
    ensures r.up && r.sent == s.sent && r.order == s.order && r.disk == s.disk
    ensures if id in r.tasks
            then r.tasks == s.tasks[id := s.tasks[id].(stage := Claimed, ticket := s.tickets)] && r.tickets == s.tickets + 1
            else r.tasks == s.tasks - {id} && r.tickets == s.tickets
    ensures forall a: Action | a.Vote? || a.Propose? ::
              LastView(r.views, a) == if ActionOf(s.tasks[id].message) == Some(a) && id in r.tasks
                                      then s.tasks[id].message.view else LastView(s.views, a)
    ensures forall a: Action | (a.Vote? || a.Propose?) && ActionOf(s.tasks[id].message) == Some(a) ::
              id in r.tasks <==> s.tasks[id].message.view > LastView(s.views, a)
  {
    var t := s.tasks[id];
    var granted := s.(tasks := s.tasks[id := t.(stage := Claimed, ticket := s.tickets)], tickets := s.tickets + 1);
    match ActionOf(t.message)
    case None => granted
    case Some(a) =>
      var (views, ok) := UpdateAction(s.views, a, t.message.view);
      if ok then granted.(views := views) else s.(views := views, tasks := s.tasks - {id})
  }

  function Next(s: NodeState, step: Step): NodeState
    requires Enabled(s, step)
  {
    match step
    case Spawn(id, m, e) => s.(tasks := s.tasks[id := Task(m, e, Spawned, 0)])
    case Claim(id) => ClaimTask(s, id)
    case Record(id, fails) =>
      var t := s.tasks[id];
      if ActionOf(t.message).Some? && fails then s.(tasks := s.tasks - {id})
      else if ActionOf(t.message).Some? then
        s.(disk := RecordAction(s.disk, t.message.view, t.epoch, Recorded(ActionOf(t.message).value)),
           tasks := s.tasks[id := t.(stage := Stored)])
      else s.(tasks := s.tasks[id := t.(stage := Stored)])
    case Send(id) =>
      s.(tasks := s.tasks - {id}, sent := s.sent + [s.tasks[id].message], order := s.order + [s.tasks[id].ticket])
    case Abort(id) => s.(tasks := s.tasks - {id})
    case Crash => s.(up := false, tasks := map[])
    case Restart => s.(up := true, views := FromView(s.disk.action))   // `HotShotInitializer::load`
  }

  predicate IsRun(run: seq<NodeState>, steps: seq<Step>)
  {
    && |run| == |steps| + 1
    && run[0] == FRESH
    && forall i | 0 <= i < |steps| :: Enabled(run[i], steps[i]) && run[i + 1] == Next(run[i], steps[i])
  }

  // ---- at most one vote and one proposal per view ----

  /** Nothing of kind `a` is sent twice for a view. */
  predicate OncePerView(sent: seq<Message>, a: Action)
  {
    forall i, j | 0 <= i < j < |sent| && ActionOf(sent[i]) == ActionOf(sent[j]) == Some(a) ::
      sent[i].view != sent[j].view
  }

  predicate Covered(s: NodeState, a: Action)
    requires a.Vote? || a.Propose?
  {
    && (forall m | m in s.sent && ActionOf(m) == Some(a) ::
          m.view <= s.disk.action && (s.up ==> m.view <= LastView(s.views, a)))
    && (forall i | i in s.tasks && Claims(s.tasks[i], a) ::
          && s.up
          && s.tasks[i].message.view <= LastView(s.views, a)
          && (s.tasks[i].stage.Stored? ==> s.tasks[i].message.view <= s.disk.action))
  }

  predicate Distinct(s: NodeState, a: Action)
  {
    && OncePerView(s.sent, a)
    && (forall i, j | i in s.tasks && j in s.tasks && i != j && Claims(s.tasks[i], a) && Claims(s.tasks[j], a) ::
          s.tasks[i].message.view != s.tasks[j].message.view)
    && (forall i, m | i in s.tasks && m in s.sent && Claims(s.tasks[i], a) && ActionOf(m) == Some(a) ::
          s.tasks[i].message.view != m.view)
  }

  predicate Inv(s: NodeState, a: Action)
    requires a.Vote? || a.Propose?
  {
    Covered(s, a) && Distinct(s, a)
  }

  /** Steps that send nothing and claim nothing new: every claim still in flight was in flight
      before, and neither the mark nor the node's memory of its views fell below what was sent. */
  lemma QuietKeeps(s: NodeState, s': NodeState, a: Action)
    requires (a.Vote? || a.Propose?) && Inv(s, a)
    requires s'.sent == s.sent && s.disk.action <= s'.disk.action
    requires s'.up ==> LastView(s'.views, a) >= if s.up then LastView(s.views, a) else s.disk.action
    requires forall i | i in s'.tasks && Claims(s'.tasks[i], a) ::
               && s'.up && s.up && i in s.tasks && Claims(s.tasks[i], a)
               && s'.tasks[i].message == s.tasks[i].message
               && (s'.tasks[i].stage.Stored? ==> s'.tasks[i].message.view <= s'.disk.action)
    ensures Inv(s', a)
  {}

  /** A granted claim is above every view claimed or sent before. */
  lemma ClaimKeeps(s: NodeState, id: nat, a: Action)
    requires (a.Vote? || a.Propose?) && Inv(s, a) && Enabled(s, Claim(id))
    ensures Inv(ClaimTask(s, id), a)
  {
    var s', t := ClaimTask(s, id), s.tasks[id];
    if ActionOf(t.message) == Some(a) && id in s'.tasks {
      assert Covered(s', a);
      forall i | i in s'.tasks && i != id && Claims(s'.tasks[i], a)
        ensures s'.tasks[i].message.view < t.message.view
      {
        assert s'.tasks[i] == s.tasks[i];
      }
    } else {
      QuietKeeps(s, s', a);
    }
  }

  lemma SendKeeps(s: NodeState, id: nat, a: Action)
    requires (a.Vote? || a.Propose?) && Inv(s, a) && Enabled(s, Send(id))
    ensures Inv(Next(s, Send(id)), a)
  {}

  lemma StepKeeps(s: NodeState, step: Step, a: Action)
    requires (a.Vote? || a.Propose?) && Inv(s, a) && Enabled(s, step)
    ensures Inv(Next(s, step), a)
  {
    match step {
      case Claim(id) => ClaimKeeps(s, id, a);
      case Send(id) => SendKeeps(s, id, a);
      case _ => QuietKeeps(s, Next(s, step), a);
    }
  }

  lemma {:induction false} RunKeeps(run: seq<NodeState>, steps: seq<Step>, i: nat, a: Action)
    requires (a.Vote? || a.Propose?) && IsRun(run, steps) && i < |run|
    ensures Inv(run[i], a)
  {
    if i > 0 {
      RunKeeps(run, steps, i - 1, a);
      StepKeeps(run[i - 1], steps[i - 1], a);
    }
  }

  /** No view is voted or proposed twice, however often the node crashes and restarts, and the mark
      a restart restores covers everything that was sent. */
  lemma NoDoubleSendAcrossCrashes(run: seq<NodeState>, steps: seq<Step>, i: nat)
    requires IsRun(run, steps) && i < |run|
    ensures forall j, k | 0 <= j < k < |run[i].sent| && IsProposal(run[i].sent[j]) && IsProposal(run[i].sent[k]) ::
              run[i].sent[j].view != run[i].sent[k].view
    ensures forall j, k | 0 <= j < k < |run[i].sent| && IsVote(run[i].sent[j]) && IsVote(run[i].sent[k]) ::
              run[i].sent[j].view != run[i].sent[k].view
    ensures forall m | m in run[i].sent && (IsVote(m) || IsProposal(m)) :: m.view <= run[i].disk.action
  {
    RunKeeps(run, steps, i, Vote);
    RunKeeps(run, steps, i, Propose);
  }

  /** What a claim is granted on: proposals, votes and DA proposals only above the last view of their
      kind in this life of the node, everything else always; and what it leaves as those last views. */
  lemma ClaimGranted(s: NodeState, id: nat)
    requires Enabled(s, Claim(id))
    ensures var s', m := ClaimTask(s, id), s.tasks[id].message;
            var granted := id in s'.tasks;
            && (granted <==> && (IsProposal(m) ==> m.view > s.views.proposed)
                             && (IsVote(m) ==> m.view > s.views.voted)
                             && (m.DaProposal? ==> m.view > s.views.daProposed))
            && s'.views.proposed == (if granted && IsProposal(m) then m.view else s.views.proposed)
            && s'.views.voted == (if granted && IsVote(m) then m.view else s.views.voted)
            && s'.views.daProposed == (if granted && m.DaProposal? then m.view else s.views.daProposed)
            && s'.views.daVote == (if m.DaVoteMessage? && m.view > s.views.daVote then m.view else s.views.daVote)
  {}

  /** The messages whose view is recorded: votes, proposals and the later two view sync votes. */
  predicate IsMarked(m: Message)
  {
    IsVote(m) || IsProposal(m) || m.ViewSyncCommitVote? || m.ViewSyncFinalizeVote?
  }

  /** Step `k` recorded this message in storage. */
  predicate Records(s: NodeState, step: Step, m: Message)
  {
    step.Record? && !step.fails && step.id in s.tasks && s.tasks[step.id].message == m && IsMarked(m)
  }

  lemma RecordMarks(s: NodeState, step: Step)
    requires Enabled(s, step)
    ensures var d, d' := s.disk.action, Next(s, step).disk.action;
            && d <= d'
            && (forall m | Records(s, step, m) :: d' == if m.view > d then m.view else d)
            && (d' != d ==> exists m :: Records(s, step, m))
  {
    if Next(s, step).disk.action != s.disk.action {
      assert Records(s, step, s.tasks[step.id].message);
    }
  }

  /** The mark a restart restores is exactly the highest view recorded over all lives of the node. */
  lemma {:induction false} MarkIsHighestRecorded(run: seq<NodeState>, steps: seq<Step>, i: nat)
    requires IsRun(run, steps) && i < |run|
    ensures forall k, m | 0 <= k < i && Records(run[k], steps[k], m) :: m.view <= run[i].disk.action
    ensures run[i].disk.action == 0 ||
            exists k, m :: 0 <= k < i && Records(run[k], steps[k], m) && m.view == run[i].disk.action
  {
    if i > 0 {
      MarkIsHighestRecorded(run, steps, i - 1);
      RecordMarks(run[i - 1], steps[i - 1]);
    }
  }

  lemma RecordMarksEpoch(s: NodeState, step: Step)
    requires Enabled(s, step)
    ensures var e, e' := s.disk.epoch, Next(s, step).disk.epoch;
            && !Later(e, e')
            && (forall m | Records(s, step, m) :: e' == if Later(s.tasks[step.id].epoch, e) then s.tasks[step.id].epoch else e)
            && (e' != e ==> exists m :: Records(s, step, m))
  {
    if Next(s, step).disk.epoch != s.disk.epoch {
      assert Records(s, step, s.tasks[step.id].message);
    }
  }

  /** And the epoch beside it the highest epoch recorded. */
  lemma {:induction false} EpochIsHighestRecorded(run: seq<NodeState>, steps: seq<Step>, i: nat)
    requires IsRun(run, steps) && i < |run|
    ensures forall k, m | 0 <= k < i && Records(run[k], steps[k], m) :: !Later(run[k].tasks[steps[k].id].epoch, run[i].disk.epoch)
    ensures run[i].disk.epoch == None ||
            exists k, m :: 0 <= k < i && Records(run[k], steps[k], m) && run[k].tasks[steps[k].id].epoch == run[i].disk.epoch
  {
    if i > 0 {
      EpochIsHighestRecorded(run, steps, i - 1);
      RecordMarksEpoch(run[i - 1], steps[i - 1]);
    }
  }

  /** A crash loses the tasks and nothing that was sent or recorded; a restart takes every last view
      from the mark. */
  lemma RestartRestoresMark(s: NodeState, v: nat)
    requires Enabled(s, Crash)
    ensures var down := Next(s, Crash);
            var up := Next(down, Restart);
            && down.tasks == map[] && down.sent == s.sent && down.disk == s.disk
            && up.sent == s.sent && up.disk == s.disk && up.tasks == map[]
            && (v > s.disk.action <==> v > up.views.voted) && (v > s.disk.action <==> v > up.views.proposed)
  {}

  // ---- the order in which votes go out ----

  predicate Rising(sent: seq<Message>)
  {
    forall i, j | 0 <= i < j < |sent| && IsVote(sent[i]) && IsVote(sent[j]) :: sent[i].view < sent[j].view
  }

  /** Votes went out in the order in which they were claimed. */
  predicate SentAsClaimed(s: NodeState)
    requires |s.order| == |s.sent|
  {
    forall i, j | 0 <= i < j < |s.sent| && IsVote(s.sent[i]) && IsVote(s.sent[j]) :: s.order[i] < s.order[j]
  }

  predicate SameOrder(t: nat, v: nat, t': nat, v': nat)
  {
    (t < t' <==> v < v') && (t' < t <==> v' < v)
  }

  /** Among the votes sent and in flight, ticket order is view order. */
  predicate Ordered(s: NodeState)
  {
    && |s.order| == |s.sent|
    && (forall i | 0 <= i < |s.sent| && ActionOf(s.sent[i]) == Some(Vote) :: s.order[i] < s.tickets)
    && (forall k | k in s.tasks && Claims(s.tasks[k], Vote) :: s.tasks[k].ticket < s.tickets)
    && (forall i, j | 0 <= i < j < |s.sent| && ActionOf(s.sent[i]) == ActionOf(s.sent[j]) == Some(Vote) ::
          SameOrder(s.order[i], s.sent[i].view, s.order[j], s.sent[j].view))
    && (forall i, k | 0 <= i < |s.sent| && k in s.tasks && ActionOf(s.sent[i]) == Some(Vote) && Claims(s.tasks[k], Vote) ::
          SameOrder(s.order[i], s.sent[i].view, s.tasks[k].ticket, s.tasks[k].message.view))
    && (forall k, l | k in s.tasks && l in s.tasks && k != l && Claims(s.tasks[k], Vote) && Claims(s.tasks[l], Vote) ::
          SameOrder(s.tasks[k].ticket, s.tasks[k].message.view, s.tasks[l].ticket, s.tasks[l].message.view))
  }

  /** A granted vote claim lies above every vote sent or in flight. */
  lemma ClaimIsAbove(s: NodeState, id: nat)
    requires Inv(s, Vote) && Enabled(s, Claim(id)) && id in ClaimTask(s, id).tasks
    requires ActionOf(s.tasks[id].message) == Some(Vote)
    ensures forall i | 0 <= i < |s.sent| && ActionOf(s.sent[i]) == Some(Vote) :: s.sent[i].view < s.tasks[id].message.view
    ensures forall k | k in s.tasks && Claims(s.tasks[k], Vote) :: s.tasks[k].message.view < s.tasks[id].message.view
  {
    assert forall i | 0 <= i < |s.sent| :: s.sent[i] in s.sent;
  }

  lemma NewTicketKeepsOrder(s: NodeState, s': NodeState, id: nat, t: Task)
    requires Ordered(s) && s'.sent == s.sent && s'.order == s.order && s'.tickets == s.tickets + 1
    requires s'.tasks == s.tasks[id := t] && t.ticket == s.tickets
    requires forall i | 0 <= i < |s.sent| && ActionOf(s.sent[i]) == Some(Vote) :: s.sent[i].view < t.message.view
    requires forall k | k in s.tasks && Claims(s.tasks[k], Vote) :: s.tasks[k].message.view < t.message.view
    ensures Ordered(s')
  {}

  lemma ClaimKeepsOrder(s: NodeState, id: nat)
    requires Inv(s, Vote) && Ordered(s) && Enabled(s, Claim(id))
    ensures Ordered(ClaimTask(s, id))
  {
    var s' := ClaimTask(s, id);
    if id in s'.tasks && ActionOf(s.tasks[id].message) == Some(Vote) {
      ClaimIsAbove(s, id);
      NewTicketKeepsOrder(s, s', id, s'.tasks[id]);
    } else {
      QuietKeepsOrder(s, s');
    }
  }

  lemma SendKeepsOrder(s: NodeState, id: nat)
    requires Ordered(s) && Enabled(s, Send(id))
    ensures Ordered(Next(s, Send(id)))
  {}

  /** Steps that send and claim nothing. */
  lemma QuietKeepsOrder(s: NodeState, s': NodeState)
    requires Ordered(s) && s'.sent == s.sent && s'.order == s.order && s'.tickets >= s.tickets
    requires forall i | i in s'.tasks && Claims(s'.tasks[i], Vote) ::
               && i in s.tasks && Claims(s.tasks[i], Vote)
               && s'.tasks[i].message == s.tasks[i].message && s'.tasks[i].ticket == s.tasks[i].ticket
    ensures Ordered(s')
  {}

  lemma StepKeepsOrder(s: NodeState, step: Step)
    requires Inv(s, Vote) && Ordered(s) && Enabled(s, step)
    ensures Ordered(Next(s, step))
  {
    match step {
      case Claim(id) => ClaimKeepsOrder(s, id);
      case Send(id) => SendKeepsOrder(s, id);
      case _ => QuietKeepsOrder(s, Next(s, step));
    }
  }

  lemma {:induction false} RunOrdered(run: seq<NodeState>, steps: seq<Step>, i: nat)
    requires IsRun(run, steps) && i < |run|
    ensures Ordered(run[i])
  {
    if i > 0 {
      RunOrdered(run, steps, i - 1);
      RunKeeps(run, steps, i - 1, Vote);
      StepKeepsOrder(run[i - 1], steps[i - 1]);
    }
  }

  /** The exact condition: votes leave a node in strictly rising views if and only if they leave in the
      order in which they were claimed, over all lives of the node. */
  lemma VotesRiseIffSentAsClaimed(run: seq<NodeState>, steps: seq<Step>, i: nat)
    requires IsRun(run, steps) && i < |run|
    ensures |run[i].order| == |run[i].sent|
    ensures Rising(run[i].sent) <==> SentAsClaimed(run[i])
  {
    RunOrdered(run, steps, i);
  }

  /** No vote is claimed while another claimed vote is still on its way. */
  predicate OneAtATime(run: seq<NodeState>, steps: seq<Step>)
    requires |run| == |steps| + 1
  {
    forall i | 0 <= i < |steps| :: ClaimsAlone(run[i], steps[i])
  }

  predicate ClaimsAlone(s: NodeState, step: Step)
  {
    step.Claim? && step.id in s.tasks && IsVote(s.tasks[step.id].message) ==> forall k | k in s.tasks :: !Claims(s.tasks[k], Vote)
  }

  predicate AtMostOne(s: NodeState)
    requires |s.order| == |s.sent|
  {
    && SentAsClaimed(s)
    && (forall k, l | k in s.tasks && l in s.tasks && Claims(s.tasks[k], Vote) && Claims(s.tasks[l], Vote) :: k == l)
    && (forall i, k | 0 <= i < |s.sent| && k in s.tasks && ActionOf(s.sent[i]) == Some(Vote) && Claims(s.tasks[k], Vote) ::
          s.order[i] < s.tasks[k].ticket)
  }

  lemma OneClaimKeeps(s: NodeState, id: nat)
    requires Ordered(s) && AtMostOne(s) && Enabled(s, Claim(id))
    requires ActionOf(s.tasks[id].message) == Some(Vote) ==> forall k | k in s.tasks :: !Claims(s.tasks[k], Vote)
    ensures AtMostOne(ClaimTask(s, id))
  {}

  lemma OneSendKeeps(s: NodeState, id: nat)
    requires |s.order| == |s.sent| && AtMostOne(s) && Enabled(s, Send(id))
    ensures AtMostOne(Next(s, Send(id)))
  {}

  lemma OneQuietKeeps(s: NodeState, s': NodeState)
    requires |s.order| == |s.sent| && AtMostOne(s) && s'.sent == s.sent && s'.order == s.order
    requires forall i | i in s'.tasks && Claims(s'.tasks[i], Vote) ::
               && i in s.tasks && Claims(s.tasks[i], Vote)
               && s'.tasks[i].message == s.tasks[i].message && s'.tasks[i].ticket == s.tasks[i].ticket
    ensures AtMostOne(s')
  {}

  lemma OneStepKeeps(s: NodeState, step: Step)
    requires Ordered(s) && AtMostOne(s) && Enabled(s, step) && ClaimsAlone(s, step)
    ensures |Next(s, step).order| == |Next(s, step).sent| && AtMostOne(Next(s, step))
  {
    match step {
      case Claim(id) => OneClaimKeeps(s, id);
      case Send(id) => OneSendKeeps(s, id);
      case _ => OneQuietKeeps(s, Next(s, step));
    }
  }

  lemma {:induction false} OneAtATimeKeeps(run: seq<NodeState>, steps: seq<Step>, i: nat)
    requires IsRun(run, steps) && OneAtATime(run, steps) && i < |run|
    ensures |run[i].order| == |run[i].sent| && AtMostOne(run[i])
  {
    if i > 0 {
      OneAtATimeKeeps(run, steps, i - 1);
      RunOrdered(run, steps, i - 1);
      OneStepKeeps(run[i - 1], steps[i - 1]);
    }
  }

  /** In particular they rise when votes are claimed one at a time. */
  lemma OneAtATimeRises(run: seq<NodeState>, steps: seq<Step>, i: nat)
    requires IsRun(run, steps) && OneAtATime(run, steps) && i < |run|
    ensures Rising(run[i].sent)
  {
    OneAtATimeKeeps(run, steps, i);
    VotesRiseIffSentAsClaimed(run, steps, i);
  }

  lemma Extended(run: seq<NodeState>, steps: seq<Step>, step: Step)
    requires IsRun(run, steps) && Enabled(run[|steps|], step)
    ensures IsRun(run + [Next(run[|steps|], step)], steps + [step])
  {}

  /** From any running node, a message that may be claimed can be claimed and stored. */
  lemma StoreMessage(run: seq<NodeState>, steps: seq<Step>, id: nat, m: Message)
    returns (run': seq<NodeState>, steps': seq<Step>)
    requires IsRun(run, steps) && run[|steps|].up && id !in run[|steps|].tasks
    requires IsProposal(m) ==> m.view > run[|steps|].views.proposed
    requires IsVote(m) ==> m.view > run[|steps|].views.voted
    requires m.DaProposal? ==> m.view > run[|steps|].views.daProposed
    ensures IsRun(run', steps')
    ensures var s, s' := run[|steps|], run'[|steps'|];
            && s'.up && s'.sent == s.sent
            && (IsVote(m) ==> s'.views.voted == m.view)
            && s'.tasks == s.tasks[id := Task(m, None, Stored, s.tickets)]
  {
    var s := run[|steps|];
    var s1 := Next(s, Spawn(id, m, None));
    Extended(run, steps, Spawn(id, m, None));
    ClaimGranted(s1, id);
    var s2 := Next(s1, Claim(id));
    Extended(run + [s1], steps + [Spawn(id, m, None)], Claim(id));
    Extended(run + [s1] + [s2], steps + [Spawn(id, m, None)] + [Claim(id)], Record(id, false));
    run' := run + [s1] + [s2] + [Next(s2, Record(id, false))];
    steps' := steps + [Spawn(id, m, None)] + [Claim(id)] + [Record(id, false)];
  }

  /** So what the gate lets through goes out: from any point of any run at which the node is up. */
  lemma CanSend(run: seq<NodeState>, steps: seq<Step>, id: nat, m: Message)
    returns (run': seq<NodeState>, steps': seq<Step>)
    requires IsRun(run, steps) && run[|steps|].up && id !in run[|steps|].tasks
    requires IsProposal(m) ==> m.view > run[|steps|].views.proposed
    requires IsVote(m) ==> m.view > run[|steps|].views.voted
    requires m.DaProposal? ==> m.view > run[|steps|].views.daProposed
    ensures IsRun(run', steps') && run'[|steps'|].sent == run[|steps|].sent + [m]
  {
    run', steps' := StoreMessage(run, steps, id, m);
    Extended(run', steps', Send(id));
    run', steps' := run' + [Next(run'[|steps'|], Send(id))], steps' + [Send(id)];
  }

  /** Without that, tasks may overtake each other: whatever two views are voted, the later one can be
      sent first. */
  lemma SendOrderCanInvert(v: nat, w: nat) returns (run: seq<NodeState>, steps: seq<Step>)
    requires 0 < v < w
    ensures IsRun(run, steps) && run[|steps|].sent == [TimeoutVote(w), TimeoutVote(v)]
    ensures !Rising(run[|steps|].sent)
  {
    run, steps := StoreMessage([FRESH], [], 0, TimeoutVote(v));
    run, steps := StoreMessage(run, steps, 1, TimeoutVote(w));
    var s1 := Next(run[|steps|], Send(1));
    Extended(run, steps, Send(1));
    run, steps := run + [s1], steps + [Send(1)];
    var s2 := Next(s1, Send(0));
    Extended(run, steps, Send(0));
    run, steps := run + [s2], steps + [Send(0)];
    assert IsVote(s2.sent[0]) && IsVote(s2.sent[1]);
  }
}
