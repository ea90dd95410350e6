/** View synchronisation on one node: the main task and its per-view replica tasks. */
module ViewSync {
  import opened Leaves

  datatype Phase = NoPhase | PreCommit | Commit | Finalize

  datatype Timer = Timer(view: nat, relay: nat, phase: Phase)

  /** Events the tasks react to.  `valid` is the outcome of the certificate check, `signs` whether
      signing the resulting vote succeeds, `leaderKnown` whether the membership names a leader. */
  datatype Event =
    | CertificateRecv(kind: Phase, view: nat, relay: nat, valid: bool, signs: bool)
    | Trigger(view: nat, signs: bool)
    | TimerFired(timer: Timer, signs: bool)
    | ViewChange(view: nat)
    | Timeout(view: nat, leaderKnown: bool, signs: bool)

  /** What a task emits: a signed vote, a view change, or the start of a timer. */
  datatype Out =
    | SendVote(kind: Phase, view: nat, relay: nat)
    | ReplicaChange(view: nat)
    | MainChange(view: nat)
    | StartTimer(timer: Timer)
  {
    function View(): nat { if StartTimer? then timer.view else view }
  }

  // ---- the replica task ----

  datatype Replica = Replica(nextView: nat, relay: nat, timer: Option<Timer>)

  /** `done` is `Some(HotShotTaskCompleted)`; `panics` is the `unimplemented!()` branch. */
  datatype Reaction = Reaction(replica: Replica, out: seq<Out>, done: bool, panics: bool)

  function Quiet(r: Replica): Reaction { Reaction(r, [], false, false) }

  function Max(a: nat, b: nat): nat { if a > b then a else b }

  function OnCertificate(r: Replica, e: Event): Reaction
    requires e.CertificateRecv? && !e.kind.NoPhase?
  {
    if e.view < r.nextView || !e.valid then Quiet(r)
    else if e.view > r.nextView then Reaction(r, [], true, false)
    else
      var moved := r.(relay := Max(r.relay, e.relay));
      if e.kind.Finalize? then
        Reaction(moved.(timer := None), [ReplicaChange(r.nextView)], true, false)
      else if !e.signs then Quiet(moved)
      else
        var t := Timer(r.nextView, moved.relay, e.kind);
        if e.kind.PreCommit? then
          Reaction(moved.(timer := Some(t)), [SendVote(Commit, r.nextView, e.relay), StartTimer(t)], false, false)
        else
          Reaction(moved.(timer := Some(t)),
                   [SendVote(Finalize, r.nextView, e.relay), ReplicaChange(r.nextView), StartTimer(t)], false, false)
  }

  /** A timer for the current relay moves on to the next relay and asks again. */
  function OnTimer(r: Replica, t: Timer, signs: bool): Reaction
  {
    if t.view != r.nextView || t.relay != r.relay then Quiet(r)
    else
      var moved := r.(relay := r.relay + 1, timer := None);
      if t.phase.Finalize? then Reaction(moved, [], false, true)
      else if !signs then Quiet(moved)
      else
        var again := Timer(r.nextView, moved.relay, t.phase);
        Reaction(moved.(timer := Some(again)),
                 [SendVote(PreCommit, r.nextView, moved.relay), StartTimer(again)], false, false)
  }

  /** `ViewSyncReplicaTaskState::handle`. */
  function React(r: Replica, e: Event): Reaction
  {
    match e
    case CertificateRecv(kind, _, _, _, _) => if kind.NoPhase? then Quiet(r) else OnCertificate(r, e)
    case Trigger(v, signs) =>
      if v != r.nextView || !signs then Quiet(r)
      else
        // The timer that may already be running is overwritten, not aborted.
        var t := Timer(r.nextView, r.relay, NoPhase);
        Reaction(r.(timer := Some(t)), [SendVote(PreCommit, v, 0), StartTimer(t)], false, false)
    case TimerFired(t, signs) => OnTimer(r, t, signs)
    case _ => Quiet(r)
  }

  class ReplicaTask {
    const nextView: nat
    var relay: nat
    var timer: Option<Timer>

    constructor (view: nat)
      ensures State() == Replica(view, 0, None)
    {
      nextView, relay, timer := view, 0, None;
    }

    function State(): Replica
      reads this
    {
      Replica(nextView, relay, timer)
    }

    method Handle(e: Event) returns (out: seq<Out>, done: bool, panics: bool)
      modifies this
      ensures Reaction(State(), out, done, panics) == React(old(State()), e)
    {
      out, done, panics := [], false, false;
      match e {
        case CertificateRecv(kind, view, certRelay, valid, signs) =>
          if kind.NoPhase? || view < nextView || !valid {
            return;
          }
          if view > nextView {
            done := true;
            return;
          }
          if certRelay > relay {
            relay := certRelay;
          }
          if kind.Finalize? {
            timer := None;
            out, done := [ReplicaChange(nextView)], true;
            return;
          }
          if !signs {
            return;
          }
          out := [SendVote(if kind.PreCommit? then Commit else Finalize, nextView, certRelay)];
          if kind.Commit? {
            out := out + [ReplicaChange(nextView)];
          }
          timer := Some(Timer(nextView, relay, kind));
          out := out + [StartTimer(timer.value)];
        case Trigger(view, signs) =>
          if view != nextView || !signs {
            return;
          }
          timer := Some(Timer(nextView, relay, NoPhase));
          out := [SendVote(PreCommit, view, 0), StartTimer(timer.value)];
        case TimerFired(t, signs) =>
          if t.view == nextView && t.relay == relay {
            timer := None;
            relay := relay + 1;
            if t.phase.Finalize? {
              panics := true;
              return;
            }
            if !signs {
              return;
            }
            timer := Some(Timer(nextView, relay, t.phase));
            out := [SendVote(PreCommit, nextView, relay), StartTimer(timer.value)];
          }
        case _ =>
      }
    }
  }

  // ---- relay discipline over a replica's life ----

  predicate IsLife(life: seq<Replica>, events: seq<Event>)
  {
    && |life| == |events| + 1 && life[0].relay == 0
    && forall i | 0 <= i < |events| :: life[i + 1] == React(life[i], events[i]).replica
  }

  lemma {:induction false} RelayNeverFalls(life: seq<Replica>, events: seq<Event>, i: nat, j: nat)
    requires IsLife(life, events) && i <= j < |life|
    ensures life[i].relay <= life[j].relay && life[i].nextView == life[j].nextView
    decreases j
  {
    if i < j {
      RelayNeverFalls(life, events, i, j - 1);
    }
  }

  /** The relay of the pre-commit vote that the `i`-th event makes a timer send, if it does. */
  function TimeoutVoteRelay(life: seq<Replica>, events: seq<Event>, i: nat): Option<nat>
    requires IsLife(life, events) && i < |events|
  {
    var out := React(life[i], events[i]).out;
    if events[i].TimerFired? && |out| > 0 && out[0].SendVote? then Some(out[0].relay) else None
  }

  /** Timer-driven pre-commit votes go to ever higher relays, so no relay is asked twice. */
  lemma TimeoutVotesClimb(life: seq<Replica>, events: seq<Event>, i: nat, j: nat)
    requires IsLife(life, events) && i < j < |events|
    requires TimeoutVoteRelay(life, events, i).Some? && TimeoutVoteRelay(life, events, j).Some?
    ensures TimeoutVoteRelay(life, events, i).value < TimeoutVoteRelay(life, events, j).value
  {
    RelayNeverFalls(life, events, i + 1, j);
  }

  // ---- the main task ----

  datatype Main = Main(curView: nat, nextView: nat, timeouts: nat, lastGc: nat, replicas: map<nat, Replica>)

  datatype Result = Result(main: Main, out: seq<Out>, panics: bool)

  /** `send_to_or_create_replica`. */
  function SendToReplica(m: Main, e: Event, view: nat): Result
  {
    if m.curView > view then Result(m, [], false)
    else
      var known := view in m.replicas;
      var reaction := React(if known then m.replicas[view] else Replica(view, 0, None), e);
      Result(m.(replicas := if !reaction.done then m.replicas[view := reaction.replica]
                            else if known then m.replicas - {view} else m.replicas),
             reaction.out, reaction.panics)
  }

  /** How many views the garbage collection of this event walks over. */
  function GcSteps(m: Main, e: Event): nat
  {
    if e.ViewChange? && m.curView < e.view && m.lastGc <= e.view then e.view - m.lastGc else 0
  }

  predicate Advances(m: Main, e: Event) { e.ViewChange? && m.curView < e.view }

  /** The timeouts seen in a row after this event, when it is a timeout that starts view sync. */
  predicate StartsSync(m: Main, e: Event)
  {
    e.Timeout? && e.view >= m.curView && e.leaderKnown && m.timeouts + 1 >= 2
  }

  /** `ViewSyncTaskState::handle`. */
  function Handle(m: Main, e: Event): Result
  {
    match e
    case CertificateRecv(_, view, _, _, _) => SendToReplica(m, e, view)
    case TimerFired(t, _) => SendToReplica(m, e, t.view)
    case Trigger(_, _) => Result(m, [], false)
    case ViewChange(v) =>
      if m.curView >= v then Result(m, [], false)
      else Result(Main(v, v, 0, v - 1, map k | k in m.replicas && !(m.lastGc <= k < v) :: m.replicas[k]), [], false)
    case Timeout(v, leaderKnown, signs) =>
      if v < m.curView then Result(m, [], false)
      else
        var counted := m.(timeouts := m.timeouts + 1);
        if !leaderKnown then Result(counted, [], false)
        else if counted.timeouts >= 2 then SendToReplica(counted, Trigger(v + 1, signs), v + 1)
        else Result(counted.(curView := v + 1), [MainChange(v + 1)], false)
  }

  class ViewSyncTask {
    var curView: nat
    var nextView: nat
    var timeouts: nat
    var lastGc: nat
    var replicas: map<nat, ReplicaTask>

    constructor (view: nat)
      ensures Valid() && State() == Main(view, view, 0, 0, map[])
    {
      curView, nextView, timeouts, lastGc, replicas := view, view, 0, 0, map[];
    }

    /** No two views share a replica object. */
    ghost predicate Valid()
      reads this
    {
      forall i, j | i in replicas && j in replicas && i != j :: replicas[i] != replicas[j]
    }

    ghost function State(): Main
      reads this, replicas.Values
    {
      Main(curView, nextView, timeouts, lastGc, map k | k in replicas :: replicas[k].State())
    }

    method SendToOrCreateReplica(e: Event, view: nat) returns (out: seq<Out>, panics: bool)
      requires Valid()
      modifies this, replicas.Values
      ensures Valid()
      ensures Result(State(), out, panics) == SendToReplica(old(State()), e, view)
      ensures fresh(replicas.Values - old(replicas.Values))
    {
      out, panics := [], false;
      if curView > view {
        return;
      }
      if view in replicas {
        out, panics := SendTo(e, view);
      } else {
        out, panics := Create(e, view);
      }
    }

    method SendTo(e: Event, view: nat) returns (out: seq<Out>, panics: bool)
      requires Valid() && curView <= view && view in replicas
      modifies this, replicas[view]
      ensures Valid()
      ensures Result(State(), out, panics) == SendToReplica(old(State()), e, view)
      ensures replicas.Values <= old(replicas.Values)
    {
      ghost var before := State();
      var task, done := replicas[view], false;
      assert forall k | k in replicas && k != view :: replicas[k] != task;
      out, done, panics := task.Handle(e);
      if done {
        replicas := replicas - {view};
        assert State().replicas == before.replicas - {view};
      } else {
        assert State().replicas == before.replicas[view := task.State()];
      }
    }

    method Create(e: Event, view: nat) returns (out: seq<Out>, panics: bool)
      requires Valid() && curView <= view && view !in replicas
      modifies this
      ensures Valid()
      ensures Result(State(), out, panics) == SendToReplica(old(State()), e, view)
      ensures fresh(replicas.Values - old(replicas.Values))
    {
      ghost var before := State();
      var task := new ReplicaTask(view);
      var done;
      out, done, panics := task.Handle(e);
      assert State().replicas == before.replicas;
      if !done {
        replicas := replicas[view := task];
        assert State().replicas == before.replicas[view := task.State()];
      }
    }

    /** The garbage collection loop of a view change. */
    method CollectReplicas(lo: nat, hi: nat)
      requires Valid()
      modifies this`replicas
      ensures Valid()
      ensures replicas == map k | k in old(replicas) && !(lo <= k < hi) :: old(replicas)[k]
    {
      var i := lo;
      while i < hi
        invariant lo <= i && (i <= hi || i == lo)
        invariant replicas == map k | k in old(replicas) && !(lo <= k < i) :: old(replicas)[k]
      {
        replicas := replicas - {i};
        i := i + 1;
      }
    }

    method EnterView(v: nat)
      requires Valid()
      modifies this
      ensures Valid() && State() == Handle(old(State()), ViewChange(v)).main
    {
      ghost var before := State();
      if curView < v {
        curView, nextView, timeouts := v, v, 0;
        CollectReplicas(lastGc, curView);
        lastGc := curView - 1;
        assert forall k | k in replicas :: k in before.replicas && replicas[k].State() == before.replicas[k];
        assert State().replicas == Handle(before, ViewChange(v)).main.replicas;
      }
    }

    method CountTimeout(v: nat, leaderKnown: bool, signs: bool) returns (out: seq<Out>, panics: bool)
      requires Valid()
      modifies this, replicas.Values
      ensures Valid()
      ensures Result(State(), out, panics) == Handle(old(State()), Timeout(v, leaderKnown, signs))
    {
      out, panics := [], false;
      if v < curView {
        return;
      }
      ghost var before := State();
      timeouts := timeouts + 1;
      ghost var counted := before.(timeouts := before.timeouts + 1);
      assert State().replicas == counted.replicas;
      if !leaderKnown {
        return;
      }
      if timeouts >= 2 {
        out, panics := SendToOrCreateReplica(Trigger(v + 1, signs), v + 1);
      } else {
        curView := v + 1;
        out := [MainChange(v + 1)];
        assert State().replicas == counted.replicas;
      }
    }

    method HandleEvent(e: Event) returns (out: seq<Out>, panics: bool)
      requires Valid()
      modifies this, replicas.Values
      ensures Valid()
      ensures Result(State(), out, panics) == Handle(old(State()), e)
    {
      out, panics := [], false;
      match e {
        case CertificateRecv(_, view, _, _, _) => out, panics := SendToOrCreateReplica(e, view);
        case TimerFired(t, _) => out, panics := SendToOrCreateReplica(e, t.view);
        case Trigger(_, _) =>
        case ViewChange(v) => EnterView(v);
        case Timeout(v, leaderKnown, signs) => out, panics := CountTimeout(v, leaderKnown, signs);
      }
    }
  }

  // ---- garbage collection over a run of the main task ----

  predicate Tidy(m: Main)
  {
    && m.lastGc <= m.curView
    && (forall k | k in m.replicas :: m.lastGc <= k && m.replicas[k].nextView == k)
  }

  predicate IsRun(run: seq<Main>, events: seq<Event>)
  {
    && |run| == |events| + 1
    && run[0].lastGc == 0 && run[0].replicas == map[]
    && forall i | 0 <= i < |events| :: run[i + 1] == Handle(run[i], events[i]).main
  }

  lemma HandleKeepsTidy(m: Main, e: Event)
    requires Tidy(m)
    ensures var m' := Handle(m, e).main;
            && Tidy(m') && m.curView <= m'.curView
            && (Advances(m, e) ==> forall k | k in m'.replicas :: m'.curView <= k)
  {}

  /** `cur_view` never falls, no replica outlives the last collected view, every replica sits at its
      own view, and none below the current view survives an advancing view change. */
  lemma {:induction false} RunStaysTidy(run: seq<Main>, events: seq<Event>, i: nat)
    requires IsRun(run, events) && i < |run|
    ensures Tidy(run[i])
    ensures forall j | 0 <= j <= i :: run[j].curView <= run[i].curView
    ensures i > 0 && Advances(run[i - 1], events[i - 1]) ==> forall k | k in run[i].replicas :: run[i].curView <= k
  {
    if i > 0 {
      RunStaysTidy(run, events, i - 1);
      HandleKeepsTidy(run[i - 1], events[i - 1]);
    }
  }

  function TotalGc(run: seq<Main>, events: seq<Event>, i: nat): nat
    requires IsRun(run, events) && i < |run|
  {
    if i == 0 then 0 else TotalGc(run, events, i - 1) + GcSteps(run[i - 1], events[i - 1])
  }

  function Advancing(run: seq<Main>, events: seq<Event>, i: nat): nat
    requires IsRun(run, events) && i < |run|
  {
    if i == 0 then 0
    else Advancing(run, events, i - 1) + if Advances(run[i - 1], events[i - 1]) then 1 else 0
  }

  /** Garbage collection is linear over a whole run: it walks the last collected view plus one view
      per advancing change, whatever the order of events. */
  lemma {:induction false} GcIsLinear(run: seq<Main>, events: seq<Event>, i: nat)
    requires IsRun(run, events) && i < |run|
    ensures TotalGc(run, events, i) == run[i].lastGc + Advancing(run, events, i)
    ensures TotalGc(run, events, i) <= run[i].curView + Advancing(run, events, i)
  {
    RunStaysTidy(run, events, i);
    if i > 0 {
      GcIsLinear(run, events, i - 1);
      RunStaysTidy(run, events, i - 1);
    }
  }

  // ---- what each event is answered with ----

  /** The relay a certificate or timer for view `v` meets. */
  function RelayOf(m: Main, v: nat): nat
  {
    if v in m.replicas then m.replicas[v].relay else 0
  }

  /** A valid certificate for a view not yet passed: the relay follows it; pre-commit is answered by a
      commit vote, commit by a finalize vote and the view change, both to the certificate's relay;
      finalize by the view change alone, which ends the task. */
  lemma CertificateAnswered(m: Main, kind: Phase, v: nat, relay: nat)
    requires Tidy(m) && m.curView <= v && !kind.NoPhase?
    ensures var x := Handle(m, CertificateRecv(kind, v, relay, true, true));
            && (kind == PreCommit ==> SendVote(Commit, v, relay) in x.out)
            && (kind == Commit ==> SendVote(Finalize, v, relay) in x.out)
            && (kind != PreCommit ==> ReplicaChange(v) in x.out)
            && (v in x.main.replicas <==> kind != Finalize)
            && (kind != Finalize ==>
                  && RelayOf(x.main, v) == Max(RelayOf(m, v), relay)
                  && StartTimer(Timer(v, RelayOf(x.main, v), kind)) in x.out)
  {
    var x := Handle(m, CertificateRecv(kind, v, relay, true, true));
    if kind == PreCommit {
      assert x.out[0] == SendVote(Commit, v, relay);
      assert x.out[1] == StartTimer(Timer(v, RelayOf(x.main, v), kind));
    } else if kind == Commit {
      assert x.out[0] == SendVote(Finalize, v, relay);
      assert x.out[1] == ReplicaChange(v);
      assert x.out[2] == StartTimer(Timer(v, RelayOf(x.main, v), kind));
    } else {
      assert x.out[0] == ReplicaChange(v);
    }
  }

  /** A timer of the relay in use asks the next relay, in the phase it was started in. */
  lemma TimerAnswered(m: Main, t: Timer)
    requires Tidy(m) && m.curView <= t.view && t.relay == RelayOf(m, t.view) && !t.phase.Finalize?
    ensures var x := Handle(m, TimerFired(t, true));
            && SendVote(PreCommit, t.view, t.relay + 1) in x.out
            && t.view in x.main.replicas && RelayOf(x.main, t.view) == t.relay + 1
            && StartTimer(Timer(t.view, t.relay + 1, t.phase)) in x.out
  {
    var x := Handle(m, TimerFired(t, true));
    assert x.out[0] == SendVote(PreCommit, t.view, t.relay + 1);
    assert x.out[1] == StartTimer(Timer(t.view, t.relay + 1, t.phase));
  }

  /** The first timeout in a row moves on by one view; the second and later ones ask relay 0 for the
      view after. */
  lemma TimeoutAnswered(m: Main, v: nat)
    requires Tidy(m) && m.curView <= v
    ensures var x := Handle(m, Timeout(v, true, true));
            if m.timeouts == 0
            then x.out == [MainChange(v + 1)] && x.main.curView == v + 1 && x.main.replicas == m.replicas
            else
              && SendVote(PreCommit, v + 1, 0) in x.out && x.main.curView == m.curView
              && RelayOf(x.main, v + 1) == RelayOf(m, v + 1)
              && StartTimer(Timer(v + 1, RelayOf(m, v + 1), NoPhase)) in x.out
  {
    var x := Handle(m, Timeout(v, true, true));
    if m.timeouts > 0 {
      assert x.out[0] == SendVote(PreCommit, v + 1, 0);
      assert x.out[1] == StartTimer(Timer(v + 1, RelayOf(m, v + 1), NoPhase));
    }
  }

  /** A view change enters the higher of the two views, and a higher one starts the count of timeouts
      again and leaves no task behind it. */
  lemma ChangeAnswered(m: Main, v: nat)
    requires Tidy(m)
    ensures var x := Handle(m, ViewChange(v));
            && x.out == [] && x.main.curView == Max(m.curView, v)
            && (v > m.curView ==> x.main.nextView == v && x.main.timeouts == 0 && forall k | k in x.main.replicas :: v <= k)
            && (v <= m.curView ==> x.main == m)
  {}

  /** When signing fails, the relay moves all the same and nothing is sent; a timer of another relay, or an
      invalid certificate, changes nothing. */
  lemma WithoutVote(m: Main, kind: Phase, v: nat, relay: nat, t: Timer)
    requires Tidy(m) && m.curView <= v && (kind == PreCommit || kind == Commit) && m.curView <= t.view
    ensures var x := Handle(m, CertificateRecv(kind, v, relay, true, false));
            x.out == [] && RelayOf(x.main, v) == Max(RelayOf(m, v), relay)
    ensures var x := Handle(m, CertificateRecv(kind, v, relay, false, true));
            x.out == [] && RelayOf(x.main, v) == RelayOf(m, v)
    ensures t.relay == RelayOf(m, t.view) && !t.phase.Finalize? ==>
              var x := Handle(m, TimerFired(t, false)); x.out == [] && RelayOf(x.main, t.view) == t.relay + 1
    ensures t.relay != RelayOf(m, t.view) ==>
              var x := Handle(m, TimerFired(t, true)); x.out == [] && RelayOf(x.main, t.view) == RelayOf(m, t.view)
  {}

  /** Commit votes answer valid pre-commit certificates, finalize votes valid commit certificates, and
      view changes valid commit or finalize certificates, for the certificate's view and relay;
      pre-commit votes answer no certificate. */
  lemma AnsweredOnly(m: Main, e: Event, o: Out)
    requires Tidy(m) && o in Handle(m, e).out
    ensures o.SendVote? ==> !o.kind.NoPhase?
    ensures o.SendVote? && o.kind == PreCommit ==> !e.CertificateRecv?
    ensures o.SendVote? && o.kind == Commit ==>
              e.CertificateRecv? && e.valid && e.kind == PreCommit && e.view == o.view && e.relay == o.relay
    ensures o.SendVote? && o.kind == Finalize ==>
              e.CertificateRecv? && e.valid && e.kind == Commit && e.view == o.view && e.relay == o.relay
    ensures o.ReplicaChange? ==>
              e.CertificateRecv? && e.valid && (e.kind == Commit || e.kind == Finalize) && e.view == o.view
    ensures o.MainChange? ==> e.Timeout? && o.view == e.view + 1 && m.timeouts == 0
  {}

  /** The view whose replica task an event may touch. */
  function Target(e: Event): nat
  {
    match e
    case CertificateRecv(_, view, _, _, _) => view
    case TimerFired(t, _) => t.view
    case Timeout(v, _, _) => v + 1
    case Trigger(v, _) => v
    case ViewChange(v) => v
  }

  /** No event disturbs the tasks of other views that are not behind it, and no task's relay falls. */
  lemma OthersKept(m: Main, e: Event, k: nat)
    requires Tidy(m) && k in m.replicas
    ensures var m' := Handle(m, e).main;
            && (k >= m'.curView && (e.ViewChange? || k != Target(e)) ==> k in m'.replicas && m'.replicas[k] == m.replicas[k])
            && (k in m'.replicas ==> m.replicas[k].relay <= m'.replicas[k].relay)
  {}

  /** Timeouts of the current view or later, handled since the last change to a higher view. */
  function TimeoutsInRow(run: seq<Main>, events: seq<Event>, i: nat): nat
    requires IsRun(run, events) && i < |run|
  {
    if i == 0 then run[0].timeouts
    else if Advances(run[i - 1], events[i - 1]) then 0
    else TimeoutsInRow(run, events, i - 1) +
         if events[i - 1].Timeout? && events[i - 1].view >= run[i - 1].curView then 1 else 0
  }

  lemma {:induction false} TimeoutsCounted(run: seq<Main>, events: seq<Event>, i: nat)
    requires IsRun(run, events) && i < |run|
    ensures run[i].timeouts == TimeoutsInRow(run, events, i)
  {
    if i > 0 {
      TimeoutsCounted(run, events, i - 1);
    }
  }
}
