/** Dynamic registration with the orchestrator: nodes post keys, report ready, and the network starts
    by threshold or by hand. */
module Registration {
  import opened Bytes
  import opened Leaves

  type Key = seq<byte>
  type Peer = nat

  /** What stays fixed: how DA members are picked, the start threshold as a fraction, the password,
      and how a posted key decodes. */
  datatype Config = Config(
    indexedDa: bool, numerator: nat, denominator: nat, password: Option<string>, decode: Key -> Option<Peer>)

  /** The accepted registrations, the latest outermost. */
  datatype Entries = Nobody | Joined(before: Entries, key: Key, peer: Peer, da: bool)

  /** `byHand` records, for specifications only, that the network was started manually. */
  datatype State = State(
    entries: Entries, numNodes: nat, daSize: nat, connected: set<Peer>,
    accepting: bool, manualAllowed: bool, pubReady: bool, start: bool, byHand: bool)

  datatype Call = Register(key: Key, daRequested: bool) | Ready(peer: Peer) | ManualStart(password: Option<string>)

  /** `Panicked` stands for an undecodable key or password. */
  datatype Reply = Registered(index: nat, da: bool) | Done | Forbidden | Panicked

  // ---- what the concrete fields hold ----

  function Size(es: Entries): nat
  {
    if es.Nobody? then 0 else Size(es.before) + 1
  }

  function Posted(es: Entries): map<Key, (nat, bool)>
  {
    if es.Nobody? then map[] else Posted(es.before)[es.key := (Size(es.before), es.da)]
  }

  function Peers(es: Entries): (ps: seq<Peer>)
    ensures |ps| == Size(es)
  {
    if es.Nobody? then [] else Peers(es.before) + [es.peer]
  }

  /** The DA list is the subsequence of registrations marked as DA. */
  function DaPeers(es: Entries): (ps: seq<Peer>)
    ensures |ps| <= Size(es)
  {
    if es.Nobody? then [] else if es.da then DaPeers(es.before) + [es.peer] else DaPeers(es.before)
  }

  predicate Distinct(es: Entries)
  {
    es.Joined? ==> es.key !in Posted(es.before) && Distinct(es.before)
  }

  /** `later` has every registration of `es` and perhaps more. */
  predicate Grown(es: Entries, later: Entries)
  {
    es == later || (later.Joined? && Grown(es, later.before))
  }

  lemma {:induction false} GrownTransitive(a: Entries, b: Entries, c: Entries)
    requires Grown(a, b) && Grown(b, c)
    ensures Grown(a, c)
  {
    if b != c {
      GrownTransitive(a, b, c.before);
    }
  }

  ghost predicate HasIndex(m: map<Key, (nat, bool)>, i: nat)
  {
    exists k :: k in m && m[k].0 == i
  }

  /** Indices are exactly 0 to n-1, one for each distinct key. */
  lemma {:induction false} PostedIndices(es: Entries)
    requires Distinct(es)
    ensures |Posted(es)| == Size(es)
    ensures forall k | k in Posted(es) :: Posted(es)[k].0 < Size(es)
    ensures forall j, k | j in Posted(es) && k in Posted(es) && Posted(es)[j].0 == Posted(es)[k].0 :: j == k
    ensures forall i: nat | i < Size(es) :: HasIndex(Posted(es), i)
  {
    if es.Joined? {
      PostedIndices(es.before);
      var most, all := Posted(es.before), Posted(es);
      forall i: nat | i < Size(es) ensures HasIndex(all, i) {
        if i < Size(es.before) {
          assert HasIndex(most, i);
          var k :| k in most && most[k].0 == i;
          assert all[k].0 == i;
        } else {
          assert all[es.key].0 == i;
        }
      }
    }
  }

  lemma PostedSize(es: Entries)
    requires Distinct(es)
    ensures |Posted(es)| == Size(es)
  {
    PostedIndices(es);
  }

  /** A posted key keeps its index and flag. */
  lemma {:induction false} PostedKept(es: Entries, later: Entries, k: Key)
    requires Grown(es, later) && Distinct(later) && k in Posted(es)
    ensures k in Posted(later) && Posted(later)[k] == Posted(es)[k]
  {
    if es != later {
      PostedKept(es, later.before, k);
    }
  }

  // ---- the calls ----

  function RegisterNew(c: Config, s: State, key: Key, peer: Peer, daRequested: bool): State
  {
    var da := (c.indexedDa || daRequested) && |DaPeers(s.entries)| < s.daSize;
    var full := Size(s.entries) + 1 >= s.numNodes;
    s.(entries := Joined(s.entries, key, peer, da),
       pubReady := s.pubReady || full,
       accepting := s.accepting && !full)
  }

  predicate Reached(c: Config, connected: nat, numNodes: nat)
  {
    connected * c.denominator >= numNodes * c.numerator
  }

  function Connect(c: Config, s: State, peer: Peer): State
  {
    if Reached(c, |s.connected + {peer}|, s.numNodes)
    then s.(connected := s.connected + {peer}, accepting := false, manualAllowed := false, start := true)
    else s.(connected := s.connected + {peer})
  }

  function StartByHand(s: State): State
  {
    s.(numNodes := Size(s.entries), daSize := |DaPeers(s.entries)|,
       accepting := false, manualAllowed := false, pubReady := true, start := true, byHand := true)
  }

  /** Whether the call gets past its checks. */
  predicate Admitted(c: Config, s: State, call: Call)
  {
    match call
    case Register(key, _) => key !in Posted(s.entries) && s.accepting && c.decode(key).Some?
    case Ready(peer) => peer in Peers(s.entries)
    case ManualStart(password) =>
      s.manualAllowed && password.Some? && c.password == password && |DaPeers(s.entries)| > 1
  }

  function After(c: Config, s: State, call: Call): State
  {
    if !Admitted(c, s, call) then s
    else match call
      case Register(key, daRequested) => RegisterNew(c, s, key, c.decode(key).value, daRequested)
      case Ready(peer) => Connect(c, s, peer)
      case ManualStart(_) => StartByHand(s)
  }

  function ReplyTo(c: Config, s: State, call: Call): Reply
  {
    match call
    case Register(key, _) =>
      if key in Posted(s.entries) then Registered(Posted(s.entries)[key].0, Posted(s.entries)[key].1)
      else if !s.accepting then Forbidden
      else if c.decode(key).None? then Panicked
      else Registered(Size(s.entries), After(c, s, call).entries.da)
    case Ready(_) => if Admitted(c, s, call) then Done else Forbidden
    case ManualStart(password) =>
      if Admitted(c, s, call) then Done
      else if s.manualAllowed && password.None? then Panicked
      else Forbidden
  }

  function Play(c: Config, s: State, calls: seq<Call>): State
    decreases |calls|
  {
    if |calls| == 0 then s else Play(c, After(c, s, calls[0]), calls[1..])
  }

  function Opening(numNodes: nat, daSize: nat): State
  {
    State(Nobody, numNodes, daSize, {}, true, true, false, false, false)
  }

  // ---- what every call keeps ----

  predicate Inv(s: State)
  {
    && Distinct(s.entries)
    && s.numNodes >= 1
    && Size(s.entries) <= s.numNodes && (s.accepting ==> Size(s.entries) < s.numNodes)
    && |DaPeers(s.entries)| <= s.daSize
    && (forall p | p in s.connected :: p in Peers(s.entries))
    && (s.start ==> !s.accepting && !s.manualAllowed)
  }

  /** The network has started exactly when it was started by hand or enough registered nodes are ready. */
  predicate StartOk(c: Config, s: State)
  {
    s.start <==> s.byHand || (s.connected != {} && Reached(c, |s.connected|, s.numNodes))
  }

  lemma RegisterKeeps(c: Config, s: State, key: Key, peer: Peer, daRequested: bool)
    requires Inv(s) && s.accepting && key !in Posted(s.entries)
    ensures Inv(RegisterNew(c, s, key, peer, daRequested))
  {}

  lemma ReachedMonotone(c: Config, few: nat, more: nat, numNodes: nat)
    requires few <= more && Reached(c, few, numNodes)
    ensures Reached(c, more, numNodes)
  {}

  lemma ConnectKeeps(c: Config, s: State, peer: Peer)
    requires Inv(s) && StartOk(c, s) && peer in Peers(s.entries)
    ensures Inv(Connect(c, s, peer)) && StartOk(c, Connect(c, s, peer))
  {
    var more := s.connected + {peer};
    assert peer in more;
    assert s.connected == more - {peer} || s.connected == more;
    if Reached(c, |s.connected|, s.numNodes) {
      ReachedMonotone(c, |s.connected|, |more|, s.numNodes);
    }
  }

  lemma StepKeeps(c: Config, s: State, call: Call)
    requires Inv(s) && StartOk(c, s)
    ensures Inv(After(c, s, call)) && StartOk(c, After(c, s, call))
  {
    if Admitted(c, s, call) {
      match call {
        case Register(key, daRequested) =>
          RegisterKeeps(c, s, key, c.decode(key).value, daRequested);
        case Ready(peer) =>
          ConnectKeeps(c, s, peer);
        case ManualStart(password) =>
      }
    }
  }

  /** A call never unregisters anyone, and once registration has closed it registers no one. */
  lemma StepGrows(c: Config, s: State, call: Call)
    ensures Grown(s.entries, After(c, s, call).entries)
    ensures !s.accepting ==> !After(c, s, call).accepting && After(c, s, call).entries == s.entries
  {
  }

  lemma {:induction false} PlayKeeps(c: Config, s: State, calls: seq<Call>)
    requires Inv(s) && StartOk(c, s)
    ensures Inv(Play(c, s, calls)) && StartOk(c, Play(c, s, calls))
    ensures Grown(s.entries, Play(c, s, calls).entries)
    ensures !s.accepting ==> Play(c, s, calls).entries == s.entries
    decreases |calls|
  {
    if |calls| > 0 {
      StepKeeps(c, s, calls[0]);
      StepGrows(c, s, calls[0]);
      PlayKeeps(c, After(c, s, calls[0]), calls[1..]);
      GrownTransitive(s.entries, After(c, s, calls[0]).entries, Play(c, s, calls).entries);
    }
  }

  /** Over every call sequence: indices are exactly 0 to n-1, n is within the node limit, the DA list
      within its own, and the network has started exactly when it was started by hand or enough of
      the registered nodes are ready. */
  lemma EveryRunIsSound(c: Config, numNodes: nat, daSize: nat, calls: seq<Call>)
    requires numNodes >= 1
    ensures var s := Play(c, Opening(numNodes, daSize), calls);
            && |Posted(s.entries)| == |Peers(s.entries)| <= s.numNodes
            && (forall i: nat :: i < Size(s.entries) <==> HasIndex(Posted(s.entries), i))
            && |DaPeers(s.entries)| <= s.daSize
            && StartOk(c, s)
  {
    PlayKeeps(c, Opening(numNodes, daSize), calls);
    PostedIndices(Play(c, Opening(numNodes, daSize), calls).entries);
  }

  // ---- who is in the DA committee, and which flags stand when ----

  /** The peer a call registers as one that is to be a DA member, if it does. */
  function AsksForDa(c: Config, s: State, call: Call): seq<Peer>
  {
    if call.Register? && Admitted(c, s, call) && (c.indexedDa || call.daRequested)
    then [c.decode(call.key).value] else []
  }

  /** All of them along the calls, in order. */
  function AskedForDa(c: Config, s: State, calls: seq<Call>): seq<Peer>
    decreases |calls|
  {
    if |calls| == 0 then [] else AsksForDa(c, s, calls[0]) + AskedForDa(c, After(c, s, calls[0]), calls[1..])
  }

  function First(ps: seq<Peer>, n: nat): seq<Peer>
  {
    if |ps| <= n then ps else ps[..n]
  }

  lemma RegisterKeepsDa(c: Config, s: State, key: Key, peer: Peer, daRequested: bool, asked: seq<Peer>, size: nat)
    requires DaPeers(s.entries) == First(asked, size) && s.daSize == size
    ensures DaPeers(RegisterNew(c, s, key, peer, daRequested).entries) ==
            First(asked + (if c.indexedDa || daRequested then [peer] else []), size)
  {
    if c.indexedDa || daRequested {
      assert |asked| > size ==> (asked + [peer])[..size] == asked[..size];
    } else {
      assert asked + [] == asked;
    }
  }

  lemma StepKeepsDa(c: Config, s: State, call: Call, asked: seq<Peer>, size: nat)
    requires DaPeers(s.entries) == First(asked, size) && (s.accepting ==> s.daSize == size)
    ensures var s' := After(c, s, call);
            && DaPeers(s'.entries) == First(asked + AsksForDa(c, s, call), size)
            && (s'.accepting ==> s'.daSize == size)
  {
    assert asked + [] == asked;
    if call.Register? && Admitted(c, s, call) {
      RegisterKeepsDa(c, s, call.key, c.decode(call.key).value, call.daRequested, asked, size);
    }
  }

  lemma {:induction false} PlayKeepsDa(c: Config, s: State, calls: seq<Call>, asked: seq<Peer>, size: nat)
    requires DaPeers(s.entries) == First(asked, size) && (s.accepting ==> s.daSize == size)
    ensures DaPeers(Play(c, s, calls).entries) == First(asked + AskedForDa(c, s, calls), size)
    decreases |calls|
  {
    if |calls| == 0 {
      assert asked + [] == asked;
    } else {
      var now, next := AsksForDa(c, s, calls[0]), After(c, s, calls[0]);
      var rest := AskedForDa(c, next, calls[1..]);
      assert asked + (now + rest) == asked + now + rest;
      StepKeepsDa(c, s, calls[0], asked, size);
      PlayKeepsDa(c, next, calls[1..], asked + now, size);
    }
  }

  /** The DA committee is exactly the first accepted peers that asked for it, up to its size. */
  lemma DaAreFirstToAsk(c: Config, numNodes: nat, daSize: nat, calls: seq<Call>)
    requires numNodes >= 1
    ensures DaPeers(Play(c, Opening(numNodes, daSize), calls).entries) ==
            First(AskedForDa(c, Opening(numNodes, daSize), calls), daSize)
  {
    PlayKeepsDa(c, Opening(numNodes, daSize), calls, [], daSize);
    assert [] + AskedForDa(c, Opening(numNodes, daSize), calls) == AskedForDa(c, Opening(numNodes, daSize), calls);
  }

  /** Keys are accepted until the network is full or has started, published once it is full, and a manual
      start is possible until it has started. */
  predicate FlagsOk(s: State)
  {
    && (s.accepting <==> Size(s.entries) < s.numNodes && !s.start)
    && (s.pubReady <==> Size(s.entries) >= s.numNodes)
    && (s.manualAllowed <==> !s.start)
  }

  lemma StepKeepsFlags(c: Config, s: State, call: Call)
    requires Inv(s) && FlagsOk(s)
    ensures FlagsOk(After(c, s, call))
  {}

  lemma {:induction false} PlayKeepsFlags(c: Config, s: State, calls: seq<Call>)
    requires Inv(s) && StartOk(c, s) && FlagsOk(s)
    ensures FlagsOk(Play(c, s, calls))
    decreases |calls|
  {
    if |calls| > 0 {
      StepKeeps(c, s, calls[0]);
      StepKeepsFlags(c, s, calls[0]);
      PlayKeepsFlags(c, After(c, s, calls[0]), calls[1..]);
    }
  }

  lemma FlagsFollowState(c: Config, numNodes: nat, daSize: nat, calls: seq<Call>)
    requires numNodes >= 1
    ensures FlagsOk(Play(c, Opening(numNodes, daSize), calls))
  {
    PlayKeepsFlags(c, Opening(numNodes, daSize), calls);
  }

  /** The peer that a call reports ready, if it is registered. */
  function ReportsReady(s: State, call: Call): set<Peer>
  {
    if call.Ready? && call.peer in Peers(s.entries) then {call.peer} else {}
  }

  function ReportedReady(c: Config, s: State, calls: seq<Call>): set<Peer>
    decreases |calls|
  {
    if |calls| == 0 then {} else ReportsReady(s, calls[0]) + ReportedReady(c, After(c, s, calls[0]), calls[1..])
  }

  lemma StepConnects(c: Config, s: State, call: Call)
    ensures After(c, s, call).connected == s.connected + ReportsReady(s, call)
  {}

  /** Exactly the peers that reported ready while registered count towards the start threshold. */
  lemma {:induction false} ConnectedAreReady(c: Config, s: State, calls: seq<Call>)
    ensures Play(c, s, calls).connected == s.connected + ReportedReady(c, s, calls)
    decreases |calls|
  {
    if |calls| > 0 {
      StepConnects(c, s, calls[0]);
      ConnectedAreReady(c, After(c, s, calls[0]), calls[1..]);
    }
  }

  /** What a reply tells: a refusal leaves everything as it was; an answer to a registration is what is
      posted under the key; a node is ready exactly when it is registered; and a manual start succeeds
      exactly with the password, two DA members and nothing started, when it fixes the network as it is. */
  lemma RepliesTell(c: Config, s: State, call: Call)
    requires Inv(s) && FlagsOk(s)
    ensures var s', r := After(c, s, call), ReplyTo(c, s, call);
            && (r.Forbidden? || r.Panicked? ==> s' == s)
            && match call {
                 case Register(key, _) =>
                   && (r.Registered? <==> key in Posted(s'.entries))
                   && (r.Registered? ==> Posted(s'.entries)[key] == (r.index, r.da))
                   && (key !in Posted(s.entries) ==>
                         (r.Registered? <==> Size(s.entries) < s.numNodes && !s.start && c.decode(key).Some?))
                 case Ready(peer) => r.Done? <==> peer in Peers(s.entries)
                 case ManualStart(password) =>
                   && (r.Done? <==> !s.start && password.Some? && password == c.password && |DaPeers(s.entries)| >= 2)
                   && (r.Done? ==> s'.start && s'.numNodes == Size(s.entries) && s'.daSize == |DaPeers(s.entries)|)
               }
  {}

  /** The threshold is on the fraction of nodes that are ready. */
  lemma ReachedIsFraction(c: Config, connected: nat, numNodes: nat)
    requires c.denominator > 0 && numNodes > 0
    ensures Reached(c, connected, numNodes) <==>
            connected as real / numNodes as real >= c.numerator as real / c.denominator as real
  {
    var n, d := numNodes as real, c.denominator as real;
    var ready, part := connected as real / n, c.numerator as real / d;
    assert connected as real == ready * n && c.numerator as real == part * d;
    assert (connected * c.denominator) as real == ready * (n * d);
    assert (numNodes * c.numerator) as real == part * (n * d);
    Scaled(ready, part, n * d);
  }

  lemma Scaled(x: real, y: real, z: real)
    requires z > 0.0
    ensures x >= y <==> x * z >= y * z
  {
    if x < y {
      assert (y - x) * z > 0.0;
    } else {
      assert (x - y) * z >= 0.0;
    }
  }

  /** A key that has registered is given the same index and DA flag ever after. */
  lemma AnswersAreStable(c: Config, s: State, key: Key, da: bool, calls: seq<Call>, again: bool)
    requires Inv(s) && StartOk(c, s) && ReplyTo(c, s, Register(key, da)).Registered?
    ensures ReplyTo(c, Play(c, After(c, s, Register(key, da)), calls), Register(key, again)) ==
            ReplyTo(c, s, Register(key, da))
  {
    var next := After(c, s, Register(key, da));
    StepKeeps(c, s, Register(key, da));
    PlayKeeps(c, next, calls);
    PostedKept(next.entries, Play(c, next, calls).entries, key);
  }

  /** Nothing is registered once the network has started. */
  lemma NothingAddedAfterStart(c: Config, s: State, calls: seq<Call>)
    requires Inv(s) && StartOk(c, s) && s.start
    ensures Play(c, s, calls).entries == s.entries
  {
    PlayKeeps(c, s, calls);
  }

  // ---- the orchestrator object ----

  class Orchestrator {
    const config: Config
    var numNodes: nat
    var daSize: nat
    var knownNodes: seq<Peer>
    var knownDa: seq<Peer>
    var pubPosted: map<Key, (nat, bool)>
    var nodesConnected: set<Peer>
    var acceptingNewKeys: bool
    var manualStartAllowed: bool
    var peerPubReady: bool
    var start: bool

    constructor (config: Config, numNodes: nat, daSize: nat)
      requires numNodes >= 1
      ensures this.config == config && Shows(Opening(numNodes, daSize))
    {
      this.config := config;
      this.numNodes, this.daSize := numNodes, daSize;
      knownNodes, knownDa, pubPosted, nodesConnected := [], [], map[], {};
      acceptingNewKeys, manualStartAllowed, peerPubReady, start := true, true, false, false;
    }

    /** The fields hold what `s` says. */
    ghost predicate Shows(s: State)
      reads this
    {
      && Distinct(s.entries)
      && knownNodes == Peers(s.entries) && knownDa == DaPeers(s.entries) && pubPosted == Posted(s.entries)
      && numNodes == s.numNodes && daSize == s.daSize && nodesConnected == s.connected
      && acceptingNewKeys == s.accepting && manualStartAllowed == s.manualAllowed
      && peerPubReady == s.pubReady && start == s.start
    }

    method RegisterUnknown(key: Key, daRequested: bool, ghost s: State) returns (r: Reply)
      requires Shows(s)
      modifies this
      ensures Shows(After(config, s, Register(key, daRequested)))
      ensures r == ReplyTo(config, s, Register(key, daRequested))
    {
      if key in pubPosted {
        return Registered(pubPosted[key].0, pubPosted[key].1);
      }
      if !acceptingNewKeys {
        return Forbidden;
      }
      var peer := config.decode(key);
      if peer.None? {
        return Panicked;
      }
      var nodeIndex, addedToDa := AddNode(key, peer.value, daRequested, s);
      return Registered(nodeIndex, addedToDa);
    }

    method AddNode(key: Key, peer: Peer, daRequested: bool, ghost s: State) returns (nodeIndex: nat, addedToDa: bool)
      requires Shows(s) && key !in pubPosted && acceptingNewKeys
      modifies this
      ensures Shows(RegisterNew(config, s, key, peer, daRequested))
      ensures nodeIndex == Size(s.entries) && addedToDa == RegisterNew(config, s, key, peer, daRequested).entries.da
    {
      PostedSize(s.entries);
      nodeIndex := |pubPosted|;
      knownNodes := knownNodes + [peer];
      addedToDa := AddToDa(peer, daRequested);
      pubPosted := pubPosted[key := (nodeIndex, addedToDa)];
      CloseWhenFull(nodeIndex);
    }

    method AddToDa(peer: Peer, daRequested: bool) returns (added: bool)
      modifies `knownDa
      ensures added <==> (config.indexedDa || daRequested) && |old(knownDa)| < daSize
      ensures knownDa == if added then old(knownDa) + [peer] else old(knownDa)
    {
      var daFull := |knownDa| >= daSize;
      if (config.indexedDa || (!config.indexedDa && daRequested)) && !daFull {
        knownDa := knownDa + [peer];
        return true;
      }
      return false;
    }

    /** Indices start at 0, so registration is full once the index after this one is the limit. */
    method CloseWhenFull(nodeIndex: nat)
      modifies `peerPubReady, `acceptingNewKeys
      ensures peerPubReady == (old(peerPubReady) || nodeIndex + 1 >= numNodes)
      ensures acceptingNewKeys == (old(acceptingNewKeys) && nodeIndex + 1 < numNodes)
    {
      if nodeIndex + 1 >= numNodes {
        peerPubReady := true;
        acceptingNewKeys := false;
      }
    }

    method PostReady(peer: Peer, ghost s: State) returns (r: Reply)
      requires Shows(s)
      modifies this
      ensures Shows(After(config, s, Ready(peer)))
      ensures r == ReplyTo(config, s, Ready(peer))
    {
      if peer !in knownNodes {
        return Forbidden;
      }
      nodesConnected := nodesConnected + {peer};
      StartWhenReached();
      return Done;
    }

    method StartWhenReached()
      modifies `acceptingNewKeys, `manualStartAllowed, `start
      ensures var reached := Reached(config, |nodesConnected|, numNodes);
              && acceptingNewKeys == (old(acceptingNewKeys) && !reached)
              && manualStartAllowed == (old(manualStartAllowed) && !reached)
              && start == (old(start) || reached)
    {
      if |nodesConnected| * config.denominator >= numNodes * config.numerator {
        acceptingNewKeys := false;
        manualStartAllowed := false;
        start := true;
      }
    }

    /** The node count it installs is never zero: more than one DA node means more than one node. */
    method PostManualStart(password: Option<string>, ghost s: State) returns (r: Reply)
      requires Shows(s)
      modifies this
      ensures Shows(After(config, s, ManualStart(password)))
      ensures r == ReplyTo(config, s, ManualStart(password))
    {
      if !manualStartAllowed {
        return Forbidden;
      }
      if password.None? {
        return Panicked;
      }
      if config.password != password {
        return Forbidden;
      }
      var registered, registeredDa := |knownNodes|, |knownDa|;
      if registeredDa > 1 {
        assert registered > 0;
        numNodes := registered;
        daSize := registeredDa;
      } else {
        return Forbidden;
      }
      acceptingNewKeys := false;
      manualStartAllowed := false;
      peerPubReady := true;
      start := true;
      return Done;
    }
  }
}
