/** Per-view vote collectors: created on the first vote of a view, removed when they form a
    certificate, pruned when a later view does, and created again by any later vote. */
module VoteCollection {
  import opened Committees
  import opened Leaves

  /** A received vote: who signed what, whether the signature checks, and whether this node is the
      one to collect it (or collects on everyone's behalf in an epoch transition). */
  datatype Vote = Vote(node: Node, view: nat, data: nat, signed: bool, ours: bool)

  /** Stake, voters and signer bits gathered for one commitment. */
  datatype Tally = Tally(stake: nat, voters: set<Node>, bits: set<nat>)

  /** `VoteAccumulator`. */
  type Accumulator = map<nat, Tally>

  /** `VoteCollectionTaskState`; the accumulator is gone once it has formed a certificate. */
  datatype Collector = Collector(accumulator: Option<Accumulator>)

  datatype Certificate = Certificate(view: nat, data: nat, signers: set<Node>)

  predicate DistinctKeys(table: seq<Entry>)
  {
    forall i, j | 0 <= i < j < |table| :: table[i].key != table[j].key
  }

  /** The position of a key in the stake table. */
  function Position(table: seq<Entry>, key: Node): (r: Option<nat>)
    ensures r.Some? ==> r.value < |table| && table[r.value].key == key
    ensures r.None? ==> forall i | 0 <= i < |table| :: table[i].key != key
  {
    if |table| == 0 then None
    else if table[0].key == key then Some(0)
    else
      var rest := Position(table[1..], key);
      if rest.None? then None else Some(rest.value + 1)
  }

  function TallyOf(a: Accumulator, data: nat): Tally
  {
    if data in a then a[data] else Tally(0, {}, {})
  }

  /** `accumulate`: the new tallies, and the certificate if this vote completes one. */
  function Accumulate(c: Committee, a: Accumulator, v: Vote): (r: (Accumulator, Option<Certificate>))
  {
    var pos := Position(c.table, v.node);
    var t := TallyOf(a, v.data);
    if !v.signed || pos.None? || v.node in t.voters || pos.value in t.bits then (a, None)
    else
      var t' := Tally(t.stake + c.table[pos.value].stake, t.voters + {v.node}, t.bits + {pos.value});
      (a[v.data := t'],
       if t'.stake >= c.success then Some(Certificate(v.view, v.data, t'.voters)) else None)
  }

  /** `accumulate_vote`: a certificate ends the accumulator. */
  function AccumulateVote(c: Committee, col: Collector, v: Vote): (r: (Collector, Option<Certificate>))
  {
    if !v.ours || col.accumulator.None? then (col, None)
    else
      var (a, cert) := Accumulate(c, col.accumulator.value, v);
      (Collector(if cert.Some? then None else Some(a)), cert)
  }

  type Collectors = map<nat, Collector>

  /** `handle_vote`. */
  function HandleVote(c: Committee, cs: Collectors, v: Vote): (r: (Collectors, Option<Certificate>))
  {
    if v.view !in cs then
      var (col, cert) := AccumulateVote(c, Collector(Some(map[])), v);
      if v.ours then (cs[v.view := col], cert) else (cs, None)
    else
      var (col, cert) := AccumulateVote(c, cs[v.view], v);
      if cert.Some? then (map k | k in cs && k > v.view :: cs[k], cert)
      else (cs[v.view := col], None)
  }

  /** The collector map itself, updated in place; returns the certificate event it broadcasts. */
  class VoteCollectors {
    var collectors: Collectors

    constructor ()
      ensures collectors == map[]
    {
      collectors := map[];
    }

    method Handle(c: Committee, v: Vote) returns (cert: Option<Certificate>)
      modifies this
      ensures (collectors, cert) == HandleVote(c, old(collectors), v)
    {
      if v.view !in collectors {
        if !v.ours {
          return None;
        }
        var (a, formed) := Accumulate(c, map[], v);
        collectors := collectors[v.view := Collector(if formed.Some? then None else Some(a))];
        return formed;
      }
      if !v.ours || collectors[v.view].accumulator.None? {
        assert collectors == collectors[v.view := collectors[v.view]];
        return None;
      }
      var (a, formed) := Accumulate(c, collectors[v.view].accumulator.value, v);
      if formed.Some? {
        collectors := collectors - {v.view};
        collectors := map k | k in collectors && k >= v.view :: collectors[k];
        assert collectors == map k | k in old(collectors) && k > v.view :: old(collectors)[k];
      } else {
        collectors := collectors[v.view := Collector(Some(a))];
      }
      return formed;
    }
  }

  // ---- runs ----

  /** `formed` are the certificate events so far, `heard` the honest `(node, view)` pairs whose vote
      has been delivered. */
  datatype State = State(collectors: Collectors, formed: seq<Certificate>, heard: set<(Node, nat)>)

  /** Each honest vote is delivered at most once; a forged one does not check. */
  predicate Deliverable(c: Committee, s: State, v: Vote)
  {
    v.signed && c.Honest(v.node) ==> (v.node, v.view) !in s.heard
  }

  function Next(c: Committee, s: State, v: Vote): State
  {
    var (cs, cert) := HandleVote(c, s.collectors, v);
    State(cs, if cert.Some? then s.formed + [cert.value] else s.formed,
          if v.signed && c.Honest(v.node) then s.heard + {(v.node, v.view)} else s.heard)
  }

  predicate IsRun(c: Committee, run: seq<State>, votes: seq<Vote>)
  {
    && |run| == |votes| + 1 && run[0] == State(map[], [], {})
    && forall i | 0 <= i < |votes| :: Deliverable(c, run[i], votes[i]) && run[i + 1] == Next(c, run[i], votes[i])
  }

  /** `a` weighs what its voters weigh, and its honest voters were heard for `view`. */
  predicate Counted(c: Committee, heard: set<(Node, nat)>, view: nat, a: Accumulator)
  {
    forall d | d in a ::
      && a[d].stake == Weight(c.table, a[d].voters)
      && (forall h | h in a[d].voters && c.Honest(h) :: (h, view) in heard)
  }

  /** No honest voter of `a` signed `cert`. */
  predicate Apart(c: Committee, a: Accumulator, cert: Certificate)
  {
    forall d, h | d in a && h in a[d].voters && h in cert.signers :: !c.Honest(h)
  }

  predicate GoodCertificate(c: Committee, heard: set<(Node, nat)>, cert: Certificate)
  {
    c.SuccessQuorum(cert.signers) &&
    forall h | h in cert.signers && c.Honest(h) :: (h, cert.view) in heard
  }

  predicate Live(cs: Collectors, v: nat) { v in cs && cs[v].accumulator.Some? }

  predicate Inv(c: Committee, s: State)
  {
    && (forall v | v in s.collectors && Live(s.collectors, v) ::
          Counted(c, s.heard, v, s.collectors[v].accumulator.value))
    && (forall i | 0 <= i < |s.formed| :: GoodCertificate(c, s.heard, s.formed[i]))
    && (forall i | 0 <= i < |s.formed| && Live(s.collectors, s.formed[i].view) ::
          Apart(c, s.collectors[s.formed[i].view].accumulator.value, s.formed[i]))
    && (forall i, j | 0 <= i < j < |s.formed| :: s.formed[i].view != s.formed[j].view)
  }

  lemma {:induction false} WeightGrows(table: seq<Entry>, s: set<Node>, i: nat)
    requires DistinctKeys(table) && i < |table| && table[i].key !in s
    ensures Weight(table, s + {table[i].key}) == Weight(table, s) + table[i].stake
  {
    var k := table[i].key;
    if i == 0 {
      WeightIgnores(table[1..], s, k);
    } else {
      assert table[1..][i - 1] == table[i];
      WeightGrows(table[1..], s, i - 1);
    }
  }

  lemma {:induction false} WeightIgnores(table: seq<Entry>, s: set<Node>, k: Node)
    requires forall e | e in table :: e.key != k
    ensures Weight(table, s + {k}) == Weight(table, s)
  {
    if |table| > 0 {
      WeightIgnores(table[1..], s, k);
    }
  }

  lemma {:induction false} EmptyWeight(table: seq<Entry>)
    ensures Weight(table, {}) == 0
  {
    if |table| > 0 {
      EmptyWeight(table[1..]);
    }
  }

  /** One vote into one accumulator: it stays counted, a certificate it forms is good, and it stays
      apart from any certificate its honest voters had no part in. */
  lemma AccumulateKeeps(c: Committee, heard: set<(Node, nat)>, a: Accumulator, v: Vote)
    requires DistinctKeys(c.table) && Counted(c, heard, v.view, a)
    requires v.signed && c.Honest(v.node) ==> (v.node, v.view) !in heard
    ensures var heard' := if v.signed && c.Honest(v.node) then heard + {(v.node, v.view)} else heard;
            var r := Accumulate(c, a, v);
            && Counted(c, heard', v.view, r.0)
            && (r.1.Some? ==> GoodCertificate(c, heard', r.1.value) && r.1.value.view == v.view)
            && (r.1.Some? ==> v.data in r.0 && r.1.value.signers == r.0[v.data].voters)
            && (forall cert: Certificate | GoodCertificate(c, heard, cert) && cert.view == v.view && Apart(c, a, cert) ::
                  Apart(c, r.0, cert))
  {
    var pos := Position(c.table, v.node);
    var t := TallyOf(a, v.data);
    EmptyWeight(c.table);
    if pos.Some? && v.node !in t.voters {
      WeightGrows(c.table, t.voters, pos.value);
    }
  }

  /** A certificate is formed exactly when the vote counts and its voters then hold a quorum. */
  lemma FormedIffQuorum(c: Committee, heard: set<(Node, nat)>, a: Accumulator, v: Vote)
    requires DistinctKeys(c.table) && Counted(c, heard, v.view, a)
    ensures var r := Accumulate(c, a, v);
            r.1.Some? <==> TallyOf(r.0, v.data) != TallyOf(a, v.data) && c.SuccessQuorum(TallyOf(r.0, v.data).voters)
  {
    var pos := Position(c.table, v.node);
    var t := TallyOf(a, v.data);
    EmptyWeight(c.table);
    if pos.Some? && v.node !in t.voters {
      WeightGrows(c.table, t.voters, pos.value);
    }
  }

  /** Voters apart from a certificate's signers cannot form a quorum beside it. */
  lemma NotTwice(c: Committee, a: Accumulator, first: Certificate, second: Certificate)
    requires c.Sound() && c.SuccessQuorum(second.signers)
    requires Apart(c, a, first) && second.data in a && a[second.data].voters == second.signers
    ensures !c.SuccessQuorum(first.signers)
  {
    if c.SuccessQuorum(first.signers) {
      var h := SuccessQuorumsShareHonest(c, first.signers, second.signers);
    }
  }

  /** The accumulator a vote of view `v` goes into: the live one, or a new one. */
  function Base(cs: Collectors, v: nat): Accumulator
  {
    if Live(cs, v) then cs[v].accumulator.value else map[]
  }

  /** `handle_vote` touches only the vote's own view, apart from dropping others; what is live there
      afterwards is the base, or the base with the vote in it; a certificate leaves nothing live. */
  lemma HandleShape(c: Committee, cs: Collectors, v: Vote)
    ensures var r, acc := HandleVote(c, cs, v), Accumulate(c, Base(cs, v.view), v);
            && (forall k | k in r.0 && k != v.view :: k in cs && r.0[k] == cs[k])
            && (r.1.Some? ==> r.1 == acc.1 && !Live(r.0, v.view))
            && (Live(r.0, v.view) ==> r.0[v.view].accumulator.value == acc.0 || r.0[v.view].accumulator.value == Base(cs, v.view))
            && (Live(r.0, v.view) && r.0[v.view].accumulator.value != acc.0 ==> Live(cs, v.view))
  {}

  lemma HeardMore(c: Committee, heard: set<(Node, nat)>, more: set<(Node, nat)>, view: nat, a: Accumulator)
    requires heard <= more && Counted(c, heard, view, a)
    ensures Counted(c, more, view, a)
  {}

  lemma StepKeeps(c: Committee, s: State, v: Vote)
    requires c.Sound() && DistinctKeys(c.table) && Inv(c, s) && Deliverable(c, s, v)
    ensures Inv(c, Next(c, s, v))
  {
    var s' := Next(c, s, v);
    var a := Base(s.collectors, v.view);
    HandleShape(c, s.collectors, v);
    AccumulateKeeps(c, s.heard, a, v);
    HeardMore(c, s.heard, s'.heard, v.view, a);
    var (a', cert) := Accumulate(c, a, v);
    forall i | 0 <= i < |s.formed| && s.formed[i].view == v.view
      ensures Apart(c, a', s.formed[i]) && Apart(c, a, s.formed[i])
    {
      assert GoodCertificate(c, s.heard, s.formed[i]);
    }
    forall k | k in s'.collectors && Live(s'.collectors, k)
      ensures Counted(c, s'.heard, k, s'.collectors[k].accumulator.value)
    {
      if k != v.view {
        HeardMore(c, s.heard, s'.heard, k, s.collectors[k].accumulator.value);
      }
    }
    if |s'.formed| > |s.formed| {
      FirstOfItsView(c, s, v);
    }
  }

  /** A vote that completes a certificate completes the first one of its view. */
  lemma FirstOfItsView(c: Committee, s: State, v: Vote)
    requires c.Sound() && DistinctKeys(c.table) && Inv(c, s) && Deliverable(c, s, v)
    requires HandleVote(c, s.collectors, v).1.Some?
    ensures forall i | 0 <= i < |s.formed| :: s.formed[i].view != v.view
  {
    var a := Base(s.collectors, v.view);
    HandleShape(c, s.collectors, v);
    AccumulateKeeps(c, s.heard, a, v);
    var (a', cert) := Accumulate(c, a, v);
    forall i | 0 <= i < |s.formed| ensures s.formed[i].view != v.view {
      if s.formed[i].view == v.view {
        assert GoodCertificate(c, s.heard, s.formed[i]) && Apart(c, a, s.formed[i]);
        NotTwice(c, a', s.formed[i], cert.value);
      }
    }
  }

  lemma {:induction false} RunKeeps(c: Committee, run: seq<State>, votes: seq<Vote>, i: nat)
    requires c.Sound() && DistinctKeys(c.table) && IsRun(c, run, votes) && i < |run|
    ensures Inv(c, run[i])
  {
    if i > 0 {
      RunKeeps(c, run, votes, i - 1);
      StepKeeps(c, run[i - 1], votes[i - 1]);
    }
  }

  /** In every run, at most one certificate event per view, each backed by a success quorum. */
  lemma OneCertificatePerView(c: Committee, run: seq<State>, votes: seq<Vote>, i: nat)
    requires c.Sound() && DistinctKeys(c.table) && IsRun(c, run, votes) && i < |run|
    ensures forall j, k | 0 <= j < k < |run[i].formed| :: run[i].formed[j].view != run[i].formed[k].view
    ensures forall j | 0 <= j < |run[i].formed| :: c.SuccessQuorum(run[i].formed[j].signers)
  {
    RunKeeps(c, run, votes, i);
  }

  // ---- nothing delivered is lost ----

  /** `handle_vote` leaves every later view as it was, and drops a view only together with a certificate
      of that or a later view. */
  lemma LaterViewsKept(c: Committee, cs: Collectors, v: Vote, k: nat)
    ensures var r := HandleVote(c, cs, v);
            && (k > v.view ==> (k in r.0 <==> k in cs) && (k in cs ==> r.0[k] == cs[k]))
            && (k in cs && k !in r.0 ==> r.1.Some? && k <= r.1.value.view)
            && (k in cs && k in r.0 && k != v.view ==> r.0[k] == cs[k])
  {}

  /** Among the first `i` votes is a signed one of `h` for `data`, for this node to collect. */
  ghost predicate Delivered(votes: seq<Vote>, i: nat, h: Node, view: nat, data: nat)
    requires i <= |votes|
  {
    exists k :: 0 <= k < i && votes[k] == Vote(h, view, data, true, true)
  }

  /** A tally below the threshold that weighs what its voters weigh, with no bit but theirs. */
  predicate Open(c: Committee, t: Tally)
  {
    && t.stake == Weight(c.table, t.voters) && t.stake < c.success
    && forall b | b in t.bits :: b < |c.table| && c.table[b].key in t.voters
  }

  predicate AllOpen(c: Committee, cs: Collectors)
  {
    forall w | w in cs && cs[w].accumulator.Some? :: forall d | d in cs[w].accumulator.value :: Open(c, cs[w].accumulator.value[d])
  }

  lemma StaysOpen(c: Committee, cs: Collectors, v: Vote)
    requires DistinctKeys(c.table) && AllOpen(c, cs)
    ensures AllOpen(c, HandleVote(c, cs, v).0)
  {
    var pos := Position(c.table, v.node);
    var t := TallyOf(Base(cs, v.view), v.data);
    EmptyWeight(c.table);
    if pos.Some? && v.node !in t.voters {
      WeightGrows(c.table, t.voters, pos.value);
    }
  }

  /** A vote that counts is in its tally afterwards, or has just completed a certificate. */
  lemma VoteCounts(c: Committee, cs: Collectors, v: Vote)
    requires DistinctKeys(c.table) && AllOpen(c, cs) && v.signed && v.ours && Position(c.table, v.node).Some?
    requires v.view in cs ==> Live(cs, v.view)
    ensures var r := HandleVote(c, cs, v);
            r.1.Some? || HasVoter(r.0, v.view, v.data, v.node)
  {
    var pos, t := Position(c.table, v.node), TallyOf(Base(cs, v.view), v.data);
    if v.node !in t.voters {
      assert pos.value !in t.bits;
    }
  }

  predicate HasVoter(cs: Collectors, w: nat, data: nat, h: Node)
  {
    Live(cs, w) && data in cs[w].accumulator.value && h in cs[w].accumulator.value[data].voters
  }

  predicate NoneFrom(formed: seq<Certificate>, w: nat)
  {
    forall j | 0 <= j < |formed| :: formed[j].view < w
  }

  /** As long as no certificate of view `w` or later has been formed, its collector is live once it
      exists and holds every vote delivered to it. */
  ghost predicate Gathered(c: Committee, s: State, votes: seq<Vote>, i: nat, w: nat)
    requires i <= |votes|
  {
    NoneFrom(s.formed, w) ==>
      && (w in s.collectors ==> Live(s.collectors, w))
      && forall h, data | Delivered(votes, i, h, w, data) && Position(c.table, h).Some? ::
           HasVoter(s.collectors, w, data, h)
  }

  lemma StaysVoter(c: Committee, cs: Collectors, v: Vote, w: nat, data: nat, h: Node)
    requires HasVoter(cs, w, data, h)
    ensures var r := HandleVote(c, cs, v);
            HasVoter(r.0, w, data, h) || (r.1.Some? && w <= r.1.value.view)
  {}

  lemma StaysGathered(c: Committee, s: State, votes: seq<Vote>, i: nat, w: nat)
    requires DistinctKeys(c.table) && AllOpen(c, s.collectors) && i < |votes| && Gathered(c, s, votes, i, w)
    ensures Gathered(c, Next(c, s, votes[i]), votes, i + 1, w)
  {
    var v := votes[i];
    var s' := Next(c, s, v);
    LaterViewsKept(c, s.collectors, v, w);
    if NoneFrom(s'.formed, w) {
      assert forall j | 0 <= j < |s.formed| :: s'.formed[j] == s.formed[j];
      assert HandleVote(c, s.collectors, v).1.Some? ==> s'.formed[|s.formed|].view < w;
      forall h, data | Delivered(votes, i + 1, h, w, data) && Position(c.table, h).Some?
        ensures HasVoter(s'.collectors, w, data, h)
      {
        if Delivered(votes, i, h, w, data) {
          StaysVoter(c, s.collectors, v, w, data, h);
        } else {
          assert v == Vote(h, w, data, true, true);
          VoteCounts(c, s.collectors, v);
        }
      }
    }
  }

  lemma {:induction false} RunGathers(c: Committee, run: seq<State>, votes: seq<Vote>, i: nat, w: nat)
    requires DistinctKeys(c.table) && IsRun(c, run, votes) && i < |run|
    ensures AllOpen(c, run[i].collectors) && Gathered(c, run[i], votes, i, w)
  {
    if i > 0 {
      RunGathers(c, run, votes, i - 1, w);
      StaysOpen(c, run[i - 1].collectors, votes[i - 1]);
      StaysGathered(c, run[i - 1], votes, i - 1, w);
    }
  }

  lemma {:induction false} WeightCovered(table: seq<Entry>, s: set<Node>, t: set<Node>)
    requires forall e | e in table && e.key in s :: e.key in t
    ensures Weight(table, s) <= Weight(table, t)
  {
    if |table| > 0 {
      assert table[0] in table;
      WeightCovered(table[1..], s, t);
    }
  }

  lemma PositionOf(table: seq<Entry>, e: Entry)
    requires e in table
    ensures Position(table, e.key).Some?
  {
    var i :| 0 <= i < |table| && table[i] == e;
  }

  /** The converse of `OneCertificatePerView`: once the signed votes of a success quorum for one view and
      datum have been delivered, a certificate of that view or a later one has been formed. */
  lemma QuorumForms(c: Committee, run: seq<State>, votes: seq<Vote>, i: nat, view: nat, data: nat, quorum: set<Node>)
    requires c.Sound() && DistinctKeys(c.table) && IsRun(c, run, votes) && i < |run| && c.SuccessQuorum(quorum)
    requires forall h | h in quorum :: Delivered(votes, i, h, view, data)
    ensures exists j :: 0 <= j < |run[i].formed| && run[i].formed[j].view >= view
  {
    RunGathers(c, run, votes, i, view);
    var s := run[i];
    if NoneFrom(s.formed, view) {
      EmptyWeight(c.table);
      forall e | e in c.table && e.key in quorum ensures HasVoter(s.collectors, view, data, e.key) {
        PositionOf(c.table, e);
      }
      if e :| e in c.table && e.key in quorum {
        assert HasVoter(s.collectors, view, data, e.key);
        WeightCovered(c.table, quorum, s.collectors[view].accumulator.value[data].voters);
      } else {
        WeightCovered(c.table, quorum, {});
      }
      assert false;
    }
  }

  /** Whoever is in a live tally or has signed a certificate had a vote for exactly that delivered. */
  ghost predicate Rests(s: State, votes: seq<Vote>, i: nat)
    requires i <= |votes|
  {
    && (forall w, d, h | HasVoter(s.collectors, w, d, h) :: Delivered(votes, i, h, w, d))
    && (forall j, h | 0 <= j < |s.formed| && h in s.formed[j].signers ::
          Delivered(votes, i, h, s.formed[j].view, s.formed[j].data))
  }

  lemma DeliveredMore(votes: seq<Vote>, i: nat, h: Node, view: nat, data: nat)
    requires i < |votes| && Delivered(votes, i, h, view, data)
    ensures Delivered(votes, i + 1, h, view, data)
  {}

  /** A voter of the new tallies, or a signer of the new certificate, was there before or has just voted. */
  lemma NewVoter(c: Committee, cs: Collectors, v: Vote)
    ensures var r := HandleVote(c, cs, v);
            && (forall w, d, h | HasVoter(r.0, w, d, h) ::
                  HasVoter(cs, w, d, h) || v == Vote(h, w, d, true, true))
            && (r.1.Some? ==> forall h | h in r.1.value.signers ::
                  HasVoter(cs, r.1.value.view, r.1.value.data, h) || v == Vote(h, r.1.value.view, r.1.value.data, true, true))
  {}

  lemma StepRests(c: Committee, s: State, votes: seq<Vote>, i: nat)
    requires i < |votes| && Rests(s, votes, i)
    ensures Rests(Next(c, s, votes[i]), votes, i + 1)
  {
    var v, s' := votes[i], Next(c, s, votes[i]);
    NewVoter(c, s.collectors, v);
    forall w, d, h | HasVoter(s'.collectors, w, d, h) ensures Delivered(votes, i + 1, h, w, d) {
      if HasVoter(s.collectors, w, d, h) {
        DeliveredMore(votes, i, h, w, d);
      }
    }
    forall j, h | 0 <= j < |s'.formed| && h in s'.formed[j].signers
      ensures Delivered(votes, i + 1, h, s'.formed[j].view, s'.formed[j].data)
    {
      var cert := s'.formed[j];
      if j < |s.formed| || HasVoter(s.collectors, cert.view, cert.data, h) {
        DeliveredMore(votes, i, h, cert.view, cert.data);
      }
    }
  }

  /** Every signer of a certificate had a signed vote for its view and datum delivered. */
  lemma {:induction false} FormedFromVotes(c: Committee, run: seq<State>, votes: seq<Vote>, i: nat)
    requires IsRun(c, run, votes) && i < |run|
    ensures Rests(run[i], votes, i)
  {
    if i > 0 {
      FormedFromVotes(c, run, votes, i - 1);
      StepRests(c, run[i - 1], votes, i - 1);
    }
  }

  lemma {:induction false} AllHeard(c: Committee, run: seq<State>, votes: seq<Vote>, i: nat)
    requires IsRun(c, run, votes) && i < |run|
    ensures forall k | 0 <= k < i && votes[k].signed && c.Honest(votes[k].node) :: (votes[k].node, votes[k].view) in run[i].heard
  {
    if i > 0 {
      AllHeard(c, run, votes, i - 1);
    }
  }

  lemma HeardOnce(c: Committee, run: seq<State>, votes: seq<Vote>, j: nat, k: nat)
    requires IsRun(c, run, votes) && j < |votes| && k < |votes|
    requires votes[j].signed && votes[k].signed && c.Honest(votes[j].node)
    requires votes[j].node == votes[k].node && votes[j].view == votes[k].view
    ensures j == k
  {
    if j < k {
      AllHeard(c, run, votes, k);
    } else if k < j {
      AllHeard(c, run, votes, j);
    }
  }

  /** And if it is of that view, it is for what the quorum voted. */
  lemma QuorumFormsItsDatum(c: Committee, run: seq<State>, votes: seq<Vote>, i: nat, view: nat, data: nat,
                            quorum: set<Node>, j: nat)
    requires c.Sound() && DistinctKeys(c.table) && IsRun(c, run, votes) && i < |run| && c.SuccessQuorum(quorum)
    requires forall h | h in quorum :: Delivered(votes, i, h, view, data)
    requires j < |run[i].formed| && run[i].formed[j].view == view
    ensures run[i].formed[j].data == data
  {
    var cert := run[i].formed[j];
    RunKeeps(c, run, votes, i);
    FormedFromVotes(c, run, votes, i);
    var h := SuccessQuorumsShareHonest(c, quorum, cert.signers);
    var k :| 0 <= k < i && votes[k] == Vote(h, view, data, true, true);
    assert Delivered(votes, i, h, cert.view, cert.data);
    var l :| 0 <= l < i && votes[l] == Vote(h, cert.view, cert.data, true, true);
    HeardOnce(c, run, votes, k, l);
  }

  /** Two nodes of equal stake, both needed for a quorum. */
  predicate IsPair(c: Committee)
  {
    && |c.table| == 2 && c.table[0] == Entry(0, 1) && c.table[1] == Entry(1, 1) && c.success == 2
    && Position(c.table, 0) == Some(0) && Position(c.table, 1) == Some(1)
  }

  lemma FirstOfPair(c: Committee, view: nat, data: nat)
    requires IsPair(c)
    ensures HandleVote(c, map[], Vote(0, view, data, true, true)).0 ==
            map[view := Collector(Some(map[data := Tally(1, {0}, {0})]))]
  {
    var r := Accumulate(c, map[], Vote(0, view, data, true, true));
    assert {} + {0} == {0};
    assert r.0 == map[data := Tally(1, {0}, {0})];
  }

  /** The second vote forms the certificate and leaves no trace of the collector. */
  lemma SecondOfPair(c: Committee, view: nat, data: nat)
    requires IsPair(c)
    ensures var half := map[data := Tally(1, {0}, {0})];
            var r := HandleVote(c, map[view := Collector(Some(half))], Vote(1, view, data, true, true));
            r.0 == map[] && r.1 == Some(Certificate(view, data, {0} + {1}))
  {
  }

  /** Delivering each honest vote at most once is what this rests on: a collector is forgotten with
      the certificate it forms, so two honest votes delivered twice form the certificate twice. */
  lemma RedeliveryFormsTwice(view: nat, data: nat) returns (c: Committee)
    ensures c.Sound() && c.byzantine == {}
    ensures var first, second := Vote(0, view, data, true, true), Vote(1, view, data, true, true);
            var once := HandleVote(c, HandleVote(c, map[], first).0, second);
            var twice := HandleVote(c, HandleVote(c, once.0, first).0, second);
            once.1.Some? && twice.1 == once.1 && once.1.value.view == view
  {
    c := Committee([Entry(0, 1), Entry(1, 1)], {}, 2, 1);
    EmptyWeight(c.table);
    assert Total(c.table) == 2;
    assert IsPair(c);
    FirstOfPair(c, view, data);
    SecondOfPair(c, view, data);
  }
}
