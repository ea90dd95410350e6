/** The stake committee and its quorum arithmetic.

    A stake table is the list of entries a `Membership` hands out.  A certificate is valid when its
    signers' stake reaches a threshold; every agreement argument rests on how two such signer sets
    overlap outside the Byzantine keys.
 */
module Committees {

  type Node = nat

  datatype Entry = Entry(key: Node, stake: nat)

  /** The stake of the entries of `table` whose key is in `s`. */
  function Weight(table: seq<Entry>, s: set<Node>): (w: nat)
  {
    if |table| == 0 then 0
    else (if table[0].key in s then table[0].stake else 0) + Weight(table[1..], s)
  }

  function Total(table: seq<Entry>): (t: nat)
  {
    if |table| == 0 then 0 else table[0].stake + Total(table[1..])
  }

  /** `success` and `failure` are the committee's `success_threshold` and `failure_threshold`;
      `byzantine` is unknown to the code and appears only in specifications. */
  datatype Committee = Committee(table: seq<Entry>, byzantine: set<Node>, success: nat, failure: nat)
  {
    predicate Honest(n: Node) { n !in byzantine }

    /** The bound on Byzantine stake under which the protocol is meant to run. */
    predicate Sound() {
      && 2 * success > Total(table) + Weight(table, byzantine)
      && failure > Weight(table, byzantine)
    }

    predicate SuccessQuorum(s: set<Node>) { Weight(table, s) >= success }

    predicate FailureQuorum(s: set<Node>) { Weight(table, s) >= failure }
  }

  /** Two signer sets together weigh at most the whole table plus their overlap. */
  lemma {:induction false} WeightOfOverlap(table: seq<Entry>, a: set<Node>, b: set<Node>)
    ensures Weight(table, a) + Weight(table, b) <= Total(table) + Weight(table, a * b)
  {
    if |table| > 0 {
      WeightOfOverlap(table[1..], a, b);
    }
  }

  lemma {:induction false} WeightMonotone(table: seq<Entry>, a: set<Node>, b: set<Node>)
    requires a <= b
    ensures Weight(table, a) <= Weight(table, b) <= Total(table)
  {
    if |table| > 0 {
      WeightMonotone(table[1..], a, b);
    }
  }

  /** Any two success quorums share an honest signer. */
  lemma SuccessQuorumsShareHonest(c: Committee, a: set<Node>, b: set<Node>) returns (h: Node)
    requires c.Sound() && c.SuccessQuorum(a) && c.SuccessQuorum(b)
    ensures h in a && h in b && c.Honest(h)
  {
    WeightOfOverlap(c.table, a, b);
    if a * b <= c.byzantine {
      WeightMonotone(c.table, a * b, c.byzantine);
      assert false;
    }
    h :| h in a * b && h !in c.byzantine;
  }

  lemma SuccessQuorumHasHonest(c: Committee, a: set<Node>) returns (h: Node)
    requires c.Sound() && c.SuccessQuorum(a)
    ensures h in a && c.Honest(h)
  {
    h := SuccessQuorumsShareHonest(c, a, a);
  }

  lemma FailureQuorumHasHonest(c: Committee, a: set<Node>) returns (h: Node)
    requires c.Sound() && c.FailureQuorum(a)
    ensures h in a && c.Honest(h)
  {
    if a <= c.byzantine {
      WeightMonotone(c.table, a, c.byzantine);
      assert false;
    }
    h :| h in a && h !in c.byzantine;
  }

  /** The static committee counts nodes: one unit of stake each, `2n/3 + 1` for success and
      `n/3 + 1` for failure. */
  function StaticCommittee(keys: seq<Node>, byzantine: set<Node>): (c: Committee)
  {
    Committee(seq(|keys|, i requires 0 <= i < |keys| => Entry(keys[i], 1)), byzantine,
              |keys| * 2 / 3 + 1, |keys| / 3 + 1)
  }

  lemma {:induction false} UnitTotal(table: seq<Entry>)
    requires forall e | e in table :: e.stake == 1
    ensures Total(table) == |table|
  {
    if |table| > 0 {
      UnitTotal(table[1..]);
    }
  }

  /** Fewer than, or exactly, a third of the nodes being Byzantine is what makes it sound. */
  lemma StaticCommitteeSoundIffThird(keys: seq<Node>, byzantine: set<Node>)
    ensures var c := StaticCommittee(keys, byzantine);
            c.Sound() <==> 3 * Weight(c.table, byzantine) <= |keys|
  {
    UnitTotal(StaticCommittee(keys, byzantine).table);
  }

  /** And strictly fewer than a third is what lets the honest nodes reach the success threshold alone. */
  lemma HonestReachSuccessIffBelowThird(keys: seq<Node>, byzantine: set<Node>)
    ensures var c := StaticCommittee(keys, byzantine);
            Total(c.table) - Weight(c.table, byzantine) >= c.success <==> 3 * Weight(c.table, byzantine) < |keys|
  {
    UnitTotal(StaticCommittee(keys, byzantine).table);
  }
}
