/** The backtracking search for the last block's VID commitment. */
module VidSearch {
  import opened Leaves

  datatype Search =
    | Found(view: nat, commitment: nat)
    | MissingRecord(view: nat)
    | MissingLeaf(view: nat)
    | ReachedGenesis

  function PayloadOf(l: Leaf): nat { if l.Genesis? then 0 else l.payload }

  /** Every view above `low` up to `top` is recorded as failed. */
  predicate FailedAbove(s: Store, low: int, top: nat)
  {
    forall v: nat | low < v <= top :: v in s.views && s.views[v].Failed?
  }

  /** What the search may answer: it names the greatest view up to `top` that is not a recorded
      failure, and says what is there. */
  predicate Answers(s: Store, top: nat, r: Search)
  {
    match r
    case Found(v, c) =>
      v <= top && FailedAbove(s, v, top) && v in s.views &&
      (s.views[v] == Da(c) ||
       (s.views[v].LeafView? && s.views[v].leaf in s.leaves && c == PayloadOf(s.views[v].leaf)))
    case MissingRecord(v) => v <= top && FailedAbove(s, v, top) && v !in s.views
    case MissingLeaf(v) =>
      v <= top && FailedAbove(s, v, top) && v in s.views && s.views[v].LeafView? && s.views[v].leaf !in s.leaves
    case ReachedGenesis => FailedAbove(s, -1, top)
  }

  /** No other answer fits. */
  lemma AnswerIsUnique(s: Store, top: nat, a: Search, b: Search)
    requires Answers(s, top, a) && Answers(s, top, b)
    ensures a == b
  {}

  method LastVidCommitment(s: Store, blockView: nat) returns (r: Search)
    ensures Answers(s, if blockView == 0 then 0 else blockView - 1, r)
  {
    var target: nat := if blockView == 0 then 0 else blockView - 1;
    ghost var top := target;
    while true
      invariant target <= top && FailedAbove(s, target, top)
      decreases target
    {
      if target !in s.views {
        return MissingRecord(target);
      }
      match s.views[target] {
        case Da(payload) =>
          return Found(target, payload);
        case LeafView(leaf, _) =>
          if leaf !in s.leaves {
            return MissingLeaf(target);
          }
          return Found(target, PayloadOf(leaf));
        case Failed =>
          if target == 0 {
            return ReachedGenesis;
          }
          target := target - 1;
      }
    }
  }
}
