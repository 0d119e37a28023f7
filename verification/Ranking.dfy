/** Keys of a score table, best first. */
module Ranking {
  import opened Common

  /** `ids` are the best `|ids|` keys of the table, best first; ties may come in any order. */
  ghost predicate Ranked<K(!new)>(scores: map<K, real>, ids: seq<K>) {
    && Distinct(ids)
    && (forall i :: 0 <= i < |ids| ==> ids[i] in scores)
    && (forall i, j :: 0 <= i < j < |ids| ==> scores[ids[i]] >= scores[ids[j]])
    && (forall i, k :: 0 <= i < |ids| && k in scores && k !in ids ==> scores[ids[i]] >= scores[k])
  }

  lemma {:induction false} BestExists<K>(left: set<K>, scores: map<K, real>) returns (best: K)
    requires left != {} && left <= scores.Keys
    ensures best in left && forall k :: k in left ==> scores[k] <= scores[best]
    decreases |left|
  {
    best :| best in left;
    var rest := left - {best};
    if rest == {} {
      assert left == {best};
    } else {
      var other := BestExists(rest, scores);
      if scores[best] < scores[other] {
        best := other;
      }
    }
  }

  /** `sorted(..., reverse=True)[:cap]`. */
  method BestFirst<K(==, !new)>(scores: map<K, real>, cap: nat) returns (ids: seq<K>)
    ensures Ranked(scores, ids)
    ensures |ids| <= cap && (|ids| < cap ==> forall k :: k in scores ==> k in ids)
  {
    ids := [];
    var left := scores.Keys;
    while left != {} && |ids| < cap
      invariant left <= scores.Keys && (forall k :: k in scores ==> (k in left <==> k !in ids))
      invariant |ids| <= cap && Ranked(scores, ids)
      decreases |left|
    {
      ghost var top := BestExists(left, scores);
      var best :| best in left && forall k :: k in left ==> scores[k] <= scores[best];
      assert best !in ids;
      ids := ids + [best];
      left := left - {best};
    }
  }
}
