/** Retrieval metrics over exact reals, for any positive strictly decreasing discount. */
module Metrics {
  import opened Common
  import opened Retrieval

  type Id = ChunkId

  ghost predicate IsDiscount(d: nat -> real) {
    (forall i :: d(i) > 0.0) && forall i, j :: i < j ==> d(i) > d(j)
  }

  function Matched(expected: set<Id>, actual: seq<Id>): set<Id> {
    set x | x in expected && x in actual
  }

  /** The discounted gain of the hits, summed front to back. */
  function Dcg(expected: set<Id>, actual: seq<Id>, d: nat -> real): real {
    if actual == [] then 0.0
    else
      var last := |actual| - 1;
      Dcg(expected, actual[..last], d) + if actual[last] in expected then d(last) else 0.0
  }

  /** The gain of `n` hits in the first `n` positions. */
  function Ideal(n: nat, d: nat -> real): real {
    if n == 0 then 0.0 else Ideal(n - 1, d) + d(n - 1)
  }

  function Recall(expected: set<Id>, actual: seq<Id>): real {
    if expected == {} then (if actual == [] then 1.0 else 0.0)
    else |Matched(expected, actual)| as real / |expected| as real
  }

  /** `1 / (i + 1)` at the first hit, scanning from position `i`. */
  function ReciprocalFrom(expected: set<Id>, actual: seq<Id>, i: nat): real
    decreases |actual| - i
  {
    if i >= |actual| then 0.0
    else if actual[i] in expected then 1.0 / (i + 1) as real
    else ReciprocalFrom(expected, actual, i + 1)
  }

  function Mrr(expected: set<Id>, actual: seq<Id>): real {
    ReciprocalFrom(expected, actual, 0)
  }

  function Ndcg(expected: set<Id>, actual: seq<Id>, d: nat -> real): real {
    var ideal := Ideal(Min(|expected|, |actual|), d);
    if ideal != 0.0 then Dcg(expected, actual, d) / ideal
    else if actual == [] then 1.0 else 0.0
  }

  // ---------------------------------------------------------------- recall and reciprocal rank

  lemma MatchedBound(expected: set<Id>, actual: seq<Id>)
    ensures |Matched(expected, actual)| <= |expected|
    ensures |Matched(expected, actual)| == |expected| <==> forall x :: x in expected ==> x in actual
  {
    var m := Matched(expected, actual);
    assert m <= expected && expected == m + (expected - m);
  }

  /** Recall lies in [0, 1], and is 1 exactly when everything relevant was returned. */
  lemma RecallBounds(expected: set<Id>, actual: seq<Id>)
    ensures 0.0 <= Recall(expected, actual) <= 1.0
    ensures expected != {} ==> (Recall(expected, actual) == 1.0 <==> forall x :: x in expected ==> x in actual)
  {
    MatchedBound(expected, actual);
    if expected != {} {
      RatioBounds(|Matched(expected, actual)| as real, |expected| as real);
    }
  }

  /** Recall is the share of the expected items that were returned. */
  lemma RecallExact(expected: set<Id>, actual: seq<Id>)
    ensures expected != {} ==>
              Recall(expected, actual) * |expected| as real == |set x | x in expected && x in actual| as real
    ensures expected == {} ==> Recall(expected, actual) == if actual == [] then 1.0 else 0.0
  {
    assert Matched(expected, actual) == set x | x in expected && x in actual;
  }

  lemma {:induction false} ReciprocalExact(expected: set<Id>, actual: seq<Id>, i: nat, k: nat)
    requires i <= k < |actual| && actual[k] in expected
    requires forall j :: i <= j < k ==> actual[j] !in expected
    ensures ReciprocalFrom(expected, actual, i) == 1.0 / (k + 1) as real
    decreases k - i
  {
    if i < k {
      ReciprocalExact(expected, actual, i + 1, k);
    }
  }

  lemma {:induction false} ReciprocalNone(expected: set<Id>, actual: seq<Id>, i: nat)
    requires forall j :: i <= j < |actual| ==> actual[j] !in expected
    ensures ReciprocalFrom(expected, actual, i) == 0.0
    decreases |actual| - i
  {
    if i < |actual| {
      ReciprocalNone(expected, actual, i + 1);
    }
  }

  lemma FirstHit(expected: set<Id>, actual: seq<Id>) returns (k: nat)
    ensures k <= |actual| && (forall j :: 0 <= j < k ==> actual[j] !in expected)
    ensures k < |actual| ==> actual[k] in expected
  {
    k := 0;
    while k < |actual| && actual[k] !in expected
      invariant k <= |actual| && forall j :: 0 <= j < k ==> actual[j] !in expected
    {
      k := k + 1;
    }
  }

  /** The reciprocal rank lies in [0, 1]: zero without a hit, one exactly when the first result is relevant. */
  lemma MrrBounds(expected: set<Id>, actual: seq<Id>)
    ensures 0.0 <= Mrr(expected, actual) <= 1.0
    ensures Mrr(expected, actual) == 0.0 <==> Matched(expected, actual) == {}
    ensures Mrr(expected, actual) == 1.0 <==> actual != [] && actual[0] in expected
  {
    var k := FirstHit(expected, actual);
    if k < |actual| {
      ReciprocalExact(expected, actual, 0, k);
      assert actual[k] in Matched(expected, actual);
      var r := 1.0 / (k + 1) as real;
      assert r * (k + 1) as real == 1.0;
      if k > 0 {
        assert (k + 1) as real > 1.0;
      }
    } else {
      ReciprocalNone(expected, actual, 0);
      assert Matched(expected, actual) == {};
    }
  }

  /** The reciprocal rank is one over the place, counted from 1, of the first hit. */
  lemma {:induction false} MrrExact(expected: set<Id>, actual: seq<Id>, k: nat)
    requires k < |actual| && actual[k] in expected && forall j :: 0 <= j < k ==> actual[j] !in expected
    ensures Mrr(expected, actual) * (k + 1) as real == 1.0
  {
    ReciprocalExact(expected, actual, 0, k);
  }

  // ---------------------------------------------------------------- discounted gain

  /** What is gained is the sum over the items of what each of them gains alone. */
  lemma {:induction false} DcgAdds(a: set<Id>, b: set<Id>, actual: seq<Id>, d: nat -> real)
    requires a !! b
    ensures Dcg(a + b, actual, d) == Dcg(a, actual, d) + Dcg(b, actual, d)
    decreases |actual|
  {
    if actual != [] {
      DcgAdds(a, b, actual[..|actual| - 1], d);
    }
  }

  /** An item returned once gains the discount of its position, one that was not returned nothing. */
  lemma {:induction false} DcgAlone(x: Id, actual: seq<Id>, i: nat, d: nat -> real)
    requires i <= |actual| && forall j :: 0 <= j < |actual| ==> (actual[j] == x <==> j == i)
    ensures Dcg({x}, actual, d) == if i < |actual| then d(i) else 0.0
    decreases |actual|
  {
    if actual != [] {
      var last := |actual| - 1;
      DcgAlone(x, actual[..last], Min(i, last), d);
    }
  }

  /** Relevant positions, repetitions included. */
  function Hits(expected: set<Id>, actual: seq<Id>): nat {
    if actual == [] then 0
    else
      var last := |actual| - 1;
      Hits(expected, actual[..last]) + if actual[last] in expected then 1 else 0
  }

  lemma {:induction false} HitsBound(expected: set<Id>, actual: seq<Id>)
    ensures Hits(expected, actual) <= |actual|
    ensures Hits(expected, actual) == 0 <==> Matched(expected, actual) == {}
  {
    if actual == [] {
      assert Matched(expected, actual) == {};
    } else {
      var last := |actual| - 1;
      HitsBound(expected, actual[..last]);
      assert actual == actual[..last] + [actual[last]];
      if actual[last] in expected {
        assert actual[last] in Matched(expected, actual);
      } else {
        assert Matched(expected, actual) == Matched(expected, actual[..last]);
      }
    }
  }

  lemma MatchedNext(expected: set<Id>, init: seq<Id>, x: Id)
    requires x !in init
    ensures |Matched(expected, init + [x])| == |Matched(expected, init)| + if x in expected then 1 else 0
  {
    var m := Matched(expected, init);
    assert Matched(expected, init + [x]) == if x in expected then m + {x} else m;
  }

  /** Without repetitions the hits are the matched items, so no more than there are to find. */
  lemma {:induction false} DistinctHits(expected: set<Id>, actual: seq<Id>)
    requires Distinct(actual)
    ensures Hits(expected, actual) == |Matched(expected, actual)| <= |expected|
  {
    MatchedBound(expected, actual);
    if actual == [] {
      assert Matched(expected, actual) == {};
    } else {
      var init, x := actual[..|actual| - 1], actual[|actual| - 1];
      assert init + [x] == actual;
      DistinctHits(expected, init);
      MatchedNext(expected, init, x);
    }
  }

  lemma {:induction false} IdealMonotone(m: nat, n: nat, d: nat -> real)
    requires IsDiscount(d) && m <= n
    ensures 0.0 <= Ideal(m, d) <= Ideal(n, d)
    ensures m < n ==> Ideal(m, d) < Ideal(n, d)
  {
    if m < n {
      IdealMonotone(m, n - 1, d);
    } else if m > 0 {
      IdealMonotone(m - 1, n - 1, d);
    }
  }

  ghost predicate FillsFirst(expected: set<Id>, actual: seq<Id>, n: nat) {
    n <= |actual| && forall i :: 0 <= i < n ==> actual[i] in expected
  }

  /** The first `n` positions are hits exactly when they are all that `n` hits can be. */
  lemma {:induction false} FilledHits(expected: set<Id>, actual: seq<Id>, n: nat)
    requires n <= |actual|
    ensures FillsFirst(expected, actual, n) ==> Hits(expected, actual) >= n
    decreases |actual|
  {
    if actual != [] {
      var init := actual[..|actual| - 1];
      if n < |actual| {
        FilledHits(expected, init, n);
      } else {
        FilledHits(expected, init, n - 1);
      }
    }
  }

  /** `h` hits gain at most what `h` hits at the front would, and as much only if they are there. */
  lemma {:induction false} DcgBound(expected: set<Id>, actual: seq<Id>, d: nat -> real)
    requires IsDiscount(d)
    ensures var h := Hits(expected, actual);
            && 0.0 <= Dcg(expected, actual, d) <= Ideal(h, d)
            && (Dcg(expected, actual, d) == Ideal(h, d) <==> FillsFirst(expected, actual, h))
  {
    if actual != [] {
      var last := |actual| - 1;
      var init := actual[..last];
      HitsBound(expected, init);
      DcgBound(expected, init, d);
      var h := Hits(expected, init);
      if actual[last] in expected {
        assert h < last ==> d(h) > d(last);
        if h < last {
          FilledHits(expected, init, h + 1);
        }
      }
    }
  }

  /** While there are no more hits than relevant items nDCG lies in [0, 1]; for non-empty inputs it
      is 1 exactly when hits fill the first min(|expected|, |actual|) positions. */
  lemma {:induction false} NdcgBounds(expected: set<Id>, actual: seq<Id>, d: nat -> real)
    requires IsDiscount(d) && Hits(expected, actual) <= |expected|
    ensures 0.0 <= Ndcg(expected, actual, d) <= 1.0
    ensures expected != {} && actual != [] ==>
              (Ndcg(expected, actual, d) == 1.0 <==> FillsFirst(expected, actual, Min(|expected|, |actual|)))
  {
    var n, h := Min(|expected|, |actual|), Hits(expected, actual);
    HitsBound(expected, actual);
    DcgBound(expected, actual, d);
    IdealMonotone(h, n, d);
    IdealMonotone(0, n, d);
    var gain, ideal := Dcg(expected, actual, d), Ideal(n, d);
    if ideal != 0.0 {
      RatioBounds(gain, ideal);
      assert gain == ideal <==> h == n && gain == Ideal(h, d);
      FilledHits(expected, actual, n);
    }
  }

  /** nDCG is the gain relative to that of a list of the same length with hits in front, as many as
      there can be. */
  lemma {:induction false} NdcgExact(expected: set<Id>, actual: seq<Id>, best: seq<Id>, d: nat -> real)
    requires IsDiscount(d) && expected != {} && actual != []
    requires Hits(expected, best) == Min(|expected|, |actual|)
    requires FillsFirst(expected, best, Min(|expected|, |actual|))
    ensures Dcg(expected, best, d) > 0.0
    ensures Ndcg(expected, actual, d) == Dcg(expected, actual, d) / Dcg(expected, best, d)
  {
    IdealIsBest(expected, actual, best, d);
  }

  lemma {:induction false} IdealIsBest(expected: set<Id>, actual: seq<Id>, best: seq<Id>, d: nat -> real)
    requires IsDiscount(d) && expected != {} && actual != []
    requires Hits(expected, best) == Min(|expected|, |actual|)
    requires FillsFirst(expected, best, Min(|expected|, |actual|))
    ensures Dcg(expected, best, d) == Ideal(Min(|expected|, |actual|), d) > 0.0
  {
    DcgBound(expected, best, d);
    IdealMonotone(0, Min(|expected|, |actual|), d);
  }

  lemma RatioBounds(a: real, b: real)
    requires 0.0 <= a <= b && b > 0.0
    ensures 0.0 <= a / b <= 1.0
    ensures a / b == 1.0 <==> a == b
  {
    assert a / b * b == a;
  }

  lemma RatioAbove(a: real, b: real)
    requires a > b > 0.0
    ensures a / b > 1.0
  {
    assert a / b * b == a;
  }

  // ---------------------------------------------------------------- when the bound fails

  /** A discount so flat that `n` positions at the front gain no more than `n + 1`. */
  function Flat(n: nat): nat -> real
    requires n > 0
  {
    (i: nat) => 1.0 + 1.0 / (n + i) as real
  }

  lemma FlatIsDiscount(n: nat)
    requires n > 0
    ensures IsDiscount(Flat(n))
    ensures forall i: nat :: 1.0 < Flat(n)(i) <= 1.0 + 1.0 / n as real
  {
    forall i: nat ensures 1.0 < Flat(n)(i) <= 1.0 + 1.0 / n as real {
      Inverse(n, n + i);
    }
    forall i: nat, j: nat | i < j ensures Flat(n)(i) > Flat(n)(j) {
      Inverse(n + i, n + j);
    }
  }

  lemma Inverse(a: nat, b: nat)
    requires 0 < a <= b
    ensures 0.0 < 1.0 / b as real <= 1.0 / a as real
    ensures a < b ==> 1.0 / b as real < 1.0 / a as real
  {
  }

  lemma {:induction false} FlatIdeal(n: nat, k: nat, share: real)
    requires n > 0 && share == 1.0 / n as real
    ensures Ideal(k, Flat(n)) <= k as real + k as real * share
  {
    if k > 0 {
      FlatIdeal(n, k - 1, share);
      FlatIsDiscount(n);
      assert (k - 1) as real * share + share == k as real * share;
    }
  }

  lemma {:induction false} FlatGain(expected: set<Id>, actual: seq<Id>, n: nat)
    requires n > 0
    ensures Dcg(expected, actual, Flat(n)) >= Hits(expected, actual) as real
    ensures Hits(expected, actual) > 0 ==> Dcg(expected, actual, Flat(n)) > Hits(expected, actual) as real
  {
    if actual != [] {
      FlatGain(expected, actual[..|actual| - 1], n);
      FlatIsDiscount(n);
    }
  }

  /** More hits than relevant items exceed 1 under the flat discount. */
  lemma {:induction false} RepeatsExceedOne(expected: set<Id>, actual: seq<Id>)
    requires expected != {} && Hits(expected, actual) > |expected|
    ensures IsDiscount(Flat(|expected|)) && Ndcg(expected, actual, Flat(|expected|)) > 1.0
  {
    var n := |expected|;
    HitsBound(expected, actual);
    FlatIsDiscount(n);
    FlatFront(n);
    FlatGain(expected, actual, n);
    RatioAbove(Dcg(expected, actual, Flat(n)), Ideal(n, Flat(n)));
  }

  lemma {:induction false} FlatFront(n: nat)
    requires n > 0
    ensures 0.0 < Ideal(n, Flat(n)) <= n as real + 1.0
  {
    FlatIsDiscount(n);
    FlatIdeal(n, n, 1.0 / n as real);
    IdealMonotone(0, n, Flat(n));
  }

  /** nDCG stays in [0, 1] for every discount exactly when there are no more hits, repetitions
      counted, than relevant items. */
  lemma {:induction false} NdcgInRangeExactly(expected: set<Id>, actual: seq<Id>)
    ensures (forall d :: IsDiscount(d) ==> 0.0 <= Ndcg(expected, actual, d) <= 1.0) <==>
              Hits(expected, actual) <= |expected|
  {
    if Hits(expected, actual) <= |expected| {
      forall d | IsDiscount(d) ensures 0.0 <= Ndcg(expected, actual, d) <= 1.0 {
        NdcgBounds(expected, actual, d);
      }
    } else {
      HitsBound(expected, actual);
      assert expected == {} ==> Matched(expected, actual) == {};
      RepeatsExceedOne(expected, actual);
    }
  }

  /** The smallest such list: one relevant item returned twice exceeds 1 under every discount. */
  lemma DuplicatesExceedOne(x: Id, d: nat -> real)
    requires IsDiscount(d)
    ensures Hits({x}, [x, x]) > |{x}| && Ndcg({x}, [x, x], d) > 1.0
  {
    var one, two := [x], [x, x];
    assert two[..1] == one && one[..0] == [];
    assert Dcg({x}, one, d) == Dcg({x}, one[..0], d) + d(0) == d(0);
    assert Dcg({x}, two, d) == Dcg({x}, two[..1], d) + d(1) == d(0) + d(1);
    assert Hits({x}, one) == Hits({x}, one[..0]) + 1 && Hits({x}, two) == Hits({x}, two[..1]) + 1;
    assert Ideal(1, d) == Ideal(0, d) + d(0) == d(0);
    RatioAbove(d(0) + d(1), d(0));
  }

  /** A result that found nothing scores a perfect nDCG exactly when it is empty; its recall and
      reciprocal rank are then zero. */
  lemma EmptyResultScoresPerfect(expected: set<Id>, actual: seq<Id>, d: nat -> real)
    requires IsDiscount(d) && expected != {}
    ensures Ndcg(expected, actual, d) == 1.0 && Mrr(expected, actual) == 0.0 <==> actual == []
    ensures actual == [] ==> Recall(expected, actual) == 0.0
  {
    MrrBounds(expected, actual);
    HitsBound(expected, actual);
    DcgBound(expected, actual, d);
    if actual == [] {
      assert Matched(expected, actual) == {};
    } else {
      IdealMonotone(0, Min(|expected|, |actual|), d);
    }
  }

  // ---------------------------------------------------------------- what an evaluation records

  datatype Scores = Scores(recall: real, mrr: real, ndcg: real)

  /** One case of an evaluation: retrieval never repeats an evidence id, so all its scores are in range. */
  method EvaluateCase(table: seq<Row>, visible: Scope, lanes: seq<Lane>, rerank: seq<nat>, global: bool, limit: nat,
                      expected: set<Id>, d: nat -> real)
    returns (r: Result<Scores, RetrievalError>, ghost retrieved: Result<seq<Evidence>, RetrievalError>,
             ghost best: seq<ChunkId>)
    requires limit >= 1 && UniqueIds(table) && IsDiscount(d)
    ensures global ==> retrieved == if |Visible(table, visible)| > 1000 then Err(ScopeTooLarge)
                                    else Ok(Chosen(Visible(table, visible), true, limit))
    ensures !global ==>
              BestIds(lanes, visible, best) && retrieved == FusedEvidence(table, visible, best, rerank, limit)
    ensures r == match retrieved
                 case Err(e) => Err(e)
                 case Ok(evidence) =>
                   var actual := EvidenceIds(evidence);
                   Ok(Scores(Recall(expected, actual), Mrr(expected, actual), Ndcg(expected, actual, d)))
    ensures r.Ok? ==> 0.0 <= r.value.recall <= 1.0 && 0.0 <= r.value.mrr <= 1.0 && 0.0 <= r.value.ndcg <= 1.0
    ensures visible == map[] && expected != {} ==> r == Ok(Scores(0.0, 0.0, 1.0))
  {
    var outcome, ids := Retrieve(table, visible, lanes, rerank, global, limit);
    if outcome.Err? {
      return Err(outcome.error), outcome, ids;
    }
    var found := EvidenceIds(outcome.value);
    DistinctHits(expected, found);
    RecallBounds(expected, found);
    MrrBounds(expected, found);
    NdcgBounds(expected, found, d);
    if expected != {} {
      EmptyResultScoresPerfect(expected, found, d);
    }
    return Ok(Scores(Recall(expected, found), Mrr(expected, found), Ndcg(expected, found, d))), outcome, ids;
  }
}
