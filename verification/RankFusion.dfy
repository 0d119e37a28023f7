/** What reciprocal-rank fusion means: the scores of all lanes add up, a hit's share is one over sixty
    plus its place, and so an earlier hit is never lost to a later one. */
module RankFusion {
  import opened Common
  import opened Retrieval

  function Total(lanes: seq<Lane>, visible: Scope, id: ChunkId): real {
    Score(lanes, |lanes|, visible, id)
  }

  lemma {:induction false} ScorePrefix(lanes: seq<Lane>, n: nat, visible: Scope, id: ChunkId)
    requires n <= |lanes|
    ensures Score(lanes, n, visible, id) == Total(lanes[..n], visible, id)
  {
    SamePrefix(lanes, lanes[..n], n, visible, id);
  }

  lemma {:induction false} SamePrefix(a: seq<Lane>, b: seq<Lane>, n: nat, visible: Scope, id: ChunkId)
    requires n <= |a| && n <= |b| && forall l :: 0 <= l < n ==> a[l] == b[l]
    ensures Score(a, n, visible, id) == Score(b, n, visible, id)
  {
    if n > 0 {
      SamePrefix(a, b, n - 1, visible, id);
    }
  }

  lemma {:induction false} LanePrefix(generation: string, a: seq<Hit>, b: seq<Hit>, n: nat, visible: Scope, id: ChunkId)
    requires n <= |a| && n <= |b| && a[..n] == b[..n]
    ensures LaneScore(Lane(generation, a), n, visible, id) == LaneScore(Lane(generation, b), n, visible, id)
  {
    if n > 0 {
      assert a[n - 1] == a[..n][n - 1] && b[n - 1] == b[..n][n - 1];
      assert a[..n - 1] == a[..n][..n - 1] && b[..n - 1] == b[..n][..n - 1];
      LanePrefix(generation, a, b, n - 1, visible, id);
    }
  }

  /** The score over several lanes is the sum of the scores over each: so their order does not matter. */
  lemma {:induction false} LanesAdd(a: seq<Lane>, b: seq<Lane>, visible: Scope, id: ChunkId)
    ensures Total(a + b, visible, id) == Total(a, visible, id) + Total(b, visible, id)
    decreases |b|
  {
    if b == [] {
      assert a + b == a;
    } else {
      var n := |b| - 1;
      LanesAdd(a, b[..n], visible, id);
      ScorePrefix(b, n, visible, id);
      ScorePrefix(a + b, |a| + n, visible, id);
      assert (a + b)[..|a| + n] == a + b[..n];
    }
  }

  /** A hit added at the end of a lane adds to the score of its own chunk, if its version is visible
      and of the lane's generation, one over sixty plus its place, counted from 1; and nothing else. */
  lemma {:induction false} HitAdds(generation: string, hits: seq<Hit>, hit: Hit, visible: Scope, id: ChunkId)
    ensures Total([Lane(generation, [])], visible, id) == 0.0
    ensures var added := Total([Lane(generation, hits + [hit])], visible, id)
                         - Total([Lane(generation, hits)], visible, id);
            if hit.id == id && hit.version in visible && visible[hit.version] == generation
            then added * (60 + |hits + [hit]|) as real == 1.0 else added == 0.0
  {
    var more := hits + [hit];
    AloneIsLane(Lane(generation, []), visible, id);
    AloneIsLane(Lane(generation, hits), visible, id);
    AloneIsLane(Lane(generation, more), visible, id);
    LanePrefix(generation, more, hits, |hits|, visible, id);
  }

  lemma {:induction false} AloneIsLane(lane: Lane, visible: Scope, id: ChunkId)
    ensures Total([lane], visible, id) == LaneScore(lane, |lane.hits|, visible, id)
  {
    assert Score([lane], 0, visible, id) == 0.0;
  }

  /** Of all hits in scope, only this one is of its chunk. */
  ghost predicate OnlyHit(lanes: seq<Lane>, visible: Scope, l: nat, r: nat) {
    && l < |lanes| && r < |lanes[l].hits| && InLane(lanes[l], r, visible)
    && forall m, k :: 0 <= m < |lanes| && 0 <= k < |lanes[m].hits| && InLane(lanes[m], k, visible) ==>
                        lanes[m].hits[k].id == lanes[l].hits[r].id ==> m == l && k == r
  }

  lemma {:induction false} LaneAbsent(lane: Lane, n: nat, visible: Scope, id: ChunkId)
    requires n <= |lane.hits|
    requires forall k :: 0 <= k < n && InLane(lane, k, visible) ==> lane.hits[k].id != id
    ensures LaneScore(lane, n, visible, id) == 0.0
  {
    if n > 0 {
      LaneAbsent(lane, n - 1, visible, id);
    }
  }

  lemma {:induction false} LaneOnce(lane: Lane, n: nat, visible: Scope, r: nat)
    requires r < n <= |lane.hits| && InLane(lane, r, visible)
    requires forall k :: 0 <= k < |lane.hits| && InLane(lane, k, visible) ==>
               lane.hits[k].id == lane.hits[r].id ==> k == r
    ensures LaneScore(lane, n, visible, lane.hits[r].id) == 1.0 / (61 + r) as real
  {
    if r == n - 1 {
      LaneAbsent(lane, r, visible, lane.hits[r].id);
    } else {
      LaneOnce(lane, n - 1, visible, r);
    }
  }

  lemma {:induction false} ScoreAbsent(lanes: seq<Lane>, n: nat, visible: Scope, id: ChunkId)
    requires n <= |lanes|
    requires forall m, k :: 0 <= m < n && 0 <= k < |lanes[m].hits| && InLane(lanes[m], k, visible) ==>
               lanes[m].hits[k].id != id
    ensures Score(lanes, n, visible, id) == 0.0
  {
    if n > 0 {
      ScoreAbsent(lanes, n - 1, visible, id);
      LaneAbsent(lanes[n - 1], |lanes[n - 1].hits|, visible, id);
    }
  }

  lemma {:induction false} ScoreOnce(lanes: seq<Lane>, n: nat, visible: Scope, l: nat, r: nat)
    requires l < n <= |lanes| && OnlyHit(lanes, visible, l, r)
    ensures Score(lanes, n, visible, lanes[l].hits[r].id) == 1.0 / (61 + r) as real
  {
    var id := lanes[l].hits[r].id;
    if l == n - 1 {
      ScoreAbsent(lanes, l, visible, id);
      LaneOnce(lanes[l], |lanes[l].hits|, visible, r);
    } else {
      ScoreOnce(lanes, n - 1, visible, l, r);
      LaneAbsent(lanes[n - 1], |lanes[n - 1].hits|, visible, id);
    }
  }

  /** A chunk found once, in whatever lane, scores one over sixty plus its place; of two such chunks
      the one at the earlier rank scores strictly more. */
  lemma RankScores(lanes: seq<Lane>, visible: Scope, l: nat, r: nat)
    requires OnlyHit(lanes, visible, l, r)
    ensures Total(lanes, visible, lanes[l].hits[r].id) * (61 + r) as real == 1.0
    ensures forall m: nat, k: nat :: OnlyHit(lanes, visible, m, k) && r < k ==>
              Total(lanes, visible, lanes[m].hits[k].id) < Total(lanes, visible, lanes[l].hits[r].id)
  {
    ScoreOnce(lanes, |lanes|, visible, l, r);
    forall m: nat, k: nat | OnlyHit(lanes, visible, m, k) && r < k
      ensures Total(lanes, visible, lanes[m].hits[k].id) < Total(lanes, visible, lanes[l].hits[r].id)
    {
      ScoreOnce(lanes, |lanes|, visible, m, k);
      Reciprocals(61 + r, 61 + k);
    }
  }

  lemma Reciprocals(a: nat, b: nat)
    requires 0 < a < b
    ensures 1.0 / b as real < 1.0 / a as real
  {
  }

  /** Among chunks found once, a later rank never gets into the best ids without, or before, an
      earlier one. */
  lemma EarlierNeverLost(lanes: seq<Lane>, visible: Scope, ids: seq<ChunkId>, l: nat, r: nat, m: nat, k: nat)
    requires BestIds(lanes, visible, ids)
    requires OnlyHit(lanes, visible, l, r) && OnlyHit(lanes, visible, m, k) && r < k
    requires lanes[m].hits[k].id in ids
    ensures Precedes(ids, lanes[l].hits[r].id, lanes[m].hits[k].id)
  {
    RankScores(lanes, visible, l, r);
    var earlier, later := lanes[l].hits[r].id, lanes[m].hits[k].id;
    assert Returned(lanes[l], |lanes[l].hits|, visible, earlier);
    var j :| 0 <= j < |ids| && ids[j] == later;
    assert earlier in ids;
    var i :| 0 <= i < |ids| && ids[i] == earlier;
    assert i < j;
  }
}
