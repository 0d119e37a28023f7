/** Rank fusion, scope filtering, budgeted evidence selection, and answers grounded in it. */
module Retrieval {
  import opened Common
  import opened Ranking
  import Indexes

  type ChunkId = Indexes.RecordId

  const GLOBAL_BUDGET: nat := 45000
  const BUDGET: nat := 24000
  const PARENT_LIMIT: nat := 8000
  const FUSED_LIMIT: nat := 60
  const GLOBAL_ROWS: nat := 1000

  datatype Row = Row(id: ChunkId, version: VersionId, text: string, parentText: string)

  /** What an index claims to have found. */
  datatype Hit = Hit(id: ChunkId, version: VersionId)

  /** One search of one index generation, hits best first. */
  datatype Lane = Lane(generation: string, hits: seq<Hit>)

  /** The visible versions and the index generation each belongs to. */
  type Scope = map<VersionId, string>

  datatype Evidence = Evidence(id: ChunkId, version: VersionId, text: string, contextComplete: bool)

  datatype RetrievalError = ScopeTooLarge | RankOutOfRange

  // ---------------------------------------------------------------- rank fusion

  function Weight(rank: nat): real {
    1.0 / (60 + rank + 1) as real
  }

  predicate Admits(visible: Scope, generation: string, hit: Hit) {
    hit.version in visible && visible[hit.version] == generation
  }

  /** What one lane contributes to a chunk: the weights of the ranks at which the lane returned it
      from a visible version of its own generation. */
  function LaneScore(lane: Lane, n: nat, visible: Scope, id: ChunkId): real
    requires n <= |lane.hits|
  {
    if n == 0 then 0.0
    else
      var hit := lane.hits[n - 1];
      LaneScore(lane, n - 1, visible, id)
      + if hit.id == id && Admits(visible, lane.generation, hit) then Weight(n - 1) else 0.0
  }

  function Score(lanes: seq<Lane>, n: nat, visible: Scope, id: ChunkId): real
    requires n <= |lanes|
  {
    if n == 0 then 0.0
    else Score(lanes, n - 1, visible, id) + LaneScore(lanes[n - 1], |lanes[n - 1].hits|, visible, id)
  }

  predicate Returned(lane: Lane, n: nat, visible: Scope, id: ChunkId)
    requires n <= |lane.hits|
  {
    exists r :: 0 <= r < n && lane.hits[r].id == id && InLane(lane, r, visible)
  }

  /** The hit at this rank is of a visible version of the lane's own generation. */
  predicate InLane(lane: Lane, r: nat, visible: Scope)
    requires r < |lane.hits|
  {
    lane.hits[r].version in visible && visible[lane.hits[r].version] == lane.generation
  }

  predicate InScope(lanes: seq<Lane>, n: nat, visible: Scope, id: ChunkId)
    requires n <= |lanes|
  {
    exists l :: 0 <= l < n && Returned(lanes[l], |lanes[l].hits|, visible, id)
  }

  function At(scores: map<ChunkId, real>, id: ChunkId): real {
    if id in scores then scores[id] else 0.0
  }

  /** Reciprocal-rank fusion: scores accumulate lane by lane and rank by rank. */
  method Fuse(lanes: seq<Lane>, visible: Scope) returns (scores: map<ChunkId, real>)
    ensures forall id: ChunkId :: At(scores, id) == Score(lanes, |lanes|, visible, id)
    ensures forall id: ChunkId :: id in scores <==> InScope(lanes, |lanes|, visible, id)
  {
    scores := map[];
    for l := 0 to |lanes|
      invariant forall id: ChunkId :: At(scores, id) == Score(lanes, l, visible, id)
      invariant forall id: ChunkId :: id in scores <==> InScope(lanes, l, visible, id)
    {
      scores := FuseLane(scores, lanes[l], visible);
    }
  }

  method FuseLane(before: map<ChunkId, real>, lane: Lane, visible: Scope) returns (scores: map<ChunkId, real>)
    ensures forall id: ChunkId :: At(scores, id) == At(before, id) + LaneScore(lane, |lane.hits|, visible, id)
    ensures forall id: ChunkId :: id in scores <==> id in before || Returned(lane, |lane.hits|, visible, id)
  {
    scores := before;
    for rank := 0 to |lane.hits|
      invariant forall id: ChunkId :: At(scores, id) == At(before, id) + LaneScore(lane, rank, visible, id)
      invariant forall id: ChunkId :: id in scores <==> id in before || Returned(lane, rank, visible, id)
    {
      var hit := lane.hits[rank];
      if Admits(visible, lane.generation, hit) {
        scores := scores[hit.id := At(scores, hit.id) + Weight(rank)];
      }
    }
  }

  /** A chunk scores exactly when some lane returned it from its scope. */
  lemma {:induction false} LaneScorePositive(lane: Lane, n: nat, visible: Scope, id: ChunkId)
    requires n <= |lane.hits|
    ensures LaneScore(lane, n, visible, id) >= 0.0
    ensures LaneScore(lane, n, visible, id) > 0.0 <==> Returned(lane, n, visible, id)
  {
    if n > 0 {
      LaneScorePositive(lane, n - 1, visible, id);
      assert Weight(n - 1) > 0.0;
    }
  }

  lemma {:induction false} ScorePositive(lanes: seq<Lane>, n: nat, visible: Scope, id: ChunkId)
    requires n <= |lanes|
    ensures Score(lanes, n, visible, id) >= 0.0
    ensures Score(lanes, n, visible, id) > 0.0 <==> InScope(lanes, n, visible, id)
  {
    if n > 0 {
      ScorePositive(lanes, n - 1, visible, id);
      LaneScorePositive(lanes[n - 1], |lanes[n - 1].hits|, visible, id);
    }
  }

  // ---------------------------------------------------------------- evidence selection

  /** The parent is used whole or not at all. */
  function ContextText(c: Row): string {
    if |c.parentText| <= PARENT_LIMIT then c.parentText else c.text
  }

  function EvidenceOf(c: Row): Evidence {
    Evidence(c.id, c.version, ContextText(c), ContextText(c) == c.parentText)
  }

  function TotalText(evidence: seq<Evidence>): nat {
    if evidence == [] then 0 else TotalText(evidence[..|evidence| - 1]) + |evidence[|evidence| - 1].text|
  }

  predicate Holds(evidence: seq<Evidence>, version: VersionId, text: string) {
    exists k :: 0 <= k < |evidence| && evidence[k].version == version && evidence[k].text == text
  }

  /** The evidence names its row, and holds the row's parent text if that has at most 8000
      characters, and else its own. */
  predicate Says(e: Evidence, row: Row) {
    && e.id == row.id && e.version == row.version
    && e.text == (if |row.parentText| <= 8000 then row.parentText else row.text)
    && (e.contextComplete <==> e.text == row.parentText)
  }

  /** `evidence` is what the candidates at `picked` say, verbatim and in candidate order. */
  ghost predicate Taken(evidence: seq<Evidence>, candidates: seq<Row>, picked: seq<nat>) {
    && |picked| == |evidence|
    && (forall k :: 0 <= k < |picked| ==> picked[k] < |candidates| && Says(evidence[k], candidates[picked[k]]))
    && (forall j, k :: 0 <= j < k < |picked| ==> picked[j] < picked[k])
  }

  ghost predicate NoRepeats(evidence: seq<Evidence>) {
    forall j, k :: 0 <= j < k < |evidence| ==>
      evidence[j].version != evidence[k].version || evidence[j].text != evidence[k].text
  }

  function Budget(global: bool): nat {
    if global then GLOBAL_BUDGET else BUDGET
  }

  /** The greedy choice, candidate after candidate: what fits and is new is taken, up to the limit. */
  function Chosen(candidates: seq<Row>, global: bool, limit: nat): seq<Evidence> {
    if candidates == [] then []
    else
      var before := Chosen(candidates[..|candidates| - 1], global, limit);
      var c := candidates[|candidates| - 1];
      if (!global && |before| >= limit) || |ContextText(c)| + TotalText(before) > Budget(global)
         || Holds(before, c.version, ContextText(c)) then before
      else before + [EvidenceOf(c)]
  }

  /** Once the limit is reached the later candidates change nothing. */
  lemma {:induction false} ChosenFull(candidates: seq<Row>, n: nat, global: bool, limit: nat)
    requires n <= |candidates| && !global && |Chosen(candidates[..n], global, limit)| >= limit
    ensures Chosen(candidates, global, limit) == Chosen(candidates[..n], global, limit)
  {
    if n == |candidates| {
      assert candidates[..n] == candidates;
    } else {
      var init := candidates[..|candidates| - 1];
      assert init[..n] == candidates[..n];
      ChosenFull(init, n, global, limit);
    }
  }

  lemma {:induction false} ChosenNext(candidates: seq<Row>, i: nat, global: bool, limit: nat)
    requires i < |candidates|
    ensures var before, c := Chosen(candidates[..i], global, limit), candidates[i];
            Chosen(candidates[..i + 1], global, limit) ==
            if (!global && |before| >= limit) || |ContextText(c)| + TotalText(before) > Budget(global)
               || Holds(before, c.version, ContextText(c)) then before
            else before + [EvidenceOf(c)]
  {
    assert candidates[..i + 1][..i] == candidates[..i];
  }

  /** Next to this evidence the candidate's text is there already, or would not fit, or the limit is
      reached. */
  ghost predicate Accounted(c: Row, evidence: seq<Evidence>, global: bool, limit: nat) {
    var text := if |c.parentText| <= 8000 then c.parentText else c.text;
    || (exists k :: 0 <= k < |evidence| && evidence[k].version == c.version && evidence[k].text == text)
    || |text| + TotalText(evidence) > (if global then 45000 else 24000)
    || (!global && |evidence| >= limit)
  }

  /** The first `m` of the picks, and no others, come before candidate `i`. */
  ghost predicate PicksBefore(picked: seq<nat>, i: nat, m: nat) {
    && m <= |picked|
    && (forall k :: 0 <= k < m ==> picked[k] < i)
    && (m < |picked| ==> i <= picked[m])
  }

  /** A candidate is taken exactly when nothing speaks against it next to what was taken before it. */
  ghost predicate Greedy(candidates: seq<Row>, evidence: seq<Evidence>, picked: seq<nat>, global: bool, limit: nat)
    requires |picked| == |evidence|
  {
    forall i: nat, m: nat :: i < |candidates| && PicksBefore(picked, i, m) ==>
      GreedyAt(candidates, evidence, picked, i, m, global, limit)
  }

  ghost predicate GreedyAt(candidates: seq<Row>, evidence: seq<Evidence>, picked: seq<nat>, i: nat, m: nat,
                           global: bool, limit: nat)
    requires i < |candidates| && m <= |picked| == |evidence|
  {
    m < |picked| && picked[m] == i <==> !Accounted(candidates[i], evidence[..m], global, limit)
  }

  /** What a selection promises of the candidates it considered. */
  ghost predicate WellChosen(candidates: seq<Row>, evidence: seq<Evidence>, picked: seq<nat>, global: bool,
                             limit: nat) {
    && Taken(evidence, candidates, picked)
    && Greedy(candidates, evidence, picked, global, limit)
    && NoRepeats(evidence)
    && TotalText(evidence) <= (if global then 45000 else 24000)
    && (!global ==> |evidence| <= limit)
    && forall i :: 0 <= i < |candidates| ==> Accounted(candidates[i], evidence, global, limit)
  }

  lemma {:induction false} ChosenWell(candidates: seq<Row>, global: bool, limit: nat) returns (picked: seq<nat>)
    ensures WellChosen(candidates, Chosen(candidates, global, limit), picked, global, limit)
  {
    if candidates == [] {
      picked := [];
    } else {
      var n := |candidates| - 1;
      var before := Chosen(candidates[..n], global, limit);
      picked := ChosenWell(candidates[..n], global, limit);
      if Accounted(candidates[n], before, global, limit) {
        SkipWell(candidates, before, picked, global, limit);
      } else {
        TakeWell(candidates, before, picked, global, limit);
        picked := picked + [n];
      }
    }
  }

  lemma SkipWell(candidates: seq<Row>, evidence: seq<Evidence>, picked: seq<nat>, global: bool, limit: nat)
    requires candidates != [] && WellChosen(candidates[..|candidates| - 1], evidence, picked, global, limit)
    requires Accounted(candidates[|candidates| - 1], evidence, global, limit)
    ensures WellChosen(candidates, evidence, picked, global, limit)
  {
    var init := candidates[..|candidates| - 1];
    forall i | 0 <= i < |candidates| ensures Accounted(candidates[i], evidence, global, limit) {
      assert i < |init| ==> candidates[i] == init[i];
    }
    GreedySkip(candidates, evidence, picked, global, limit);
  }

  lemma GreedySkip(candidates: seq<Row>, evidence: seq<Evidence>, picked: seq<nat>, global: bool, limit: nat)
    requires candidates != [] && Taken(evidence, candidates[..|candidates| - 1], picked)
    requires Greedy(candidates[..|candidates| - 1], evidence, picked, global, limit)
    requires Accounted(candidates[|candidates| - 1], evidence, global, limit)
    ensures Greedy(candidates, evidence, picked, global, limit)
  {
    var n := |candidates| - 1;
    forall i: nat, m: nat | i < |candidates| && PicksBefore(picked, i, m)
      ensures GreedyAt(candidates, evidence, picked, i, m, global, limit)
    {
      if i < n {
        assert GreedyAt(candidates[..n], evidence, picked, i, m, global, limit);
      } else {
        AllBefore(picked, n, m);
        assert evidence[..m] == evidence;
      }
    }
  }

  /** The picks among the first `n` candidates all come before candidate `n`. */
  lemma AllBefore(picked: seq<nat>, n: nat, m: nat)
    requires PicksBefore(picked, n, m) && forall k :: 0 <= k < |picked| ==> picked[k] < n
    ensures m == |picked|
  {
  }

  lemma GreedyTake(candidates: seq<Row>, evidence: seq<Evidence>, picked: seq<nat>, global: bool, limit: nat,
                   e: Evidence)
    requires candidates != [] && Taken(evidence, candidates[..|candidates| - 1], picked)
    requires Greedy(candidates[..|candidates| - 1], evidence, picked, global, limit)
    requires !Accounted(candidates[|candidates| - 1], evidence, global, limit)
    ensures Greedy(candidates, evidence + [e], picked + [|candidates| - 1], global, limit)
  {
    var n := |candidates| - 1;
    forall i: nat, m: nat | i < |candidates| && PicksBefore(picked + [n], i, m)
      ensures GreedyAt(candidates, evidence + [e], picked + [n], i, m, global, limit)
    {
      PicksPrefix(picked, n, i, m);
      assert (evidence + [e])[..m] == evidence[..m];
      if i < n {
        assert GreedyAt(candidates[..n], evidence, picked, i, m, global, limit);
      } else {
        AllBefore(picked, n, m);
        assert evidence[..m] == evidence;
      }
    }
  }

  lemma PicksPrefix(picked: seq<nat>, n: nat, i: nat, m: nat)
    requires i <= n && PicksBefore(picked + [n], i, m)
    ensures m <= |picked| && PicksBefore(picked, i, m)
    ensures m < |picked| ==> (picked + [n])[m] == picked[m]
  {
    var more := picked + [n];
    assert more[|picked|] == n;
    assert forall k :: 0 <= k < |picked| ==> more[k] == picked[k];
  }

  lemma TakeWell(candidates: seq<Row>, evidence: seq<Evidence>, picked: seq<nat>, global: bool, limit: nat)
    requires candidates != [] && WellChosen(candidates[..|candidates| - 1], evidence, picked, global, limit)
    requires !Accounted(candidates[|candidates| - 1], evidence, global, limit)
    ensures WellChosen(candidates, evidence + [EvidenceOf(candidates[|candidates| - 1])],
                       picked + [|candidates| - 1], global, limit)
  {
    var n := |candidates| - 1;
    var e := EvidenceOf(candidates[n]);
    NewText(evidence, e);
    TakenMore(candidates, evidence, picked);
    GreedyTake(candidates, evidence, picked, global, limit, e);
    AddedText(evidence, e);
    forall i | 0 <= i < |candidates| ensures Accounted(candidates[i], evidence + [e], global, limit) {
      if i < n {
        assert Accounted(candidates[..n][i], evidence, global, limit);
      }
      AccountedGrows(candidates[i], evidence, e, global, limit);
    }
  }

  lemma {:induction false} AddedText(evidence: seq<Evidence>, e: Evidence)
    ensures TotalText([]) == 0 && TotalText(evidence + [e]) == TotalText(evidence) + |e.text|
  {
    assert (evidence + [e])[..|evidence|] == evidence;
  }

  lemma TakenMore(candidates: seq<Row>, evidence: seq<Evidence>, picked: seq<nat>)
    requires candidates != [] && Taken(evidence, candidates[..|candidates| - 1], picked)
    ensures Taken(evidence + [EvidenceOf(candidates[|candidates| - 1])], candidates, picked + [|candidates| - 1])
  {
  }

  lemma AccountedGrows(c: Row, evidence: seq<Evidence>, e: Evidence, global: bool, limit: nat)
    requires !global ==> |evidence| < limit
    requires Accounted(c, evidence, global, limit) || e == EvidenceOf(c)
    ensures Accounted(c, evidence + [e], global, limit)
  {
    var more := evidence + [e];
    AddedText(evidence, e);
    forall k | 0 <= k < |evidence| ensures more[k] == evidence[k] {
    }
    assert more[|evidence|] == e;
  }

  lemma NewText(evidence: seq<Evidence>, e: Evidence)
    requires NoRepeats(evidence) && !Holds(evidence, e.version, e.text)
    ensures NoRepeats(evidence + [e])
  {
  }

  /** The loop computes the greedy choice, and so all that `ChosenWell` says of it. */
  method SelectEvidence(candidates: seq<Row>, global: bool, limit: nat)
    returns (evidence: seq<Evidence>, ghost picked: seq<nat>)
    requires limit >= 1
    ensures evidence == Chosen(candidates, global, limit)
    ensures WellChosen(candidates, evidence, picked, global, limit)
  {
    evidence := [];
    var budget := Budget(global);
    var i := 0;
    while i < |candidates| && (global || |evidence| < limit)
      invariant i <= |candidates|
      invariant evidence == Chosen(candidates[..i], global, limit)
      invariant budget == Budget(global) - TotalText(evidence)
    {
      var chunk := candidates[i];
      var context := ContextText(chunk);
      ChosenNext(candidates, i, global, limit);
      if |context| <= budget && !Holds(evidence, chunk.version, context) {
        AddedText(evidence, EvidenceOf(chunk));
        evidence := evidence + [EvidenceOf(chunk)];
        budget := budget - |context|;
      }
      i := i + 1;
    }
    if i < |candidates| {
      ChosenFull(candidates, i, global, limit);
    } else {
      assert candidates[..i] == candidates;
    }
    picked := ChosenWell(candidates, global, limit);
  }

  // ---------------------------------------------------------------- retrieval

  /** The chunk table in (version, ordinal) order. */
  ghost predicate UniqueIds(table: seq<Row>) {
    forall i, j :: 0 <= i < j < |table| ==> table[i].id != table[j].id
  }

  function Visible(table: seq<Row>, visible: Scope): seq<Row> {
    if table == [] then []
    else (if table[0].version in visible then [table[0]] else []) + Visible(table[1..], visible)
  }

  lemma {:induction false} VisibleExact(table: seq<Row>, visible: Scope)
    ensures forall row :: row in Visible(table, visible) <==> row in table && row.version in visible
  {
    if table != [] {
      VisibleExact(table[1..], visible);
      assert forall row :: row in table <==> row == table[0] || row in table[1..];
    }
  }

  /** The visible rows keep the order of the table. */
  lemma {:induction false} VisibleOrdered(table: seq<Row>, visible: Scope) returns (kept: seq<nat>)
    ensures Picks(table, Visible(table, visible), kept)
    ensures forall i: nat :: i < |table| ==> (i in kept <==> table[i].version in visible)
  {
    if table == [] {
      kept := [];
    } else {
      var rest := VisibleOrdered(table[1..], visible);
      kept := VisibleLater(table, visible, rest);
    }
  }

  lemma VisibleLater(table: seq<Row>, visible: Scope, rest: seq<nat>) returns (kept: seq<nat>)
    requires table != [] && Picks(table[1..], Visible(table[1..], visible), rest)
    requires forall i: nat :: i < |table[1..]| ==> (i in rest <==> table[1..][i].version in visible)
    ensures Picks(table, Visible(table, visible), kept)
    ensures forall i: nat :: i < |table| ==> (i in kept <==> table[i].version in visible)
  {
    var later := Visible(table[1..], visible);
    assert [table[0]] + table[1..] == table;
    PicksLater(table[0], table[1..], later, rest);
    kept := if table[0].version in visible then [0] + Later(rest) else Later(rest);
    assert [] + later == later;
    forall i: nat | i < |table| ensures i in kept <==> table[i].version in visible {
      InLater(rest, i);
      if i > 0 {
        assert table[i] == table[1..][i - 1];
      }
    }
  }

  lemma {:induction false} NothingVisible(table: seq<Row>)
    ensures Visible(table, map[]) == []
  {
    if table != [] {
      NothingVisible(table[1..]);
    }
  }

  /** `[by_id[i] for i in ids if i in by_id]` over the visible rows. */
  function Lookup(table: seq<Row>, visible: Scope, ids: seq<ChunkId>): seq<Row> {
    if ids == [] then []
    else
      var rest := Lookup(table, visible, ids[1..]);
      if k :| 0 <= k < |table| && table[k].id == ids[0] && table[k].version in visible
              && First(table, visible, ids[0], k)
      then [table[k]] + rest else rest
  }

  predicate First(table: seq<Row>, visible: Scope, id: ChunkId, k: nat)
    requires k < |table|
  {
    forall j :: 0 <= j < k ==> !(table[j].id == id && table[j].version in visible)
  }

  /** The lookup finds exactly the visible rows of the table with these ids. */
  lemma {:induction false} LookupExact(table: seq<Row>, visible: Scope, ids: seq<ChunkId>)
    requires UniqueIds(table)
    ensures forall row :: row in Lookup(table, visible, ids) <==>
              row in table && row.version in visible && row.id in ids
  {
    if ids != [] {
      LookupExact(table, visible, ids[1..]);
      LookupFirst(table, visible, ids);
      assert forall id :: id in ids <==> id == ids[0] || id in ids[1..];
    }
  }

  lemma {:induction false} LookupFirst(table: seq<Row>, visible: Scope, ids: seq<ChunkId>)
    requires UniqueIds(table) && ids != []
    ensures var rest := Lookup(table, visible, ids[1..]);
            || (Lookup(table, visible, ids) == rest
                && forall row :: row in table && row.version in visible ==> row.id != ids[0])
            || (exists row :: row in table && row.version in visible && row.id == ids[0]
                              && Lookup(table, visible, ids) == [row] + rest
                              && forall other :: other in table && other.id == ids[0] ==> other == row)
  {
    if k :| 0 <= k < |table| && table[k].id == ids[0] && table[k].version in visible {
      assert First(table, visible, ids[0], k);
      assert table[k] in table;
    }
  }

  /** The rows come in the order of the ids. */
  lemma {:induction false} LookupOrdered(table: seq<Row>, visible: Scope, ids: seq<ChunkId>)
    requires Distinct(ids)
    ensures |Lookup(table, visible, ids)| <= |ids|
    ensures forall j, k :: 0 <= j < k < |Lookup(table, visible, ids)| ==>
              Precedes(ids, Lookup(table, visible, ids)[j].id, Lookup(table, visible, ids)[k].id)
    ensures forall row :: row in Lookup(table, visible, ids) ==> row.id in ids
  {
    if ids != [] {
      var rest := Lookup(table, visible, ids[1..]);
      LookupOrdered(table, visible, ids[1..]);
      forall a, b | Precedes(ids[1..], a, b) ensures Precedes(ids, a, b) {
        PrecedesLater(ids, a, b);
      }
      forall row | row in rest ensures Precedes(ids, ids[0], row.id) {
        PrecedesFirst(ids, row.id);
      }
    }
  }

  ghost predicate Precedes(ids: seq<ChunkId>, a: ChunkId, b: ChunkId) {
    exists i, j :: 0 <= i < j < |ids| && ids[i] == a && ids[j] == b
  }

  lemma PrecedesLater(ids: seq<ChunkId>, a: ChunkId, b: ChunkId)
    requires ids != [] && Precedes(ids[1..], a, b)
    ensures Precedes(ids, a, b)
  {
    var i, j :| 0 <= i < j < |ids[1..]| && ids[1..][i] == a && ids[1..][j] == b;
    assert ids[i + 1] == a && ids[j + 1] == b;
  }

  lemma PrecedesFirst(ids: seq<ChunkId>, b: ChunkId)
    requires ids != [] && b in ids[1..]
    ensures Precedes(ids, ids[0], b)
  {
    var j :| 0 <= j < |ids[1..]| && ids[1..][j] == b;
    assert ids[0] == ids[0] && ids[j + 1] == b;
  }

  /** `ids` are the best scoring chunks in scope, best first, sixty at most and fewer only if there are
      no more; equal scores may come in any order. */
  ghost predicate BestIds(lanes: seq<Lane>, visible: Scope, ids: seq<ChunkId>) {
    && Distinct(ids) && |ids| <= 60
    && (forall i :: 0 <= i < |ids| ==> InScope(lanes, |lanes|, visible, ids[i]))
    && (forall i, j :: 0 <= i < j < |ids| ==>
          Score(lanes, |lanes|, visible, ids[i]) >= Score(lanes, |lanes|, visible, ids[j]))
    && (forall i, id :: 0 <= i < |ids| && id !in ids && InScope(lanes, |lanes|, visible, id) ==>
          Score(lanes, |lanes|, visible, ids[i]) >= Score(lanes, |lanes|, visible, id))
    && (|ids| < 60 ==> forall id :: InScope(lanes, |lanes|, visible, id) ==> id in ids)
  }

  predicate InRange(rerank: seq<nat>, n: nat) {
    forall k :: 0 <= k < |rerank| ==> rerank[k] < n
  }

  ghost predicate IsReordered(rows: seq<Row>, found: seq<Row>, rerank: seq<nat>) {
    |rows| == |rerank| && forall k :: 0 <= k < |rows| ==> rerank[k] < |found| && rows[k] == found[rerank[k]]
  }

  function Reordered(found: seq<Row>, rerank: seq<nat>): (r: seq<Row>)
    requires InRange(rerank, |found|)
    ensures |r| == |rerank| && forall k :: 0 <= k < |r| ==> r[k] == found[rerank[k]]
  {
    seq(|rerank|, k requires 0 <= k < |rerank| => found[rerank[k]])
  }

  /** The candidates outside global mode: the visible rows of the best ids, as the reranker orders them. */
  function Candidates(table: seq<Row>, visible: Scope, ids: seq<ChunkId>, rerank: seq<nat>)
    : Result<seq<Row>, RetrievalError>
  {
    var found := Lookup(table, visible, ids);
    if found == [] then Ok([])
    else if !InRange(rerank, |found|) then Err(RankOutOfRange)
    else Ok(Reordered(found, rerank))
  }

  function FusedEvidence(table: seq<Row>, visible: Scope, ids: seq<ChunkId>, rerank: seq<nat>, limit: nat)
    : Result<seq<Evidence>, RetrievalError>
  {
    match Candidates(table, visible, ids, rerank)
    case Err(e) => Err(e)
    case Ok(candidates) => Ok(Chosen(candidates, false, limit))
  }

  /** All of the evidence is what the table says, from versions the caller may see. */
  ghost predicate Sourced(evidence: seq<Evidence>, table: seq<Row>, visible: Scope) {
    forall k :: 0 <= k < |evidence| ==> FromRow(evidence[k], table, visible)
  }

  ghost predicate FromRow(e: Evidence, table: seq<Row>, visible: Scope) {
    exists row :: row in table && row.version in visible && Says(e, row)
  }

  /** `retrieve`: `lanes` are the hits of all indexes and graph expansions, `rerank` the order the
      reranker returns; none of them is trusted. */
  method Retrieve(table: seq<Row>, visible: Scope, lanes: seq<Lane>, rerank: seq<nat>, global: bool, limit: nat)
    returns (r: Result<seq<Evidence>, RetrievalError>, ghost ids: seq<ChunkId>)
    requires limit >= 1 && UniqueIds(table)
    // Outside global mode: the greedy choice among the rows of the best ids, in reranked order.
    ensures !global ==> BestIds(lanes, visible, ids) && r == FusedEvidence(table, visible, ids, rerank, limit)
    // In global mode: the greedy choice among all visible rows, unless they are too many.
    ensures global ==> r == if |Visible(table, visible)| > 1000 then Err(ScopeTooLarge)
                            else Ok(Chosen(Visible(table, visible), true, limit))
    ensures r.Ok? ==> Sourced(r.value, table, visible)
    ensures r.Ok? ==> NoRepeats(r.value) && Distinct(EvidenceIds(r.value))
    ensures r.Ok? ==> TotalText(r.value) <= (if global then 45000 else 24000) && (!global ==> |r.value| <= limit)
    ensures visible == map[] ==> r == Ok([])
    ensures r.Ok? && !global ==>
              forall k :: 0 <= k < |r.value| ==> InScope(lanes, |lanes|, visible, r.value[k].id)
    // The global mode leaves out only what would not fit.
    ensures r.Ok? && global ==>
              forall row :: row in table && row.version in visible ==> Accounted(row, r.value, true, limit)
  {
    VisibleExact(table, visible);
    ids := [];
    if visible == map[] {
      NothingVisible(table);
      NothingInScope(lanes);
      return Ok([]), ids;
    }
    var candidates;
    if global {
      candidates := Visible(table, visible);
      if |candidates| > GLOBAL_ROWS {
        return Err(ScopeTooLarge), ids;
      }
    } else {
      var found;
      found, ids := FusedCandidates(table, visible, lanes, rerank);
      if found.Err? {
        return Err(found.error), ids;
      }
      candidates := found.value;
    }
    var evidence, picked := SelectEvidence(candidates, global, limit);
    SelectedSourced(table, visible, candidates, evidence, picked);
    return Ok(evidence), ids;
  }

  lemma NothingInScope(lanes: seq<Lane>)
    ensures forall id :: !InScope(lanes, |lanes|, map[], id)
  {
    forall id ensures !InScope(lanes, |lanes|, map[], id) {
      if l :| 0 <= l < |lanes| && Returned(lanes[l], |lanes[l].hits|, map[], id) {
        assert false;
      }
    }
  }

  /** Selected evidence inherits the provenance of the candidates. */
  lemma SelectedSourced(table: seq<Row>, visible: Scope, candidates: seq<Row>, evidence: seq<Evidence>,
                        picked: seq<nat>)
    requires UniqueIds(table) && Taken(evidence, candidates, picked) && NoRepeats(evidence)
    requires forall row :: row in candidates ==> row in table && row.version in visible
    ensures Sourced(evidence, table, visible) && Distinct(EvidenceIds(evidence))
    ensures forall k :: 0 <= k < |evidence| ==> evidence[k].id == candidates[picked[k]].id
  {
    forall k | 0 <= k < |evidence| ensures FromRow(evidence[k], table, visible) {
      var row := candidates[picked[k]];
      assert row in candidates;
      assert row in table && row.version in visible && Says(evidence[k], row);
    }
    forall j, k | 0 <= j < k < |evidence| ensures EvidenceIds(evidence)[j] != EvidenceIds(evidence)[k] {
      var a, b := candidates[picked[j]], candidates[picked[k]];
      assert a in candidates && b in candidates;
      var m :| 0 <= m < |table| && table[m] == a;
      var n :| 0 <= n < |table| && table[n] == b;
    }
  }

  method FusedCandidates(table: seq<Row>, visible: Scope, lanes: seq<Lane>, rerank: seq<nat>)
    returns (r: Result<seq<Row>, RetrievalError>, ghost best: seq<ChunkId>)
    requires UniqueIds(table)
    ensures BestIds(lanes, visible, best) && r == Candidates(table, visible, best, rerank)
    ensures r.Ok? ==>
              forall row :: row in r.value ==>
                row in table && row.version in visible && InScope(lanes, |lanes|, visible, row.id)
    ensures var found := Lookup(table, visible, best);
            if found != [] && exists k :: 0 <= k < |rerank| && rerank[k] >= |found| then r == Err(RankOutOfRange)
            else r.Ok? && IsReordered(r.value, found, if found == [] then [] else rerank)
  {
    var scores := Fuse(lanes, visible);
    var ids := BestFirst(scores, FUSED_LIMIT);
    best := ids;
    BestByScore(lanes, visible, scores, ids);
    var found := Lookup(table, visible, ids);
    LookupExact(table, visible, ids);
    assert forall row :: row in found ==> InScope(lanes, |lanes|, visible, row.id);
    if found == [] {
      return Ok([]), best;
    }
    var order: seq<Row> := [];
    for k := 0 to |rerank|
      invariant InRange(rerank[..k], |found|) && order == Reordered(found, rerank[..k])
    {
      if rerank[k] >= |found| {
        return Err(RankOutOfRange), best;
      }
      order := order + [found[rerank[k]]];
    }
    assert rerank[..|rerank|] == rerank;
    assert forall k :: 0 <= k < |rerank| ==> rerank[k] == rerank[..|rerank|][k];
    return Ok(order), best;
  }

  lemma {:induction false} BestByScore(lanes: seq<Lane>, visible: Scope, scores: map<ChunkId, real>, ids: seq<ChunkId>)
    requires forall id: ChunkId :: At(scores, id) == Score(lanes, |lanes|, visible, id)
    requires forall id: ChunkId :: id in scores <==> InScope(lanes, |lanes|, visible, id)
    requires Ranked(scores, ids) && |ids| <= FUSED_LIMIT
    requires |ids| < FUSED_LIMIT ==> forall id :: id in scores ==> id in ids
    ensures BestIds(lanes, visible, ids)
  {
    forall id | id in scores ensures scores[id] == Score(lanes, |lanes|, visible, id) {
      assert At(scores, id) == scores[id];
    }
  }

  function EvidenceIds(evidence: seq<Evidence>): (r: seq<ChunkId>)
    ensures |r| == |evidence|
    ensures forall k :: 0 <= k < |r| ==> r[k] == evidence[k].id
  {
    seq(|evidence|, k requires 0 <= k < |evidence| => evidence[k].id)
  }
}
