/** Human corrections of a parsed artifact. */
module Corrections {
  import opened Common
  import opened Chunking

  datatype Correction = Correction(block: string, text: string)

  datatype CorrectionError = DuplicateCorrection | UnknownBlock

  function Targets(corrections: seq<Correction>): (r: seq<string>)
    ensures |r| == |corrections|
    ensures forall i :: 0 <= i < |r| ==> r[i] == corrections[i].block
  {
    seq(|corrections|, i requires 0 <= i < |corrections| => corrections[i].block)
  }

  /** `by_id`: of several blocks with one id, the last one answers to it. */
  predicate AnswersTo(blocks: seq<Block>, i: nat, id: string)
    requires i < |blocks|
  {
    blocks[i].id == id && forall j :: i < j < |blocks| ==> blocks[j].id != id
  }

  /** `after` is `before` with each correction's text in the block that answers to its id. */
  ghost predicate Applied(before: seq<Block>, after: seq<Block>, corrections: seq<Correction>) {
    && |after| == |before|
    && (forall i :: 0 <= i < |before| ==>
          after[i].id == before[i].id && after[i] == before[i].(text := after[i].text))
    && (forall i, c :: 0 <= i < |before| && c in corrections && AnswersTo(before, i, c.block) ==>
          after[i].text == c.text)
    && (forall i :: 0 <= i < |before| && (forall c :: c in corrections ==> !AnswersTo(before, i, c.block)) ==>
          after[i] == before[i])
  }

  method Find(blocks: seq<Block>, id: string) returns (found: Option<nat>)
    ensures found.Some? ==> found.value < |blocks| && AnswersTo(blocks, found.value, id)
    ensures found.None? ==> id !in IdSet(blocks)
  {
    found := None;
    for i := 0 to |blocks|
      invariant found.Some? ==> found.value < i && blocks[found.value].id == id
                                && forall j :: found.value < j < i ==> blocks[j].id != id
      invariant found.None? ==> forall j :: 0 <= j < i ==> blocks[j].id != id
    {
      if blocks[i].id == id {
        found := Some(i);
      }
    }
  }

  ghost predicate Known(artifact: seq<Block>, corrections: seq<Correction>) {
    forall c :: c in corrections ==> c.block in IdSet(artifact)
  }

  lemma KnownGrows(artifact: seq<Block>, corrections: seq<Correction>, i: nat)
    requires i < |corrections| && Known(artifact, corrections[..i])
    ensures Known(artifact, corrections[..i + 1]) <==> corrections[i].block in IdSet(artifact)
    ensures corrections[i].block !in IdSet(artifact) ==> !Known(artifact, corrections)
  {
    assert forall c :: c in corrections[..i + 1] <==> c in corrections[..i] || c == corrections[i];
    assert corrections[i] in corrections;
  }

  /** The loop over the corrections, editing a copy of the artifact in place. */
  method Correct(artifact: seq<Block>, corrections: seq<Correction>) returns (r: Result<seq<Block>, CorrectionError>)
    ensures r == Err(DuplicateCorrection) <==> !Distinct(Targets(corrections))
    ensures r == Err(UnknownBlock) <==>
              Distinct(Targets(corrections)) && !Known(artifact, corrections)
    ensures r.Ok? ==> Applied(artifact, r.value, corrections)
  {
    DistinctCount(Targets(corrections));
    if |set id | id in Targets(corrections)| != |corrections| {
      return Err(DuplicateCorrection);
    }
    var blocks := artifact;
    assert Applied(artifact, blocks, corrections[..0]);
    for i := 0 to |corrections|
      invariant Applied(artifact, blocks, corrections[..i])
      invariant Known(artifact, corrections[..i])
    {
      var found := Find(blocks, corrections[i].block);
      SameIds(artifact, blocks);
      KnownGrows(artifact, corrections, i);
      if found.None? {
        return Err(UnknownBlock);
      }
      CorrectOne(artifact, blocks, corrections, i, found.value);
      blocks := blocks[found.value := blocks[found.value].(text := corrections[i].text)];
    }
    assert corrections[..|corrections|] == corrections;
    return Ok(blocks);
  }

  lemma SameIds(before: seq<Block>, after: seq<Block>)
    requires |after| == |before| && forall i :: 0 <= i < |before| ==> after[i].id == before[i].id
    ensures IdSet(after) == IdSet(before)
  {
    IdsAmong(before, after);
    IdsAmong(after, before);
  }

  lemma IdsAmong(some: seq<Block>, others: seq<Block>)
    requires |some| == |others| && forall i :: 0 <= i < |some| ==> some[i].id == others[i].id
    ensures IdSet(some) <= IdSet(others)
  {
    forall id | id in IdSet(some) ensures id in IdSet(others) {
      var k :| 0 <= k < |some| && some[k].id == id;
      assert others[k] in others;
    }
  }

  lemma CorrectOne(artifact: seq<Block>, blocks: seq<Block>, corrections: seq<Correction>, i: nat, k: nat)
    requires i < |corrections| && Distinct(Targets(corrections))
    requires Applied(artifact, blocks, corrections[..i])
    requires k < |blocks| && AnswersTo(blocks, k, corrections[i].block)
    ensures Applied(artifact, blocks[k := blocks[k].(text := corrections[i].text)], corrections[..i + 1])
    ensures corrections[i].block in IdSet(artifact)
  {
    var c := corrections[i];
    var next := blocks[k := blocks[k].(text := c.text)];
    assert forall d :: d in corrections[..i + 1] <==> d in corrections[..i] || d == c;
    assert artifact[k] in artifact;
    assert forall j :: 0 <= j < |artifact| ==> (AnswersTo(artifact, j, c.block) <==> j == k);
    forall d | d in corrections[..i] ensures d.block != c.block {
      var m :| 0 <= m < i && corrections[m] == d;
      assert Targets(corrections)[m] != Targets(corrections)[i];
    }
    assert AnswersTo(artifact, k, c.block);
    forall d | d in corrections[..i] ensures !AnswersTo(artifact, k, d.block) {
    }
  }
}
