/** Entity relations extracted from chunks, kept only with verbatim evidence. */
module Facts {
  import opened Common
  import opened Indexes
  import opened Text
  import Chunking

  const BATCH: nat := 10

  datatype Fact = Fact(evidence: RecordId, source: string, relation: string, target: string, quote: string)

  /** The committed fact rows of one version by id. */
  type Facts = map<RecordId, Fact>

  predicate Supported(version: VersionId, chunks: seq<Chunking.Chunk>, f: Fact) {
    && f.evidence.ChunkId? && f.evidence.version == version && f.evidence.ordinal < |chunks|
    && f.quote != "" && Contains(chunks[f.evidence.ordinal].text, f.quote)
    && Contains(f.quote, f.source) && Contains(f.quote, f.target)
  }

  /** The fact is about one of the version's chunks, whose text holds its quote. */
  ghost predicate Quoted(version: VersionId, chunks: seq<Chunking.Chunk>, f: Fact) {
    exists k: nat :: f.evidence == ChunkId(version, k) && k < |chunks| && Quotes(chunks[k].text, f)
  }

  /** The quote is a part of the text and not empty, and both ends of the relation stand in it. */
  ghost predicate Quotes(text: string, f: Fact) {
    |f.quote| > 0 && IsPart(f.quote, text) && IsPart(f.source, f.quote) && IsPart(f.target, f.quote)
  }

  lemma SupportedExact(version: VersionId, chunks: seq<Chunking.Chunk>, f: Fact)
    ensures Supported(version, chunks, f) <==> Quoted(version, chunks, f)
  {
    if f.evidence.ChunkId? && f.evidence.ordinal < |chunks| {
      var text := chunks[f.evidence.ordinal].text;
      ContainsExact(text, f.quote);
      ContainsExact(f.quote, f.source);
      ContainsExact(f.quote, f.target);
    }
  }

  function IdOf(f: Fact): RecordId {
    FactId(f.evidence.version, f.evidence.ordinal, f.source + "|" + f.relation + "|" + f.target)
  }

  /** Of two facts with one id, the later one stays. */
  function Table(facts: seq<Fact>): Facts {
    if facts == [] then map[]
    else
      var last := facts[|facts| - 1];
      Table(facts[..|facts| - 1])[IdOf(last) := last]
  }

  /** Everything the model answered, batch after batch of ten chunks. */
  function Answered(n: nat, offset: nat, answers: nat -> seq<Fact>): seq<Fact>
    decreases n - offset
  {
    if offset >= n then [] else answers(offset) + Answered(n, offset + BATCH, answers)
  }

  /** Every batch of ten chunks is asked once, in order. */
  lemma {:induction false} AnsweredExact(n: nat, offset: nat, answers: nat -> seq<Fact>)
    returns (batches: seq<seq<Fact>>)
    ensures Answered(n, offset, answers) == Flatten(batches)
    ensures |batches| == if offset >= n then 0 else (n - offset + 9) / 10
    ensures forall k :: 0 <= k < |batches| ==> batches[k] == answers(offset + 10 * k)
    decreases n - offset
  {
    if offset >= n {
      batches := [];
    } else {
      var rest := AnsweredExact(n, offset + BATCH, answers);
      batches := [answers(offset)] + rest;
      assert batches[1..] == rest;
    }
  }

  predicate AllSupported(version: VersionId, chunks: seq<Chunking.Chunk>, facts: seq<Fact>) {
    forall f :: f in facts ==> Supported(version, chunks, f)
  }

  datatype FactError = UnsupportedEvidence

  /** The extraction loop: one unsupported fact anywhere refuses all of them. */
  method Extract(version: VersionId, chunks: seq<Chunking.Chunk>, answers: nat -> seq<Fact>)
    returns (r: Result<Facts, FactError>)
    ensures r == if AllSupported(version, chunks, Answered(|chunks|, 0, answers))
                 then Ok(Table(Answered(|chunks|, 0, answers))) else Err(UnsupportedEvidence)
  {
    var table: Facts := map[];
    var offset := 0;
    ghost var seen: seq<Fact> := [];
    while offset < |chunks|
      invariant seen + Answered(|chunks|, offset, answers) == Answered(|chunks|, 0, answers)
      invariant AllSupported(version, chunks, seen) && table == Table(seen)
    {
      var facts := answers(offset);
      ghost var before := seen;
      for i := 0 to |facts|
        invariant seen == before + facts[..i]
        invariant AllSupported(version, chunks, seen) && table == Table(seen)
      {
        var f := facts[i];
        if !Supported(version, chunks, f) {
          assert f in answers(offset);
          assert f in Answered(|chunks|, offset, answers);
          assert f in seen + Answered(|chunks|, offset, answers) by {
            assert before + Answered(|chunks|, offset, answers) == Answered(|chunks|, 0, answers);
            assert f in before + Answered(|chunks|, offset, answers);
          }
          assert f in Answered(|chunks|, 0, answers);
          return Err(UnsupportedEvidence);
        }
        assert (seen + [f])[..|seen|] == seen;
        seen := seen + [f];
        assert before + facts[..i + 1] == (before + facts[..i]) + [f];
        table := table[IdOf(f) := f];
      }
      assert facts[..|facts|] == facts;
      assert before + (facts + Answered(|chunks|, offset + BATCH, answers))
          == (before + facts) + Answered(|chunks|, offset + BATCH, answers);
      offset := offset + BATCH;
    }
    assert seen + [] == seen;
    return Ok(table);
  }

  /** A fact's id is made of its evidence, its ends and its relation. */
  ghost predicate Named(id: RecordId, f: Fact) {
    id == FactId(f.evidence.version, f.evidence.ordinal, f.source + "|" + f.relation + "|" + f.target)
  }

  /** The k-th fact is the last with its id. */
  ghost predicate LastNamed(facts: seq<Fact>, k: nat, id: RecordId) {
    k < |facts| && Named(id, facts[k]) && forall j :: k < j < |facts| ==> !Named(id, facts[j])
  }

  /** The table holds the last fact under each id that occurs, and nothing else. */
  lemma {:induction false} TableExact(facts: seq<Fact>)
    ensures forall f :: f in facts ==> exists id :: id in Table(facts) && Named(id, f)
    ensures forall id :: id in Table(facts) ==> exists k: nat :: LastNamed(facts, k, id) && Table(facts)[id] == facts[k]
  {
    if facts != [] {
      var before, last := facts[..|facts| - 1], facts[|facts| - 1];
      TableExact(before);
      assert facts == before + [last];
      forall f | f in facts ensures exists id :: id in Table(facts) && Named(id, f) {
        if f in before {
          var id :| id in Table(before) && Named(id, f);
          assert id in Table(facts);
        } else {
          assert IdOf(last) in Table(facts) && Named(IdOf(last), f);
        }
      }
      forall id | id in Table(facts) ensures exists k: nat :: LastNamed(facts, k, id) && Table(facts)[id] == facts[k] {
        if id == IdOf(last) {
          assert LastNamed(facts, |facts| - 1, id);
        } else {
          assert id in Table(before) && !Named(id, last);
          var k: nat :| LastNamed(before, k, id) && Table(before)[id] == before[k];
          assert LastNamed(facts, k, id);
        }
      }
    }
  }
}
