/** One attempt of the ingestion pipeline as it runs when nothing interferes: the stages in order,
    against index objects, each step the machine's step. */
module Pipeline {
  import opened Common
  import opened Indexes
  import opened Ingestion
  import opened IndexAgreement
  import opened Publication
  import opened Recovery
  import Chunking
  import Facts
  import Jobs
  import JP = JobProtocol
  import Segmentation

  datatype Failure = NotProcessable | ParserFailed | Unsegmentable | TooManyChunks | Unsupported

  /** The records of the text indexes, in chunk order. */
  method PassageRows(v: VersionId, chunks: seq<Chunking.Chunk>) returns (rows: seq<(RecordId, Record)>)
    ensures Rows(rows) == Passages(v, chunks)
  {
    rows := [];
    for i := 0 to |chunks|
      invariant Rows(rows) == Passages(v, chunks[..i])
    {
      var row := (ChunkId(v, i), Passage(v, chunks[i].text, chunks[i].locator));
      assert (rows + [row])[..|rows|] == rows;
      assert Passages(v, chunks[..i + 1]) == Passages(v, chunks[..i])[row.0 := row.1];
      rows := rows + [row];
    }
    assert chunks[..|chunks|] == chunks;
  }

  /** The records of the graph, in any order. */
  method TripleRows(v: VersionId, facts: Facts.Facts) returns (rows: seq<(RecordId, Record)>)
    ensures Rows(rows) == Triples(v, facts)
  {
    rows := [];
    var left := facts.Keys;
    while left != {}
      invariant left <= facts.Keys
      invariant Rows(rows) == map id | id in facts && id !in left :: Triples(v, facts)[id]
      decreases |left|
    {
      var id :| id in left;
      var f := facts[id];
      var row := (id, Triple(v, f.evidence, f.source, f.relation, f.target));
      assert (rows + [row])[..|rows|] == rows;
      rows := rows + [row];
      left := left - {id};
    }
  }

  class Worker {
    const v: VersionId
    const t: Token
    const indexes: seq<FakeIndex>
    var row: Version

    ghost predicate Wired() {
      |indexes| == 3 && indexes[0] != indexes[1] && indexes[0] != indexes[2] && indexes[1] != indexes[2]
    }

    constructor (v: VersionId, t: Token, indexes: seq<FakeIndex>, row: Version)
      ensures this.v == v && this.t == t && this.indexes == indexes && this.row == row
    {
      this.v, this.t, this.indexes, this.row := v, t, indexes, row;
    }

    ghost function Store(): Backend
      reads this, indexes
      requires |indexes| == 3
    {
      Backend(indexes[0].records, indexes[1].records, indexes[2].records)
    }

    ghost predicate Sound()
      reads this, indexes
    {
      Wired() && InCharge(v, row, t) && Agrees(v, row, Store()) && AllOwned(Store())
    }

    method PutRecords(k: nat, rows: seq<(RecordId, Record)>)
      requires Wired() && k < 3
      modifies indexes
      ensures Store() == old(Store()).With(STAGES[k], Written(old(Store()).At(STAGES[k]), row.generation, Rows(rows)))
    {
      indexes[k].Upsert(row.generation, rows);
    }

    method DropRecords(k: nat)
      requires Wired() && k < 3
      modifies indexes
      ensures Store() == old(Store()).With(STAGES[k], Deleted(old(Store()).At(STAGES[k]), row.generation, v))
    {
      indexes[k].DeleteVersion(row.generation, v);
    }

    /** A guarded commit of the attempt in charge goes through. */
    method Commit(change: JP.Change, next: Version, ghost action: Action)
      requires Sound() && !action.GiveUp? && !action.Finish? && !action.DeleteIndex? && !action.Upsert?
      requires Ingestion.Proposed(v, row, t, action) == Fenced(change, next)
      modifies this`row
      ensures Sound() && row == Worked(v, old(row), t, action) == next.(work := row.work)
      ensures row.work.Some? && Progress(row) == if change.Advance? then change.progress else Progress(old(row))
    {
      Does(v, row, t, action);
      WorkedAgrees(v, row, Store(), t, action);
      row := Guarded(row, t, change, next);
    }

    /** The failure handler, in whatever state it finds the row: it ends the job and a version in
        processing while its token is still on the running job, and else only the attempt is over. */
    method Fail()
      requires Wired() && RowInv(v, row) && Agrees(v, row, Store()) && AllOwned(Store())
      requires t in row.attempts && !row.attempts[t].pc.Over?
      modifies this`row
      ensures RowInv(v, row) && Agrees(v, row, Store()) && AllOwned(Store()) && SameContent(old(row), row)
      ensures Handles(old(row), t) ==>
                && row.status == (if old(row).status == Processing then Failed else old(row).status)
                && row.work.Some? && row.work.value.job.progress == old(row).work.value.job.progress
                && row.work.value.job.status ==
                   (if old(row).work.value.job.cancelRequested then Jobs.Cancelled else Jobs.Failed)
                && row.work.value.job.errorCode ==
                   (if old(row).work.value.job.cancelRequested then None else Some("KNOWLEDGE_PROCESSING_FAILED"))
      ensures !Handles(old(row), t) ==> row == At(old(row), t, old(row).attempts[t].(pc := Over))
    {
      GivenUpRow(v, row, t);
      GivenUpAgrees(v, row, Store(), t);
      if Handles(row, t) {
        GivenUpJob(row, t);
      }
      row := GivenUp(row, t);
    }

    /** Empty one index of the version. */
    method DeleteFrom(k: nat)
      requires k < 3 && Sound() && Stands(row, t, {Cleaning(k)})
      modifies this`row, indexes
      ensures Sound() && Stands(row, t, {Cleaning(k + 1)}) && SameContent(old(row), row)
    {
      Does(v, row, t, DeleteIndex);
      WorkedAgrees(v, row, Store(), t, DeleteIndex);
      OwnedAfter(v, row, Store(), t, DeleteIndex);
      DropRecords(k);
      row := At(row, t, row.attempts[t].(pc := Cleaning(k + 1)));
    }

    /** The cleanup stage: each index is emptied of the version before the flags are cleared. */
    method CleanUp()
      requires Sound() && Stands(row, t, {Cleaning(0)})
      modifies this`row, indexes
      ensures Sound() && Stands(row, t, {AfterCleaning(row.blocks)})
      ensures SameContent(old(row).(index := CLEAR), row)
    {
      for k := 0 to 3
        invariant Sound() && Stands(row, t, {Cleaning(k)}) && SameContent(old(row), row)
      {
        DeleteFrom(k);
      }
      var a := row.attempts[t];
      Commit(JP.Untouched, At(row, t, a.(index := CLEAR, pc := AfterCleaning(a.blocks))).(index := CLEAR), ClearState);
    }

    method StageRows(stage: Stage) returns (rows: seq<(RecordId, Record)>)
      ensures Rows(rows) == Expected(v, stage, row.chunks, row.facts)
    {
      if stage == Graph {
        rows := TripleRows(v, row.facts);
      } else {
        rows := PassageRows(v, row.chunks);
      }
    }

    /** Write all records of a stage. */
    method WriteTo(k: nat)
      requires k < 3 && Sound() && Stands(row, t, {Indexing(k, false)}) && STAGES[k] !in row.index.ready
      modifies this`row, indexes
      ensures Sound() && Stands(row, t, {Indexing(k, true)}) && SameContent(old(row), row) && row.work == old(row).work
    {
      var rows := StageRows(STAGES[k]);
      WholeUpsert(v, row, Store(), t, k);
      PutRecords(k, rows);
      row := At(row, t, row.attempts[t].(pc := Indexing(k, true)));
    }

    /** One index stage: skipped when ready, else written and marked. */
    method FillIndex(k: nat)
      requires k < 3 && Sound() && Stands(row, t, {Indexing(k, false)})
      modifies this`row, indexes
      ensures Sound() && Stands(row, t, {Indexing(k + 1, false)}) && SameContent(old(row).(index := row.index), row)
      ensures Progress(row) == Max(Progress(old(row)), 50 + 15 * k)
    {
      if STAGES[k] !in row.index.ready {
        WriteTo(k);
      }
      MarkStage(k);
    }

    method MarkStage(k: nat)
      requires k < 3 && Sound() && Stands(row, t, {Indexing(k, STAGES[k] !in row.index.ready)})
      modifies this`row
      ensures Sound() && Stands(row, t, {Indexing(k + 1, false)}) && SameContent(old(row).(index := row.index), row)
      ensures Progress(row) == Max(Progress(old(row)), 50 + 15 * k)
    {
      assert InStep(row, row.attempts[t]);
      var p := MarkingReady(row, t, STAGES[k]);
      Marks(v, row, t, k);
      Commit(p.change, p.next, MarkReady);
    }

    method SaveNewChunks(plan: nat -> seq<string>, cut: seq<Chunking.Chunk>)
      requires Sound() && Stands(row, t, {Segmenting}) && row.chunks == []
      requires Chunking.Segmented(row.blocks, row.kind, plan) == Ok(cut) && |cut| <= CHUNK_LIMIT
      modifies this`row
      ensures Sound() && Stands(row, t, {Segmenting}) && SameContent(old(row).(chunks := cut), row)
    {
      SavesChunks(v, row, t, plan, cut);
      assert InStep(row, row.attempts[t]);
      Commit(JP.Untouched, row.(chunks := cut), SaveChunks(plan));
    }

    method LoadChunks()
      requires Sound() && Stands(row, t, {Segmenting}) && row.chunks != []
      modifies this`row
      ensures Sound() && Stands(row, t, {Extracting}) && SameContent(old(row), row)
      ensures Progress(row) == Max(Progress(old(row)), 25)
    {
      ReadsChunks(v, row, t);
      Commit(JP.Advance(Max(Progress(row), 25)), At(row, t, row.attempts[t].(chunks := row.chunks, pc := Extracting)),
             ReadChunks);
    }

    method SaveNewFacts(answers: nat -> seq<Facts.Fact>, facts: Facts.Facts)
      requires Sound() && Stands(row, t, {Extracting}) && !row.index.facts
               && Extracts(v, row, row.chunks, answers, facts)
      modifies this`row
      ensures Sound() && Stands(row, t, {Indexing(0, false)})
      ensures SameContent(old(row).(facts := facts, index := old(row).index.(facts := true)), row)
    {
      assert InStep(row, row.attempts[t]);
      SavesFacts(v, row, t, answers, facts);
      ProposesFacts(v, row, t, answers, facts);
      var p := SavingFacts(row, t, facts);
      Commit(p.change, p.next, SaveFacts(answers));
    }

    method LoadFacts()
      requires Sound() && Stands(row, t, {Extracting}) && row.index.facts
      modifies this`row
      ensures Sound() && Stands(row, t, {Indexing(0, false)}) && SameContent(old(row), row)
    {
      FactsRead(v, row, Store(), t);
      row := At(row, t, row.attempts[t].(facts := row.facts, pc := Indexing(0, false)));
    }

    /** The segmentation stage: earlier chunks are kept. */
    method CutChunks(plan: nat -> seq<string>) returns (r: Result<(), Failure>)
      requires Sound() && Stands(row, t, {Segmenting})
      modifies this`row
      ensures match CutOf(old(row), plan)
              case Err(e) => r == Err(e) && Failing()
              case Ok(chunks) =>
                && r == Ok(()) && Sound() && Stands(row, t, {Extracting})
                && SameContent(old(row).(chunks := chunks), row)
    {
      if row.chunks == [] {
        var cut := Chunking.Segment(row.blocks, row.kind, plan);
        if cut.Err? {
          Fail();
          return Err(Unsegmentable);
        }
        if |cut.value| > CHUNK_LIMIT {
          Fail();
          return Err(TooManyChunks);
        }
        Segmentation.SegmentNotEmpty(row.blocks, row.kind, plan);
        SaveNewChunks(plan, cut.value);
      }
      LoadChunks();
      r := Ok(());
    }

    /** The fact stage: earlier facts are kept. */
    method FindFacts(answers: nat -> seq<Facts.Fact>) returns (r: Result<(), Failure>)
      requires Sound() && Stands(row, t, {Extracting})
      modifies this`row
      ensures r == if Extractable(v, old(row), answers) then Ok(()) else Err(Unsupported)
      ensures r.Ok? ==> Sound() && Stands(row, t, {Indexing(0, false)}) && row.chunks == old(row).chunks
                        && row.blocks == old(row).blocks && Extracts(v, old(row), old(row).chunks, answers, row.facts)
      ensures r.Err? ==> Failing()
    {
      if row.index.facts {
        LoadFacts();
      } else {
        var found := Facts.Extract(v, row.chunks, answers);
        if found.Err? {
          Fail();
          return Err(Unsupported);
        }
        SaveNewFacts(answers, found.value);
      }
      r := Ok(());
    }

    /** The last commit: the version awaits review. */
    method Complete()
      requires Sound() && Stands(row, t, {Indexing(3, false)})
      modifies this`row
      ensures Reviewable()
      ensures row.blocks == old(row).blocks && row.chunks == old(row).chunks && row.facts == old(row).facts
    {
      Finishes(v, row, t);
      FinishStep(v, row, t);
      WorkedRow(v, row, t, Finish);
      WorkedAgrees(v, row, Store(), t, Finish);
      row := Guarded(row, t, JP.Finish(100), At(row, t, row.attempts[t].(pc := Over)).(status := Review));
      ReviewHeld(v, row, Store());
    }

    /** The version awaits review, the job succeeded, and the indexes hold exactly the chunks and facts. */
    ghost predicate Reviewable()
      reads this, indexes
    {
      && |indexes| == 3 && RowInv(v, row)
      && row.status == Review && row.work.Some?
      && row.work.value.job.status == Jobs.Succeeded && row.work.value.job.progress == 100
      && IsTextIndex(v, Held(v, row, Store(), Fulltext), row.chunks)
      && IsTextIndex(v, Held(v, row, Store(), Vector), row.chunks)
      && IsGraph(v, Held(v, row, Store(), Graph), row.facts)
    }

    /** The job failed, the version with it, and the indexes still agree with what was committed. */
    ghost predicate Failing()
      reads this, indexes
    {
      && |indexes| == 3 && RowInv(v, row) && Agrees(v, row, Store())
      && row.status == Failed && row.work.Some? && row.work.value.job.status == Jobs.Failed
    }

    /** The first commit, and the cleanup when one is due. */
    method Begin()
      requires Sound() && row.attempts[t] == ENTERING && row.status in Processable()
      modifies this`row, indexes
      ensures Sound() && Stands(row, t, {AfterCleaning(row.blocks)}) && SameContent(Cleaned(old(row)), row)
      ensures row.status == Processing
    {
      var pc := if row.index.cleanup then Cleaning(0) else AfterCleaning(row.blocks);
      Starts(v, row, t);
      Commit(JP.Untouched, At(row, t, Attempt(pc, row.index, row.blocks, [], map[])).(status := Processing), Start);
      if row.index.cleanup {
        CleanUp();
      }
      assert InStep(row, row.attempts[t]);
    }

    method Parse(parsed: seq<Chunking.Block>)
      requires Sound() && Stands(row, t, {AfterCleaning(row.blocks)}) && row.blocks == []
      modifies this`row
      ensures Sound() && Stands(row, t, {Segmenting}) && SameContent(old(row).(blocks := parsed), row)
    {
      Parses(v, row, t, parsed);
      Commit(JP.Untouched, At(row, t, row.attempts[t].(blocks := parsed, pc := Segmenting)).(blocks := parsed),
             SaveArtifact(parsed));
    }

    /** `execute_ingestion` after the claim. */
    method ExecuteIngestion(parsed: Option<seq<Chunking.Block>>, plan: nat -> seq<string>,
                            answers: nat -> seq<Facts.Fact>)
      returns (r: Result<(), Failure>)
      requires Sound() && row.attempts[t] == ENTERING
      modifies this`row, indexes
      // It succeeds exactly when the version may be processed, the parser answered where it was
      // needed, and the answers of the model pass; the first of these that fails is the error.
      ensures r == Outcome(v, old(row), parsed, plan, answers)
      ensures r == Err(NotProcessable) ==>
                row.status == old(row).status && row.work.Some? && row.work.value.job.status == Jobs.Failed
      // Then the version awaits review and the indexes hold exactly its chunks and facts.
      ensures r.Ok? ==> Reviewable() && Produced(old(row), parsed, plan, answers, row)
      // Otherwise what was committed stands, and the indexes agree with it.
      ensures r.Err? && r != Err(NotProcessable) ==> Failing()
    {
      if row.status !in Processable() {
        Fail();
        return Err(NotProcessable);
      }
      Begin();
      r := Process(parsed, plan, answers, old(row));
    }

    /** The stages after the cleanup. */
    method Process(parsed: Option<seq<Chunking.Block>>, plan: nat -> seq<string>, answers: nat -> seq<Facts.Fact>,
                   ghost found: Version)
      returns (r: Result<(), Failure>)
      requires Sound() && Stands(row, t, {AfterCleaning(row.blocks)})
      requires found.status in {Uploaded, Failed, Processing} && SameContent(Cleaned(found), row)
      modifies this`row, indexes
      ensures r == Outcome(v, found, parsed, plan, answers) != Err(NotProcessable)
      ensures r.Ok? ==> Reviewable() && Produced(found, parsed, plan, answers, row)
      ensures r.Err? ==> Failing()
    {
      r := ReadArtifact(parsed);
      if r.Err? {
        OutcomeFrom(v, found, parsed, plan, answers, old(row));
      } else {
        ghost var ready := row;
        r := IndexParsed(plan, answers);
        OutcomeFrom(v, found, parsed, plan, answers, old(row));
        OutcomeContent(v, WithArtifact(old(row), parsed), ready, plan, answers);
        if r.Ok? {
          ProducedFrom(found, parsed, plan, answers, old(row), row);
        }
      }
    }

    /** The parser is asked only for an artifact that is not there yet. */
    method ReadArtifact(parsed: Option<seq<Chunking.Block>>) returns (r: Result<(), Failure>)
      requires Sound() && Stands(row, t, {AfterCleaning(row.blocks)})
      modifies this`row
      ensures r.Ok? <==> old(row).blocks != [] || parsed.Some?
      ensures r.Ok? ==>
                && Sound() && Stands(row, t, {Segmenting})
                && SameContent(if old(row).blocks != [] then old(row) else old(row).(blocks := parsed.value), row)
      ensures r.Err? ==> r == Err(ParserFailed) && Failing()
    {
      if row.blocks == [] {
        if parsed.None? {
          Fail();
          return Err(ParserFailed);
        }
        Parse(parsed.value);
      }
      r := Ok(());
    }

    /** The stages after parsing. */
    method IndexParsed(plan: nat -> seq<string>, answers: nat -> seq<Facts.Fact>) returns (r: Result<(), Failure>)
      requires Sound() && Stands(row, t, {Segmenting})
      modifies this`row, indexes
      ensures r == ContentOutcome(v, old(row), plan, answers)
      ensures r.Ok? ==> Reviewable() && Derived(old(row), plan, answers, row)
      ensures r.Err? ==> Failing()
    {
      r := CutChunks(plan);
      if r.Ok? {
        r := FindFacts(answers);
        if r.Ok? {
          FillAll();
        }
      }
    }

    method FillAll()
      requires Sound() && Stands(row, t, {Indexing(0, false)})
      modifies this`row, indexes
      ensures Reviewable()
      ensures row.blocks == old(row).blocks && row.chunks == old(row).chunks && row.facts == old(row).facts
    {
      for k := 0 to 3
        invariant Sound() && Stands(row, t, {Indexing(k, false)})
        invariant SameContent(old(row).(index := row.index), row)
      {
        FillIndex(k);
      }
      Complete();
    }
  }

  // ---------------------------------------------------------------- when an attempt succeeds

  /** Chunks that exist are kept, and otherwise the artifact is cut; facts extracted before are kept,
      and otherwise all answers about the chunks are collected. */
  ghost predicate Derived(r: Version, plan: nat -> seq<string>, answers: nat -> seq<Facts.Fact>, r': Version) {
    && r'.blocks == r.blocks
    && (r.chunks != [] ==> r'.chunks == r.chunks)
    && (r.chunks == [] ==> Chunking.Segmented(r.blocks, r.kind, plan) == Ok(r'.chunks) && |r'.chunks| <= 20000)
    && (r.index.facts ==> r'.facts == r.facts)
    && (!r.index.facts ==>
          var found := Facts.Answered(|r'.chunks|, 0, answers);
          r'.facts == Facts.Table(found))
  }

  /** What the attempt made of the row it found: an artifact that exists is kept, and otherwise the
      parser's is taken; a due cleanup discards the flags. */
  ghost predicate Produced(r: Version, parsed: Option<seq<Chunking.Block>>, plan: nat -> seq<string>,
                           answers: nat -> seq<Facts.Fact>, r': Version)
  {
    && (r.blocks == [] ==> parsed.Some?)
    && var index := if r.index.cleanup then IndexState(false, false, {}) else r.index;
       Derived(r.(blocks := if r.blocks == [] then parsed.value else r.blocks, index := index), plan, answers, r')
  }

  ghost function CutOf(r: Version, plan: nat -> seq<string>): Result<seq<Chunking.Chunk>, Failure> {
    if r.chunks != [] then Ok(r.chunks)
    else
      match Chunking.Segmented(r.blocks, r.kind, plan)
      case Err(_) => Err(Unsegmentable)
      case Ok(cut) => if |cut| > 20000 then Err(TooManyChunks) else Ok(cut)
  }

  predicate Extractable(v: VersionId, r: Version, answers: nat -> seq<Facts.Fact>) {
    r.index.facts || Facts.AllSupported(v, r.chunks, Facts.Answered(|r.chunks|, 0, answers))
  }

  ghost function ContentOutcome(v: VersionId, r: Version, plan: nat -> seq<string>, answers: nat -> seq<Facts.Fact>)
    : Result<(), Failure>
  {
    match CutOf(r, plan)
    case Err(e) => Err(e)
    case Ok(chunks) => if Extractable(v, r.(chunks := chunks), answers) then Ok(()) else Err(Unsupported)
  }

  /** The committed artifact, or what the parser returned. */
  function WithArtifact(r: Version, parsed: Option<seq<Chunking.Block>>): Version
    requires r.blocks != [] || parsed.Some?
  {
    r.(blocks := if r.blocks != [] then r.blocks else parsed.value)
  }

  /** How an attempt ends, from the row it finds and the answers it gets. */
  ghost function Outcome(v: VersionId, r: Version, parsed: Option<seq<Chunking.Block>>, plan: nat -> seq<string>,
                         answers: nat -> seq<Facts.Fact>): Result<(), Failure>
  {
    if r.status !in {Uploaded, Failed, Processing} then Err(NotProcessable)
    else if r.blocks == [] && parsed.None? then Err(ParserFailed)
    else
      var index := if r.index.cleanup then IndexState(false, false, {}) else r.index;
      ContentOutcome(v, WithArtifact(r.(index := index), parsed), plan, answers)
  }

  /** The outcome is a matter of content. */
  lemma OutcomeContent(v: VersionId, r: Version, r': Version, plan: nat -> seq<string>, answers: nat -> seq<Facts.Fact>)
    requires SameContent(r, r')
    ensures ContentOutcome(v, r, plan, answers) == ContentOutcome(v, r', plan, answers)
  {
  }

  lemma OutcomeFrom(v: VersionId, r: Version, parsed: Option<seq<Chunking.Block>>, plan: nat -> seq<string>,
                    answers: nat -> seq<Facts.Fact>, begun: Version)
    requires r.status in {Uploaded, Failed, Processing} && SameContent(Cleaned(r), begun)
    ensures Outcome(v, r, parsed, plan, answers) ==
            if begun.blocks == [] && parsed.None? then Err(ParserFailed)
            else ContentOutcome(v, WithArtifact(begun, parsed), plan, answers)
    ensures Outcome(v, r, parsed, plan, answers) != Err(NotProcessable)
  {
  }

  lemma ProducedFrom(r: Version, parsed: Option<seq<Chunking.Block>>, plan: nat -> seq<string>,
                     answers: nat -> seq<Facts.Fact>, begun: Version, r': Version)
    requires r.blocks != [] || parsed.Some?
    requires SameContent(Cleaned(r), begun) && Derived(WithArtifact(begun, parsed), plan, answers, r')
    ensures Produced(r, parsed, plan, answers, r')
  {
  }

  // ---------------------------------------------------------------- steps of the machine

  lemma WholeUpsert(v: VersionId, r: Version, b: Backend, t: Token, k: nat)
    requires InCharge(v, r, t) && Agrees(v, r, b) && AllOwned(b)
    requires k < 3 && Stands(r, t, {Indexing(k, false)}) && STAGES[k] !in r.index.ready
    ensures var r' := At(r, t, r.attempts[t].(pc := Indexing(k, true)));
            var records := Expected(v, STAGES[k], r.chunks, r.facts);
            var b' := b.With(STAGES[k], Written(b.At(STAGES[k]), r.generation, records));
            InCharge(v, r', t) && Agrees(v, r', b') && AllOwned(b')
  {
    var ids := Expected(v, STAGES[k], r.chunks, r.facts).Keys;
    WholeUpsertShape(v, r, b, t, k, ids);
    Stays(v, r, t, Upsert(ids));
    WorkedAgrees(v, r, b, t, Upsert(ids));
    OwnedAfter(v, r, b, t, Upsert(ids));
  }

  lemma WholeUpsertShape(v: VersionId, r: Version, b: Backend, t: Token, k: nat, ids: set<RecordId>)
    requires InCharge(v, r, t) && k < 3 && Stands(r, t, {Indexing(k, false)}) && STAGES[k] !in r.index.ready
    requires ids == Expected(v, STAGES[k], r.chunks, r.facts).Keys
    ensures Worked(v, r, t, Upsert(ids)) == At(r, t, r.attempts[t].(pc := Indexing(k, true)))
    ensures Indexed(v, r, b, t, Upsert(ids)) ==
            b.With(STAGES[k], Written(b.At(STAGES[k]), r.generation, Expected(v, STAGES[k], r.chunks, r.facts)))
  {
    assert InStep(r, r.attempts[t]);
    WholePart(Expected(v, STAGES[k], r.chunks, r.facts));
  }

  lemma FactsRead(v: VersionId, r: Version, b: Backend, t: Token)
    requires InCharge(v, r, t) && Agrees(v, r, b) && AllOwned(b) && Stands(r, t, {Extracting}) && r.index.facts
    ensures var r' := At(r, t, r.attempts[t].(facts := r.facts, pc := Indexing(0, false)));
            InCharge(v, r', t) && Agrees(v, r', b)
  {
    assert InStep(r, r.attempts[t]);
    ReadFactsShape(v, r, t);
    Stays(v, r, t, ReadFacts);
    WorkedAgrees(v, r, b, t, ReadFacts);
  }

  lemma FinishStep(v: VersionId, r: Version, t: Token)
    requires InCharge(v, r, t) && Stands(r, t, {Indexing(3, false)})
    ensures Worked(v, r, t, Finish) ==
            Guarded(r, t, JP.Finish(100), At(r, t, r.attempts[t].(pc := Over)).(status := Review))
  {
    assert InStep(r, r.attempts[t]);
  }

  lemma ReviewHeld(v: VersionId, r: Version, b: Backend)
    requires DataInv(v, r) && Agrees(v, r, b) && r.status == Review
    ensures IsTextIndex(v, Held(v, r, b, Fulltext), r.chunks) && IsTextIndex(v, Held(v, r, b, Vector), r.chunks)
    ensures IsGraph(v, Held(v, r, b, Graph), r.facts)
  {
    ExpectedMeans(v, r.chunks, r.facts);
    assert Fulltext in r.index.ready && Vector in r.index.ready && Graph in r.index.ready;
  }

  lemma OwnedAfter(v: VersionId, r: Version, b: Backend, t: Token, action: Action)
    requires RowInv(v, r) && AllOwned(b) && t in r.attempts
    ensures AllOwned(Indexed(v, r, b, t, action))
  {
    forall stage: Stage ensures Owned(Indexed(v, r, b, t, action).At(stage)) {
      OtherSlicesUntouched(v, r, b, t, action, stage);
    }
  }

  /** The job is still this attempt's to end. */
  predicate Handles(r: Version, t: Token) {
    r.work.Some? && r.work.value.job.token == Some(t) && r.work.value.job.status == Jobs.Running
  }

  lemma GivenUpJob(r: Version, t: Token)
    requires WorkInv(r) && t in r.attempts && Handles(r, t)
    ensures var r' := GivenUp(r, t);
            && r'.work.Some? && r'.work.value.job.progress == r.work.value.job.progress
            && r'.work.value.job.status == (if r.work.value.job.cancelRequested then Jobs.Cancelled else Jobs.Failed)
            && r'.work.value.job.errorCode ==
               (if r.work.value.job.cancelRequested then None else Some("KNOWLEDGE_PROCESSING_FAILED"))
  {
  }

  lemma WholePart(records: map<RecordId, Record>)
    ensures Part(records, records.Keys) == records
  {
  }
}
