/** What every reachable world keeps: the indexes agree with the committed chunks and facts. */
module IndexAgreement {
  import opened Common
  import opened Indexes
  import opened Publication
  import opened Ingestion
  import Chunking
  import Facts
  import Jobs
  import JP = JobProtocol
  import Segmentation

  // ---------------------------------------------------------------- the invariant

  /** The chunks are a segmentation of the current artifact. */
  ghost predicate FromArtifact(r: Version) {
    exists plan :: Chunking.Segmented(r.blocks, r.kind, plan) == Ok(r.chunks)
  }

  /** Every fact quotes a chunk of the version verbatim. */
  ghost predicate FactsQuoted(v: VersionId, chunks: seq<Chunking.Chunk>, facts: Facts.Facts) {
    forall id :: id in facts ==> Facts.IdOf(facts[id]) == id && Facts.Supported(v, chunks, facts[id])
  }

  predicate Settled(s: Status) {
    s in {Review, Approved, Rejected, Published, Withdrawn}
  }

  /** What the session of the attempt in charge read is still what the database says. */
  predicate InStep(r: Version, a: Attempt) {
    && r.status == Processing && a.index == r.index && a.blocks == r.blocks
    && (a.pc.Cleaning? <==> r.index.cleanup) && (a.pc.Cleaning? ==> a.pc.deleted <= 3)
    && (a.pc.Parsing? ==> r.blocks == [])
    && (a.pc.Extracting? || a.pc.Indexing? ==> a.chunks == r.chunks && r.chunks != [])
    && (a.pc.Indexing? ==> a.facts == r.facts && r.index.facts && a.pc.stage <= 3)
    && (a.pc.Indexing? ==> forall j :: 0 <= j < a.pc.stage ==> STAGES[j] in r.index.ready)
  }

  predicate Busy(a: Attempt) {
    !a.pc.Entering? && !a.pc.Over?
  }

  ghost predicate RowInv(v: VersionId, r: Version) {
    DataInv(v, r) && WorkInv(r) && ChargeInv(r)
  }

  ghost predicate DataInv(v: VersionId, r: Version) {
    && (r.index.cleanup ==> r.index == CLEANUP && r.chunks == [])
    && (!r.index.facts ==> r.facts == map[] && r.index.ready == {})
    && (r.index.facts ==> r.chunks != [])
    && (r.chunks != [] ==> FromArtifact(r))
    && FactsQuoted(v, r.chunks, r.facts)
    && (Settled(r.status) ==> r.index.ready == ALL_STAGES)
    && NonEmpty(r.period)
  }

  ghost predicate ChargeInv(r: Version) {
    r.token.Some? ==>
      && r.token.value in r.attempts
      && (Busy(r.attempts[r.token.value]) ==> InStep(r, r.attempts[r.token.value]))
  }

  ghost predicate WorkInv(r: Version) {
    r.work.Some? ==>
      && JP.Inv(r.work.value)
      && (forall t :: t in r.work.value.claims ==> t in r.attempts)
      && (r.work.value.job.token.Some? ==> r.token == r.work.value.job.token)
  }

  function Held(v: VersionId, r: Version, b: Backend, stage: Stage): map<RecordId, Record> {
    Slice(b.At(stage), r.generation, v)
  }

  function Due(v: VersionId, r: Version, stage: Stage): map<RecordId, Record> {
    Expected(v, stage, r.chunks, r.facts)
  }

  predicate PartOf(part: map<RecordId, Record>, whole: map<RecordId, Record>) {
    forall id :: id in part ==> id in whole && part[id] == whole[id]
  }

  ghost predicate Agrees(v: VersionId, r: Version, b: Backend) {
    && (!r.index.cleanup ==> forall stage :: PartOf(Held(v, r, b, stage), Due(v, r, stage)))
    && (forall stage :: stage in r.index.ready ==> Held(v, r, b, stage) == Due(v, r, stage))
    && (r.token.Some? && r.token.value in r.attempts ==> DoneSoFar(v, r, b, r.attempts[r.token.value].pc))
  }

  ghost predicate DoneSoFar(v: VersionId, r: Version, b: Backend, pc: Pc) {
    && (pc.Cleaning? && pc.deleted <= 3 ==> forall j :: 0 <= j < pc.deleted ==> Held(v, r, b, STAGES[j]) == map[])
    && (pc.Indexing? && pc.stage < 3 && pc.written ==> Held(v, r, b, STAGES[pc.stage]) == Due(v, r, STAGES[pc.stage]))
  }

  ghost predicate BackendInv(w: World) {
    forall stage: Stage ::
      && Owned(w.backend.At(stage))
      && forall key :: key in w.backend.At(stage) ==>
           key.1.version in w.versions && key.0 == w.versions[key.1.version].generation
  }

  ghost predicate PublishedApart(w: World) {
    forall u, v :: u in w.versions && v in w.versions && u != v && w.versions[u].document == w.versions[v].document
                   && w.versions[u].status == Published && w.versions[v].status == Published ==>
      Apart(w.versions[u].period, w.versions[v].period)
  }

  ghost predicate PeriodsInv(w: World) {
    PublishedApart(w) && forall v :: v in w.versions ==> NonEmpty(w.versions[v].period)
  }

  ghost predicate RowsInv(w: World) {
    forall v :: v in w.versions ==> RowInv(v, w.versions[v]) && Agrees(v, w.versions[v], w.backend)
  }

  ghost predicate Inv(w: World) {
    RowsInv(w) && BackendInv(w) && PublishedApart(w)
  }

  // ---------------------------------------------------------------- worker steps

  lemma NothingFromNothing(r: Version)
    requires r.blocks == [] && (r.chunks != [] ==> FromArtifact(r))
    ensures r.chunks == []
  {
  }

  lemma {:induction false} TableQuoted(v: VersionId, chunks: seq<Chunking.Chunk>, facts: seq<Facts.Fact>)
    requires Facts.AllSupported(v, chunks, facts)
    ensures FactsQuoted(v, chunks, Facts.Table(facts))
  {
    Facts.TableExact(facts);
  }

  ghost predicate Sound(v: VersionId, p: Proposal) {
    match p
    case Refused => true
    case Free(next) => DataInv(v, next) && ChargeInv(next)
    case Fenced(_, next) => DataInv(v, next) && ChargeInv(next)
  }

  ghost predicate Acts(v: VersionId, r: Version, t: Token) {
    DataInv(v, r) && ChargeInv(r) && t in r.attempts && Latest(r, t)
  }

  /** Steps that only move the attempt in charge, or the flags with it. */
  lemma MovingRow(v: VersionId, r: Version, t: Token, action: Action)
    requires Acts(v, r, t)
    requires action in {Start, DeleteIndex, ClearState, ReadChunks, ReadFacts}
    ensures Sound(v, Proposed(v, r, t, action))
  {
    match action
    case Start => StartRow(v, r, t);
    case ClearState => ClearRow(v, r, t);
    case _ => ReadingRow(v, r, t, action);
  }

  lemma StartRow(v: VersionId, r: Version, t: Token)
    requires Acts(v, r, t)
    ensures Sound(v, Proposed(v, r, t, Start))
  {
  }

  lemma ClearRow(v: VersionId, r: Version, t: Token)
    requires Acts(v, r, t)
    ensures Sound(v, Proposed(v, r, t, ClearState))
  {
  }

  lemma ReadingRow(v: VersionId, r: Version, t: Token, action: Action)
    requires Acts(v, r, t)
    requires action in {DeleteIndex, ReadChunks, ReadFacts}
    ensures Sound(v, Proposed(v, r, t, action))
  {
  }

  lemma SaveArtifactRow(v: VersionId, r: Version, t: Token, blocks: seq<Chunking.Block>)
    requires Acts(v, r, t)
    ensures Sound(v, Proposed(v, r, t, SaveArtifact(blocks)))
  {
    if r.attempts[t].pc.Parsing? {
      NothingFromNothing(r);
    }
  }

  lemma SaveChunksRow(v: VersionId, r: Version, t: Token, plan: nat -> seq<string>)
    requires Acts(v, r, t)
    ensures Sound(v, Proposed(v, r, t, SaveChunks(plan)))
  {
    var a := r.attempts[t];
    if a.pc.Segmenting? && Chunking.Segmented(a.blocks, r.kind, plan).Ok? {
      Segmentation.SegmentNotEmpty(a.blocks, r.kind, plan);
    }
  }

  lemma SavingFactsRow(v: VersionId, r: Version, t: Token, facts: Facts.Facts)
    requires Acts(v, r, t) && r.attempts[t].pc.Extracting? && FactsQuoted(v, r.chunks, facts)
    ensures Sound(v, SavingFacts(r, t, facts))
  {
  }

  /** Saving facts is refused, or it saves the table of supported answers. */
  lemma FactsShape(v: VersionId, r: Version, t: Token, answers: nat -> seq<Facts.Fact>)
    requires t in r.attempts
    ensures var a := r.attempts[t]; var found := Facts.Answered(|a.chunks|, 0, answers);
            var p := Proposed(v, r, t, SaveFacts(answers));
            || p.Refused?
            || (a.pc.Extracting? && Facts.AllSupported(v, a.chunks, found)
                && p == SavingFacts(r, t, Facts.Table(found)))
  {
  }

  lemma {:induction false} FoundFactsRow(v: VersionId, r: Version, t: Token, found: seq<Facts.Fact>)
    requires Acts(v, r, t) && r.attempts[t].pc.Extracting? && Facts.AllSupported(v, r.attempts[t].chunks, found)
    ensures Sound(v, SavingFacts(r, t, Facts.Table(found)))
  {
    TableQuoted(v, r.attempts[t].chunks, found);
    assert InStep(r, r.attempts[t]);
    SavingFactsRow(v, r, t, Facts.Table(found));
  }

  lemma SaveFactsRow(v: VersionId, r: Version, t: Token, answers: nat -> seq<Facts.Fact>)
    requires Acts(v, r, t)
    ensures Sound(v, Proposed(v, r, t, SaveFacts(answers)))
  {
    FactsShape(v, r, t, answers);
    if !Proposed(v, r, t, SaveFacts(answers)).Refused? {
      FoundFactsRow(v, r, t, Facts.Answered(|r.attempts[t].chunks|, 0, answers));
    }
  }

  lemma UpsertRow(v: VersionId, r: Version, t: Token, ids: set<RecordId>)
    requires Acts(v, r, t)
    ensures Sound(v, Proposed(v, r, t, Upsert(ids)))
  {
  }

  lemma MarkingReadyRow(v: VersionId, r: Version, t: Token, stage: Stage)
    requires Acts(v, r, t) && r.attempts[t].pc.Indexing? && r.attempts[t].pc.stage < 3
    requires stage == STAGES[r.attempts[t].pc.stage]
    ensures Sound(v, MarkingReady(r, t, stage))
  {
    var next := MarkingReady(r, t, stage).next;
    assert InStep(r, r.attempts[t]);
    assert DataInv(v, next) by {
      MarkedData(v, r, t, stage);
    }
    assert ChargeInv(next) by {
      MarkedCharge(r, t, stage);
    }
  }

  lemma MarkedData(v: VersionId, r: Version, t: Token, stage: Stage)
    requires DataInv(v, r) && t in r.attempts && r.attempts[t].pc.Indexing? && InStep(r, r.attempts[t])
    ensures DataInv(v, MarkingReady(r, t, stage).next)
  {
  }

  lemma MarkedCharge(r: Version, t: Token, stage: Stage)
    requires t in r.attempts && r.attempts[t].pc.Indexing? && r.attempts[t].pc.stage < 3 && Latest(r, t)
    requires InStep(r, r.attempts[t]) && stage == STAGES[r.attempts[t].pc.stage]
    ensures ChargeInv(MarkingReady(r, t, stage).next)
  {
  }

  lemma MarkReadyRow(v: VersionId, r: Version, t: Token)
    requires Acts(v, r, t)
    ensures Sound(v, Proposed(v, r, t, MarkReady))
  {
    MarkingShape(v, r, t);
    if !Proposed(v, r, t, MarkReady).Refused? {
      MarkingReadyRow(v, r, t, STAGES[r.attempts[t].pc.stage]);
    }
  }

  /** Marking is refused, or it marks the stage at hand. */
  lemma MarkingShape(v: VersionId, r: Version, t: Token)
    requires t in r.attempts
    ensures var a := r.attempts[t];
            || Proposed(v, r, t, MarkReady).Refused?
            || (a.pc.Indexing? && a.pc.stage < 3
                && Proposed(v, r, t, MarkReady) == MarkingReady(r, t, STAGES[a.pc.stage]))
  {
  }

  lemma EveryStage(ready: set<Stage>)
    requires forall j :: 0 <= j < 3 ==> STAGES[j] in ready
    ensures ready == ALL_STAGES
  {
    assert STAGES[0] in ready && STAGES[1] in ready && STAGES[2] in ready;
    forall stage: Stage ensures stage in ready && stage in ALL_STAGES {
      assert stage == STAGES[0] || stage == STAGES[1] || stage == STAGES[2];
    }
  }

  /** Three stages were marked, so all of them are ready when the version goes to review. */
  lemma FinishRow(v: VersionId, r: Version, t: Token)
    requires Acts(v, r, t)
    ensures Sound(v, Proposed(v, r, t, Finish))
  {
    var a := r.attempts[t];
    if a.pc.Indexing? && a.pc.stage == 3 {
      assert InStep(r, a);
      EveryStage(r.index.ready);
    }
  }

  /** A step of the attempt in charge keeps the data and its own bearings. */
  lemma ProposedRow(v: VersionId, r: Version, t: Token, action: Action)
    requires Acts(v, r, t) && !action.GiveUp?
    ensures Sound(v, Proposed(v, r, t, action))
  {
    match action
    case SaveArtifact(blocks) => SaveArtifactRow(v, r, t, blocks);
    case SaveChunks(plan) => SaveChunksRow(v, r, t, plan);
    case SaveFacts(answers) => SaveFactsRow(v, r, t, answers);
    case Upsert(ids) => UpsertRow(v, r, t, ids);
    case MarkReady => MarkReadyRow(v, r, t);
    case Finish => FinishRow(v, r, t);
    case _ => MovingRow(v, r, t, action);
  }

  // ---------------------------------------------------------------- any worker step

  /** An attempt that is not in charge gets nothing through: its guard fails, its index calls do
      not arrive, and its failure handler finds another token on the row. */
  lemma SupersededStep(v: VersionId, r: Version, b: Backend, t: Token, action: Action)
    requires WorkInv(r) && t in r.attempts && !Latest(r, t)
    ensures Worked(v, r, t, action) == At(r, t, Worked(v, r, t, action).attempts[t])
    ensures Indexed(v, r, b, t, action) == b
  {
    assert r.work.Some? ==> !Jobs.GuardPasses(r.work.value.job, t, r.work.value.now);
    assert r == At(r, t, r.attempts[t]);
  }

  lemma SupersededRow(v: VersionId, r: Version, t: Token, a: Attempt)
    requires RowInv(v, r) && t in r.attempts && !Latest(r, t)
    ensures RowInv(v, At(r, t, a))
  {
  }

  lemma FreeKeepsWork(v: VersionId, r: Version, t: Token, action: Action)
    requires t in r.attempts
    ensures match Proposed(v, r, t, action)
            case Refused => true
            case Free(next) =>
              !action.GiveUp? ==>
                next.work == r.work && next.token == r.token && next.attempts.Keys == r.attempts.Keys
            case Fenced(_, next) =>
              next.work == r.work && next.token == r.token && next.attempts.Keys == r.attempts.Keys
  {
  }

  lemma GivenUpRow(v: VersionId, r: Version, t: Token)
    requires RowInv(v, r) && t in r.attempts
    ensures RowInv(v, GivenUp(r, t))
  {
    GivenUpWork(r, t);
    GivenUpData(v, r, t);
  }

  lemma GivenUpWork(r: Version, t: Token)
    requires WorkInv(r) && t in r.attempts
    ensures WorkInv(GivenUp(r, t))
  {
    if r.work.Some? {
      JP.ApplyInv(r.work.value, JP.HandleFailure(t, "KNOWLEDGE_PROCESSING_FAILED"));
    }
  }

  lemma GivenUpData(v: VersionId, r: Version, t: Token)
    requires RowInv(v, r) && t in r.attempts
    ensures DataInv(v, GivenUp(r, t)) && ChargeInv(GivenUp(r, t))
  {
  }

  /** A commit keeps the invariant of the job and of what the commit writes. */
  lemma CommittedRow(v: VersionId, r: Version, t: Token, p: Proposal)
    requires RowInv(v, r) && Sound(v, p)
    requires !p.Refused? ==> p.next.work == r.work && p.next.token == r.token && p.next.attempts.Keys == r.attempts.Keys
    ensures RowInv(v, Committed(r, t, p))
  {
    if p.Fenced? {
      GuardedWork(r, t, p.change, p.next);
    }
  }

  lemma GuardedWork(r: Version, t: Token, change: JP.Change, next: Version)
    requires WorkInv(r) && next.work == r.work && next.token == r.token && next.attempts.Keys == r.attempts.Keys
    ensures WorkInv(Guarded(r, t, change, next))
  {
    if r.work.Some? {
      JP.ApplyInv(r.work.value, JP.Publish(t, change));
    }
  }

  lemma ChargeRow(v: VersionId, r: Version, t: Token, action: Action)
    requires RowInv(v, r) && t in r.attempts && Latest(r, t) && !action.GiveUp?
    ensures RowInv(v, Worked(v, r, t, action))
  {
    ProposedRow(v, r, t, action);
    FreeKeepsWork(v, r, t, action);
    CommittedRow(v, r, t, Proposed(v, r, t, action));
  }

  lemma WorkedRow(v: VersionId, r: Version, t: Token, action: Action)
    requires RowInv(v, r) && t in r.attempts
    ensures RowInv(v, Worked(v, r, t, action))
  {
    if action.GiveUp? {
      GivenUpRow(v, r, t);
    } else if !Latest(r, t) {
      SupersededStep(v, r, EMPTY.backend, t, action);
      SupersededRow(v, r, t, Worked(v, r, t, action).attempts[t]);
    } else {
      ChargeRow(v, r, t, action);
    }
  }

  // ---------------------------------------------------------------- the indexes

  ghost predicate AllOwned(b: Backend) {
    forall stage: Stage :: Owned(b.At(stage))
  }

  predicate SameData(r: Version, r': Version) {
    r'.generation == r.generation && r'.chunks == r.chunks && r'.facts == r.facts && r'.index == r.index
  }

  /** A position that claims nothing about the indexes yet. */
  predicate FreshPc(pc: Pc) {
    (pc.Cleaning? ==> pc.deleted == 0) && (pc.Indexing? ==> !pc.written)
  }

  /** Agreement depends on the slices, the flags, the chunks and facts, and the attempt in charge. */
  lemma AgreesFrame(v: VersionId, r: Version, r': Version, b: Backend, b': Backend)
    requires Agrees(v, r, b) && SameData(r, r')
    requires r'.token.Some? && r'.token.value in r'.attempts ==>
               || FreshPc(r'.attempts[r'.token.value].pc)
               || (r'.token == r.token && r.token.value in r.attempts
                    && r'.attempts[r'.token.value].pc == r.attempts[r.token.value].pc)
    requires forall stage: Stage :: Held(v, r, b', stage) == Held(v, r, b, stage)
    ensures Agrees(v, r', b')
  {
    assert forall stage: Stage :: Held(v, r', b', stage) == Held(v, r, b, stage);
  }

  lemma StageAt(stage: Stage) returns (j: nat)
    ensures j < 3 && STAGES[j] == stage
  {
    j := match stage case Fulltext => 0 case Vector => 1 case Graph => 2;
  }

  lemma DueOwned(v: VersionId, r: Version, stage: Stage)
    requires FactsQuoted(v, r.chunks, r.facts)
    ensures OwnedBy(v, Due(v, r, stage))
  {
  }

  ghost predicate ProposalAgrees(v: VersionId, p: Proposal, b: Backend) {
    p.Refused? || Agrees(v, p.next, b)
  }

  /** Steps that leave the row's data alone. */
  lemma MovingAgrees(v: VersionId, r: Version, b: Backend, t: Token, action: Action)
    requires Acts(v, r, t) && Agrees(v, r, b)
    requires action in {Start, ReadChunks, ReadFacts} || action.SaveArtifact? || action.Finish?
    ensures ProposalAgrees(v, Proposed(v, r, t, action), b)
  {
    MovingShape(v, r, t, action);
    if !Proposed(v, r, t, action).Refused? {
      AgreesFrame(v, r, Proposed(v, r, t, action).next, b, b);
    }
  }

  lemma MovingShape(v: VersionId, r: Version, t: Token, action: Action)
    requires Acts(v, r, t)
    requires action in {Start, ReadChunks, ReadFacts} || action.SaveArtifact? || action.Finish?
    ensures Moves(r, t, Proposed(v, r, t, action))
  {
    match action
    case Start => StartShape(v, r, t);
    case Finish => FinishesShape(v, r, t);
    case _ => ReadShape(v, r, t, action);
  }

  predicate Moves(r: Version, t: Token, p: Proposal) {
    p.Refused?
    || (SameData(r, p.next) && p.next.token == r.token && t in p.next.attempts && FreshPc(p.next.attempts[t].pc))
  }

  lemma StartShape(v: VersionId, r: Version, t: Token)
    requires t in r.attempts
    ensures Moves(r, t, Proposed(v, r, t, Start))
  {
  }

  lemma FinishesShape(v: VersionId, r: Version, t: Token)
    requires t in r.attempts
    ensures Moves(r, t, Proposed(v, r, t, Finish))
  {
  }

  lemma ReadShape(v: VersionId, r: Version, t: Token, action: Action)
    requires Acts(v, r, t)
    requires action in {ReadChunks, ReadFacts} || action.SaveArtifact?
    ensures Moves(r, t, Proposed(v, r, t, action))
  {
  }

  /** All three slices were emptied, so clearing the flags is sound. */
  lemma ClearAgrees(v: VersionId, r: Version, b: Backend, t: Token)
    requires Acts(v, r, t) && Agrees(v, r, b)
    ensures ProposalAgrees(v, Proposed(v, r, t, ClearState), b)
  {
    var p := Proposed(v, r, t, ClearState);
    if !p.Refused? {
      forall stage ensures Held(v, p.next, b, stage) == map[] {
        var j := StageAt(stage);
        assert Held(v, r, b, STAGES[j]) == map[];
      }
    }
  }

  /** New chunks arrive only while the text indexes are empty. */
  lemma SaveChunksAgrees(v: VersionId, r: Version, b: Backend, t: Token, plan: nat -> seq<string>)
    requires Acts(v, r, t) && Agrees(v, r, b)
    ensures ProposalAgrees(v, Proposed(v, r, t, SaveChunks(plan)), b)
  {
    var p := Proposed(v, r, t, SaveChunks(plan));
    if !p.Refused? {
      assert InStep(r, r.attempts[t]);
      forall stage ensures PartOf(Held(v, p.next, b, stage), Due(v, p.next, stage)) {
        assert PartOf(Held(v, r, b, stage), Due(v, r, stage));
      }
    }
  }

  /** New facts arrive only while the graph is empty. */
  lemma SavingFactsAgrees(v: VersionId, r: Version, b: Backend, t: Token, facts: Facts.Facts)
    requires Acts(v, r, t) && Agrees(v, r, b)
    requires r.attempts[t].pc.Extracting? && !r.attempts[t].index.facts
    ensures Agrees(v, SavingFacts(r, t, facts).next, b)
  {
    var next := SavingFacts(r, t, facts).next;
    assert InStep(r, r.attempts[t]);
    forall stage ensures PartOf(Held(v, next, b, stage), Due(v, next, stage)) {
      assert PartOf(Held(v, r, b, stage), Due(v, r, stage));
    }
  }

  lemma MarkingReadyAgrees(v: VersionId, r: Version, b: Backend, t: Token, stage: Stage)
    requires Acts(v, r, t) && Agrees(v, r, b)
    requires r.attempts[t].pc.Indexing? && r.attempts[t].pc.stage < 3 && stage == STAGES[r.attempts[t].pc.stage]
    requires stage in r.attempts[t].index.ready || r.attempts[t].pc.written
    ensures Agrees(v, MarkingReady(r, t, stage).next, b)
  {
    var next := MarkingReady(r, t, stage).next;
    assert InStep(r, r.attempts[t]);
    assert DoneSoFar(v, r, b, r.attempts[t].pc);
    ReadyAgrees(v, r, next, b, stage);
  }

  lemma ReadyAgrees(v: VersionId, r: Version, next: Version, b: Backend, stage: Stage)
    requires Agrees(v, r, b) && Held(v, r, b, stage) == Due(v, r, stage)
    requires next.generation == r.generation && next.chunks == r.chunks && next.facts == r.facts
    requires !r.index.cleanup && !next.index.cleanup && next.index.ready <= r.index.ready + {stage}
    requires next.token.Some? && next.token.value in next.attempts ==>
               var pc := next.attempts[next.token.value].pc;
               pc.Indexing? && !pc.written
    ensures Agrees(v, next, b)
  {
    assert forall other: Stage ::
        Held(v, next, b, other) == Held(v, r, b, other) && Due(v, next, other) == Due(v, r, other);
  }

  lemma ProposedAgrees(v: VersionId, r: Version, b: Backend, t: Token, action: Action)
    requires Acts(v, r, t) && Agrees(v, r, b)
    requires !action.DeleteIndex? && !action.Upsert? && !action.GiveUp?
    ensures ProposalAgrees(v, Proposed(v, r, t, action), b)
  {
    var a := r.attempts[t];
    match action
    case ClearState => ClearAgrees(v, r, b, t);
    case SaveChunks(plan) => SaveChunksAgrees(v, r, b, t, plan);
    case SaveFacts(answers) =>
      if a.pc.Extracting? && !a.index.facts {
        SavingFactsAgrees(v, r, b, t, Facts.Table(Facts.Answered(|a.chunks|, 0, answers)));
      }
    case MarkReady =>
      if a.pc.Indexing? && a.pc.stage < 3 && (STAGES[a.pc.stage] in a.index.ready || a.pc.written) {
        MarkingReadyAgrees(v, r, b, t, STAGES[a.pc.stage]);
      }
    case _ => MovingAgrees(v, r, b, t, action);
  }

  lemma DeleteAgrees(v: VersionId, r: Version, b: Backend, t: Token)
    requires Acts(v, r, t) && Agrees(v, r, b) && AllOwned(b) && Deletes(r, t)
    ensures Agrees(v, Worked(v, r, t, DeleteIndex), Indexed(v, r, b, t, DeleteIndex))
  {
    var k := r.attempts[t].pc.deleted;
    var b' := Indexed(v, r, b, t, DeleteIndex);
    var r' := Worked(v, r, t, DeleteIndex);
    assert InStep(r, r.attempts[t]);
    DeletedSlice(b.At(STAGES[k]), r.generation, v);
    forall j | 0 <= j <= k ensures Held(v, r', b', STAGES[j]) == map[] {
      assert j < k ==> Held(v, r, b, STAGES[j]) == map[];
    }
  }

  lemma Merged(held: map<RecordId, Record>, due: map<RecordId, Record>, ids: set<RecordId>)
    requires PartOf(held, due)
    ensures PartOf(held + Part(due, ids), due)
    ensures held == due || due.Keys <= ids ==> held + Part(due, ids) == due
  {
  }

  /** A write to one stage that is not marked ready. */
  lemma OneStageAgrees(v: VersionId, r: Version, r': Version, b: Backend, b': Backend, stage: Stage, pc: Pc)
    requires Agrees(v, r, b) && !r.index.cleanup && stage !in r.index.ready
    requires r'.generation == r.generation && r'.chunks == r.chunks && r'.facts == r.facts && r'.index == r.index
    requires PartOf(Held(v, r, b', stage), Due(v, r, stage))
    requires forall other: Stage :: other != stage ==> Held(v, r, b', other) == Held(v, r, b, other)
    requires r'.token.Some? && r'.token.value in r'.attempts && r'.attempts[r'.token.value].pc == pc
    requires pc.Indexing? && pc.stage < 3 && STAGES[pc.stage] == stage
    requires pc.written ==> Held(v, r, b', stage) == Due(v, r, stage)
    ensures Agrees(v, r', b')
  {
    forall other: Stage
      ensures PartOf(Held(v, r', b', other), Due(v, r', other))
      ensures other in r'.index.ready ==> Held(v, r', b', other) == Due(v, r', other)
    {
      assert PartOf(Held(v, r, b, other), Due(v, r, other));
    }
  }

  lemma UpsertBackend(v: VersionId, r: Version, b: Backend, t: Token, ids: set<RecordId>)
    requires Acts(v, r, t) && Writes(r, t)
    ensures var stage := STAGES[r.attempts[t].pc.stage];
            && OwnedBy(v, Part(Due(v, r, stage), ids))
            && Indexed(v, r, b, t, Upsert(ids)) ==
               b.With(stage, Written(b.At(stage), r.generation, Part(Due(v, r, stage), ids)))
  {
    assert InStep(r, r.attempts[t]);
    DueOwned(v, r, STAGES[r.attempts[t].pc.stage]);
  }

  lemma HeldWritten(v: VersionId, r: Version, b: Backend, stage: Stage, part: map<RecordId, Record>)
    requires AllOwned(b) && OwnedBy(v, part)
    ensures var b' := b.With(stage, Written(b.At(stage), r.generation, part));
            && Held(v, r, b', stage) == Held(v, r, b, stage) + part
            && forall other: Stage :: other != stage ==> Held(v, r, b', other) == Held(v, r, b, other)
  {
    WrittenSlice(b.At(stage), r.generation, v, part);
  }

  lemma UpsertHeld(v: VersionId, r: Version, b: Backend, t: Token, ids: set<RecordId>)
    requires Acts(v, r, t) && AllOwned(b) && Writes(r, t)
    ensures var stage := STAGES[r.attempts[t].pc.stage];
            var b' := Indexed(v, r, b, t, Upsert(ids));
            && Held(v, r, b', stage) == Held(v, r, b, stage) + Part(Due(v, r, stage), ids)
            && forall other: Stage :: other != stage ==> Held(v, r, b', other) == Held(v, r, b, other)
  {
    var stage := STAGES[r.attempts[t].pc.stage];
    UpsertBackend(v, r, b, t, ids);
    HeldWritten(v, r, b, stage, Part(Due(v, r, stage), ids));
  }

  lemma UpsertAgrees(v: VersionId, r: Version, b: Backend, t: Token, ids: set<RecordId>)
    requires Acts(v, r, t) && Agrees(v, r, b) && AllOwned(b) && Writes(r, t)
    ensures Agrees(v, Worked(v, r, t, Upsert(ids)), Indexed(v, r, b, t, Upsert(ids)))
  {
    var a := r.attempts[t];
    assert InStep(r, a);
    var stage := STAGES[a.pc.stage];
    var r' := Worked(v, r, t, Upsert(ids));
    UpsertHeld(v, r, b, t, ids);
    Merged(Held(v, r, b, stage), Due(v, r, stage), ids);
    assert DoneSoFar(v, r, b, a.pc);
    OneStageAgrees(v, r, r', b, Indexed(v, r, b, t, Upsert(ids)), stage, r'.attempts[t].pc);
  }

  lemma ChargeAgrees(v: VersionId, r: Version, b: Backend, t: Token, action: Action)
    requires RowInv(v, r) && Agrees(v, r, b) && t in r.attempts && Latest(r, t)
    requires !action.DeleteIndex? && !action.Upsert? && !action.GiveUp?
    ensures Agrees(v, Worked(v, r, t, action), b)
  {
    ProposedAgrees(v, r, b, t, action);
    CommittedAgrees(v, r, b, t, Proposed(v, r, t, action));
  }

  lemma SupersededAgrees(v: VersionId, r: Version, b: Backend, t: Token, action: Action)
    requires WorkInv(r) && Agrees(v, r, b) && t in r.attempts && !Latest(r, t)
    ensures Agrees(v, Worked(v, r, t, action), Indexed(v, r, b, t, action))
  {
    SupersededStep(v, r, b, t, action);
    AgreesFrame(v, r, At(r, t, Worked(v, r, t, action).attempts[t]), b, b);
  }

  lemma GivenUpAgrees(v: VersionId, r: Version, b: Backend, t: Token)
    requires Agrees(v, r, b) && t in r.attempts
    ensures Agrees(v, GivenUp(r, t), b)
  {
    AgreesFrame(v, r, GivenUp(r, t), b, b);
  }

  lemma WorkedAgrees(v: VersionId, r: Version, b: Backend, t: Token, action: Action)
    requires RowInv(v, r) && Agrees(v, r, b) && AllOwned(b) && t in r.attempts
    ensures Agrees(v, Worked(v, r, t, action), Indexed(v, r, b, t, action))
  {
    if action.GiveUp? {
      GaveUpAgrees(v, r, b, t);
    } else if Latest(r, t) {
      LatestAgrees(v, r, b, t, action);
    } else {
      SupersededAgrees(v, r, b, t, action);
    }
  }

  lemma GaveUpAgrees(v: VersionId, r: Version, b: Backend, t: Token)
    requires RowInv(v, r) && Agrees(v, r, b) && AllOwned(b) && t in r.attempts
    ensures Agrees(v, Worked(v, r, t, GiveUp), Indexed(v, r, b, t, GiveUp))
  {
    GiveUpShape(v, r, b, t);
    GivenUpAgrees(v, r, b, t);
  }

  lemma GiveUpShape(v: VersionId, r: Version, b: Backend, t: Token)
    requires t in r.attempts
    ensures Worked(v, r, t, GiveUp) == if r.attempts[t].pc.Over? then r else GivenUp(r, t)
    ensures Indexed(v, r, b, t, GiveUp) == b
  {
  }

  lemma LatestAgrees(v: VersionId, r: Version, b: Backend, t: Token, action: Action)
    requires RowInv(v, r) && Agrees(v, r, b) && AllOwned(b) && t in r.attempts && Latest(r, t) && !action.GiveUp?
    ensures Agrees(v, Worked(v, r, t, action), Indexed(v, r, b, t, action))
  {
    if (action.DeleteIndex? && !Deletes(r, t)) || (action.Upsert? && !Writes(r, t)) {
      RefusedCall(v, r, b, t, action);
    } else {
      match action
      case DeleteIndex => DeleteAgrees(v, r, b, t);
      case Upsert(ids) => UpsertAgrees(v, r, b, t, ids);
      case _ => ChargeAgrees(v, r, b, t, action);
    }
  }

  lemma RefusedCall(v: VersionId, r: Version, b: Backend, t: Token, action: Action)
    requires t in r.attempts && ((action.DeleteIndex? && !Deletes(r, t)) || (action.Upsert? && !Writes(r, t)))
    ensures Worked(v, r, t, action) == r && Indexed(v, r, b, t, action) == b
  {
  }

  lemma CommittedAgrees(v: VersionId, r: Version, b: Backend, t: Token, p: Proposal)
    requires Agrees(v, r, b) && ProposalAgrees(v, p, b)
    ensures Agrees(v, Committed(r, t, p), b)
  {
    var c := Committed(r, t, p);
    if p.Fenced? && c != r {
      AgreesFrame(v, p.next, c, b, b);
    }
  }

  /** An index call for one version leaves every other version's records alone. */
  lemma OtherSlicesUntouched(v: VersionId, r: Version, b: Backend, t: Token, action: Action, stage: Stage)
    requires RowInv(v, r) && AllOwned(b) && t in r.attempts
    ensures OthersKept(b.At(stage), Indexed(v, r, b, t, action).At(stage), r.generation, v)
  {
    assert Owned(b.At(stage));
    if action.DeleteIndex? && Deletes(r, t) {
      DeletedKeeps(b.At(stage), r.generation, v);
    } else if action.Upsert? && Writes(r, t) {
      UpsertBackend(v, r, b, t, action.ids);
      WrittenKeeps(b.At(stage), r.generation, v, Part(Due(v, r, STAGES[r.attempts[t].pc.stage]), action.ids));
    }
  }

  // ---------------------------------------------------------------- the other transactions

  lemma SteppedWork(r: Version, step: JP.Event)
    requires WorkInv(r) && r.work.Some? && Outside(r, step)
    ensures WorkInv(Stepped(r, step))
  {
    JP.ApplyInv(r.work.value, step);
  }

  lemma SteppedData(v: VersionId, r: Version, step: JP.Event)
    requires DataInv(v, r) && ChargeInv(r) && r.work.Some? && Outside(r, step)
    ensures DataInv(v, Stepped(r, step)) && ChargeInv(Stepped(r, step))
  {
  }

  lemma SteppedRow(v: VersionId, r: Version, step: JP.Event)
    requires RowInv(v, r) && r.work.Some? && Outside(r, step)
    ensures RowInv(v, Stepped(r, step))
  {
    SteppedWork(r, step);
    SteppedData(v, r, step);
  }

  /** A correction is accepted only when no attempt is in the middle of the version. */
  lemma ResetRow(v: VersionId, r: Version, blocks: seq<Chunking.Block>)
    requires RowInv(v, r) && r.status != Processing
    ensures RowInv(v, Reset(r, blocks))
  {
  }

  lemma PlainRow(v: VersionId, r: Version, e: Event)
    requires RowInv(v, r) && !e.Correct? && !e.JobStep?
    ensures RowInv(v, Edited(r, e))
  {
    if e.NewJob? {
      NewJobRow(v, r, e.now);
    } else {
      StatusRow(v, r, e);
    }
  }

  lemma NewJobRow(v: VersionId, r: Version, now: int)
    requires RowInv(v, r)
    ensures RowInv(v, Edited(r, NewJob(v, now)))
  {
    var r' := r.(work := Some(JP.Init(now)));
    assert WorkInv(r');
    assert DataInv(v, r') && ChargeInv(r') by {
      OnlyWork(v, r, r'.work);
    }
  }

  lemma OnlyWork(v: VersionId, r: Version, work: Option<JP.State>)
    requires DataInv(v, r) && ChargeInv(r)
    ensures DataInv(v, r.(work := work)) && ChargeInv(r.(work := work))
  {
  }

  lemma StatusRow(v: VersionId, r: Version, e: Event)
    requires RowInv(v, r) && !e.Correct? && !e.JobStep? && !e.NewJob?
    ensures RowInv(v, Edited(r, e))
  {
  }

  lemma EditedRow(v: VersionId, r: Version, e: Event)
    requires RowInv(v, r)
    ensures RowInv(v, Edited(r, e))
  {
    match e
    case JobStep(_, step) =>
      if r.work.Some? && Outside(r, step) {
        SteppedRow(v, r, step);
      }
    case Correct(_, corrections, blocks) =>
      if Accepted(r, corrections, blocks) {
        ResetRow(v, r, blocks);
      }
    case _ => PlainRow(v, r, e);
  }

  lemma SteppedAgrees(v: VersionId, r: Version, b: Backend, step: JP.Event)
    requires RowInv(v, r) && Agrees(v, r, b) && r.work.Some? && Outside(r, step)
    ensures Agrees(v, Stepped(r, step), b)
  {
    AgreesFrame(v, r, Stepped(r, step), b, b);
  }

  lemma ResetAgrees(v: VersionId, r: Version, b: Backend, blocks: seq<Chunking.Block>)
    requires ChargeInv(r) && r.status != Processing
    ensures Agrees(v, Reset(r, blocks), b)
  {
    assert r.token.Some? ==> !Busy(r.attempts[r.token.value]);
  }

  lemma CorrectAgrees(v: VersionId, r: Version, b: Backend, e: Event)
    requires ChargeInv(r) && Agrees(v, r, b) && e.Correct?
    ensures Agrees(v, Edited(r, e), b)
  {
    if Accepted(r, e.corrections, e.blocks) {
      ResetAgrees(v, r, b, e.blocks);
    }
  }

  lemma EditedAgrees(v: VersionId, r: Version, b: Backend, e: Event)
    requires RowInv(v, r) && Agrees(v, r, b)
    ensures Agrees(v, Edited(r, e), b)
  {
    match e
    case Correct(_, _, _) => CorrectAgrees(v, r, b, e);
    case JobStep(_, step) =>
      if r.work.Some? && Outside(r, step) {
        SteppedAgrees(v, r, b, step);
      }
    case _ => PlainAgrees(v, r, b, e);
  }

  lemma PlainAgrees(v: VersionId, r: Version, b: Backend, e: Event)
    requires Agrees(v, r, b) && !e.Correct? && !e.JobStep?
    ensures Agrees(v, Edited(r, e), b)
  {
    var r' := Edited(r, e);
    assert r'.generation == r.generation && r'.chunks == r.chunks && r'.facts == r.facts && r'.index == r.index;
    assert r'.token == r.token && r'.attempts == r.attempts;
    AgreesFrame(v, r, r', b, b);
  }

  // ---------------------------------------------------------------- every step, every run

  /** An edit of one row does not publish it. */
  lemma EditedPublication(r: Version, e: Event)
    ensures Edited(r, e).document == r.document && Edited(r, e).period == r.period
            && Edited(r, e).generation == r.generation
    ensures Edited(r, e).status == Published ==> r.status == Published
  {
  }

  lemma WorkedPublication(v: VersionId, r: Version, t: Token, action: Action)
    requires t in r.attempts
    ensures var r' := Worked(v, r, t, action);
            && r'.document == r.document && r'.period == r.period && r'.generation == r.generation
            && (r'.status == Published ==> r.status == Published)
  {
    if action.GiveUp? {
      assert SameLabel(r, GivenUp(r, t));
    } else {
      ProposedLabel(v, r, t, action);
      CommittedLabel(r, t, Proposed(v, r, t, action));
    }
  }

  predicate SameLabel(r: Version, r': Version) {
    && r'.document == r.document && r'.period == r.period && r'.generation == r.generation
    && (r'.status == Published ==> r.status == Published)
  }

  lemma ProposedLabel(v: VersionId, r: Version, t: Token, action: Action)
    requires t in r.attempts && !action.GiveUp?
    ensures var p := Proposed(v, r, t, action); p.Refused? || SameLabel(r, p.next)
  {
  }

  lemma CommittedLabel(r: Version, t: Token, p: Proposal)
    requires p.Refused? || SameLabel(r, p.next)
    ensures SameLabel(r, Committed(r, t, p))
  {
  }

  /** Replacing one row, with index calls for that row only, keeps the invariant. */
  lemma ReplacedInv(w: World, v: VersionId, r: Version, b: Backend)
    requires Inv(w) && v in w.versions
    requires RowInv(v, r) && Agrees(v, r, b)
    requires r.document == w.versions[v].document && r.period == w.versions[v].period
             && r.generation == w.versions[v].generation
    requires r.status == Published ==> w.versions[v].status == Published
    requires forall stage: Stage :: OthersKept(w.backend.At(stage), b.At(stage), r.generation, v)
    ensures Inv(World(w.versions[v := r], b))
  {
    ReplacedRows(w, v, r, b);
    ReplacedBackend(w, v, r, b);
    ReplacedApart(w, v, r, b);
  }

  lemma ReplacedRows(w: World, v: VersionId, r: Version, b: Backend)
    requires RowsInv(w) && v in w.versions && RowInv(v, r) && Agrees(v, r, b)
    requires forall stage: Stage :: OthersKept(w.backend.At(stage), b.At(stage), r.generation, v)
    ensures RowsInv(World(w.versions[v := r], b))
  {
    var w' := World(w.versions[v := r], b);
    forall u | u in w'.versions ensures RowInv(u, w'.versions[u]) && Agrees(u, w'.versions[u], b) {
      if u != v {
        assert RowInv(u, w.versions[u]) && Agrees(u, w.versions[u], w.backend);
        OtherRowAgrees(u, w.versions[u], w.backend, b, r.generation, v);
      }
    }
  }

  lemma ReplacedApart(w: World, v: VersionId, r: Version, b: Backend)
    requires PublishedApart(w) && v in w.versions
    requires r.document == w.versions[v].document && r.period == w.versions[v].period
    requires r.status == Published ==> w.versions[v].status == Published
    ensures PublishedApart(World(w.versions[v := r], b))
  {
  }

  lemma OtherRowAgrees(u: VersionId, row: Version, b: Backend, b': Backend, g: Generation, v: VersionId)
    requires u != v && Agrees(u, row, b)
    requires forall stage: Stage :: OthersKept(b.At(stage), b'.At(stage), g, v)
    ensures Agrees(u, row, b')
  {
    forall stage: Stage ensures Held(u, row, b', stage) == Held(u, row, b, stage) {
      assert OthersKept(b.At(stage), b'.At(stage), g, v);
    }
    AgreesFrame(u, row, row, b, b');
  }

  lemma ReplacedBackend(w: World, v: VersionId, r: Version, b: Backend)
    requires BackendInv(w) && v in w.versions && r.generation == w.versions[v].generation
    requires forall stage: Stage :: OthersKept(w.backend.At(stage), b.At(stage), r.generation, v)
    ensures BackendInv(World(w.versions[v := r], b))
  {
    var w' := World(w.versions[v := r], b);
    forall stage: Stage
      ensures Owned(b.At(stage))
      ensures forall key :: key in b.At(stage) ==>
                key.1.version in w'.versions && key.0 == w'.versions[key.1.version].generation
    {
      assert OthersKept(w.backend.At(stage), b.At(stage), r.generation, v);
    }
  }

  lemma SameBackend(b: Backend, g: Generation, v: VersionId)
    requires AllOwned(b)
    ensures forall stage: Stage :: OthersKept(b.At(stage), b.At(stage), g, v)
  {
  }

  lemma CreatedInv(w: World, e: Event)
    requires Inv(w) && e.Create? && e.v !in w.versions
    ensures Inv(Apply(w, e))
  {
    var w' := Apply(w, e);
    if w' != w {
      var r := w'.versions[e.v];
      forall stage: Stage ensures Held(e.v, r, w.backend, stage) == map[] {
        SliceExact(w.backend.At(stage), r.generation, e.v);
      }
      forall u | u in w'.versions ensures RowInv(u, w'.versions[u]) && Agrees(u, w'.versions[u], w'.backend) {
      }
    }
  }

  lemma PublishedInv(w: World, v: VersionId)
    requires Inv(w) && v in w.versions && Publishable(w, v)
    ensures Inv(w.(versions := PublishedVersions(w, v)))
  {
    PublishedRows(w, v);
    PublishedBackend(w, v);
    assert PeriodsInv(w) by {
      PeriodsHold(w);
    }
    PublishedIntervals(w, v);
  }

  lemma PeriodsHold(w: World)
    requires Inv(w)
    ensures PeriodsInv(w)
  {
    forall v | v in w.versions ensures NonEmpty(w.versions[v].period) {
      assert RowInv(v, w.versions[v]);
    }
  }

  lemma PublishedRows(w: World, v: VersionId)
    requires Inv(w) && v in w.versions && Publishable(w, v)
    ensures RowsInv(w.(versions := PublishedVersions(w, v)))
  {
    forall u | u in w.versions
      ensures RowInv(u, PublishedVersions(w, v)[u]) && Agrees(u, PublishedVersions(w, v)[u], w.backend)
    {
      PublishedRow(w, v, u);
    }
  }

  lemma PublishedBackend(w: World, v: VersionId)
    requires BackendInv(w) && v in w.versions
    ensures BackendInv(w.(versions := PublishedVersions(w, v)))
  {
    assert forall u :: u in w.versions ==> PublishedVersions(w, v)[u].generation == w.versions[u].generation;
  }

  lemma PublishedRow(w: World, v: VersionId, u: VersionId)
    requires Inv(w) && v in w.versions && Publishable(w, v) && u in w.versions
    ensures var r := PublishedVersions(w, v)[u]; RowInv(u, r) && Agrees(u, r, w.backend)
  {
    if u == v {
      RelabelledRow(u, w.versions[u], w.backend, Published, w.versions[u].period);
    } else if Other(w, v, u) {
      var from := w.versions[v].period.from;
      assert w.versions[u].period.from < from;
      RelabelledRow(u, w.versions[u], w.backend, Published, Truncated(w.versions[u].period, from));
    }
  }

  lemma RelabelledRow(u: VersionId, r: Version, b: Backend, status: Status, period: Period)
    requires RowInv(u, r) && Agrees(u, r, b) && Settled(r.status) && Settled(status) && NonEmpty(period)
    ensures var r' := r.(status := status).(period := period); RowInv(u, r') && Agrees(u, r', b)
  {
    AgreesFrame(u, r, r.(status := status).(period := period), b, b);
  }

  /** Publishing cuts every earlier publication short where the new one begins. */
  lemma PublishedIntervals(w: World, v: VersionId)
    requires PeriodsInv(w) && v in w.versions && Publishable(w, v)
    ensures PublishedApart(w.(versions := PublishedVersions(w, v)))
  {
    var versions := PublishedVersions(w, v);
    forall x, y | x in versions && y in versions && x != y && versions[x].document == versions[y].document
                  && versions[x].status == Published && versions[y].status == Published
      ensures Apart(versions[x].period, versions[y].period)
    {
      PublishedPair(w, v, x, y);
    }
  }

  lemma PublishedPair(w: World, v: VersionId, x: VersionId, y: VersionId)
    requires PeriodsInv(w) && v in w.versions && Publishable(w, v) && x in w.versions && y in w.versions && x != y
    requires var versions := PublishedVersions(w, v);
             && versions[x].document == versions[y].document
             && versions[x].status == Published && versions[y].status == Published
    ensures Apart(PublishedVersions(w, v)[x].period, PublishedVersions(w, v)[y].period)
  {
    if x == v {
      PublishedBefore(w, v, y);
    } else if y == v {
      PublishedBefore(w, v, x);
    } else {
      assert Apart(w.versions[x].period, w.versions[y].period);
      if w.versions[x].document == w.versions[v].document {
        PublishedBefore(w, v, x);
        PublishedBefore(w, v, y);
        TruncatedApart(w.versions[x].period, w.versions[y].period, w.versions[v].period);
      }
    }
  }

  lemma PublishedBefore(w: World, v: VersionId, u: VersionId)
    requires PeriodsInv(w) && v in w.versions && Publishable(w, v)
    requires u in w.versions && u != v && w.versions[u].document == w.versions[v].document
    requires PublishedVersions(w, v)[u].status == Published
    ensures Other(w, v, u) && NonEmpty(w.versions[u].period) && w.versions[u].period.from < w.versions[v].period.from
    ensures PublishedVersions(w, v)[u].period == Truncated(w.versions[u].period, w.versions[v].period.from)
    ensures Apart(PublishedVersions(w, v)[u].period, w.versions[v].period)
    ensures PublishedVersions(w, v)[v].period == w.versions[v].period
  {
  }

  lemma ApplyInv(w: World, e: Event)
    requires Inv(w)
    ensures Inv(Apply(w, e))
  {
    if e.Create? {
      if e.v !in w.versions {
        CreatedInv(w, e);
      }
    } else if e.v in w.versions {
      var r := w.versions[e.v];
      if e.Publish? {
        if Publishable(w, e.v) {
          PublishedInv(w, e.v);
        }
      } else if e.Work? {
        if e.token in r.attempts {
          WorkInvStep(w, e.v, e.token, e.action);
        }
      } else {
        EditInvStep(w, e);
      }
    }
  }

  lemma WorkInvStep(w: World, v: VersionId, t: Token, action: Action)
    requires Inv(w) && v in w.versions && t in w.versions[v].attempts
    ensures Inv(Apply(w, Work(v, t, action)))
  {
    var r := w.versions[v];
    WorkedRow(v, r, t, action);
    WorkedAgrees(v, r, w.backend, t, action);
    WorkedPublication(v, r, t, action);
    EveryStageUntouched(v, r, w.backend, t, action);
    WorkShape(w, v, t, action);
    ReplacedInv(w, v, Worked(v, r, t, action), Indexed(v, r, w.backend, t, action));
  }

  lemma WorkShape(w: World, v: VersionId, t: Token, action: Action)
    requires v in w.versions && t in w.versions[v].attempts
    ensures var r := w.versions[v];
            Apply(w, Work(v, t, action)) ==
            World(w.versions[v := Worked(v, r, t, action)], Indexed(v, r, w.backend, t, action))
  {
  }

  lemma EveryStageUntouched(v: VersionId, r: Version, b: Backend, t: Token, action: Action)
    requires RowInv(v, r) && AllOwned(b) && t in r.attempts
    ensures forall stage: Stage :: OthersKept(b.At(stage), Indexed(v, r, b, t, action).At(stage), r.generation, v)
  {
    forall stage: Stage ensures OthersKept(b.At(stage), Indexed(v, r, b, t, action).At(stage), r.generation, v) {
      OtherSlicesUntouched(v, r, b, t, action, stage);
    }
  }

  lemma EditInvStep(w: World, e: Event)
    requires Inv(w) && e.v in w.versions && !e.Create? && !e.Publish? && !e.Work?
    ensures Inv(Apply(w, e))
  {
    var r := w.versions[e.v];
    EditedRow(e.v, r, e);
    EditedAgrees(e.v, r, w.backend, e);
    EditedPublication(r, e);
    SameBackend(w.backend, r.generation, e.v);
    ReplacedInv(w, e.v, Edited(r, e), w.backend);
  }

  lemma {:induction false} RunInv(w: World, events: seq<Event>)
    requires Inv(w)
    ensures Inv(Run(w, events))
    decreases |events|
  {
    if events != [] {
      ApplyInv(w, events[0]);
      RunInv(Apply(w, events[0]), events[1..]);
    }
  }
}
