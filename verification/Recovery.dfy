/** One uninterrupted attempt heals whatever earlier attempts and corrections left behind. */
module Recovery {
  import opened Common
  import opened Indexes
  import opened Ingestion
  import opened IndexAgreement
  import opened Lifecycle
  import opened Publication
  import Chunking
  import Facts
  import Jobs
  import JP = JobProtocol
  import Segmentation

  // ---------------------------------------------------------------- steps of one attempt

  ghost function Fold<S, A>(step: (S, A) -> S, s: S, actions: seq<A>): S
    decreases |actions|
  {
    if actions == [] then s else Fold(step, step(s, actions[0]), actions[1..])
  }

  lemma {:induction false} FoldAppend<S, A>(step: (S, A) -> S, s: S, a: seq<A>, b: seq<A>)
    ensures Fold(step, s, a + b) == Fold(step, Fold(step, s, a), b)
    decreases |a|
  {
    if a == [] {
      assert a + b == b;
    } else {
      FoldAppend(step, step(s, a[0]), a[1..], b);
      assert (a + b)[1..] == a[1..] + b;
    }
  }

  lemma FoldOne<S, A>(step: (S, A) -> S, s: S, a: A)
    ensures Fold(step, s, [a]) == step(s, a)
  {
    assert [a][1..] == [];
  }

  ghost function StepOf(v: VersionId, t: Token): (Version, Action) -> Version {
    (r: Version, action) => if t in r.attempts then Worked(v, r, t, action) else r
  }

  ghost function Works(v: VersionId, r: Version, t: Token, actions: seq<Action>): Version {
    Fold(StepOf(v, t), r, actions)
  }

  function Events(v: VersionId, t: Token, actions: seq<Action>): seq<Event> {
    if actions == [] then [] else [Work(v, t, actions[0])] + Events(v, t, actions[1..])
  }

  lemma {:induction false} RunWorks(w: World, v: VersionId, t: Token, actions: seq<Action>)
    requires v in w.versions && t in w.versions[v].attempts
    ensures var w' := Run(w, Events(v, t, actions));
            v in w'.versions && w'.versions[v] == Works(v, w.versions[v], t, actions)
    decreases |actions|
  {
    if actions != [] {
      TokenKept(v, w.versions[v], t, actions[0]);
      assert Events(v, t, actions)[1..] == Events(v, t, actions[1..]);
      RunWorks(Apply(w, Work(v, t, actions[0])), v, t, actions[1..]);
    }
  }

  lemma WorksAppend(v: VersionId, r: Version, t: Token, a: seq<Action>, b: seq<Action>)
    ensures Works(v, r, t, a + b) == Works(v, Works(v, r, t, a), t, b)
  {
    FoldAppend(StepOf(v, t), r, a, b);
  }

  /** The attempt in charge, with its lease live: no other actor has interfered. */
  ghost predicate InCharge(v: VersionId, r: Version, t: Token) {
    && RowInv(v, r) && r.work.Some? && Latest(r, t) && t in r.attempts
    && Jobs.GuardPasses(r.work.value.job, t, r.work.value.now)
  }

  predicate SameContent(r: Version, r': Version) {
    r'.blocks == r.blocks && r'.chunks == r.chunks && r'.facts == r.facts && r'.kind == r.kind && r'.index == r.index
  }

  /** While the lease is live every guarded commit goes through. */
  lemma Commits(r: Version, t: Token, change: JP.Change, next: Version)
    requires WorkInv(r) && r.work.Some? && Jobs.GuardPasses(r.work.value.job, t, r.work.value.now)
    requires change == JP.Untouched || (change.Advance? && Progress(r) <= change.progress <= 100)
    requires next.work == r.work
    ensures var g := Guarded(r, t, change, next);
            && g == next.(work := g.work) && g.work.Some?
            && Jobs.GuardPasses(g.work.value.job, t, g.work.value.now)
  {
  }

  /** The progress written by a step before the last lies between the job's and 100. */
  lemma ChangeFits(v: VersionId, r: Version, t: Token, action: Action)
    requires t in r.attempts && 0 <= Progress(r) <= 100 && !action.Finish?
    ensures var p := Proposed(v, r, t, action);
            p.Fenced? ==> p.change == JP.Untouched || (p.change.Advance? && Progress(r) <= p.change.progress <= 100)
  {
  }

  ghost predicate Live(r: Version, t: Token) {
    r.work.Some? && Jobs.GuardPasses(r.work.value.job, t, r.work.value.now)
  }

  /** Committing a fitting proposal goes through. */
  lemma ProposalCommits(r: Version, t: Token, p: Proposal)
    requires WorkInv(r) && Live(r, t)
    requires p.Fenced? ==> p.change == JP.Untouched || (p.change.Advance? && Progress(r) <= p.change.progress <= 100)
    requires !p.Refused? ==> p.next.work == r.work
    ensures var r' := Committed(r, t, p);
            Live(r', t) && if p.Refused? then r' == r else r' == p.next.(work := r'.work)
  {
    if p.Fenced? {
      Commits(r, t, p.change, p.next);
    }
  }

  lemma StaysLive(v: VersionId, r: Version, t: Token, action: Action)
    requires InCharge(v, r, t) && !action.GiveUp? && !action.Finish?
    ensures var p := Proposed(v, r, t, action); var r' := Worked(v, r, t, action);
            Live(r', t) && if p.Refused? then r' == r else r' == p.next.(work := r'.work)
  {
    FreeKeepsWork(v, r, t, action);
    ChangeFits(v, r, t, action);
    ProposalCommits(r, t, Proposed(v, r, t, action));
  }

  lemma Stays(v: VersionId, r: Version, t: Token, action: Action)
    requires InCharge(v, r, t) && !action.GiveUp? && !action.Finish?
    ensures InCharge(v, Worked(v, r, t, action), t)
  {
    WorkedRow(v, r, t, action);
    TokenKept(v, r, t, action);
    StaysLive(v, r, t, action);
  }

  /** What a step of the attempt in charge comes to. */
  lemma Does(v: VersionId, r: Version, t: Token, action: Action)
    requires InCharge(v, r, t) && !action.GiveUp? && !action.Finish?
    ensures var p := Proposed(v, r, t, action); var r' := Worked(v, r, t, action);
            && InCharge(v, r', t)
            && if p.Refused? then r' == r else r' == p.next.(work := r'.work)
  {
    Stays(v, r, t, action);
    StaysLive(v, r, t, action);
  }

  predicate Stands(r: Version, t: Token, pcs: set<Pc>) {
    t in r.attempts && r.attempts[t].pc in pcs
  }

  lemma WorksOne(v: VersionId, r: Version, t: Token, a: Action)
    requires t in r.attempts
    ensures Works(v, r, t, [a]) == Worked(v, r, t, a)
  {
    FoldOne(StepOf(v, t), r, a);
  }

  lemma WorksTwo(v: VersionId, r: Version, t: Token, a: Action, b: Action)
    requires t in r.attempts && t in Worked(v, r, t, a).attempts
    ensures Works(v, r, t, [a, b]) == Worked(v, Worked(v, r, t, a), t, b)
  {
    WorksOne(v, r, t, a);
    WorksOne(v, Worked(v, r, t, a), t, b);
    assert [a] + [b] == [a, b];
    WorksAppend(v, r, t, [a], [b]);
  }

  // ---------------------------------------------------------------- cleanup

  lemma Deletes1(v: VersionId, r: Version, t: Token, k: nat)
    requires InCharge(v, r, t) && k < 3 && Stands(r, t, {Cleaning(k), AfterCleaning(r.blocks)})
    ensures var r' := Worked(v, r, t, DeleteIndex);
            && InCharge(v, r', t) && SameContent(r, r')
            && Stands(r', t, if r.attempts[t].pc.Cleaning? then {Cleaning(k + 1)} else {AfterCleaning(r.blocks)})
  {
    Does(v, r, t, DeleteIndex);
  }

  lemma Clears(v: VersionId, r: Version, t: Token)
    requires InCharge(v, r, t) && Stands(r, t, {Cleaning(3), AfterCleaning(r.blocks)})
    ensures var r' := Worked(v, r, t, ClearState);
            && InCharge(v, r', t) && Stands(r', t, {AfterCleaning(r.blocks)})
            && SameContent(r.(index := r'.index), r')
            && r'.index == if r.index.cleanup then CLEAR else r.index
  {
    Does(v, r, t, ClearState);
    assert InStep(r, r.attempts[t]);
  }

  const CLEANING := [DeleteIndex, DeleteIndex] + [DeleteIndex, ClearState]

  /** A due cleanup is done; otherwise these steps do not apply. */
  lemma Cleans(v: VersionId, r: Version, t: Token)
    requires InCharge(v, r, t) && Stands(r, t, {Cleaning(0), AfterCleaning(r.blocks)})
    ensures var r' := Works(v, r, t, CLEANING);
            && InCharge(v, r', t) && Stands(r', t, {AfterCleaning(r.blocks)})
            && SameContent(r.(index := r'.index), r')
            && r'.index == if r.index.cleanup then CLEAR else r.index
  {
    Deletes1(v, r, t, 0);
    var r1 := Worked(v, r, t, DeleteIndex);
    Deletes1(v, r1, t, 1);
    var r2 := Worked(v, r1, t, DeleteIndex);
    Deletes1(v, r2, t, 2);
    var r3 := Worked(v, r2, t, DeleteIndex);
    Clears(v, r3, t);
    WorksTwo(v, r, t, DeleteIndex, DeleteIndex);
    WorksTwo(v, r2, t, DeleteIndex, ClearState);
    WorksAppend(v, r, t, [DeleteIndex, DeleteIndex], [DeleteIndex, ClearState]);
  }

  // ---------------------------------------------------------------- artifact and chunks

  /** What the attempt will parse and cut: earlier results are kept. */
  function BlocksOf(r: Version, parsed: seq<Chunking.Block>): seq<Chunking.Block> {
    if r.blocks == [] then parsed else r.blocks
  }

  ghost predicate Cuts(r: Version, parsed: seq<Chunking.Block>, plan: nat -> seq<string>, chunks: seq<Chunking.Chunk>) {
    if r.chunks != [] then chunks == r.chunks
    else Chunking.Segmented(BlocksOf(r, parsed), r.kind, plan) == Ok(chunks) && |chunks| <= CHUNK_LIMIT
  }

  lemma Parses(v: VersionId, r: Version, t: Token, parsed: seq<Chunking.Block>)
    requires InCharge(v, r, t) && Stands(r, t, {AfterCleaning(r.blocks)})
    ensures var r' := Worked(v, r, t, SaveArtifact(parsed));
            && InCharge(v, r', t) && Stands(r', t, {Segmenting})
            && SameContent(r.(blocks := BlocksOf(r, parsed)), r')
  {
    Does(v, r, t, SaveArtifact(parsed));
  }

  lemma SavesChunks(v: VersionId, r: Version, t: Token, plan: nat -> seq<string>, chunks: seq<Chunking.Chunk>)
    requires InCharge(v, r, t) && Stands(r, t, {Segmenting}) && r.chunks == []
    requires Chunking.Segmented(r.blocks, r.kind, plan) == Ok(chunks) && |chunks| <= CHUNK_LIMIT
    ensures var r' := Worked(v, r, t, SaveChunks(plan));
            InCharge(v, r', t) && Stands(r', t, {Segmenting}) && SameContent(r.(chunks := chunks), r')
  {
    Does(v, r, t, SaveChunks(plan));
    assert InStep(r, r.attempts[t]);
  }

  lemma KeepsChunks(v: VersionId, r: Version, t: Token, plan: nat -> seq<string>)
    requires InCharge(v, r, t) && r.chunks != []
    ensures Worked(v, r, t, SaveChunks(plan)) == r
  {
  }

  lemma ReadsChunks(v: VersionId, r: Version, t: Token)
    requires InCharge(v, r, t) && Stands(r, t, {Segmenting}) && r.chunks != []
    ensures var r' := Worked(v, r, t, ReadChunks);
            InCharge(v, r', t) && Stands(r', t, {Extracting}) && SameContent(r, r')
  {
    Does(v, r, t, ReadChunks);
  }

  lemma Segments(v: VersionId, r: Version, t: Token, plan: nat -> seq<string>, chunks: seq<Chunking.Chunk>)
    requires InCharge(v, r, t) && Stands(r, t, {Segmenting}) && Cuts(r, r.blocks, plan, chunks)
    ensures var r' := Works(v, r, t, [SaveChunks(plan), ReadChunks]);
            InCharge(v, r', t) && Stands(r', t, {Extracting}) && SameContent(r.(chunks := chunks), r')
  {
    WorksTwo(v, r, t, SaveChunks(plan), ReadChunks);
    if r.chunks == [] {
      Segmentation.SegmentNotEmpty(r.blocks, r.kind, plan);
      SavesChunks(v, r, t, plan, chunks);
    } else {
      KeepsChunks(v, r, t, plan);
    }
    ReadsChunks(v, Worked(v, r, t, SaveChunks(plan)), t);
  }

  // ---------------------------------------------------------------- facts

  /** The facts the attempt ends with: earlier results are kept. */
  ghost predicate Extracts(v: VersionId, r: Version, chunks: seq<Chunking.Chunk>, answers: nat -> seq<Facts.Fact>,
                           facts: Facts.Facts)
  {
    if r.index.facts then facts == r.facts
    else
      var found := Facts.Answered(|chunks|, 0, answers);
      Facts.AllSupported(v, chunks, found) && facts == Facts.Table(found)
  }

  lemma ProposesFacts(v: VersionId, r: Version, t: Token, answers: nat -> seq<Facts.Fact>, facts: Facts.Facts)
    requires t in r.attempts && r.attempts[t].pc.Extracting? && InStep(r, r.attempts[t])
    requires !r.index.facts && Extracts(v, r, r.chunks, answers, facts)
    ensures Proposed(v, r, t, ReadFacts) == Refused
    ensures Proposed(v, r, t, SaveFacts(answers)) == SavingFacts(r, t, facts)
  {
  }

  lemma SavesFacts(v: VersionId, r: Version, t: Token, answers: nat -> seq<Facts.Fact>, facts: Facts.Facts)
    requires InCharge(v, r, t) && Stands(r, t, {Extracting}) && !r.index.facts
             && Extracts(v, r, r.chunks, answers, facts)
    ensures Worked(v, r, t, ReadFacts) == r
    ensures var r' := Worked(v, r, t, SaveFacts(answers));
            && InCharge(v, r', t) && Stands(r', t, {Indexing(0, false)})
            && SameContent(r.(facts := facts, index := r.index.(facts := true)), r')
  {
    assert InStep(r, r.attempts[t]);
    ProposesFacts(v, r, t, answers, facts);
    Does(v, r, t, SaveFacts(answers));
  }

  lemma ReadFactsShape(v: VersionId, r: Version, t: Token)
    requires Stands(r, t, {Extracting}) && r.attempts[t].index.facts
    ensures Proposed(v, r, t, ReadFacts) == Free(At(r, t, r.attempts[t].(facts := r.facts, pc := Indexing(0, false))))
  {
  }

  lemma FactsPast(v: VersionId, r: Version, t: Token, answers: nat -> seq<Facts.Fact>)
    requires Stands(r, t, {Indexing(0, false)})
    ensures Proposed(v, r, t, SaveFacts(answers)) == Refused
  {
  }

  lemma ReadsFacts(v: VersionId, r: Version, t: Token, answers: nat -> seq<Facts.Fact>)
    requires InCharge(v, r, t) && Stands(r, t, {Extracting}) && r.index.facts
    ensures var r' := Worked(v, r, t, ReadFacts);
            && InCharge(v, r', t) && Stands(r', t, {Indexing(0, false)}) && SameContent(r, r')
            && Worked(v, r', t, SaveFacts(answers)) == r'
  {
    assert InStep(r, r.attempts[t]);
    ReadFactsShape(v, r, t);
    Does(v, r, t, ReadFacts);
    FactsPast(v, Worked(v, r, t, ReadFacts), t, answers);
  }

  lemma FindsFacts(v: VersionId, r: Version, t: Token, answers: nat -> seq<Facts.Fact>, facts: Facts.Facts)
    requires InCharge(v, r, t) && Stands(r, t, {Extracting}) && Extracts(v, r, r.chunks, answers, facts)
    ensures var r' := Works(v, r, t, [ReadFacts, SaveFacts(answers)]);
            && InCharge(v, r', t) && Stands(r', t, {Indexing(0, false)})
            && SameContent(r.(facts := facts, index := r.index.(facts := true)), r')
  {
    WorksTwo(v, r, t, ReadFacts, SaveFacts(answers));
    if r.index.facts {
      ReadsFacts(v, r, t, answers);
    } else {
      SavesFacts(v, r, t, answers, facts);
    }
  }

  // ---------------------------------------------------------------- indexes

  lemma UpsertShape(v: VersionId, r: Version, t: Token, k: nat, ids: set<RecordId>)
    requires k < 3 && Stands(r, t, {Indexing(k, false)}) && Latest(r, t)
    requires ids == Expected(v, STAGES[k], r.attempts[t].chunks, r.attempts[t].facts).Keys
    ensures Proposed(v, r, t, Upsert(ids)) ==
            if STAGES[k] in r.attempts[t].index.ready then Refused
            else Free(At(r, t, r.attempts[t].(pc := Indexing(k, true))))
  {
  }

  lemma Upserts(v: VersionId, r: Version, t: Token, k: nat, ids: set<RecordId>)
    requires k < 3 && InCharge(v, r, t) && Stands(r, t, {Indexing(k, false)})
    requires ids == Expected(v, STAGES[k], r.chunks, r.facts).Keys
    ensures var r' := Worked(v, r, t, Upsert(ids));
            && InCharge(v, r', t) && SameContent(r, r')
            && Stands(r', t, {Indexing(k, STAGES[k] !in r.index.ready)})
  {
    assert InStep(r, r.attempts[t]);
    UpsertShape(v, r, t, k, ids);
    Does(v, r, t, Upsert(ids));
  }

  lemma MarkShape(v: VersionId, r: Version, t: Token, k: nat)
    requires k < 3 && t in r.attempts && Stands(r, t, {Indexing(k, STAGES[k] !in r.attempts[t].index.ready)})
    ensures Proposed(v, r, t, MarkReady) == MarkingReady(r, t, STAGES[k])
  {
  }

  lemma MarkedNext(r: Version, t: Token, k: nat)
    requires k < 3 && t in r.attempts && Stands(r, t, {Indexing(k, STAGES[k] !in r.attempts[t].index.ready)})
    ensures var p := MarkingReady(r, t, STAGES[k]);
            p.Fenced? && Stands(p.next, t, {Indexing(k + 1, false)}) && SameContent(r.(index := p.next.index), p.next)
  {
  }

  lemma Marks(v: VersionId, r: Version, t: Token, k: nat)
    requires k < 3 && InCharge(v, r, t) && Stands(r, t, {Indexing(k, STAGES[k] !in r.index.ready)})
    ensures var r' := Worked(v, r, t, MarkReady);
            && InCharge(v, r', t) && Stands(r', t, {Indexing(k + 1, false)})
            && SameContent(r.(index := r'.index), r')
  {
    assert InStep(r, r.attempts[t]);
    MarkShape(v, r, t, k);
    MarkedNext(r, t, k);
    Does(v, r, t, MarkReady);
  }

  lemma Indexes1(v: VersionId, r: Version, t: Token, k: nat, ids: set<RecordId>) returns (r': Version)
    requires k < 3 && InCharge(v, r, t) && Stands(r, t, {Indexing(k, false)})
    requires ids == Expected(v, STAGES[k], r.chunks, r.facts).Keys
    ensures r' == Works(v, r, t, [Upsert(ids), MarkReady])
    ensures InCharge(v, r', t) && Stands(r', t, {Indexing(k + 1, false)}) && SameContent(r.(index := r'.index), r')
  {
    var r1 := Worked(v, r, t, Upsert(ids));
    Upserts(v, r, t, k, ids);
    Marks(v, r1, t, k);
    WorksTwo(v, r, t, Upsert(ids), MarkReady);
    r' := Worked(v, r1, t, MarkReady);
  }

  lemma Finishes(v: VersionId, r: Version, t: Token)
    requires InCharge(v, r, t) && Stands(r, t, {Indexing(3, false)})
    ensures var r' := Worked(v, r, t, Finish);
            && r'.status == Review && SameContent(r, r') && r'.work.Some?
            && r'.work.value.job.status == Jobs.Succeeded && r'.work.value.job.progress == 100
  {
    assert InStep(r, r.attempts[t]);
    FinishShape(v, r, t);
    FinishCommits(r, t, At(r, t, r.attempts[t].(pc := Over)).(status := Review));
  }

  lemma FinishShape(v: VersionId, r: Version, t: Token)
    requires t in r.attempts && r.attempts[t].pc == Indexing(3, false) && r.status == Processing
    ensures Proposed(v, r, t, Finish) == Fenced(JP.Finish(100), At(r, t, r.attempts[t].(pc := Over)).(status := Review))
  {
  }

  lemma FinishCommits(r: Version, t: Token, next: Version)
    requires WorkInv(r) && Live(r, t)
    ensures var r' := Guarded(r, t, JP.Finish(100), next);
            && r'.work.Some? && r' == next.(work := r'.work)
            && r'.work.value.job.status == Jobs.Succeeded && r'.work.value.job.progress == 100
  {
  }

  // ---------------------------------------------------------------- the whole attempt

  function TextStage(v: VersionId, chunks: seq<Chunking.Chunk>): seq<Action> {
    [Upsert(Passages(v, chunks).Keys), MarkReady]
  }

  function GraphStage(v: VersionId, facts: Facts.Facts): seq<Action> {
    [Upsert(Triples(v, facts).Keys), MarkReady]
  }

  function FromGraph(v: VersionId, facts: Facts.Facts): seq<Action> {
    GraphStage(v, facts) + [Finish]
  }

  function FromVector(v: VersionId, chunks: seq<Chunking.Chunk>, facts: Facts.Facts): seq<Action> {
    TextStage(v, chunks) + FromGraph(v, facts)
  }

  function Indexings(v: VersionId, chunks: seq<Chunking.Chunk>, facts: Facts.Facts): seq<Action> {
    TextStage(v, chunks) + FromVector(v, chunks, facts)
  }

  /** Every step the pipeline may take, in its order; those that do not apply are passed over. */
  function FullAttempt(v: VersionId, parsed: seq<Chunking.Block>, plan: nat -> seq<string>,
                       answers: nat -> seq<Facts.Fact>, chunks: seq<Chunking.Chunk>, facts: Facts.Facts)
    : seq<Action>
  {
    var indexing := [ReadFacts, SaveFacts(answers)] + Indexings(v, chunks, facts);
    [Start] + (CLEANING + ([SaveArtifact(parsed)] + ([SaveChunks(plan), ReadChunks] + indexing)))
  }

  ghost predicate Done(r: Version, r': Version) {
    && r'.status == Review && r'.chunks == r.chunks && r'.facts == r.facts && r'.blocks == r.blocks
    && r'.work.Some? && r'.work.value.job.status == Jobs.Succeeded && r'.work.value.job.progress == 100
  }

  /** The attempt is about to fill index `k`, for these chunks and facts. */
  ghost predicate AtIndex(v: VersionId, r: Version, t: Token, k: nat, chunks: seq<Chunking.Chunk>, facts: Facts.Facts) {
    InCharge(v, r, t) && Stands(r, t, {Indexing(k, false)}) && chunks == r.chunks && facts == r.facts
  }

  lemma IndexesText(v: VersionId, r: Version, t: Token, k: nat, next: nat, chunks: seq<Chunking.Chunk>,
                    facts: Facts.Facts, rest: seq<Action>) returns (r': Version)
    requires k < 2 && next == k + 1 && AtIndex(v, r, t, k, chunks, facts)
    ensures AtIndex(v, r', t, next, chunks, facts)
    ensures Done(r', Works(v, r', t, rest)) ==> Done(r, Works(v, r, t, TextStage(v, chunks) + rest))
  {
    r' := Indexes1(v, r, t, k, Passages(v, chunks).Keys);
    WorksAppend(v, r, t, TextStage(v, chunks), rest);
    DoneFrom(r, r', Works(v, r', t, rest));
  }

  lemma DoneFrom(r: Version, r1: Version, end: Version)
    requires SameContent(r.(index := r1.index), r1)
    ensures Done(r1, end) ==> Done(r, end)
  {
  }

  lemma IndexesLast(v: VersionId, r: Version, t: Token, chunks: seq<Chunking.Chunk>, facts: Facts.Facts)
    requires AtIndex(v, r, t, 2, chunks, facts)
    ensures Done(r, Works(v, r, t, FromGraph(v, facts)))
  {
    WorksAppend(v, r, t, GraphStage(v, facts), [Finish]);
    var r' := Indexes1(v, r, t, 2, Triples(v, facts).Keys);
    Finishes(v, r', t);
    WorksOne(v, r', t, Finish);
  }

  lemma IndexesAll(v: VersionId, r: Version, t: Token, chunks: seq<Chunking.Chunk>, facts: Facts.Facts)
    requires AtIndex(v, r, t, 0, chunks, facts)
    ensures Done(r, Works(v, r, t, Indexings(v, chunks, facts)))
  {
    var r1 := IndexesText(v, r, t, 0, 1, chunks, facts, FromVector(v, chunks, facts));
    var r2 := IndexesText(v, r1, t, 1, 2, chunks, facts, FromGraph(v, facts));
    IndexesLast(v, r2, t, chunks, facts);
  }

  lemma Starts(v: VersionId, r: Version, t: Token)
    requires InCharge(v, r, t) && r.attempts[t] == ENTERING && r.status in Processable()
    ensures var r' := Worked(v, r, t, Start);
            && InCharge(v, r', t) && Stands(r', t, {Cleaning(0), AfterCleaning(r.blocks)}) && SameContent(r, r')
  {
    Does(v, r, t, Start);
  }

  function Cleaned(r: Version): Version {
    if r.index.cleanup then r.(index := CLEAR) else r
  }

  lemma SegmentsOn(v: VersionId, r: Version, t: Token, plan: nat -> seq<string>, answers: nat -> seq<Facts.Fact>,
                   chunks: seq<Chunking.Chunk>, facts: Facts.Facts)
    requires InCharge(v, r, t) && Stands(r, t, {Segmenting})
    requires Cuts(r, r.blocks, plan, chunks) && Extracts(v, r, chunks, answers, facts)
    ensures Done(r.(chunks := chunks, facts := facts),
                 Works(v, r, t, [SaveChunks(plan), ReadChunks]
                                + ([ReadFacts, SaveFacts(answers)] + Indexings(v, chunks, facts))))
  {
    Segments(v, r, t, plan, chunks);
    var r1 := Works(v, r, t, [SaveChunks(plan), ReadChunks]);
    FindsFacts(v, r1, t, answers, facts);
    var r2 := Works(v, r1, t, [ReadFacts, SaveFacts(answers)]);
    IndexesAll(v, r2, t, chunks, facts);
    WorksAppend(v, r1, t, [ReadFacts, SaveFacts(answers)], Indexings(v, chunks, facts));
    WorksAppend(v, r, t, [SaveChunks(plan), ReadChunks], [ReadFacts, SaveFacts(answers)] + Indexings(v, chunks, facts));
  }

  lemma AttemptDone(v: VersionId, r: Version, t: Token, parsed: seq<Chunking.Block>, plan: nat -> seq<string>,
                    answers: nat -> seq<Facts.Fact>, chunks: seq<Chunking.Chunk>, facts: Facts.Facts)
    requires InCharge(v, r, t) && r.attempts[t] == ENTERING && r.status in Processable()
    requires Cuts(r, parsed, plan, chunks) && Extracts(v, Cleaned(r), chunks, answers, facts)
    ensures Done(r.(blocks := BlocksOf(r, parsed), chunks := chunks, facts := facts),
                 Works(v, r, t, FullAttempt(v, parsed, plan, answers, chunks, facts)))
  {
    var rest := [SaveChunks(plan), ReadChunks] + ([ReadFacts, SaveFacts(answers)] + Indexings(v, chunks, facts));
    Starts(v, r, t);
    var r1 := Worked(v, r, t, Start);
    Cleans(v, r1, t);
    var r2 := Works(v, r1, t, CLEANING);
    Parses(v, r2, t, parsed);
    var r3 := Worked(v, r2, t, SaveArtifact(parsed));
    SegmentsOn(v, r3, t, plan, answers, chunks, facts);
    WorksOne(v, r2, t, SaveArtifact(parsed));
    WorksAppend(v, r2, t, [SaveArtifact(parsed)], rest);
    WorksAppend(v, r1, t, CLEANING, [SaveArtifact(parsed)] + rest);
    WorksOne(v, r, t, Start);
    WorksAppend(v, r, t, [Start], CLEANING + ([SaveArtifact(parsed)] + rest));
  }

  lemma Claims(v: VersionId, r: Version, t: Token, lease: int)
    requires RowInv(v, r) && r.work.Some? && t !in r.attempts
    requires Jobs.Claimed(r.work.value.job, r.work.value.now, lease, t).Ok?
    ensures var r' := Stepped(r, JP.Claim(t, lease));
            && InCharge(v, r', t) && r'.attempts[t] == ENTERING && r'.status == r.status && SameContent(r, r')
  {
    SteppedRow(v, r, JP.Claim(t, lease));
  }

  /** From every reachable state, whatever crashes and corrections came before: an attempt that
      can claim the job, is not interfered with, and gets usable answers brings the version to
      review, with all three indexes holding exactly the current chunks and facts. */
  lemma {:induction false} OneAttemptHeals(events: seq<Event>, v: VersionId, t: Token, lease: int,
                                           parsed: seq<Chunking.Block>, plan: nat -> seq<string>,
                                           answers: nat -> seq<Facts.Fact>, chunks: seq<Chunking.Chunk>,
                                           facts: Facts.Facts)
    requires v in Run(EMPTY, events).versions
    requires var r := Run(EMPTY, events).versions[v];
             && r.status in Processable() && t !in r.attempts
             && r.work.Some? && Jobs.Claimed(r.work.value.job, r.work.value.now, lease, t).Ok?
             && Cuts(r, parsed, plan, chunks) && Extracts(v, Cleaned(r), chunks, answers, facts)
    ensures var r := Run(EMPTY, events).versions[v];
            var actions := FullAttempt(v, parsed, plan, answers, chunks, facts);
            var attempt := [JobStep(v, JP.Claim(t, lease))] + Events(v, t, actions);
            var w := Run(EMPTY, events + attempt);
            && v in w.versions
            && Done(r.(blocks := BlocksOf(r, parsed), chunks := chunks, facts := facts), w.versions[v])
            && forall stage: Stage :: Held(v, w.versions[v], w.backend, stage) == Expected(v, stage, chunks, facts)
  {
    var r := Run(EMPTY, events).versions[v];
    var actions := FullAttempt(v, parsed, plan, answers, chunks, facts);
    var attempt := [JobStep(v, JP.Claim(t, lease))] + Events(v, t, actions);
    EveryRun(events);
    assert RowInv(v, r);
    Claims(v, r, t, lease);
    AttemptDone(v, Stepped(r, JP.Claim(t, lease)), t, parsed, plan, answers, chunks, facts);
    AttemptRun(Run(EMPTY, events), v, t, lease, actions);
    RunAppend(EMPTY, events, attempt);
    EverythingHeld(events + attempt, v);
  }

  lemma {:induction false} AttemptRun(w: World, v: VersionId, t: Token, lease: int, actions: seq<Action>)
    requires v in w.versions && w.versions[v].work.Some? && t !in w.versions[v].attempts
    requires t in Stepped(w.versions[v], JP.Claim(t, lease)).attempts
    ensures var w' := Run(w, [JobStep(v, JP.Claim(t, lease))] + Events(v, t, actions));
            v in w'.versions && w'.versions[v] == Works(v, Stepped(w.versions[v], JP.Claim(t, lease)), t, actions)
  {
    var claim := JobStep(v, JP.Claim(t, lease));
    assert ([claim] + Events(v, t, actions))[1..] == Events(v, t, actions);
    RunWorks(Apply(w, claim), v, t, actions);
  }

  lemma {:induction false} EverythingHeld(events: seq<Event>, v: VersionId)
    requires v in Run(EMPTY, events).versions && Run(EMPTY, events).versions[v].status == Review
    ensures var w := Run(EMPTY, events); var r := w.versions[v];
            forall stage: Stage :: Held(v, r, w.backend, stage) == Expected(v, stage, r.chunks, r.facts)
  {
    IndexesAgree(events, v);
    PublicationGate(events, v);
    forall stage: Stage ensures stage in ALL_STAGES {
      var j := StageAt(stage);
    }
  }
}
