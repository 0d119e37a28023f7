/** Knowledge versions, the workers that index them, and the editors who review, correct and
    publish them, as one machine whose steps are transactions and external index calls. */
module Ingestion {
  import opened Common
  import opened Indexes
  import opened Publication
  import Chunking
  import Corrections
  import Facts
  import Jobs
  import JP = JobProtocol

  type Token = Jobs.Token

  const CHUNK_LIMIT: nat := 20000

  datatype Stage = Fulltext | Vector | Graph

  const STAGES: seq<Stage> := [Fulltext, Vector, Graph]
  const ALL_STAGES: set<Stage> := {Fulltext, Vector, Graph}

  datatype Backend = Backend(fulltext: Store, vector: Store, graph: Store) {
    function At(stage: Stage): Store {
      match stage
      case Fulltext => fulltext
      case Vector => vector
      case Graph => graph
    }

    function With(stage: Stage, store: Store): (r: Backend)
      ensures r.At(stage) == store
      ensures forall other :: other != stage ==> r.At(other) == At(other)
    {
      match stage
      case Fulltext => this.(fulltext := store)
      case Vector => this.(vector := store)
      case Graph => this.(graph := store)
    }
  }

  /** `index_state`: a human correction left old records behind, facts are extracted, stages done. */
  datatype IndexState = IndexState(cleanup: bool, facts: bool, ready: set<Stage>)

  const CLEAR := IndexState(false, false, {})
  const CLEANUP := IndexState(true, false, {})

  /** Where an attempt stands between two commits or index calls. */
  datatype Pc = Entering | Cleaning(deleted: nat) | Parsing | Segmenting | Extracting
              | Indexing(stage: nat, written: bool) | Over

  /** One execution of the pipeline, with what its session read so far. */
  datatype Attempt = Attempt(pc: Pc, index: IndexState, blocks: seq<Chunking.Block>,
                             chunks: seq<Chunking.Chunk>, facts: Facts.Facts)

  const ENTERING := Attempt(Entering, CLEAR, [], [], map[])

  /** One version row with its chunk and fact rows, its latest job, and every attempt ever claimed;
      `token` is the last one claimed, by whichever job. */
  datatype Version = Version(document: DocumentId, generation: Generation, kind: Chunking.DocumentKind, period: Period,
                             status: Status, index: IndexState, blocks: seq<Chunking.Block>,
                             chunks: seq<Chunking.Chunk>, facts: Facts.Facts,
                             work: Option<JP.State>, token: Option<Token>, attempts: map<Token, Attempt>)

  datatype World = World(versions: map<VersionId, Version>, backend: Backend)

  const EMPTY := World(map[], Backend(map[], map[], map[]))

  // ---------------------------------------------------------------- records

  function Passages(v: VersionId, chunks: seq<Chunking.Chunk>): (r: map<RecordId, Record>)
    ensures forall id :: id in r <==> id.ChunkId? && id.version == v && id.ordinal < |chunks|
    ensures forall id :: id in r ==> r[id] == Passage(v, chunks[id.ordinal].text, chunks[id.ordinal].locator)
  {
    var ids := set i | 0 <= i < |chunks| :: ChunkId(v, i);
    assert forall id :: id in ids <==> id.ChunkId? && id.version == v && id.ordinal < |chunks|;
    map id | id in ids :: Passage(v, chunks[id.ordinal].text, chunks[id.ordinal].locator)
  }

  function Triples(v: VersionId, facts: Facts.Facts): map<RecordId, Record> {
    map id | id in facts :: Triple(v, facts[id].evidence, facts[id].source, facts[id].relation, facts[id].target)
  }

  /** What a finished index stage holds for a version with these chunks and facts. */
  function Expected(v: VersionId, stage: Stage, chunks: seq<Chunking.Chunk>, facts: Facts.Facts)
    : map<RecordId, Record>
  {
    if stage == Graph then Triples(v, facts) else Passages(v, chunks)
  }

  /** A text index holds one passage per chunk, under the chunk's id, with its text and locator. */
  ghost predicate IsTextIndex(v: VersionId, held: map<RecordId, Record>, chunks: seq<Chunking.Chunk>) {
    && (forall id :: id in held <==> id.ChunkId? && id.version == v && id.ordinal < |chunks|)
    && forall i: nat :: i < |chunks| ==>
         held[ChunkId(v, i)] == Passage(v, chunks[i].text, chunks[i].locator)
  }

  /** The graph holds one triple per fact, under the fact's id, from its source to its target. */
  ghost predicate IsGraph(v: VersionId, held: map<RecordId, Record>, facts: Facts.Facts) {
    && (forall id :: id in held <==> id in facts)
    && forall id :: id in facts ==>
         && held[id].Triple? && held[id].version == v && held[id].evidence == facts[id].evidence
         && held[id].source == facts[id].source && held[id].relation == facts[id].relation
         && held[id].target == facts[id].target
  }

  lemma ExpectedMeans(v: VersionId, chunks: seq<Chunking.Chunk>, facts: Facts.Facts)
    ensures IsTextIndex(v, Expected(v, Fulltext, chunks, facts), chunks)
    ensures IsTextIndex(v, Expected(v, Vector, chunks, facts), chunks)
    ensures IsGraph(v, Expected(v, Graph, chunks, facts), facts)
  {
    forall i: nat | i < |chunks|
      ensures Expected(v, Fulltext, chunks, facts)[ChunkId(v, i)] == Passage(v, chunks[i].text, chunks[i].locator)
      ensures Expected(v, Vector, chunks, facts)[ChunkId(v, i)] == Passage(v, chunks[i].text, chunks[i].locator)
    {
      assert ChunkId(v, i) in Passages(v, chunks);
    }
  }

  function Part(records: map<RecordId, Record>, ids: set<RecordId>): map<RecordId, Record> {
    map id | id in records && id in ids :: records[id]
  }

  // ---------------------------------------------------------------- one worker step

  datatype Action =
    | Start
    | DeleteIndex                                      // external call
    | ClearState
    | SaveArtifact(blocks: seq<Chunking.Block>)
    | SaveChunks(plan: nat -> seq<string>)             // the model's boundary answers
    | ReadChunks
    | SaveFacts(answers: nat -> seq<Facts.Fact>)       // the model's extracted facts
    | ReadFacts
    | Upsert(ids: set<RecordId>)                       // external call, possibly partial
    | MarkReady
    | Finish
    | GiveUp                                           // the failure handler

  predicate Latest(r: Version, t: Token) {
    r.token == Some(t)
  }

  function Progress(r: Version): int {
    if r.work.Some? then r.work.value.job.progress else 0
  }

  /** The guard and the commit of `next`, in one transaction with the job row. */
  function Guarded(r: Version, t: Token, change: JP.Change, next: Version): Version {
    if r.work.None? || !Jobs.GuardPasses(r.work.value.job, t, r.work.value.now) then r
    else if JP.Changed(r.work.value.job, r.work.value.now, change).Err? then r
    else next.(work := Some(JP.Apply(r.work.value, JP.Publish(t, change))))
  }

  function At(r: Version, t: Token, a: Attempt): Version {
    r.(attempts := r.attempts[t := a])
  }

  function AfterCleaning(blocks: seq<Chunking.Block>): Pc {
    if blocks == [] then Parsing else Segmenting
  }

  function Processable(): set<Status> {
    {Uploaded, Failed, Processing}
  }

  /** What a step would do: nothing, a change without a guard, or a guarded commit. */
  datatype Proposal = Refused | Free(next: Version) | Fenced(change: JP.Change, next: Version)

  ghost function Proposed(v: VersionId, r: Version, t: Token, action: Action): Proposal
    requires t in r.attempts
  {
    var a := r.attempts[t];
    match action
    case Start =>
      if !a.pc.Entering? || r.status !in Processable() then Refused
      else
        var pc := if r.index.cleanup then Cleaning(0) else AfterCleaning(r.blocks);
        Fenced(JP.Untouched, At(r, t, Attempt(pc, r.index, r.blocks, [], map[])).(status := Processing))
    case DeleteIndex =>
      if !Deletes(r, t) then Refused else Free(At(r, t, a.(pc := Cleaning(a.pc.deleted + 1))))
    case ClearState =>
      if a.pc != Cleaning(3) then Refused
      else Fenced(JP.Untouched, At(r, t, a.(index := CLEAR, pc := AfterCleaning(a.blocks))).(index := CLEAR))
    case SaveArtifact(blocks) =>
      if !a.pc.Parsing? then Refused
      else Fenced(JP.Untouched, At(r, t, a.(blocks := blocks, pc := Segmenting)).(blocks := blocks))
    case SaveChunks(plan) =>
      var cut := Chunking.Segmented(a.blocks, r.kind, plan);
      if !a.pc.Segmenting? || r.chunks != [] || cut.Err? || |cut.value| > CHUNK_LIMIT then Refused
      else Fenced(JP.Untouched, r.(chunks := cut.value))
    case ReadChunks =>
      if !a.pc.Segmenting? || r.chunks == [] then Refused
      else Fenced(JP.Advance(Max(Progress(r), 25)), At(r, t, a.(chunks := r.chunks, pc := Extracting)))
    case SaveFacts(answers) =>
      var found := Facts.Answered(|a.chunks|, 0, answers);
      if !a.pc.Extracting? || a.index.facts || !Facts.AllSupported(v, a.chunks, found) then Refused
      else SavingFacts(r, t, Facts.Table(found))
    case ReadFacts =>
      if !a.pc.Extracting? || !a.index.facts then Refused
      else Free(At(r, t, a.(facts := r.facts, pc := Indexing(0, false))))
    case Upsert(ids) =>
      if !Writes(r, t) then Refused
      else
        var all := Expected(v, STAGES[a.pc.stage], a.chunks, a.facts).Keys <= ids;
        Free(At(r, t, a.(pc := Indexing(a.pc.stage, a.pc.written || all))))
    case MarkReady =>
      if !a.pc.Indexing? || a.pc.stage >= 3 || (STAGES[a.pc.stage] !in a.index.ready && !a.pc.written) then Refused
      else MarkingReady(r, t, STAGES[a.pc.stage])
    case Finish =>
      if !a.pc.Indexing? || a.pc.stage != 3 || r.status != Processing then Refused
      else Fenced(JP.Finish(100), At(r, t, a.(pc := Over)).(status := Review))
    case GiveUp => if a.pc.Over? then Refused else Free(GivenUp(r, t))
  }

  function SavingFacts(r: Version, t: Token, facts: Facts.Facts): Proposal
    requires t in r.attempts
  {
    var a := r.attempts[t];
    var index := a.index.(facts := true);
    var next := At(r, t, a.(index := index, facts := facts, pc := Indexing(0, false)));
    Fenced(JP.Untouched, next.(index := index, facts := facts))
  }

  /** A stage already marked ready is passed over; only the progress is written. */
  function MarkingReady(r: Version, t: Token, stage: Stage): Proposal
    requires t in r.attempts && r.attempts[t].pc.Indexing?
  {
    var a := r.attempts[t];
    var change := JP.Advance(Max(Progress(r), 50 + 15 * a.pc.stage));
    if stage in a.index.ready then Fenced(change, At(r, t, a.(pc := Indexing(a.pc.stage + 1, false))))
    else
      var index := a.index.(ready := a.index.ready + {stage});
      Fenced(change, At(r, t, a.(index := index, pc := Indexing(a.pc.stage + 1, false))).(index := index))
  }

  /** The failure handler: it acts only while its token is still on the running job. */
  function GivenUp(r: Version, t: Token): Version
    requires t in r.attempts
  {
    var over := At(r, t, r.attempts[t].(pc := Over));
    if r.work.None? || r.work.value.job.token != Some(t) || r.work.value.job.status != Jobs.Running then over
    else
      over.(status := if r.status == Processing then Failed else r.status,
      work := Some(JP.Apply(r.work.value, JP.HandleFailure(t, "KNOWLEDGE_PROCESSING_FAILED"))))
  }

  function Committed(r: Version, t: Token, p: Proposal): Version {
    match p
    case Refused => r
    case Free(next) => next
    case Fenced(change, next) => Guarded(r, t, change, next)
  }

  ghost function Worked(v: VersionId, r: Version, t: Token, action: Action): Version
    requires t in r.attempts
  {
    Committed(r, t, Proposed(v, r, t, action))
  }

  /** The index calls carry no fence. They are taken to reach the index before another attempt claims. */
  predicate Deletes(r: Version, t: Token)
    requires t in r.attempts
  {
    r.attempts[t].pc.Cleaning? && r.attempts[t].pc.deleted < 3 && Latest(r, t)
  }

  predicate Writes(r: Version, t: Token)
    requires t in r.attempts
  {
    var a := r.attempts[t];
    a.pc.Indexing? && a.pc.stage < 3 && STAGES[a.pc.stage] !in a.index.ready && Latest(r, t)
  }

  function Indexed(v: VersionId, r: Version, b: Backend, t: Token, action: Action): Backend
    requires t in r.attempts
  {
    var a := r.attempts[t];
    match action
    case DeleteIndex =>
      if !Deletes(r, t) then b
      else
        var stage := STAGES[a.pc.deleted];
        b.With(stage, Deleted(b.At(stage), r.generation, v))
    case Upsert(ids) =>
      if !Writes(r, t) then b
      else
        var stage := STAGES[a.pc.stage];
        b.With(stage, Written(b.At(stage), r.generation, Part(Expected(v, stage, a.chunks, a.facts), ids)))
    case _ => b
  }

  // ---------------------------------------------------------------- the machine

  datatype Event =
    | Create(v: VersionId, document: DocumentId, generation: Generation, kind: Chunking.DocumentKind, period: Period)
    | CompleteUpload(v: VersionId)
    | NewJob(v: VersionId, now: int)                                 // process endpoint or retry
    | JobStep(v: VersionId, step: JP.Event)
    | Work(v: VersionId, token: Token, action: Action)
    | Correct(v: VersionId, corrections: seq<Corrections.Correction>, blocks: seq<Chunking.Block>)
    | Assess(v: VersionId, approved: bool)                           // review_version
    | Publish(v: VersionId)
    | Withdraw(v: VersionId)

  predicate Idle(r: Version) {
    r.work.None? || Jobs.Terminal(r.work.value.job.status)
  }

  /** Steps of the job row that are not a worker's guarded commit. */
  predicate Outside(r: Version, step: JP.Event) {
    match step
    case Claim(token, _) => token !in r.attempts
    case Publish(_, _) => false
    case HandleFailure(_, _) => false
    case CancelRun => false
    case _ => true
  }

  function Stepped(r: Version, step: JP.Event): Version
    requires r.work.Some?
  {
    var w := JP.Apply(r.work.value, step);
    if step.Claim? && w.claims != r.work.value.claims
    then At(r, step.token, ENTERING).(work := Some(w), token := Some(step.token))
    else r.(work := Some(w))
  }

  predicate Correctable(r: Version) {
    r.status in {Failed, Review, Rejected} && Idle(r)
  }

  ghost predicate Edits(r: Version, corrections: seq<Corrections.Correction>, blocks: seq<Chunking.Block>) {
    && Distinct(Corrections.Targets(corrections))
    && (forall c :: c in corrections ==> c.block in Chunking.IdSet(r.blocks))
    && Corrections.Applied(r.blocks, blocks, corrections)
  }

  ghost predicate Accepted(r: Version, corrections: seq<Corrections.Correction>, blocks: seq<Chunking.Block>) {
    Correctable(r) && Edits(r, corrections, blocks)
  }

  function Reset(r: Version, blocks: seq<Chunking.Block>): Version {
    r.(blocks := blocks, index := CLEANUP, status := Uploaded, chunks := [], facts := map[])
  }

  predicate Other(w: World, v: VersionId, u: VersionId)
    requires v in w.versions
  {
    u in w.versions && u != v && w.versions[u].document == w.versions[v].document && w.versions[u].status == Published
  }

  predicate Publishable(w: World, v: VersionId)
    requires v in w.versions
  {
    && w.versions[v].status == Approved && w.versions[v].index.ready == ALL_STAGES
    && forall u :: u in w.versions && Other(w, v, u) ==> w.versions[u].period.from < w.versions[v].period.from
  }

  function PublishedVersions(w: World, v: VersionId): map<VersionId, Version>
    requires v in w.versions
  {
    map u | u in w.versions ::
      if u == v then w.versions[u].(status := Published)
      else if Other(w, v, u) then w.versions[u].(period := Truncated(w.versions[u].period, w.versions[v].period.from))
      else w.versions[u]
  }

  /** A refused step leaves the world as it was. */
  ghost function Apply(w: World, e: Event): World {
    if e.Create? then
      if e.v in w.versions || !NonEmpty(e.period) then w
      else
        var r := Version(e.document, e.generation, e.kind, e.period, Uploading, CLEAR, [], [], map[],
                         None, None, map[]);
        w.(versions := w.versions[e.v := r])
    else if e.v !in w.versions then w
    else if e.Publish? then
      if Publishable(w, e.v) then w.(versions := PublishedVersions(w, e.v)) else w
    else
      var r := w.versions[e.v];
      match e
      case Work(v, t, action) =>
        if t !in r.attempts then w
        else World(w.versions[v := Worked(v, r, t, action)], Indexed(v, r, w.backend, t, action))
      case _ => w.(versions := w.versions[e.v := Edited(r, e)])
  }

  /** The transactions that touch one version row only. */
  ghost function Edited(r: Version, e: Event): Version {
    match e
    case CompleteUpload(_) => if r.status == Uploading then r.(status := Uploaded) else r
    case NewJob(_, now) =>
      if !Idle(r) || (r.work.None? && r.status !in Processable()) then r else r.(work := Some(JP.Init(now)))
    case JobStep(_, step) => if r.work.None? || !Outside(r, step) then r else Stepped(r, step)
    case Correct(_, corrections, blocks) =>
      if Accepted(r, corrections, blocks) then Reset(r, blocks) else r
    case Assess(_, approved) =>
      if r.status == Review then r.(status := if approved then Approved else Rejected) else r
    case Withdraw(_) => if r.status == Published then r.(status := Withdrawn) else r
    case _ => r
  }

  ghost function Run(w: World, events: seq<Event>): World
    decreases |events|
  {
    if events == [] then w else Run(Apply(w, events[0]), events[1..])
  }
}
