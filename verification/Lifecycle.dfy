/** Main results about knowledge versions, over every run of the ingestion machine. */
module Lifecycle {
  import opened Common
  import opened Indexes
  import opened Ingestion
  import opened IndexAgreement
  import opened Publication
  import Facts
  import JP = JobProtocol

  lemma {:induction false} RunAppend(w: World, a: seq<Event>, b: seq<Event>)
    ensures Run(w, a + b) == Run(Run(w, a), b)
    decreases |a|
  {
    if a == [] {
      assert a + b == b;
    } else {
      RunAppend(Apply(w, a[0]), a[1..], b);
      assert (a + b)[1..] == a[1..] + b;
    }
  }

  lemma {:induction false} EveryRun(events: seq<Event>)
    ensures Inv(Run(EMPTY, events))
  {
    RunInv(EMPTY, events);
  }

  ghost predicate Reachable(w: World) {
    exists events :: Run(EMPTY, events) == w
  }

  lemma ReachableInv(w: World)
    requires Reachable(w)
    ensures Inv(w)
  {
    var events :| Run(EMPTY, events) == w;
    EveryRun(events);
  }

  lemma {:induction false} ReachableRun(w: World, more: seq<Event>)
    requires Reachable(w)
    ensures Reachable(Run(w, more))
  {
    var events :| Run(EMPTY, events) == w;
    RunAppend(EMPTY, events, more);
  }

  lemma ReachableStep(w: World, e: Event)
    requires Reachable(w)
    ensures Reachable(Apply(w, e))
  {
    ReachableRun(w, [e]);
    assert Run(w, [e]) == Run(Apply(w, e), [e][1..]);
  }

  // ---------------------------------------------------------------- the indexes

  /** Over every interleaving of attempts, crashes, retries and corrections: unless a cleanup is
      still due, an index holds for a version only records of its committed chunks or facts, and
      a stage marked ready holds exactly those; no other generation holds anything of it. */
  lemma {:induction false} IndexesAgree(events: seq<Event>, v: VersionId)
    requires v in Run(EMPTY, events).versions
    ensures var w := Run(EMPTY, events); var r := w.versions[v];
            && (!r.index.cleanup ==> forall stage ::
                  PartOf(Held(v, r, w.backend, stage), Expected(v, stage, r.chunks, r.facts)))
            && (forall stage :: stage in r.index.ready ==>
                 Held(v, r, w.backend, stage) == Expected(v, stage, r.chunks, r.facts))
            && (forall stage: Stage, g :: g != r.generation ==> Slice(w.backend.At(stage), g, v) == map[])
  {
    EveryRun(events);
    var w := Run(EMPTY, events);
    forall stage: Stage, g | g != w.versions[v].generation ensures Slice(w.backend.At(stage), g, v) == map[] {
      assert Owned(w.backend.At(stage));
      SliceExact(w.backend.At(stage), g, v);
    }
  }

  /** A version past indexing has all three stages ready. */
  lemma {:induction false} PublicationGate(events: seq<Event>, v: VersionId)
    requires v in Run(EMPTY, events).versions && Settled(Run(EMPTY, events).versions[v].status)
    ensures var r := Run(EMPTY, events).versions[v]; r.index.ready == ALL_STAGES && !r.index.cleanup
  {
    EveryRun(events);
  }

  /** So the readiness test of publication never refuses an approved version: publication fails
      exactly when some published version of the document starts no earlier. */
  lemma {:induction false} ApprovedPublishes(events: seq<Event>, v: VersionId)
    requires v in Run(EMPTY, events).versions && Run(EMPTY, events).versions[v].status == Approved
    ensures var w := Run(EMPTY, events);
            Apply(w, Publish(v)).versions[v].status == Published <==>
            forall u :: Other(w, v, u) ==> w.versions[u].period.from < w.versions[v].period.from
  {
    PublicationGate(events, v);
    var w := Run(EMPTY, events);
    assert Apply(w, Publish(v)) == if Publishable(w, v) then w.(versions := PublishedVersions(w, v)) else w;
  }

  // ---------------------------------------------------------------- what the endpoints accept

  ghost predicate WithoutJob(r: Version) {
    r.work.None? || r.work.value.job.status in {Jobs.Succeeded, Jobs.Failed, Jobs.Cancelled}
  }

  function With(w: World, v: VersionId, r: Version): World {
    w.(versions := w.versions[v := r])
  }

  /** An upload completes once, a version in review is approved or rejected, a published one can be
      withdrawn; in any other status these requests change nothing. */
  lemma StatusRequests(w: World, v: VersionId, approved: bool)
    requires v in w.versions
    ensures var r := w.versions[v];
            && Apply(w, CompleteUpload(v)) == (if r.status == Uploading then With(w, v, r.(status := Uploaded)) else w)
            && Apply(w, Withdraw(v)) == (if r.status == Published then With(w, v, r.(status := Withdrawn)) else w)
            && Apply(w, Assess(v, approved)) ==
               if r.status != Review then w
               else if approved then With(w, v, r.(status := Approved)) else With(w, v, r.(status := Rejected))
  {
    assert With(w, v, w.versions[v]) == w;
  }

  /** A job starts exactly while no other is active, and for a version without any job only if it is
      uploaded, failed or in processing. */
  lemma JobRequests(w: World, v: VersionId, now: int)
    requires v in w.versions
    ensures var r := w.versions[v];
            Apply(w, NewJob(v, now)) ==
            if WithoutJob(r) && (r.work.Some? || r.status in {Uploaded, Failed, Processing})
            then With(w, v, r.(work := Some(JP.State(now, Jobs.Job(Jobs.Queued, 0, false, None, None, None, None, None,
                                                                   1, None), [], []))))
            else w
  {
    assert With(w, v, w.versions[v]) == w;
  }

  /** A new version begins uploading, without a job and without content. */
  lemma CreationRequests(w: World, v: VersionId, document: DocumentId, generation: Generation,
                         kind: Chunking.DocumentKind, period: Period)
    ensures Apply(w, Create(v, document, generation, kind, period)) ==
            if v in w.versions || (period.to.Some? && period.from >= period.to.value) then w
            else With(w, v, Version(document, generation, kind, period, Uploading, IndexState(false, false, {}), [], [],
                                    map[], None, None, map[]))
  {
  }

  /** The steps of the job row outside a worker's transactions; a claim that goes through brings a new
      attempt, which has read nothing yet. */
  lemma JobSteps(w: World, v: VersionId, step: JP.Event)
    requires v in w.versions && w.versions[v].work.Some?
    ensures var r := w.versions[v]; var job := JP.Apply(r.work.value, step);
            match step
            case Claim(token, _) =>
              Apply(w, JobStep(v, step)) ==
              if token in r.attempts || job.claims == r.work.value.claims then With(w, v, r)
              else With(w, v, r.(work := Some(job), token := Some(token),
                                 attempts := r.attempts[token := Attempt(Entering, IndexState(false, false, {}), [], [],
                                                                         map[])]))
            case Publish(_, _) => Apply(w, JobStep(v, step)) == w
            case HandleFailure(_, _) => Apply(w, JobStep(v, step)) == w
            case CancelRun => Apply(w, JobStep(v, step)) == w
            case _ => Apply(w, JobStep(v, step)) == With(w, v, r.(work := Some(job)))
  {
    assert With(w, v, w.versions[v]) == w;
  }

  /** A correction is accepted exactly when the version failed, awaits review or was rejected, no job
      is active, no block is corrected twice, and every corrected block exists. Of several blocks with
      one id the last gets the text. The version is then uploaded anew, without chunks and facts,
      nothing indexed and a cleanup due. */
  lemma CorrectionRequests(w: World, v: VersionId, corrections: seq<Corrections.Correction>,
                           blocks: seq<Chunking.Block>)
    requires v in w.versions
    ensures var r := w.versions[v];
            Apply(w, Correct(v, corrections, blocks)) ==
            if r.status in {Failed, Review, Rejected} && WithoutJob(r)
               && Distinct(Corrections.Targets(corrections))
               && (forall c :: c in corrections ==> exists b :: b in r.blocks && b.id == c.block)
               && Corrections.Applied(r.blocks, blocks, corrections)
            then With(w, v, r.(blocks := blocks, chunks := [], facts := map[], status := Uploaded,
                               index := IndexState(true, false, {})))
            else w
  {
    var r := w.versions[v];
    assert With(w, v, r) == w;
    forall c | c in corrections
      ensures c.block in Chunking.IdSet(r.blocks) <==> exists b :: b in r.blocks && b.id == c.block
    {
    }
  }

  /** An approved version with all three indexes ready is published unless another published version
      of the document starts no earlier; those that started earlier and would still be in force then
      end where it starts. */
  lemma PublicationRequests(w: World, v: VersionId)
    requires v in w.versions
    ensures var r := w.versions[v]; var w' := Apply(w, Publish(v));
            if r.status == Approved && r.index.ready == {Fulltext, Vector, Graph}
               && (forall u :: u in w.versions && u != v && w.versions[u].document == r.document
                               && w.versions[u].status == Published ==>
                     w.versions[u].period.from < r.period.from)
            then && w'.backend == w.backend && w'.versions.Keys == w.versions.Keys
                 && w'.versions[v] == r.(status := Published)
                 && forall u :: u in w.versions && u != v ==>
                      w'.versions[u] == EndedBy(w.versions[u], r)
            else w' == w
  {
    assert forall u :: u in w.versions ==>
             (Other(w, v, u) <==> u != v && w.versions[u].document == w.versions[v].document
                                  && w.versions[u].status == Published);
  }

  function EndedBy(other: Version, r: Version): Version {
    if other.document == r.document && other.status == Published
       && (other.period.to.None? || other.period.to.value > r.period.from)
    then other.(period := Period(other.period.from, Some(r.period.from))) else other
  }

  /** What readers of a published version search: the segmentation of its current artifact, in
      both text indexes, and a graph whose every fact quotes its chunk verbatim. */
  lemma {:induction false} PublishedContent(events: seq<Event>, v: VersionId)
    requires v in Run(EMPTY, events).versions && Run(EMPTY, events).versions[v].status == Published
    ensures var w := Run(EMPTY, events); var r := w.versions[v];
            && FromArtifact(r)
            && IsTextIndex(v, Held(v, r, w.backend, Fulltext), r.chunks)
            && IsTextIndex(v, Held(v, r, w.backend, Vector), r.chunks)
            && IsGraph(v, Held(v, r, w.backend, Graph), r.facts)
            && forall id :: id in r.facts ==> Facts.Named(id, r.facts[id]) && Facts.Quoted(v, r.chunks, r.facts[id])
  {
    EveryRun(events);
    var w := Run(EMPTY, events);
    var r := w.versions[v];
    assert r.index.facts && FromArtifact(r);
    forall id | id in r.facts ensures Facts.Named(id, r.facts[id]) && Facts.Quoted(v, r.chunks, r.facts[id]) {
      Facts.SupportedExact(v, r.chunks, r.facts[id]);
    }
    ExpectedMeans(v, r.chunks, r.facts);
    assert Fulltext in r.index.ready && Vector in r.index.ready && Graph in r.index.ready;
  }

  /** A hit of a search for `scope` is in the slice of the version its id names. */
  lemma HitHeld(w: World, key: Key, generation: Generation, scope: set<VersionId>)
    requires BackendInv(w) && InSearch(w.backend.fulltext, key, generation, scope) && scope <= w.versions.Keys
    ensures var v := key.1.version;
            && v in scope
            && key.1 in Held(v, w.versions[v], w.backend, Fulltext)
            && Held(v, w.versions[v], w.backend, Fulltext)[key.1] == w.backend.fulltext[key]
  {
    assert Owned(w.backend.At(Fulltext)) && key in w.backend.At(Fulltext);
    SliceExact(w.backend.fulltext, w.versions[key.1.version].generation, key.1.version);
    assert key == (generation, key.1);
  }

  /** A search limited to published versions finds nothing but their current passages. */
  lemma {:induction false} SearchFindsCurrentText(events: seq<Event>, key: Key, generation: Generation,
                                                  scope: set<VersionId>)
    requires scope <= Run(EMPTY, events).versions.Keys
    requires forall v :: v in scope ==> Run(EMPTY, events).versions[v].status == Published
    requires InSearch(Run(EMPTY, events).backend.fulltext, key, generation, scope)
    ensures key.1.version in scope && key.1.ChunkId?
    ensures var chunks := Run(EMPTY, events).versions[key.1.version].chunks;
            && key.1.ordinal < |chunks|
            && Run(EMPTY, events).backend.fulltext[key] ==
               Passage(key.1.version, chunks[key.1.ordinal].text, chunks[key.1.ordinal].locator)
  {
    EveryRun(events);
    HitHeld(Run(EMPTY, events), key, generation, scope);
    PublishedContent(events, key.1.version);
  }

  // ---------------------------------------------------------------- fencing of attempts

  /** Whatever this attempt still tries, only its own bookkeeping changes. */
  ghost predicate Inert(v: VersionId, r: Version, b: Backend, t: Token) {
    t in r.attempts && forall action :: ChangesNothing(v, r, b, t, action)
  }

  ghost predicate ChangesNothing(v: VersionId, r: Version, b: Backend, t: Token, action: Action)
    requires t in r.attempts
  {
    var r' := Worked(v, r, t, action);
    Indexed(v, r, b, t, action) == b && t in r'.attempts && r' == At(r, t, r'.attempts[t])
  }

  lemma SupersededInert(v: VersionId, r: Version, b: Backend, t: Token)
    requires WorkInv(r) && t in r.attempts && !Latest(r, t)
    ensures Inert(v, r, b, t)
  {
    forall action ensures ChangesNothing(v, r, b, t, action) {
      SupersededStep(v, r, b, t, action);
    }
  }

  /** Once another attempt has claimed, the old one is inert in every later state. */
  lemma {:induction false} StaleStaysInert(w: World, events: seq<Event>, v: VersionId, t: Token)
    requires Reachable(w) && v in w.versions && t in w.versions[v].attempts && !Latest(w.versions[v], t)
    ensures v in Run(w, events).versions
    ensures Inert(v, Run(w, events).versions[v], Run(w, events).backend, t)
    decreases |events|
  {
    if events == [] {
      ReachableInv(w);
      assert RowInv(v, w.versions[v]);
      SupersededInert(v, w.versions[v], w.backend, t);
    } else {
      StaleStep(w, events[0], v, t);
      ReachableStep(w, events[0]);
      StaleStaysInert(Apply(w, events[0]), events[1..], v, t);
    }
  }

  lemma StaleStep(w: World, e: Event, v: VersionId, t: Token)
    requires v in w.versions && t in w.versions[v].attempts && !Latest(w.versions[v], t)
    ensures var w' := Apply(w, e); v in w'.versions && t in w'.versions[v].attempts && !Latest(w'.versions[v], t)
  {
    if e.Work? && e.v == v && e.token in w.versions[v].attempts {
      TokenKept(v, w.versions[v], e.token, e.action);
    }
  }

  lemma TokenKept(v: VersionId, r: Version, t: Token, action: Action)
    requires t in r.attempts
    ensures Worked(v, r, t, action).token == r.token && Worked(v, r, t, action).attempts.Keys == r.attempts.Keys
  {
    FreeKeepsWork(v, r, t, action);
  }

  /** A step about one version leaves every other version's row and records alone; only a
      publication may cut an earlier published period short. */
  lemma OtherVersionsUntouched(w: World, e: Event, u: VersionId)
    requires Inv(w) && u in w.versions && e.v != u
    ensures var w' := Apply(w, e);
            && u in w'.versions
            && w'.versions[u] == w.versions[u].(period := w'.versions[u].period)
            && (!e.Publish? ==> w'.versions[u] == w.versions[u])
            && forall stage: Stage, g :: Slice(w'.backend.At(stage), g, u) == Slice(w.backend.At(stage), g, u)
  {
    if e.Work? && e.v in w.versions && e.token in w.versions[e.v].attempts {
      forall stage: Stage, g ensures Slice(Apply(w, e).backend.At(stage), g, u) == Slice(w.backend.At(stage), g, u) {
        OtherSlicesUntouched(e.v, w.versions[e.v], w.backend, e.token, e.action, stage);
      }
    }
  }

  // ---------------------------------------------------------------- rows that a step leaves alone

  lemma UntouchedRow(w: World, e: Event, u: VersionId)
    requires u in w.versions && e.v != u
    ensures u in Apply(w, e).versions
    ensures Apply(w, e).versions[u] == w.versions[u].(period := Apply(w, e).versions[u].period)
  {
  }

  /** No step of an attempt changes a row without an active job, except its own bookkeeping. */
  lemma IdleWork(v: VersionId, r: Version, t: Token, action: Action)
    requires t in r.attempts && Idle(r)
    ensures Worked(v, r, t, action) == r.(attempts := Worked(v, r, t, action).attempts)
  {
  }

  lemma IdleStep(r: Version, step: JP.Event)
    requires r.work.Some? && Idle(r) && Outside(r, step)
    ensures Stepped(r, step) == r.(work := Stepped(r, step).work) && Stepped(r, step).work.Some?
    ensures Stepped(r, step).work.value.job.status == r.work.value.job.status
  {
  }

  // ---------------------------------------------------------------- effective intervals

  /** The version table as rows, in any order. */
  ghost predicate Lists(w: World, rows: seq<Row>) {
    && (forall i :: 0 <= i < |rows| ==>
          && rows[i].id in w.versions
          && rows[i].document == w.versions[rows[i].id].document
          && rows[i].status == w.versions[rows[i].id].status
          && rows[i].period == w.versions[rows[i].id].period)
    && forall i, j :: 0 <= i < j < |rows| ==> rows[i].id != rows[j].id
  }

  /** In every reachable state the published periods of a document are non-empty and disjoint, so
      a search at any instant that names no versions sees at most one version of each document. */
  lemma {:induction false} OneVersionAtATime(events: seq<Event>, rows: seq<Row>, search: Search,
                                             authorized: Row -> bool)
    requires Lists(Run(EMPTY, events), rows)
    ensures DisjointPublications(rows)
    ensures search.versionIds == [] ==>
              forall i, j :: 0 <= i < j < |ShownRows(rows, search, authorized)| ==>
                ShownRows(rows, search, authorized)[i].document != ShownRows(rows, search, authorized)[j].document
  {
    EveryRun(events);
    ListedApart(Run(EMPTY, events), rows);
    if search.versionIds == [] {
      OneVersionPerDocument(rows, search, authorized);
    }
  }

  lemma ListedApart(w: World, rows: seq<Row>)
    requires PeriodsInv(w) && Lists(w, rows)
    ensures DisjointPublications(rows)
  {
    forall row | row in rows ensures NonEmpty(row.period) {
      var i :| 0 <= i < |rows| && rows[i] == row;
    }
  }

  // ---------------------------------------------------------------- the way to publication

  /** How far a version is: 0 while a cleanup is due, 1 to 4 by stages ready, then review,
      approval, publication. */
  function Phase(r: Version): nat {
    if r.index.cleanup then 0
    else
      match r.status
      case Published => 7
      case Approved => 6
      case Review | Rejected | Withdrawn => 5
      case _ => 1 + |r.index.ready|
  }

  predicate Raises(e: Event, phase: nat) {
    match phase
    case 0 => e.Work? && e.action.ClearState?
    case 1 | 2 | 3 => e.Work? && e.action.MarkReady?
    case 4 => e.Work? && e.action.Finish?
    case 5 => e.Assess? && e.approved
    case 6 => e.Publish?
    case _ => false
  }

  lemma ReadyCount(ready: set<Stage>)
    ensures |ready| <= 3
    ensures |ready| == 3 ==> ready == ALL_STAGES
  {
    var missing := ALL_STAGES - ready;
    forall stage: Stage ensures stage in ALL_STAGES {
      var j := StageAt(stage);
    }
    assert ready + missing == ALL_STAGES && ready !! missing;
    assert |ready| + |missing| == |ALL_STAGES|;
  }

  ghost predicate RaisedBy(r: Version, r': Version, e: Event) {
    Phase(r') <= Phase(r) || (Phase(r') == Phase(r) + 1 && Raises(e, Phase(r)))
  }

  /** One step leads at most one phase up, and only by the right kind of step. */
  lemma PhaseStep(w: World, e: Event, v: VersionId)
    requires Inv(w) && v in w.versions
    ensures v in Apply(w, e).versions
    ensures RaisedBy(w.versions[v], Apply(w, e).versions[v], e)
  {
    if e.v == v {
      assert RowInv(v, w.versions[v]);
      OwnPhaseStep(w, e, v);
    } else {
      OtherPhaseStep(w, e, v);
    }
  }

  lemma OtherPhaseStep(w: World, e: Event, v: VersionId)
    requires v in w.versions && e.v != v
    ensures v in Apply(w, e).versions
    ensures Phase(Apply(w, e).versions[v]) == Phase(w.versions[v])
  {
  }

  lemma OwnPhaseStep(w: World, e: Event, v: VersionId)
    requires v in w.versions && e.v == v && RowInv(v, w.versions[v])
    ensures v in Apply(w, e).versions
    ensures RaisedBy(w.versions[v], Apply(w, e).versions[v], e)
  {
    var r := w.versions[v];
    if e.Work? {
      if e.token in r.attempts {
        WorkedPhase(v, r, e.token, e.action);
      }
    } else if e.Publish? {
      PublishPhase(w, v);
    } else if !e.Create? {
      EditedPhase(v, r, e);
    }
  }

  lemma PublishPhase(w: World, v: VersionId)
    requires v in w.versions && RowInv(v, w.versions[v])
    ensures RaisedBy(w.versions[v], Apply(w, Publish(v)).versions[v], Publish(v))
  {
  }

  lemma EditedPhase(v: VersionId, r: Version, e: Event)
    requires RowInv(v, r) && !e.Work? && !e.Publish? && !e.Create?
    ensures RaisedBy(r, Edited(r, e), e)
  {
    if e.Assess? {
      ReadyCount(r.index.ready);
    } else {
      EditedLower(r, e);
    }
  }

  lemma EditedLower(r: Version, e: Event)
    requires !e.Work? && !e.Publish? && !e.Create? && !e.Assess?
    ensures Phase(Edited(r, e)) <= Phase(r)
  {
    match e
    case JobStep(_, step) =>
      assert Edited(r, e).index == r.index && Edited(r, e).status == r.status;
    case Correct(_, corrections, blocks) =>
      assert Edited(r, e) == r || Edited(r, e) == Reset(r, blocks);
    case _ =>
  }

  lemma WorkedPhase(v: VersionId, r: Version, t: Token, action: Action)
    requires RowInv(v, r) && t in r.attempts
    ensures RaisedBy(r, Worked(v, r, t, action), Work(v, t, action))
  {
    if action.GiveUp? {
      GivenUpPhase(r, t);
    } else if !Latest(r, t) {
      SupersededStep(v, r, EMPTY.backend, t, action);
    } else {
      ProposedPhase(v, r, t, action);
      CommittedPhase(r, t, Proposed(v, r, t, action));
    }
  }

  lemma GivenUpPhase(r: Version, t: Token)
    requires t in r.attempts
    ensures Phase(GivenUp(r, t)) == Phase(r)
  {
  }

  lemma CommittedPhase(r: Version, t: Token, p: Proposal)
    ensures Phase(Committed(r, t, p)) == Phase(r) || (!p.Refused? && Phase(Committed(r, t, p)) == Phase(p.next))
  {
  }

  lemma MarkingPhase(v: VersionId, r: Version, t: Token)
    requires RowInv(v, r) && t in r.attempts && Latest(r, t)
    ensures var p := Proposed(v, r, t, MarkReady); p.Refused? || RaisedBy(r, p.next, Work(v, t, MarkReady))
  {
    var a := r.attempts[t];
    MarkingShape(v, r, t);
    if !Proposed(v, r, t, MarkReady).Refused? {
      assert InStep(r, a);
      MarkingRaises(v, r, t, STAGES[a.pc.stage]);
    }
  }

  lemma MarkingRaises(v: VersionId, r: Version, t: Token, stage: Stage)
    requires t in r.attempts && r.attempts[t].pc.Indexing? && InStep(r, r.attempts[t])
    ensures RaisedBy(r, MarkingReady(r, t, stage).next, Work(v, t, MarkReady))
  {
    ReadyCount(r.index.ready);
    ReadyCount(r.index.ready + {stage});
  }

  lemma FinishPhase(v: VersionId, r: Version, t: Token)
    requires RowInv(v, r) && t in r.attempts && Latest(r, t)
    ensures var p := Proposed(v, r, t, Finish); p.Refused? || RaisedBy(r, p.next, Work(v, t, Finish))
  {
    var a := r.attempts[t];
    if a.pc.Indexing? && a.pc.stage == 3 {
      assert InStep(r, a);
      EveryStage(r.index.ready);
      ReadyCount(r.index.ready);
      assert |ALL_STAGES| == 3;
    }
  }

  lemma ProposedPhase(v: VersionId, r: Version, t: Token, action: Action)
    requires RowInv(v, r) && t in r.attempts && Latest(r, t) && !action.GiveUp?
    ensures var p := Proposed(v, r, t, action); p.Refused? || RaisedBy(r, p.next, Work(v, t, action))
  {
    match action
    case MarkReady => MarkingPhase(v, r, t);
    case Finish => FinishPhase(v, r, t);
    case Start => assert r.status in Processable() ==> !Settled(r.status);
    case _ => QuietPhase(v, r, t, action);
  }

  lemma QuietPhase(v: VersionId, r: Version, t: Token, action: Action)
    requires RowInv(v, r) && t in r.attempts && Latest(r, t)
    requires !action.GiveUp? && !action.MarkReady? && !action.Finish? && !action.Start?
    ensures var p := Proposed(v, r, t, action); p.Refused? || RaisedBy(r, p.next, Work(v, t, action))
  {
    if Busy(r.attempts[t]) {
      assert InStep(r, r.attempts[t]);
    }
    match action
    case ClearState => ClearPhase(v, r, t);
    case SaveFacts(answers) => FactsPhase(v, r, t, answers);
    case _ => SilentPhase(v, r, t, action);
  }

  lemma ClearPhase(v: VersionId, r: Version, t: Token)
    requires t in r.attempts && (Busy(r.attempts[t]) ==> InStep(r, r.attempts[t]))
    ensures var p := Proposed(v, r, t, ClearState); p.Refused? || RaisedBy(r, p.next, Work(v, t, ClearState))
  {
  }

  lemma FactsPhase(v: VersionId, r: Version, t: Token, answers: nat -> seq<Facts.Fact>)
    requires t in r.attempts && (Busy(r.attempts[t]) ==> InStep(r, r.attempts[t]))
    ensures var p := Proposed(v, r, t, SaveFacts(answers)); p.Refused? || Phase(p.next) == Phase(r)
  {
    FactsShape(v, r, t, answers);
  }

  lemma SilentPhase(v: VersionId, r: Version, t: Token, action: Action)
    requires t in r.attempts && !action.GiveUp? && !action.MarkReady? && !action.Finish? && !action.Start?
    requires !action.ClearState? && !action.SaveFacts?
    ensures var p := Proposed(v, r, t, action); p.Refused? || Phase(p.next) == Phase(r)
  {
  }

  lemma ReachablePhase(w: World, e: Event, v: VersionId)
    requires Reachable(w) && v in w.versions
    ensures v in Apply(w, e).versions && RaisedBy(w.versions[v], Apply(w, e).versions[v], e)
  {
    ReachableInv(w);
    PhaseStep(w, e, v);
  }

  /** At index `k` the run takes the version from phase `p` to the next. */
  ghost predicate Rises(w: World, events: seq<Event>, v: VersionId, p: nat, k: nat) {
    && k < |events| && Raises(events[k], p)
    && v in Run(w, events[..k]).versions && Phase(Run(w, events[..k]).versions[v]) == p
    && v in Run(w, events[..k + 1]).versions && Phase(Run(w, events[..k + 1]).versions[v]) == p + 1
  }

  lemma RisesLater(w: World, events: seq<Event>, v: VersionId, p: nat, m: nat)
    requires events != [] && Rises(Apply(w, events[0]), events[1..], v, p, m)
    ensures Rises(w, events, v, p, m + 1)
  {
    assert events[..m + 1][1..] == events[1..][..m] && events[..m + 2][1..] == events[1..][..m + 1];
  }

  lemma RisesNow(w: World, events: seq<Event>, v: VersionId, p: nat)
    requires events != [] && v in w.versions && Phase(w.versions[v]) == p && Raises(events[0], p)
    requires v in Apply(w, events[0]).versions && Phase(Apply(w, events[0]).versions[v]) == p + 1
    ensures Rises(w, events, v, p, 0)
  {
    assert events[..0] == [] && events[..1] == [events[0]];
    assert Run(w, events[..1]) == Run(Apply(w, events[0]), events[..1][1..]);
  }

  lemma {:induction false} FirstRise(w: World, events: seq<Event>, v: VersionId, p: nat) returns (k: nat)
    requires Reachable(w) && v in w.versions && Phase(w.versions[v]) <= p
    requires v in Run(w, events).versions && Phase(Run(w, events).versions[v]) > p
    ensures Rises(w, events, v, p, k)
    decreases |events|
  {
    var w' := Apply(w, events[0]);
    ReachableStep(w, events[0]);
    ReachablePhase(w, events[0], v);
    if Phase(w'.versions[v]) > p {
      k := 0;
      RisesNow(w, events, v, p);
    } else {
      var m := FirstRise(w', events[1..], v, p);
      k := m + 1;
      RisesLater(w, events, v, p, m);
    }
  }

  /** The run climbs from phase `p` to phase `q` step by step, in order. */
  ghost predicate Climbs(w: World, events: seq<Event>, v: VersionId, p: nat, q: nat)
    decreases q - p
  {
    p >= q ||
    exists k: nat :: Rises(w, events, v, p, k) && Climbs(Run(w, events[..k + 1]), events[k + 1..], v, p + 1, q)
  }

  lemma {:induction false} MustClimb(w: World, events: seq<Event>, v: VersionId, p: nat)
    requires Reachable(w) && v in w.versions && Phase(w.versions[v]) <= p
    requires v in Run(w, events).versions
    ensures Climbs(w, events, v, p, Phase(Run(w, events).versions[v]))
    decreases |events|
  {
    var q := Phase(Run(w, events).versions[v]);
    if p < q {
      var k := FirstRise(w, events, v, p);
      RunAppend(w, events[..k + 1], events[k + 1..]);
      assert events[..k + 1] + events[k + 1..] == events;
      ReachableRun(w, events[..k + 1]);
      MustClimb(Run(w, events[..k + 1]), events[k + 1..], v, p + 1);
    }
  }

  lemma CorrectedPhase(w: World, e: Event)
    requires e.Correct? && e.v in w.versions && Accepted(w.versions[e.v], e.corrections, e.blocks)
    ensures e.v in Apply(w, e).versions && Phase(Apply(w, e).versions[e.v]) == 0
  {
    assert Edited(w.versions[e.v], e) == Reset(w.versions[e.v], e.blocks);
  }

  lemma PublishedPhase(w: World, v: VersionId)
    requires Reachable(w) && v in w.versions && w.versions[v].status == Published
    ensures Phase(w.versions[v]) == 7
  {
    ReachableInv(w);
    assert RowInv(v, w.versions[v]);
  }

  /** A corrected artifact is published only after, in this order, a cleanup of all three indexes,
      three stages marked ready, the end of an attempt, an approving review, and publication. */
  lemma {:induction false} CorrectionForcesEverything(events: seq<Event>, correction: Event, more: seq<Event>,
                                                      v: VersionId)
    requires correction.Correct? && correction.v == v && v in Run(EMPTY, events).versions
    requires Accepted(Run(EMPTY, events).versions[v], correction.corrections, correction.blocks)
    requires v in Run(Apply(Run(EMPTY, events), correction), more).versions
    requires Run(Apply(Run(EMPTY, events), correction), more).versions[v].status == Published
    ensures Climbs(Apply(Run(EMPTY, events), correction), more, v, 0, 7)
  {
    var w0 := Run(EMPTY, events);
    CorrectedPhase(w0, correction);
    ReachableStep(w0, correction);
    ReachableRun(Apply(w0, correction), more);
    PublishedPhase(Run(Apply(w0, correction), more), v);
    MustClimb(Apply(w0, correction), more, v, 0);
  }

  lemma ClearedEmpty(v: VersionId, r: Version, b: Backend, t: Token)
    requires RowInv(v, r) && Agrees(v, r, b) && t in r.attempts
    requires r.index.cleanup && !Worked(v, r, t, ClearState).index.cleanup
    ensures forall stage: Stage :: Held(v, r, b, stage) == map[]
  {
    assert Latest(r, t) by {
      if !Latest(r, t) {
        SupersededStep(v, r, b, t, ClearState);
      }
    }
    forall stage: Stage ensures Held(v, r, b, stage) == map[] {
      var j := StageAt(stage);
      assert Held(v, r, b, STAGES[j]) == map[];
    }
  }

  /** The cleanup flag goes only when all three indexes hold nothing of the version. */
  lemma CleanupMeansEmpty(w: World, e: Event, v: VersionId)
    requires Inv(w) && v in w.versions && w.versions[v].index.cleanup
    requires v in Apply(w, e).versions && !Apply(w, e).versions[v].index.cleanup
    ensures Apply(w, e).backend == w.backend
    ensures forall stage: Stage :: Held(v, w.versions[v], w.backend, stage) == map[]
  {
    assert RowInv(v, w.versions[v]) && Agrees(v, w.versions[v], w.backend);
    OnlyClearing(w, e, v);
    ClearedEmpty(v, w.versions[v], w.backend, e.token);
  }

  lemma OnlyClearing(w: World, e: Event, v: VersionId)
    requires v in w.versions && RowInv(v, w.versions[v]) && w.versions[v].index.cleanup
    requires v in Apply(w, e).versions && !Apply(w, e).versions[v].index.cleanup
    ensures e.v == v && e.Work? && e.action.ClearState? && e.token in w.versions[v].attempts
  {
    if e.v != v {
      UntouchedRow(w, e, v);
    } else {
      OwnPhaseStep(w, e, v);
    }
  }
}
