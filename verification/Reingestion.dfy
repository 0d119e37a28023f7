/** Ingestion and the job table together: every job that works on a version is a row of the table. */
module Reingestion {
  import opened Common
  import opened Ingestion
  import opened IndexAgreement
  import opened Lifecycle
  import opened Publication
  import Jobs
  import JP = JobProtocol
  import RC = RetryChains

  /** `current` is the job row of the latest job of each version. */
  datatype System = System(world: World, table: RC.Table, current: map<VersionId, RC.JobId>)

  datatype Step =
    | Ingest(v: VersionId, id: RC.JobId, now: int)                          // process endpoint, with a queue
    | Retry(v: VersionId, original: RC.JobId, id: RC.JobId, now: int)
    | Elsewhere(job: RC.Event)                                             // jobs of other kinds
    | Happens(e: Event)                                                    // anything but a new job

  const NOTHING := System(EMPTY, RC.EMPTY, map[])

  function ResourceOf(v: VersionId): RC.Resource {
    RC.Resource("knowledge_version", v)
  }

  /** The job row follows the version's job. */
  function Mirrored(s: System, world: World, v: VersionId): RC.Table {
    if v in s.current && v in world.versions && world.versions[v].work.Some?
    then RC.Apply(s.table, RC.Move(s.current[v], world.versions[v].work.value.job.status))
    else s.table
  }

  predicate Foreign(t: RC.Table, e: RC.Event) {
    match e
    case StartIndex(_, _, _) => false
    case RetryOf(original, _) => original in t.jobs && t.jobs[original].kind != RC.Index
    case Move(id, _) => id in t.jobs && t.jobs[id].kind != RC.Index
    case _ => true
  }

  predicate Own(t: RC.Table, id: RC.JobId, v: VersionId) {
    id in t.jobs && t.jobs[id].kind == RC.Index && t.jobs[id].resource == ResourceOf(v)
  }

  ghost function Started(s: System, v: VersionId, id: RC.JobId, now: int, table: RC.Table): System {
    System(Apply(s.world, NewJob(v, now)), table, s.current[v := id])
  }

  ghost function Next(s: System, step: Step): System {
    match step
    case Ingest(v, id, now) =>
      var t := RC.Apply(s.table, RC.StartIndex(id, ResourceOf(v), true));
      if v !in s.world.versions || s.world.versions[v].status !in Processable() || t == s.table then s
      else Started(s, v, id, now, t)
    case Retry(v, original, id, now) =>
      var t := RC.Apply(s.table, RC.RetryOf(original, id));
      if v !in s.world.versions || !Own(s.table, original, v) || t == s.table then s
      else Started(s, v, id, now, t)
    case Elsewhere(job) => if Foreign(s.table, job) then s.(table := RC.Apply(s.table, job)) else s
    case Happens(e) =>
      if e.NewJob? then s
      else
        var w := Apply(s.world, e);
        System(w, Mirrored(s, w, e.v), s.current)
  }

  ghost function Steps(s: System, steps: seq<Step>): System
    decreases |steps|
  {
    if steps == [] then s else Steps(Next(s, steps[0]), steps[1..])
  }

  // ---------------------------------------------------------------- invariant

  /** The latest job of a version is the end of its only chain, and its row is up to date. */
  ghost predicate Tied(s: System, v: VersionId) {
    if v in s.current then
      && v in s.world.versions && s.world.versions[v].work.Some?
      && Own(s.table, s.current[v], v)
      && s.table.jobs[s.current[v]].status == s.world.versions[v].work.value.job.status
      && RC.Fresh(RC.Index, ResourceOf(v)) in s.table.keys
      && forall id :: Own(s.table, id, v) && id != s.current[v] ==> RC.HasChild(s.table, id)
    else
      && (v in s.world.versions ==> s.world.versions[v].work.None?)
      && forall id :: !Own(s.table, id, v)
  }

  ghost predicate Inv(s: System) {
    Reachable(s.world) && RC.Inv(s.table) && forall v: VersionId :: Tied(s, v)
  }

  /** Nothing about the ingestion jobs changed. */
  ghost predicate SameIngestion(t: RC.Table, t': RC.Table, v: VersionId) {
    && t.keys <= t'.keys
    && (forall id :: Own(t', id, v) <==> Own(t, id, v))
    && (forall id :: Own(t, id, v) ==> t'.jobs[id].status == t.jobs[id].status)
    && forall p :: RC.HasChild(t, p) ==> RC.HasChild(t', p)
  }

  lemma TiedKept(s: System, s': System, v: VersionId)
    requires Tied(s, v) && SameIngestion(s.table, s'.table, v)
    requires v in s.current <==> v in s'.current
    requires v in s.current ==> s'.current[v] == s.current[v]
    requires v in s.world.versions <==> v in s'.world.versions
    requires v in s.world.versions ==> SameJob(s.world.versions[v], s'.world.versions[v])
    ensures Tied(s', v)
  {
  }

  predicate SameJob(r: Version, r': Version) {
    && (r.work.Some? <==> r'.work.Some?)
    && (r.work.Some? ==> r'.work.value.job.status == r.work.value.job.status)
  }

  lemma AddedElsewhere(t: RC.Table, t': RC.Table, id: RC.JobId, row: RC.Row, key: RC.OperationKey, v: VersionId)
    requires RC.Added(t, t', id, row, key) && !(row.kind == RC.Index && row.resource == ResourceOf(v))
    ensures SameIngestion(t, t', v)
  {
    RC.AddedChildren(t, t', id, row, key);
  }

  lemma MovedElsewhere(t: RC.Table, t': RC.Table, id: RC.JobId, v: VersionId)
    requires RC.Moved(t, t', id) && !Own(t, id, v)
    ensures SameIngestion(t, t', v)
  {
    RC.MovedChildren(t, t', id);
  }

  lemma ForeignKeeps(t: RC.Table, e: RC.Event, v: VersionId)
    requires Foreign(t, e)
    ensures SameIngestion(t, RC.Apply(t, e), v)
  {
    RC.EventShape(t, e);
    var t' := RC.Apply(t, e);
    if t' != t {
      match e
      case StartRun(id, kind, resource, _) => AddedElsewhere(t, t', id, t'.jobs[id], RC.Fresh(kind, resource), v);
      case StartPlain(id, name, resource, _, _) =>
        AddedElsewhere(t, t', id, t'.jobs[id], RC.Fresh(RC.Plain(name), resource), v);
      case RetryOf(original, id) =>
        AddedElsewhere(t, t', id, t'.jobs[id], RC.Retry(original, t'.jobs[id].attempt), v);
      case Move(id, _) => MovedElsewhere(t, t', id, v);
    }
  }

  // ---------------------------------------------------------------- steps keep the jobs tied

  lemma ElsewhereInv(s: System, e: RC.Event)
    requires Inv(s) && Foreign(s.table, e)
    ensures Inv(Next(s, Elsewhere(e)))
  {
    RC.ApplyInv(s.table, e);
    forall v: VersionId ensures Tied(Next(s, Elsewhere(e)), v) {
      assert Tied(s, v);
      ElsewhereTied(s, e, v);
    }
  }

  lemma ElsewhereTied(s: System, e: RC.Event, v: VersionId)
    requires Tied(s, v) && Foreign(s.table, e)
    ensures Tied(Next(s, Elsewhere(e)), v)
  {
    ForeignKeeps(s.table, e, v);
    TiedKept(s, Next(s, Elsewhere(e)), v);
  }

  /** Starting work on `v` leaves the other versions and their jobs alone. */
  lemma StartedOthers(s: System, s': System, v: VersionId, id: RC.JobId, now: int, key: RC.OperationKey, u: VersionId)
    requires Tied(s, u) && u != v && v in s.world.versions && s' == Started(s, v, id, now, s'.table)
    requires id in s'.table.jobs && RC.Added(s.table, s'.table, id, s'.table.jobs[id], key)
    requires s'.table.jobs[id].resource == ResourceOf(v)
    ensures Tied(s', u)
  {
    AddedElsewhere(s.table, s'.table, id, s'.table.jobs[id], key, u);
    if u in s.world.versions {
      UntouchedRow(s.world, NewJob(v, now), u);
    }
    TiedKept(s, s', u);
  }

  lemma FreshTied(s: System, s': System, v: VersionId, id: RC.JobId, now: int)
    requires Tied(s, v) && v in s.world.versions && s.world.versions[v].status in Processable()
    requires s' == Started(s, v, id, now, s'.table) && id in s'.table.jobs
    requires RC.AddedFresh(s.table, s'.table, id, s'.table.jobs[id])
    requires s'.table.jobs[id].kind == RC.Index && s'.table.jobs[id].resource == ResourceOf(v)
             && s'.table.jobs[id].queued
    ensures Tied(s', v)
  {
    assert v !in s.current;
    assert s'.world.versions[v].work == Some(JP.Init(now));
    forall j ensures Own(s'.table, j, v) ==> j == id {
      assert !Own(s.table, j, v);
    }
  }

  lemma IngestInv(s: System, v: VersionId, id: RC.JobId, now: int)
    requires Inv(s)
    ensures Inv(Next(s, Ingest(v, id, now)))
  {
    var s' := Next(s, Ingest(v, id, now));
    if s' != s {
      var e := RC.StartIndex(id, ResourceOf(v), true);
      RC.ApplyInv(s.table, e);
      RC.EventShape(s.table, e);
      ReachableStep(s.world, NewJob(v, now));
      forall u: VersionId ensures Tied(s', u) {
        assert Tied(s, u);
        if u != v {
          StartedOthers(s, s', v, id, now, RC.Fresh(RC.Index, ResourceOf(v)), u);
        } else {
          FreshTied(s, s', v, id, now);
        }
      }
    }
  }

  lemma RetryTied(s: System, s': System, v: VersionId, original: RC.JobId, id: RC.JobId, now: int)
    requires Tied(s, v) && Own(s.table, original, v)
    requires v in s.world.versions && s' == Started(s, v, id, now, s'.table) && id in s'.table.jobs
    requires RC.AddedRetry(s.table, s'.table, original, id, s'.table.jobs[id])
    ensures Tied(s', v)
  {
    var row := s'.table.jobs[id];
    assert original == s.current[v];
    RC.AddedChildren(s.table, s'.table, id, row, RC.Retry(original, row.attempt));
    assert s'.world.versions[v].work == Some(JP.Init(now));
    forall j | Own(s'.table, j, v) && j != id ensures RC.HasChild(s'.table, j) {
      assert Own(s.table, j, v);
    }
  }

  lemma RetryInv(s: System, v: VersionId, original: RC.JobId, id: RC.JobId, now: int)
    requires Inv(s)
    ensures Inv(Next(s, Retry(v, original, id, now)))
  {
    var s' := Next(s, Retry(v, original, id, now));
    if s' != s {
      var e := RC.RetryOf(original, id);
      RC.ApplyInv(s.table, e);
      RC.EventShape(s.table, e);
      ReachableStep(s.world, NewJob(v, now));
      var row := s'.table.jobs[id];
      forall u: VersionId ensures Tied(s', u) {
        assert Tied(s, u);
        if u != v {
          StartedOthers(s, s', v, id, now, RC.Retry(original, row.attempt), u);
        } else {
          RetryTied(s, s', v, original, id, now);
        }
      }
    }
  }

  /** A transaction of the version moves its job as the job table allows. */
  predicate LegalMove(r: Version, r': Version) {
    && (r.work.Some? <==> r'.work.Some?)
    && (r.work.Some? ==>
          || r'.work.value.job.status == r.work.value.job.status
          || r'.work.value.job.status in Jobs.Successors(r.work.value.job.status))
  }

  lemma JobMoves(s: JP.State, e: JP.Event)
    ensures var s' := JP.Apply(s, e);
            s'.job.status == s.job.status || s'.job.status in Jobs.Successors(s.job.status)
  {
  }

  lemma WorkMoves(v: VersionId, r: Version, t: Token, action: Action)
    requires t in r.attempts
    ensures LegalMove(r, Worked(v, r, t, action))
  {
    FreeKeepsWork(v, r, t, action);
    if r.work.Some? {
      match Proposed(v, r, t, action)
      case Fenced(change, _) => JobMoves(r.work.value, JP.Publish(t, change));
      case _ => JobMoves(r.work.value, JP.HandleFailure(t, "KNOWLEDGE_PROCESSING_FAILED"));
    }
  }

  lemma RowMoves(w: World, e: Event, v: VersionId)
    requires v in w.versions && !e.NewJob?
    ensures v in Apply(w, e).versions && LegalMove(w.versions[v], Apply(w, e).versions[v])
  {
    var r := w.versions[v];
    if e.v != v {
      UntouchedRow(w, e, v);
    } else if e.Work? {
      if e.token in r.attempts {
        WorkMoves(v, r, e.token, e.action);
      }
    } else if e.JobStep? && r.work.Some? {
      JobMoves(r.work.value, e.step);
    }
  }

  lemma HappensInv(s: System, e: Event)
    requires Inv(s) && !e.NewJob?
    ensures Inv(Next(s, Happens(e)))
  {
    var s' := Next(s, Happens(e));
    ReachableStep(s.world, e);
    MirroredInv(s, e);
    forall u: VersionId ensures Tied(s', u) {
      assert Tied(s, u);
      if u == e.v {
        MovedTied(s, e);
      } else {
        OtherTied(s, e, u);
      }
    }
  }

  lemma MirroredInv(s: System, e: Event)
    requires Inv(s)
    ensures RC.Inv(Mirrored(s, Apply(s.world, e), e.v))
  {
    var w' := Apply(s.world, e);
    if e.v in s.current && e.v in w'.versions && w'.versions[e.v].work.Some? {
      RC.ApplyInv(s.table, RC.Move(s.current[e.v], w'.versions[e.v].work.value.job.status));
    }
  }

  lemma MovedTied(s: System, e: Event)
    requires Tied(s, e.v) && !e.NewJob?
    ensures Tied(Next(s, Happens(e)), e.v)
  {
    var s' := Next(s, Happens(e));
    if e.v in s.world.versions {
      RowMoves(s.world, e, e.v);
      if e.v in s.current {
        var id := s.current[e.v];
        RC.EventShape(s.table, RC.Move(id, s'.world.versions[e.v].work.value.job.status));
        if s'.table != s.table {
          RC.MovedChildren(s.table, s'.table, id);
        }
      }
    }
  }

  lemma OtherTied(s: System, e: Event, u: VersionId)
    requires Tied(s, u) && Tied(s, e.v) && !e.NewJob? && u != e.v
    ensures Tied(Next(s, Happens(e)), u)
  {
    var s' := Next(s, Happens(e));
    if s'.table != s.table {
      var id := s.current[e.v];
      RC.EventShape(s.table, RC.Move(id, s'.world.versions[e.v].work.value.job.status));
      MovedElsewhere(s.table, s'.table, id, u);
    }
    if u in s.world.versions {
      UntouchedRow(s.world, e, u);
    }
    TiedKept(s, s', u);
  }

  lemma NextInv(s: System, step: Step)
    requires Inv(s)
    ensures Inv(Next(s, step))
  {
    match step
    case Ingest(v, id, now) => IngestInv(s, v, id, now);
    case Retry(v, original, id, now) => RetryInv(s, v, original, id, now);
    case Elsewhere(job) =>
      if Foreign(s.table, job) {
        ElsewhereInv(s, job);
      }
    case Happens(e) =>
      if !e.NewJob? {
        HappensInv(s, e);
      }
  }

  /** Over any run of the endpoints, the workers and the queue, every version's jobs are one chain
      of the job table whose end is the job that works on the version. */
  lemma {:induction false} StepsInv(s: System, steps: seq<Step>)
    requires Inv(s)
    ensures Inv(Steps(s, steps))
    decreases |steps|
  {
    if steps != [] {
      NextInv(s, steps[0]);
      StepsInv(Next(s, steps[0]), steps[1..]);
    }
  }

  lemma NothingInv()
    ensures Inv(NOTHING)
  {
    assert Run(EMPTY, []) == EMPTY;
  }

  // ---------------------------------------------------------------- corrected after success

  /** The version demands a cleanup, and its last job has succeeded. */
  predicate Stranded(s: System, v: VersionId) {
    && v in s.world.versions && s.world.versions[v].index.cleanup
    && s.world.versions[v].work.Some? && s.world.versions[v].work.value.job.status == Jobs.Succeeded
  }

  /** No start and no retry of the version is accepted any more. */
  lemma StrandedRefuses(s: System, v: VersionId, original: RC.JobId, id: RC.JobId, now: int)
    requires Tied(s, v) && Stranded(s, v)
    ensures Next(s, Ingest(v, id, now)) == s && Next(s, Retry(v, original, id, now)) == s
  {
    RC.EventShape(s.table, RC.StartIndex(id, ResourceOf(v), true));
    RC.EventShape(s.table, RC.RetryOf(original, id));
  }

  lemma StrandedStep(s: System, step: Step, v: VersionId)
    requires Tied(s, v) && Stranded(s, v)
    ensures Stranded(Next(s, step), v)
  {
    match step
    case Ingest(u, id, now) =>
      if u == v {
        StrandedRefuses(s, v, id, id, now);
      } else {
        UntouchedRow(s.world, NewJob(u, now), v);
      }
    case Retry(u, original, id, now) =>
      if u == v {
        StrandedRefuses(s, v, original, id, now);
      } else {
        UntouchedRow(s.world, NewJob(u, now), v);
      }
    case Elsewhere(_) =>
    case Happens(e) =>
      if !e.NewJob? {
        StrandedRow(s.world, e, v);
      }
  }

  lemma StrandedRow(w: World, e: Event, v: VersionId)
    requires v in w.versions && !e.NewJob? && w.versions[v].index.cleanup
    requires w.versions[v].work.Some? && w.versions[v].work.value.job.status == Jobs.Succeeded
    ensures var w' := Apply(w, e);
            && v in w'.versions && w'.versions[v].index.cleanup
            && w'.versions[v].work.Some? && w'.versions[v].work.value.job.status == Jobs.Succeeded
  {
    var r := w.versions[v];
    RowMoves(w, e, v);
    if e.v != v {
      UntouchedRow(w, e, v);
    } else if e.Work? {
      if e.token in r.attempts {
        IdleWork(v, r, e.token, e.action);
      }
    } else if e.JobStep? && Outside(r, e.step) {
      IdleStep(r, e.step);
    }
  }

  lemma {:induction false} StrandedForever(s: System, steps: seq<Step>, v: VersionId)
    requires Inv(s) && Stranded(s, v)
    ensures Inv(Steps(s, steps)) && Stranded(Steps(s, steps), v)
    decreases |steps|
  {
    if steps != [] {
      NextInv(s, steps[0]);
      assert Tied(s, v);
      StrandedStep(s, steps[0], v);
      StrandedForever(Next(s, steps[0]), steps[1..], v);
    }
  }

  /** Once a version's ingestion has succeeded and its artifact is corrected, no run of queued starts
      and retries ever brings it to review again, let alone to its readers. */
  lemma {:induction false} CorrectedNeverPublishes(first: seq<Step>, correction: Event, more: seq<Step>)
    requires correction.Correct? && correction.v in Steps(NOTHING, first).world.versions
    requires var r := Steps(NOTHING, first).world.versions[correction.v];
             && r.work.Some? && r.work.value.job.status == Jobs.Succeeded
             && Accepted(r, correction.corrections, correction.blocks)
    ensures var s := Steps(Next(Steps(NOTHING, first), Happens(correction)), more);
            && correction.v in s.world.versions
            && s.world.versions[correction.v].index.cleanup
            && !Settled(s.world.versions[correction.v].status)
  {
    var v := correction.v;
    var s0 := Steps(NOTHING, first);
    NothingInv();
    StepsInv(NOTHING, first);
    NextInv(s0, Happens(correction));
    StrandedForever(Next(s0, Happens(correction)), more, v);
    NotSettled(Steps(Next(s0, Happens(correction)), more).world, v);
  }

  lemma NotSettled(w: World, v: VersionId)
    requires Reachable(w) && v in w.versions && w.versions[v].index.cleanup
    ensures !Settled(w.versions[v].status)
  {
    ReachableInv(w);
    assert RowInv(v, w.versions[v]);
  }
}
