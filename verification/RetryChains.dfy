/** The job table: creation, retries, the outbox keys they reserve, and the runs bound to them. */
module RetryChains {
  import opened Common
  import opened Jobs

  type JobId = nat

  datatype Kind = Index | Answer | Evaluate | Plain(name: string)

  datatype Resource = Resource(kind: string, id: nat)

  /** `handled` marks a snapshot that names a retry handler, `routed` one with a task and queue
      (or a legacy route). `queued` records whether an outbox row was written with the job. */
  datatype Row = Row(kind: Kind, resource: Resource, status: Status, attempt: nat, parent: Option<JobId>,
                     handled: bool, routed: bool, queued: bool)

  /** The unique key of an outbox row: by resource and attempt 1 for a fresh job, by parent for a retry. */
  datatype OperationKey = Fresh(kind: Kind, resource: Resource) | Retry(parent: JobId, attempt: nat)

  /** `runs` holds the `job_id` of every answer run and evaluation. */
  datatype Table = Table(jobs: map<JobId, Row>, keys: set<OperationKey>, runs: map<Resource, JobId>)

  datatype ChainError = ActiveJobExists | DuplicateOperation | UnknownJob | AlreadyRetried | HandlerRequired
                      | NotRetryable | NoRoute | NotCurrentExecution

  predicate Active(s: Status) {
    s == Queued || s == Running
  }

  predicate ActiveOn(row: Row, kind: Kind, resource: Resource) {
    row.kind == kind && row.resource == resource && Active(row.status)
  }

  predicate HasActive(t: Table, kind: Kind, resource: Resource) {
    exists id :: id in t.jobs && ActiveOn(t.jobs[id], kind, resource)
  }

  predicate HasChild(t: Table, id: JobId) {
    exists c :: c in t.jobs && t.jobs[c].parent == Some(id)
  }

  /** Insert a queued row under the unique index on active jobs and the unique outbox key. */
  function Inserted(t: Table, id: JobId, row: Row, key: OperationKey): Result<Table, ChainError> {
    if HasActive(t, row.kind, row.resource) then Err(ActiveJobExists)
    else if row.queued && key in t.keys then Err(DuplicateOperation)
    else Ok(t.(jobs := t.jobs[id := row], keys := if row.queued then t.keys + {key} else t.keys))
  }

  function Created(t: Table, id: JobId, kind: Kind, resource: Resource, handled: bool, routed: bool, queued: bool)
    : Result<Table, ChainError>
  {
    Inserted(t, id, Row(kind, resource, Queued, 1, None, handled, routed, queued), Fresh(kind, resource))
  }

  predicate HasHandler(kind: Kind) {
    !kind.Plain?
  }

  /** `bind_retry`: only the current execution of a run or evaluation may be retried. */
  function Bound(t: Table, original: JobId, retried: JobId): Result<Table, ChainError>
    requires original in t.jobs
  {
    var row := t.jobs[original];
    if row.kind != Answer && row.kind != Evaluate then Ok(t)
    else if row.resource !in t.runs || t.runs[row.resource] != original then Err(NotCurrentExecution)
    else Ok(t.(runs := t.runs[row.resource := retried]))
  }

  function Retried(t: Table, original: JobId, id: JobId): Result<Table, ChainError> {
    if original !in t.jobs then Err(UnknownJob)
    else
      var row := t.jobs[original];
      if HasChild(t, original) then Err(AlreadyRetried)
      else if row.handled && !HasHandler(row.kind) then Err(HandlerRequired)
      else if row.status != Failed && row.status != Cancelled then Err(NotRetryable)
      else if !row.routed then Err(NoRoute)
      else
        var child := Row(row.kind, row.resource, Queued, row.attempt + 1, Some(original), row.handled, true, true);
        match Inserted(t, id, child, Retry(original, row.attempt + 1))
        case Err(e) => Err(e)
        case Ok(t') => Bound(t', original, id)
  }

  /** The table as the endpoints change it, one transaction per method. */
  class JobStore {
    var jobs: map<JobId, Row>
    var keys: set<OperationKey>
    var runs: map<Resource, JobId>

    ghost function View(): Table
      reads this
    {
      Table(jobs, keys, runs)
    }

    constructor ()
      ensures View() == Table(map[], {}, map[])
    {
      jobs, keys, runs := map[], {}, map[];
    }

    /** `create_job`: reuse an active job of the same type and resource, or insert a new one. */
    method CreateJob(id: JobId, kind: Kind, resource: Resource, handled: bool, routed: bool, enqueue: bool, reuse: bool)
      returns (r: Result<JobId, ChainError>)
      requires id !in jobs
      modifies this
      ensures reuse && HasActive(old(View()), kind, resource) ==>
                View() == old(View()) && r.Ok? && r.value in jobs && ActiveOn(jobs[r.value], kind, resource)
      ensures !(reuse && HasActive(old(View()), kind, resource)) ==>
                match Created(old(View()), id, kind, resource, handled, routed, enqueue)
                case Ok(t) => r == Ok(id) && View() == t
                case Err(e) => r == Err(e) && View() == old(View())
    {
      if active: JobId :| active in jobs && ActiveOn(jobs[active], kind, resource) {
        if reuse {
          return Ok(active);
        }
        return Err(ActiveJobExists);
      }
      var key := Fresh(kind, resource);
      if enqueue && key in keys {
        return Err(DuplicateOperation);
      }
      jobs := jobs[id := Row(kind, resource, Queued, 1, None, handled, routed, enqueue)];
      if enqueue {
        keys := keys + {key};
      }
      return Ok(id);
    }

    /** `retry_job` with the business binding of the knowledge modules, in one transaction. */
    method RetryJob(original: JobId, id: JobId) returns (r: Result<JobId, ChainError>)
      requires id !in jobs
      modifies this
      ensures match Retried(old(View()), original, id)
              case Ok(t) => r == Ok(id) && View() == t
              case Err(e) => r == Err(e) && View() == old(View())
    {
      if original !in jobs {
        return Err(UnknownJob);
      }
      var row := jobs[original];
      if exists c :: c in jobs && jobs[c].parent == Some(original) {
        return Err(AlreadyRetried);
      }
      if row.handled && !HasHandler(row.kind) {
        return Err(HandlerRequired);
      }
      if row.status != Failed && row.status != Cancelled {
        return Err(NotRetryable);
      }
      if !row.routed {
        return Err(NoRoute);
      }
      if exists a :: a in jobs && ActiveOn(jobs[a], row.kind, row.resource) {
        return Err(ActiveJobExists);
      }
      var key := Retry(original, row.attempt + 1);
      if key in keys {
        return Err(DuplicateOperation);
      }
      if row.kind == Answer || row.kind == Evaluate {
        if row.resource !in runs || runs[row.resource] != original {
          return Err(NotCurrentExecution);
        }
        runs := runs[row.resource := id];
      }
      jobs := jobs[id := Row(row.kind, row.resource, Queued, row.attempt + 1, Some(original), row.handled, true, true)];
      keys := keys + {key};
      return Ok(id);
    }
  }

  // ---------------------------------------------------------------- runs of the table

  datatype Event =
    | StartIndex(id: JobId, resource: Resource, enqueue: bool)
    | StartRun(id: JobId, kind: Kind, resource: Resource, enqueue: bool)      // a new run or evaluation
    | StartPlain(id: JobId, name: string, resource: Resource, routed: bool, enqueue: bool)
    | RetryOf(original: JobId, id: JobId)
    | Move(id: JobId, status: Status)                                         // any legal status change

  function OrSame(t: Table, r: Result<Table, ChainError>): Table {
    match r
    case Ok(t') => t'
    case Err(_) => t
  }

  /** New job ids and new runs are fresh; a refused transaction changes nothing. */
  function Apply(t: Table, e: Event): Table {
    match e
    case StartIndex(id, resource, enqueue) =>
      if id in t.jobs then t else OrSame(t, Created(t, id, Index, resource, true, true, enqueue))
    case StartRun(id, kind, resource, enqueue) =>
      if id in t.jobs || (kind != Answer && kind != Evaluate) || resource in t.runs then t
      else
        (match Created(t, id, kind, resource, true, true, enqueue)
         case Ok(t') => t'.(runs := t'.runs[resource := id])
         case Err(_) => t)
    case StartPlain(id, name, resource, routed, enqueue) =>
      if id in t.jobs then t else OrSame(t, Created(t, id, Plain(name), resource, false, routed, enqueue))
    case RetryOf(original, id) =>
      if id in t.jobs then t else OrSame(t, Retried(t, original, id))
    case Move(id, status) =>
      if id in t.jobs && status in Successors(t.jobs[id].status)
      then t.(jobs := t.jobs[id := t.jobs[id].(status := status)]) else t
  }

  function Run(t: Table, events: seq<Event>): Table
    decreases |events|
  {
    if events == [] then t else Run(Apply(t, events[0]), events[1..])
  }

  const EMPTY := Table(map[], {}, map[])

  // ---------------------------------------------------------------- invariant

  /** A retry continues its parent: same work, one attempt later, after a failure or a cancel. */
  ghost predicate Continues(t: Table, id: JobId)
    requires id in t.jobs
  {
    var row := t.jobs[id];
    match row.parent
    case None => row.attempt == 1
    case Some(p) =>
      && p in t.jobs
      && row.attempt == t.jobs[p].attempt + 1
      && row.kind == t.jobs[p].kind && row.resource == t.jobs[p].resource
      && (t.jobs[p].status == Failed || t.jobs[p].status == Cancelled)
  }

  ghost predicate Linear(t: Table) {
    && (forall id :: id in t.jobs ==> t.jobs[id].attempt >= 1 && Continues(t, id))
    && (forall a, b ::
          a in t.jobs && b in t.jobs && t.jobs[a].parent.Some? && t.jobs[a].parent == t.jobs[b].parent ==> a == b)
  }

  ghost predicate OneActive(t: Table) {
    forall a, b :: a in t.jobs && b in t.jobs && a != b && Active(t.jobs[a].status) ==>
      !ActiveOn(t.jobs[b], t.jobs[a].kind, t.jobs[a].resource)
  }

  predicate QueuedFresh(row: Row) {
    row.parent == None && row.queued
  }

  predicate SameWork(a: Row, b: Row) {
    a.kind == b.kind && a.resource == b.resource
  }

  /** Every key is held by a job: a fresh key by a queued top-level job, a retry key by a child. */
  ghost predicate KeysHeld(t: Table) {
    && (forall id :: id in t.jobs && QueuedFresh(t.jobs[id]) ==>
          Fresh(t.jobs[id].kind, t.jobs[id].resource) in t.keys)
    && (forall p, n :: Retry(p, n) in t.keys ==> HasChild(t, p))
    && (forall a, b ::
          && a in t.jobs && b in t.jobs && QueuedFresh(t.jobs[a]) && QueuedFresh(t.jobs[b])
          && SameWork(t.jobs[a], t.jobs[b]) ==>
            a == b)
  }

  predicate BusinessRun(kind: Kind) {
    kind == Answer || kind == Evaluate
  }

  /** A run points at a job of its own that nobody retried, and every other job of the run was retried. */
  ghost predicate RunsBound(t: Table) {
    && (forall r :: r in t.runs ==>
          && t.runs[r] in t.jobs && t.jobs[t.runs[r]].resource == r && BusinessRun(t.jobs[t.runs[r]].kind)
          && !HasChild(t, t.runs[r]))
    && (forall id :: id in t.jobs && BusinessRun(t.jobs[id].kind) ==>
          t.jobs[id].resource in t.runs && (id == t.runs[t.jobs[id].resource] || HasChild(t, id)))
  }

  ghost predicate Inv(t: Table) {
    Linear(t) && OneActive(t) && KeysHeld(t) && RunsBound(t)
  }

  lemma ChildrenKept(t: Table, t': Table)
    requires forall id :: id in t.jobs ==> id in t'.jobs && t'.jobs[id].parent == t.jobs[id].parent
    ensures forall p: JobId :: HasChild(t, p) ==> HasChild(t', p)
  {
    forall p: JobId | HasChild(t, p) ensures HasChild(t', p) {
      var c :| c in t.jobs && t.jobs[c].parent == Some(p);
      assert c in t'.jobs;
    }
  }

  lemma NoChildOfFreshId(t: Table, id: JobId)
    requires Linear(t) && id !in t.jobs
    ensures !HasChild(t, id)
  {
    forall c | c in t.jobs ensures t.jobs[c].parent != Some(id) {
      assert Continues(t, c);
    }
  }

  /** One queued row was inserted, under both unique indexes; the binding of runs is left open. */
  ghost predicate Added(t: Table, t': Table, id: JobId, row: Row, key: OperationKey) {
    && id !in t.jobs && row.status == Queued && row.attempt >= 1
    && t'.jobs == t.jobs[id := row]
    && !HasActive(t, row.kind, row.resource)
    && (row.queued ==> key !in t.keys)
    && t'.keys == if row.queued then t.keys + {key} else t.keys
  }

  ghost predicate AddedFresh(t: Table, t': Table, id: JobId, row: Row) {
    Added(t, t', id, row, Fresh(row.kind, row.resource)) && row.attempt == 1 && row.parent == None
  }

  ghost predicate AddedRetry(t: Table, t': Table, original: JobId, id: JobId, row: Row) {
    && original in t.jobs && !HasChild(t, original)
    && (t.jobs[original].status == Failed || t.jobs[original].status == Cancelled)
    && Added(t, t', id, row, Retry(original, row.attempt))
    && row.attempt == t.jobs[original].attempt + 1 && row.parent == Some(original) && SameWork(row, t.jobs[original])
  }

  lemma AddedChildren(t: Table, t': Table, id: JobId, row: Row, key: OperationKey)
    requires Added(t, t', id, row, key)
    ensures forall p: JobId :: HasChild(t', p) <==> HasChild(t, p) || row.parent == Some(p)
  {
    ChildrenKept(t, t');
    forall p: JobId ensures HasChild(t', p) <==> HasChild(t, p) || row.parent == Some(p) {
      if HasChild(t', p) {
        var c :| c in t'.jobs && t'.jobs[c].parent == Some(p);
        assert c != id ==> c in t.jobs;
      }
      assert id in t'.jobs && t'.jobs[id] == row;
    }
  }

  lemma AddedOneActive(t: Table, t': Table, id: JobId, row: Row, key: OperationKey)
    requires OneActive(t) && Added(t, t', id, row, key)
    ensures OneActive(t')
  {
    forall a, b | a in t'.jobs && b in t'.jobs && a != b && Active(t'.jobs[a].status)
      ensures !ActiveOn(t'.jobs[b], t'.jobs[a].kind, t'.jobs[a].resource)
    {
      if a != id && b != id {
        assert Active(t.jobs[a].status);
      }
    }
  }

  lemma AddedFreshLinear(t: Table, t': Table, id: JobId, row: Row)
    requires Linear(t) && AddedFresh(t, t', id, row)
    ensures Linear(t')
  {
    forall j | j in t'.jobs ensures t'.jobs[j].attempt >= 1 && Continues(t', j) {
      if j != id {
        assert Continues(t, j);
      }
    }
  }

  lemma AddedFreshKeys(t: Table, t': Table, id: JobId, row: Row)
    requires KeysHeld(t) && AddedFresh(t, t', id, row)
    ensures KeysHeld(t')
  {
    ChildrenKept(t, t');
    forall a, b | a in t'.jobs && b in t'.jobs && QueuedFresh(t'.jobs[a]) && QueuedFresh(t'.jobs[b])
      && SameWork(t'.jobs[a], t'.jobs[b])
      ensures a == b
    {
      if a != id {
        assert Fresh(t.jobs[a].kind, t.jobs[a].resource) in t.keys;
      }
      if b != id {
        assert Fresh(t.jobs[b].kind, t.jobs[b].resource) in t.keys;
      }
    }
  }

  lemma AddedRetryLinear(t: Table, t': Table, original: JobId, id: JobId, row: Row)
    requires Linear(t) && AddedRetry(t, t', original, id, row)
    ensures Linear(t')
  {
    forall j | j in t'.jobs ensures t'.jobs[j].attempt >= 1 && Continues(t', j) {
      if j != id {
        assert Continues(t, j);
      }
    }
    assert forall c :: c in t.jobs ==> t.jobs[c].parent != Some(original);
  }

  lemma AddedRetryKeys(t: Table, t': Table, original: JobId, id: JobId, row: Row)
    requires KeysHeld(t) && AddedRetry(t, t', original, id, row)
    ensures KeysHeld(t')
  {
    AddedChildren(t, t', id, row, Retry(original, row.attempt));
    forall p, n | Retry(p, n) in t'.keys ensures HasChild(t', p) {
      if Retry(p, n) in t.keys {
        assert HasChild(t, p);
      }
    }
  }

  lemma UnboundRuns(t: Table, t': Table, id: JobId, row: Row, key: OperationKey)
    requires RunsBound(t) && Added(t, t', id, row, key) && !BusinessRun(row.kind) && t'.runs == t.runs
    requires row.parent.Some? ==> row.parent.value in t.jobs && !BusinessRun(t.jobs[row.parent.value].kind)
    ensures RunsBound(t')
  {
    AddedChildren(t, t', id, row, key);
  }

  lemma BoundRuns(t: Table, t': Table, id: JobId, row: Row, key: OperationKey)
    requires RunsBound(t) && Linear(t) && Added(t, t', id, row, key) && BusinessRun(row.kind)
    requires t'.runs == t.runs[row.resource := id]
    requires row.parent == if row.resource in t.runs then Some(t.runs[row.resource]) else None
    ensures RunsBound(t')
  {
    AddedChildren(t, t', id, row, key);
    NoChildOfFreshId(t, id);
    forall j | j in t'.jobs && BusinessRun(t'.jobs[j].kind)
      ensures t'.jobs[j].resource in t'.runs && (j == t'.runs[t'.jobs[j].resource] || HasChild(t', j))
    {
      if j != id {
        assert t.jobs[j].resource in t.runs;
      }
    }
  }

  lemma FreshInv(t: Table, t': Table, id: JobId, row: Row)
    requires Inv(t) && AddedFresh(t, t', id, row)
    requires if BusinessRun(row.kind) then row.resource !in t.runs && t'.runs == t.runs[row.resource := id]
             else t'.runs == t.runs
    ensures Inv(t')
  {
    AddedOneActive(t, t', id, row, Fresh(row.kind, row.resource));
    AddedFreshLinear(t, t', id, row);
    AddedFreshKeys(t, t', id, row);
    if BusinessRun(row.kind) {
      BoundRuns(t, t', id, row, Fresh(row.kind, row.resource));
    } else {
      UnboundRuns(t, t', id, row, Fresh(row.kind, row.resource));
    }
  }

  lemma RetriedInv(t: Table, t': Table, original: JobId, id: JobId, row: Row)
    requires Inv(t) && AddedRetry(t, t', original, id, row)
    requires if BusinessRun(row.kind)
             then row.resource in t.runs && t.runs[row.resource] == original && t'.runs == t.runs[row.resource := id]
             else t'.runs == t.runs
    ensures Inv(t')
  {
    AddedOneActive(t, t', id, row, Retry(original, row.attempt));
    AddedRetryLinear(t, t', original, id, row);
    AddedRetryKeys(t, t', original, id, row);
    if BusinessRun(row.kind) {
      BoundRuns(t, t', id, row, Retry(original, row.attempt));
    } else {
      UnboundRuns(t, t', id, row, Retry(original, row.attempt));
    }
  }

  /** One job took a legal status change. */
  ghost predicate Moved(t: Table, t': Table, id: JobId) {
    && id in t.jobs && id in t'.jobs
    && t'.jobs[id].status in Successors(t.jobs[id].status)
    && t'.jobs == t.jobs[id := t.jobs[id].(status := t'.jobs[id].status)]
    && t'.keys == t.keys && t'.runs == t.runs
  }

  lemma MovedChildren(t: Table, t': Table, id: JobId)
    requires Moved(t, t', id)
    ensures forall p: JobId :: HasChild(t', p) <==> HasChild(t, p)
  {
    ChildrenKept(t, t');
    ChildrenKept(t', t);
  }

  lemma MovedInv(t: Table, t': Table, id: JobId)
    requires Inv(t) && Moved(t, t', id)
    ensures Inv(t')
  {
    MovedLinear(t, t', id);
    MovedOneActive(t, t', id);
    MovedKeysAndRuns(t, t', id);
  }

  lemma MovedLinear(t: Table, t': Table, id: JobId)
    requires Linear(t) && Moved(t, t', id)
    ensures Linear(t')
  {
    forall j | j in t'.jobs ensures t'.jobs[j].attempt >= 1 && Continues(t', j) {
      assert Continues(t, j);
    }
  }

  lemma MovedOneActive(t: Table, t': Table, id: JobId)
    requires OneActive(t) && Moved(t, t', id)
    ensures OneActive(t')
  {
    forall a, b | a in t'.jobs && b in t'.jobs && a != b && Active(t'.jobs[a].status)
      ensures !ActiveOn(t'.jobs[b], t'.jobs[a].kind, t'.jobs[a].resource)
    {
      assert Active(t.jobs[a].status) && !ActiveOn(t.jobs[b], t.jobs[a].kind, t.jobs[a].resource);
    }
  }

  lemma MovedKeysAndRuns(t: Table, t': Table, id: JobId)
    requires KeysHeld(t) && RunsBound(t) && Moved(t, t', id)
    ensures KeysHeld(t') && RunsBound(t')
  {
    MovedChildren(t, t', id);
    assert forall j :: j in t.jobs ==> j in t'.jobs && t'.jobs[j] == t.jobs[j].(status := t'.jobs[j].status);
  }

  /** Every event leaves the table alone, inserts one job, or moves one status. */
  lemma EventShape(t: Table, e: Event)
    ensures var t' := Apply(t, e);
            || t' == t
            || (match e
                case StartIndex(id, resource, queued) =>
                  AddedFresh(t, t', id, Row(Index, resource, Queued, 1, None, true, true, queued)) && t'.runs == t.runs
                case StartRun(id, kind, resource, queued) =>
                  && AddedFresh(t, t', id, Row(kind, resource, Queued, 1, None, true, true, queued))
                  && BusinessRun(kind) && resource !in t.runs && t'.runs == t.runs[resource := id]
                case StartPlain(id, name, resource, routed, queued) =>
                  AddedFresh(t, t', id, Row(Plain(name), resource, Queued, 1, None, false, routed, queued))
                    && t'.runs == t.runs
                case RetryOf(original, id) =>
                  && id in t'.jobs && AddedRetry(t, t', original, id, t'.jobs[id]) && t'.jobs[id].queued
                  && var row := t'.jobs[id];
                  if BusinessRun(row.kind)
                  then row.resource in t.runs && t.runs[row.resource] == original
                    && t'.runs == t.runs[row.resource := id]
                  else t'.runs == t.runs
                case Move(id, _) => Moved(t, t', id))
  {
  }

  lemma ApplyInv(t: Table, e: Event)
    requires Inv(t)
    ensures Inv(Apply(t, e))
  {
    EventShape(t, e);
    var t' := Apply(t, e);
    if t' != t {
      match e
      case StartIndex(id, resource, queued) => FreshInv(t, t', id, t'.jobs[id]);
      case StartRun(id, kind, resource, queued) => FreshInv(t, t', id, t'.jobs[id]);
      case StartPlain(id, name, resource, routed, queued) => FreshInv(t, t', id, t'.jobs[id]);
      case RetryOf(original, id) => RetriedInv(t, t', original, id, t'.jobs[id]);
      case Move(id, status) => MovedInv(t, t', id);
    }
  }

  /** Over any run of the table the retry chains are linear, at most one job per type and resource
      is active, and every run points at the childless end of its chain. */
  lemma {:induction false} RunInv(t: Table, events: seq<Event>)
    requires Inv(t)
    ensures Inv(Run(t, events))
    decreases |events|
  {
    if events != [] {
      ApplyInv(t, events[0]);
      RunInv(Apply(t, events[0]), events[1..]);
    }
  }

  // ---------------------------------------------------------------- chains

  /** A job and its ancestors, the job first. */
  ghost function Chain(t: Table, id: JobId): seq<JobId>
    requires Linear(t) && id in t.jobs
    decreases t.jobs[id].attempt
  {
    assert Continues(t, id);
    match t.jobs[id].parent
    case None => [id]
    case Some(p) => [id] + Chain(t, p)
  }

  /** The ids count down from this attempt, and all but the first ended without success. */
  ghost predicate CountsDown(t: Table, ids: seq<JobId>, attempt: nat) {
    && |ids| == attempt
    && (forall k :: 0 <= k < |ids| ==> ids[k] in t.jobs && t.jobs[ids[k]].attempt == attempt - k)
    && (forall k :: 1 <= k < |ids| ==> t.jobs[ids[k]].status in {Failed, Cancelled})
  }

  lemma CountsOneMore(t: Table, id: JobId, rest: seq<JobId>, attempt: nat)
    requires CountsDown(t, rest, attempt) && rest != [] && t.jobs[rest[0]].status in {Failed, Cancelled}
    requires id in t.jobs && t.jobs[id].attempt == attempt + 1
    ensures CountsDown(t, [id] + rest, attempt + 1)
  {
    var ids := [id] + rest;
    assert forall k :: 1 <= k < |ids| ==> ids[k] == rest[k - 1];
  }

  /** The attempt number is one plus the number of ancestors; all of them ended without success,
      and no job is its own ancestor. */
  lemma {:induction false} AttemptCountsChain(t: Table, id: JobId)
    requires Linear(t) && id in t.jobs
    ensures CountsDown(t, Chain(t, id), t.jobs[id].attempt) && Distinct(Chain(t, id))
    decreases t.jobs[id].attempt
  {
    assert Continues(t, id);
    if t.jobs[id].parent.Some? {
      var p := t.jobs[id].parent.value;
      AttemptCountsChain(t, p);
      assert Chain(t, p)[0] == p;
      CountsOneMore(t, id, Chain(t, p), t.jobs[p].attempt);
    }
  }

  lemma {:induction false} AncestorWork(t: Table, id: JobId)
    requires Linear(t) && id in t.jobs
    ensures forall j :: j in Chain(t, id) ==> j in t.jobs && SameWork(t.jobs[j], t.jobs[id])
    decreases t.jobs[id].attempt
  {
    assert Continues(t, id);
    if t.jobs[id].parent.Some? {
      AncestorWork(t, t.jobs[id].parent.value);
    }
  }

  /** The chain from a run's current job is exactly the set of jobs ever started for the run. */
  lemma {:induction false} RunChainExact(t: Table, resource: Resource)
    requires Inv(t) && resource in t.runs
    ensures forall id :: id in Chain(t, t.runs[resource]) <==>
                         id in t.jobs && BusinessRun(t.jobs[id].kind) && t.jobs[id].resource == resource
  {
    AncestorWork(t, t.runs[resource]);
    forall id | id in t.jobs && BusinessRun(t.jobs[id].kind) && t.jobs[id].resource == resource
      ensures id in Chain(t, t.runs[resource])
    {
      RunChainComplete(t, resource, id);
    }
  }

  /** Every job ever started for a run is in the chain from its current job. */
  lemma {:induction false} RunChainComplete(t: Table, resource: Resource, id: JobId)
    requires Inv(t) && resource in t.runs
    requires id in t.jobs && BusinessRun(t.jobs[id].kind) && t.jobs[id].resource == resource
    ensures id in Chain(t, t.runs[resource])
    decreases MaxAttempt(t) - t.jobs[id].attempt
  {
    MaxAttemptBound(t, id);
    if id != t.runs[resource] {
      var c :| c in t.jobs && t.jobs[c].parent == Some(id);
      assert Continues(t, c);
      MaxAttemptBound(t, c);
      RunChainComplete(t, resource, c);
      ChainClosed(t, t.runs[resource], c);
    }
  }

  lemma {:induction false} ChainClosed(t: Table, id: JobId, j: JobId)
    requires Linear(t) && id in t.jobs && j in Chain(t, id) && j in t.jobs && t.jobs[j].parent.Some?
    ensures t.jobs[j].parent.value in Chain(t, id)
    decreases t.jobs[id].attempt
  {
    assert Continues(t, id);
    if j != id {
      ChainClosed(t, t.jobs[id].parent.value, j);
    } else {
      var p := t.jobs[id].parent.value;
      assert p == Chain(t, p)[0];
    }
  }

  ghost function MaxAttempt(t: Table): nat {
    MaxOver(t.jobs.Keys, t.jobs)
  }

  ghost function MaxOver(ids: set<JobId>, jobs: map<JobId, Row>): (m: nat)
    requires ids <= jobs.Keys
    ensures forall id :: id in ids ==> jobs[id].attempt <= m
  {
    if ids == {} then 0
    else
      var id :| id in ids;
      var rest := MaxOver(ids - {id}, jobs);
      if jobs[id].attempt > rest then jobs[id].attempt else rest
  }

  lemma MaxAttemptBound(t: Table, id: JobId)
    requires id in t.jobs
    ensures t.jobs[id].attempt <= MaxAttempt(t)
  {
  }

  // ---------------------------------------------------------------- what a retry needs, and what it makes

  /** A job of this kind waits or runs on the resource. */
  ghost predicate Busy(t: Table, kind: Kind, resource: Resource) {
    exists j :: j in t.jobs && t.jobs[j].kind == kind && t.jobs[j].resource == resource
                && t.jobs[j].status in {Queued, Running}
  }

  lemma BusyExact(t: Table, kind: Kind, resource: Resource)
    ensures HasActive(t, kind, resource) <==> Busy(t, kind, resource)
  {
    if j :| j in t.jobs && ActiveOn(t.jobs[j], kind, resource) {
      assert t.jobs[j].status in {Queued, Running};
    }
    if j :| j in t.jobs && t.jobs[j].kind == kind && t.jobs[j].resource == resource
            && t.jobs[j].status in {Queued, Running} {
      assert ActiveOn(t.jobs[j], kind, resource);
    }
  }

  ghost predicate Retryable(t: Table, original: JobId)
    requires original in t.jobs
  {
    var row := t.jobs[original];
    && row.status in {Failed, Cancelled} && row.routed
    && (row.handled ==> row.kind in {Index, Answer, Evaluate})
    && Childless(t, original)
    && !Busy(t, row.kind, row.resource)
  }

  /** A job is retried exactly when it failed or was cancelled, has a route and, if its snapshot asks
      for one, a handler, nobody retried it before, and nothing is active on its resource: the key of
      the retry is then free and a run still points at the job. The retry repeats its work one attempt
      later, as its child, and takes over its run. */
  lemma {:induction false} RetryExact(events: seq<Event>, original: JobId, id: JobId)
    requires original in Run(EMPTY, events).jobs && id !in Run(EMPTY, events).jobs
    ensures var t := Run(EMPTY, events); var row := t.jobs[original]; var t' := Apply(t, RetryOf(original, id));
            if Retryable(t, original)
            then && t'.jobs == t.jobs[id := Row(row.kind, row.resource, Queued, row.attempt + 1, Some(original),
                                                row.handled, true, true)]
                 && t'.keys == t.keys + {Retry(original, row.attempt + 1)}
                 && t'.runs == if row.kind in {Answer, Evaluate} then t.runs[row.resource := id] else t.runs
            else t' == t
  {
    var t := Run(EMPTY, events);
    FreeInRun(events, original, t.jobs[original].attempt + 1);
    RetriedExact(t, original, id);
  }

  lemma {:induction false} FreeInRun(events: seq<Event>, original: JobId, attempt: nat)
    requires original in Run(EMPTY, events).jobs
    ensures var t := Run(EMPTY, events);
            && (Retry(original, attempt) in t.keys ==> !Childless(t, original))
            && (Childless(t, original) && t.jobs[original].kind in {Answer, Evaluate} ==>
                  t.jobs[original].resource in t.runs && t.runs[t.jobs[original].resource] == original)
  {
    RunInv(EMPTY, events);
    NothingInTheWay(Run(EMPTY, events), original, attempt);
  }

  ghost predicate Childless(t: Table, id: JobId) {
    forall c :: c in t.jobs ==> t.jobs[c].parent != Some(id)
  }

  lemma NothingInTheWay(t: Table, original: JobId, attempt: nat)
    requires Inv(t) && original in t.jobs
    ensures Retry(original, attempt) in t.keys ==> !Childless(t, original)
    ensures Childless(t, original) && t.jobs[original].kind in {Answer, Evaluate} ==>
              t.jobs[original].resource in t.runs && t.runs[t.jobs[original].resource] == original
  {
  }

  lemma RetriedExact(t: Table, original: JobId, id: JobId)
    requires original in t.jobs && id !in t.jobs
    requires Retry(original, t.jobs[original].attempt + 1) in t.keys ==> !Childless(t, original)
    requires Childless(t, original) && t.jobs[original].kind in {Answer, Evaluate} ==>
               t.jobs[original].resource in t.runs && t.runs[t.jobs[original].resource] == original
    ensures var row := t.jobs[original];
            if Retryable(t, original)
            then var child := Row(row.kind, row.resource, Queued, row.attempt + 1, Some(original), row.handled, true,
                                  true);
                 Retried(t, original, id) ==
                 Ok(Table(t.jobs[id := child], t.keys + {Retry(original, row.attempt + 1)},
                          if row.kind in {Answer, Evaluate} then t.runs[row.resource := id] else t.runs))
            else Retried(t, original, id).Err?
  {
    BusyExact(t, t.jobs[original].kind, t.jobs[original].resource);
    assert HasChild(t, original) <==> !Childless(t, original);
  }

  /** The three ways to start a job: each inserts a queued first attempt while nothing is active on the
      resource and, if it is enqueued, its key is free; a new run or evaluation then points at it. */
  lemma StartsExactly(t: Table, id: JobId, kind: Kind, resource: Resource, routed: bool, enqueue: bool)
    requires id !in t.jobs
    ensures var open := !Busy(t, kind, resource) && (enqueue ==> Fresh(kind, resource) !in t.keys);
            var keys := if enqueue then t.keys + {Fresh(kind, resource)} else t.keys;
            match kind
            case Index =>
              Apply(t, StartIndex(id, resource, enqueue)) ==
              if open then Table(t.jobs[id := Row(kind, resource, Queued, 1, None, true, true, enqueue)], keys, t.runs)
              else t
            case Plain(name) =>
              Apply(t, StartPlain(id, name, resource, routed, enqueue)) ==
              if open
              then Table(t.jobs[id := Row(kind, resource, Queued, 1, None, false, routed, enqueue)], keys, t.runs)
              else t
            case _ =>
              Apply(t, StartRun(id, kind, resource, enqueue)) ==
              if open && resource !in t.runs
              then Table(t.jobs[id := Row(kind, resource, Queued, 1, None, true, true, enqueue)], keys,
                         t.runs[resource := id])
              else t
  {
    BusyExact(t, kind, resource);
  }

  // ---------------------------------------------------------------- the outbox key of a fresh job

  /** Starting queued work anew succeeds exactly when nothing is active on the resource and no
      queued top-level job was ever started for it. */
  lemma FreshStartExact(t: Table, id: JobId, kind: Kind, resource: Resource, handled: bool, routed: bool)
    requires Inv(t) && KeysExact(t)
    ensures Created(t, id, kind, resource, handled, routed, true).Ok? <==>
              !Busy(t, kind, resource)
              && !exists j :: j in t.jobs && t.jobs[j].queued && t.jobs[j].parent == None && t.jobs[j].kind == kind
                   && t.jobs[j].resource == resource
    ensures var started := Created(t, id, kind, resource, handled, routed, true);
            started.Ok? ==>
              started.value == t.(jobs := t.jobs[id := Row(kind, resource, Queued, 1, None, handled, routed, true)],
                                  keys := t.keys + {Fresh(kind, resource)})
  {
    BusyExact(t, kind, resource);
    if j :| j in t.jobs && QueuedFresh(t.jobs[j]) && t.jobs[j].kind == kind && t.jobs[j].resource == resource {
      assert Fresh(kind, resource) in t.keys;
    }
  }

  ghost predicate KeysExact(t: Table) {
    forall kind, resource :: Fresh(kind, resource) in t.keys ==>
      exists j :: j in t.jobs && QueuedFresh(t.jobs[j]) && t.jobs[j].kind == kind && t.jobs[j].resource == resource
  }

  lemma KeysExactStep(t: Table, e: Event)
    requires KeysExact(t)
    ensures KeysExact(Apply(t, e))
  {
    EventShape(t, e);
    var t' := Apply(t, e);
    if t' != t {
      var id := match e case StartIndex(id, _, _) => id case StartRun(id, _, _, _) => id
                        case StartPlain(id, _, _, _, _) => id
                        case RetryOf(_, id) => id case Move(id, _) => id;
      KeysExactKept(t, t', id);
    }
  }

  lemma KeysExactKept(t: Table, t': Table, id: JobId)
    requires KeysExact(t) && id in t'.jobs
    requires forall j :: j in t.jobs ==> j in t'.jobs && t'.jobs[j] == t.jobs[j].(status := t'.jobs[j].status)
    requires forall kind, resource :: Fresh(kind, resource) in t'.keys && Fresh(kind, resource) !in t.keys ==>
               QueuedFresh(t'.jobs[id]) && t'.jobs[id].kind == kind && t'.jobs[id].resource == resource
    ensures KeysExact(t')
  {
    forall kind, resource | Fresh(kind, resource) in t'.keys
      ensures exists j ::
                && j in t'.jobs && QueuedFresh(t'.jobs[j])
                && t'.jobs[j].kind == kind && t'.jobs[j].resource == resource
    {
      var j := id;
      if Fresh(kind, resource) in t.keys {
        j :| j in t.jobs && QueuedFresh(t.jobs[j]) && t.jobs[j].kind == kind && t.jobs[j].resource == resource;
      }
      assert j in t'.jobs && QueuedFresh(t'.jobs[j]);
    }
  }

  /** All ingestion jobs of a version have ended for good: each succeeded or was retried. */
  ghost predicate IngestionOver(t: Table, resource: Resource) {
    && Fresh(Index, resource) in t.keys
    && forall id :: id in t.jobs && t.jobs[id].kind == Index && t.jobs[id].resource == resource ==>
         t.jobs[id].status == Succeeded || (HasChild(t, id) && Terminal(t.jobs[id].status))
  }

  /** The ingestion jobs of one version. */
  ghost function IngestionJobs(t: Table, resource: Resource): set<JobId> {
    set id | id in t.jobs && t.jobs[id].kind == Index && t.jobs[id].resource == resource
  }

  /** Once the queued ingestion of a version has succeeded, no queued ingestion of that version
      starts ever again, not even after its artifact was corrected. */
  lemma {:induction false} QueuedReingestionImpossible(t: Table, resource: Resource, events: seq<Event>)
    requires Inv(t) && IngestionOver(t, resource)
    requires forall i :: 0 <= i < |events| ==>
               !(events[i].StartIndex? && events[i].resource == resource && !events[i].enqueue)
    ensures IngestionJobs(Run(t, events), resource) == IngestionJobs(t, resource)
    ensures IngestionOver(Run(t, events), resource)
    decreases |events|
  {
    if events != [] {
      var t' := Apply(t, events[0]);
      ApplyInv(t, events[0]);
      IngestionOverStep(t, resource, events[0]);
      QueuedReingestionImpossible(t', resource, events[1..]);
    }
  }

  lemma IngestionOverStep(t: Table, resource: Resource, e: Event)
    requires Inv(t) && IngestionOver(t, resource)
    requires !(e.StartIndex? && e.resource == resource && !e.enqueue)
    ensures IngestionJobs(Apply(t, e), resource) == IngestionJobs(t, resource)
    ensures IngestionOver(Apply(t, e), resource)
  {
    EventShape(t, e);
    var t' := Apply(t, e);
    if t' != t {
      match e
      case StartIndex(id, _, _) => OtherWorkAdded(t, t', resource, id);
      case StartRun(id, _, _, _) => OtherWorkAdded(t, t', resource, id);
      case StartPlain(id, _, _, _, _) => OtherWorkAdded(t, t', resource, id);
      case RetryOf(original, id) => OtherWorkAdded(t, t', resource, id);
      case Move(id, _) => EndedWorkMoved(t, t', resource, id);
    }
  }

  lemma OtherWorkAdded(t: Table, t': Table, resource: Resource, id: JobId)
    requires IngestionOver(t, resource)
    requires id !in t.jobs && id in t'.jobs && t'.jobs == t.jobs[id := t'.jobs[id]] && t.keys <= t'.keys
    requires t'.jobs[id].kind != Index || t'.jobs[id].resource != resource
    ensures IngestionJobs(t', resource) == IngestionJobs(t, resource)
    ensures IngestionOver(t', resource)
  {
    ChildrenKept(t, t');
  }

  lemma EndedWorkMoved(t: Table, t': Table, resource: Resource, id: JobId)
    requires IngestionOver(t, resource) && Moved(t, t', id)
    ensures IngestionJobs(t', resource) == IngestionJobs(t, resource)
    ensures IngestionOver(t', resource)
  {
    MovedChildren(t, t', id);
    forall j | j in t'.jobs && t'.jobs[j].kind == Index && t'.jobs[j].resource == resource
      ensures t'.jobs[j].status == t.jobs[j].status
    {
      assert j in t.jobs && t.jobs[j].kind == Index && t.jobs[j].resource == resource;
    }
  }

  /** Everything above holds of every table that any run of the endpoints can reach. */
  lemma {:induction false} EveryRun(t: Table, events: seq<Event>)
    requires Inv(t) && KeysExact(t)
    ensures Inv(Run(t, events)) && KeysExact(Run(t, events))
    decreases |events|
  {
    if events != [] {
      ApplyInv(t, events[0]);
      KeysExactStep(t, events[0]);
      EveryRun(Apply(t, events[0]), events[1..]);
    }
  }

  /** The smallest run that shows it: queue an ingestion, let it succeed, and queue it again. */
  lemma ReingestionRefused(resource: Resource)
    ensures Inv(EMPTY) && KeysExact(EMPTY)
    ensures var done := Run(EMPTY, [StartIndex(1, resource, true), Move(1, Running), Move(1, Succeeded)]);
            && 1 in done.jobs && done.jobs[1].status == Succeeded && !HasActive(done, Index, resource)
            && IngestionOver(done, resource)
            && Created(done, 2, Index, resource, true, true, true) == Err(DuplicateOperation)
  {
    var e1, e2, e3 := StartIndex(1, resource, true), Move(1, Running), Move(1, Succeeded);
    var t1 := Apply(EMPTY, e1);
    var t2 := Apply(t1, e2);
    var t3 := Apply(t2, e3);
    assert t1.jobs[1] == Row(Index, resource, Queued, 1, None, true, true, true);
    assert t3.jobs == map[1 := Row(Index, resource, Succeeded, 1, None, true, true, true)];
    assert [e1, e2, e3][1..] == [e2, e3] && [e2, e3][1..] == [e3] && [e3][1..] == [];
    assert Run(EMPTY, [e1, e2, e3]) == Run(t1, [e2, e3]) == Run(t2, [e3]) == Run(t3, []) == t3;
  }
}
