/** One `async_jobs` row: leases, guarded execution, state transitions and cancellation. */
module Jobs {
  import opened Common

  type Token = nat

  datatype Status = Queued | Running | Succeeded | Failed | Cancelled

  predicate Terminal(s: Status) {
    s == Succeeded || s == Failed || s == Cancelled
  }

  datatype Job = Job(status: Status, progress: int, cancelRequested: bool, token: Option<Token>,
                     leaseExpires: Option<int>, heartbeat: Option<int>, started: Option<int>,
                     completed: Option<int>, lockVersion: nat, errorCode: Option<string>)

  datatype JobError = InvalidLease | Unavailable | LeaseActive | LeaseLost
                    | InvalidTransition | ProgressDecreased | ProgressOutOfRange | SucceededBelow100 | FailedWithoutCode

  const FRESH: Job := Job(Queued, 0, false, None, None, None, None, None, 1, None)

  function OrElse(a: Option<int>, b: int): Option<int> {
    if a.Some? then a else Some(b)
  }

  predicate LeaseLive(job: Job, now: int) {
    job.leaseExpires.Some? && job.leaseExpires.value > now
  }

  function Claimed(job: Job, now: int, leaseSeconds: int, token: Token): Result<Job, JobError> {
    if leaseSeconds <= 0 then Err(InvalidLease)
    else if job.status !in {Queued, Running} || job.cancelRequested then Err(Unavailable)
    else if LeaseLive(job, now) then Err(LeaseActive)
    else Ok(job.(token := Some(token), leaseExpires := Some(now + leaseSeconds), heartbeat := Some(now),
    status := Running, started := OrElse(job.started, now), lockVersion := job.lockVersion + 1))
  }

  predicate GuardPasses(job: Job, token: Token, now: int) {
    job.token == Some(token) && job.status == Running && !job.cancelRequested && LeaseLive(job, now)
  }

  /** The heartbeat's conditional update: `sampled` is the clock value read before it was sent. */
  predicate HeartbeatAccepted(job: Job, token: Token, sampled: int) {
    GuardPasses(job, token, sampled)
  }

  function Heartbeat(job: Job, token: Token, sampled: int, leaseSeconds: int): Job {
    if HeartbeatAccepted(job, token, sampled)
    then job.(heartbeat := Some(sampled), leaseExpires := Some(sampled + leaseSeconds))
    else job
  }

  function Released(job: Job, token: Token, sampled: int): Job {
    if job.token == Some(token) then job.(leaseExpires := Some(sampled)) else job
  }

  function Successors(s: Status): set<Status> {
    match s
    case Queued => {Running, Failed, Cancelled}
    case Running => {Running, Succeeded, Failed, Cancelled}
    case _ => {s}
  }

  function Updated(job: Job, now: int, status: Status, progress: int, errorCode: Option<string>)
    : Result<Job, JobError>
  {
    if status !in Successors(job.status) then Err(InvalidTransition)
    else if progress < job.progress && status !in {Failed, Cancelled} then Err(ProgressDecreased)
    else if !(0 <= progress <= 100) then Err(ProgressOutOfRange)
    else if status == Succeeded && progress != 100 then Err(SucceededBelow100)
    else if status == Failed && (errorCode == None || errorCode == Some("")) then Err(FailedWithoutCode)
    else
      var running :=
        if status == Running then job.(started := OrElse(job.started, now), heartbeat := Some(now)) else job;
      var ended := if Terminal(status) then running.(completed := Some(now)) else running;
      Ok(ended.(status := status, progress := progress, lockVersion := job.lockVersion + 1, errorCode := errorCode))
  }

  function CancelRequested(job: Job): Job {
    if Terminal(job.status) then job
    else job.(cancelRequested := true, lockVersion := job.lockVersion + 1)
  }

  predicate Stale(job: Job, before: int) {
    job.status == Running && job.heartbeat.Some? && job.heartbeat.value < before
  }

  /** The row as the workers and endpoints update it in place. */
  class AsyncJob {
    var status: Status
    var progress: int
    var cancelRequested: bool
    var executionToken: Option<Token>
    var leaseExpiresAt: Option<int>
    var heartbeatAt: Option<int>
    var startedAt: Option<int>
    var completedAt: Option<int>
    var lockVersion: nat
    var errorCode: Option<string>

    ghost function Row(): Job
      reads this
    {
      Job(status, progress, cancelRequested, executionToken, leaseExpiresAt, heartbeatAt, startedAt, completedAt,
          lockVersion, errorCode)
    }

    constructor ()
      ensures Row() == FRESH
    {
      status, progress, cancelRequested := Queued, 0, false;
      executionToken, leaseExpiresAt, heartbeatAt, startedAt, completedAt := None, None, None, None, None;
      lockVersion, errorCode := 1, None;
    }

    /** Claimed exactly when unfinished, not to be cancelled, and without a lease that still runs. */
    method ClaimJob(now: int, leaseSeconds: int, token: Token) returns (r: Result<Token, JobError>)
      modifies this
      ensures r == Err(InvalidLease) <==> leaseSeconds <= 0
      ensures r == Err(Unavailable) <==>
                leaseSeconds > 0 && (old(status) in {Succeeded, Failed, Cancelled} || old(cancelRequested))
      ensures r == Err(LeaseActive) <==>
                && leaseSeconds > 0 && old(status) in {Queued, Running} && !old(cancelRequested)
                && old(leaseExpiresAt).Some? && old(leaseExpiresAt).value > now
      ensures r.Ok? ==> executionToken == Some(token) && leaseExpiresAt == Some(now + leaseSeconds)
                        && heartbeatAt == Some(now) && status == Running
                        && startedAt == (if old(startedAt).Some? then old(startedAt) else Some(now))
                        && progress == old(progress) && completedAt == old(completedAt) && !cancelRequested
                        && lockVersion == old(lockVersion) + 1
      ensures Claimed(old(Row()), now, leaseSeconds, token).Ok? ==>
                r == Ok(token) && Row() == Claimed(old(Row()), now, leaseSeconds, token).value
      ensures Claimed(old(Row()), now, leaseSeconds, token).Err? ==>
                r == Err(Claimed(old(Row()), now, leaseSeconds, token).error) && Row() == old(Row())
    {
      if leaseSeconds <= 0 {
        return Err(InvalidLease);
      }
      if (status != Queued && status != Running) || cancelRequested {
        return Err(Unavailable);
      }
      if leaseExpiresAt.Some? && leaseExpiresAt.value > now {
        return Err(LeaseActive);
      }
      executionToken := Some(token);
      leaseExpiresAt := Some(now + leaseSeconds);
      heartbeatAt := Some(now);
      status := Running;
      startedAt := OrElse(startedAt, now);
      lockVersion := lockVersion + 1;
      return Ok(token);
    }

    method GuardExecution(now: int, token: Token) returns (r: Result<(), JobError>)
      ensures r == if GuardPasses(Row(), token, now) then Ok(()) else Err(LeaseLost)
      ensures r.Ok? <==>
                && executionToken == Some(token) && status == Running && !cancelRequested
                && leaseExpiresAt.Some? && leaseExpiresAt.value > now
    {
      if || executionToken != Some(token) || status != Running || cancelRequested
         || leaseExpiresAt == None || leaseExpiresAt.value <= now
      {
        return Err(LeaseLost);
      }
      return Ok(());
    }

    method WriteHeartbeat(sampled: int, leaseSeconds: int, token: Token) returns (accepted: bool)
      modifies this`heartbeatAt, this`leaseExpiresAt
      ensures accepted <==>
                && executionToken == Some(token) && status == Running && !cancelRequested
                && old(leaseExpiresAt).Some? && old(leaseExpiresAt).value > sampled
      ensures accepted ==> heartbeatAt == Some(sampled) && leaseExpiresAt == Some(sampled + leaseSeconds)
      ensures accepted == HeartbeatAccepted(old(Row()), token, sampled)
      ensures Row() == Heartbeat(old(Row()), token, sampled, leaseSeconds)
    {
      accepted := && executionToken == Some(token) && status == Running && !cancelRequested
                  && leaseExpiresAt.Some? && leaseExpiresAt.value > sampled;
      if accepted {
        heartbeatAt := Some(sampled);
        leaseExpiresAt := Some(sampled + leaseSeconds);
      }
    }

    method Release(sampled: int, token: Token)
      modifies this`leaseExpiresAt
      ensures leaseExpiresAt == if executionToken == Some(token) then Some(sampled) else old(leaseExpiresAt)
      ensures Row() == Released(old(Row()), token, sampled)
    {
      if executionToken == Some(token) {
        leaseExpiresAt := Some(sampled);
      }
    }

    /** A finished job stays as it is, progress only grows unless the job fails or is cancelled,
        success means 100, and a failure names its reason. */
    method UpdateJob(now: int, newStatus: Status, newProgress: int, code: Option<string>)
      returns (r: Result<(), JobError>)
      modifies this
      ensures r.Ok? <==>
                && (old(status) in {Succeeded, Failed, Cancelled} ==> newStatus == old(status))
                && (old(status) == Queued ==> newStatus in {Running, Failed, Cancelled})
                && (old(status) == Running ==> newStatus != Queued)
                && 0 <= newProgress <= 100 && (newStatus == Succeeded ==> newProgress == 100)
                && (newProgress >= old(progress) || newStatus in {Failed, Cancelled})
                && (newStatus == Failed ==> code.Some? && code.value != "")
      ensures r.Ok? ==> status == newStatus && progress == newProgress && errorCode == code
                        && completedAt == (if newStatus in {Succeeded, Failed, Cancelled} then Some(now)
                                           else old(completedAt))
                        && heartbeatAt == (if newStatus == Running then Some(now) else old(heartbeatAt))
                        && startedAt == (if newStatus == Running && old(startedAt).None? then Some(now)
                                         else old(startedAt))
                        && lockVersion == old(lockVersion) + 1 && executionToken == old(executionToken)
                        && leaseExpiresAt == old(leaseExpiresAt) && cancelRequested == old(cancelRequested)
      ensures Updated(old(Row()), now, newStatus, newProgress, code).Ok? ==>
                r.Ok? && Row() == Updated(old(Row()), now, newStatus, newProgress, code).value
      ensures Updated(old(Row()), now, newStatus, newProgress, code).Err? ==>
                r == Err(Updated(old(Row()), now, newStatus, newProgress, code).error) && Row() == old(Row())
    {
      if newStatus !in Successors(status) {
        return Err(InvalidTransition);
      }
      if newProgress < progress && newStatus != Failed && newStatus != Cancelled {
        return Err(ProgressDecreased);
      }
      if newProgress < 0 || newProgress > 100 {
        return Err(ProgressOutOfRange);
      }
      if newStatus == Succeeded && newProgress != 100 {
        return Err(SucceededBelow100);
      }
      if newStatus == Failed && (code == None || code == Some("")) {
        return Err(FailedWithoutCode);
      }
      if newStatus == Running {
        startedAt := OrElse(startedAt, now);
        heartbeatAt := Some(now);
      }
      if Terminal(newStatus) {
        completedAt := Some(now);
      }
      status := newStatus;
      progress := newProgress;
      lockVersion := lockVersion + 1;
      errorCode := code;
      return Ok(());
    }

    /** A running row whose last heartbeat is older than `before` ends failed. */
    method FailIfStale(now: int, before: int) returns (stale: bool)
      requires 0 <= progress <= 100
      modifies this
      ensures stale <==> old(status) == Running && old(heartbeatAt).Some? && old(heartbeatAt).value < before
      ensures stale ==> status == Failed && completedAt == Some(now) && errorCode == Some("WORKER_HEARTBEAT_TIMEOUT")
                        && progress == old(progress)
      ensures !stale ==> Row() == old(Row())
      ensures stale == Stale(old(Row()), before)
      ensures Row() == Swept(old(Row()), now, before)
    {
      stale := status == Running && heartbeatAt.Some? && heartbeatAt.value < before;
      if stale {
        var r := UpdateJob(now, Failed, progress, Some("WORKER_HEARTBEAT_TIMEOUT"));
      }
    }

    method RequestCancel()
      modifies this`cancelRequested, this`lockVersion
      ensures cancelRequested <==> old(cancelRequested) || status in {Queued, Running}
      ensures lockVersion == old(lockVersion) + if status in {Queued, Running} then 1 else 0
      ensures Row() == CancelRequested(old(Row()))
    {
      if Terminal(status) {
        return;
      }
      cancelRequested := true;
      lockVersion := lockVersion + 1;
    }
  }

  /** What the sweeper leaves of one row. */
  function Swept(job: Job, now: int, before: int): Job {
    if !Stale(job, before) then job
    else
      match Updated(job, now, Failed, job.progress, Some("WORKER_HEARTBEAT_TIMEOUT"))
      case Ok(j) => j
      case Err(_) => job
  }

  /** The rows one sweep takes: silent, not locked by another transaction, until the batch is full. */
  function StaleRows(jobs: seq<Job>, before: int, locked: set<nat>, batch: nat): seq<nat> {
    if jobs == [] then []
    else
      var last := |jobs| - 1;
      var earlier := StaleRows(jobs[..last], before, locked, batch);
      if Stale(jobs[last], before) && last !in locked && |earlier| < batch then earlier + [last] else earlier
  }

  /** A silent unlocked row is left only to a full batch. */
  lemma {:induction false} StaleRowsFacts(jobs: seq<Job>, before: int, locked: set<nat>, batch: nat)
    ensures var s := StaleRows(jobs, before, locked, batch);
            && |s| <= batch
            && (forall k :: 0 <= k < |s| ==> s[k] < |jobs| && Stale(jobs[s[k]], before) && s[k] !in locked)
            && (forall j, k :: 0 <= j < k < |s| ==> s[j] < s[k])
            && (forall i: nat :: i < |jobs| && Stale(jobs[i], before) && i !in locked && i !in s ==> |s| == batch)
  {
    if jobs != [] {
      StaleRowsFacts(jobs[..|jobs| - 1], before, locked, batch);
    }
  }

  method SelectStale(rows: seq<AsyncJob>, ghost jobs: seq<Job>, before: int, locked: set<nat>, batch: nat)
    returns (selected: seq<nat>)
    requires |jobs| == |rows| && forall i :: 0 <= i < |rows| ==> jobs[i] == rows[i].Row()
    ensures selected == StaleRows(jobs, before, locked, batch)
  {
    selected := [];
    for i := 0 to |rows|
      invariant selected == StaleRows(jobs[..i], before, locked, batch)
    {
      assert jobs[..i + 1][..i] == jobs[..i];
      var row := rows[i];
      assert jobs[i] == row.Row();
      if row.status == Running && row.heartbeatAt.Some? && row.heartbeatAt.value < before
         && i !in locked && |selected| < batch {
        selected := selected + [i];
      }
    }
    assert jobs[..|rows|] == jobs;
  }

  lemma TakeOne(selected: seq<nat>, k: nat)
    requires k < |selected|
    ensures forall i :: i in selected[..k + 1] <==> i in selected[..k] || i == selected[k]
  {
    assert selected[..k + 1] == selected[..k] + [selected[k]];
  }

  /** `fail_stale_jobs`: end the selected rows, whose workers stopped reporting, and no others. */
  method FailStaleJobs(rows: seq<AsyncJob>, ghost jobs: seq<Job>, now: int, before: int, locked: set<nat>, batch: nat)
    returns (count: nat)
    requires Distinct(rows) && |jobs| == |rows|
    requires forall i :: 0 <= i < |rows| ==> jobs[i] == rows[i].Row() && 0 <= jobs[i].progress <= 100
    modifies rows
    ensures forall i :: 0 <= i < |rows| ==>
              rows[i].Row() ==
              if i in StaleRows(jobs, before, locked, batch) then Swept(jobs[i], now, before) else jobs[i]
    ensures forall i :: 0 <= i < |rows| && i in StaleRows(jobs, before, locked, batch) ==>
              rows[i].status == Failed && rows[i].completedAt == Some(now)
    ensures count == |StaleRows(jobs, before, locked, batch)|
  {
    var selected := SelectStale(rows, jobs, before, locked, batch);
    StaleRowsFacts(jobs, before, locked, batch);
    for k := 0 to |selected|
      invariant forall i :: 0 <= i < |rows| ==>
                  rows[i].Row() == if i in selected[..k] then Swept(jobs[i], now, before) else jobs[i]
    {
      TakeOne(selected, k);
      var stale := rows[selected[k]].FailIfStale(now, before);
    }
    assert selected[..|selected|] == selected;
    count := |selected|;
  }
}
