/** Everything that can happen to one knowledge job, interleaved in any order. */
module JobProtocol {
  import opened Common
  import opened Jobs

  /** The row, the clock, and two histories: tokens in claim order, and the token of every
      guarded commit in commit order. */
  datatype State = State(now: int, job: Job, claims: seq<Token>, commits: seq<Token>)

  /** What a worker may write to the row inside a guarded transaction. */
  datatype Change = Untouched | Advance(progress: int) | Finish(progress: int)

  datatype Event =
    | Tick(seconds: nat)
    | Claim(token: Token, leaseSeconds: int)
    | Publish(token: Token, change: Change)                        // guard and commit, one transaction
    | Beat(token: Token, sampled: int, leaseSeconds: int)          // clock sampled earlier, row written now
    | Release(token: Token, sampled: int)
    | RequestCancel                                                // jobs endpoint, row read and written together
    | WriteLateCancel                                              // jobs endpoint, row read while it was still active
    | CancelRun                                                    // runs endpoint: cancels at once while queued
    | Sweep(before: int)
    | HandleFailure(token: Token, code: string)

  function Init(now: int): State {
    State(now, FRESH, [], [])
  }

  function Changed(job: Job, now: int, change: Change): Result<Job, JobError> {
    match change
    case Untouched => Ok(job)
    case Advance(p) => Updated(job, now, Running, p, None)
    case Finish(p) => Updated(job, now, Succeeded, p, None)
  }

  /** A refused step changes nothing: its transaction rolls back. A claim brings a token that was
      never used, and a clock sample is never later than the clock. */
  function Apply(s: State, e: Event): State {
    match e
    case Tick(seconds) => s.(now := s.now + seconds)
    case Claim(token, lease) =>
      if token in s.claims then s
      else
        (match Claimed(s.job, s.now, lease, token)
         case Ok(job) => s.(job := job, claims := s.claims + [token])
         case Err(_) => s)
    case Publish(token, change) =>
      if !GuardPasses(s.job, token, s.now) then s
      else
        (match Changed(s.job, s.now, change)
         case Ok(job) => s.(job := job, commits := s.commits + [token])
         case Err(_) => s)
    case Beat(token, sampled, lease) =>
      if sampled > s.now then s else s.(job := Heartbeat(s.job, token, sampled, lease))
    case Release(token, sampled) =>
      if sampled > s.now then s else s.(job := Released(s.job, token, sampled))
    case RequestCancel => s.(job := CancelRequested(s.job))
    case WriteLateCancel => s.(job := s.job.(cancelRequested := true, lockVersion := s.job.lockVersion + 1))
    case CancelRun =>
      var asked := CancelRequested(s.job);
      if asked.status == Queued then
        (match Updated(asked, s.now, Cancelled, 0, None)
         case Ok(job) => s.(job := job)
         case Err(_) => s)
      else s.(job := asked)
    case Sweep(before) => s.(job := Swept(s.job, s.now, before))
    case HandleFailure(token, code) =>
      if s.job.token != Some(token) || s.job.status != Running then s
      else
        (match Updated(s.job, s.now, if s.job.cancelRequested then Cancelled else Failed, s.job.progress,
                       if s.job.cancelRequested then None else Some(code))
         case Ok(job) => s.(job := job)
         case Err(_) => s)
  }

  function Run(s: State, events: seq<Event>): State
    decreases |events|
  {
    if events == [] then s else Run(Apply(s, events[0]), events[1..])
  }

  lemma {:induction false} RunAppend(s: State, a: seq<Event>, b: seq<Event>)
    ensures Run(s, a + b) == Run(Run(s, a), b)
    decreases |a|
  {
    if a == [] {
      assert a + b == b;
    } else {
      RunAppend(Apply(s, a[0]), a[1..], b);
      assert (a + b)[1..] == a[1..] + b;
    }
  }

  // ---------------------------------------------------------------- invariant

  ghost predicate InClaimOrder(claims: seq<Token>, commits: seq<Token>) {
    && (forall i :: 0 <= i < |commits| ==> commits[i] in claims)
    && (forall i, j, p, q ::
          && 0 <= i < j < |commits| && 0 <= p < |claims| && 0 <= q < |claims|
          && claims[p] == commits[i] && claims[q] == commits[j] ==>
            p <= q)
  }

  ghost predicate Inv(s: State) {
    && Distinct(s.claims)
    && s.job.token == (if s.claims == [] then None else Some(s.claims[|s.claims| - 1]))
    && (s.job.status == Queued ==> s.job.progress == 0 && s.claims == [] && s.job.leaseExpires == None)
    && (s.job.status == Running ==> s.claims != [])
    && 0 <= s.job.progress <= 100
    && (s.job.status == Succeeded ==> s.job.progress == 100)
    && InClaimOrder(s.claims, s.commits)
  }

  lemma ClaimKeepsOrder(claims: seq<Token>, commits: seq<Token>, token: Token)
    requires Distinct(claims) && InClaimOrder(claims, commits) && token !in claims
    ensures Distinct(claims + [token]) && InClaimOrder(claims + [token], commits)
  {
    var claims' := claims + [token];
    forall i | 0 <= i < |commits| ensures commits[i] in claims' && commits[i] != token {
      assert commits[i] in claims;
    }
  }

  lemma CommitKeepsOrder(claims: seq<Token>, commits: seq<Token>)
    requires Distinct(claims) && InClaimOrder(claims, commits) && claims != []
    ensures InClaimOrder(claims, commits + [claims[|claims| - 1]])
  {
  }

  lemma ApplyInv(s: State, e: Event)
    requires Inv(s)
    ensures Inv(Apply(s, e))
  {
    match e
    case Claim(token, _) =>
      if token !in s.claims {
        ClaimKeepsOrder(s.claims, s.commits, token);
      }
    case Publish(token, _) =>
      if s.claims != [] {
        CommitKeepsOrder(s.claims, s.commits);
      }
    case _ =>
  }

  lemma {:induction false} RunInv(s: State, events: seq<Event>)
    requires Inv(s)
    ensures Inv(Run(s, events))
    decreases |events|
  {
    if events != [] {
      ApplyInv(s, events[0]);
      RunInv(Apply(s, events[0]), events[1..]);
    }
  }

  // ---------------------------------------------------------------- fencing

  /** Over any run, guarded commits form contiguous blocks, one per token, in claim order. */
  lemma {:induction false} Fencing(now: int, events: seq<Event>)
    ensures var s := Run(Init(now), events);
            && InClaimOrder(s.claims, s.commits)
            && forall i, j, k :: 0 <= i < j < k < |s.commits| && s.commits[i] == s.commits[k] ==>
                 s.commits[j] == s.commits[i]
  {
    RunInv(Init(now), events);
    var s := Run(Init(now), events);
    forall i, j, k | 0 <= i < j < k < |s.commits| && s.commits[i] == s.commits[k] ensures s.commits[j] == s.commits[i] {
      assert s.commits[i] in s.claims && s.commits[j] in s.claims;
      var p :| 0 <= p < |s.claims| && s.claims[p] == s.commits[i];
      var q :| 0 <= q < |s.claims| && s.claims[q] == s.commits[j];
    }
  }

  ghost predicate Superseded(s: State, token: Token) {
    s.claims != [] && token in s.claims && token != s.claims[|s.claims| - 1]
  }

  lemma {:induction false} SupersededForever(s: State, events: seq<Event>, token: Token)
    requires Inv(s) && Superseded(s, token)
    ensures Superseded(Run(s, events), token)
    ensures forall now :: !GuardPasses(Run(s, events).job, token, now)
    ensures s.commits <= Run(s, events).commits
    ensures forall i :: |s.commits| <= i < |Run(s, events).commits| ==> Run(s, events).commits[i] != token
    decreases |events|
  {
    if events != [] {
      var s' := Apply(s, events[0]);
      ApplyInv(s, events[0]);
      assert Superseded(s', token);
      SupersededForever(s', events[1..], token);
    }
  }

  /** Once another token is claimed, the old token never passes a guard or commits again. */
  lemma {:induction false} OldTokenStaysFenced(now: int, before: seq<Event>, other: Event, after: seq<Event>,
                                               token: Token)
    requires var s := Run(Init(now), before);
             token in s.claims && other.Claim? && Apply(s, other).claims != s.claims
    ensures var s := Run(Init(now), before);
            var end := Run(Init(now), before + [other] + after);
            && (forall t :: !GuardPasses(end.job, token, t))
            && s.commits <= end.commits
            && forall i :: |s.commits| <= i < |end.commits| ==> end.commits[i] != token
  {
    var s := Run(Init(now), before);
    var s' := Apply(s, other);
    RunInv(Init(now), before);
    ApplyInv(s, other);
    RunAppend(Init(now), before, [other]);
    RunAppend(Init(now), before + [other], after);
    assert Run(s, [other]) == Run(s', [other][1..]);
    assert Superseded(s', token) by {
      assert s'.claims == s.claims + [other.token];
    }
    SupersededForever(s', after, token);
  }

  /** While a guard passes, nobody else can claim: possession is exclusive. */
  lemma LiveLeaseExcludes(s: State, token: Token, other: Token, leaseSeconds: int)
    requires GuardPasses(s.job, token, s.now)
    ensures Apply(s, Claim(other, leaseSeconds)) == s
    ensures other != token ==> !GuardPasses(s.job, other, s.now)
  {
  }

  /** And nothing else keeps a worker out: an unfinished job nobody wants cancelled is claimed, for as
      long as asked, exactly when no token's guard passes at this instant. */
  lemma ClaimExactly(s: State, token: Token, leaseSeconds: int)
    requires Inv(s) && leaseSeconds > 0 && token !in s.claims
    requires s.job.status in {Queued, Running} && !s.job.cancelRequested
    ensures var s' := Apply(s, Claim(token, leaseSeconds));
            && (s'.claims == s.claims + [token] <==> forall t :: !GuardPasses(s.job, t, s.now))
            && (s'.claims == s.claims + [token] ==>
                  forall t, now :: s.now <= now ==>
                    (GuardPasses(s'.job, t, now) <==> t == token && now < s.now + leaseSeconds))
            && (s'.claims != s.claims + [token] ==> s' == s)
  {
    if s.job.status == Running && LeaseLive(s.job, s.now) {
      assert GuardPasses(s.job, s.claims[|s.claims| - 1], s.now);
    }
    assert s.claims + [token] != s.claims;
  }

  /** A worker that releases its lease makes way at once: the next claim goes through. */
  lemma ReleaseMakesWay(s: State, token: Token, sampled: int, other: Token, leaseSeconds: int)
    requires Inv(s) && s.job.token == Some(token) && s.job.status == Running && !s.job.cancelRequested
    requires sampled <= s.now && other !in s.claims && leaseSeconds > 0
    ensures Apply(Apply(s, Release(token, sampled)), Claim(other, leaseSeconds)).claims == s.claims + [other]
  {
    ClaimExactly(Apply(s, Release(token, sampled)), other, leaseSeconds);
  }

  /** A request to cancel marks an unfinished job, and one that read the row while it was unfinished
      marks it in any case; the runs endpoint ends a job that is still queued. */
  lemma CancelsExactly(s: State)
    requires Inv(s)
    ensures var marked := s.job.(cancelRequested := true, lockVersion := s.job.lockVersion + 1);
            var asked := if s.job.status in {Queued, Running} then marked else s.job;
            && Apply(s, RequestCancel) == s.(job := asked)
            && Apply(s, WriteLateCancel) == s.(job := marked)
            && Apply(s, CancelRun) ==
               if s.job.status == Queued
               then s.(job := marked.(status := Cancelled, completed := Some(s.now), errorCode := None,
                                      lockVersion := s.job.lockVersion + 2))
               else s.(job := asked)
  {
  }

  /** The sweeper ends a running job whose last heartbeat is too old, and nothing else. */
  lemma SweepExactly(s: State, before: int)
    requires Inv(s)
    ensures Apply(s, Sweep(before)) ==
            if s.job.status == Running && s.job.heartbeat.Some? && s.job.heartbeat.value < before
            then s.(job := s.job.(status := Failed, completed := Some(s.now), lockVersion := s.job.lockVersion + 1,
                                  errorCode := Some("WORKER_HEARTBEAT_TIMEOUT")))
            else s
  {
  }

  /** A heartbeat extends the lease, from the time it was sampled, exactly when the guard passed then;
      no sample is later than the clock. */
  lemma BeatExactly(s: State, token: Token, sampled: int, leaseSeconds: int)
    ensures Apply(s, Beat(token, sampled, leaseSeconds)) ==
            if sampled <= s.now && s.job.token == Some(token) && s.job.status == Running && !s.job.cancelRequested
               && s.job.leaseExpires.Some? && s.job.leaseExpires.value > sampled
            then s.(job := s.job.(heartbeat := Some(sampled), leaseExpires := Some(sampled + leaseSeconds)))
            else s
  {
  }

  // ---------------------------------------------------------------- terminality, cancel, progress

  /** A terminal status never changes. */
  lemma {:induction false} TerminalForever(s: State, events: seq<Event>)
    requires Terminal(s.job.status)
    ensures Run(s, events).job.status == s.job.status
    decreases |events|
  {
    if events != [] {
      TerminalForever(Apply(s, events[0]), events[1..]);
    }
  }

  /** No job becomes succeeded once cancellation was requested. */
  lemma {:induction false} NoSuccessAfterCancel(s: State, events: seq<Event>)
    requires s.job.cancelRequested && s.job.status != Succeeded
    ensures Run(s, events).job.cancelRequested && Run(s, events).job.status != Succeeded
    decreases |events|
  {
    if events != [] {
      NoSuccessAfterCancel(Apply(s, events[0]), events[1..]);
    }
  }

  /** Progress never decreases, and success means 100. */
  lemma {:induction false} ProgressNeverDecreases(s: State, events: seq<Event>)
    requires Inv(s)
    ensures s.job.progress <= Run(s, events).job.progress <= 100
    ensures Run(s, events).job.status == Succeeded ==> Run(s, events).job.progress == 100
    decreases |events|
  {
    if events != [] {
      ApplyInv(s, events[0]);
      ProgressNeverDecreases(Apply(s, events[0]), events[1..]);
    }
  }

  /** A queued job whose cancellation was requested is stuck: no worker can claim it, the sweeper
      looks at running jobs only, and it leaves the queue exactly when somebody cancels the run
      it belongs to. An ingestion or evaluation job has no such endpoint. */
  lemma {:induction false} CancelledWhileQueuedIsStuck(s: State, events: seq<Event>)
    requires Inv(s) && s.job.status == Queued && s.job.cancelRequested
    ensures Run(s, events).job.status == Queued <==> CancelRun !in events
    decreases |events|
  {
    if events != [] {
      var s' := Apply(s, events[0]);
      ApplyInv(s, events[0]);
      if events[0] == CancelRun {
        TerminalForever(s', events[1..]);
      } else {
        CancelledWhileQueuedIsStuck(s', events[1..]);
      }
    }
  }

  /** The shortest such run. */
  lemma CancelBeforeClaimSticks(now: int)
    ensures var s := Run(Init(now), [RequestCancel]);
            Inv(s) && s.job.status == Queued && s.job.cancelRequested
  {
    RunInv(Init(now), [RequestCancel]);
    assert [RequestCancel][1..] == [];
  }

  /** A job whose cancellation was requested can still end without a cancelled run if and only if
      a worker had claimed it: then the worker's failure handler ends it. */
  lemma {:induction false} CancelledEndsExactly(s: State)
    requires Inv(s) && s.job.cancelRequested && !Terminal(s.job.status)
    ensures (exists events :: CancelRun !in events && Terminal(Run(s, events).job.status)) <==> s.job.status == Running
  {
    if s.job.status == Running {
      var stop := HandleFailure(s.claims[|s.claims| - 1], "CANCELLED");
      assert [stop][1..] == [];
      assert Run(s, [stop]) == Apply(s, stop);
      assert CancelRun !in [stop] && Terminal(Run(s, [stop]).job.status);
    } else {
      forall events | CancelRun !in events ensures !Terminal(Run(s, events).job.status) {
        CancelledWhileQueuedIsStuck(s, events);
      }
    }
  }

  // ---------------------------------------------------------------- keeping a lease

  /** One beat sampled while the lease is live, and written before anyone else claims, is accepted
      and extends it past the next beat. */
  lemma TimelyBeatKeepsLease(s: State, token: Token, sampled: int, leaseSeconds: int, interval: int)
    requires Inv(s) && s.job.token == Some(token) && s.job.status == Running && !s.job.cancelRequested
    requires sampled <= s.now && LeaseLive(s.job, sampled) && 0 < interval && 2 * interval < leaseSeconds
    requires s.now <= sampled + interval
    ensures forall t: int :: s.now <= t <= s.now + interval ==>
              GuardPasses(Apply(s, Beat(token, sampled, leaseSeconds)).job, token, t)
  {
  }

  /** What may happen while `token` holds the lease and beats on time: its beats carry the lease on,
      the clock never runs two intervals past the last sample, the sweeper looks for older heartbeats.
      Claims of others, their late beats, releases and failure handlers come as they like. */
  predicate OnTime(e: Event, now: int, token: Token, last: int, leaseSeconds: int, interval: int) {
    match e
    case Tick(seconds) => now + seconds <= last + 2 * interval
    case Beat(t, sampled, lease) => t == token ==> last <= sampled <= now && lease == leaseSeconds
    case Claim(_, _) => true
    case Publish(_, change) => !change.Finish?
    case Release(t, _) => t != token
    case HandleFailure(t, _) => t != token
    case Sweep(before) => before <= last
    case _ => false
  }

  function LastSample(e: Event, token: Token, last: int): int {
    if e.Beat? && e.token == token then e.sampled else last
  }

  predicate Timely(s: State, events: seq<Event>, token: Token, last: int, leaseSeconds: int, interval: int)
    decreases |events|
  {
    events == []
    || (OnTime(events[0], s.now, token, last, leaseSeconds, interval)
        && Timely(Apply(s, events[0]), events[1..], token, LastSample(events[0], token, last), leaseSeconds, interval))
  }

  ghost predicate Leased(s: State, token: Token, last: int, leaseSeconds: int, interval: int) {
    && token in s.claims && s.job.token == Some(token) && s.job.status == Running && !s.job.cancelRequested
    && s.job.leaseExpires == Some(last + leaseSeconds)
    && s.job.heartbeat.Some? && s.job.heartbeat.value >= last
    && last <= s.now <= last + 2 * interval < last + leaseSeconds
  }

  /** A worker that keeps beating on time never loses its lease, whatever the others try. */
  lemma {:induction false} TimelyBeatsKeepLease(s: State, events: seq<Event>, token: Token, last: int,
                                                leaseSeconds: int, interval: int)
    requires Inv(s) && Leased(s, token, last, leaseSeconds, interval)
    requires Timely(s, events, token, last, leaseSeconds, interval)
    ensures GuardPasses(Run(s, events).job, token, Run(s, events).now)
    decreases |events|
  {
    if events != [] {
      ApplyInv(s, events[0]);
      LeaseStep(s, events[0], token, last, leaseSeconds, interval);
      TimelyBeatsKeepLease(Apply(s, events[0]), events[1..], token, LastSample(events[0], token, last), leaseSeconds,
                           interval);
    }
  }

  lemma LeaseStep(s: State, e: Event, token: Token, last: int, leaseSeconds: int, interval: int)
    requires Leased(s, token, last, leaseSeconds, interval) && OnTime(e, s.now, token, last, leaseSeconds, interval)
    ensures Leased(Apply(s, e), token, LastSample(e, token, last), leaseSeconds, interval)
  {
  }

  /** From the claim on. */
  lemma {:induction false} ClaimedLeaseKept(s: State, token: Token, events: seq<Event>, leaseSeconds: int,
                                            interval: int)
    requires Inv(s) && token !in s.claims && Claimed(s.job, s.now, leaseSeconds, token).Ok?
    requires 0 < interval && 2 * interval < leaseSeconds
    requires Timely(Apply(s, Claim(token, leaseSeconds)), events, token, s.now, leaseSeconds, interval)
    ensures var end := Run(Apply(s, Claim(token, leaseSeconds)), events); GuardPasses(end.job, token, end.now)
  {
    ApplyInv(s, Claim(token, leaseSeconds));
    TimelyBeatsKeepLease(Apply(s, Claim(token, leaseSeconds)), events, token, s.now, leaseSeconds, interval);
  }
}
