/** The ingestion machine with two of its transactions split where other transactions can come in
    between: an attempt reads its version before it passes the guard of its first commit, and a
    correction looks for active jobs before it commits. */
module StaleReads {
  import opened Common
  import opened Ingestion
  import opened IndexAgreement
  import opened Lifecycle
  import opened Publication
  import opened Recovery
  import Chunking
  import Corrections
  import Facts
  import Jobs
  import JP = JobProtocol
  import Segmentation

  /** What an attempt's session read of its version; its later reads of the row see nothing newer. */
  datatype View = View(index: IndexState, blocks: seq<Chunking.Block>)

  /** `locked` are the versions whose correction has checked for jobs and not committed yet. */
  datatype System = System(world: World, views: map<(VersionId, Token), View>, locked: set<VersionId>)

  datatype Step =
    | Happens(e: Event)                          // any other transaction or index call
    | Read(v: VersionId, t: Token)               // the attempt loads the version and its status
    | Enter(v: VersionId, t: Token)              // and commits its start behind the guard
    | Check(v: VersionId)                        // a correction locks the version, finds no active job
    | Commit(v: VersionId, corrections: seq<Corrections.Correction>, blocks: seq<Chunking.Block>)
    | Abandon(v: VersionId)

  const NOTHING := System(EMPTY, map[], {})

  /** The start that an attempt commits goes by what it read. */
  function Entered(r: Version, t: Token, view: View): Version {
    var pc := if view.index.cleanup then Cleaning(0) else AfterCleaning(view.blocks);
    Guarded(r, t, JP.Untouched, At(r, t, Attempt(pc, view.index, view.blocks, [], map[])).(status := Processing))
  }

  predicate Waiting(r: Version, t: Token) {
    t in r.attempts && r.attempts[t].pc.Entering?
  }

  /** Split transactions are steps of their own, and a review waits for the lock on its version; the
      other steps that would wait find nothing to change while it is held. */
  predicate Whole(s: System, e: Event) {
    !e.Correct? && !(e.Work? && e.action.Start?) && !(e.Assess? && e.v in s.locked)
  }

  function With(s: System, v: VersionId, r: Version): System {
    s.(world := s.world.(versions := s.world.versions[v := r]))
  }

  predicate Reads(s: System, v: VersionId, t: Token) {
    && v in s.world.versions && Waiting(s.world.versions[v], t) && (v, t) !in s.views
    && s.world.versions[v].status in Processable()
  }

  predicate Enters(s: System, v: VersionId, t: Token) {
    v in s.world.versions && Waiting(s.world.versions[v], t) && (v, t) in s.views && v !in s.locked
  }

  predicate Checks(s: System, v: VersionId) {
    v in s.world.versions && v !in s.locked && Correctable(s.world.versions[v])
  }

  ghost predicate Corrects(s: System, v: VersionId, corrections: seq<Corrections.Correction>,
                           blocks: seq<Chunking.Block>)
  {
    v in s.world.versions && v in s.locked && Edits(s.world.versions[v], corrections, blocks)
  }

  ghost function Next(s: System, step: Step): System {
    match step
    case Happens(e) => if Whole(s, e) then s.(world := Apply(s.world, e)) else s
    case Read(v, t) =>
      if Reads(s, v, t) then
        s.(views := s.views[(v, t) := View(s.world.versions[v].index, s.world.versions[v].blocks)])
      else s
    case Enter(v, t) =>
      if Enters(s, v, t) then With(s, v, Entered(s.world.versions[v], t, s.views[(v, t)])) else s
    case Check(v) => if Checks(s, v) then s.(locked := s.locked + {v}) else s
    case Commit(v, corrections, blocks) =>
      if Corrects(s, v, corrections, blocks)
      then With(s, v, Reset(s.world.versions[v], blocks)).(locked := s.locked - {v}) else s
    case Abandon(v) => s.(locked := s.locked - {v})
  }

  ghost function Steps(s: System, steps: seq<Step>): System
    decreases |steps|
  {
    if steps == [] then s else Steps(Next(s, steps[0]), steps[1..])
  }

  /** A job created between a correction's check and its commit: a retry, which takes no lock. */
  predicate Overtakes(s: System, step: Step) {
    step.Happens? && step.e.NewJob? && step.e.v in s.locked
  }

  ghost predicate Separate(s: System, steps: seq<Step>)
    decreases |steps|
  {
    steps == [] || (!Overtakes(s, steps[0]) && Separate(Next(s, steps[0]), steps[1..]))
  }

  // ---------------------------------------------------------------- without overtaking

  /** The job may still let this attempt pass its guard. */
  predicate Pending(r: Version, t: Token) {
    Waiting(r, t) && r.work.Some? && !Jobs.Terminal(r.work.value.job.status) && r.work.value.job.token == Some(t)
  }

  predicate Current(r: Version, view: View) {
    view == View(r.index, r.blocks) && r.status in Processable()
  }

  ghost predicate ViewsHold(s: System) {
    forall v, t :: (v, t) in s.views ==>
      v in s.world.versions && t in s.world.versions[v].attempts
      && (Pending(s.world.versions[v], t) ==> Current(s.world.versions[v], s.views[(v, t)]))
  }

  ghost predicate LocksHold(s: System) {
    forall v :: v in s.locked ==> v in s.world.versions && Correctable(s.world.versions[v])
  }

  ghost predicate Faithful(s: System) {
    Reachable(s.world) && ViewsHold(s) && LocksHold(s)
  }

  /** Whatever happens to a row, an attempt that may still pass its first guard finds it as it was. */
  predicate Preserves(r: Version, r': Version) {
    && (forall t :: t in r.attempts ==> t in r'.attempts)
    && forall t :: t in r.attempts && Pending(r', t) ==>
         Pending(r, t) && r'.index == r.index && r'.blocks == r.blocks
         && (r.status in Processable() ==> r'.status in Processable())
  }

  lemma SamePreserves(r: Version, r': Version)
    requires r' == r.(period := r'.period)
    ensures Preserves(r, r')
  {
  }

  lemma WorkPreserves(v: VersionId, r: Version, t: Token, action: Action)
    requires t in r.attempts
    ensures Preserves(r, Worked(v, r, t, action))
  {
    FreeKeepsWork(v, r, t, action);
    match Proposed(v, r, t, action)
    case Refused =>
    case Free(next) =>
      if action.GiveUp? {
        GiveUpPreserves(r, t);
      } else {
        FreePreserves(v, r, t, action);
      }
    case Fenced(change, next) => FencedPreserves(v, r, t, action);
  }

  lemma GiveUpPreserves(r: Version, t: Token)
    requires t in r.attempts
    ensures Preserves(r, GivenUp(r, t))
  {
  }

  lemma FreePreserves(v: VersionId, r: Version, t: Token, action: Action)
    requires t in r.attempts && Proposed(v, r, t, action).Free? && !action.GiveUp?
    ensures Preserves(r, Proposed(v, r, t, action).next)
  {
  }

  lemma FencedPreserves(v: VersionId, r: Version, t: Token, action: Action)
    requires t in r.attempts && Proposed(v, r, t, action).Fenced?
    ensures Preserves(r, Worked(v, r, t, action))
  {
    var p := Proposed(v, r, t, action);
    FreeKeepsWork(v, r, t, action);
    FencedLeaves(v, r, t, action);
    GuardedPreserves(r, t, p.change, p.next);
  }

  lemma FencedLeaves(v: VersionId, r: Version, t: Token, action: Action)
    requires t in r.attempts && Proposed(v, r, t, action).Fenced?
    ensures !Waiting(Proposed(v, r, t, action).next, t)
  {
  }

  lemma GuardedPreserves(r: Version, t: Token, change: JP.Change, next: Version)
    requires t in r.attempts && next.work == r.work && next.attempts.Keys == r.attempts.Keys && !Waiting(next, t)
    ensures Preserves(r, Guarded(r, t, change, next))
  {
  }

  lemma JobStepPreserves(r: Version, step: JP.Event)
    requires r.work.Some? && Outside(r, step)
    ensures Preserves(r, Stepped(r, step))
  {
  }

  lemma EditPreserves(r: Version, e: Event)
    requires !e.Create? && !e.Publish? && !e.Work?
    ensures Preserves(r, Edited(r, e))
  {
    if e.JobStep? && r.work.Some? && Outside(r, e.step) {
      JobStepPreserves(r, e.step);
    }
  }

  lemma EventPreserves(w: World, e: Event, v: VersionId)
    requires v in w.versions
    ensures v in Apply(w, e).versions && Preserves(w.versions[v], Apply(w, e).versions[v])
  {
    var r := w.versions[v];
    if e.v != v || e.Create? || e.Publish? {
      if e.v != v {
        UntouchedRow(w, e, v);
        SamePreserves(r, Apply(w, e).versions[v]);
      }
    } else if e.Work? {
      if e.token in r.attempts {
        WorkPreserves(v, r, e.token, e.action);
      }
    } else {
      EditPreserves(r, e);
    }
  }

  lemma CorrectableStays(w: World, e: Event, v: VersionId)
    requires v in w.versions && Correctable(w.versions[v])
    requires !(e.v == v && (e.NewJob? || e.Correct? || e.Assess?))
    ensures v in Apply(w, e).versions && Correctable(Apply(w, e).versions[v])
  {
    var r := w.versions[v];
    if e.v != v {
      UntouchedRow(w, e, v);
    } else if e.Work? {
      if e.token in r.attempts {
        IdleWork(v, r, e.token, e.action);
      }
    } else if e.JobStep? && r.work.Some? && Outside(r, e.step) {
      IdleStep(r, e.step);
    }
  }

  /** Where the read is current, the split start is the start of the machine. */
  lemma EnterIsStart(w: World, v: VersionId, t: Token, view: View)
    requires v in w.versions && Waiting(w.versions[v], t)
    requires Pending(w.versions[v], t) ==> Current(w.versions[v], view)
    ensures var w' := w.(versions := w.versions[v := Entered(w.versions[v], t, view)]);
            w' == w || w' == Apply(w, Work(v, t, Start))
  {
    var r := w.versions[v];
    if r.work.Some? && Jobs.GuardPasses(r.work.value.job, t, r.work.value.now) {
      assert Entered(r, t, view) == Worked(v, r, t, Start);
    } else {
      assert Entered(r, t, view) == r;
      assert w.versions[v := r] == w.versions;
    }
  }

  lemma HappensFaithful(s: System, e: Event)
    requires Faithful(s) && !Overtakes(s, Happens(e)) && !(e.Assess? && e.v in s.locked)
    requires e.Correct? ==> e.v !in s.locked
    ensures Faithful(s.(world := Apply(s.world, e)))
  {
    var w' := Apply(s.world, e);
    ReachableStep(s.world, e);
    forall v, t | (v, t) in s.views
      ensures v in w'.versions && t in w'.versions[v].attempts
      ensures Pending(w'.versions[v], t) ==> Current(w'.versions[v], s.views[(v, t)])
    {
      EventPreserves(s.world, e, v);
    }
    forall v | v in s.locked ensures v in w'.versions && Correctable(w'.versions[v]) {
      CorrectableStays(s.world, e, v);
    }
  }

  lemma EnterFaithful(s: System, v: VersionId, t: Token)
    requires Faithful(s)
    ensures Faithful(Next(s, Enter(v, t)))
  {
    var s' := Next(s, Enter(v, t));
    if s' != s {
      EnterIsStart(s.world, v, t, s.views[(v, t)]);
      if s'.world != s.world {
        HappensFaithful(s, Work(v, t, Start));
      }
    }
  }

  lemma CommitFaithful(s: System, v: VersionId, corrections: seq<Corrections.Correction>, blocks: seq<Chunking.Block>)
    requires Faithful(s)
    ensures Faithful(Next(s, Commit(v, corrections, blocks)))
  {
    var s' := Next(s, Commit(v, corrections, blocks));
    if s' != s {
      var free := s.(locked := s.locked - {v});
      assert s'.world == Apply(s.world, Correct(v, corrections, blocks));
      HappensFaithful(free, Correct(v, corrections, blocks));
      assert s' == free.(world := s'.world);
    }
  }

  lemma NextFaithful(s: System, step: Step)
    requires Faithful(s) && !Overtakes(s, step)
    ensures Faithful(Next(s, step))
  {
    match step
    case Happens(e) =>
      if Whole(s, e) {
        HappensFaithful(s, e);
      }
    case Enter(v, t) => EnterFaithful(s, v, t);
    case Commit(v, corrections, blocks) => CommitFaithful(s, v, corrections, blocks);
    case _ =>
  }

  /** While no job is created between a correction's check and its commit, the split machine reaches
      only worlds that the machine with whole transactions reaches: everything proved of those holds. */
  lemma {:induction false} SeparateIsWhole(s: System, steps: seq<Step>)
    requires Faithful(s) && Separate(s, steps)
    ensures Faithful(Steps(s, steps))
    decreases |steps|
  {
    if steps != [] {
      NextFaithful(s, steps[0]);
      SeparateIsWhole(Next(s, steps[0]), steps[1..]);
    }
  }

  lemma {:induction false} SeparateReaches(steps: seq<Step>)
    requires Separate(NOTHING, steps)
    ensures Reachable(Steps(NOTHING, steps).world)
  {
    assert Run(EMPTY, []) == EMPTY;
    SeparateIsWhole(NOTHING, steps);
  }

  // ---------------------------------------------------------------- with overtaking

  /** An attempt agrees with its version after its start exactly when what it read is still so. */
  lemma EntryAgreesExactly(r: Version, t: Token, view: View)
    requires t in r.attempts && Live(r, t)
    ensures var r' := Entered(r, t, view);
            t in r'.attempts && (InStep(r', r'.attempts[t]) <==> view == View(r.index, r.blocks))
  {
  }

  /** A job is created and claimed after a correction's check. */
  function Ahead(v: VersionId, t: Token, now: int, lease: int): seq<Step> {
    [Check(v), Happens(NewJob(v, now)), Happens(JobStep(v, JP.Claim(t, lease)))]
  }

  /** The new attempt reads the version before the correction commits and starts after it. */
  function Around(v: VersionId, t: Token, corrections: seq<Corrections.Correction>, blocks: seq<Chunking.Block>)
    : seq<Step>
  {
    [Read(v, t), Commit(v, corrections, blocks), Enter(v, t)]
  }

  /** A failed version, ready to be retried or corrected. */
  ghost predicate Retryable(s: System, v: VersionId, t: Token) {
    && v in s.world.versions && v !in s.locked && (v, t) !in s.views
    && s.world.versions[v].status == Failed && Idle(s.world.versions[v])
    && s.world.versions[v].work.Some? && t !in s.world.versions[v].attempts
  }

  /** The claimed row of a fresh job. */
  function Taken(r: Version, t: Token, now: int, lease: int): Version {
    Stepped(r.(work := Some(JP.Init(now))), JP.Claim(t, lease))
  }

  lemma TakenFacts(r: Version, t: Token, now: int, lease: int)
    requires t !in r.attempts && lease > 0
    ensures var c := Taken(r, t, now, lease);
            && c == r.(work := c.work, token := Some(t), attempts := r.attempts[t := ENTERING])
            && Live(c, t) && WorkInv(c)
  {
    JP.ApplyInv(JP.Init(now), JP.Claim(t, lease));
  }

  /** What it comes to: the version is corrected and its attempt in charge works from what was there before. */
  ghost predicate Overtaken(r: Version, t: Token, was: Version, blocks: seq<Chunking.Block>) {
    && r.blocks == blocks && r.index == CLEANUP && r.chunks == [] && r.facts == map[] && r.status == Processing
    && r.kind == was.kind && r.token == Some(t) && t in r.attempts && Live(r, t) && WorkInv(r)
    && r.attempts[t] == Attempt(if was.index.cleanup then Cleaning(0) else AfterCleaning(was.blocks),
                                was.index, was.blocks, [], map[])
  }

  lemma EnteredOvertaken(was: Version, t: Token, now: int, lease: int, blocks: seq<Chunking.Block>)
    requires t !in was.attempts && lease > 0
    ensures Overtaken(Entered(Reset(Taken(was, t, now, lease), blocks), t, View(was.index, was.blocks)), t, was, blocks)
  {
    TakenFacts(was, t, now, lease);
    var r := Reset(Taken(was, t, now, lease), blocks);
    var view := View(was.index, was.blocks);
    var pc := if view.index.cleanup then Cleaning(0) else AfterCleaning(view.blocks);
    GuardedWork(r, t, JP.Untouched, At(r, t, Attempt(pc, view.index, view.blocks, [], map[])).(status := Processing));
  }

  lemma {:induction false} AheadSteps(s: System, v: VersionId, t: Token, now: int, lease: int)
    requires Retryable(s, v, t) && lease > 0
    ensures Steps(s, Ahead(v, t, now, lease)) ==
            With(s, v, Taken(s.world.versions[v], t, now, lease)).(locked := s.locked + {v})
  {
    var r := s.world.versions[v];
    var s1 := s.(locked := s.locked + {v});
    assert Next(s, Check(v)) == s1;
    JobAppears(s1, v, now);
    JobClaimed(With(s1, v, r.(work := Some(JP.Init(now)))), v, t, lease);
    ThreeSteps(s, Ahead(v, t, now, lease));
  }

  lemma JobAppears(s: System, v: VersionId, now: int)
    requires v in s.world.versions && Idle(s.world.versions[v]) && s.world.versions[v].work.Some?
    ensures Next(s, Happens(NewJob(v, now))) == With(s, v, s.world.versions[v].(work := Some(JP.Init(now))))
  {
  }

  lemma JobClaimed(s: System, v: VersionId, t: Token, lease: int)
    requires v in s.world.versions && s.world.versions[v].work.Some? && t !in s.world.versions[v].attempts
    ensures Next(s, Happens(JobStep(v, JP.Claim(t, lease)))) ==
              With(s, v, Stepped(s.world.versions[v], JP.Claim(t, lease)))
  {
  }

  lemma {:induction false} AroundSteps(s: System, v: VersionId, t: Token, corrections: seq<Corrections.Correction>,
                                       blocks: seq<Chunking.Block>)
    requires v in s.world.versions && v in s.locked && (v, t) !in s.views
    requires var r := s.world.versions[v]; Waiting(r, t) && r.status in Processable() && Edits(r, corrections, blocks)
    ensures var s' := Steps(s, Around(v, t, corrections, blocks)); var r := s.world.versions[v];
            && s'.world == With(s, v, Entered(Reset(r, blocks), t, View(r.index, r.blocks))).world
  {
    var r := s.world.versions[v];
    var view := View(r.index, r.blocks);
    var s1 := s.(views := s.views[(v, t) := view]);
    var s2 := With(s1, v, Reset(r, blocks)).(locked := s.locked - {v});
    assert Next(s, Read(v, t)) == s1;
    assert Next(s1, Commit(v, corrections, blocks)) == s2;
    assert Next(s2, Enter(v, t)) == With(s2, v, Entered(Reset(r, blocks), t, view));
    ThreeSteps(s, Around(v, t, corrections, blocks));
  }

  /** So it can come from every failed version and every acceptable correction. */
  lemma {:induction false} RetryOvertakes(s: System, v: VersionId, t: Token, now: int, lease: int,
                                          corrections: seq<Corrections.Correction>, blocks: seq<Chunking.Block>)
    requires Retryable(s, v, t) && lease > 0 && Edits(s.world.versions[v], corrections, blocks)
    ensures var s' := Steps(s, Ahead(v, t, now, lease) + Around(v, t, corrections, blocks));
            && v in s'.world.versions
            && Overtaken(s'.world.versions[v], t, s.world.versions[v], blocks)
            && s'.world.backend == s.world.backend
  {
    var r := s.world.versions[v];
    var s1 := Steps(s, Ahead(v, t, now, lease));
    StepsConcat(s, Ahead(v, t, now, lease), Around(v, t, corrections, blocks));
    AheadSteps(s, v, t, now, lease);
    TakenFacts(r, t, now, lease);
    AroundSteps(s1, v, t, corrections, blocks);
    EnteredOvertaken(r, t, now, lease, blocks);
  }

  lemma {:induction false} StepsConcat(s: System, first: seq<Step>, second: seq<Step>)
    ensures Steps(s, first + second) == Steps(Steps(s, first), second)
    decreases |first|
  {
    if first == [] {
      assert first + second == second;
    } else {
      assert (first + second)[1..] == first[1..] + second;
      StepsConcat(Next(s, first[0]), first[1..], second);
    }
  }

  lemma {:induction false} ThreeSteps(s: System, steps: seq<Step>)
    requires |steps| == 3
    ensures Steps(s, steps) == Next(Next(Next(s, steps[0]), steps[1]), steps[2])
  {
    var s1 := Next(s, steps[0]);
    var s2 := Next(s1, steps[1]);
    assert Steps(s, steps) == Steps(s1, steps[1..]);
    assert steps[1..][0] == steps[1] && steps[1..][1..] == [steps[2]];
    assert Steps(s1, steps[1..]) == Steps(s2, [steps[2]]);
    assert [steps[2]][1..] == [];
    assert Steps(s2, [steps[2]]) == Steps(Next(s2, steps[2]), []);
  }

  /** One accepted step of an attempt with a live lease, whatever the row says. */
  lemma Takes(v: VersionId, r: Version, t: Token, action: Action, p: Proposal)
    requires t in r.attempts && WorkInv(r) && Live(r, t) && !action.GiveUp? && !action.Finish?
    requires p == Proposed(v, r, t, action) && !p.Refused?
    ensures var r' := Worked(v, r, t, action);
            r' == p.next.(work := r'.work) && Live(r', t) && WorkInv(r') && t in r'.attempts
  {
    FreeKeepsWork(v, r, t, action);
    assert JP.Inv(r.work.value);
    ChangeFits(v, r, t, action);
    ProposalCommits(r, t, p);
    if p.Fenced? {
      GuardedWork(r, t, p.change, p.next);
    }
  }

  /** The overtaken attempt cuts the uncorrected artifact, and with its facts it writes back the
      state it read: the cleanup that the correction demands is forgotten. */
  lemma OvertakenWorks(v: VersionId, r: Version, t: Token, was: Version, blocks: seq<Chunking.Block>,
                       plan: nat -> seq<string>, chunks: seq<Chunking.Chunk>, answers: nat -> seq<Facts.Fact>)
    returns (r1: Version, r2: Version, r3: Version)
    requires Overtaken(r, t, was, blocks) && was.blocks != [] && !was.index.cleanup && !was.index.facts
    requires Chunking.Segmented(was.blocks, was.kind, plan) == Ok(chunks) && chunks != [] && |chunks| <= CHUNK_LIMIT
    requires Facts.AllSupported(v, chunks, Facts.Answered(|chunks|, 0, answers))
    ensures r1 == Worked(v, r, t, SaveChunks(plan)) && t in r1.attempts
    ensures r2 == Worked(v, r1, t, ReadChunks) && t in r2.attempts
    ensures r3 == Worked(v, r2, t, SaveFacts(answers))
    ensures r3.blocks == blocks && r3.chunks == chunks && r3.index == was.index.(facts := true)
  {
    r1 := Worked(v, r, t, SaveChunks(plan));
    CutTaken(v, r, t, plan, chunks);
    r2 := Worked(v, r1, t, ReadChunks);
    ReadTaken(v, r1, t);
    r3 := Worked(v, r2, t, SaveFacts(answers));
    SaveTaken(v, r2, t, answers);
  }

  lemma CutTaken(v: VersionId, r: Version, t: Token, plan: nat -> seq<string>, chunks: seq<Chunking.Chunk>)
    requires t in r.attempts && WorkInv(r) && Live(r, t) && r.attempts[t].pc == Segmenting && r.chunks == []
    requires Chunking.Segmented(r.attempts[t].blocks, r.kind, plan) == Ok(chunks) && |chunks| <= CHUNK_LIMIT
    ensures var r' := Worked(v, r, t, SaveChunks(plan));
            r' == r.(chunks := chunks, work := r'.work) && Live(r', t) && WorkInv(r')
  {
    Takes(v, r, t, SaveChunks(plan), Fenced(JP.Untouched, r.(chunks := chunks)));
  }

  lemma ReadTaken(v: VersionId, r: Version, t: Token)
    requires t in r.attempts && WorkInv(r) && Live(r, t) && r.attempts[t].pc == Segmenting && r.chunks != []
    ensures var r' := Worked(v, r, t, ReadChunks);
            && r' == At(r, t, r.attempts[t].(chunks := r.chunks, pc := Extracting)).(work := r'.work)
            && Live(r', t) && WorkInv(r')
  {
    Takes(v, r, t, ReadChunks, Proposed(v, r, t, ReadChunks));
  }

  lemma SaveTaken(v: VersionId, r: Version, t: Token, answers: nat -> seq<Facts.Fact>)
    requires t in r.attempts && WorkInv(r) && Live(r, t) && r.attempts[t].pc == Extracting && !r.attempts[t].index.facts
    requires Facts.AllSupported(v, r.attempts[t].chunks, Facts.Answered(|r.attempts[t].chunks|, 0, answers))
    ensures var r' := Worked(v, r, t, SaveFacts(answers));
            r'.blocks == r.blocks && r'.chunks == r.chunks && r'.index == r.attempts[t].index.(facts := true)
  {
    Takes(v, r, t, SaveFacts(answers), Proposed(v, r, t, SaveFacts(answers)));
  }

  lemma WorkStep(s: System, v: VersionId, t: Token, a: Action)
    requires v in s.world.versions && t in s.world.versions[v].attempts
    requires !a.Start? && !a.DeleteIndex? && !a.Upsert?
    ensures Next(s, Happens(Work(v, t, a))) == With(s, v, Worked(v, s.world.versions[v], t, a))
  {
  }

  function Resuming(v: VersionId, t: Token, plan: nat -> seq<string>, answers: nat -> seq<Facts.Fact>): seq<Step> {
    [Happens(Work(v, t, SaveChunks(plan))), Happens(Work(v, t, ReadChunks)), Happens(Work(v, t, SaveFacts(answers)))]
  }

  lemma {:induction false} OvertakenSteps(s: System, v: VersionId, t: Token, was: Version, blocks: seq<Chunking.Block>,
                                          plan: nat -> seq<string>, chunks: seq<Chunking.Chunk>,
                                          answers: nat -> seq<Facts.Fact>)
    requires v in s.world.versions && Overtaken(s.world.versions[v], t, was, blocks)
    requires was.blocks != [] && !was.index.cleanup && !was.index.facts
    requires Chunking.Segmented(was.blocks, was.kind, plan) == Ok(chunks) && |chunks| <= CHUNK_LIMIT
    requires Facts.AllSupported(v, chunks, Facts.Answered(|chunks|, 0, answers))
    ensures Lost(Steps(s, Resuming(v, t, plan, answers)), v, blocks, chunks, s.world.backend)
  {
    Segmentation.SegmentNotEmpty(was.blocks, was.kind, plan);
    var r1, r2, r3 := OvertakenWorks(v, s.world.versions[v], t, was, blocks, plan, chunks, answers);
    WorkStep(s, v, t, SaveChunks(plan));
    WorkStep(With(s, v, r1), v, t, ReadChunks);
    WorkStep(With(With(s, v, r1), v, r2), v, t, SaveFacts(answers));
    ThreeSteps(s, Resuming(v, t, plan, answers));
  }

  /** The artifact is corrected, the chunks are these, and no cleanup is due over untouched indexes. */
  predicate Lost(s: System, v: VersionId, blocks: seq<Chunking.Block>, chunks: seq<Chunking.Chunk>, backend: Backend) {
    && v in s.world.versions
    && s.world.versions[v].blocks == blocks && s.world.versions[v].chunks == chunks
    && !s.world.versions[v].index.cleanup && s.world.backend == backend
  }

  /** From every failed version whose facts were not extracted, and for every acceptable correction of
      it, a retry that overtakes leaves the corrected artifact with the chunks of the uncorrected one,
      and no cleanup due although nothing was deleted. */
  lemma {:induction false} OvertakingLosesCorrection(s: System, v: VersionId, t: Token, now: int, lease: int,
                                                     corrections: seq<Corrections.Correction>,
                                                     blocks: seq<Chunking.Block>, plan: nat -> seq<string>,
                                                     chunks: seq<Chunking.Chunk>, answers: nat -> seq<Facts.Fact>)
    requires Retryable(s, v, t) && lease > 0 && Edits(s.world.versions[v], corrections, blocks)
    requires var r := s.world.versions[v];
             && r.blocks != [] && !r.index.cleanup && !r.index.facts
             && Chunking.Segmented(r.blocks, r.kind, plan) == Ok(chunks) && |chunks| <= CHUNK_LIMIT
             && Facts.AllSupported(v, chunks, Facts.Answered(|chunks|, 0, answers))
    ensures var schedule := Ahead(v, t, now, lease) + Around(v, t, corrections, blocks);
            Lost(Steps(s, schedule + Resuming(v, t, plan, answers)), v, blocks, chunks, s.world.backend)
  {
    var schedule := Ahead(v, t, now, lease) + Around(v, t, corrections, blocks);
    RetryOvertakes(s, v, t, now, lease, corrections, blocks);
    StepsConcat(s, schedule, Resuming(v, t, plan, answers));
    OvertakenSteps(Steps(s, schedule), v, t, s.world.versions[v], blocks, plan, chunks, answers);
  }
}
