/** Main results about investigations: crashes change nothing, and every run stays within bounds. */
module InvestigationRuns {
  import opened Common
  import opened Investigation

  // ---------------------------------------------------------------- resuming after a crash

  /** A node that committed, run again from the checkpoint before it, gives the same graph state
      (or the same error) and leaves the database alone: it calls no model and stores nothing. */
  lemma NodeReplays(answers: Answers, initial: Item, db: Database, g: Graph, node: Node)
    requires Ready(node, g) && node != End
    ensures var once := RunNode(answers, initial, db, g, node);
            RunNode(answers, initial, once.db, g, node) == once
  {
  }

  /** A worker process: what is committed, the last checkpoint, what is not yet checkpointed. */
  datatype Process = Process(db: Database, graph: Graph, node: Node, pending: Option<(Graph, Node)>,
                             error: Option<InvestigationError>, saves: nat)

  datatype Event = Execute | Checkpoint | Crash

  const BEGIN := Process(FRESH_DATABASE, FRESH_GRAPH, Coordinator, None, None, 0)

  ghost predicate Sane(s: Process) {
    && Ready(s.node, s.graph)
    && (s.pending.Some? ==> Ready(s.pending.value.1, s.pending.value.0))
  }

  /** A crash inside a node's transaction leaves no trace; one after it forgets what was not
      checkpointed, or an error that the job did not record yet. A retry after a recorded error
      starts a new run. */
  function Apply(answers: Answers, initial: Item, s: Process, e: Event): (r: Process)
    requires Sane(s)
    ensures Sane(r)
  {
    match e
    case Execute =>
      if s.node == End || s.pending.Some? || s.error.Some? then s
      else
        (match RunNode(answers, initial, s.db, s.graph, s.node)
         case Stopped(db, error) => s.(db := db, error := Some(error))
         case Advanced(db, g) =>
           NodeDecreases(answers, initial, s.db, s.graph, s.node);
           s.(db := db, pending := Some((g, Next(s.node, g)))))
    case Checkpoint =>
      if s.pending.None? then s
      else Process(s.db, s.pending.value.0, s.pending.value.1, None, s.error, s.saves + 1)
    case Crash => s.(pending := None, error := None)
  }

  function Run(answers: Answers, initial: Item, s: Process, events: seq<Event>): (r: Process)
    requires Sane(s)
    ensures Sane(r)
    decreases |events|
  {
    if events == [] then s else Run(answers, initial, Apply(answers, initial, s, events[0]), events[1..])
  }

  function Rest(answers: Answers, initial: Item, s: Process): Ending
    requires Sane(s)
  {
    Complete(answers, initial, Point(s.db, s.graph, s.node))
  }

  /** What is left to do from the checkpoint, and from what is not yet checkpointed, is what was
      left to do at the start. */
  ghost predicate OnTrack(answers: Answers, initial: Item, s: Process) {
    && Sane(s)
    && Rest(answers, initial, s) == Complete(answers, initial, START)
    && (s.pending.Some? ==>
          && s.node != End
          && RunNode(answers, initial, s.db, s.graph, s.node) == Advanced(s.db, s.pending.value.0)
          && (s.node == Critic ==> s.pending.value.0.critic.Some?)
          && s.pending.value.1 == Next(s.node, s.pending.value.0))
    && (s.error.Some? ==> s.pending.None? && s.node != End
                          && RunNode(answers, initial, s.db, s.graph, s.node) == Stopped(s.db, s.error.value))
    && s.saves + Rank(s.node, s.graph) <= Rank(Coordinator, FRESH_GRAPH)
  }

  lemma ApplyOnTrack(answers: Answers, initial: Item, s: Process, e: Event)
    requires OnTrack(answers, initial, s)
    ensures OnTrack(answers, initial, Apply(answers, initial, s, e))
  {
    if s.node != End {
      NodeReplays(answers, initial, s.db, s.graph, s.node);
      if RunNode(answers, initial, s.db, s.graph, s.node).Advanced? {
        NodeDecreases(answers, initial, s.db, s.graph, s.node);
      }
    }
  }

  lemma {:induction false} RunOnTrack(answers: Answers, initial: Item, s: Process, events: seq<Event>)
    requires OnTrack(answers, initial, s)
    ensures OnTrack(answers, initial, Run(answers, initial, s, events))
    decreases |events|
  {
    if events != [] {
      ApplyOnTrack(answers, initial, s, events[0]);
      RunOnTrack(answers, initial, Apply(answers, initial, s, events[0]), events[1..]);
    }
  }

  /** Crash as often as you like, between any commit and its checkpoint: a run that reaches the end
      has exactly the graph state and the database of the run without crashes, so also exactly
      its model calls; and a run that fails, fails as that run does. */
  lemma {:induction false} CrashesChangeNothing(answers: Answers, initial: Item, events: seq<Event>)
    ensures var s := Run(answers, initial, BEGIN, events); var ideal := Complete(answers, initial, START);
            && (s.node == End ==> ideal == Completed(Point(s.db, s.graph, End)))
            && (s.error.Some? ==> ideal == Failed(Point(s.db, s.graph, s.node), s.error.value))
            && s.saves <= 13
  {
    RunOnTrack(answers, initial, BEGIN, events);
  }

  // ---------------------------------------------------------------- bounds

  predicate Past(node: Node, role: Node) {
    Position(node) < Position(role)
  }

  ghost predicate Covered(report: EvidenceReport, known: seq<Item>) {
    exists n: nat :: n <= |known| && UpTo(report, n)
  }

  ghost predicate UpTo(report: EvidenceReport, n: nat) {
    forall id: EvidenceId :: id in report.facts <==> id < n
  }

  /** Holds at every point of the run without crashes. */
  ghost predicate Bounded(p: Point) {
    && CallsBounded(p.db.steps, p.node, p.graph.revision)
    && ToolsBounded(p.db)
    && CitationsValid(p.graph, p.db.known)
    && NothingStale(p)
    && (p.graph.evidence.Some? ==> Evidence in p.db.tasks)
  }

  ghost predicate CallsBounded(steps: seq<Step>, node: Node, revision: nat) {
    && Calls(steps, Coordinator) == (if node == Coordinator then 0 else 1)
    && Calls(steps, End) == 0
    && forall role :: role in {Risk, Plan, Critic} ==>
         Calls(steps, role) <= revision + if Past(node, role) then 1 else 0
  }

  ghost predicate ToolsBounded(db: Database) {
    && Distinct(Queries(db.steps))
    && Decisions(db.steps) <= DECISION_BUDGET
    && |Queries(db.steps)| + (if Evidence in db.tasks then 1 else 0) <= Decisions(db.steps)
    && |db.known| <= 1 + ROWS_PER_CALL * |Queries(db.steps)|
  }

  ghost predicate CitationsValid(g: Graph, known: seq<Item>) {
    && (g.evidence.Some? ==> Covered(g.evidence.value, known))
    && (g.risk.Some? ==> g.evidence.Some? && Cites(g.evidence.value, g.risk.value.evidence))
    && (g.plan.Some? ==> g.evidence.Some? && Cites(g.evidence.value, g.plan.value.evidence))
    && (g.critic.Some? ==> g.evidence.Some? && Cites(g.evidence.value, g.critic.value.evidence))
  }

  /** No task is remembered for a visit that is still to come. */
  ghost predicate NothingStale(p: Point) {
    && (Coordinator in p.db.tasks <==> p.node != Coordinator) && End !in p.db.tasks
    && (forall role :: role in p.db.tasks && role != Coordinator && !Past(p.node, role) ==>
          p.db.tasks[role].revision < p.graph.revision)
    && (forall role :: role in p.db.tasks ==> p.db.tasks[role].revision <= p.graph.revision)
  }

  lemma {:induction false} GatherBounded(answers: Answers, p: Progress)
    requires Distinct(Queries(p.steps)) && |Queries(p.steps)| <= Decisions(p.steps) <= DECISION_BUDGET
    requires |p.known| <= 1 + ROWS_PER_CALL * |Queries(p.steps)|
    ensures var r := GatherFrom(answers, p);
            r.Enough? ==>
              && Distinct(Queries(r.steps)) && |Queries(r.steps)| + 1 <= Decisions(r.steps) <= DECISION_BUDGET
              && |r.known| <= 1 + ROWS_PER_CALL * |Queries(r.steps)|
              && p.known <= r.known
              && forall role :: role != Evidence ==> Calls(r.steps, role) == Calls(p.steps, role)
    decreases DECISION_BUDGET - Decisions(p.steps)
  {
    if Decisions(p.steps) < DECISION_BUDGET {
      var decided := p.steps + [ModelCall(Evidence)];
      Recorded(p.steps, ModelCall(Evidence));
      match answers.decision(Decisions(p.steps))
      case Finish(_) =>
      case Search(tool, query) =>
        if (tool, query) !in Queries(p.steps) {
          Recorded(decided, ToolCall((tool, query)));
          var rows := Captured(answers.rows(Decisions(p.steps)));
          var next := Progress(p.known + rows, decided + [ToolCall((tool, query))]);
          assert p.known <= next.known;
          GatherBounded(answers, next);
        }
    }
  }

  /** Evidence only grows, so what was cited stays citable. */
  lemma StillCited(earlier: EvidenceReport, report: EvidenceReport, before: seq<Item>, known: seq<Item>,
                   unknowns: seq<string>)
    requires Covered(earlier, before) && before <= known && report == Report(known, unknowns)
    ensures Covered(report, known)
    ensures forall ids :: Cites(earlier, ids) ==> Cites(report, ids)
  {
    assert UpTo(report, |known|);
    var n: nat :| n <= |before| && UpTo(earlier, n);
  }

  lemma GatherStep(answers: Answers, initial: Item, p: Point)
    requires Bounded(p) && p.node == Evidence && Ready(p.node, p.graph)
    ensures match Gather(answers, initial, p.db, p.graph)
            case Stopped(db, _) => db == p.db
            case Advanced(db, g) => Bounded(Point(db, g, Risk)) && g.evidence.Some?
  {
    assert !Remembered(p.db, Evidence, p.graph.revision);
    var known := Initial(p.db.known, initial);
    GatherBounded(answers, Progress(known, p.db.steps));
    var r := GatherFrom(answers, Progress(known, p.db.steps));
    if r.Enough? {
      var report := Report(r.known, r.unknowns);
      assert UpTo(report, |r.known|);
      if p.graph.evidence.Some? {
        StillCited(p.graph.evidence.value, report, p.db.known, r.known, r.unknowns);
      }
    }
  }

  lemma PlainStep(answers: Answers, initial: Item, p: Point)
    requires Bounded(p) && p.node in {Coordinator, Risk, Plan} && Ready(p.node, p.graph)
    ensures match RunNode(answers, initial, p.db, p.graph, p.node)
            case Stopped(db, _) => db == p.db
            case Advanced(db, g) => Bounded(Point(db, g, Next(p.node, g)))
  {
    Recorded(p.db.steps, ModelCall(p.node));
    assert p.node in {Risk, Plan} ==> !Remembered(p.db, p.node, p.graph.revision);
  }

  /** The counts every run respects, whether it succeeds or fails. */
  ghost predicate WithinBudget(db: Database) {
    && Calls(db.steps, Coordinator) <= 1 && Calls(db.steps, Evidence) <= 6
    && Calls(db.steps, Risk) <= 3 && Calls(db.steps, Plan) <= 3 && Calls(db.steps, Critic) <= 3
    && Calls(db.steps, End) == 0
    && Distinct(Queries(db.steps)) && |Queries(db.steps)| <= 6
    && (Evidence in db.tasks ==> |Queries(db.steps)| <= 5 && |db.known| <= 26)
  }

  /** After the critic's commit, before its verdict is acted on. */
  ghost predicate Reviewable(db: Database, g: Graph) {
    && Calls(db.steps, Coordinator) == 1 && Calls(db.steps, End) == 0
    && (forall role :: role in {Risk, Plan, Critic} ==> Calls(db.steps, role) <= g.revision + 1)
    && ToolsBounded(db) && Evidence in db.tasks && Coordinator in db.tasks && End !in db.tasks
    && (forall role :: role in db.tasks ==> db.tasks[role].revision <= g.revision)
    && CitationsValid(g, db.known)
    && Ready(Critic, g)
  }

  lemma CriticCommits(p: Point, critic: CriticReport)
    requires Bounded(p) && p.node == Critic && Ready(p.node, p.graph)
    ensures Reviewable(Commit(p.db, Critic, p.graph.revision, Reviewed(critic)), p.graph)
  {
    Recorded(p.db.steps, ModelCall(Critic));
  }

  lemma VerdictStep(db: Database, g: Graph, critic: CriticReport)
    requires Reviewable(db, g) && Cites(g.evidence.value, critic.evidence)
    ensures WithinBudget(db)
    ensures match Judged(db, g, critic)
            case Stopped(db', _) => db' == db
            case Advanced(db', g') => g'.critic.Some? && Bounded(Point(db', g', Next(Critic, g')))
  {
    assert Risk in {Risk, Plan, Critic} && Plan in {Risk, Plan, Critic} && Critic in {Risk, Plan, Critic};
  }

  lemma CriticStep(answers: Answers, initial: Item, p: Point)
    requires Bounded(p) && p.node == Critic && Ready(p.node, p.graph)
    ensures match RunNode(answers, initial, p.db, p.graph, p.node)
            case Stopped(db, _) => db == p.db || WithinBudget(db)
            case Advanced(db, g) => g.critic.Some? && Bounded(Point(db, g, Next(p.node, g)))
  {
    assert !Remembered(p.db, Critic, p.graph.revision);
    var critic := answers.critic(p.graph.revision);
    if Cites(p.graph.evidence.value, critic.evidence) {
      CriticCommits(p, critic);
      VerdictStep(Commit(p.db, Critic, p.graph.revision, Reviewed(critic)), p.graph, critic);
    }
  }

  lemma BoundedBudget(p: Point)
    requires Bounded(p) && Ready(p.node, p.graph)
    ensures WithinBudget(p.db)
  {
    assert Risk in {Risk, Plan, Critic} && Plan in {Risk, Plan, Critic} && Critic in {Risk, Plan, Critic};
  }

  lemma StepBounded(answers: Answers, initial: Item, p: Point)
    requires Bounded(p) && Ready(p.node, p.graph) && p.node != End
    ensures var r := RunNode(answers, initial, p.db, p.graph, p.node);
            && WithinBudget(r.db)
            && (r.Advanced? ==>
                  && (p.node == Critic ==> r.graph.critic.Some?)
                  && Bounded(Point(r.db, r.graph, Next(p.node, r.graph))))
  {
    match p.node {
      case Evidence => GatherStep(answers, initial, p);
      case Critic => CriticStep(answers, initial, p);
      case _ => PlainStep(answers, initial, p);
    }
    BoundedBudget(p);
    var r := RunNode(answers, initial, p.db, p.graph, p.node);
    if r.Advanced? {
      NodeDecreases(answers, initial, p.db, p.graph, p.node);
      BoundedBudget(Point(r.db, r.graph, Next(p.node, r.graph)));
    }
  }

  lemma {:induction false} CompleteBounded(answers: Answers, initial: Item, p: Point)
    requires Bounded(p) && Ready(p.node, p.graph)
    ensures var r := Complete(answers, initial, p);
            r.Completed? ==> Bounded(r.at) && r.at.node == End && Ready(End, r.at.graph)
    decreases MAX_REVISION - p.graph.revision, Position(p.node)
  {
    if p.node != End {
      StepBounded(answers, initial, p);
      var r := RunNode(answers, initial, p.db, p.graph, p.node);
      if r.Advanced? {
        NodeDecreases(answers, initial, p.db, p.graph, p.node);
        CompleteBounded(answers, initial, Point(r.db, r.graph, Next(p.node, r.graph)));
      }
    }
  }

  /** The database is the one at the checkpoint, or one node ahead of it. */
  ghost predicate OneAhead(answers: Answers, initial: Item, s: Process, before: Database) {
    && Sane(s) && Bounded(Point(before, s.graph, s.node))
    && (s.db == before || (s.node != End && s.db == RunNode(answers, initial, before, s.graph, s.node).db))
    && (s.pending.Some? ==>
          && s.node != End
          && RunNode(answers, initial, before, s.graph, s.node) == Advanced(s.db, s.pending.value.0)
          && (s.node == Critic ==> s.pending.value.0.critic.Some?)
          && s.pending.value.1 == Next(s.node, s.pending.value.0))
  }

  lemma ApplyOneAhead(answers: Answers, initial: Item, s: Process, e: Event, before: Database) returns (after: Database)
    requires OneAhead(answers, initial, s, before)
    ensures OneAhead(answers, initial, Apply(answers, initial, s, e), after)
  {
    after := before;
    if s.node != End {
      NodeReplays(answers, initial, before, s.graph, s.node);
      if RunNode(answers, initial, before, s.graph, s.node).Advanced? {
        NodeDecreases(answers, initial, before, s.graph, s.node);
      }
    }
    if e.Checkpoint? && s.pending.Some? {
      StepBounded(answers, initial, Point(before, s.graph, s.node));
      after := s.db;
    }
  }

  lemma {:induction false} RunOneAhead(answers: Answers, initial: Item, s: Process, events: seq<Event>,
                                       before: Database)
    returns (after: Database)
    requires OneAhead(answers, initial, s, before)
    ensures OneAhead(answers, initial, Run(answers, initial, s, events), after)
    decreases |events|
  {
    if events == [] {
      after := before;
    } else {
      var next := ApplyOneAhead(answers, initial, s, events[0], before);
      after := RunOneAhead(answers, initial, Apply(answers, initial, s, events[0]), events[1..], next);
    }
  }

  function ModelCalls(steps: seq<Step>): nat {
    if steps == [] then 0 else ModelCalls(steps[..|steps| - 1]) + if steps[|steps| - 1].ModelCall? then 1 else 0
  }

  lemma {:induction false} ModelCallsByRole(steps: seq<Step>)
    ensures ModelCalls(steps) == Calls(steps, Coordinator) + Calls(steps, Evidence) + Calls(steps, Risk)
                                 + Calls(steps, Plan) + Calls(steps, Critic) + Calls(steps, End)
  {
    if steps != [] {
      ModelCallsByRole(steps[..|steps| - 1]);
      var last := steps[|steps| - 1];
      if last.ModelCall? {
        match last.role {
          case Coordinator =>
          case Evidence =>
          case Risk =>
          case Plan =>
          case Critic =>
          case End =>
        }
      }
    }
  }

  lemma StartBounded()
    ensures Bounded(START)
  {
  }

  /** At any moment, with any crashes, at most 16 model calls are recorded; once evidence was
      gathered there are at most five tool calls, no two alike, and at most 26 evidence rows. */
  lemma {:induction false} RunBounds(answers: Answers, initial: Item, events: seq<Event>)
    ensures var s := Run(answers, initial, BEGIN, events);
            && ModelCalls(s.db.steps) <= 16
            && Calls(s.db.steps, Coordinator) <= 1 && Calls(s.db.steps, Evidence) <= 6
            && Calls(s.db.steps, Risk) <= 3 && Calls(s.db.steps, Plan) <= 3 && Calls(s.db.steps, Critic) <= 3
            && Distinct(Queries(s.db.steps))
            && (Evidence in s.db.tasks ==> |Queries(s.db.steps)| <= 5 && |s.db.known| <= 26)
  {
    StartBounded();
    var s := Run(answers, initial, BEGIN, events);
    var before := RunOneAhead(answers, initial, BEGIN, events, FRESH_DATABASE);
    BoundedBudget(Point(before, s.graph, s.node));
    if s.node != End {
      StepBounded(answers, initial, Point(before, s.graph, s.node));
    }
    ModelCallsByRole(s.db.steps);
  }

  /** A successful run gathered evidence. */
  lemma {:induction false} SuccessGathered(answers: Answers, initial: Item, events: seq<Event>)
    requires Run(answers, initial, BEGIN, events).node == End
    ensures Evidence in Run(answers, initial, BEGIN, events).db.tasks
  {
    StartBounded();
    var before := RunOneAhead(answers, initial, BEGIN, events, FRESH_DATABASE);
  }

  // ---------------------------------------------------------------- the proposal and its score

  datatype Proposal = Proposal(category: string, level: string, rationale: string, action: string,
                               evidence: seq<EvidenceId>, unknowns: seq<string>, conflicts: seq<string>)

  function Proposed(g: Graph): Proposal
    requires Ready(End, g)
  {
    Proposal(g.risk.value.category, g.risk.value.level, g.risk.value.rationale, g.plan.value.action,
             g.critic.value.evidence, g.risk.value.unknowns, g.critic.value.conflicts)
  }

  datatype Quality = Quality(coverage: nat, validity: nat, completeness: nat, conflict: nat, overall: nat)

  /** Python's `round` of `total / 6`: ties go to the even neighbour. */
  function RoundSixth(total: nat): nat {
    var q, r := total / 6, total % 6;
    if r < 3 || (r == 3 && q % 2 == 0) then q else q + 1
  }

  predicate Complete4(p: Proposal) {
    p.category != "" && p.level != "" && p.rationale != "" && p.action != ""
  }

  predicate ValidCitations(p: Proposal, report: EvidenceReport) {
    forall id :: id in p.evidence ==> id in report.facts
  }

  function Evaluate(p: Proposal, report: EvidenceReport): Quality {
    var coverage := if p.evidence != [] then 100 else 0;
    var validity := if ValidCitations(p, report) then 100 else 0;
    var completeness := if Complete4(p) then 100 else 0;
    var conflict := if p.conflicts == [] then 100 else if |p.conflicts| >= 5 then 0 else 100 - 20 * |p.conflicts|;
    Quality(coverage, validity, completeness, conflict,
            RoundSixth(coverage + validity + completeness + conflict + 100 + 100))
  }

  /** Rounding is to the nearest: no tie can arise from six multiples of twenty. */
  lemma NoTies(p: Proposal, report: EvidenceReport)
    ensures var q := Evaluate(p, report);
            var total := q.coverage + q.validity + q.completeness + q.conflict + 200;
            total % 6 != 3 && q.overall == (total + 3) / 6
  {
    var q := Evaluate(p, report);
    var total := q.coverage + q.validity + q.completeness + q.conflict + 200;
    assert total % 2 == 0;
  }

  /** The parts of the score: every conflict costs twenty points, the others are all or nothing. */
  lemma QualityExact(p: Proposal, report: EvidenceReport)
    ensures var q := Evaluate(p, report);
            && q.coverage == (if p.evidence == [] then 0 else 100)
            && q.validity == (if forall id :: id in p.evidence ==> id in report.facts then 100 else 0)
            && q.completeness == (if "" in [p.category, p.level, p.rationale, p.action] then 0 else 100)
            && q.conflict == Max(0, 100 - 20 * |p.conflicts|)
  {
  }

  /** Every successful run, with any crashes: the surviving citations of all roles are rows of the
      final evidence, validity is 100, and the score lies in 50..100, with 100 exactly for
      evidence, complete fields and no conflicts. */
  lemma {:induction false} ProposalQuality(answers: Answers, initial: Item, events: seq<Event>)
    requires Run(answers, initial, BEGIN, events).node == End
    ensures var g := Run(answers, initial, BEGIN, events).graph;
            && Ready(End, g)
            && Cites(g.evidence.value, g.risk.value.evidence)
            && Cites(g.evidence.value, g.plan.value.evidence)
            && Cites(g.evidence.value, g.critic.value.evidence)
    ensures var g := Run(answers, initial, BEGIN, events).graph;
            var p := Proposed(g); var q := Evaluate(p, g.evidence.value);
            && q.validity == 100
            && 50 <= q.overall <= 100
            && (q.overall == 100 <==> p.evidence != [] && Complete4(p) && p.conflicts == [])
  {
    CrashesChangeNothing(answers, initial, events);
    StartBounded();
    CompleteBounded(answers, initial, START);
  }
}
