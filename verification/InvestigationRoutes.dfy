/** Which nodes a finished investigation went through, and whose answers its proposal is made of. */
module InvestigationRoutes {
  import opened Common
  import opened Investigation
  import opened InvestigationRuns

  // ---------------------------------------------------------------- what gathering did

  /** The decisions from the `from`-th on, `n` of them, were searches. */
  ghost predicate AllSearches(answers: Answers, from: nat, n: nat) {
    forall j: nat :: from <= j < from + n ==> answers.decision(j).Search?
  }

  ghost function Searched(answers: Answers, from: nat, n: nat): seq<Query>
    requires AllSearches(answers, from, n)
    decreases n
  {
    if n == 0 then []
    else [(answers.decision(from).tool, answers.decision(from).query)] + Searched(answers, from + 1, n - 1)
  }

  /** At most the first five rows of each search. */
  ghost function Found(answers: Answers, from: nat, n: nat): seq<Item>
    decreases n
  {
    if n == 0 then [] else answers.rows(from)[..Min(5, |answers.rows(from)|)] + Found(answers, from + 1, n - 1)
  }

  /** One visit of the evidence node: `n` searches, and then a decision to finish, a repeated search,
      or no decision left of the six of the whole run. */
  ghost predicate Visit(answers: Answers, p: Progress, r: Gathering, n: nat) {
    var k := Decisions(p.steps);
    && AllSearches(answers, k, n)
    && match r
       case Enough(known, steps, unknowns) =>
         && k + n < 6 && answers.decision(k + n) == Finish(unknowns) && Decisions(steps) == k + n + 1
         && Queries(steps) == Queries(p.steps) + Searched(answers, k, n)
         && known == p.known + Found(answers, k, n)
       case Stuck(error) =>
         || (error == BudgetExceeded && k + n >= 6)
         || (error == RepeatedCall && k + n < 6 && answers.decision(k + n).Search?
             && (answers.decision(k + n).tool, answers.decision(k + n).query)
                in Queries(p.steps) + Searched(answers, k, n))
  }

  lemma VisitFirst(answers: Answers, p: Progress, next: Progress, r: Gathering, n: nat)
    requires var k := Decisions(p.steps);
             && k < 6 && answers.decision(k).Search? && Decisions(next.steps) == k + 1
             && Queries(next.steps) == Queries(p.steps) + [(answers.decision(k).tool, answers.decision(k).query)]
             && next.known == p.known + answers.rows(k)[..Min(5, |answers.rows(k)|)]
    requires Visit(answers, next, r, n)
    ensures Visit(answers, p, r, n + 1)
  {
    var k := Decisions(p.steps);
    var first := [(answers.decision(k).tool, answers.decision(k).query)];
    Associative(Queries(p.steps), first, Searched(answers, k + 1, n));
    Associative(p.known, answers.rows(k)[..Min(5, |answers.rows(k)|)], Found(answers, k + 1, n));
  }

  /** One search that is not a repetition. */
  lemma {:induction false} SearchedOnce(answers: Answers, p: Progress) returns (next: Progress)
    requires var d := answers.decision(Decisions(p.steps));
             Decisions(p.steps) < DECISION_BUDGET && d.Search? && (d.tool, d.query) !in Queries(p.steps)
    ensures var k := Decisions(p.steps);
            && Decisions(next.steps) == k + 1
            && Queries(next.steps) == Queries(p.steps) + [(answers.decision(k).tool, answers.decision(k).query)]
            && next.known == p.known + answers.rows(k)[..Min(5, |answers.rows(k)|)]
    ensures GatherFrom(answers, p) == GatherFrom(answers, next)
  {
    var k := Decisions(p.steps);
    var key := (answers.decision(k).tool, answers.decision(k).query);
    var decided := p.steps + [ModelCall(Evidence)];
    Recorded(p.steps, ModelCall(Evidence));
    Recorded(decided, ToolCall(key));
    next := Progress(p.known + Captured(answers.rows(k)), decided + [ToolCall(key)]);
  }

  /** The visit ends at once. */
  lemma {:induction false} VisitLast(answers: Answers, p: Progress)
    requires var d := answers.decision(Decisions(p.steps));
             !(Decisions(p.steps) < DECISION_BUDGET && d.Search? && (d.tool, d.query) !in Queries(p.steps))
    ensures Visit(answers, p, GatherFrom(answers, p), 0)
  {
    Recorded(p.steps, ModelCall(Evidence));
    assert Queries(p.steps) + [] == Queries(p.steps) && p.known + [] == p.known;
  }

  lemma {:induction false} GatherMeans(answers: Answers, p: Progress) returns (n: nat)
    ensures Visit(answers, p, GatherFrom(answers, p), n)
    decreases DECISION_BUDGET - Decisions(p.steps)
  {
    var k := Decisions(p.steps);
    var d := answers.decision(k);
    if k < DECISION_BUDGET && d.Search? && (d.tool, d.query) !in Queries(p.steps) {
      var next := SearchedOnce(answers, p);
      var m := GatherMeans(answers, next);
      VisitFirst(answers, p, next, GatherFrom(answers, next), m);
      n := m + 1;
    } else {
      n := 0;
      VisitLast(answers, p);
    }
  }

  // ---------------------------------------------------------------- which nodes a run went through

  function Verdicts(answers: Answers, k: nat): Verdict {
    answers.critic(k).verdict
  }

  /** How many of the first `n` reviews asked for more evidence. */
  function Insufficients(answers: Answers, n: nat): nat {
    if n == 0 then 0 else Insufficients(answers, n - 1) + if Verdicts(answers, n - 1) == Insufficient then 1 else 0
  }

  /** Revision `m` is the last one that began with gathering evidence. */
  ghost predicate LastGathered(answers: Answers, revision: nat, m: nat) {
    && m <= revision && (m > 0 ==> Verdicts(answers, m - 1) == Insufficient)
    && forall k: nat :: m <= k < revision ==> Verdicts(answers, k) == NeedsRevision
  }

  /** The evidence names exactly the rows known, with their texts. */
  ghost predicate Reports(report: EvidenceReport, known: seq<Item>) {
    && (forall id: EvidenceId :: id in report.facts <==> id < |known|)
    && forall id: EvidenceId :: id < |known| ==> report.facts[id] == known[id].text
  }

  /** Every review so far asked for another revision. */
  ghost predicate NotYetApproved(answers: Answers, revision: nat) {
    forall k: nat :: k < revision ==> Verdicts(answers, k) != Approved
  }

  /** What the steps, the tasks and the graph say at each node of the run without crashes. */
  ghost predicate Routed(answers: Answers, p: Point) {
    && NotYetApproved(answers, p.graph.revision)
    && CallsRouted(answers, p.db.steps, p.node, p.graph.revision)
    && (p.node == Coordinator ==> p.graph.revision == 0)
    && ArrivedBy(answers, p.graph, p.node)
    && (p.node !in {Coordinator, Evidence} ==> EvidenceRouted(answers, p))
    && (p.node in {Critic, End} ==> p.graph.plan == Some(answers.plan(p.graph.revision)))
    && (p.node != Coordinator ==> p.graph.focus == answers.coordinator.focus)
    && p.graph.issues == IssuesBefore(answers, p.graph.revision)
  }

  /** What the last review that asked for a revision found wrong. */
  function IssuesBefore(answers: Answers, revision: nat): seq<string> {
    if revision == 0 then [] else answers.critic(revision - 1).issues
  }

  ghost predicate CallsRouted(answers: Answers, steps: seq<Step>, node: Node, revision: nat) {
    && Calls(steps, Critic) == revision + (if node == End then 1 else 0)
    && Calls(steps, Plan) == revision + (if node in {Critic, End} then 1 else 0)
    && Calls(steps, Risk) == Insufficients(answers, revision) + (if node in {Plan, Critic, End} then 1 else 0)
  }

  /** The verdict that led here. */
  ghost predicate ArrivedBy(answers: Answers, g: Graph, node: Node) {
    && (node == End ==> g.critic == Some(answers.critic(g.revision)) && Verdicts(answers, g.revision) == Approved)
    && (node != End ==> g.critic == if g.revision == 0 then None else Some(answers.critic(g.revision - 1)))
    && (node in {Evidence, Risk} && g.revision > 0 ==> Verdicts(answers, g.revision - 1) == Insufficient)
  }

  ghost predicate EvidenceRouted(answers: Answers, p: Point) {
    && Evidence in p.db.tasks && LastGathered(answers, p.graph.revision, p.db.tasks[Evidence].revision)
    && p.graph.evidence.Some? && Reports(p.graph.evidence.value, p.db.known)
    && Decisions(p.db.steps) > 0
    && answers.decision(Decisions(p.db.steps) - 1) == Finish(p.graph.evidence.value.unknowns)
    && (p.node == Risk ==> p.db.tasks[Evidence].revision == p.graph.revision)
    && (p.node != Risk ==> p.graph.risk == Some(answers.risk(p.db.tasks[Evidence].revision)))
  }

  lemma CoordinateRouted(answers: Answers, p: Point)
    requires p.node == Coordinator && Bounded(p) && Routed(answers, p)
    ensures match Coordinate(answers, p.db, p.graph)
            case Stopped(_, _) => true
            case Advanced(db, g) => Routed(answers, Point(db, g, Evidence))
  {
    Recorded(p.db.steps, ModelCall(Coordinator));
  }

  lemma {:induction false} EndsWithFinish(answers: Answers, p: Progress)
    ensures match GatherFrom(answers, p)
            case Stuck(_) => true
            case Enough(_, steps, unknowns) =>
              Decisions(steps) > 0 && answers.decision(Decisions(steps) - 1) == Finish(unknowns)
  {
    var n := GatherMeans(answers, p);
  }

  lemma GatherRouted(answers: Answers, initial: Item, p: Point)
    requires p.node == Evidence && Bounded(p) && Routed(answers, p) && Ready(p.node, p.graph)
    ensures match Gather(answers, initial, p.db, p.graph)
            case Stopped(_, _) => true
            case Advanced(db, g) => Routed(answers, Point(db, g, Risk))
  {
    assert !Remembered(p.db, Evidence, p.graph.revision);
    GatherBounded(answers, Progress(Initial(p.db.known, initial), p.db.steps));
    var r := GatherFrom(answers, Progress(Initial(p.db.known, initial), p.db.steps));
    if r.Enough? {
      EndsWithFinish(answers, Progress(Initial(p.db.known, initial), p.db.steps));
      GatheredRouted(answers, p, r.known, r.steps, r.unknowns);
    }
  }

  lemma {:induction false} GatheredRouted(answers: Answers, p: Point, known: seq<Item>, steps: seq<Step>,
                                          unknowns: seq<string>)
    requires p.node == Evidence && Routed(answers, p)
    requires forall role :: role in {Risk, Plan, Critic} ==> Calls(steps, role) == Calls(p.db.steps, role)
    requires Decisions(steps) > 0 && answers.decision(Decisions(steps) - 1) == Finish(unknowns)
    ensures var report := Report(known, unknowns); var task := Task(p.graph.revision, Gathered(report));
            Routed(answers, Point(Database(p.db.tasks[Evidence := task], known, steps),
                                  p.graph.(evidence := Some(report)), Risk))
  {
    assert Risk in {Risk, Plan, Critic} && Plan in {Risk, Plan, Critic} && Critic in {Risk, Plan, Critic};
    assert Reports(Report(known, unknowns), known);
  }

  lemma RiskRouted(answers: Answers, p: Point)
    requires p.node == Risk && Bounded(p) && Routed(answers, p) && Ready(p.node, p.graph)
    ensures match AssessRisk(answers, p.db, p.graph)
            case Stopped(_, _) => true
            case Advanced(db, g) => Routed(answers, Point(db, g, Plan))
  {
    assert !Remembered(p.db, Risk, p.graph.revision);
    RiskCommits(answers, p);
  }

  lemma RiskCommits(answers: Answers, p: Point)
    requires p.node == Risk && Routed(answers, p)
    ensures var risk := answers.risk(p.graph.revision);
            Routed(answers, Point(Commit(p.db, Risk, p.graph.revision, Assessed(risk)),
                                  p.graph.(risk := Some(risk)), Plan))
  {
    Recorded(p.db.steps, ModelCall(Risk));
    var risk := answers.risk(p.graph.revision);
    var db := Commit(p.db, Risk, p.graph.revision, Assessed(risk));
    assert CallsRouted(answers, db.steps, Plan, p.graph.revision);
    assert EvidenceRouted(answers, Point(db, p.graph.(risk := Some(risk)), Plan));
  }

  lemma PlanRouted(answers: Answers, p: Point)
    requires p.node == Plan && Bounded(p) && Routed(answers, p) && Ready(p.node, p.graph)
    ensures match ProposePlan(answers, p.db, p.graph)
            case Stopped(_, _) => true
            case Advanced(db, g) => Routed(answers, Point(db, g, Critic))
  {
    assert !Remembered(p.db, Plan, p.graph.revision);
    PlanCommits(answers, p);
  }

  lemma PlanCommits(answers: Answers, p: Point)
    requires p.node == Plan && Routed(answers, p)
    ensures var plan := answers.plan(p.graph.revision);
            Routed(answers, Point(Commit(p.db, Plan, p.graph.revision, Investigation.Output.Proposed(plan)),
                                  p.graph.(plan := Some(plan)), Critic))
  {
    Recorded(p.db.steps, ModelCall(Plan));
    var plan := answers.plan(p.graph.revision);
    var db := Commit(p.db, Plan, p.graph.revision, Investigation.Output.Proposed(plan));
    assert CallsRouted(answers, db.steps, Critic, p.graph.revision);
    assert EvidenceRouted(answers, Point(db, p.graph.(plan := Some(plan)), Critic));
  }

  lemma CriticRouted(answers: Answers, p: Point)
    requires p.node == Critic && Bounded(p) && Routed(answers, p) && Ready(p.node, p.graph)
    ensures match ReviewPlan(answers, p.db, p.graph)
            case Stopped(_, _) => true
            case Advanced(db, g) => g.critic.Some? && Routed(answers, Point(db, g, Next(Critic, g)))
  {
    assert !Remembered(p.db, Critic, p.graph.revision);
    Recorded(p.db.steps, ModelCall(Critic));
    var critic := answers.critic(p.graph.revision);
    if Cites(p.graph.evidence.value, critic.evidence) {
      VerdictRouted(answers, p, Commit(p.db, Critic, p.graph.revision, Reviewed(critic)));
    }
  }

  /** The verdict decides the next node: more evidence, another plan, or the end. */
  lemma VerdictRouted(answers: Answers, p: Point, db: Database)
    requires p.node == Critic && Routed(answers, p) && Ready(p.node, p.graph)
    requires db == Commit(p.db, Critic, p.graph.revision, Reviewed(answers.critic(p.graph.revision)))
    ensures match Judged(db, p.graph, answers.critic(p.graph.revision))
            case Stopped(_, _) => true
            case Advanced(db', g) => g.critic.Some? && Routed(answers, Point(db', g, Next(Critic, g)))
  {
    Recorded(p.db.steps, ModelCall(Critic));
    if Verdicts(answers, p.graph.revision) == Approved {
      assert EvidenceRouted(answers, Point(db, p.graph, End));
    } else {
      RevisionRouted(answers, p, db);
    }
  }

  /** What a review that asks for a revision leaves. */
  function Revised(answers: Answers, g: Graph): Graph {
    var critic := answers.critic(g.revision);
    g.(critic := Some(critic), issues := critic.issues, revision := g.revision + 1)
  }

  lemma RevisionRouted(answers: Answers, p: Point, db: Database)
    requires p.node == Critic && Routed(answers, p) && Verdicts(answers, p.graph.revision) != Approved
    requires Critic in db.tasks && db.tasks == p.db.tasks[Critic := db.tasks[Critic]] && db.known == p.db.known
    requires Decisions(db.steps) == Decisions(p.db.steps)
    requires CallsRouted(answers, db.steps, End, p.graph.revision)
    ensures Routed(answers, Point(db, Revised(answers, p.graph),
                                  if Verdicts(answers, p.graph.revision) == Insufficient then Evidence else Plan))
  {
    if Verdicts(answers, p.graph.revision) == Insufficient {
      GatherAgain(answers, p, db);
    } else {
      PlanAgain(answers, p, db);
    }
  }

  lemma GatherAgain(answers: Answers, p: Point, db: Database)
    requires p.node == Critic && NotYetApproved(answers, p.graph.revision)
    requires Verdicts(answers, p.graph.revision) == Insufficient
    requires p.graph.focus == answers.coordinator.focus && CallsRouted(answers, db.steps, End, p.graph.revision)
    ensures Routed(answers, Point(db, Revised(answers, p.graph), Evidence))
  {
    var r := p.graph.revision;
    assert Insufficients(answers, r + 1) == Insufficients(answers, r) + 1;
  }

  lemma PlanAgain(answers: Answers, p: Point, db: Database)
    requires p.node == Critic && NotYetApproved(answers, p.graph.revision) && EvidenceRouted(answers, p)
    requires Verdicts(answers, p.graph.revision) == NeedsRevision
    requires Critic in db.tasks && db.tasks == p.db.tasks[Critic := db.tasks[Critic]] && db.known == p.db.known
    requires Decisions(db.steps) == Decisions(p.db.steps)
    requires p.graph.focus == answers.coordinator.focus && CallsRouted(answers, db.steps, End, p.graph.revision)
    ensures Routed(answers, Point(db, Revised(answers, p.graph), Plan))
  {
    var r := p.graph.revision;
    assert Insufficients(answers, r + 1) == Insufficients(answers, r);
    assert LastGathered(answers, r + 1, p.db.tasks[Evidence].revision);
    assert EvidenceRouted(answers, Point(db, Revised(answers, p.graph), Plan));
  }

  lemma StepRouted(answers: Answers, initial: Item, p: Point)
    requires Bounded(p) && Routed(answers, p) && Ready(p.node, p.graph) && p.node != End
    ensures match RunNode(answers, initial, p.db, p.graph, p.node)
            case Stopped(_, _) => true
            case Advanced(db, g) =>
              (p.node == Critic ==> g.critic.Some?) && Routed(answers, Point(db, g, Next(p.node, g)))
  {
    match p.node
    case Coordinator => CoordinateRouted(answers, p);
    case Evidence => GatherRouted(answers, initial, p);
    case Risk => RiskRouted(answers, p);
    case Plan => PlanRouted(answers, p);
    case Critic => CriticRouted(answers, p);
  }

  lemma {:induction false} CompleteRouted(answers: Answers, initial: Item, p: Point)
    requires Bounded(p) && Routed(answers, p) && Ready(p.node, p.graph)
    ensures var r := Complete(answers, initial, p);
            r.Completed? ==> r.at.node == End && Routed(answers, r.at) && Ready(End, r.at.graph)
    decreases MAX_REVISION - p.graph.revision, Position(p.node)
  {
    if p.node != End {
      StepBounded(answers, initial, p);
      StepRouted(answers, initial, p);
      var r := RunNode(answers, initial, p.db, p.graph, p.node);
      if r.Advanced? {
        NodeDecreases(answers, initial, p.db, p.graph, p.node);
        CompleteRouted(answers, initial, Point(r.db, r.graph, Next(p.node, r.graph)));
      }
    }
  }

  /** Every finished run, with any crashes, took the routes its reviews asked for: each asked for a
      revision but the last, which approved; a plan was made and reviewed in every revision; evidence
      was gathered again, and the risk assessed again, exactly in those that followed a review that
      found it insufficient. The coordinator's focus and the issues of the review before stay at hand. */
  lemma {:induction false} RoutesTaken(answers: Answers, initial: Item, events: seq<Event>)
    requires Run(answers, initial, BEGIN, events).node == End
    ensures var s := Run(answers, initial, BEGIN, events); var n := s.graph.revision;
            && n <= 2 && Verdicts(answers, n) == Approved && NotYetApproved(answers, n)
            && Calls(s.db.steps, Plan) == n + 1 && Calls(s.db.steps, Critic) == n + 1
            && Calls(s.db.steps, Risk) == 1 + Insufficients(answers, n)
            && Evidence in s.db.tasks && LastGathered(answers, n, s.db.tasks[Evidence].revision)
            && s.graph.focus == answers.coordinator.focus
            && s.graph.issues == if n == 0 then [] else answers.critic(n - 1).issues
  {
    FinishedRouted(answers, initial, events);
  }

  lemma {:induction false} FinishedRouted(answers: Answers, initial: Item, events: seq<Event>)
    requires Run(answers, initial, BEGIN, events).node == End
    ensures var s := Run(answers, initial, BEGIN, events);
            Routed(answers, Point(s.db, s.graph, End)) && Ready(End, s.graph)
  {
    StartBounded();
    CrashesChangeNothing(answers, initial, events);
    CompleteRouted(answers, initial, START);
  }

  /** Its proposal is made of the answers of the last plan, the last review and the last risk
      assessment, over evidence that is exactly the rows gathered, with the unknowns of the decision
      that ended the gathering. */
  lemma {:induction false} ProposalFromAnswers(answers: Answers, initial: Item, events: seq<Event>)
    requires Run(answers, initial, BEGIN, events).node == End
    ensures var s := Run(answers, initial, BEGIN, events); var n := s.graph.revision;
            && Ready(End, s.graph) && Evidence in s.db.tasks
            && Reports(s.graph.evidence.value, s.db.known) && Decisions(s.db.steps) > 0
            && answers.decision(Decisions(s.db.steps) - 1) == Finish(s.graph.evidence.value.unknowns)
            && var m := s.db.tasks[Evidence].revision; var p := InvestigationRuns.Proposed(s.graph);
            && p.category == answers.risk(m).category && p.level == answers.risk(m).level
            && p.rationale == answers.risk(m).rationale && p.unknowns == answers.risk(m).unknowns
            && p.action == answers.plan(n).action
            && p.evidence == answers.critic(n).evidence && p.conflicts == answers.critic(n).conflicts
  {
    FinishedRouted(answers, initial, events);
  }

  // ---------------------------------------------------------------- why a run stops

  function Hashes(items: seq<Item>): set<string> {
    set item | item in items :: item.hash
  }

  function IdsOf(evidence: seq<EvidenceId>): set<EvidenceId> {
    set id | id in evidence
  }

  /** Why a node of the run stops it, and that nothing else does. */
  ghost predicate StopsFor(answers: Answers, initial: Item, p: Point, error: InvestigationError)
    requires Ready(p.node, p.graph)
  {
    var r := p.graph.revision;
    match p.node
    case Coordinator => error == InvalidRoles && answers.coordinator.roles != {Evidence, Risk, Plan, Critic}
    case Evidence =>
      (match GatherFrom(answers, Progress(if p.db.known == [] then [initial] else p.db.known, p.db.steps))
       case Stuck(e) => error == e
       case Enough(known, _, _) =>
         && error == NothingNew && r > 0 && Verdicts(answers, r - 1) == Insufficient
         && Hashes(known) <= Hashes(p.db.known))
    case Risk =>
      var risk := answers.risk(r);
      if risk.level !in {"low", "medium", "high", "critical"} then error == InvalidRisk
      else error == UnknownEvidence && !(IdsOf(risk.evidence) <= p.graph.evidence.value.facts.Keys)
    case Plan =>
      error == UnknownEvidence && !(IdsOf(answers.plan(r).evidence) <= p.graph.evidence.value.facts.Keys)
    case Critic =>
      if !(IdsOf(answers.critic(r).evidence) <= p.graph.evidence.value.facts.Keys) then error == UnknownEvidence
      else error == RevisionsExhausted && Verdicts(answers, r) != Approved && r == 2
    case End => false
  }

  /** A run stops at a node exactly for one of these reasons. */
  lemma NodeStops(answers: Answers, initial: Item, p: Point)
    requires Bounded(p) && Routed(answers, p) && Ready(p.node, p.graph) && p.node != End
    ensures match RunNode(answers, initial, p.db, p.graph, p.node)
            case Stopped(_, error) => StopsFor(answers, initial, p, error)
            case Advanced(_, _) => forall error :: !StopsFor(answers, initial, p, error)
  {
    assert p.node != Coordinator ==> !Remembered(p.db, p.node, p.graph.revision);
    match p.node
    case Evidence => GatherStops(answers, initial, p);
    case Risk => CitesExact(p.graph.evidence.value, answers.risk(p.graph.revision).evidence);
    case Plan => CitesExact(p.graph.evidence.value, answers.plan(p.graph.revision).evidence);
    case Critic => CitesExact(p.graph.evidence.value, answers.critic(p.graph.revision).evidence);
    case _ =>
  }

  lemma GatherStops(answers: Answers, initial: Item, p: Point)
    requires Bounded(p) && Routed(answers, p) && Ready(p.node, p.graph) && p.node == Evidence
    ensures match Gather(answers, initial, p.db, p.graph)
            case Stopped(_, error) => StopsFor(answers, initial, p, error)
            case Advanced(_, _) => forall error :: !StopsFor(answers, initial, p, error)
  {
    assert !Remembered(p.db, Evidence, p.graph.revision);
    var r := GatherFrom(answers, Progress(Initial(p.db.known, initial), p.db.steps));
    if r.Enough? {
      NewExact(r.known, p.db.known);
    }
  }

  lemma NewExact(known: seq<Item>, before: seq<Item>)
    ensures SomethingNew(known, before) <==> !(Hashes(known) <= Hashes(before))
  {
    if SomethingNew(known, before) {
      var i :| 0 <= i < |known| && forall j :: 0 <= j < |before| ==> before[j].hash != known[i].hash;
      assert known[i] in known && known[i].hash in Hashes(known);
    }
    if hash :| hash in Hashes(known) && hash !in Hashes(before) {
      var item :| item in known && item.hash == hash;
      var i :| 0 <= i < |known| && known[i] == item;
      forall j | 0 <= j < |before| ensures before[j].hash != known[i].hash {
        assert before[j] in before;
      }
    }
  }

  lemma CitesExact(report: EvidenceReport, evidence: seq<EvidenceId>)
    ensures Cites(report, evidence) <==> IdsOf(evidence) <= report.facts.Keys
  {
  }
}
