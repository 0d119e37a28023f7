/** The multi-agent investigation: a cyclic graph of five roles over a database whose commits are
    separate from the graph's checkpoints. */
module Investigation {
  import opened Common

  const DECISION_BUDGET: nat := 6
  const ROWS_PER_CALL: nat := 5
  const MAX_REVISION: nat := 2

  datatype Node = Coordinator | Evidence | Risk | Plan | Critic | End

  /** An evidence row; its id is its position among the rows of the run. */
  type EvidenceId = nat
  datatype Item = Item(hash: string, text: string)

  /** Rows are read back in no particular order, so a report is a table by id. */
  datatype EvidenceReport = EvidenceReport(facts: map<EvidenceId, string>, unknowns: seq<string>)
  datatype RiskReport = RiskReport(category: string, level: string, rationale: string,
                                   evidence: seq<EvidenceId>, unknowns: seq<string>)
  datatype PlanReport = PlanReport(action: string, evidence: seq<EvidenceId>)
  datatype Verdict = Approved | NeedsRevision | Insufficient
  datatype CriticReport = CriticReport(verdict: Verdict, issues: seq<string>, conflicts: seq<string>,
                                       evidence: seq<EvidenceId>)

  type Query = (string, string)
  datatype Decision = Finish(unknowns: seq<string>) | Search(tool: string, query: string)

  datatype CoordinatorPlan = CoordinatorPlan(roles: set<Node>, focus: seq<string>)

  /** The answers of the model and the tools: any values of the right shape, the risk, plan and
      critic answers by revision, the evidence decisions and tool results by their number. */
  datatype Answers = Answers(coordinator: CoordinatorPlan, decision: nat -> Decision, rows: nat -> seq<Item>,
                             risk: nat -> RiskReport, plan: nat -> PlanReport, critic: nat -> CriticReport)

  datatype Output = Focused(focus: seq<string>) | Gathered(evidence: EvidenceReport) | Assessed(risk: RiskReport)
                  | Proposed(plan: PlanReport) | Reviewed(critic: CriticReport)

  /** A role's task once it succeeded: the revision it worked for, and what it answered. */
  datatype Task = Task(revision: nat, output: Output)

  datatype Step = ModelCall(role: Node) | ToolCall(query: Query)

  datatype Database = Database(tasks: map<Node, Task>, known: seq<Item>, steps: seq<Step>)

  /** The graph's state as its checkpoints hold it. */
  datatype Graph = Graph(focus: seq<string>, evidence: Option<EvidenceReport>, risk: Option<RiskReport>,
                         plan: Option<PlanReport>, critic: Option<CriticReport>, issues: seq<string>, revision: nat)

  datatype InvestigationError = InvalidRoles | InvalidRisk | UnknownEvidence | RepeatedCall | BudgetExceeded
                              | NothingNew | RevisionsExhausted

  const FRESH_DATABASE := Database(map[], [], [])
  const FRESH_GRAPH := Graph([], None, None, None, None, [], 0)

  // ---------------------------------------------------------------- counters kept as steps

  function Calls(steps: seq<Step>, role: Node): nat {
    if steps == [] then 0
    else Calls(steps[..|steps| - 1], role) + if steps[|steps| - 1] == ModelCall(role) then 1 else 0
  }

  function Queries(steps: seq<Step>): seq<Query> {
    if steps == [] then []
    else
      var before := Queries(steps[..|steps| - 1]);
      var last := steps[|steps| - 1];
      if last.ToolCall? then before + [last.query] else before
  }

  lemma {:induction false} Recorded(steps: seq<Step>, step: Step)
    ensures forall role :: Calls(steps + [step], role) == Calls(steps, role) + if step == ModelCall(role) then 1 else 0
    ensures Queries(steps + [step]) == if step.ToolCall? then Queries(steps) + [step.query] else Queries(steps)
  {
    assert (steps + [step])[..|steps|] == steps;
  }

  // ---------------------------------------------------------------- tools

  /** One tool call stores at most five of the rows it found. */
  function Captured(rows: seq<Item>): seq<Item> {
    if |rows| <= ROWS_PER_CALL then rows else rows[..ROWS_PER_CALL]
  }

  datatype Tool = Tool(readOnly: bool, handler: string -> seq<Item>)

  datatype ToolError = WriteTool | NotAllowed

  class ToolRegistry {
    var tools: map<string, Tool>

    ghost predicate Valid()
      reads this
    {
      forall name :: name in tools ==> tools[name].readOnly
    }

    constructor ()
      ensures Valid() && tools == map[]
    {
      tools := map[];
    }

    method Register(name: string, tool: Tool) returns (r: Result<(), ToolError>)
      requires Valid()
      modifies this
      ensures Valid()
      ensures r.Ok? <==> tool.readOnly
      ensures tools == if tool.readOnly then old(tools)[name := tool] else old(tools)
    {
      if !tool.readOnly {
        return Err(WriteTool);
      }
      tools := tools[name := tool];
      return Ok(());
    }

    /** At most five rows of what the named tool finds for the first hundred characters. */
    method Call(name: string, query: string) returns (r: Result<seq<Item>, ToolError>)
      requires Valid()
      ensures r.Err? <==> name !in tools
      ensures r.Ok? ==>
                var rows := tools[name].handler(query[..Min(100, |query|)]); r.value == rows[..Min(5, |rows|)]
    {
      if name !in tools || !tools[name].readOnly {
        return Err(NotAllowed);
      }
      var shortened := if |query| <= 100 then query else query[..100];
      assert shortened == query[..Min(100, |query|)];
      var rows := tools[name].handler(shortened);
      var evidence: seq<Item> := [];
      for i := 0 to if |rows| <= ROWS_PER_CALL then |rows| else ROWS_PER_CALL
        invariant evidence == rows[..i]
      {
        evidence := evidence + [rows[i]];
      }
      return Ok(evidence);
    }
  }

  // ---------------------------------------------------------------- gathering evidence

  datatype Progress = Progress(known: seq<Item>, steps: seq<Step>)

  datatype Gathering =
    | Stuck(error: InvestigationError)
    | Enough(known: seq<Item>, steps: seq<Step>, unknowns: seq<string>)

  function Decisions(steps: seq<Step>): nat {
    Calls(steps, Evidence)
  }

  /** The loop: decide, stop or search, until the budget of the whole run is spent. */
  function GatherFrom(answers: Answers, p: Progress): Gathering
    decreases DECISION_BUDGET - Decisions(p.steps)
  {
    if Decisions(p.steps) >= DECISION_BUDGET then Stuck(BudgetExceeded)
    else
      var k := Decisions(p.steps);
      var decided := p.steps + [ModelCall(Evidence)];
      Recorded(p.steps, ModelCall(Evidence));
      match answers.decision(k)
      case Finish(unknowns) => Enough(p.known, decided, unknowns)
      case Search(tool, query) =>
        if (tool, query) in Queries(p.steps) then Stuck(RepeatedCall)
        else
          Recorded(decided, ToolCall((tool, query)));
          GatherFrom(answers, Progress(p.known + Captured(answers.rows(k)), decided + [ToolCall((tool, query))]))
  }

  method GatherLoop(answers: Answers, known: seq<Item>, steps: seq<Step>) returns (r: Gathering)
    ensures r == GatherFrom(answers, Progress(known, steps))
  {
    var p := Progress(known, steps);
    var decisions := Decisions(steps);
    var seen := set q | q in Queries(steps);
    while decisions < DECISION_BUDGET
      invariant decisions == Decisions(p.steps) && forall q :: q in seen <==> q in Queries(p.steps)
      invariant GatherFrom(answers, p) == GatherFrom(answers, Progress(known, steps))
      decreases DECISION_BUDGET - decisions
    {
      var decision := answers.decision(decisions);
      var decided := p.steps + [ModelCall(Evidence)];
      Recorded(p.steps, ModelCall(Evidence));
      if decision.Finish? {
        return Enough(p.known, decided, decision.unknowns);
      }
      var key := (decision.tool, decision.query);
      if key in seen {
        return Stuck(RepeatedCall);
      }
      seen := seen + {key};
      Recorded(decided, ToolCall(key));
      p := Progress(p.known + Captured(answers.rows(decisions)), decided + [ToolCall(key)]);
      decisions := decisions + 1;
    }
    return Stuck(BudgetExceeded);
  }

  function Report(known: seq<Item>, unknowns: seq<string>): EvidenceReport {
    EvidenceReport(map i: nat | i < |known| :: known[i].text, unknowns)
  }

  // ---------------------------------------------------------------- nodes

  /** A node's transaction: committed with the new graph state, or stopped with an error. */
  datatype Outcome = Advanced(db: Database, graph: Graph) | Stopped(db: Database, error: InvestigationError)

  predicate Remembered(db: Database, node: Node, revision: nat) {
    node in db.tasks && db.tasks[node].revision == revision
  }

  function Commit(db: Database, node: Node, revision: nat, output: Output): Database {
    Database(db.tasks[node := Task(revision, output)], db.known, db.steps + [ModelCall(node)])
  }

  predicate Cites(report: EvidenceReport, evidence: seq<EvidenceId>) {
    forall id :: id in evidence ==> id in report.facts
  }

  function Coordinate(answers: Answers, db: Database, g: Graph): Outcome {
    if Coordinator in db.tasks && db.tasks[Coordinator].output.Focused? then
      Advanced(db, g.(focus := db.tasks[Coordinator].output.focus))
    else if answers.coordinator.roles != {Evidence, Risk, Plan, Critic} then Stopped(db, InvalidRoles)
    else
      Advanced(Commit(db, Coordinator, 0, Focused(answers.coordinator.focus)), g.(focus := answers.coordinator.focus))
  }

  function Initial(known: seq<Item>, initial: Item): seq<Item> {
    if known == [] then [initial] else known
  }

  predicate SomethingNew(known: seq<Item>, before: seq<Item>) {
    exists i :: 0 <= i < |known| && forall j :: 0 <= j < |before| ==> before[j].hash != known[i].hash
  }

  function Gather(answers: Answers, initial: Item, db: Database, g: Graph): Outcome {
    if Remembered(db, Evidence, g.revision) && db.tasks[Evidence].output.Gathered? then
      Advanced(db, g.(evidence := Some(db.tasks[Evidence].output.evidence)))
    else
      match GatherFrom(answers, Progress(Initial(db.known, initial), db.steps))
      case Stuck(error) => Stopped(db, error)
      case Enough(known, steps, unknowns) =>
        if g.critic.Some? && g.critic.value.verdict == Insufficient && !SomethingNew(known, db.known)
        then Stopped(db, NothingNew)
        else
          var report := Report(known, unknowns);
          Advanced(Database(db.tasks[Evidence := Task(g.revision, Gathered(report))], known, steps),
                   g.(evidence := Some(report)))
  }

  function AssessRisk(answers: Answers, db: Database, g: Graph): Outcome
    requires g.evidence.Some?
  {
    if Remembered(db, Risk, g.revision) && db.tasks[Risk].output.Assessed? then
      Advanced(db, g.(risk := Some(db.tasks[Risk].output.risk)))
    else
      var risk := answers.risk(g.revision);
      if risk.level !in {"low", "medium", "high", "critical"} then Stopped(db, InvalidRisk)
      else if !Cites(g.evidence.value, risk.evidence) then Stopped(db, UnknownEvidence)
      else Advanced(Commit(db, Risk, g.revision, Assessed(risk)), g.(risk := Some(risk)))
  }

  function ProposePlan(answers: Answers, db: Database, g: Graph): Outcome
    requires g.evidence.Some?
  {
    if Remembered(db, Plan, g.revision) && db.tasks[Plan].output.Proposed? then
      Advanced(db, g.(plan := Some(db.tasks[Plan].output.plan)))
    else
      var plan := answers.plan(g.revision);
      if !Cites(g.evidence.value, plan.evidence) then Stopped(db, UnknownEvidence)
      else Advanced(Commit(db, Plan, g.revision, Proposed(plan)), g.(plan := Some(plan)))
  }

  function Judged(db: Database, g: Graph, critic: CriticReport): Outcome {
    if critic.verdict == Approved then Advanced(db, g.(critic := Some(critic)))
    else if g.revision >= MAX_REVISION then Stopped(db, RevisionsExhausted)
    else Advanced(db, g.(critic := Some(critic), issues := critic.issues, revision := g.revision + 1))
  }

  function ReviewPlan(answers: Answers, db: Database, g: Graph): Outcome
    requires g.evidence.Some?
  {
    if Remembered(db, Critic, g.revision) && db.tasks[Critic].output.Reviewed?
      then Judged(db, g, db.tasks[Critic].output.critic)
    else
      var critic := answers.critic(g.revision);
      if !Cites(g.evidence.value, critic.evidence) then Stopped(db, UnknownEvidence)
      else Judged(Commit(db, Critic, g.revision, Reviewed(critic)), g, critic)
  }

  predicate Ready(node: Node, g: Graph) {
    && (node in {Risk, Plan, Critic} ==> g.evidence.Some?)
    && (node in {Plan, Critic} ==> g.risk.Some?)
    && (node == Critic ==> g.plan.Some?)
    && (node == End ==>
          && g.evidence.Some? && g.risk.Some? && g.plan.Some?
          && g.critic.Some? && g.critic.value.verdict == Approved)
    && g.revision <= MAX_REVISION
  }

  function RunNode(answers: Answers, initial: Item, db: Database, g: Graph, node: Node): Outcome
    requires Ready(node, g) && node != End
  {
    match node
    case Coordinator => Coordinate(answers, db, g)
    case Evidence => Gather(answers, initial, db, g)
    case Risk => AssessRisk(answers, db, g)
    case Plan => ProposePlan(answers, db, g)
    case Critic => ReviewPlan(answers, db, g)
  }

  function Next(node: Node, g: Graph): Node
    requires node == Critic ==> g.critic.Some?
  {
    match node
    case Coordinator => Evidence
    case Evidence => Risk
    case Risk => Plan
    case Plan => Critic
    case Critic =>
      (match g.critic.value.verdict
       case Insufficient => Evidence
       case NeedsRevision => Plan
       case Approved => End)
    case End => End
  }

  /** How many nodes are left in the current revision. */
  function Position(node: Node): nat {
    match node
    case Coordinator => 5
    case Evidence => 4
    case Risk => 3
    case Plan => 2
    case Critic => 1
    case End => 0
  }

  /** Nodes left at most: four for each revision left, and those of this one. */
  function Rank(node: Node, g: Graph): nat
    requires g.revision <= MAX_REVISION
  {
    4 * (MAX_REVISION - g.revision) + Position(node)
  }

  /** Every node brings the graph closer to its end: fewer revisions left, or fewer nodes in this one. */
  lemma NodeDecreases(answers: Answers, initial: Item, db: Database, g: Graph, node: Node)
    requires Ready(node, g) && node != End && RunNode(answers, initial, db, g, node).Advanced?
    ensures var g' := RunNode(answers, initial, db, g, node).graph;
            && (node == Critic ==> g'.critic.Some?)
            && Ready(Next(node, g'), g')
            && (g'.revision > g.revision || (g'.revision == g.revision && Position(Next(node, g')) < Position(node)))
            && Rank(Next(node, g'), g') < Rank(node, g)
  {
  }

  /** Where a run is: what is committed, the graph state, and the node to run next. */
  datatype Point = Point(db: Database, graph: Graph, node: Node)

  datatype Ending = Completed(at: Point) | Failed(at: Point, error: InvestigationError)

  /** The run without crashes. */
  function Complete(answers: Answers, initial: Item, p: Point): Ending
    requires Ready(p.node, p.graph)
    decreases MAX_REVISION - p.graph.revision, Position(p.node)
  {
    if p.node == End then Completed(p)
    else
      match RunNode(answers, initial, p.db, p.graph, p.node)
      case Stopped(db, error) => Failed(p.(db := db), error)
      case Advanced(db, g) =>
        NodeDecreases(answers, initial, p.db, p.graph, p.node);
        Complete(answers, initial, Point(db, g, Next(p.node, g)))
  }

  const START := Point(FRESH_DATABASE, FRESH_GRAPH, Coordinator)

  /** The graph's main loop. */
  method Investigate(answers: Answers, initial: Item) returns (r: Ending)
    ensures r == Complete(answers, initial, START)
  {
    var p := START;
    while p.node != End
      invariant Ready(p.node, p.graph)
      invariant Complete(answers, initial, p) == Complete(answers, initial, START)
      decreases MAX_REVISION - p.graph.revision, Position(p.node)
    {
      var outcome := RunNode(answers, initial, p.db, p.graph, p.node);
      if outcome.Stopped? {
        return Failed(p.(db := outcome.db), outcome.error);
      }
      NodeDecreases(answers, initial, p.db, p.graph, p.node);
      p := Point(outcome.db, outcome.graph, Next(p.node, outcome.graph));
    }
    return Completed(p);
  }
}
