/** agent/tools/database_workflow_tool.py: the eight-node database graph.

    Each node copies its state dictionary and returns a new one, so a node is a function of
    the state and of everything it is told from outside: keyword matches, model texts,
    database results, environment switches read at that moment, the human decision. */
module DatabaseWorkflow {
  import opened Basics
  import opened Ordering
  import opened SqlGate

  datatype Node =
    | RouteNode | SpecializedNode | SchemaNode | SqlNode | SummarizeNode | SandboxNode | ApprovalNode | MergeNode

  datatype Route = Unset | ToSpecialized | ToSchema | ToSandbox | ToSummarize | ToApproval | ToMerge | ToSql | ToEnd

  /** A final answer. Every form but the model's own text is non-empty by construction. */
  datatype Answer =
    | NoAnswer
    | TooManyRounds
    | LoopStopped
    | SupervisorStopped
    | WriteRejected(reason: Reason, sql: string)
    | AskedToRevise(instruction: string)
    | Aborted
    | MergeSummary(published: bool)
    | NoSchema
    | SqlFailed(count: int)
    | TopProducts
    | FallbackSummary
    | ModelText(text: string)

  /** `if state.get("final_answer")` */
  predicate Answered(a: Answer) {
    a != NoAnswer && a != ModelText("")
  }

  datatype Table = Orders | OrderItems | Products | Payments | Inventory | TrafficStats | Campaigns
    | CampaignProductStats | Refunds | Reviews | Customers

  /** The arguments under which the loop guard records a node. */
  datatype Args = Question(question: string) | Statement(sql: string) | Tables(tables: seq<Table>)
    | Switch(on: bool) | Analysis(hotProducts: bool)

  datatype Fingerprint = Fingerprint(node: Node, args: Args)

  /** _WorkflowLoopGuard; the events are only counted here, their text is for display. */
  datatype Loop = Loop(events: nat, fingerprints: seq<Fingerprint>, lastSupervised: nat)

  datatype State = State(
    question: string,
    route: Route,
    hotProducts: bool,
    rounds: int,
    writeSql: string,
    decision: string,
    sqlFailCount: int,
    sqlHistory: seq<string>,
    queryResult: string,
    answer: Answer,
    loop: Loop)

  /** `database` is MYSQL_DATABASE, the production database. `changes` is what MySQL makes of a
      text: the databases that it may change when it is run on a connection to the first one. */
  datatype Config = Config(
    maxRounds: int, maxSqlFailures: int, maxSchemaTables: int, maxRepeats: int, database: string,
    changes: (string, string) -> set<string>,
    wide: char -> bool, lower: string -> string)

  /** `fused` is whether the low-level fuse breaks off the node's call of the read tool. */
  datatype Input = Input(
    asksForWrite: bool, asksForHotProducts: bool,
    body: string,
    production: bool, sandboxDatabase: Option<string>, dangerousDdl: bool,
    inTask: bool, scoped: bool, decision: string, instruction: string,
    hinted: set<Table>, brokenTables: set<Table>,
    toolResult: Option<string>,
    fused: bool, sqlResult: string, sqlFailed: bool,
    summary: Option<string>,
    supervisorStops: bool)

  /** What a node does to the outside, in order. `ExecuteIn` is the write executor's commit of a
      text in a database, whichever node asked for it; `RunSql` is a call of the read tool. */
  datatype Effect =
    | LookUpSchema(table: Table)
    | RunSql(query: string)
    | AnalyzeTopProducts
    | ShowForApproval(sql: string)
    | ExecuteIn(database: string, text: string)

  datatype Outcome = Outcome(state: State, effects: seq<Effect>)

  // ---------------------------------------------------------------- rounds and loop guard

  function Bump(cfg: Config, st: State): State {
    var next := st.(rounds := st.rounds + 1);
    if next.rounds > cfg.maxRounds then next.(route := ToEnd, answer := TooManyRounds) else next
  }

  function Count(fs: seq<Fingerprint>, f: Fingerprint): nat {
    if fs == [] then 0 else (if fs[0] == f then 1 else 0) + Count(fs[1..], f)
  }

  function Last20<T>(s: seq<T>): seq<T> {
    if |s| <= 20 then s else s[|s| - 20..]
  }

  function Record(loop: Loop, f: Fingerprint): Loop {
    Loop(loop.events + 1, loop.fingerprints + [f], loop.lastSupervised)
  }

  predicate Repeated(cfg: Config, loop: Loop, f: Fingerprint) {
    Count(loop.fingerprints, f) > cfg.maxRepeats
  }

  /** summary() notes how many events have been reviewed. */
  function Reviewed(loop: Loop): Loop {
    loop.(lastSupervised := loop.events)
  }

  function SnapshotOf(loop: Loop): Loop {
    Loop(if loop.events <= 20 then loop.events else 20, Last20(loop.fingerprints), loop.lastSupervised)
  }

  predicate ShouldSupervise(cfg: Config, st: State, node: Node, loop: Loop) {
    var interval := if cfg.maxRounds / 2 > 3 then cfg.maxRounds / 2 else 3;
    && !(node == SummarizeNode && st.queryResult != "")
    && node != ApprovalNode && node != MergeNode
    && loop.events - loop.lastSupervised >= interval
  }

  datatype Verdict = GoOn | Repeats | Supervised(stop: bool)

  function Judge(cfg: Config, st: State, node: Node, f: Fingerprint, inp: Input): Verdict {
    var loop := Record(st.loop, f);
    if Repeated(cfg, loop, f) then Repeats
    else if ShouldSupervise(cfg, st, node, loop) then Supervised(inp.supervisorStops)
    else GoOn
  }

  /** _record_node_guard */
  function Guard(cfg: Config, st: State, node: Node, args: Args, inp: Input): State {
    var f := Fingerprint(node, args);
    var loop := Record(st.loop, f);
    match Judge(cfg, st, node, f, inp)
    case GoOn => st.(loop := SnapshotOf(loop))
    case Repeats => st.(loop := SnapshotOf(Reviewed(loop)), route := ToEnd, answer := LoopStopped)
    case Supervised(stop) =>
      var reviewed := st.(loop := SnapshotOf(Reviewed(loop)));
      if stop then reviewed.(route := ToEnd, answer := SupervisorStopped) else reviewed
  }

  /** The opening of every node: bump the round, then the loop guard, each of which may answer. */
  function Enter(cfg: Config, st: State, node: Node, args: Args, inp: Input): State {
    var bumped := Bump(cfg, st);
    if Answered(bumped.answer) then bumped else Guard(cfg, bumped, node, args, inp)
  }

  // ---------------------------------------------------------------- nodes

  function RouteStep(st: State, inp: Input): Outcome {
    if inp.asksForWrite then Outcome(st.(route := ToSandbox), [])
    else if inp.asksForHotProducts then Outcome(st.(route := ToSpecialized, hotProducts := true), [])
    else Outcome(st.(route := ToSchema), [])
  }

  /** execute_write_sql_raw in the given database. */
  function Executed(g: Gate, database: string): seq<Effect> {
    if g.Refused? then [] else [ExecuteIn(database, g.text)]
  }

  /** An unset or empty DB_SANDBOX_DATABASE means that the sandbox step touches no database. */
  function Sandboxed(st: State, sandbox: Option<string>, sql: string, validation: Validation, gate: Gate): Outcome {
    if validation.Rejected? then
      Outcome(st.(writeSql := sql, route := ToEnd, answer := WriteRejected(validation.reason, sql)), [])
    else
      Outcome(st.(writeSql := sql, route := ToApproval),
              if sandbox.None? || sandbox.value == "" then [] else Executed(gate, sandbox.value))
  }

  function SandboxStep(cfg: Config, st: State, inp: Input): Outcome {
    var sql := Extract(inp.body);
    Sandboxed(st, inp.sandboxDatabase, sql, Validate(sql, cfg.wide), ExecutorGate(sql, inp.dangerousDdl, cfg.wide))
  }

  /** Outside a task there is nobody to ask, and the decision is abort. */
  function ApprovalStep(st: State, inp: Input): Outcome {
    var decision := if inp.inTask then inp.decision else "abort";
    var decided := st.(decision := decision);
    Outcome(
      if decision == "continue" then decided.(route := ToMerge)
      else if decision == "revise" then decided.(route := ToEnd, answer := AskedToRevise(inp.instruction))
      else decided.(route := ToEnd, answer := Aborted),
      [ShowForApproval(st.writeSql)])
  }

  function MergeStep(cfg: Config, st: State, inp: Input): Outcome {
    if !inp.production then Outcome(st.(route := ToEnd, answer := MergeSummary(false)), [])
    else Outcome(st.(route := ToEnd, answer := MergeSummary(true)),
                 Executed(ExecutorGate(st.writeSql, inp.dangerousDdl, cfg.wide), cfg.database))
  }

  function SpecializedStep(st: State, inp: Input): Outcome {
    Outcome(
      if inp.toolResult.Some? then st.(queryResult := inp.toolResult.value, route := ToSummarize)
      else st.(route := ToSchema),
      [AnalyzeTopProducts])
  }

  const TABLE_HINTS := [Orders, OrderItems, Products, Payments, Inventory, TrafficStats, Campaigns,
                        CampaignProductStats, Refunds, Reviews, Customers]
  const DEFAULT_TABLES := [Orders, OrderItems, Products, Payments, Inventory]

  /** Python's `s[:n]`. */
  function UpTo<T>(s: seq<T>, n: int): seq<T> {
    if n >= |s| then s else if n >= 0 then s[..n] else if |s| + n > 0 then s[..|s| + n] else []
  }

  /** The tables a question hints at, in declaration order, else the default five. */
  function CandidateTables(cfg: Config, hinted: set<Table>): seq<Table> {
    var selected := Select(TABLE_HINTS, t => t in hinted);
    UpTo(if selected != [] then selected else DEFAULT_TABLES, cfg.maxSchemaTables)
  }

  function LookUps(tables: seq<Table>): seq<Effect> {
    seq(|tables|, i requires 0 <= i < |tables| => LookUpSchema(tables[i]))
  }

  function SchemaTables(cfg: Config, inp: Input): seq<Table> {
    UpTo(CandidateTables(cfg, inp.hinted), cfg.maxSchemaTables)
  }

  function SchemaStep(cfg: Config, st: State, inp: Input): Outcome {
    var tables := SchemaTables(cfg, inp);
    Outcome(
      if forall t :: t in tables ==> t in inp.brokenTables then st.(route := ToEnd, answer := NoSchema)
      else st.(route := ToSql),
      LookUps(tables))
  }

  function SqlStep(cfg: Config, st: State, inp: Input): Outcome {
    var sql := Extract(inp.body);
    var ran := st.(sqlHistory := st.sqlHistory + [sql], queryResult := inp.sqlResult);
    Outcome(
      if inp.sqlFailed then
        var failed := ran.(sqlFailCount := st.sqlFailCount + 1);
        if failed.sqlFailCount >= cfg.maxSqlFailures
        then failed.(route := ToEnd, answer := SqlFailed(failed.sqlFailCount))
        else failed.(route := ToSql)
      else ran.(route := ToSummarize),
      [RunSql(sql)])
  }

  function SummarizeStep(st: State, inp: Input): Outcome {
    Outcome(
      st.(route := ToEnd,
          answer := if st.hotProducts then TopProducts
                    else if inp.summary.Some? then ModelText(inp.summary.value)
                    else FallbackSummary),
      [])
  }

  /** The SQL node has its statement generated before it asks the guard. */
  function GuardArgs(cfg: Config, node: Node, st: State, inp: Input): Args {
    match node
    case RouteNode => Question(st.question)
    case SandboxNode => Question(st.question)
    case ApprovalNode => Statement(st.writeSql)
    case MergeNode => Switch(inp.production)
    case SpecializedNode => Analysis(st.hotProducts)
    case SummarizeNode => Analysis(st.hotProducts)
    case SchemaNode => Tables(SchemaTables(cfg, inp))
    case SqlNode => Statement(Extract(inp.body))
  }

  function Body(cfg: Config, node: Node, st: State, inp: Input): Outcome {
    match node
    case RouteNode => RouteStep(st, inp)
    case SpecializedNode => SpecializedStep(st, inp)
    case SchemaNode => SchemaStep(cfg, st, inp)
    case SqlNode => SqlStep(cfg, st, inp)
    case SummarizeNode => SummarizeStep(st, inp)
    case SandboxNode => SandboxStep(cfg, st, inp)
    case ApprovalNode => ApprovalStep(st, inp)
    case MergeNode => MergeStep(cfg, st, inp)
  }

  function Visit(cfg: Config, node: Node, st: State, inp: Input): Outcome {
    var entered := Enter(cfg, st, node, GuardArgs(cfg, node, st, inp), inp);
    if Answered(entered.answer) then Outcome(entered, []) else Body(cfg, node, entered, inp)
  }

  // ---------------------------------------------------------------- edges

  /** The edges as wired. Sandbox, schema and specialized have one outgoing edge each, taken
      even when the node has already answered or asked for another route. */
  function Successor(node: Node, st: State): Option<Node> {
    match node
    case RouteNode =>
      if Answered(st.answer) then None
      else if st.route == ToSpecialized then Some(SpecializedNode)
      else if st.route == ToSchema then Some(SchemaNode)
      else if st.route == ToSandbox then Some(SandboxNode)
      else if st.route == ToSummarize then Some(SummarizeNode)
      else None
    case SpecializedNode => Some(SummarizeNode)
    case SandboxNode => Some(ApprovalNode)
    case ApprovalNode => if !Answered(st.answer) && st.route == ToMerge then Some(MergeNode) else None
    case MergeNode => None
    case SchemaNode => Some(SqlNode)
    case SqlNode =>
      if Answered(st.answer) then None
      else if st.route == ToSql then Some(SqlNode)
      else if st.route == ToSummarize then Some(SummarizeNode)
      else None
    case SummarizeNode => None
  }

  // ---------------------------------------------------------------- runs

  datatype Step = Step(node: Node, before: State, input: Input, outcome: Outcome)

  /** `finished` is false when the recursion limit is reached first. */
  datatype Run = Run(trace: seq<Step>, finished: bool, last: State)

  type Visitor = (Node, State, Input) -> Outcome

  function Nodes(cfg: Config): Visitor {
    (node: Node, st: State, inp: Input) => Visit(cfg, node, st, inp)
  }

  function StepOf(visit: Visitor, node: Node, st: State, inp: Input): Step {
    Step(node, st, inp, visit(node, st, inp))
  }

  function After(step: Step): Option<Node> {
    Successor(step.node, step.outcome.state)
  }

  /** LangGraph executes at most `limit` nodes. */
  function RunFrom(visit: Visitor, node: Node, st: State, inputs: nat -> Input, i: nat, limit: nat): Run
    decreases limit
  {
    if limit == 0 then Run([], false, st)
    else
      var step := StepOf(visit, node, st, inputs(i));
      var next := After(step);
      if next.None? then Run([step], true, step.outcome.state)
      else
        var rest := RunFrom(visit, next.value, step.outcome.state, inputs, i + 1, limit - 1);
        Run([step] + rest.trace, rest.finished, rest.last)
  }

  function InitialState(question: string): State {
    State(question, Unset, false, 0, "", "", 0, [], "", NoAnswer, Loop(0, [], 0))
  }

  function RecursionLimit(cfg: Config): nat {
    if cfg.maxRounds + 4 > 0 then cfg.maxRounds + 4 else 0
  }

  function RunWorkflow(cfg: Config, question: string, inputs: nat -> Input): Run {
    RunFrom(Nodes(cfg), RouteNode, InitialState(question), inputs, 0, RecursionLimit(cfg))
  }

  /** The tool's answer: the graph's, or a fixed sentence when that is empty. */
  datatype ToolAnswer = FromGraph(answer: Answer) | NothingGenerated

  function ToolResult(run: Run): ToolAnswer {
    if Answered(run.last.answer) then FromGraph(run.last.answer) else NothingGenerated
  }

  /** The loop guard object that each node builds from the state and snapshots back. */
  class WorkflowLoopGuard {
    var events: nat
    var fingerprints: seq<Fingerprint>
    var lastSupervisedCount: nat

    function View(): Loop
      reads this
    {
      Loop(events, fingerprints, lastSupervisedCount)
    }

    constructor (loop: Loop)
      ensures View() == loop
    {
      events, fingerprints, lastSupervisedCount := loop.events, loop.fingerprints, loop.lastSupervised;
    }

    /** True when the node has now been entered too often with the same arguments; the
        summary written then also counts as a review. */
    method RecordEvent(cfg: Config, f: Fingerprint) returns (stop: bool)
      modifies this
      ensures var loop := Record(old(View()), f);
        stop == Repeated(cfg, loop, f) && View() == if stop then Reviewed(loop) else loop
    {
      events := events + 1;
      fingerprints := fingerprints + [f];
      var repeated := 0;
      var i := |fingerprints|;
      while i > 0
        invariant 0 <= i <= |fingerprints|
        invariant repeated == Count(fingerprints[i..], f)
      {
        i := i - 1;
        if fingerprints[i] == f { repeated := repeated + 1; }
      }
      assert fingerprints[0..] == fingerprints;
      stop := repeated > cfg.maxRepeats;
      if stop { lastSupervisedCount := events; }
    }
  }
}
