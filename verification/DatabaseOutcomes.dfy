/** What whole runs of the database graph do, and what they answer. */
module DatabaseOutcomes {
  import opened Basics
  import opened SqlGate
  import opened DatabaseWorkflow
  import opened DatabaseWorkflowRuns
  import opened DatabaseWrites

  // A run is told by the effects of its steps and by the tool's answer. Routes, records of the loop
  // guard and the state's other fields are inner matters of the graph.

  /** The opening lets the step through: the rounds last, and neither the loop guard nor the
      supervisor stops a run that has no answer yet. */
  predicate IsUnhindered(cfg: Config, step: Step) {
    && step.before.rounds < cfg.maxRounds
    && (Answered(step.before.answer)
        || !Answered(EnteredState(cfg, step.node, step.before, step.input).answer))
  }

  ghost predicate AllUnhindered(cfg: Config, trace: seq<Step>) {
    trace != [] && forall k :: 0 <= k < |trace| ==> IsUnhindered(cfg, trace[k])
  }

  /** What the steps of a run do, in order. */
  function Did(trace: seq<Step>): seq<Effect> {
    if trace == [] then [] else Did(trace[..|trace| - 1]) + trace[|trace| - 1].outcome.effects
  }

  lemma DidNext(trace: seq<Step>, k: nat)
    requires k < |trace|
    ensures Did(trace[..k + 1]) == Did(trace[..k]) + trace[k].outcome.effects
  {
    assert trace[..k + 1][..k] == trace[..k];
  }

  // ---------------------------------------------------------------- steps and their successors

  /** Step `k` is a visit with the k-th input, and the next step, if any, takes over from it. */
  ghost predicate LinksAt(cfg: Config, inputs: nat -> Input, trace: seq<Step>, k: nat)
    requires k < |trace|
  {
    && trace[k].input == inputs(k)
    && trace[k].outcome == Visit(cfg, trace[k].node, trace[k].before, inputs(k))
    && if k + 1 < |trace|
       then After(trace[k]) == Some(trace[k + 1].node) && trace[k + 1].before == trace[k].outcome.state
       else After(trace[k]) == None
  }

  ghost predicate IsChain(cfg: Config, question: string, inputs: nat -> Input, trace: seq<Step>) {
    && trace != [] && trace[0].node == RouteNode && trace[0].before == InitialState(question)
    && forall k: nat :: k < |trace| ==> LinksAt(cfg, inputs, trace, k)
  }

  ghost predicate TakesOver(trace: seq<Step>, k: nat)
    requires k + 1 < |trace|
  {
    After(trace[k]) == Some(trace[k + 1].node) && trace[k + 1].before == trace[k].outcome.state
  }

  lemma {:induction false} StepsTakeOver(visit: Visitor, node: Node, st: State, inputs: nat -> Input, i: nat,
      limit: nat)
    ensures var trace := RunFrom(visit, node, st, inputs, i, limit).trace;
      && (trace != [] ==> trace[0].node == node && trace[0].before == st)
      && forall k: nat :: k + 1 < |trace| ==> TakesOver(trace, k)
    decreases limit
  {
    if limit > 0 {
      var step := StepOf(visit, node, st, inputs(i));
      if After(step).None? {
        RunStops(visit, node, st, inputs, i, limit);
      } else {
        RunContinues(visit, node, st, inputs, i, limit);
        StepsTakeOver(visit, After(step).value, step.outcome.state, inputs, i + 1, limit - 1);
        var rest := RunFrom(visit, After(step).value, step.outcome.state, inputs, i + 1, limit - 1).trace;
        var trace := [step] + rest;
        forall k: nat | k + 1 < |trace| ensures TakesOver(trace, k) {
          if k > 0 { assert TakesOver(rest, k - 1); }
        }
      }
    }
  }

  lemma RunIsChain(cfg: Config, question: string, inputs: nat -> Input)
    requires cfg.maxRounds >= -3
    ensures var run := RunWorkflow(cfg, question, inputs);
      && IsChain(cfg, question, inputs, run.trace)
      && run.last == run.trace[|run.trace| - 1].outcome.state
  {
    var run, st := RunWorkflow(cfg, question, inputs), InitialState(question);
    EveryRunEnds(cfg, question, inputs);
    FinishedAtTheEnd(Nodes(cfg), RouteNode, st, inputs, 0, RecursionLimit(cfg));
    StepsTakeOver(Nodes(cfg), RouteNode, st, inputs, 0, RecursionLimit(cfg));
    forall k: nat | k < |run.trace| ensures LinksAt(cfg, inputs, run.trace, k) {
      StepIsVisit(cfg, question, inputs, k);
      if k + 1 < |run.trace| { assert TakesOver(run.trace, k); }
    }
  }

  // ---------------------------------------------------------------- one unhindered step

  /** An unhindered visit that finds no answer yet. */
  predicate Works(cfg: Config, step: Step, node: Node) {
    && step.node == node && step.outcome == Visit(cfg, node, step.before, step.input)
    && IsUnhindered(cfg, step) && step.before.answer == NoAnswer
  }

  lemma WorksInBody(cfg: Config, step: Step, node: Node)
    requires Works(cfg, step, node)
    ensures var e := EnteredState(cfg, node, step.before, step.input);
      && step.outcome == Body(cfg, node, e, step.input) && !Answered(e.answer)
      && e == step.before.(rounds := step.before.rounds + 1, loop := e.loop)
  {
    EnterKeeps(cfg, step.before, node, GuardArgs(cfg, node, step.before, step.input), step.input);
  }

  /** A step that finds an answer hands it on and does nothing else. */
  lemma AnswerIsHandedOn(cfg: Config, step: Step)
    requires step.outcome == Visit(cfg, step.node, step.before, step.input)
    requires IsUnhindered(cfg, step) && Answered(step.before.answer)
    ensures step.outcome.effects == [] && step.outcome.state.answer == step.before.answer
  {}

  lemma RouteWorks(cfg: Config, step: Step)
    requires Works(cfg, step, RouteNode)
    ensures step.outcome.effects == [] && step.outcome.state.answer == NoAnswer
    ensures step.outcome.state.hotProducts
            == (step.before.hotProducts || (step.input.asksForHotProducts && !step.input.asksForWrite))
    ensures step.outcome.state.sqlFailCount == step.before.sqlFailCount
    ensures step.outcome.state.queryResult == step.before.queryResult
    ensures step.outcome.state.sqlHistory == step.before.sqlHistory
    ensures After(step) == Some(if step.input.asksForWrite then SandboxNode
                                else if step.input.asksForHotProducts then SpecializedNode else SchemaNode)
  {
    WorksInBody(cfg, step, RouteNode);
  }

  /** What the sandbox node leaves of its candidate. */
  predicate LeavesCandidate(step: Step, sql: string, validation: Validation) {
    && After(step) == Some(ApprovalNode)
    && step.outcome.state.writeSql == sql
    && step.outcome.state.answer
       == if validation.Rejected? then WriteRejected(validation.reason, sql) else NoAnswer
  }

  lemma SandboxedLeaves(st: State, sandbox: Option<string>, sql: string, validation: Validation, gate: Gate)
    requires st.answer == NoAnswer
    ensures var to := Sandboxed(st, sandbox, sql, validation, gate).state;
      && to.writeSql == sql
      && to.answer == if validation.Rejected? then WriteRejected(validation.reason, sql) else NoAnswer
  {}

  lemma SandboxWorks(cfg: Config, step: Step, sql: string, validation: Validation)
    requires Works(cfg, step, SandboxNode) && sql == Extract(step.input.body) && validation == Validate(sql, cfg.wide)
    ensures WritesCandidate(step.outcome.effects, step.input.sandboxDatabase, sql, validation)
    ensures LeavesCandidate(step, sql, validation)
  {
    WorksInBody(cfg, step, SandboxNode);
    SandboxWrites(cfg, step.before, step.input);
    var e := EnteredState(cfg, SandboxNode, step.before, step.input);
    SandboxedLeaves(e, step.input.sandboxDatabase, sql, validation,
      ExecutorGate(sql, step.input.dangerousDdl, cfg.wide));
  }

  /** The text shown is the candidate; only a `continue` inside a task leads on, to the merge node. */
  lemma ApprovalWorks(cfg: Config, step: Step)
    requires Works(cfg, step, ApprovalNode)
    ensures step.outcome.effects == [ShowForApproval(step.before.writeSql)]
    ensures var goesOn := step.input.inTask && step.input.decision == "continue";
      && After(step) == (if goesOn then Some(MergeNode) else None)
      && step.outcome.state.writeSql == step.before.writeSql
      && step.outcome.state.answer
         == if goesOn then NoAnswer
            else if step.input.inTask && step.input.decision == "revise" then AskedToRevise(step.input.instruction)
            else Aborted
  {
    WorksInBody(cfg, step, ApprovalNode);
  }

  /** What the merge node owes its approved text: with the switch on it executes it, once and in
      the production database; the answer says whether it did. */
  predicate Merges(cfg: Config, step: Step) {
    && step.outcome.effects
       == (if step.input.production then [ExecuteIn(cfg.database, step.before.writeSql)] else [])
    && step.outcome.state.answer == MergeSummary(step.input.production)
    && After(step) == None
  }

  /** The text was extracted from a text of the model's and passes validation. */
  ghost predicate IsCandidate(cfg: Config, sql: string) {
    exists body :: sql == Extract(body) && Validate(Extract(body), cfg.wide).Accepted?
  }

  lemma CandidateIsExecuted(cfg: Config, sql: string, dangerousDdl: bool)
    requires IsCandidate(cfg, sql)
    ensures ExecutorGate(sql, dangerousDdl, cfg.wide) == Execute(sql)
  {
    var body :| sql == Extract(body) && Validate(Extract(body), cfg.wide).Accepted?;
    AcceptedIsExecutedVerbatim(body, dangerousDdl, cfg.wide);
  }

  lemma MergeRuns(cfg: Config, st: State, inp: Input, sql: string)
    requires st.writeSql == sql && ExecutorGate(sql, inp.dangerousDdl, cfg.wide) == Execute(sql)
    ensures var outcome := MergeStep(cfg, st, inp);
      && outcome.effects == (if inp.production then [ExecuteIn(cfg.database, sql)] else [])
      && outcome.state.answer == MergeSummary(inp.production)
  {}

  lemma CandidateMerges(cfg: Config, step: Step)
    requires Works(cfg, step, MergeNode) && IsCandidate(cfg, step.before.writeSql)
    ensures Merges(cfg, step)
  {
    WorksInBody(cfg, step, MergeNode);
    var e := EnteredState(cfg, MergeNode, step.before, step.input);
    CandidateIsExecuted(cfg, step.before.writeSql, step.input.dangerousDdl);
    MergeRuns(cfg, e, step.input, step.before.writeSql);
  }

  /** Wherever the merge node stands rightly and comes to its body, the approved text is executed. */
  lemma MergeExecutes(cfg: Config, past: seq<Step>, step: Step)
    requires Ready(cfg, past, MergeNode, step.before) && Works(cfg, step, MergeNode)
    ensures Merges(cfg, step)
  {
    var i :| 0 <= i < |past| && past[i].node == SandboxNode
      && step.before.writeSql == Extract(past[i].input.body) && Validate(step.before.writeSql, cfg.wide).Accepted?;
    CandidateMerges(cfg, step);
  }

  lemma SpecializedWorks(cfg: Config, step: Step)
    requires Works(cfg, step, SpecializedNode)
    ensures step.outcome.effects == [AnalyzeTopProducts] && step.outcome.state.answer == NoAnswer
    ensures step.outcome.state.hotProducts == step.before.hotProducts && After(step) == Some(SummarizeNode)
    ensures step.outcome.state.queryResult
            == if step.input.toolResult.Some? then step.input.toolResult.value else step.before.queryResult
  {
    WorksInBody(cfg, step, SpecializedNode);
  }

  lemma SchemaWorks(cfg: Config, step: Step)
    requires Works(cfg, step, SchemaNode)
    ensures var tables := SchemaTables(cfg, step.input);
      && step.outcome.effects == LookUps(tables) && After(step) == Some(SqlNode)
      && step.outcome.state.hotProducts == step.before.hotProducts
      && step.outcome.state.sqlFailCount == step.before.sqlFailCount
      && step.outcome.state.sqlHistory == step.before.sqlHistory
      && step.outcome.state.answer
         == if forall t :: t in tables ==> t in step.input.brokenTables then NoSchema else NoAnswer
  {
    WorksInBody(cfg, step, SchemaNode);
  }

  /** A statement that fails is followed by another one until as many have failed as the cap says,
      one at least. */
  lemma SqlWorks(cfg: Config, step: Step)
    requires Works(cfg, step, SqlNode)
    ensures step.outcome.effects == [RunSql(Extract(step.input.body))]
    ensures step.outcome.state.hotProducts == step.before.hotProducts
    ensures step.outcome.state.sqlHistory == step.before.sqlHistory + [Extract(step.input.body)]
    ensures step.outcome.state.queryResult == step.input.sqlResult
    ensures var failures := step.before.sqlFailCount + 1;
      if !step.input.sqlFailed then After(step) == Some(SummarizeNode) && step.outcome.state.answer == NoAnswer
      else if failures < cfg.maxSqlFailures
      then After(step) == Some(SqlNode) && step.outcome.state.answer == NoAnswer
           && step.outcome.state.sqlFailCount == failures
      else After(step) == None && step.outcome.state.answer == SqlFailed(failures)
  {
    WorksInBody(cfg, step, SqlNode);
  }

  lemma SummaryWorks(cfg: Config, step: Step)
    requires Works(cfg, step, SummarizeNode)
    ensures step.outcome.effects == [] && After(step) == None
    ensures step.outcome.state.queryResult == step.before.queryResult
    ensures step.outcome.state.sqlHistory == step.before.sqlHistory
    ensures step.outcome.state.answer
            == if step.before.hotProducts then TopProducts
               else if step.input.summary.Some? then ModelText(step.input.summary.value) else FallbackSummary
  {
    WorksInBody(cfg, step, SummarizeNode);
  }

  // ---------------------------------------------------------------- approved writes are executed

  lemma StepStandsReady(cfg: Config, question: string, inputs: nat -> Input, k: nat)
    requires k < |RunWorkflow(cfg, question, inputs).trace|
    ensures var trace := RunWorkflow(cfg, question, inputs).trace;
      Ready(cfg, trace[..k], trace[k].node, trace[k].before)
  {
    var good := (past: seq<Step>, step: Step) => Ready(cfg, past, step.node, step.before);
    forall p, n, s, x ensures Preserves(Nodes(cfg), ReadyFor(cfg), good, p, n, s, x) {
      if Ready(cfg, p, n, s) { ReadyStep(cfg, p, n, s, x); }
    }
    EveryStepIsGood(Nodes(cfg), ReadyFor(cfg), good, [], RouteNode, InitialState(question), inputs, 0,
      RecursionLimit(cfg));
    var trace := RunWorkflow(cfg, question, inputs).trace;
    assert AllGood(good, [], trace) && GoodAt(good, [], trace, k);
    assert [] + trace[..k] == trace[..k];
  }

  /** In every run: an approval step that is answered `continue` inside a task is followed by the
      merge node, and there the run ends; if the merge node comes to its body with the switch on,
      exactly the shown text is executed, once and in production. */
  lemma ApprovedWriteIsExecuted(cfg: Config, question: string, inputs: nat -> Input, k: nat)
    requires k < |RunWorkflow(cfg, question, inputs).trace|
    requires var step := RunWorkflow(cfg, question, inputs).trace[k];
      Works(cfg, step, ApprovalNode) && step.input.inTask && step.input.decision == "continue"
    ensures var run := RunWorkflow(cfg, question, inputs); var shown := run.trace[k].before.writeSql;
      && run.trace[k].outcome.effects == [ShowForApproval(shown)]
      && |run.trace| == k + 2 && run.trace[k + 1].node == MergeNode
      && (IsUnhindered(cfg, run.trace[k + 1]) ==>
            && run.trace[k + 1].outcome.effects
               == (if inputs(k + 1).production then [ExecuteIn(cfg.database, shown)] else [])
            && ToolResult(run) == FromGraph(MergeSummary(inputs(k + 1).production)))
  {
    var run := RunWorkflow(cfg, question, inputs);
    RunIsChain(cfg, question, inputs);
    StepStandsReady(cfg, question, inputs, k);
    ApprovalLeadsToMerge(cfg, question, inputs, run.trace, k);
    StepStandsReady(cfg, question, inputs, k + 1);
    ReadyMergeEnds(cfg, inputs, run, run.trace[..k + 1]);
  }

  lemma ApprovalLeadsToMerge(cfg: Config, question: string, inputs: nat -> Input, trace: seq<Step>, k: nat)
    requires IsChain(cfg, question, inputs, trace) && k < |trace|
    requires Works(cfg, trace[k], ApprovalNode) && trace[k].input.inTask && trace[k].input.decision == "continue"
    ensures trace[k].outcome.effects == [ShowForApproval(trace[k].before.writeSql)]
    ensures |trace| == k + 2 && trace[k + 1].node == MergeNode
    ensures trace[k + 1].before.writeSql == trace[k].before.writeSql && trace[k + 1].before.answer == NoAnswer
    ensures trace[k + 1].input == inputs(k + 1)
    ensures trace[k + 1].outcome == Visit(cfg, MergeNode, trace[k + 1].before, trace[k + 1].input)
  {
    ApprovalWorks(cfg, trace[k]);
    assert LinksAt(cfg, inputs, trace, k);
    assert LinksAt(cfg, inputs, trace, k + 1);
    assert After(trace[k + 1]) == None;
  }

  lemma ReadyMergeEnds(cfg: Config, inputs: nat -> Input, run: Run, past: seq<Step>)
    requires run.trace != [] && run.last == run.trace[|run.trace| - 1].outcome.state
    requires var step := run.trace[|run.trace| - 1];
      && Ready(cfg, past, MergeNode, step.before) && step.node == MergeNode && step.before.answer == NoAnswer
      && step.outcome == Visit(cfg, MergeNode, step.before, step.input)
    ensures var step := run.trace[|run.trace| - 1];
      IsUnhindered(cfg, step) ==> Merges(cfg, step) && ToolResult(run) == FromGraph(MergeSummary(step.input.production))
  {
    var step := run.trace[|run.trace| - 1];
    if IsUnhindered(cfg, step) { MergeExecutes(cfg, past, step); }
  }

  // ---------------------------------------------------------------- whole runs

  /** The run that the first question starts does this and answers that. */
  ghost predicate Ends(run: Run, did: seq<Effect>, answer: ToolAnswer) {
    Did(run.trace) == did && ToolResult(run) == answer
  }

  /** What follows an accepted candidate: it is shown, and executed in production if it is approved
      inside a task and the switch is on then. */
  ghost predicate DecisionEnds(cfg: Config, inputs: nat -> Input, sql: string, tried: seq<Effect>, run: Run) {
    var shown := tried + [ShowForApproval(sql)];
    if !inputs(2).inTask then Ends(run, shown, FromGraph(Aborted))
    else if inputs(2).decision == "revise" then Ends(run, shown, FromGraph(AskedToRevise(inputs(2).instruction)))
    else if inputs(2).decision != "continue" then Ends(run, shown, FromGraph(Aborted))
    else if inputs(3).production
    then Ends(run, shown + [ExecuteIn(cfg.database, sql)], FromGraph(MergeSummary(true)))
    else Ends(run, shown, FromGraph(MergeSummary(false)))
  }

  /** A write: a rejected candidate is only reported; an accepted one is tried in the sandbox, if
      there is one, before it is decided on. */
  ghost predicate WriteEnds(cfg: Config, inputs: nat -> Input, sql: string, validation: Validation, run: Run) {
    var sandbox := inputs(1).sandboxDatabase;
    if validation.Rejected? then Ends(run, [], FromGraph(WriteRejected(validation.reason, sql)))
    else if sandbox == None || sandbox == Some("") then DecisionEnds(cfg, inputs, sql, [], run)
    else DecisionEnds(cfg, inputs, sql, [ExecuteIn(sandbox.value, sql)], run)
  }

  /** The first statement of each of the model's texts. */
  function Texts(inputs: nat -> Input): nat -> string {
    (k: nat) => Extract(inputs(k).body)
  }

  /** The first `n` statements, from the third step on. */
  function Statements(texts: nat -> string, n: nat): seq<Effect> {
    seq(n, j requires 0 <= j < n => RunSql(texts(2 + j)))
  }

  /** The same statements as texts. */
  function Tried(texts: nat -> string, n: nat): seq<string> {
    seq(n, j requires 0 <= j < n => texts(2 + j))
  }

  predicate Fails(inputs: nat -> Input, j: nat) {
    inputs(2 + j).sqlFailed
  }

  /** The statements from the `low`-th up to the `high`-th fail. */
  predicate AllFailed(inputs: nat -> Input, low: nat, high: nat) {
    forall j: nat :: low <= j < high ==> Fails(inputs, j)
  }

  function Summarized(summary: Option<string>): ToolAnswer {
    match summary
    case None => FromGraph(FallbackSummary)
    case Some(text) => if text == "" then NothingGenerated else FromGraph(ModelText(text))
  }

  /** How many statements may fail. */
  function FailureCap(cfg: Config): nat {
    if cfg.maxSqlFailures > 1 then cfg.maxSqlFailures else 1
  }

  /** The last of the `n` statements has left its result, and all of them are on record. */
  predicate KeepsLast(inputs: nat -> Input, n: nat, last: State)
    requires n > 0
  {
    last.queryResult == inputs(1 + n).sqlResult && last.sqlHistory == Tried(Texts(inputs), n)
  }

  /** Statements are tried until one succeeds or as many as the cap says have failed; a success is
      answered by the model's summary, which has the statement's result before it. */
  ghost predicate TriesEnd(cfg: Config, inputs: nat -> Input, failed: nat, looked: seq<Effect>, run: Run) {
    && failed <= FailureCap(cfg) && AllFailed(inputs, 0, failed)
    && if failed == FailureCap(cfg)
       then
         && Ends(run, looked + Statements(Texts(inputs), failed), FromGraph(SqlFailed(failed)))
         && KeepsLast(inputs, failed, run.last)
       else
         && !Fails(inputs, failed)
         && Ends(run, looked + Statements(Texts(inputs), failed + 1), Summarized(inputs(3 + failed).summary))
         && KeepsLast(inputs, failed + 1, run.last)
  }

  /** A read: the tables are looked up, and if any is there, statements are tried. */
  ghost predicate ReadEnds(cfg: Config, inputs: nat -> Input, failed: nat, run: Run) {
    var tables := SchemaTables(cfg, inputs(1));
    if forall t :: t in tables ==> t in inputs(1).brokenTables then Ends(run, LookUps(tables), FromGraph(NoSchema))
    else TriesEnd(cfg, inputs, failed, LookUps(tables), run)
  }

  // ---------------------------------------------------------------- the steps of an unhindered run

  /** A chain of unhindered steps, and its end. */
  ghost predicate IsUnhinderedRun(cfg: Config, question: string, inputs: nat -> Input, run: Run) {
    && IsChain(cfg, question, inputs, run.trace) && AllUnhindered(cfg, run.trace)
    && run.last == run.trace[|run.trace| - 1].outcome.state
  }

  /** The k-th step of an unhindered run, and what takes over from it. */
  lemma WorksAt(cfg: Config, question: string, inputs: nat -> Input, run: Run, k: nat)
    requires IsUnhinderedRun(cfg, question, inputs, run) && k < |run.trace|
    requires run.trace[k].before.answer == NoAnswer
    ensures Works(cfg, run.trace[k], run.trace[k].node) && run.trace[k].input == inputs(k)
  {
    assert LinksAt(cfg, inputs, run.trace, k);
    assert IsUnhindered(cfg, run.trace[k]);
  }

  /** The k-th step leads to the node, which finds the state that it leaves. */
  predicate LeadsOn(trace: seq<Step>, k: nat, node: Node)
    requires k < |trace|
  {
    k + 1 < |trace| && trace[k + 1].node == node && trace[k + 1].before == trace[k].outcome.state
  }

  lemma TakenOver(cfg: Config, question: string, inputs: nat -> Input, trace: seq<Step>, k: nat, node: Node)
    requires IsChain(cfg, question, inputs, trace) && k < |trace| && After(trace[k]) == Some(node)
    ensures LeadsOn(trace, k, node)
  {
    assert LinksAt(cfg, inputs, trace, k);
  }

  lemma EndsHere(cfg: Config, question: string, inputs: nat -> Input, trace: seq<Step>, k: nat)
    requires IsChain(cfg, question, inputs, trace) && k < |trace| && After(trace[k]) == None
    ensures |trace| == k + 1
  {
    assert LinksAt(cfg, inputs, trace, k);
  }

  lemma RunIsUnhindered(cfg: Config, question: string, inputs: nat -> Input)
    requires AllUnhindered(cfg, RunWorkflow(cfg, question, inputs).trace)
    ensures IsUnhinderedRun(cfg, question, inputs, RunWorkflow(cfg, question, inputs))
  {
    RunIsBounded(cfg, question, inputs);
    RunIsChain(cfg, question, inputs);
  }

  function ToolAnswerOf(answer: Answer): ToolAnswer {
    if Answered(answer) then FromGraph(answer) else NothingGenerated
  }

  /** A step without a successor ends the run. */
  lemma EndsThere(cfg: Config, question: string, inputs: nat -> Input, run: Run, k: nat, did: seq<Effect>)
    requires IsUnhinderedRun(cfg, question, inputs, run) && k < |run.trace| && After(run.trace[k]) == None
    requires Did(run.trace[..k]) == did
    ensures Ends(run, did + run.trace[k].outcome.effects, ToolAnswerOf(run.trace[k].outcome.state.answer))
    ensures run.last == run.trace[k].outcome.state
  {
    EndsHere(cfg, question, inputs, run.trace, k);
    DidNext(run.trace, k);
    assert run.trace[..k + 1] == run.trace;
  }

  /** An answer that the k-th step finds is handed on. */
  lemma AnswerIsKeptAt(cfg: Config, question: string, inputs: nat -> Input, run: Run, k: nat)
    requires IsUnhinderedRun(cfg, question, inputs, run) && k < |run.trace|
    requires Answered(run.trace[k].before.answer)
    ensures run.trace[k].outcome.effects == [] && run.trace[k].outcome.state.answer == run.trace[k].before.answer
  {
    assert LinksAt(cfg, inputs, run.trace, k);
    assert IsUnhindered(cfg, run.trace[k]);
    AnswerIsHandedOn(cfg, run.trace[k]);
  }

  /** The first step routes the question. */
  lemma RouteFirst(cfg: Config, question: string, inputs: nat -> Input, run: Run)
    requires IsUnhinderedRun(cfg, question, inputs, run)
    ensures run.trace[0].outcome.effects == []
    ensures LeadsOn(run.trace, 0, if inputs(0).asksForWrite then SandboxNode
                                  else if inputs(0).asksForHotProducts then SpecializedNode else SchemaNode)
    ensures var st := run.trace[0].outcome.state;
      && st.answer == NoAnswer && st.sqlFailCount == 0 && st.sqlHistory == [] && st.queryResult == ""
      && st.hotProducts == (inputs(0).asksForHotProducts && !inputs(0).asksForWrite)
  {
    WorksAt(cfg, question, inputs, run, 0);
    RouteWorks(cfg, run.trace[0]);
    TakenOver(cfg, question, inputs, run.trace, 0, After(run.trace[0]).value);
  }

  lemma SandboxAt(cfg: Config, question: string, inputs: nat -> Input, run: Run, k: nat, sql: string,
      validation: Validation)
    requires IsUnhinderedRun(cfg, question, inputs, run) && k < |run.trace|
    requires run.trace[k].node == SandboxNode && run.trace[k].before.answer == NoAnswer
    requires sql == Texts(inputs)(k) && validation == Validate(sql, cfg.wide)
    ensures WritesCandidate(run.trace[k].outcome.effects, inputs(k).sandboxDatabase, sql, validation)
    ensures LeavesCandidate(run.trace[k], sql, validation) && LeadsOn(run.trace, k, ApprovalNode)
    ensures validation.Accepted? ==> IsCandidate(cfg, sql)
  {
    WorksAt(cfg, question, inputs, run, k);
    SandboxWorks(cfg, run.trace[k], sql, validation);
    TakenOver(cfg, question, inputs, run.trace, k, ApprovalNode);
  }

  /** The candidate is shown; a `continue` inside a task leads to the merge node, all else ends. */
  lemma ApprovalAt(cfg: Config, question: string, inputs: nat -> Input, run: Run, k: nat, did: seq<Effect>)
    requires IsUnhinderedRun(cfg, question, inputs, run) && k < |run.trace|
    requires run.trace[k].node == ApprovalNode && run.trace[k].before.answer == NoAnswer
    requires Did(run.trace[..k]) == did
    ensures var sql := run.trace[k].before.writeSql; var shown := did + [ShowForApproval(sql)];
      if inputs(k).inTask && inputs(k).decision == "continue" then
        && LeadsOn(run.trace, k, MergeNode) && Did(run.trace[..k + 1]) == shown
        && run.trace[k].outcome.state.answer == NoAnswer && run.trace[k].outcome.state.writeSql == sql
      else if inputs(k).inTask && inputs(k).decision == "revise"
      then Ends(run, shown, FromGraph(AskedToRevise(inputs(k).instruction)))
      else Ends(run, shown, FromGraph(Aborted))
  {
    WorksAt(cfg, question, inputs, run, k);
    ApprovalWorks(cfg, run.trace[k]);
    DidNext(run.trace, k);
    if After(run.trace[k]) == None {
      EndsThere(cfg, question, inputs, run, k, did);
    } else {
      TakenOver(cfg, question, inputs, run.trace, k, MergeNode);
    }
  }

  lemma MergeAt(cfg: Config, question: string, inputs: nat -> Input, run: Run, k: nat, did: seq<Effect>)
    requires IsUnhinderedRun(cfg, question, inputs, run) && k < |run.trace|
    requires run.trace[k].node == MergeNode && run.trace[k].before.answer == NoAnswer
    requires IsCandidate(cfg, run.trace[k].before.writeSql) && Did(run.trace[..k]) == did
    ensures var sql := run.trace[k].before.writeSql;
      var executed := if inputs(k).production then [ExecuteIn(cfg.database, sql)] else [];
      Ends(run, did + executed, FromGraph(MergeSummary(inputs(k).production)))
  {
    WorksAt(cfg, question, inputs, run, k);
    CandidateMerges(cfg, run.trace[k]);
    EndsThere(cfg, question, inputs, run, k, did);
  }

  lemma SpecializedAt(cfg: Config, question: string, inputs: nat -> Input, run: Run, k: nat)
    requires IsUnhinderedRun(cfg, question, inputs, run) && k < |run.trace|
    requires run.trace[k].node == SpecializedNode && run.trace[k].before.answer == NoAnswer
    ensures run.trace[k].outcome.effects == [AnalyzeTopProducts] && LeadsOn(run.trace, k, SummarizeNode)
    ensures run.trace[k].outcome.state.answer == NoAnswer
    ensures run.trace[k].outcome.state.hotProducts == run.trace[k].before.hotProducts
    ensures run.trace[k].outcome.state.queryResult
            == if inputs(k).toolResult.Some? then inputs(k).toolResult.value else run.trace[k].before.queryResult
  {
    WorksAt(cfg, question, inputs, run, k);
    SpecializedWorks(cfg, run.trace[k]);
    TakenOver(cfg, question, inputs, run.trace, k, SummarizeNode);
  }

  lemma SchemaAt(cfg: Config, question: string, inputs: nat -> Input, run: Run, k: nat, tables: seq<Table>)
    requires IsUnhinderedRun(cfg, question, inputs, run) && k < |run.trace|
    requires run.trace[k].node == SchemaNode && run.trace[k].before.answer == NoAnswer
    requires tables == SchemaTables(cfg, inputs(k))
    ensures run.trace[k].outcome.effects == LookUps(tables) && LeadsOn(run.trace, k, SqlNode)
    ensures run.trace[k].outcome.state.hotProducts == run.trace[k].before.hotProducts
    ensures run.trace[k].outcome.state.sqlFailCount == run.trace[k].before.sqlFailCount
    ensures run.trace[k].outcome.state.sqlHistory == run.trace[k].before.sqlHistory
    ensures run.trace[k].outcome.state.answer
            == if forall t :: t in tables ==> t in inputs(k).brokenTables then NoSchema else NoAnswer
  {
    WorksAt(cfg, question, inputs, run, k);
    SchemaWorks(cfg, run.trace[k]);
    TakenOver(cfg, question, inputs, run.trace, k, SqlNode);
  }

  lemma SqlAt(cfg: Config, question: string, inputs: nat -> Input, run: Run, k: nat, did: seq<Effect>)
    requires IsUnhinderedRun(cfg, question, inputs, run) && k < |run.trace|
    requires run.trace[k].node == SqlNode && run.trace[k].before.answer == NoAnswer && Did(run.trace[..k]) == did
    ensures Did(run.trace[..k + 1]) == did + [RunSql(Texts(inputs)(k))]
    ensures run.trace[k].outcome.state.hotProducts == run.trace[k].before.hotProducts
    ensures run.trace[k].outcome.state.sqlHistory == run.trace[k].before.sqlHistory + [Texts(inputs)(k)]
    ensures run.trace[k].outcome.state.queryResult == inputs(k).sqlResult
    ensures var st := run.trace[k].outcome.state; var failures := run.trace[k].before.sqlFailCount + 1;
      if !inputs(k).sqlFailed then LeadsOn(run.trace, k, SummarizeNode) && st.answer == NoAnswer
      else if failures < cfg.maxSqlFailures
      then LeadsOn(run.trace, k, SqlNode) && st.answer == NoAnswer && st.sqlFailCount == failures
      else Ends(run, did + [RunSql(Texts(inputs)(k))], FromGraph(SqlFailed(failures))) && run.last == st
  {
    WorksAt(cfg, question, inputs, run, k);
    SqlWorks(cfg, run.trace[k]);
    DidNext(run.trace, k);
    if After(run.trace[k]) == None {
      EndsThere(cfg, question, inputs, run, k, did);
    } else {
      TakenOver(cfg, question, inputs, run.trace, k, After(run.trace[k]).value);
    }
  }

  lemma SummaryAt(cfg: Config, question: string, inputs: nat -> Input, run: Run, k: nat, did: seq<Effect>)
    requires IsUnhinderedRun(cfg, question, inputs, run) && k < |run.trace|
    requires run.trace[k].node == SummarizeNode && run.trace[k].before.answer == NoAnswer
    requires Did(run.trace[..k]) == did
    ensures Ends(run, did, if run.trace[k].before.hotProducts then FromGraph(TopProducts)
                           else Summarized(inputs(k).summary))
    ensures run.last.queryResult == run.trace[k].before.queryResult
    ensures run.last.sqlHistory == run.trace[k].before.sqlHistory
  {
    WorksAt(cfg, question, inputs, run, k);
    SummaryWorks(cfg, run.trace[k]);
    EndsThere(cfg, question, inputs, run, k, did);
  }

  // ---------------------------------------------------------------- writes

  /** Every unhindered run of a write question ends like that. */
  lemma WriteRun(cfg: Config, question: string, inputs: nat -> Input)
    requires AllUnhindered(cfg, RunWorkflow(cfg, question, inputs).trace) && inputs(0).asksForWrite
    ensures var sql := Texts(inputs)(1);
      WriteEnds(cfg, inputs, sql, Validate(sql, cfg.wide), RunWorkflow(cfg, question, inputs))
  {
    var sql := Texts(inputs)(1);
    RunIsUnhindered(cfg, question, inputs);
    WriteRunOf(cfg, question, inputs, sql, Validate(sql, cfg.wide), RunWorkflow(cfg, question, inputs));
  }

  lemma WriteRunOf(cfg: Config, question: string, inputs: nat -> Input, sql: string, validation: Validation, run: Run)
    requires IsUnhinderedRun(cfg, question, inputs, run) && inputs(0).asksForWrite
    requires sql == Texts(inputs)(1) && validation == Validate(sql, cfg.wide)
    ensures WriteEnds(cfg, inputs, sql, validation, run)
  {
    RouteFirst(cfg, question, inputs, run);
    SandboxAt(cfg, question, inputs, run, 1, sql, validation);
    DidNext(run.trace, 0);
    DidNext(run.trace, 1);
    CandidateRun(cfg, question, inputs, sql, validation, run);
  }

  lemma CandidateRun(cfg: Config, question: string, inputs: nat -> Input, sql: string, validation: Validation, run: Run)
    requires IsUnhinderedRun(cfg, question, inputs, run) && |run.trace| >= 2
    requires LeavesCandidate(run.trace[1], sql, validation) && LeadsOn(run.trace, 1, ApprovalNode)
    requires WritesCandidate(Did(run.trace[..2]), inputs(1).sandboxDatabase, sql, validation)
    requires validation.Accepted? ==> IsCandidate(cfg, sql)
    ensures WriteEnds(cfg, inputs, sql, validation, run)
  {
    if validation.Rejected? {
      AnswerIsKeptAt(cfg, question, inputs, run, 2);
      EndsThere(cfg, question, inputs, run, 2, []);
    } else {
      DecidedRun(cfg, question, inputs, sql, Did(run.trace[..2]), run);
    }
  }

  lemma DecidedRun(cfg: Config, question: string, inputs: nat -> Input, sql: string, tried: seq<Effect>, run: Run)
    requires IsUnhinderedRun(cfg, question, inputs, run) && |run.trace| >= 3
    requires run.trace[2].node == ApprovalNode && run.trace[2].before.answer == NoAnswer
    requires IsCandidate(cfg, sql) && run.trace[2].before.writeSql == sql && Did(run.trace[..2]) == tried
    ensures DecisionEnds(cfg, inputs, sql, tried, run)
  {
    ApprovalAt(cfg, question, inputs, run, 2, tried);
    if inputs(2).inTask && inputs(2).decision == "continue" {
      MergeAt(cfg, question, inputs, run, 3, tried + [ShowForApproval(sql)]);
    }
  }

  // ---------------------------------------------------------------- hot products

  /** A question for hot products calls the analysis alone and is answered by the table of its result,
      and by an empty one when the analysis fails: the edge behind it is fixed. */
  lemma HotProductRun(cfg: Config, question: string, inputs: nat -> Input)
    requires AllUnhindered(cfg, RunWorkflow(cfg, question, inputs).trace)
    requires !inputs(0).asksForWrite && inputs(0).asksForHotProducts
    ensures Ends(RunWorkflow(cfg, question, inputs), [AnalyzeTopProducts], FromGraph(TopProducts))
    ensures RunWorkflow(cfg, question, inputs).last.queryResult
            == if inputs(1).toolResult.Some? then inputs(1).toolResult.value else ""
  {
    RunIsUnhindered(cfg, question, inputs);
    HotProductRunOf(cfg, question, inputs, RunWorkflow(cfg, question, inputs));
  }

  lemma HotProductRunOf(cfg: Config, question: string, inputs: nat -> Input, run: Run)
    requires IsUnhinderedRun(cfg, question, inputs, run)
    requires !inputs(0).asksForWrite && inputs(0).asksForHotProducts
    ensures Ends(run, [AnalyzeTopProducts], FromGraph(TopProducts))
    ensures run.last.queryResult == if inputs(1).toolResult.Some? then inputs(1).toolResult.value else ""
  {
    RouteFirst(cfg, question, inputs, run);
    SpecializedAt(cfg, question, inputs, run, 1);
    DidNext(run.trace, 0);
    DidNext(run.trace, 1);
    SummaryAt(cfg, question, inputs, run, 2, [AnalyzeTopProducts]);
  }

  // ---------------------------------------------------------------- reads

  /** After `n` failures the SQL node is at work again. */
  ghost predicate Retries(texts: nat -> string, trace: seq<Step>, looked: seq<Effect>, n: nat) {
    && n + 2 < |trace| && trace[n + 2].node == SqlNode && trace[n + 2].before.answer == NoAnswer
    && trace[n + 2].before.sqlFailCount == n && !trace[n + 2].before.hotProducts
    && trace[n + 2].before.sqlHistory == Tried(texts, n)
    && Did(trace[..n + 2]) == looked + Statements(texts, n)
  }

  lemma RetriesNext(cfg: Config, question: string, inputs: nat -> Input, run: Run, looked: seq<Effect>, n: nat)
    requires IsUnhinderedRun(cfg, question, inputs, run)
    requires Retries(Texts(inputs), run.trace, looked, n) && Fails(inputs, n) && n + 1 < FailureCap(cfg)
    ensures Retries(Texts(inputs), run.trace, looked, n + 1)
  {
    SqlAt(cfg, question, inputs, run, n + 2, looked + Statements(Texts(inputs), n));
    StatementsNext(Texts(inputs), looked, n);
  }

  /** From `n` failures on: either a later statement succeeds, or the cap is reached. */
  lemma {:induction false} FirstSuccess(inputs: nat -> Input, retries: nat -> bool, cap: nat, n: nat)
    returns (failed: nat)
    requires retries(n) && n < cap
    requires forall k: nat :: k + 1 < cap && retries(k) && Fails(inputs, k) ==> retries(k + 1)
    ensures n <= failed <= cap && AllFailed(inputs, n, failed)
    ensures failed < cap ==> retries(failed) && !Fails(inputs, failed)
    ensures failed == cap ==> retries(failed - 1)
    decreases cap - n
  {
    if !Fails(inputs, n) {
      failed := n;
    } else if n + 1 < cap {
      failed := FirstSuccess(inputs, retries, cap, n + 1);
    } else {
      failed := n + 1;
    }
  }

  lemma StatementsNext(texts: nat -> string, looked: seq<Effect>, n: nat)
    ensures looked + Statements(texts, n + 1) == looked + Statements(texts, n) + [RunSql(texts(n + 2))]
    ensures Tried(texts, n + 1) == Tried(texts, n) + [texts(n + 2)]
  {}

  lemma LastFailure(cfg: Config, question: string, inputs: nat -> Input, run: Run, looked: seq<Effect>, n: nat)
    requires IsUnhinderedRun(cfg, question, inputs, run)
    requires Retries(Texts(inputs), run.trace, looked, n) && Fails(inputs, n) && n + 1 == FailureCap(cfg)
    ensures Ends(run, looked + Statements(Texts(inputs), n + 1), FromGraph(SqlFailed(n + 1)))
    ensures KeepsLast(inputs, n + 1, run.last)
  {
    var texts := Texts(inputs);
    var did := looked + Statements(texts, n);
    SqlAt(cfg, question, inputs, run, n + 2, did);
    assert Ends(run, did + [RunSql(texts(n + 2))], FromGraph(SqlFailed(n + 1)));
    StatementsNext(texts, looked, n);
  }

  lemma SuccessIsSummarized(cfg: Config, question: string, inputs: nat -> Input, run: Run, looked: seq<Effect>, n: nat)
    requires IsUnhinderedRun(cfg, question, inputs, run)
    requires Retries(Texts(inputs), run.trace, looked, n) && !Fails(inputs, n)
    ensures Ends(run, looked + Statements(Texts(inputs), n + 1), Summarized(inputs(3 + n).summary))
    ensures KeepsLast(inputs, n + 1, run.last)
  {
    SqlAt(cfg, question, inputs, run, n + 2, looked + Statements(Texts(inputs), n));
    StatementsNext(Texts(inputs), looked, n);
    SummaryAt(cfg, question, inputs, run, n + 3, looked + Statements(Texts(inputs), n + 1));
  }

  lemma ReadFromTables(cfg: Config, question: string, inputs: nat -> Input, run: Run, looked: seq<Effect>)
    returns (failed: nat)
    requires IsUnhinderedRun(cfg, question, inputs, run) && Retries(Texts(inputs), run.trace, looked, 0)
    ensures TriesEnd(cfg, inputs, failed, looked, run)
  {
    var retries := (n: nat) => Retries(Texts(inputs), run.trace, looked, n);
    forall k: nat | k + 1 < FailureCap(cfg) && retries(k) && Fails(inputs, k) ensures retries(k + 1) {
      RetriesNext(cfg, question, inputs, run, looked, k);
    }
    failed := FirstSuccess(inputs, retries, FailureCap(cfg), 0);
    if failed == FailureCap(cfg) {
      assert Fails(inputs, failed - 1);
      LastFailure(cfg, question, inputs, run, looked, failed - 1);
    } else {
      SuccessIsSummarized(cfg, question, inputs, run, looked, failed);
    }
  }

  /** Every unhindered run of a read question ends like that. */
  lemma ReadRun(cfg: Config, question: string, inputs: nat -> Input) returns (failed: nat)
    requires AllUnhindered(cfg, RunWorkflow(cfg, question, inputs).trace)
    requires !inputs(0).asksForWrite && !inputs(0).asksForHotProducts
    ensures ReadEnds(cfg, inputs, failed, RunWorkflow(cfg, question, inputs))
  {
    RunIsUnhindered(cfg, question, inputs);
    failed := ReadRunOf(cfg, question, inputs, SchemaTables(cfg, inputs(1)), RunWorkflow(cfg, question, inputs));
  }

  lemma ReadRunOf(cfg: Config, question: string, inputs: nat -> Input, tables: seq<Table>, run: Run)
    returns (failed: nat)
    requires IsUnhinderedRun(cfg, question, inputs, run) && tables == SchemaTables(cfg, inputs(1))
    requires !inputs(0).asksForWrite && !inputs(0).asksForHotProducts
    ensures ReadEnds(cfg, inputs, failed, run)
  {
    RouteFirst(cfg, question, inputs, run);
    SchemaAt(cfg, question, inputs, run, 1, tables);
    DidNext(run.trace, 0);
    DidNext(run.trace, 1);
    failed := 0;
    if forall t :: t in tables ==> t in inputs(1).brokenTables {
      AnswerIsKeptAt(cfg, question, inputs, run, 2);
      EndsThere(cfg, question, inputs, run, 2, LookUps(tables));
    } else {
      assert Statements(Texts(inputs), 0) == [] && Tried(Texts(inputs), 0) == [];
      failed := ReadFromTables(cfg, question, inputs, run, LookUps(tables));
    }
  }
}
