/** What the runs of the database graph change in production. */
module DatabaseWrites {
  import opened Basics
  import opened SqlGate
  import opened SqlMeaning
  import opened DatabaseWorkflow
  import opened DatabaseWorkflowRuns

  // The sandbox node's write goes to DB_SANDBOX_DATABASE, every other statement to MYSQL_DATABASE,
  // all with the same credentials; nothing in the source compares the two names or looks for a
  // database's name in a text.

  // ---------------------------------------------------------------- approved writes

  /** The text was extracted from a model text by the sandbox node and passed validation. */
  ghost predicate ValidatedIn(cfg: Config, past: seq<Step>, sql: string) {
    exists i :: 0 <= i < |past| && past[i].node == SandboxNode
      && sql == Extract(past[i].input.body) && Validate(sql, cfg.wide).Accepted?
  }

  /** The very text was shown by the approval node, inside a task, and answered `continue`. */
  ghost predicate ApprovedIn(past: seq<Step>, sql: string) {
    exists i :: 0 <= i < |past| && past[i].node == ApprovalNode && past[i].outcome.effects == [ShowForApproval(sql)]
      && past[i].input.inTask && past[i].input.decision == "continue"
  }

  /** What the past has to have brought for an unanswered state to stand at a node. */
  ghost predicate Ready(cfg: Config, past: seq<Step>, node: Node, st: State) {
    && (!Answered(st.answer) && (node == ApprovalNode || node == MergeNode) ==> ValidatedIn(cfg, past, st.writeSql))
    && (!Answered(st.answer) && node == MergeNode ==> ApprovedIn(past, st.writeSql))
  }

  /** One statement with an allowed first word, with WHERE for UPDATE and DELETE, no DROP or
      TRUNCATE. */
  ghost predicate IsCheckedWrite(text: string, wide: char -> bool) {
    && IsStatement(text) && OpensWithOneOf(text, {"insert", "update", "delete", "create", "alter"})
    && !IsUnrestricted(text, wide) && !Stands(text, "drop", wide) && !Stands(text, "truncate", wide)
  }

  /** A write as the design promises it: by the merge node, with the switch on, in the production
      database, exactly the text that was validated, shown and answered `continue`. */
  ghost predicate ApprovedWrite(cfg: Config, past: seq<Step>, step: Step, e: Effect) {
    && step.node == MergeNode && step.input.production && e == ExecuteIn(cfg.database, step.before.writeSql)
    && ValidatedIn(cfg, past, step.before.writeSql) && ApprovedIn(past, step.before.writeSql)
    && IsCheckedWrite(step.before.writeSql, cfg.wide)
  }

  // ---------------------------------------------------------------- changes of production

  /** A text of the model's as MySQL runs it, and the database of the connection. */
  datatype RanText = RanText(database: string, text: string)

  /** The write executor commits what it is given. The read executor runs the gated form, on a
      connection that commits by itself, unless the fuse comes first. All other effects run
      fixed statements that read. */
  function Ran(cfg: Config, inp: Input, e: Effect): Option<RanText> {
    match e
    case ExecuteIn(database, text) => Some(RanText(database, text))
    case RunSql(query) => RanAsRead(cfg, inp, ReadGate(query, inp.scoped, cfg.wide, cfg.lower))
    case _ => None
  }

  function RanAsRead(cfg: Config, inp: Input, gate: Gate): Option<RanText> {
    if inp.fused || gate.Refused? then None else Some(RanText(cfg.database, gate.text))
  }

  predicate StatementChanges(cfg: Config, s: Option<RanText>) {
    s.Some? && cfg.database in cfg.changes(s.value.database, s.value.text)
  }

  predicate ChangesProduction(cfg: Config, inp: Input, e: Effect) {
    StatementChanges(cfg, Ran(cfg, inp, e))
  }

  /** Every change that the step makes to production is an approved one. */
  ghost predicate ChangesApproved(cfg: Config, past: seq<Step>, step: Step) {
    forall e :: e in step.outcome.effects && ChangesProduction(cfg, step.input, e) ==> ApprovedWrite(cfg, past, step, e)
  }

  /** On a connection to this sandbox the text, if validation accepts it, changes production. */
  predicate CandidateChanges(cfg: Config, sandbox: Option<string>, sql: string, validation: Validation) {
    && validation.Accepted? && sandbox.Some? && sandbox.value != ""
    && cfg.database in cfg.changes(sandbox.value, sql)
  }

  /** The sandbox node comes to its body with a valid candidate that changes production. */
  predicate SandboxChanges(cfg: Config, step: Step) {
    && step.node == SandboxNode && !Answered(EnteredState(cfg, SandboxNode, step.before, step.input).answer)
    && var sql := Extract(step.input.body);
       CandidateChanges(cfg, step.input.sandboxDatabase, sql, Validate(sql, cfg.wide))
  }

  /** The SQL node comes to its body, and the gated form of its statement changes production. */
  predicate ReadChanges(cfg: Config, step: Step) {
    && step.node == SqlNode && !Answered(EnteredState(cfg, SqlNode, step.before, step.input).answer)
    && ChangesProduction(cfg, step.input, RunSql(Extract(step.input.body)))
  }

  // ---------------------------------------------------------------- one step

  lemma AcceptedMeans(body: string, dangerousDdl: bool, wide: char -> bool)
    requires Validate(Extract(body), wide).Accepted?
    ensures var sql := Extract(body);
      IsCheckedWrite(sql, wide) && ExecutorGate(sql, dangerousDdl, wide) == Execute(sql)
  {
    AcceptedIsExecutedVerbatim(body, dangerousDdl, wide);
    ValidationIs(Extract(body), wide);
  }

  /** Behind its guards and with the switch on merge runs the shown, approved and validated text, once
      and in production; else it runs nothing. */
  lemma MergeWrites(cfg: Config, past: seq<Step>, st: State, inp: Input)
    requires Ready(cfg, past, MergeNode, st)
    ensures var step := Step(MergeNode, st, inp, Visit(cfg, MergeNode, st, inp));
      && (forall e :: e in step.outcome.effects ==> ApprovedWrite(cfg, past, step, e))
      && step.outcome.effects
         == if Answered(EnteredState(cfg, MergeNode, st, inp).answer) || !inp.production then []
            else [ExecuteIn(cfg.database, st.writeSql)]
  {
    EnterKeeps(cfg, st, MergeNode, GuardArgs(cfg, MergeNode, st, inp), inp);
    if !Answered(EnteredState(cfg, MergeNode, st, inp).answer) && inp.production {
      var i :| 0 <= i < |past| && past[i].node == SandboxNode
        && st.writeSql == Extract(past[i].input.body) && Validate(st.writeSql, cfg.wide).Accepted?;
      AcceptedMeans(past[i].input.body, inp.dangerousDdl, cfg.wide);
      assert Visit(cfg, MergeNode, st, inp).effects == [ExecuteIn(cfg.database, st.writeSql)];
    }
  }

  /** A validated candidate is committed in DB_SANDBOX_DATABASE if that is set and not empty, and
      nothing otherwise. */
  predicate WritesCandidate(effects: seq<Effect>, sandbox: Option<string>, sql: string, validation: Validation) {
    if validation.Accepted? && sandbox.Some? && sandbox.value != "" then effects == [ExecuteIn(sandbox.value, sql)]
    else effects == []
  }

  lemma SandboxedWrites(st: State, sandbox: Option<string>, sql: string, validation: Validation, gate: Gate)
    requires validation.Accepted? ==> gate == Execute(sql)
    ensures WritesCandidate(Sandboxed(st, sandbox, sql, validation, gate).effects, sandbox, sql, validation)
  {}

  lemma SandboxBodyWrites(cfg: Config, st: State, inp: Input)
    ensures var sql := Extract(inp.body);
      WritesCandidate(SandboxStep(cfg, st, inp).effects, inp.sandboxDatabase, sql, Validate(sql, cfg.wide))
  {
    var sql := Extract(inp.body);
    if Validate(sql, cfg.wide).Accepted? { AcceptedMeans(inp.body, inp.dangerousDdl, cfg.wide); }
    SandboxedWrites(st, inp.sandboxDatabase, sql, Validate(sql, cfg.wide),
      ExecutorGate(sql, inp.dangerousDdl, cfg.wide));
  }

  /** The sandbox node writes its candidate in DB_SANDBOX_DATABASE, whatever database that is,
      before anyone is asked. */
  lemma SandboxWrites(cfg: Config, st: State, inp: Input)
    ensures var effects := Visit(cfg, SandboxNode, st, inp).effects; var sql := Extract(inp.body);
      if Answered(EnteredState(cfg, SandboxNode, st, inp).answer) then effects == []
      else WritesCandidate(effects, inp.sandboxDatabase, sql, Validate(sql, cfg.wide))
  {
    var e := EnteredState(cfg, SandboxNode, st, inp);
    VisitEffects(cfg, SandboxNode, st, inp);
    assert Body(cfg, SandboxNode, e, inp) == SandboxStep(cfg, e, inp);
    SandboxBodyWrites(cfg, e, inp);
  }

  lemma CandidateChangesExactly(cfg: Config, past: seq<Step>, step: Step, sql: string, validation: Validation)
    requires step.node == SandboxNode
    requires WritesCandidate(step.outcome.effects, step.input.sandboxDatabase, sql, validation)
    ensures ChangesApproved(cfg, past, step) <==> !CandidateChanges(cfg, step.input.sandboxDatabase, sql, validation)
  {
    if CandidateChanges(cfg, step.input.sandboxDatabase, sql, validation) {
      var e := ExecuteIn(step.input.sandboxDatabase.value, sql);
      assert e in step.outcome.effects && ChangesProduction(cfg, step.input, e);
    }
  }

  /** The SQL node sends the read executor its statement and does nothing else. */
  lemma SqlReads(cfg: Config, st: State, inp: Input)
    ensures Visit(cfg, SqlNode, st, inp).effects
            == if Answered(EnteredState(cfg, SqlNode, st, inp).answer) then [] else [RunSql(Extract(inp.body))]
  {
    VisitEffects(cfg, SqlNode, st, inp);
  }

  /** Only the sandbox, merge and SQL nodes have texts of the model's run. */
  lemma OthersRunNothing(cfg: Config, node: Node, st: State, inp: Input, e: Effect)
    requires node != MergeNode && node != SandboxNode && node != SqlNode && e in Visit(cfg, node, st, inp).effects
    ensures !e.ExecuteIn? && !e.RunSql?
  {
    VisitEffects(cfg, node, st, inp);
  }

  lemma ReadChangesExactly(cfg: Config, past: seq<Step>, step: Step, query: string)
    requires step.node == SqlNode && step.outcome.effects == [RunSql(query)]
    ensures ChangesApproved(cfg, past, step) <==> !ChangesProduction(cfg, step.input, RunSql(query))
  {
    assert RunSql(query) in step.outcome.effects;
  }

  /** A step's changes of production are approved exactly unless it is a sandbox step whose
      candidate changes production from its sandbox or an SQL step whose gated text does. */
  lemma StepChangesExactly(cfg: Config, past: seq<Step>, node: Node, st: State, inp: Input)
    requires Ready(cfg, past, node, st)
    ensures var step := Step(node, st, inp, Visit(cfg, node, st, inp));
      ChangesApproved(cfg, past, step) <==> !SandboxChanges(cfg, step) && !ReadChanges(cfg, step)
  {
    var step := Step(node, st, inp, Visit(cfg, node, st, inp));
    var sql := Extract(inp.body);
    if node == MergeNode {
      MergeWrites(cfg, past, st, inp);
    } else if node == SandboxNode {
      SandboxWrites(cfg, st, inp);
      if step.outcome.effects != [] || !Answered(EnteredState(cfg, SandboxNode, st, inp).answer) {
        CandidateChangesExactly(cfg, past, step, sql, Validate(sql, cfg.wide));
      }
    } else if node == SqlNode {
      SqlReads(cfg, st, inp);
      if step.outcome.effects != [] { ReadChangesExactly(cfg, past, step, sql); }
    } else {
      forall e | e in step.outcome.effects ensures !ChangesProduction(cfg, inp, e) {
        OthersRunNothing(cfg, node, st, inp, e);
      }
    }
  }

  lemma ValidatedStays(cfg: Config, past: seq<Step>, step: Step, sql: string)
    requires ValidatedIn(cfg, past, sql)
    ensures ValidatedIn(cfg, past + [step], sql)
  {
    var i :| 0 <= i < |past| && past[i].node == SandboxNode
      && sql == Extract(past[i].input.body) && Validate(sql, cfg.wide).Accepted?;
    assert (past + [step])[i] == past[i];
  }

  /** A visit that leads on leaves what the next node has to find. */
  ghost predicate StaysReady(cfg: Config, past: seq<Step>, node: Node, st: State, inp: Input) {
    var outcome := Visit(cfg, node, st, inp);
    var next := Successor(node, outcome.state);
    next.Some? ==> Ready(cfg, past + [Step(node, st, inp, outcome)], next.value, outcome.state)
  }

  lemma ReadyAfterSandbox(cfg: Config, past: seq<Step>, st: State, inp: Input)
    ensures StaysReady(cfg, past, SandboxNode, st, inp)
  {
    EnterKeeps(cfg, st, SandboxNode, GuardArgs(cfg, SandboxNode, st, inp), inp);
    var outcome := Visit(cfg, SandboxNode, st, inp);
    var now := past + [Step(SandboxNode, st, inp, outcome)];
    assert now[|past|].node == SandboxNode;
    if !Answered(outcome.state.answer) { assert ValidatedIn(cfg, now, outcome.state.writeSql); }
  }

  lemma ApprovedNow(past: seq<Step>, step: Step, sql: string)
    requires step.node == ApprovalNode && step.outcome.effects == [ShowForApproval(sql)]
    requires step.input.inTask && step.input.decision == "continue"
    ensures ApprovedIn(past + [step], sql)
  {
    assert (past + [step])[|past|] == step;
  }

  lemma ReadyAfterApproval(cfg: Config, past: seq<Step>, st: State, inp: Input)
    requires Ready(cfg, past, ApprovalNode, st)
    ensures StaysReady(cfg, past, ApprovalNode, st, inp)
  {
    var outcome := Visit(cfg, ApprovalNode, st, inp);
    var step := Step(ApprovalNode, st, inp, outcome);
    if !Answered(outcome.state.answer) {
      ValidatedStays(cfg, past, step, st.writeSql);
      ApprovedNow(past, step, st.writeSql);
    }
  }

  lemma ReadyStep(cfg: Config, past: seq<Step>, node: Node, st: State, inp: Input)
    requires Ready(cfg, past, node, st)
    ensures StaysReady(cfg, past, node, st, inp)
  {
    if node == SandboxNode {
      ReadyAfterSandbox(cfg, past, st, inp);
    } else if node == ApprovalNode {
      ReadyAfterApproval(cfg, past, st, inp);
    }
  }

  // ---------------------------------------------------------------- whole runs

  ghost function ReadyFor(cfg: Config): (seq<Step>, Node, State) -> bool {
    (past: seq<Step>, n: Node, s: State) => Ready(cfg, past, n, s)
  }

  ghost predicate ChangesExactly(cfg: Config, past: seq<Step>, step: Step) {
    ChangesApproved(cfg, past, step) <==> !SandboxChanges(cfg, step) && !ReadChanges(cfg, step)
  }

  ghost function ExactFor(cfg: Config): (seq<Step>, Step) -> bool {
    (past: seq<Step>, step: Step) => ChangesExactly(cfg, past, step)
  }

  lemma StepsChangeExactly(cfg: Config, question: string, inputs: nat -> Input, k: nat)
    requires k < |RunWorkflow(cfg, question, inputs).trace|
    ensures var trace := RunWorkflow(cfg, question, inputs).trace; ChangesExactly(cfg, trace[..k], trace[k])
  {
    forall p, n, s, x ensures Preserves(Nodes(cfg), ReadyFor(cfg), ExactFor(cfg), p, n, s, x) {
      if Ready(cfg, p, n, s) {
        StepChangesExactly(cfg, p, n, s, x);
        ReadyStep(cfg, p, n, s, x);
      }
    }
    EveryStepIsGood(Nodes(cfg), ReadyFor(cfg), ExactFor(cfg), [], RouteNode, InitialState(question), inputs, 0,
      RecursionLimit(cfg));
    var trace := RunWorkflow(cfg, question, inputs).trace;
    assert AllGood(ExactFor(cfg), [], trace) && GoodAt(ExactFor(cfg), [], trace, k);
    assert [] + trace[..k] == trace[..k];
  }

  /** Every change that the run makes to production is an approved one. */
  ghost predicate RunChangesApproved(cfg: Config, trace: seq<Step>) {
    forall k :: 0 <= k < |trace| ==> ChangesApproved(cfg, trace[..k], trace[k])
  }

  /** No step of the run changes production from its sandbox or as a read. */
  predicate NoStrayChange(cfg: Config, trace: seq<Step>) {
    forall k :: 0 <= k < |trace| ==> !SandboxChanges(cfg, trace[k]) && !ReadChanges(cfg, trace[k])
  }

  /** For every run, whatever MySQL makes of its texts: production changes only by the approved
      writes of the merge node if and only if no sandbox step commits an accepted candidate that
      changes production and no SQL step's gated text changes it. */
  lemma ProductionChangesApprovedExactlyWhen(cfg: Config, question: string, inputs: nat -> Input)
    ensures var trace := RunWorkflow(cfg, question, inputs).trace;
      RunChangesApproved(cfg, trace) <==> NoStrayChange(cfg, trace)
  {
    var trace := RunWorkflow(cfg, question, inputs).trace;
    forall k | 0 <= k < |trace| ensures ChangesExactly(cfg, trace[..k], trace[k]) {
      StepsChangeExactly(cfg, question, inputs, k);
    }
  }

  // ---------------------------------------------------------------- steps and visits

  /** Each step of a run is a visit of its node with its input. */
  predicate IsVisit(visit: Visitor, inputs: nat -> Input, i: nat, step: Step) {
    step.outcome == visit(step.node, step.before, step.input) && step.input == inputs(i)
  }

  ghost predicate AreVisits(visit: Visitor, inputs: nat -> Input, i: nat, trace: seq<Step>) {
    forall k :: 0 <= k < |trace| ==> IsVisit(visit, inputs, i + k, trace[k])
  }

  lemma VisitThenVisits(visit: Visitor, inputs: nat -> Input, i: nat, step: Step, rest: seq<Step>)
    requires IsVisit(visit, inputs, i, step) && AreVisits(visit, inputs, i + 1, rest)
    ensures AreVisits(visit, inputs, i, [step] + rest)
  {
    var trace := [step] + rest;
    forall k | 0 <= k < |trace| ensures IsVisit(visit, inputs, i + k, trace[k]) {
      assert k > 0 ==> IsVisit(visit, inputs, i + 1 + (k - 1), rest[k - 1]);
    }
  }

  lemma {:induction false} TraceIsVisits(
      visit: Visitor, node: Node, st: State, inputs: nat -> Input, i: nat, limit: nat)
    ensures AreVisits(visit, inputs, i, RunFrom(visit, node, st, inputs, i, limit).trace)
    decreases limit
  {
    if limit > 0 {
      var step := StepOf(visit, node, st, inputs(i));
      if After(step).None? {
        RunStops(visit, node, st, inputs, i, limit);
      } else {
        RunContinues(visit, node, st, inputs, i, limit);
        TraceIsVisits(visit, After(step).value, step.outcome.state, inputs, i + 1, limit - 1);
        var rest := RunFrom(visit, After(step).value, step.outcome.state, inputs, i + 1, limit - 1).trace;
        VisitThenVisits(visit, inputs, i, step, rest);
      }
    }
  }

  lemma StepIsVisit(cfg: Config, question: string, inputs: nat -> Input, k: nat)
    requires k < |RunWorkflow(cfg, question, inputs).trace|
    ensures IsVisit(Nodes(cfg), inputs, k, RunWorkflow(cfg, question, inputs).trace[k])
  {
    TraceIsVisits(Nodes(cfg), RouteNode, InitialState(question), inputs, 0, RecursionLimit(cfg));
    assert AreVisits(Nodes(cfg), inputs, 0, RunWorkflow(cfg, question, inputs).trace);
    assert IsVisit(Nodes(cfg), inputs, 0 + k, RunWorkflow(cfg, question, inputs).trace[k]);
  }

  // ---------------------------------------------------------------- statements that are read

  lemma OnlySqlReads(cfg: Config, node: Node, st: State, inp: Input, query: string)
    requires RunSql(query) in Visit(cfg, node, st, inp).effects
    ensures node == SqlNode && query == Extract(inp.body)
  {
    VisitEffects(cfg, node, st, inp);
  }

  /** In every run, what the read executor runs is the model's first statement, by the SQL node,
      gated: it starts with a read word, has no head that the write executor knows, and names
      tenant and shop when it mentions a scoped table. Nothing else of it is looked at. */
  lemma ProductionReadsAreGated(cfg: Config, question: string, inputs: nat -> Input, k: nat, query: string,
      text: string)
    requires k < |RunWorkflow(cfg, question, inputs).trace|
    requires RunSql(query) in RunWorkflow(cfg, question, inputs).trace[k].outcome.effects
    requires Ran(cfg, inputs(k), RunSql(query)) == Some(RanText(cfg.database, text))
    ensures RunWorkflow(cfg, question, inputs).trace[k].node == SqlNode && query == Extract(inputs(k).body)
    ensures StartsWithReadWord(text, cfg.wide) && HeadOf(text) !in EXECUTABLE_HEADS
    ensures Isolated(cfg.lower(text), inputs(k).scoped, cfg.wide)
  {
    StepIsVisit(cfg, question, inputs, k);
    var step := RunWorkflow(cfg, question, inputs).trace[k];
    OnlySqlReads(cfg, step.node, step.before, step.input, query);
    ReadTextsAreReads(query, inputs(k).scoped, cfg.wide, cfg.lower);
    var word :| word in READ_HEADS && StartsWithWord(text, word, cfg.wide);
    ReadWordIsNoWriteHead(text, word, cfg.wide);
  }
}
