/** Whole runs of the database graph end within both caps. */
module DatabaseWorkflowRuns {
  import opened Basics
  import opened SqlGate
  import opened DatabaseWorkflow
  import Ordering

  // ---------------------------------------------------------------- runs in general

  /** One step keeps `ok` and lowers the measure. */
  predicate Lowers(visit: Visitor, ok: (Node, State) -> bool, m: (Node, State) -> nat, node: Node, st: State,
      inp: Input) {
    var step := StepOf(visit, node, st, inp);
    m(node, st) >= 1 &&
    (ok(node, st) && After(step).Some? ==>
      ok(After(step).value, step.outcome.state) && m(After(step).value, step.outcome.state) < m(node, st))
  }

  lemma {:induction false} BoundedByMeasure(
      visit: Visitor, ok: (Node, State) -> bool, m: (Node, State) -> nat,
      node: Node, st: State, inputs: nat -> Input, i: nat, limit: nat)
    requires ok(node, st) && forall n, s, x :: Lowers(visit, ok, m, n, s, x)
    ensures var run := RunFrom(visit, node, st, inputs, i, limit);
      |run.trace| <= m(node, st) && (limit >= m(node, st) ==> run.finished)
    decreases limit
  {
    assert Lowers(visit, ok, m, node, st, inputs(i));
    if limit > 0 {
      var step := StepOf(visit, node, st, inputs(i));
      if After(step).Some? {
        BoundedByMeasure(visit, ok, m, After(step).value, step.outcome.state, inputs, i + 1, limit - 1);
      }
    }
  }

  /** One step from a ready state is good, and what follows it is ready again. */
  ghost predicate Preserves(
      visit: Visitor, ready: (seq<Step>, Node, State) -> bool, good: (seq<Step>, Step) -> bool,
      past: seq<Step>, node: Node, st: State, inp: Input)
  {
    var step := StepOf(visit, node, st, inp);
    ready(past, node, st) ==>
      good(past, step) && (After(step).Some? ==> ready(past + [step], After(step).value, step.outcome.state))
  }

  ghost predicate GoodAt(good: (seq<Step>, Step) -> bool, past: seq<Step>, trace: seq<Step>, k: int)
    requires 0 <= k < |trace|
  {
    good(past + trace[..k], trace[k])
  }

  ghost predicate AllGood(good: (seq<Step>, Step) -> bool, past: seq<Step>, trace: seq<Step>) {
    forall k :: 0 <= k < |trace| ==> GoodAt(good, past, trace, k)
  }

  lemma {:induction false} EveryStepIsGood(
      visit: Visitor, ready: (seq<Step>, Node, State) -> bool, good: (seq<Step>, Step) -> bool,
      past: seq<Step>, node: Node, st: State, inputs: nat -> Input, i: nat, limit: nat)
    requires ready(past, node, st) && forall p, n, s, x :: Preserves(visit, ready, good, p, n, s, x)
    ensures AllGood(good, past, RunFrom(visit, node, st, inputs, i, limit).trace)
    decreases limit
  {
    assert Preserves(visit, ready, good, past, node, st, inputs(i));
    if limit > 0 {
      var step := StepOf(visit, node, st, inputs(i));
      var trace := RunFrom(visit, node, st, inputs, i, limit).trace;
      assert trace[0] == step && past + trace[..0] == past;
      if After(step).Some? {
        EveryStepIsGood(visit, ready, good, past + [step], After(step).value, step.outcome.state,
          inputs, i + 1, limit - 1);
        var rest := RunFrom(visit, After(step).value, step.outcome.state, inputs, i + 1, limit - 1).trace;
        assert trace == [step] + rest;
        assert AllGood(good, past + [step], rest);
        forall k | 0 < k < |trace| ensures GoodAt(good, past, trace, k) {
          assert GoodAt(good, past + [step], rest, k - 1);
          assert trace[..k] == [step] + rest[..k - 1];
          assert past + trace[..k] == past + [step] + rest[..k - 1];
        }
      }
    }
  }

  lemma RunStops(visit: Visitor, node: Node, st: State, inputs: nat -> Input, i: nat, limit: nat)
    requires limit > 0 && After(StepOf(visit, node, st, inputs(i))).None?
    ensures RunFrom(visit, node, st, inputs, i, limit).trace == [StepOf(visit, node, st, inputs(i))]
  {}

  lemma RunContinues(visit: Visitor, node: Node, st: State, inputs: nat -> Input, i: nat, limit: nat)
    requires limit > 0 && After(StepOf(visit, node, st, inputs(i))).Some?
    ensures var step := StepOf(visit, node, st, inputs(i));
      var run, rest := RunFrom(visit, node, st, inputs, i, limit),
                       RunFrom(visit, After(step).value, step.outcome.state, inputs, i + 1, limit - 1);
      run.finished == rest.finished && run.last == rest.last && run.trace == [step] + rest.trace
  {}

  /** A finished run ends at a node without a successor. */
  lemma {:induction false} FinishedAtTheEnd(visit: Visitor, node: Node, st: State, inputs: nat -> Input, i: nat,
      limit: nat)
    requires RunFrom(visit, node, st, inputs, i, limit).finished
    ensures var run := RunFrom(visit, node, st, inputs, i, limit);
      && run.trace != [] && After(run.trace[|run.trace| - 1]).None?
      && run.last == run.trace[|run.trace| - 1].outcome.state
    decreases limit
  {
    var step := StepOf(visit, node, st, inputs(i));
    if After(step).Some? {
      FinishedAtTheEnd(visit, After(step).value, step.outcome.state, inputs, i + 1, limit - 1);
    }
  }

  // ---------------------------------------------------------------- termination

  /** The SQL executions left before the failure cap answers. */
  function SqlLeft(cfg: Config, st: State): nat {
    if cfg.maxSqlFailures - st.sqlFailCount > 1 then cfg.maxSqlFailures - st.sqlFailCount else 1
  }

  predicate HasFixedEdge(node: Node) {
    node == SpecializedNode || node == SandboxNode || node == SchemaNode
  }

  /** Node executions left, by the shape of the graph. */
  function ByShape(cfg: Config, node: Node, st: State): nat {
    if Answered(st.answer) then (if HasFixedEdge(node) then 2 else 1)
    else
      match node
      case RouteNode => 3 + SqlLeft(cfg, st)
      case SandboxNode => 3
      case SpecializedNode => 2
      case SchemaNode => 2 + SqlLeft(cfg, st)
      case SqlNode => 1 + SqlLeft(cfg, st)
      case ApprovalNode => 2
      case MergeNode => 1
      case SummarizeNode => 1
  }

  /** Node executions left, by the round cap. */
  function ByRounds(cfg: Config, node: Node, st: State): nat {
    if Answered(st.answer) then (if HasFixedEdge(node) then 2 else 1)
    else if cfg.maxRounds + 2 - st.rounds > 1 then cfg.maxRounds + 2 - st.rounds
    else 1
  }

  /** Past the first node an unanswered state is still within the rounds. */
  predicate WithinRounds(cfg: Config, node: Node, st: State) {
    node != RouteNode && !Answered(st.answer) ==> st.rounds <= cfg.maxRounds
  }

  /** The loop guard changes its own record and, when it stops the node, route and answer. */
  lemma GuardKeeps(cfg: Config, st: State, node: Node, args: Args, inp: Input)
    ensures var g := Guard(cfg, st, node, args, inp);
      g == st.(loop := g.loop) || (Answered(g.answer) && g == st.(loop := g.loop, route := g.route, answer := g.answer))
  {
    var v := Judge(cfg, st, node, Fingerprint(node, args), inp);
    match v
    case GoOn =>
    case Repeats =>
    case Supervised(stop) =>
  }

  /** Behind its guards a node does what its body does, and nothing otherwise. */
  lemma VisitEffects(cfg: Config, node: Node, st: State, inp: Input)
    ensures var e := EnteredState(cfg, node, st, inp);
      Visit(cfg, node, st, inp).effects == if Answered(e.answer) then [] else Body(cfg, node, e, inp).effects
  {}

  /** What the opening of a node leaves as it was. */
  lemma EnterKeeps(cfg: Config, st: State, node: Node, args: Args, inp: Input)
    ensures var e := Enter(cfg, st, node, args, inp);
      && e == st.(rounds := st.rounds + 1, loop := e.loop, route := e.route, answer := e.answer)
      && (Answered(st.answer) ==> Answered(e.answer))
      && (!Answered(e.answer) ==> e.rounds <= cfg.maxRounds && e.answer == st.answer && e.route == st.route)
  {
    GuardKeeps(cfg, Bump(cfg, st), node, args, inp);
  }

  lemma VisitRounds(cfg: Config, node: Node, st: State, inp: Input)
    ensures Visit(cfg, node, st, inp).state.rounds == st.rounds + 1
    ensures Answered(st.answer) ==> Answered(Visit(cfg, node, st, inp).state.answer)
    ensures !Answered(Visit(cfg, node, st, inp).state.answer)
      ==> st.rounds + 1 <= cfg.maxRounds || node == SummarizeNode
  {
    EnterKeeps(cfg, st, node, GuardArgs(cfg, node, st, inp), inp);
  }

  lemma StepLowersRounds(cfg: Config, node: Node, st: State, inp: Input)
    requires WithinRounds(cfg, node, st)
    ensures var to := Visit(cfg, node, st, inp).state; var next := Successor(node, to);
      next.Some? ==> WithinRounds(cfg, next.value, to) && ByRounds(cfg, next.value, to) < ByRounds(cfg, node, st)
  {
    VisitRounds(cfg, node, st, inp);
  }

  lemma StepLowersShape(cfg: Config, node: Node, st: State, inp: Input)
    ensures var to := Visit(cfg, node, st, inp).state; var next := Successor(node, to);
      next.Some? ==> ByShape(cfg, next.value, to) < ByShape(cfg, node, st)
  {
    EnterKeeps(cfg, st, node, GuardArgs(cfg, node, st, inp), inp);
  }

  /** Each step leaves at least one execution fewer, on both counts. */
  lemma StepLowersBounds(cfg: Config, node: Node, st: State, inp: Input)
    requires WithinRounds(cfg, node, st)
    ensures var to := Visit(cfg, node, st, inp).state; var next := Successor(node, to);
      next.Some? ==>
        && WithinRounds(cfg, next.value, to)
        && ByShape(cfg, next.value, to) < ByShape(cfg, node, st)
        && ByRounds(cfg, next.value, to) < ByRounds(cfg, node, st)
  {
    StepLowersRounds(cfg, node, st, inp);
    StepLowersShape(cfg, node, st, inp);
  }

  /** The state in which the body of a node is executed, if rounds and loop guard let it. */
  function EnteredState(cfg: Config, node: Node, st: State, inp: Input): State {
    Enter(cfg, st, node, GuardArgs(cfg, node, st, inp), inp)
  }

  /** The summary node comes to its body, has no specialised result to format, and the model
      answers with the empty text. */
  predicate ModelLeavesSummaryEmpty(cfg: Config, node: Node, st: State, inp: Input) {
    node == SummarizeNode && !Answered(EnteredState(cfg, node, st, inp).answer) && !st.hotProducts
      && inp.summary == Some("")
  }

  /** A run stops without an answer exactly at an empty summary. */
  predicate StopsProperly(cfg: Config, step: Step) {
    !Answered(step.outcome.state.answer) <==> ModelLeavesSummaryEmpty(cfg, step.node, step.before, step.input)
  }

  lemma StopIsProper(cfg: Config, node: Node, st: State, inp: Input)
    requires Successor(node, Visit(cfg, node, st, inp).state).None?
    requires st.answer == NoAnswer || Answered(st.answer)
    ensures StopsProperly(cfg, Step(node, st, inp, Visit(cfg, node, st, inp)))
  {
    EnterKeeps(cfg, st, node, GuardArgs(cfg, node, st, inp), inp);
  }

  lemma PassesOn(cfg: Config, node: Node, st: State, inp: Input)
    requires Successor(node, Visit(cfg, node, st, inp).state).Some?
    requires st.answer == NoAnswer || Answered(st.answer)
    ensures var to := Visit(cfg, node, st, inp).state; to.answer == NoAnswer || Answered(to.answer)
  {
    EnterKeeps(cfg, st, node, GuardArgs(cfg, node, st, inp), inp);
  }

  lemma FinishedIsProper(cfg: Config, question: string, inputs: nat -> Input)
    requires RunWorkflow(cfg, question, inputs).finished
    ensures var run := RunWorkflow(cfg, question, inputs);
      && run.trace != [] && run.last == run.trace[|run.trace| - 1].outcome.state
      && StopsProperly(cfg, run.trace[|run.trace| - 1])
  {
    var visit, st, limit := Nodes(cfg), InitialState(question), RecursionLimit(cfg);
    var ready := (past: seq<Step>, n: Node, s: State) => s.answer == NoAnswer || Answered(s.answer);
    var good := (past: seq<Step>, step: Step) => After(step).None? ==> StopsProperly(cfg, step);
    forall p, n, s, x ensures Preserves(visit, ready, good, p, n, s, x) {
      if ready(p, n, s) {
        if Successor(n, Visit(cfg, n, s, x).state).None? {
          StopIsProper(cfg, n, s, x);
        } else {
          PassesOn(cfg, n, s, x);
        }
      }
    }
    EveryStepIsGood(visit, ready, good, [], RouteNode, st, inputs, 0, limit);
    FinishedAtTheEnd(visit, RouteNode, st, inputs, 0, limit);
    var trace := RunWorkflow(cfg, question, inputs).trace;
    assert AllGood(good, [], trace) && GoodAt(good, [], trace, |trace| - 1);
  }

  lemma RunIsBounded(cfg: Config, question: string, inputs: nat -> Input)
    ensures var run := RunWorkflow(cfg, question, inputs); var st := InitialState(question);
      && |run.trace| <= ByShape(cfg, RouteNode, st) && |run.trace| <= ByRounds(cfg, RouteNode, st)
      && (RecursionLimit(cfg) >= ByRounds(cfg, RouteNode, st) ==> run.finished)
  {
    var visit, st, limit := Nodes(cfg), InitialState(question), RecursionLimit(cfg);
    var ok := (n: Node, s: State) => WithinRounds(cfg, n, s);
    var shape := (n: Node, s: State) => ByShape(cfg, n, s);
    var rounds := (n: Node, s: State) => ByRounds(cfg, n, s);
    forall n, s, x ensures Lowers(visit, ok, shape, n, s, x) && Lowers(visit, ok, rounds, n, s, x) {
      if WithinRounds(cfg, n, s) { StepLowersBounds(cfg, n, s, x); }
    }
    BoundedByMeasure(visit, ok, shape, RouteNode, st, inputs, 0, limit);
    BoundedByMeasure(visit, ok, rounds, RouteNode, st, inputs, 0, limit);
  }

  /** Every run ends within both caps; it reaches the recursion limit only where LangGraph
      accepts no limit at all, with the round cap below -3. The tool falls back to its fixed
      sentence exactly when the run ends at the summary node, reached unanswered and without
      a specialised result, and the model's summary is the empty text. */
  lemma EveryRunEnds(cfg: Config, question: string, inputs: nat -> Input)
    ensures var run := RunWorkflow(cfg, question, inputs);
      && |run.trace| <= 3 + (if cfg.maxSqlFailures > 1 then cfg.maxSqlFailures else 1)
      && |run.trace| <= (if cfg.maxRounds + 2 > 1 then cfg.maxRounds + 2 else 1)
      && (run.finished <==> cfg.maxRounds >= -3)
      && (run.finished ==> run.trace != [] && run.last == run.trace[|run.trace| - 1].outcome.state)
      && (run.finished ==> (ToolResult(run) == NothingGenerated
            <==> var last := run.trace[|run.trace| - 1];
              ModelLeavesSummaryEmpty(cfg, last.node, last.before, last.input)))
  {
    RunIsBounded(cfg, question, inputs);
    if RunWorkflow(cfg, question, inputs).finished {
      FinishedIsProper(cfg, question, inputs);
    }
  }

  // ---------------------------------------------------------------- a run without an answer

  lemma {:induction false} CountOfNew(fs: seq<Fingerprint>, f: Fingerprint)
    requires f !in fs
    ensures Count(fs + [f], f) == 1
  {
    if fs == [] {
      assert [] + [f] == [f] && [f][1..] == [];
    } else {
      assert (fs + [f])[1..] == fs[1..] + [f];
      CountOfNew(fs[1..], f);
    }
  }

  /** A node met for the first time, within the rounds and with a lenient supervisor, comes to
      its body. */
  lemma EnterPasses(cfg: Config, st: State, node: Node, args: Args, inp: Input)
    requires !Answered(st.answer) && st.rounds < cfg.maxRounds && cfg.maxRepeats >= 1 && !inp.supervisorStops
    requires Fingerprint(node, args) !in st.loop.fingerprints && |st.loop.fingerprints| < 20
    ensures var e := Enter(cfg, st, node, args, inp);
      && e == st.(rounds := st.rounds + 1, loop := e.loop)
      && e.loop.fingerprints == st.loop.fingerprints + [Fingerprint(node, args)]
  {
    CountOfNew(st.loop.fingerprints, Fingerprint(node, args));
  }

  /** The question is a plain read, no table is broken, and the supervisor lets the graph go on. */
  predicate AsksForRows(inp: Input) {
    !inp.asksForWrite && !inp.asksForHotProducts && !inp.supervisorStops && inp.brokenTables == {}
  }

  /** Besides, the statement succeeds and the summary is empty. */
  predicate IsSmooth(inp: Input) {
    AsksForRows(inp) && !inp.sqlFailed && inp.summary == Some("")
  }

  lemma RouteVisit(cfg: Config, st: State, inp: Input)
    requires cfg.maxRounds >= 1 && cfg.maxRepeats >= 1 && AsksForRows(inp)
    requires st == InitialState(st.question)
    ensures var to := Visit(cfg, RouteNode, st, inp).state;
      && Successor(RouteNode, to) == Some(SchemaNode) && to.answer == NoAnswer && !to.hotProducts && to.rounds == 1
      && |to.loop.fingerprints| == 1 && forall f :: f in to.loop.fingerprints ==> f.node == RouteNode
  {
    EnterPasses(cfg, st, RouteNode, Question(st.question), inp);
  }

  lemma SchemaVisit(cfg: Config, st: State, inp: Input)
    requires cfg.maxRounds >= 2 && cfg.maxRepeats >= 1 && SchemaTables(cfg, inp) != [] && AsksForRows(inp)
    requires st.answer == NoAnswer && !st.hotProducts && st.rounds == 1
    requires |st.loop.fingerprints| == 1 && forall f :: f in st.loop.fingerprints ==> f.node == RouteNode
    ensures var to := Visit(cfg, SchemaNode, st, inp).state;
      && Successor(SchemaNode, to) == Some(SqlNode) && to.answer == NoAnswer && !to.hotProducts && to.rounds == 2
      && |to.loop.fingerprints| == 2
      && forall f :: f in to.loop.fingerprints ==> f.node == RouteNode || f.node == SchemaNode
  {
    EnterPasses(cfg, st, SchemaNode, Tables(SchemaTables(cfg, inp)), inp);
    SchemaFindsTables(cfg, EnteredState(cfg, SchemaNode, st, inp), inp);
  }

  lemma SchemaFindsTables(cfg: Config, st: State, inp: Input)
    requires SchemaTables(cfg, inp) != [] && inp.brokenTables == {}
    ensures SchemaStep(cfg, st, inp).state == st.(route := ToSql)
  {
    var tables := SchemaTables(cfg, inp);
    assert tables[0] in tables;
  }

  lemma SomeTable(cfg: Config, inp: Input)
    requires cfg.maxSchemaTables >= 1
    ensures SchemaTables(cfg, inp) != []
  {}

  /** Four nodes in a row that lead to each other and an end make a finished run. */
  lemma FourNodes(visit: Visitor, s0: State, inputs: nat -> Input, limit: nat)
    requires limit >= 4
    requires var s1 := visit(RouteNode, s0, inputs(0)).state; var s2 := visit(SchemaNode, s1, inputs(1)).state;
      var s3 := visit(SqlNode, s2, inputs(2)).state;
      Successor(RouteNode, s1) == Some(SchemaNode) && Successor(SchemaNode, s2) == Some(SqlNode)
      && Successor(SqlNode, s3) == Some(SummarizeNode)
    ensures var s1 := visit(RouteNode, s0, inputs(0)).state; var s2 := visit(SchemaNode, s1, inputs(1)).state;
      var s3 := visit(SqlNode, s2, inputs(2)).state; var run := RunFrom(visit, RouteNode, s0, inputs, 0, limit);
      run.finished && run.last == visit(SummarizeNode, s3, inputs(3)).state
  {
    var s1 := visit(RouteNode, s0, inputs(0)).state;
    var s2 := visit(SchemaNode, s1, inputs(1)).state;
    RunContinues(visit, RouteNode, s0, inputs, 0, limit);
    RunContinues(visit, SchemaNode, s1, inputs, 1, limit - 1);
    RunContinues(visit, SqlNode, s2, inputs, 2, limit - 2);
  }

  lemma SqlVisit(cfg: Config, st: State, inp: Input)
    requires cfg.maxRounds >= 4 && cfg.maxRepeats >= 1 && IsSmooth(inp)
    requires st.answer == NoAnswer && !st.hotProducts && st.rounds == 2
    requires |st.loop.fingerprints| == 2
    requires forall f :: f in st.loop.fingerprints ==> f.node == RouteNode || f.node == SchemaNode
    ensures var to := Visit(cfg, SqlNode, st, inp).state;
      && Successor(SqlNode, to) == Some(SummarizeNode) && to.answer == NoAnswer && !to.hotProducts && to.rounds == 3
      && |to.loop.fingerprints| == 3 && forall f :: f in to.loop.fingerprints ==> f.node != SummarizeNode
  {
    EnterPasses(cfg, st, SqlNode, Statement(Extract(inp.body)), inp);
  }

  lemma SummarizeVisit(cfg: Config, st: State, inp: Input)
    requires cfg.maxRounds >= 4 && cfg.maxRepeats >= 1 && IsSmooth(inp)
    requires st.answer == NoAnswer && !st.hotProducts && st.rounds == 3
    requires |st.loop.fingerprints| == 3 && forall f :: f in st.loop.fingerprints ==> f.node != SummarizeNode
    ensures Visit(cfg, SummarizeNode, st, inp).state.answer == ModelText("")
  {
    EnterPasses(cfg, st, SummarizeNode, Analysis(false), inp);
  }

  /** Such runs exist: four nodes, every outside call well, and an empty summary. */
  lemma SmoothRunHasNoAnswer(cfg: Config, question: string, inputs: nat -> Input)
    requires cfg.maxRounds >= 4 && cfg.maxRepeats >= 1 && cfg.maxSchemaTables >= 1
    requires forall n: nat :: n < 4 ==> IsSmooth(inputs(n))
    ensures var run := RunWorkflow(cfg, question, inputs); run.finished && ToolResult(run) == NothingGenerated
  {
    var s0 := InitialState(question);
    RouteVisit(cfg, s0, inputs(0));
    SomeTable(cfg, inputs(1));
    var s1 := Visit(cfg, RouteNode, s0, inputs(0)).state;
    SchemaVisit(cfg, s1, inputs(1));
    var s2 := Visit(cfg, SchemaNode, s1, inputs(1)).state;
    SqlVisit(cfg, s2, inputs(2));
    var s3 := Visit(cfg, SqlNode, s2, inputs(2)).state;
    SummarizeVisit(cfg, s3, inputs(3));
    FourNodes(Nodes(cfg), s0, inputs, RecursionLimit(cfg));
  }

  lemma SomeRunHasNoAnswer(cfg: Config, question: string) returns (inputs: nat -> Input)
    requires cfg.maxRounds >= 4 && cfg.maxRepeats >= 1 && cfg.maxSchemaTables >= 1
    ensures ToolResult(RunWorkflow(cfg, question, inputs)) == NothingGenerated
  {
    var inp := Input(false, false, "", false, None, false, true, true, "", "", {}, {}, None, false, "rows", false,
                     Some(""), false);
    inputs := (n: nat) => inp;
    SmoothRunHasNoAnswer(cfg, question, inputs);
  }
}
