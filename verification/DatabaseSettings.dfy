/** Under which settings of databases and caps production changes only by approved writes, and the
    runs in which it does not. */
module DatabaseSettings {
  import opened Basics
  import opened SqlGate
  import opened SqlTexts
  import opened DatabaseWorkflow
  import opened DatabaseWorkflowRuns
  import opened DatabaseWrites
  import Ordering

  // ---------------------------------------------------------------- safe settings

  /** Every visit finds this value in DB_SANDBOX_DATABASE. */
  predicate FindsSandbox(inputs: nat -> Input, sandbox: Option<string>, n: nat) {
    inputs(n).sandboxDatabase == sandbox
  }

  ghost predicate AlwaysFinds(inputs: nat -> Input, sandbox: Option<string>) {
    forall n: nat :: FindsSandbox(inputs, sandbox, n)
  }

  /** Whatever is asked and whatever comes from outside, changes of production are approved. */
  ghost predicate SettingIsSafe(cfg: Config, sandbox: Option<string>) {
    forall question, inputs :: AlwaysFinds(inputs, sandbox)
      ==> RunChangesApproved(cfg, RunWorkflow(cfg, question, inputs).trace)
  }

  /** The sandbox node is the second to run, behind the guards of two nodes. */
  predicate SandboxReachable(cfg: Config) {
    cfg.maxRounds >= 2 && cfg.maxRepeats >= 1
  }

  /** Some choice of tables survives the cap, which is a slice bound applied twice to at most
      eleven tables. */
  predicate TablesSurvive(cfg: Config) {
    cfg.maxSchemaTables >= 1 || -5 <= cfg.maxSchemaTables <= -1
  }

  /** The SQL node is the third to run, behind the guards of three nodes and a table looked up. */
  predicate SqlReachable(cfg: Config) {
    cfg.maxRounds >= 3 && cfg.maxRepeats >= 1 && TablesSurvive(cfg)
  }

  /** The model text's candidate is accepted and, from this sandbox, changes production. */
  predicate WriteEscapes(cfg: Config, sandbox: Option<string>, body: string) {
    CandidateChanges(cfg, sandbox, Extract(body), Validate(Extract(body), cfg.wide))
  }

  /** The model text's statement passes the read gate and changes production. */
  predicate ReadEscapes(cfg: Config, scoped: bool, body: string) {
    var gate := ReadGate(Extract(body), scoped, cfg.wide, cfg.lower);
    gate.Execute? && cfg.database in cfg.changes(cfg.database, gate.text)
  }

  ghost predicate SomeWriteEscapes(cfg: Config, sandbox: Option<string>) {
    exists body :: WriteEscapes(cfg, sandbox, body)
  }

  ghost predicate SomeReadEscapes(cfg: Config) {
    exists scoped, body :: ReadEscapes(cfg, scoped, body)
  }

  // ---------------------------------------------------------------- runs that change production

  /** An input that asks for a write and has the model answer with `body`. */
  function WriteInput(sandbox: Option<string>, body: string): Input {
    Input(true, false, body, false, sandbox, false, true, true, "abort", "", {}, {}, None, false, "", false, None,
          false)
  }

  const ALL_TABLES := set t | t in TABLE_HINTS

  /** An input that asks for rows and has the model answer with `body`. */
  function ReadInput(sandbox: Option<string>, scoped: bool, body: string): Input {
    Input(false, false, body, false, sandbox, false, true, scoped, "abort", "", ALL_TABLES, {}, None, false, "", false,
          None, false)
  }

  lemma RouteToSandbox(cfg: Config, st: State, inp: Input)
    requires SandboxReachable(cfg) && inp.asksForWrite && !inp.supervisorStops && st == InitialState(st.question)
    ensures var to := Visit(cfg, RouteNode, st, inp).state;
      && Successor(RouteNode, to) == Some(SandboxNode) && !Answered(to.answer) && to.rounds == 1
      && |to.loop.fingerprints| == 1 && forall f :: f in to.loop.fingerprints ==> f.node == RouteNode
  {
    EnterPasses(cfg, st, RouteNode, Question(st.question), inp);
  }

  /** Two steps into such a run the sandbox node comes to its body. */
  lemma SandboxComesSecond(cfg: Config, question: string, inputs: nat -> Input)
    requires SandboxReachable(cfg) && inputs(0).asksForWrite && !inputs(0).supervisorStops && !inputs(1).supervisorStops
    ensures var trace := RunWorkflow(cfg, question, inputs).trace;
      && |trace| >= 2 && trace[1].node == SandboxNode && trace[1].input == inputs(1)
      && !Answered(EnteredState(cfg, SandboxNode, trace[1].before, trace[1].input).answer)
  {
    var st, visit, limit := InitialState(question), Nodes(cfg), RecursionLimit(cfg);
    RouteToSandbox(cfg, st, inputs(0));
    RunContinues(visit, RouteNode, st, inputs, 0, limit);
    var next := Visit(cfg, RouteNode, st, inputs(0)).state;
    EnterPasses(cfg, next, SandboxNode, Question(next.question), inputs(1));
  }

  /** Every model text whose candidate escapes from its sandbox is committed there, unapproved and
      with the merge switch off. */
  lemma WriteChangesUnapproved(cfg: Config, question: string, sandbox: Option<string>, body: string)
    returns (inputs: nat -> Input)
    requires SandboxReachable(cfg) && WriteEscapes(cfg, sandbox, body)
    ensures AlwaysFinds(inputs, sandbox) && forall n: nat :: !inputs(n).production
    ensures var trace := RunWorkflow(cfg, question, inputs).trace;
      && |trace| >= 2 && trace[1].outcome.effects == [ExecuteIn(sandbox.value, Extract(body))]
      && !RunChangesApproved(cfg, trace)
  {
    var inp := WriteInput(sandbox, body);
    inputs := (n: nat) => inp;
    assert forall n: nat :: FindsSandbox(inputs, sandbox, n);
    SandboxComesSecond(cfg, question, inputs);
    var trace := RunWorkflow(cfg, question, inputs).trace;
    SandboxWrites(cfg, trace[1].before, inp);
    StepIsVisit(cfg, question, inputs, 1);
    ProductionChangesApprovedExactlyWhen(cfg, question, inputs);
    assert SandboxChanges(cfg, trace[1]);
  }

  lemma {:induction false} SelectsAll<T(!new)>(s: seq<T>, keep: T -> bool)
    requires forall x :: x in s ==> keep(x)
    ensures Ordering.Select(s, keep) == s
  {
    if s != [] { SelectsAll(s[1..], keep); }
  }

  lemma {:induction false} SelectsNoMore<T(!new)>(s: seq<T>, keep: T -> bool)
    ensures |Ordering.Select(s, keep)| <= |s|
  {
    if s != [] { SelectsNoMore(s[1..], keep); }
  }

  lemma ElevenSurvive(tables: seq<Table>, n: int)
    requires |tables| == 11 && (n >= 1 || -5 <= n <= -1)
    ensures UpTo(UpTo(tables, n), n) != []
  {}

  lemma AllTablesSurvive(cfg: Config, inp: Input)
    requires TablesSurvive(cfg) && inp.hinted == ALL_TABLES
    ensures SchemaTables(cfg, inp) != []
  {
    SelectsAll(TABLE_HINTS, t => t in inp.hinted);
    ElevenSurvive(TABLE_HINTS, cfg.maxSchemaTables);
  }

  /** Three steps into such a run the SQL node comes to its body. */
  lemma SqlComesThird(cfg: Config, question: string, inputs: nat -> Input)
    requires SqlReachable(cfg) && SchemaTables(cfg, inputs(1)) != []
    requires AsksForRows(inputs(0)) && AsksForRows(inputs(1)) && AsksForRows(inputs(2))
    ensures var trace := RunWorkflow(cfg, question, inputs).trace;
      && |trace| >= 3 && trace[2].node == SqlNode && trace[2].input == inputs(2)
      && !Answered(EnteredState(cfg, SqlNode, trace[2].before, trace[2].input).answer)
  {
    var s0, visit, limit := InitialState(question), Nodes(cfg), RecursionLimit(cfg);
    RouteVisit(cfg, s0, inputs(0));
    var s1 := Visit(cfg, RouteNode, s0, inputs(0)).state;
    SchemaVisit(cfg, s1, inputs(1));
    var s2 := Visit(cfg, SchemaNode, s1, inputs(1)).state;
    ThirdStep(visit, s0, inputs, limit);
    EnterPasses(cfg, s2, SqlNode, Statement(Extract(inputs(2).body)), inputs(2));
  }

  lemma ThirdStep(visit: Visitor, s0: State, inputs: nat -> Input, limit: nat)
    requires limit >= 3
    requires var s1 := visit(RouteNode, s0, inputs(0)).state; var s2 := visit(SchemaNode, s1, inputs(1)).state;
      Successor(RouteNode, s1) == Some(SchemaNode) && Successor(SchemaNode, s2) == Some(SqlNode)
    ensures var trace := RunFrom(visit, RouteNode, s0, inputs, 0, limit).trace;
      var s1 := visit(RouteNode, s0, inputs(0)).state; var s2 := visit(SchemaNode, s1, inputs(1)).state;
      |trace| >= 3 && trace[2] == StepOf(visit, SqlNode, s2, inputs(2))
  {
    var s1 := visit(RouteNode, s0, inputs(0)).state;
    var s2 := visit(SchemaNode, s1, inputs(1)).state;
    RunContinues(visit, RouteNode, s0, inputs, 0, limit);
    RunContinues(visit, SchemaNode, s1, inputs, 1, limit - 1);
    RunStarts(visit, SqlNode, s2, inputs, 2, limit - 2);
    var first, second := StepOf(visit, RouteNode, s0, inputs(0)), StepOf(visit, SchemaNode, s1, inputs(1));
    IsThird(first, second, RunFrom(visit, SqlNode, s2, inputs, 2, limit - 2).trace);
  }

  lemma IsThird(first: Step, second: Step, rest: seq<Step>)
    requires rest != []
    ensures var trace := [first] + ([second] + rest); |trace| >= 3 && trace[2] == rest[0]
  {}

  lemma RunStarts(visit: Visitor, node: Node, st: State, inputs: nat -> Input, i: nat, limit: nat)
    requires limit > 0
    ensures var trace := RunFrom(visit, node, st, inputs, i, limit).trace;
      trace != [] && trace[0] == StepOf(visit, node, st, inputs(i))
  {}

  /** Every model text whose statement passes the read gate and changes production is run there,
      whatever the sandbox, before anything is approved and with the merge switch off. */
  lemma ReadChangesUnapproved(cfg: Config, question: string, sandbox: Option<string>, scoped: bool, body: string)
    returns (inputs: nat -> Input)
    requires SqlReachable(cfg) && ReadEscapes(cfg, scoped, body)
    ensures AlwaysFinds(inputs, sandbox) && forall n: nat :: !inputs(n).production
    ensures var trace := RunWorkflow(cfg, question, inputs).trace;
      && |trace| >= 3 && trace[2].outcome.effects == [RunSql(Extract(body))]
      && !RunChangesApproved(cfg, trace)
  {
    var inp := ReadInput(sandbox, scoped, body);
    inputs := (n: nat) => inp;
    assert forall n: nat :: FindsSandbox(inputs, sandbox, n);
    AllTablesSurvive(cfg, inp);
    SqlComesThird(cfg, question, inputs);
    var trace := RunWorkflow(cfg, question, inputs).trace;
    SqlReads(cfg, trace[2].before, inp);
    StepIsVisit(cfg, question, inputs, 2);
    ProductionChangesApprovedExactlyWhen(cfg, question, inputs);
    EscapeIsChange(cfg, trace[2], scoped, body);
  }

  lemma EscapeIsChange(cfg: Config, step: Step, scoped: bool, body: string)
    requires step.node == SqlNode && !Answered(EnteredState(cfg, SqlNode, step.before, step.input).answer)
    requires !step.input.fused && step.input.scoped == scoped && step.input.body == body
    requires ReadEscapes(cfg, scoped, body)
    ensures ReadChanges(cfg, step)
  {}

  lemma NamedTextEscapes(cfg: Config, question: string, sandbox: string, text: string) returns (inputs: nat -> Input)
    requires SandboxReachable(cfg) && sandbox != "" && cfg.database in cfg.changes(sandbox, text)
    requires Extract(text) == text && Validate(text, cfg.wide).Accepted?
    ensures AlwaysFinds(inputs, Some(sandbox)) && forall n: nat :: !inputs(n).production
    ensures var trace := RunWorkflow(cfg, question, inputs).trace;
      && |trace| >= 2 && trace[1].outcome.effects == [ExecuteIn(sandbox, text)] && !RunChangesApproved(cfg, trace)
  {
    inputs := WriteChangesUnapproved(cfg, question, Some(sandbox), text);
  }

  /** With different databases a candidate that names the production database is committed through
      the sandbox's connection. */
  lemma QualifiedNameEscapes(cfg: Config, question: string) returns (inputs: nat -> Input)
    requires SandboxReachable(cfg) && cfg.database == "shop" && "shop" in cfg.changes("sandbox", QUALIFIED_INSERT)
    ensures AlwaysFinds(inputs, Some("sandbox")) && forall n: nat :: !inputs(n).production
    ensures var trace := RunWorkflow(cfg, question, inputs).trace;
      && |trace| >= 2 && trace[1].outcome.effects == [ExecuteIn("sandbox", QUALIFIED_INSERT)]
      && !RunChangesApproved(cfg, trace)
  {
    QualifiedIsAccepted(cfg.wide);
    inputs := NamedTextEscapes(cfg, question, "sandbox", QUALIFIED_INSERT);
  }

  /** Without any sandbox a deletion behind `with` is run by the read executor. */
  lemma WithDeleteEscapes(cfg: Config, question: string) returns (inputs: nat -> Input)
    requires SqlReachable(cfg) && cfg.lower(WITH_DELETE) == WITH_DELETE
    requires cfg.database in cfg.changes(cfg.database, WITH_DELETE)
    ensures AlwaysFinds(inputs, None) && forall n: nat :: !inputs(n).production
    ensures var trace := RunWorkflow(cfg, question, inputs).trace;
      && |trace| >= 3 && trace[2].outcome.effects == [RunSql(WITH_DELETE)] && !RunChangesApproved(cfg, trace)
  {
    WithDeleteIsRun(cfg.wide, cfg.lower);
    inputs := ReadChangesUnapproved(cfg, question, None, true, WITH_DELETE);
  }

  // ---------------------------------------------------------------- the exact condition

  /** The exact condition on the settings: whatever is asked and answered, production changes only
      by the approved writes of merge if and only if no accepted candidate changes production from
      the sandbox, or the caps do not let the graph come to its sandbox node, and no gated text
      changes production, or the caps do not let the graph come to its SQL node. */
  lemma SettingIsSafeExactlyWhen(cfg: Config, sandbox: Option<string>)
    ensures SettingIsSafe(cfg, sandbox) <==>
      !(SandboxReachable(cfg) && SomeWriteEscapes(cfg, sandbox)) && !(SqlReachable(cfg) && SomeReadEscapes(cfg))
  {
    if SandboxReachable(cfg) && SomeWriteEscapes(cfg, sandbox) {
      var body :| WriteEscapes(cfg, sandbox, body);
      var inputs := WriteChangesUnapproved(cfg, "", sandbox, body);
      assert AlwaysFinds(inputs, sandbox);
    } else if SqlReachable(cfg) && SomeReadEscapes(cfg) {
      var scoped, body :| ReadEscapes(cfg, scoped, body);
      var inputs := ReadChangesUnapproved(cfg, "", sandbox, scoped, body);
      assert AlwaysFinds(inputs, sandbox);
    } else {
      forall question, inputs | AlwaysFinds(inputs, sandbox)
        ensures RunChangesApproved(cfg, RunWorkflow(cfg, question, inputs).trace)
      {
        SafeSettingRun(cfg, sandbox, question, inputs);
      }
    }
  }

  lemma SafeSettingRun(cfg: Config, sandbox: Option<string>, question: string, inputs: nat -> Input)
    requires AlwaysFinds(inputs, sandbox)
    requires !(SandboxReachable(cfg) && SomeWriteEscapes(cfg, sandbox))
    requires !(SqlReachable(cfg) && SomeReadEscapes(cfg))
    ensures RunChangesApproved(cfg, RunWorkflow(cfg, question, inputs).trace)
  {
    var trace := RunWorkflow(cfg, question, inputs).trace;
    forall k | 0 <= k < |trace| ensures !SandboxChanges(cfg, trace[k]) && !ReadChanges(cfg, trace[k]) {
      StepIsVisit(cfg, question, inputs, k);
      assert FindsSandbox(inputs, sandbox, k);
      StaysOut(cfg, question, inputs, k);
      if SandboxChanges(cfg, trace[k]) { assert WriteEscapes(cfg, sandbox, trace[k].input.body); }
      if ReadChanges(cfg, trace[k]) { assert ReadEscapes(cfg, trace[k].input.scoped, trace[k].input.body); }
    }
    ProductionChangesApprovedExactlyWhen(cfg, question, inputs);
  }

  // ---------------------------------------------------------------- caps that keep nodes out

  lemma {:induction false} CountsItself(fs: seq<Fingerprint>, f: Fingerprint)
    ensures Count(fs + [f], f) >= 1
  {
    if fs == [] {
      assert ([f])[1..] == [];
    } else {
      assert (fs + [f])[1..] == fs[1..] + [f];
      CountsItself(fs[1..], f);
    }
  }

  lemma NoTableSurvives(cfg: Config, inp: Input)
    requires !TablesSurvive(cfg)
    ensures SchemaTables(cfg, inp) == []
  {
    SelectsNoMore(TABLE_HINTS, t => t in inp.hinted);
  }

  /** Where a node stands in a run: rounds have been counted, and the SQL node is reached
      unanswered only behind a table. */
  predicate Stands(cfg: Config, node: Node, st: State) {
    && (if node == RouteNode then st.rounds == 0 else st.rounds >= 1)
    && (node == SqlNode ==> st.rounds >= 2 && (TablesSurvive(cfg) || Answered(st.answer)))
  }

  /** Nodes out of the caps' reach do not come to their bodies. */
  predicate KeepsOut(cfg: Config, step: Step) {
    && (step.node == SandboxNode && !SandboxReachable(cfg)
        ==> Answered(EnteredState(cfg, SandboxNode, step.before, step.input).answer))
    && (step.node == SqlNode && !SqlReachable(cfg)
        ==> Answered(EnteredState(cfg, SqlNode, step.before, step.input).answer))
  }

  ghost function StandsFor(cfg: Config): (seq<Step>, Node, State) -> bool {
    (past: seq<Step>, n: Node, s: State) => Stands(cfg, n, s)
  }

  ghost function KeepsOutFor(cfg: Config): (seq<Step>, Step) -> bool {
    (past: seq<Step>, step: Step) => KeepsOut(cfg, step)
  }

  lemma IsStopped(cfg: Config, node: Node, st: State, args: Args, inp: Input, rounds: int)
    requires st.rounds + 1 >= rounds && (cfg.maxRounds < rounds || cfg.maxRepeats < 1 || Answered(st.answer))
    ensures Answered(Enter(cfg, st, node, args, inp).answer)
  {
    CountsItself(st.loop.fingerprints, Fingerprint(node, args));
  }

  lemma StandingKeepsOut(cfg: Config, node: Node, st: State, inp: Input)
    requires Stands(cfg, node, st)
    ensures KeepsOut(cfg, StepOf(Nodes(cfg), node, st, inp))
  {
    if node == SandboxNode && !SandboxReachable(cfg) {
      IsStopped(cfg, node, st, GuardArgs(cfg, node, st, inp), inp, 2);
    } else if node == SqlNode && !SqlReachable(cfg) {
      IsStopped(cfg, node, st, GuardArgs(cfg, node, st, inp), inp, 3);
    }
  }

  /** Without a table the schema node answers. */
  lemma SchemaAnswers(cfg: Config, st: State, inp: Input)
    requires !TablesSurvive(cfg)
    ensures Answered(Visit(cfg, SchemaNode, st, inp).state.answer)
  {
    NoTableSurvives(cfg, inp);
  }

  lemma StandsNext(cfg: Config, node: Node, st: State, inp: Input)
    requires Stands(cfg, node, st)
    ensures var step := StepOf(Nodes(cfg), node, st, inp);
      After(step).Some? ==> Stands(cfg, After(step).value, step.outcome.state)
  {
    VisitRounds(cfg, node, st, inp);
    if node == SchemaNode && !TablesSurvive(cfg) { SchemaAnswers(cfg, st, inp); }
  }

  /** In every run, nodes out of the caps' reach do not come to their bodies. */
  lemma StaysOut(cfg: Config, question: string, inputs: nat -> Input, k: nat)
    requires k < |RunWorkflow(cfg, question, inputs).trace|
    ensures KeepsOut(cfg, RunWorkflow(cfg, question, inputs).trace[k])
  {
    var ready, good := StandsFor(cfg), KeepsOutFor(cfg);
    forall p, n, s, x ensures Preserves(Nodes(cfg), ready, good, p, n, s, x) {
      if ready(p, n, s) {
        StandingKeepsOut(cfg, n, s, x);
        StandsNext(cfg, n, s, x);
      }
    }
    EveryStepIsGood(Nodes(cfg), ready, good, [], RouteNode, InitialState(question), inputs, 0, RecursionLimit(cfg));
    var trace := RunWorkflow(cfg, question, inputs).trace;
    assert AllGood(good, [], trace) && GoodAt(good, [], trace, k);
  }

  // ---------------------------------------------------------------- a server that confines texts

  /** A text changes no database but its connection's, and a gated text changes nothing. */
  ghost predicate Confines(cfg: Config) {
    (forall database, text :: cfg.changes(database, text) <= {database}) && !SomeReadEscapes(cfg)
  }

  /** Where the server confines texts the names decide: then the setting is safe if and only
      if DB_SANDBOX_DATABASE is unset, empty or different from MYSQL_DATABASE, or no accepted
      candidate changes production, or the caps keep the graph from its sandbox node. */
  lemma ConfinedSettingIsSafeExactlyWhen(cfg: Config, sandbox: Option<string>)
    requires Confines(cfg)
    ensures SettingIsSafe(cfg, sandbox) <==>
      (sandbox == None || sandbox == Some("") || sandbox != Some(cfg.database) || !SandboxReachable(cfg)
       || !SomeWriteEscapes(cfg, Some(cfg.database)))
  {
    SettingIsSafeExactlyWhen(cfg, sandbox);
    if SomeWriteEscapes(cfg, sandbox) {
      var body :| WriteEscapes(cfg, sandbox, body);
      assert cfg.changes(sandbox.value, Extract(body)) <= {sandbox.value};
    }
  }
}
