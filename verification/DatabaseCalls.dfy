/** The database tool calls of every run of the graph, and the low-level fuse as their backstop. */
module DatabaseCalls {
  import opened Basics
  import opened SqlGate
  import opened DatabaseWorkflow
  import opened DatabaseWorkflowRuns
  import Ordering
  import F = DbFuse

  function TableName(t: Table): string {
    match t
    case Orders => "orders" case OrderItems => "order_items" case Products => "products"
    case Payments => "payments" case Inventory => "inventory" case TrafficStats => "traffic_stats"
    case Campaigns => "campaigns" case CampaignProductStats => "campaign_product_stats"
    case Refunds => "refunds" case Reviews => "reviews" case Customers => "customers"
  }

  function CallsOf(effects: seq<Effect>): seq<F.Call> {
    if effects == [] then []
    else
      var rest := CallsOf(effects[1..]);
      match effects[0]
      case LookUpSchema(t) => [F.SchemaCall(TableName(t))] + rest
      case RunSql(q) => [F.SqlCall(q)] + rest
      case AnalyzeTopProducts => [F.TopProductsCall] + rest
      case _ => rest
  }

  /** The database tool calls of a run, in order. */
  function ToolCalls(trace: seq<Step>): seq<F.Call> {
    if trace == [] then [] else CallsOf(trace[0].outcome.effects) + ToolCalls(trace[1..])
  }

  predicate OnlySql(cs: seq<F.Call>, most: nat) {
    |cs| <= most && forall i :: 0 <= i < |cs| ==> cs[i].SqlCall?
  }

  lemma {:induction false} CallsFromLookUps(tables: seq<Table>)
    ensures CallsOf(LookUps(tables))
      == seq(|tables|, i requires 0 <= i < |tables| => F.SchemaCall(TableName(tables[i])))
  {
    if tables != [] {
      assert LookUps(tables)[1..] == LookUps(tables[1..]);
      CallsFromLookUps(tables[1..]);
    }
  }

  // What one visit may call, node by node, and what it leaves to call.

  predicate Closing(node: Node) {
    node == SummarizeNode || node == SandboxNode || node == ApprovalNode || node == MergeNode
  }

  predicate CallsNothing(visit: Visitor, node: Node, st: State, inp: Input) {
    CallsOf(visit(node, st, inp).effects) == []
  }

  predicate CallsOneSql(cfg: Config, visit: Visitor, st: State, inp: Input) {
    var step := StepOf(visit, SqlNode, st, inp);
    && OnlySql(CallsOf(step.outcome.effects), 1)
    && (After(step) == Some(SqlNode) ==> SqlLeft(cfg, step.outcome.state) < SqlLeft(cfg, st))
  }

  predicate CallsLookUps(cfg: Config, visit: Visitor, st: State, inp: Input) {
    var step := StepOf(visit, SchemaNode, st, inp);
    && (CallsOf(step.outcome.effects) == []
      || CallsOf(step.outcome.effects) == CallsOf(LookUps(SchemaTables(cfg, inp))))
    && step.outcome.state.sqlFailCount == st.sqlFailCount
  }

  predicate CallsAnalysis(visit: Visitor, st: State, inp: Input) {
    var calls := CallsOf(visit(SpecializedNode, st, inp).effects);
    calls == [] || calls == [F.TopProductsCall]
  }

  predicate RouteKeepsCount(visit: Visitor, st: State, inp: Input) {
    CallsNothing(visit, RouteNode, st, inp) && visit(RouteNode, st, inp).state.sqlFailCount == st.sqlFailCount
  }

  ghost predicate ClosingFacts(visit: Visitor) {
    forall n, s, x :: Closing(n) ==> CallsNothing(visit, n, s, x)
  }

  ghost predicate SqlFacts(cfg: Config, visit: Visitor) {
    forall s, x :: CallsOneSql(cfg, visit, s, x)
  }

  lemma FactsHold(cfg: Config, st: State, inp: Input)
    ensures forall node :: Closing(node) ==> CallsNothing(Nodes(cfg), node, st, inp)
    ensures CallsOneSql(cfg, Nodes(cfg), st, inp)
    ensures CallsLookUps(cfg, Nodes(cfg), st, inp)
    ensures CallsAnalysis(Nodes(cfg), st, inp)
    ensures RouteKeepsCount(Nodes(cfg), st, inp)
  {
    forall node | Closing(node) ensures CallsNothing(Nodes(cfg), node, st, inp) {
      ClosingFact(cfg, node, st, inp);
    }
    SqlFact(cfg, st, inp);
    SchemaFact(cfg, st, inp);
    EarlyFacts(cfg, st, inp);
  }

  lemma ClosingBody(cfg: Config, node: Node, st: State, inp: Input)
    requires Closing(node)
    ensures CallsOf(Body(cfg, node, st, inp).effects) == []
  {
    match node
    case SandboxNode =>
      var sql := Extract(inp.body);
      SandboxedCalls(st, inp.sandboxDatabase, sql, Validate(sql, cfg.wide),
        ExecutorGate(sql, inp.dangerousDdl, cfg.wide));
    case MergeNode =>
    case _ =>
  }

  lemma SandboxedCalls(st: State, sandbox: Option<string>, sql: string, validation: Validation, gate: Gate)
    ensures CallsOf(Sandboxed(st, sandbox, sql, validation, gate).effects) == []
  {}

  lemma ClosingFact(cfg: Config, node: Node, st: State, inp: Input)
    requires Closing(node)
    ensures CallsNothing(Nodes(cfg), node, st, inp)
  {
    VisitEffects(cfg, node, st, inp);
    ClosingBody(cfg, node, EnteredState(cfg, node, st, inp), inp);
  }

  lemma SqlFact(cfg: Config, st: State, inp: Input)
    ensures CallsOneSql(cfg, Nodes(cfg), st, inp)
  {
    EnterKeeps(cfg, st, SqlNode, GuardArgs(cfg, SqlNode, st, inp), inp);
  }

  lemma SchemaFact(cfg: Config, st: State, inp: Input)
    ensures CallsLookUps(cfg, Nodes(cfg), st, inp)
  {
    EnterKeeps(cfg, st, SchemaNode, GuardArgs(cfg, SchemaNode, st, inp), inp);
  }

  lemma EarlyFacts(cfg: Config, st: State, inp: Input)
    ensures CallsAnalysis(Nodes(cfg), st, inp) && RouteKeepsCount(Nodes(cfg), st, inp)
  {
    EnterKeeps(cfg, st, SpecializedNode, GuardArgs(cfg, SpecializedNode, st, inp), inp);
    EnterKeeps(cfg, st, RouteNode, GuardArgs(cfg, RouteNode, st, inp), inp);
  }

  /** The calls of a run, followed node by node. */
  function CallsFrom(visit: Visitor, node: Node, st: State, inputs: nat -> Input, i: nat, limit: nat): seq<F.Call>
    decreases limit
  {
    if limit == 0 then []
    else
      var step := StepOf(visit, node, st, inputs(i));
      CallsOf(step.outcome.effects)
      + if After(step).None? then []
        else CallsFrom(visit, After(step).value, step.outcome.state, inputs, i + 1, limit - 1)
  }

  lemma CallsThen(step: Step, rest: seq<Step>)
    ensures ToolCalls([step] + rest) == CallsOf(step.outcome.effects) + ToolCalls(rest)
  {
    assert ([step] + rest)[1..] == rest;
  }

  /** The calls of the run from here on are those followed from here on. */
  predicate CallsAgree(visit: Visitor, node: Node, st: State, inputs: nat -> Input, i: nat, limit: nat) {
    ToolCalls(RunFrom(visit, node, st, inputs, i, limit).trace) == CallsFrom(visit, node, st, inputs, i, limit)
  }

  lemma CallsContinue(visit: Visitor, node: Node, st: State, inputs: nat -> Input, i: nat, limit: nat)
    requires limit > 0 && After(StepOf(visit, node, st, inputs(i))).Some?
    requires var step := StepOf(visit, node, st, inputs(i));
      CallsAgree(visit, After(step).value, step.outcome.state, inputs, i + 1, limit - 1)
    ensures CallsAgree(visit, node, st, inputs, i, limit)
  {
    var step := StepOf(visit, node, st, inputs(i));
    var rest := RunFrom(visit, After(step).value, step.outcome.state, inputs, i + 1, limit - 1).trace;
    RunContinues(visit, node, st, inputs, i, limit);
    CallsThen(step, rest);
  }

  lemma CallsStop(visit: Visitor, node: Node, st: State, inputs: nat -> Input, i: nat, limit: nat)
    requires limit > 0 && After(StepOf(visit, node, st, inputs(i))).None?
    ensures CallsAgree(visit, node, st, inputs, i, limit)
  {
    var step := StepOf(visit, node, st, inputs(i));
    RunStops(visit, node, st, inputs, i, limit);
    CallsThen(step, []);
    assert [step] + [] == [step];
  }

  lemma {:induction false} CallsOfTrace(visit: Visitor, node: Node, st: State, inputs: nat -> Input, i: nat, limit: nat)
    ensures CallsAgree(visit, node, st, inputs, i, limit)
    decreases limit
  {
    if limit > 0 {
      var step := StepOf(visit, node, st, inputs(i));
      if After(step).Some? {
        CallsOfTrace(visit, After(step).value, step.outcome.state, inputs, i + 1, limit - 1);
        CallsContinue(visit, node, st, inputs, i, limit);
      } else {
        CallsStop(visit, node, st, inputs, i, limit);
      }
    }
  }

  /** From the closing nodes no database tool is called any more. */
  lemma {:induction false} ClosingCallsNothing(visit: Visitor, node: Node, st: State, inputs: nat -> Input, i: nat,
      limit: nat)
    requires ClosingFacts(visit) && Closing(node)
    ensures CallsFrom(visit, node, st, inputs, i, limit) == []
    decreases limit
  {
    if limit > 0 {
      assert CallsNothing(visit, node, st, inputs(i));
      var step := StepOf(visit, node, st, inputs(i));
      if After(step).Some? {
        ClosingCallsNothing(visit, After(step).value, step.outcome.state, inputs, i + 1, limit - 1);
      }
    }
  }

  lemma {:induction false} SqlCallsFrom(cfg: Config, visit: Visitor, st: State, inputs: nat -> Input, i: nat,
      limit: nat)
    requires ClosingFacts(visit) && SqlFacts(cfg, visit)
    ensures OnlySql(CallsFrom(visit, SqlNode, st, inputs, i, limit), SqlLeft(cfg, st))
    decreases limit
  {
    if limit > 0 {
      assert CallsOneSql(cfg, visit, st, inputs(i));
      var step := StepOf(visit, SqlNode, st, inputs(i));
      if After(step) == Some(SqlNode) {
        SqlCallsFrom(cfg, visit, step.outcome.state, inputs, i + 1, limit - 1);
      } else if After(step).Some? {
        ClosingCallsNothing(visit, SummarizeNode, step.outcome.state, inputs, i + 1, limit - 1);
      }
    }
  }

  // The candidate tables are distinct: they are listed in declaration order.

  function Rank(t: Table): nat {
    match t
    case Orders => 0 case OrderItems => 1 case Products => 2 case Payments => 3 case Inventory => 4
    case TrafficStats => 5 case Campaigns => 6 case CampaignProductStats => 7 case Refunds => 8
    case Reviews => 9 case Customers => 10
  }

  predicate Earlier(a: Table, b: Table) {
    Rank(a) < Rank(b)
  }

  lemma HintsAreRanked()
    ensures Ordering.Sorted(Earlier, TABLE_HINTS) && Ordering.Sorted(Earlier, DEFAULT_TABLES)
  {
    assert forall i :: 0 <= i < |TABLE_HINTS| ==> Rank(TABLE_HINTS[i]) == i;
    assert forall i :: 0 <= i < |DEFAULT_TABLES| ==> Rank(DEFAULT_TABLES[i]) == i;
  }

  lemma SchemaTablesAreDistinct(cfg: Config, inp: Input)
    ensures Ordering.Sorted(Earlier, SchemaTables(cfg, inp))
    ensures cfg.maxSchemaTables >= 0 ==> |SchemaTables(cfg, inp)| <= cfg.maxSchemaTables
  {
    HintsAreRanked();
    Ordering.SelectKeepsSorted(Earlier, TABLE_HINTS, t => t in inp.hinted);
    var selected := Ordering.Select(TABLE_HINTS, t => t in inp.hinted);
  }

  /** A question that hints at no table is taken to be about these five. */
  predicate IsWanted(hinted: set<Table>, t: Table) {
    if hinted == {} then t in {Orders, OrderItems, Products, Payments, Inventory} else t in hinted
  }

  function Listed(hinted: set<Table>): seq<Table> {
    var selected := Ordering.Select(TABLE_HINTS, u => u in hinted);
    if selected != [] then selected else DEFAULT_TABLES
  }

  lemma DefaultsAreWanted(t: Table)
    ensures t in DEFAULT_TABLES <==> IsWanted({}, t)
  {
    assert DEFAULT_TABLES[0] == Orders && DEFAULT_TABLES[1] == OrderItems && DEFAULT_TABLES[2] == Products
        && DEFAULT_TABLES[3] == Payments && DEFAULT_TABLES[4] == Inventory;
  }

  lemma HintedAreSelected(hinted: set<Table>, t: Table)
    ensures t in Ordering.Select(TABLE_HINTS, u => u in hinted) <==> t in hinted
  {
    EveryTableIsListed();
  }

  lemma ListedAreWanted(hinted: set<Table>, t: Table)
    ensures t in Listed(hinted) <==> IsWanted(hinted, t)
  {
    var selected := Ordering.Select(TABLE_HINTS, u => u in hinted);
    HintedAreSelected(hinted, t);
    if hinted == {} {
      if selected != [] { HintedAreSelected(hinted, selected[0]); }
      DefaultsAreWanted(t);
    } else {
      var u :| u in hinted;
      HintedAreSelected(hinted, u);
    }
  }

  lemma ListedIsSorted(hinted: set<Table>)
    ensures Ordering.Sorted(Earlier, Listed(hinted))
  {
    HintsAreRanked();
    Ordering.SelectKeepsSorted(Earlier, TABLE_HINTS, t => t in hinted);
  }

  /** The tables looked up are the first wanted ones, as many as the cap lets through. */
  lemma SchemaTablesAreFirst(cfg: Config, inp: Input)
    requires cfg.maxSchemaTables >= 0
    ensures var tables := SchemaTables(cfg, inp);
      && (forall t :: t in tables ==> IsWanted(inp.hinted, t))
      && (forall t, u :: IsWanted(inp.hinted, t) && t !in tables && u in tables ==> Earlier(u, t))
      && (forall t :: IsWanted(inp.hinted, t) && t !in tables ==> |tables| == cfg.maxSchemaTables)
  {
    var tables, listed := SchemaTables(cfg, inp), Listed(inp.hinted);
    forall t ensures t in listed <==> IsWanted(inp.hinted, t) { ListedAreWanted(inp.hinted, t); }
    ListedIsSorted(inp.hinted);
    assert tables <= listed && (tables == listed || |tables| == cfg.maxSchemaTables);
    SortedPrefix(listed, tables);
  }

  lemma EveryTableIsListed()
    ensures forall t: Table :: t in TABLE_HINTS
  {
    forall t: Table ensures t in TABLE_HINTS { assert TABLE_HINTS[Rank(t)] == t; }
  }

  lemma SortedPrefix(listed: seq<Table>, tables: seq<Table>)
    requires Ordering.Sorted(Earlier, listed) && tables <= listed
    ensures forall t, u :: t in listed && t !in tables && u in tables ==> Earlier(u, t)
  {
    forall t, u | t in listed && t !in tables && u in tables ensures Earlier(u, t) {
      var i :| 0 <= i < |listed| && listed[i] == t;
      var j :| 0 <= j < |tables| && tables[j] == u;
      assert tables == listed[..|tables|] && listed[j] == u;
    }
  }

  lemma TableNamesDiffer(a: Table, b: Table)
    requires a != b
    ensures TableName(a) != TableName(b)
  {
    assert |"orders"| == 6 && |"order_items"| == 11 && |"products"| == 8 && |"payments"| == 8 && |"inventory"| == 9
        && |"traffic_stats"| == 13 && |"campaigns"| == 9 && |"campaign_product_stats"| == 22 && |"refunds"| == 7
        && |"reviews"| == 7 && |"customers"| == 9;
    assert "products"[1] != "payments"[1] && "inventory"[0] != "campaigns"[0] && "campaigns"[1] != "customers"[1]
        && "inventory"[0] != "customers"[0] && "refunds"[2] != "reviews"[2];
  }

  /** `t` look-ups of distinct tables, at most as many as the table cap, then SQL calls, at
      most as many as the failure cap. */
  predicate Explores(cfg: Config, cs: seq<F.Call>, t: nat) {
    && F.Exploration(cs, t)
    && (cfg.maxSchemaTables >= 0 ==> t <= cfg.maxSchemaTables)
    && |cs| - t <= (if cfg.maxSqlFailures > 1 then cfg.maxSqlFailures else 1)
    && (forall i, j :: 0 <= i < j < t ==> cs[i] != cs[j])
  }

  predicate TopOrExplores(cfg: Config, cs: seq<F.Call>, t: nat) {
    cs == [F.TopProductsCall] || Explores(cfg, cs, t)
  }

  lemma LookUpCallsDistinct(cfg: Config, inp: Input)
    ensures var tables := SchemaTables(cfg, inp); var cs := CallsOf(LookUps(tables));
      |cs| == |tables| && (forall i :: 0 <= i < |cs| ==> cs[i].SchemaCall?)
        && (forall i, j :: 0 <= i < j < |cs| ==> cs[i] != cs[j])
  {
    var tables := SchemaTables(cfg, inp);
    CallsFromLookUps(tables);
    SchemaTablesAreDistinct(cfg, inp);
    var cs := CallsOf(LookUps(tables));
    forall i, j | 0 <= i < j < |cs| ensures cs[i] != cs[j] {
      assert Earlier(tables[i], tables[j]);
      TableNamesDiffer(tables[i], tables[j]);
    }
  }

  lemma ExploresAfterLookUps(cfg: Config, inp: Input, first: seq<F.Call>, rest: seq<F.Call>, left: nat)
    requires first == [] || first == CallsOf(LookUps(SchemaTables(cfg, inp)))
    requires OnlySql(rest, left) && left <= (if cfg.maxSqlFailures > 1 then cfg.maxSqlFailures else 1)
    ensures Explores(cfg, first + rest, |first|)
  {
    LookUpCallsDistinct(cfg, inp);
    SchemaTablesAreDistinct(cfg, inp);
  }

  lemma SchemaCallsFrom(cfg: Config, visit: Visitor, st: State, inputs: nat -> Input, i: nat, limit: nat)
    returns (t: nat)
    requires ClosingFacts(visit) && SqlFacts(cfg, visit) && (forall s, x :: CallsLookUps(cfg, visit, s, x))
    requires st.sqlFailCount == 0
    ensures Explores(cfg, CallsFrom(visit, SchemaNode, st, inputs, i, limit), t)
  {
    t := 0;
    if limit > 0 {
      assert CallsLookUps(cfg, visit, st, inputs(i));
      var step := StepOf(visit, SchemaNode, st, inputs(i));
      var first := CallsOf(step.outcome.effects);
      var rest := CallsFrom(visit, SqlNode, step.outcome.state, inputs, i + 1, limit - 1);
      t := |first|;
      SqlCallsFrom(cfg, visit, step.outcome.state, inputs, i + 1, limit - 1);
      ExploresAfterLookUps(cfg, inputs(i), first, rest, SqlLeft(cfg, step.outcome.state));
    }
  }

  lemma SpecializedCallsFrom(visit: Visitor, st: State, inputs: nat -> Input, i: nat, limit: nat)
    requires ClosingFacts(visit) && (forall s, x :: CallsAnalysis(visit, s, x))
    ensures var cs := CallsFrom(visit, SpecializedNode, st, inputs, i, limit); cs == [] || cs == [F.TopProductsCall]
  {
    if limit > 0 {
      assert CallsAnalysis(visit, st, inputs(i));
      var step := StepOf(visit, SpecializedNode, st, inputs(i));
      ClosingCallsNothing(visit, SummarizeNode, step.outcome.state, inputs, i + 1, limit - 1);
    }
  }

  lemma RouteCallsFrom(cfg: Config, visit: Visitor, st: State, inputs: nat -> Input, limit: nat) returns (t: nat)
    requires ClosingFacts(visit) && SqlFacts(cfg, visit)
    requires (forall s, x :: CallsLookUps(cfg, visit, s, x)) && (forall s, x :: CallsAnalysis(visit, s, x))
    requires RouteKeepsCount(visit, st, inputs(0)) && st.sqlFailCount == 0
    ensures TopOrExplores(cfg, CallsFrom(visit, RouteNode, st, inputs, 0, limit), t)
  {
    t := 0;
    if limit > 0 {
      var step := StepOf(visit, RouteNode, st, inputs(0));
      if After(step).Some? {
        t := AfterRoute(cfg, visit, After(step).value, step.outcome.state, inputs, limit - 1);
      }
    }
  }

  lemma AfterRoute(cfg: Config, visit: Visitor, node: Node, st: State, inputs: nat -> Input, limit: nat)
    returns (t: nat)
    requires ClosingFacts(visit) && SqlFacts(cfg, visit)
    requires (forall s, x :: CallsLookUps(cfg, visit, s, x)) && (forall s, x :: CallsAnalysis(visit, s, x))
    requires st.sqlFailCount == 0 && node != RouteNode && node != SqlNode
    ensures TopOrExplores(cfg, CallsFrom(visit, node, st, inputs, 1, limit), t)
  {
    t := 0;
    if node == SchemaNode {
      t := SchemaCallsFrom(cfg, visit, st, inputs, 1, limit);
    } else if node == SpecializedNode {
      SpecializedCallsFrom(visit, st, inputs, 1, limit);
    } else {
      ClosingCallsNothing(visit, node, st, inputs, 1, limit);
    }
  }

  /** The tool calls of every run: the specialised analysis alone, or an exploration. */
  lemma RunCalls(cfg: Config, question: string, inputs: nat -> Input) returns (t: nat)
    ensures TopOrExplores(cfg, ToolCalls(RunWorkflow(cfg, question, inputs).trace), t)
  {
    var visit, st, limit := Nodes(cfg), InitialState(question), RecursionLimit(cfg);
    forall s, x
      ensures CallsOneSql(cfg, visit, s, x) && CallsLookUps(cfg, visit, s, x) && CallsAnalysis(visit, s, x)
    {
      FactsHold(cfg, s, x);
    }
    forall n, s, x ensures Closing(n) ==> CallsNothing(visit, n, s, x) { FactsHold(cfg, s, x); }
    FactsHold(cfg, st, inputs(0));
    CallsOfTrace(visit, RouteNode, st, inputs, 0, limit);
    t := RouteCallsFrom(cfg, visit, st, inputs, limit);
  }

  /** With the fuse's default limits, at most five tables and a failure cap of at most four,
      a run on a freshly reset thread trips the low-level fuse exactly where it repeats an SQL
      text; the default settings of the graph are five and two. */
  lemma FuseTripsExactlyOnRepeatedSql(cfg: Config, question: string, inputs: nat -> Input, k: nat)
    requires 0 <= cfg.maxSchemaTables <= 5 && cfg.maxSqlFailures <= 4
    requires k < |ToolCalls(RunWorkflow(cfg, question, inputs).trace)|
    ensures var cs := ToolCalls(RunWorkflow(cfg, question, inputs).trace);
      F.Trips(cs, k, F.DEFAULT_LIMITS) <==> cs[k].SqlCall? && cs[k] in cs[..k]
  {
    var t := RunCalls(cfg, question, inputs);
    var cs := ToolCalls(RunWorkflow(cfg, question, inputs).trace);
    if cs == [F.TopProductsCall] {
      assert cs[..0] == [];
    } else {
      F.TripsExactlyOnRepeatedSql(cs, t, k);
    }
  }
}
