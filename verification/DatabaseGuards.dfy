/** When the round cap, the loop guard and the supervisor stop a run of the database graph. */
module DatabaseGuards {
  import opened Basics
  import opened SqlGate
  import opened DatabaseWorkflow
  import opened DatabaseWorkflowRuns
  import opened DatabaseOutcomes

  // The guard keeps the last twenty visits as texts. What it sees of a run is told here by the run
  // itself: by the number of the step, the model's statements and the earlier reviews.

  /** How often the statement was tried from the `low`-th up to before the k-th step. */
  function Tries(texts: nat -> string, low: nat, k: nat, sql: string): nat
    decreases k - low
  {
    if low >= k then 0 else (if texts(low) == sql then 1 else 0) + Tries(texts, low + 1, k, sql)
  }

  /** The first of the steps before the k-th that the guard still sees: at most twenty of them, and
      statements are tried from the third step on. */
  function FirstSeen(k: nat): nat {
    if k <= 22 then 2 else k - 20
  }

  /** The statement of the k-th step was tried too often before; other nodes are met once. */
  predicate RepeatsTooOften(cfg: Config, texts: nat -> string, node: Node, k: nat) {
    if node == SqlNode then 1 + Tries(texts, FirstSeen(k), k, texts(k)) > cfg.maxRepeats
    else 1 > cfg.maxRepeats
  }

  /** The number of visits that the guard counts at the k-th step. */
  function Counted(k: nat): nat {
    if k < 20 then k + 1 else 21
  }

  predicate MayBeReviewed(step: Step) {
    && step.node != ApprovalNode && step.node != MergeNode
    && (step.node == SummarizeNode ==> step.before.queryResult == "")
  }

  /** What was counted at the last review before the k-th step. */
  function LastReview(cfg: Config, trace: seq<Step>, k: nat): nat
    requires k <= |trace|
    decreases k, 0
  {
    if k == 0 then 0
    else if IsReviewed(cfg, trace, k - 1) then Counted(k - 1) else LastReview(cfg, trace, k - 1)
  }

  /** The supervisor is asked at the k-th step: half of the round cap, but at least three, visits
      after it was last asked. */
  predicate IsReviewed(cfg: Config, trace: seq<Step>, k: nat)
    requires k < |trace|
    decreases k, 1
  {
    && MayBeReviewed(trace[k])
    && Counted(k) - LastReview(cfg, trace, k) >= 3 && Counted(k) - LastReview(cfg, trace, k) >= cfg.maxRounds / 2
  }

  // ---------------------------------------------------------------- nodes are met once

  function Depth(node: Node): nat {
    match node
    case RouteNode => 0
    case SpecializedNode => 1 case SandboxNode => 1 case SchemaNode => 1
    case SqlNode => 2 case ApprovalNode => 2
    case SummarizeNode => 3 case MergeNode => 3
  }

  /** Only the SQL node comes behind itself. */
  predicate GoesDeeper(trace: seq<Step>, i: nat, k: nat)
    requires i < |trace| && k < |trace|
  {
    Depth(trace[i].node) < Depth(trace[k].node) || (trace[i].node == SqlNode && trace[k].node == SqlNode)
  }

  /** A run as a mere walk along the edges. */
  ghost predicate IsWalk(trace: seq<Step>) {
    trace != [] && trace[0].node == RouteNode && forall k: nat :: k + 1 < |trace| ==> TakesOver(trace, k)
  }

  lemma ChainIsWalk(cfg: Config, question: string, inputs: nat -> Input, trace: seq<Step>)
    requires IsChain(cfg, question, inputs, trace)
    ensures IsWalk(trace)
  {
    forall k: nat | k + 1 < |trace| ensures TakesOver(trace, k) { assert LinksAt(cfg, inputs, trace, k); }
  }

  lemma {:induction false} DepthGrows(trace: seq<Step>, i: nat, k: nat)
    requires IsWalk(trace) && i < k < |trace|
    ensures GoesDeeper(trace, i, k)
    decreases k
  {
    assert TakesOver(trace, k - 1);
    if i < k - 1 { DepthGrows(trace, i, k - 1); }
  }

  /** From the third step up to an SQL step there are SQL steps alone. */
  lemma {:induction false} SqlComesLate(trace: seq<Step>, i: nat, k: nat)
    requires IsWalk(trace) && i <= k < |trace| && trace[k].node == SqlNode
    ensures k >= 2 && (trace[i].node == SqlNode <==> i >= 2)
    decreases k
  {
    assert TakesOver(trace, k - 1);
    if trace[k - 1].node == SchemaNode {
      if k > 2 { DepthGrows(trace, 0, k - 2); }
      if k > 1 { assert TakesOver(trace, k - 2); }
    } else if i < k {
      SqlComesLate(trace, i, k - 1);
    } else {
      SqlComesLate(trace, k - 1, k - 1);
    }
  }

  // ---------------------------------------------------------------- what the guard has recorded

  function PrintOf(cfg: Config, step: Step): Fingerprint {
    Fingerprint(step.node, GuardArgs(cfg, step.node, step.before, step.input))
  }

  function Prints(cfg: Config, trace: seq<Step>, k: nat): seq<Fingerprint>
    requires k <= |trace|
  {
    seq(k, i requires 0 <= i < k => PrintOf(cfg, trace[i]))
  }

  /** An unanswered state stands at the k-th step with this record. */
  predicate Recorded(cfg: Config, trace: seq<Step>, k: nat, st: State)
    requires k <= |trace|
  {
    && st.rounds == k && st.loop.fingerprints == Last20(Prints(cfg, trace, k))
    && st.loop.events == (if k < 20 then k else 20)
    && st.loop.lastSupervised == LastReview(cfg, trace, k)
  }

  lemma JudgedAs(cfg: Config, trace: seq<Step>, k: nat)
    requires k < |trace| && Recorded(cfg, trace, k, trace[k].before)
    ensures var step := trace[k]; var st := step.before.(rounds := k + 1);
      var f := PrintOf(cfg, step); var loop := Record(st.loop, f);
      && loop.events == Counted(k)
      && (ShouldSupervise(cfg, st, step.node, loop) <==> IsReviewed(cfg, trace, k))
  {}

  lemma Last20Next(s: seq<Fingerprint>, f: Fingerprint)
    ensures Last20(Last20(s) + [f]) == Last20(s + [f])
  {}

  /** A step that comes to its body leaves the record one visit longer. */
  lemma GuardRecords(cfg: Config, st: State, node: Node, args: Args, inp: Input)
    requires !Answered(st.answer) && !Answered(Enter(cfg, st, node, args, inp).answer)
    ensures var loop := Record(st.loop, Fingerprint(node, args));
      Enter(cfg, st, node, args, inp)
      == st.(rounds := st.rounds + 1,
             loop := SnapshotOf(if ShouldSupervise(cfg, st.(rounds := st.rounds + 1), node, loop)
                                then Reviewed(loop) else loop))
  {}

  /** The snapshot that the k-th step leaves, reviewed or not. */
  lemma SnapshotIs(cfg: Config, trace: seq<Step>, k: nat, loop: Loop)
    requires k < |trace| && loop.fingerprints == Last20(Prints(cfg, trace, k))
    requires loop.events == if k < 20 then k else 20
    ensures var next := Record(loop, PrintOf(cfg, trace[k]));
      && next.events == Counted(k)
      && SnapshotOf(next).fingerprints == Last20(Prints(cfg, trace, k + 1))
      && SnapshotOf(next).events == (if k + 1 < 20 then k + 1 else 20)
      && SnapshotOf(next).lastSupervised == loop.lastSupervised
      && SnapshotOf(Reviewed(next)) == SnapshotOf(next).(lastSupervised := Counted(k))
  {
    Last20Next(Prints(cfg, trace, k), PrintOf(cfg, trace[k]));
    assert Prints(cfg, trace, k + 1) == Prints(cfg, trace, k) + [PrintOf(cfg, trace[k])];
  }

  lemma RecordGrows(cfg: Config, trace: seq<Step>, k: nat)
    requires k < |trace| && Recorded(cfg, trace, k, trace[k].before) && trace[k].before.answer == NoAnswer
    requires !Answered(EnteredState(cfg, trace[k].node, trace[k].before, trace[k].input).answer)
    ensures Recorded(cfg, trace, k + 1, EnteredState(cfg, trace[k].node, trace[k].before, trace[k].input))
  {
    var step := trace[k];
    JudgedAs(cfg, trace, k);
    GuardRecords(cfg, step.before, step.node, GuardArgs(cfg, step.node, step.before, step.input), step.input);
    SnapshotIs(cfg, trace, k, step.before.loop);
  }

  lemma BodyKeepsRecord(cfg: Config, node: Node, st: State, inp: Input)
    ensures var to := Body(cfg, node, st, inp).state; to.rounds == st.rounds && to.loop == st.loop
  {
    if node == SandboxNode {
      var sql := Extract(inp.body);
      SandboxKeepsRecord(st, inp.sandboxDatabase, sql, Validate(sql, cfg.wide),
        ExecutorGate(sql, inp.dangerousDdl, cfg.wide));
    }
  }

  lemma SandboxKeepsRecord(st: State, sandbox: Option<string>, sql: string, validation: Validation, gate: Gate)
    ensures var to := Sandboxed(st, sandbox, sql, validation, gate).state; to.rounds == st.rounds && to.loop == st.loop
  {}

  lemma {:induction false} UnansweredIsRecorded(cfg: Config, question: string, inputs: nat -> Input,
      trace: seq<Step>, k: nat)
    requires IsChain(cfg, question, inputs, trace) && k < |trace| && trace[k].before.answer == NoAnswer
    ensures Recorded(cfg, trace, k, trace[k].before)
    decreases k
  {
    if k > 0 {
      var step := trace[k - 1];
      assert LinksAt(cfg, inputs, trace, k - 1);
      EnterKeeps(cfg, step.before, step.node, GuardArgs(cfg, step.node, step.before, step.input), step.input);
      var e := EnteredState(cfg, step.node, step.before, step.input);
      StaysUnanswered(cfg, step.node, step.before, step.input);
      UnansweredIsRecorded(cfg, question, inputs, trace, k - 1);
      RecordGrows(cfg, trace, k - 1);
      BodyKeepsRecord(cfg, step.node, e, step.input);
    }
  }

  /** A visit that leads on without an answer has found none and come to its body. */
  lemma StaysUnanswered(cfg: Config, node: Node, st: State, inp: Input)
    requires Visit(cfg, node, st, inp).state.answer == NoAnswer
    ensures st.answer == NoAnswer && !Answered(EnteredState(cfg, node, st, inp).answer)
  {
    EnterKeeps(cfg, st, node, GuardArgs(cfg, node, st, inp), inp);
  }

  // ---------------------------------------------------------------- counting repeats

  lemma {:induction false} CountsNone(fs: seq<Fingerprint>, f: Fingerprint)
    requires forall i :: 0 <= i < |fs| ==> fs[i].node != f.node
    ensures Count(fs, f) == 0
  {
    if fs != [] { CountsNone(fs[1..], f); }
  }

  /** The prints are those of SQL visits with these texts, from the `low`-th step on. */
  predicate AreStatements(texts: nat -> string, fs: seq<Fingerprint>, low: nat) {
    forall i :: 0 <= i < |fs| ==> fs[i] == Fingerprint(SqlNode, Statement(texts(low + i)))
  }

  lemma {:induction false} CountsTries(texts: nat -> string, fs: seq<Fingerprint>, low: nat, sql: string)
    requires AreStatements(texts, fs, low)
    ensures Count(fs, Fingerprint(SqlNode, Statement(sql))) == Tries(texts, low, low + |fs|, sql)
  {
    if fs != [] {
      forall i | 0 <= i < |fs| - 1 ensures fs[1..][i] == Fingerprint(SqlNode, Statement(texts(low + 1 + i))) {
        assert fs[1..][i] == fs[i + 1];
      }
      CountsTries(texts, fs[1..], low + 1, sql);
    }
  }

  lemma {:induction false} CountAppend(a: seq<Fingerprint>, b: seq<Fingerprint>, f: Fingerprint)
    ensures Count(a + b, f) == Count(a, f) + Count(b, f)
  {
    if a == [] {
      assert a + b == b;
    } else {
      assert (a + b)[1..] == a[1..] + b;
      CountAppend(a[1..], b, f);
    }
  }

  /** Two other steps and then only SQL steps with these texts. */
  predicate TriesFollow(texts: nat -> string, prints: seq<Fingerprint>) {
    && |prints| >= 2 && prints[0].node != SqlNode && prints[1].node != SqlNode
    && forall j :: 2 <= j < |prints| ==> prints[j] == Fingerprint(SqlNode, Statement(texts(j)))
  }

  lemma PrintsAreTries(cfg: Config, question: string, inputs: nat -> Input, trace: seq<Step>, k: nat)
    requires IsChain(cfg, question, inputs, trace) && k < |trace| && trace[k].node == SqlNode
    ensures TriesFollow(Texts(inputs), Prints(cfg, trace, k))
  {
    ChainIsWalk(cfg, question, inputs, trace);
    SqlComesLate(trace, k, k);
    forall j: nat | j < k
      ensures if j < 2 then trace[j].node != SqlNode
              else PrintOf(cfg, trace[j]) == Fingerprint(SqlNode, Statement(Texts(inputs)(j)))
    {
      SqlComesLate(trace, j, k);
      assert LinksAt(cfg, inputs, trace, j);
    }
  }

  lemma LateAreStatements(texts: nat -> string, prints: seq<Fingerprint>, first: nat)
    requires TriesFollow(texts, prints) && 2 <= first <= |prints|
    ensures AreStatements(texts, prints[first..], first)
  {}

  lemma EarlyAreOthers(texts: nat -> string, prints: seq<Fingerprint>, start: nat, first: nat, sql: string)
    requires TriesFollow(texts, prints) && start <= first <= |prints| && (start < first ==> first == 2)
    ensures Count(prints[start..first], Fingerprint(SqlNode, Statement(sql))) == 0
  {
    var early := prints[start..first];
    forall i | 0 <= i < |early| ensures early[i].node != SqlNode { assert early[i] == prints[start + i]; }
    CountsNone(early, Fingerprint(SqlNode, Statement(sql)));
  }

  /** The last twenty prints count what their parts count. */
  lemma SeenParts(prints: seq<Fingerprint>, start: nat, first: nat, f: Fingerprint)
    requires start <= first <= |prints| && start == (if |prints| <= 20 then 0 else |prints| - 20)
    ensures Count(Last20(prints), f) == Count(prints[start..first], f) + Count(prints[first..], f)
  {
    assert Last20(prints) == prints[start..first] + prints[first..];
    CountAppend(prints[start..first], prints[first..], f);
  }

  /** The last twenty prints count the tries that they show. */
  lemma CountsSeenTries(texts: nat -> string, prints: seq<Fingerprint>, k: nat, sql: string)
    requires TriesFollow(texts, prints) && k == |prints|
    ensures Count(Last20(prints), Fingerprint(SqlNode, Statement(sql))) == Tries(texts, FirstSeen(k), k, sql)
  {
    var start, first := if k <= 20 then 0 else k - 20, FirstSeen(k);
    SeenParts(prints, start, first, Fingerprint(SqlNode, Statement(sql)));
    EarlyAreOthers(texts, prints, start, first, sql);
    LateAreStatements(texts, prints, first);
    CountsTries(texts, prints[first..], first, sql);
  }

  lemma CountSnoc(fs: seq<Fingerprint>, f: Fingerprint)
    ensures Count(fs + [f], f) == Count(fs, f) + 1
  {
    CountAppend(fs, [f], f);
    assert [f][1..] == [];
  }

  /** Among the prints that the guard sees, that of the k-th step counts as often as it was tried. */
  lemma PrintCounts(cfg: Config, question: string, inputs: nat -> Input, trace: seq<Step>, k: nat)
    requires IsChain(cfg, question, inputs, trace) && k < |trace|
    ensures Count(Last20(Prints(cfg, trace, k)), PrintOf(cfg, trace[k]))
            == if trace[k].node == SqlNode then Tries(Texts(inputs), FirstSeen(k), k, Texts(inputs)(k)) else 0
  {
    var f, prints := PrintOf(cfg, trace[k]), Prints(cfg, trace, k);
    assert LinksAt(cfg, inputs, trace, k);
    if trace[k].node == SqlNode {
      PrintsAreTries(cfg, question, inputs, trace, k);
      CountsSeenTries(Texts(inputs), prints, k, Texts(inputs)(k));
    } else {
      ChainIsWalk(cfg, question, inputs, trace);
      forall j: nat | j < k ensures prints[j].node != f.node { DepthGrows(trace, j, k); }
      CountsNone(Last20(prints), f);
    }
  }

  lemma RepeatsAreTries(cfg: Config, question: string, inputs: nat -> Input, trace: seq<Step>, k: nat)
    requires IsChain(cfg, question, inputs, trace) && k < |trace| && Recorded(cfg, trace, k, trace[k].before)
    ensures Repeated(cfg, Record(trace[k].before.loop, PrintOf(cfg, trace[k])), PrintOf(cfg, trace[k]))
       <==> RepeatsTooOften(cfg, Texts(inputs), trace[k].node, k)
  {
    PrintCounts(cfg, question, inputs, trace, k);
    CountSnoc(Last20(Prints(cfg, trace, k)), PrintOf(cfg, trace[k]));
  }

  // ---------------------------------------------------------------- what stops a run

  /** What the opening of the k-th step says, in this order of precedence. */
  predicate StoppedAsToldBy(cfg: Config, inputs: nat -> Input, trace: seq<Step>, k: nat)
    requires k < |trace|
  {
    var stopped := trace[k].outcome.state.answer;
    if k >= cfg.maxRounds then !IsUnhindered(cfg, trace[k]) && stopped == TooManyRounds
    else if RepeatsTooOften(cfg, Texts(inputs), trace[k].node, k)
    then !IsUnhindered(cfg, trace[k]) && stopped == LoopStopped
    else if IsReviewed(cfg, trace, k) && inputs(k).supervisorStops
    then !IsUnhindered(cfg, trace[k]) && stopped == SupervisorStopped
    else IsUnhindered(cfg, trace[k])
  }

  lemma OpeningTells(cfg: Config, inputs: nat -> Input, trace: seq<Step>, k: nat)
    requires k < |trace| && LinksAt(cfg, inputs, trace, k)
    requires trace[k].before.answer == NoAnswer && Recorded(cfg, trace, k, trace[k].before)
    requires Repeated(cfg, Record(trace[k].before.loop, PrintOf(cfg, trace[k])), PrintOf(cfg, trace[k]))
        <==> RepeatsTooOften(cfg, Texts(inputs), trace[k].node, k)
    ensures StoppedAsToldBy(cfg, inputs, trace, k)
  {
    JudgedAs(cfg, trace, k);
  }

  /** In every run a step that finds no answer is stopped exactly when the rounds are used up, its
      statement was tried too often, or the supervisor is asked and stops it. */
  lemma StoppedExactlyWhen(cfg: Config, question: string, inputs: nat -> Input, k: nat)
    requires k < |RunWorkflow(cfg, question, inputs).trace|
    requires RunWorkflow(cfg, question, inputs).trace[k].before.answer == NoAnswer
    ensures StoppedAsToldBy(cfg, inputs, RunWorkflow(cfg, question, inputs).trace, k)
  {
    var trace := RunWorkflow(cfg, question, inputs).trace;
    RunIsBounded(cfg, question, inputs);
    RunIsChain(cfg, question, inputs);
    assert LinksAt(cfg, inputs, trace, k);
    UnansweredIsRecorded(cfg, question, inputs, trace, k);
    RepeatsAreTries(cfg, question, inputs, trace, k);
    OpeningTells(cfg, inputs, trace, k);
  }

  /** Only twenty visits are kept to count from, so from the twenty-first step on the supervisor is
      asked once at most. */
  lemma {:induction false} SupervisorFallsSilent(cfg: Config, trace: seq<Step>, k: nat, later: nat)
    requires 20 <= k < later < |trace| && IsReviewed(cfg, trace, k)
    ensures !IsReviewed(cfg, trace, later) && LastReview(cfg, trace, later) == 21
    decreases later
  {
    if k + 1 < later { SupervisorFallsSilent(cfg, trace, k, later - 1); }
  }
}
