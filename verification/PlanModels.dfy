/** agent/plan/models.py: plans and what they mean. */
module PlanModels {
  import opened Basics
  import StableSort

  // Plans, the dictionaries they are written to, and the reading back that fills in defaults. In a
  // dictionary an absent, null or empty text is "", an absent or zero number 0; an element that
  // should be a dictionary may be something else.

  datatype Item<T> = Dict(data: T) | NotADict

  datatype DependencyData = DependencyData(source: string, target: string, kind: string)

  datatype Dependency = Dependency(source: string, target: string, kind: string)

  /** What both forms of an assignment carry unchanged. */
  datatype Details = Details(
    scope: string, objective: string, contribution: string, requirements: seq<string>,
    inputContext: map<string, string>, constraints: map<string, string>, dependsOn: seq<string>)

  datatype AssignmentData = AssignmentData(
    id: string, agent: string, task: string, intent: string, originalQuery: string, rawQuery: string,
    priority: int, reason: string, requiredOutput: string, details: Details)

  datatype Assignment = Assignment(
    id: string, agent: string, task: string, intent: string, originalQuery: string,
    priority: int, reason: string, requiredOutput: string, details: Details)

  /** The metadata entries that the plan's properties look at, and the others. */
  datatype Metadata = Metadata(intent: string, riskLevel: string, rest: map<string, string>)

  datatype ExecutionMode = BoundaryMode | RealtimeChat | DataAgent | AgentOrchestration | BusinessAgent

  datatype PlanData = PlanData(
    planId: string, rawQuery: string, primaryIntent: string, profile: string,
    assignments: seq<Item<AssignmentData>>, dependencies: seq<Item<DependencyData>>, mergeStrategy: string,
    requiresClarification: bool, questions: seq<string>, boundary: bool, boundaryReason: string,
    confidence: real, expectedOutput: string, metadata: Metadata,
    primaryTaskType: string, assignmentIntents: seq<string>, executionMode: ExecutionMode)

  datatype Plan = Plan(
    planId: string, rawQuery: string, primaryIntent: string, profile: string,
    assignments: seq<Assignment>, dependencies: seq<Dependency>, mergeStrategy: string,
    requiresClarification: bool, questions: seq<string>, boundary: bool, boundaryReason: string,
    confidence: real, expectedOutput: string, metadata: Metadata)

  const DEFAULT_OUTPUT := "输出结构化经营分析结论。"

  // ---------------------------------------------------------------- reading

  function ReadDependency(d: DependencyData): Dependency {
    Dependency(d.source, d.target, Or(d.kind, "optional_context"))
  }

  function ReadAssignment(d: AssignmentData): Assignment {
    Assignment(Or(Or(d.id, d.agent), "assignment"), d.agent, d.task, Or(d.intent, "general_business_chat"),
               Or(d.originalQuery, d.rawQuery), if d.priority == 0 then 5 else d.priority,
               Or(d.reason, "planner_match"), Or(d.requiredOutput, DEFAULT_OUTPUT), d.details)
  }

  /** The dictionaries among the elements, read in order. */
  function ReadAll<D, T>(items: seq<Item<D>>, read: D -> T): seq<T> {
    if items == [] then []
    else (if items[0].Dict? then [read(items[0].data)] else []) + ReadAll(items[1..], read)
  }

  /** AgentTaskPlan.from_dict */
  function FromDict(d: PlanData): Plan {
    Plan(d.planId, d.rawQuery, Or(d.primaryIntent, d.primaryTaskType), Or(d.profile, "standard"),
         ReadAll(d.assignments, ReadAssignment), ReadAll(d.dependencies, ReadDependency),
         Or(d.mergeStrategy, "business_recommendation"), d.requiresClarification, d.questions, d.boundary,
         d.boundaryReason, if d.confidence == 0.0 then 0.7 else d.confidence,
         Or(d.expectedOutput, DEFAULT_OUTPUT), d.metadata)
  }

  // ---------------------------------------------------------------- what a plan means

  function Priority(a: Assignment): int {
    a.priority
  }

  /** sorted(..., key=priority) */
  function ByPriority(s: seq<Assignment>): seq<Assignment> {
    StableSort.Sort(Priority, s)
  }

  function AssignmentIntents(p: Plan): seq<string> {
    var sorted := ByPriority(p.assignments);
    seq(|sorted|, i requires 0 <= i < |sorted| => sorted[i].intent)
  }

  function PrimaryTaskType(p: Plan): string {
    if p.boundary && !p.requiresClarification then "boundary"
    else if p.requiresClarification then Or(Or(p.primaryIntent, p.metadata.intent), "clarification")
    else if p.primaryIntent != "" then p.primaryIntent
    else if AssignmentIntents(p) != [] then AssignmentIntents(p)[0]
    else if p.profile == "realtime" then "realtime_chat" else "general_business_chat"
  }

  predicate Assigns(p: Plan, agent: string) {
    exists a :: a in p.assignments && a.agent == agent
  }

  function Mode(p: Plan): ExecutionMode {
    if p.boundary || p.requiresClarification then BoundaryMode
    else if p.assignments == [] then if PrimaryTaskType(p) == "realtime_chat" then RealtimeChat else BoundaryMode
    else if Assigns(p, "network_search") && p.profile != "deep" then BoundaryMode
    else if Assigns(p, "data_quality") || Assigns(p, "database_query") then DataAgent
    else if |p.assignments| > 1 then AgentOrchestration else BusinessAgent
  }

  predicate EvaluationRequired(p: Plan) {
    p.profile == "deep" || |p.assignments| > 1 || p.metadata.riskLevel == "medium" || p.metadata.riskLevel == "high"
  }

  // ---------------------------------------------------------------- writing

  function WriteDependency(d: Dependency): DependencyData {
    DependencyData(d.source, d.target, d.kind)
  }

  function WriteAssignment(a: Assignment): AssignmentData {
    AssignmentData(a.id, a.agent, a.task, a.intent, a.originalQuery, "", a.priority, a.reason, a.requiredOutput,
      a.details)
  }

  function WriteAll<T, D>(s: seq<T>, write: T -> D): seq<Item<D>> {
    seq(|s|, i requires 0 <= i < |s| => Dict(write(s[i])))
  }

  /** AgentTaskPlan.to_dict, which also writes three derived properties. */
  function ToDict(p: Plan): PlanData {
    PlanData(p.planId, p.rawQuery, p.primaryIntent, p.profile, WriteAll(p.assignments, WriteAssignment),
             WriteAll(p.dependencies, WriteDependency), p.mergeStrategy, p.requiresClarification, p.questions,
             p.boundary, p.boundaryReason, p.confidence, p.expectedOutput, p.metadata,
             PrimaryTaskType(p), AssignmentIntents(p), Mode(p))
  }

  /** What reading makes of a plan that is written out. */
  function Normalised(p: Plan): Plan {
    FromDict(ToDict(p))
  }

  // ---------------------------------------------------------------- plans that reading gives

  predicate IsReadAssignment(a: Assignment) {
    a.id != "" && a.intent != "" && a.priority != 0 && a.reason != "" && a.requiredOutput != ""
  }

  predicate IsRead(p: Plan) {
    && p.profile != "" && p.mergeStrategy != "" && p.confidence != 0.0 && p.expectedOutput != ""
    && (forall i :: 0 <= i < |p.assignments| ==> IsReadAssignment(p.assignments[i]))
    && (forall i :: 0 <= i < |p.dependencies| ==> p.dependencies[i].kind != "")
  }

  lemma {:induction false} ReadAllGives<D, T(!new)>(items: seq<Item<D>>, read: D -> T, good: T -> bool)
    requires forall d :: good(read(d))
    ensures forall i :: 0 <= i < |ReadAll(items, read)| ==> good(ReadAll(items, read)[i])
  {
    if items != [] {
      ReadAllGives(items[1..], read, good);
    }
  }

  lemma {:induction false} ReadUndoesWrite<D, T>(s: seq<T>, write: T -> D, read: D -> T)
    requires forall i :: 0 <= i < |s| ==> read(write(s[i])) == s[i]
    ensures ReadAll(WriteAll(s, write), read) == s
  {
    if s != [] {
      assert WriteAll(s, write)[1..] == WriteAll(s[1..], write);
      ReadUndoesWrite(s[1..], write, read);
    }
  }

  lemma AssignmentsSurvive(p: Plan)
    requires IsRead(p)
    ensures ReadAll(ToDict(p).assignments, ReadAssignment) == p.assignments
    ensures ReadAll(ToDict(p).dependencies, ReadDependency) == p.dependencies
  {
    ReadUndoesWrite(p.assignments, WriteAssignment, ReadAssignment);
    ReadUndoesWrite(p.dependencies, WriteDependency, ReadDependency);
  }

  lemma ReadingGivesRead(d: PlanData)
    ensures IsRead(FromDict(d))
  {
    ReadAllGives(d.assignments, ReadAssignment, IsReadAssignment);
    ReadAllGives(d.dependencies, ReadDependency, (x: Dependency) => x.kind != "");
  }

  /** A given text is kept, an absent one replaced. */
  predicate IsFilled(given: string, otherwise: string, now: string) {
    (given != "" ==> now == given) && (given == "" ==> now == otherwise)
  }

  /** The dictionaries among the elements, in order. */
  function Dicts<D>(items: seq<Item<D>>): seq<D> {
    if items == [] then []
    else
      match items[0]
      case Dict(d) => [d] + Dicts(items[1..])
      case NotADict => Dicts(items[1..])
  }

  /** Reading a list reads each dictionary and leaves out everything else. */
  lemma {:induction false} ReadAllIs<D, T>(items: seq<Item<D>>, read: D -> T)
    ensures |ReadAll(items, read)| == |Dicts(items)|
    ensures forall i :: 0 <= i < |Dicts(items)| ==> ReadAll(items, read)[i] == read(Dicts(items)[i])
  {
    if items != [] { ReadAllIs(items[1..], read); }
  }

  /** The assignment is the one in the dictionary, with what is absent filled in. */
  predicate IsAssignmentOf(d: AssignmentData, a: Assignment) {
    && a.agent == d.agent && a.task == d.task && a.details == d.details
    && IsFilled(d.id, if d.agent == "" then "assignment" else d.agent, a.id)
    && IsFilled(d.intent, "general_business_chat", a.intent)
    && IsFilled(d.originalQuery, d.rawQuery, a.originalQuery)
    && IsFilled(d.reason, "planner_match", a.reason)
    && IsFilled(d.requiredOutput, DEFAULT_OUTPUT, a.requiredOutput)
    && (d.priority != 0 ==> a.priority == d.priority) && (d.priority == 0 ==> a.priority == 5)
  }

  predicate IsDependencyOf(d: DependencyData, e: Dependency) {
    e.source == d.source && e.target == d.target && IsFilled(d.kind, "optional_context", e.kind)
  }

  /** What reading makes of any dictionary whatever. */
  lemma ReadingFillsIn(d: PlanData)
    ensures var p := FromDict(d);
      && p.planId == d.planId && p.rawQuery == d.rawQuery && p.metadata == d.metadata
      && p.requiresClarification == d.requiresClarification && p.questions == d.questions
      && p.boundary == d.boundary && p.boundaryReason == d.boundaryReason
      && IsFilled(d.primaryIntent, d.primaryTaskType, p.primaryIntent)
      && IsFilled(d.profile, "standard", p.profile)
      && IsFilled(d.mergeStrategy, "business_recommendation", p.mergeStrategy)
      && IsFilled(d.expectedOutput, DEFAULT_OUTPUT, p.expectedOutput)
      && p.confidence == (if d.confidence == 0.0 then 0.7 else d.confidence)
    ensures var p, given := FromDict(d), Dicts(d.assignments);
      && |p.assignments| == |given|
      && (forall i :: 0 <= i < |given| ==> IsAssignmentOf(given[i], p.assignments[i]))
    ensures var p, given := FromDict(d), Dicts(d.dependencies);
      && |p.dependencies| == |given|
      && (forall i :: 0 <= i < |given| ==> IsDependencyOf(given[i], p.dependencies[i]))
  {
    ReadAllIs(d.assignments, ReadAssignment);
    ReadAllIs(d.dependencies, ReadDependency);
  }

  /** The plans that reading can give are exactly those with every default filled in. */
  lemma ReadExactlyWhen(p: Plan)
    ensures (exists d :: FromDict(d) == p) <==> IsRead(p)
  {
    if IsRead(p) {
      AssignmentsSurvive(p);
      var d := ToDict(p).(primaryTaskType := "");
      assert FromDict(d) == p;
    }
    forall d | FromDict(d) == p ensures IsRead(p) {
      ReadingGivesRead(d);
    }
  }

  // ---------------------------------------------------------------- the main results

  function Filled(p: Plan): Plan {
    p.(primaryIntent := Or(p.primaryIntent, PrimaryTaskType(p)))
  }

  /** The intents are those of the assignments, by rising priority, those of one priority in
      plan order. */
  lemma IntentsAreByPriority(p: Plan, k: int)
    ensures var sorted := ByPriority(p.assignments);
      && multiset(sorted) == multiset(p.assignments) && |AssignmentIntents(p)| == |p.assignments|
      && (forall i, j :: 0 <= i < j < |sorted| ==> sorted[i].priority <= sorted[j].priority)
      && (forall i :: 0 <= i < |sorted| ==> AssignmentIntents(p)[i] == sorted[i].intent)
      && StableSort.WithKey(Priority, sorted, k) == StableSort.WithKey(Priority, p.assignments, k)
  {
    StableSort.SortRises(Priority, p.assignments);
    StableSort.SortContents(Priority, p.assignments);
    StableSort.SortIsStable(Priority, p.assignments, k);
    var sorted := ByPriority(p.assignments);
    forall i, j | 0 <= i < j < |sorted| ensures sorted[i].priority <= sorted[j].priority {
      assert Priority(sorted[i]) <= Priority(sorted[j]);
    }
  }

  predicate HasAgent(p: Plan, agent: string) {
    exists i :: 0 <= i < |p.assignments| && p.assignments[i].agent == agent
  }

  lemma AssignsExactlyWhen(p: Plan, agent: string)
    ensures Assigns(p, agent) <==> HasAgent(p, agent)
  {
    if Assigns(p, agent) {
      var a :| a in p.assignments && a.agent == agent;
      var i :| 0 <= i < |p.assignments| && p.assignments[i] == a;
    }
    if HasAgent(p, agent) {
      var i :| 0 <= i < |p.assignments| && p.assignments[i].agent == agent;
      assert p.assignments[i] in p.assignments;
    }
  }

  /** Neither a boundary nor a question back, and no network search outside the deep profile. */
  predicate MayRun(p: Plan) {
    !p.boundary && !p.requiresClarification && (HasAgent(p, "network_search") ==> p.profile == "deep")
  }

  predicate HasDataAgent(p: Plan) {
    HasAgent(p, "data_quality") || HasAgent(p, "database_query")
  }

  /** Without assignments: the plan is one for chat by its intent, or by its profile if it has none. */
  predicate IsForChat(p: Plan) {
    p.primaryIntent == "realtime_chat" || (p.primaryIntent == "" && p.profile == "realtime")
  }

  lemma AssignedMode(p: Plan)
    requires p.assignments != []
    ensures Mode(p) == if !MayRun(p) then BoundaryMode else if HasDataAgent(p) then DataAgent
                       else if |p.assignments| == 1 then BusinessAgent else AgentOrchestration
  {
    AssignsExactlyWhen(p, "network_search");
    AssignsExactlyWhen(p, "data_quality");
    AssignsExactlyWhen(p, "database_query");
    assert |p.assignments| >= 1;
  }

  lemma UnassignedMode(p: Plan)
    requires p.assignments == []
    ensures Mode(p) == if MayRun(p) && IsForChat(p) then RealtimeChat else BoundaryMode
  {
    StableSort.SortContents(Priority, p.assignments);
    assert !HasAgent(p, "network_search");
  }

  /** When each execution mode is chosen, on the plan's fields alone. */
  lemma ModeExactlyWhen(p: Plan)
    ensures Mode(p) == BusinessAgent <==> MayRun(p) && !HasDataAgent(p) && |p.assignments| == 1
    ensures Mode(p) == AgentOrchestration <==> MayRun(p) && !HasDataAgent(p) && |p.assignments| >= 2
    ensures Mode(p) == DataAgent <==> MayRun(p) && HasDataAgent(p)
    ensures Mode(p) == RealtimeChat <==> MayRun(p) && p.assignments == [] && IsForChat(p)
    ensures Mode(p) == BoundaryMode <==> !MayRun(p) || (p.assignments == [] && !IsForChat(p))
  {
    if p.assignments == [] {
      UnassignedMode(p);
      assert !HasAgent(p, "data_quality") && !HasAgent(p, "database_query");
    } else {
      AssignedMode(p);
      assert |p.assignments| >= 1;
    }
  }

  lemma EvaluationExactlyWhen(p: Plan)
    ensures EvaluationRequired(p)
       <==> !(p.profile != "deep" && |p.assignments| <= 1 && p.metadata.riskLevel !in {"medium", "high"})
  {}

  /** Several agents, and every agent under the deep profile, run only with an evaluation. */
  lemma SeveralAgentsAreEvaluated(p: Plan)
    requires Mode(p) == AgentOrchestration || (Mode(p) != BoundaryMode && HasAgent(p, "network_search"))
    ensures EvaluationRequired(p)
  {
    ModeExactlyWhen(p);
  }

  /** The intent of the first among the assignments of least priority. */
  lemma LeadingIntent(p: Plan) returns (k: nat)
    requires p.assignments != []
    ensures k < |p.assignments| && AssignmentIntents(p) != [] && AssignmentIntents(p)[0] == p.assignments[k].intent
    ensures forall i :: 0 <= i < k ==> p.assignments[k].priority < p.assignments[i].priority
    ensures forall i :: k < i < |p.assignments| ==> p.assignments[k].priority <= p.assignments[i].priority
  {
    k := StableSort.SortStartsWith(Priority, p.assignments);
    forall i | 0 <= i < k ensures p.assignments[k].priority < p.assignments[i].priority {
      assert Priority(p.assignments[k]) < Priority(p.assignments[i]);
    }
    forall i | k < i < |p.assignments| ensures p.assignments[k].priority <= p.assignments[i].priority {
      assert Priority(p.assignments[k]) <= Priority(p.assignments[i]);
    }
  }

  /** Which text the primary task type is; `k` is the leading assignment, if there is any. */
  lemma TaskTypeIs(p: Plan) returns (k: nat)
    ensures p.assignments != [] ==>
      && k < |p.assignments|
      && (forall i :: 0 <= i < k ==> p.assignments[k].priority < p.assignments[i].priority)
      && (forall i :: k < i < |p.assignments| ==> p.assignments[k].priority <= p.assignments[i].priority)
    ensures PrimaryTaskType(p) ==
      if p.requiresClarification then
        (if p.primaryIntent != "" then p.primaryIntent
         else if p.metadata.intent != "" then p.metadata.intent else "clarification")
      else if p.boundary then "boundary"
      else if p.primaryIntent != "" then p.primaryIntent
      else if p.assignments != [] then p.assignments[k].intent
      else if p.profile == "realtime" then "realtime_chat" else "general_business_chat"
  {
    k := 0;
    if p.assignments != [] {
      k := LeadingIntent(p);
    } else {
      StableSort.SortContents(Priority, p.assignments);
    }
  }

  lemma TaskTypeIsNamed(p: Plan)
    requires IsRead(p)
    ensures PrimaryTaskType(p) != ""
  {
    if AssignmentIntents(p) != [] {
      StableSort.SortContents(Priority, p.assignments);
      var first := ByPriority(p.assignments)[0];
      assert first in multiset(ByPriority(p.assignments));
      assert first in p.assignments;
    }
  }

  /** Writing a plan that was read and reading it again changes nothing but an empty
      primary_intent, which becomes the primary task type. */
  lemma NormalisationIs(p: Plan)
    requires IsRead(p)
    ensures Normalised(p) == Filled(p)
  {
    AssignmentsSurvive(p);
  }

  lemma FillingKeepsMeaning(p: Plan)
    requires PrimaryTaskType(p) != ""
    ensures var q := Filled(p);
      && PrimaryTaskType(q) == PrimaryTaskType(p) && Mode(q) == Mode(p)
      && (EvaluationRequired(q) <==> EvaluationRequired(p)) && AssignmentIntents(q) == AssignmentIntents(p)
  {}

  /** For every plan produced by reading, normalisation keeps its meaning and is idempotent. */
  lemma NormalisationPreservesMeaning(d: PlanData)
    ensures var p := FromDict(d); var q := Normalised(p);
      && PrimaryTaskType(q) == PrimaryTaskType(p) && Mode(q) == Mode(p)
      && (EvaluationRequired(q) <==> EvaluationRequired(p)) && AssignmentIntents(q) == AssignmentIntents(p)
      && Normalised(q) == q
  {
    var p := FromDict(d);
    ReadingGivesRead(d);
    NormalisationIs(p);
    TaskTypeIsNamed(p);
    FillingKeepsMeaning(p);
    NormalisationIs(Filled(p));
  }

  predicate IsWritten(a: Assignment, d: AssignmentData) {
    && d.id == a.id && d.agent == a.agent && d.task == a.task && d.intent == a.intent
    && d.originalQuery == a.originalQuery && d.rawQuery == "" && d.priority == a.priority && d.reason == a.reason
    && d.requiredOutput == a.requiredOutput && d.details == a.details
  }

  /** A written plan tells its derived properties besides its fields, and each assignment as it is. */
  lemma WritingTells(p: Plan)
    ensures var d := ToDict(p);
      && d.planId == p.planId && d.rawQuery == p.rawQuery && d.primaryIntent == p.primaryIntent
      && d.profile == p.profile && d.primaryTaskType == PrimaryTaskType(p) && d.executionMode == Mode(p)
      && d.assignmentIntents == AssignmentIntents(p)
    ensures var given := Dicts(ToDict(p).assignments);
      |given| == |p.assignments| && forall i :: 0 <= i < |given| ==> IsWritten(p.assignments[i], given[i])
  {
    DictsOfWritten(p.assignments, WriteAssignment);
  }

  lemma {:induction false} DictsOfWritten<T, D>(s: seq<T>, write: T -> D)
    ensures |Dicts(WriteAll(s, write))| == |s|
    ensures forall i :: 0 <= i < |s| ==> Dicts(WriteAll(s, write))[i] == write(s[i])
  {
    if s != [] {
      assert WriteAll(s, write)[1..] == WriteAll(s[1..], write);
      DictsOfWritten(s[1..], write);
    }
  }

  /** For every plan whatever: normalisation is the identity exactly when every default is filled
      in and the primary_intent is not empty. */
  lemma IdentityExactlyWhen(p: Plan)
    ensures Normalised(p) == p <==> IsRead(p) && p.primaryIntent != ""
  {
    if Normalised(p) == p { ReadingGivesRead(ToDict(p)); }
    if IsRead(p) {
      NormalisationIs(p);
      TaskTypeIsNamed(p);
    }
  }
}
