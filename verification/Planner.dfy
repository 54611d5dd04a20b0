/** agent/plan/planner.py: the dependency graph between assignments, its depends_on index,
    and the plan that the deterministic planner builds. Which capabilities a query matches is
    arbitrary here. */
module Planner {
  import opened Basics

  datatype Agent = ProductAnalysis | Inventory | Campaign | Report | DataQuality | KnowledgeBase
    | NetworkSearch | DatabaseQuery | Other(name: string)

  datatype DependencyType = Blocking | OptionalContext | OrderingOnly | ConflictCheck | Unrecognised(name: string)

  datatype Dependency = Dependency(source: string, target: string, kind: DependencyType)

  /** `requirements` holds the upstream_requirements, each a "type:source" text. */
  datatype Assignment = Assignment(
    id: string, agent: Agent, dependsOn: seq<string>, requirements: seq<(DependencyType, string)>)

  /** The id of the agent's first assignment, "" when it has none. */
  function First(s: seq<Assignment>, agent: Agent): string {
    if s == [] then "" else if s[0].agent == agent then s[0].id else First(s[1..], agent)
  }

  predicate Present(s: seq<Assignment>, agent: Agent) {
    exists a :: a in s && a.agent == agent
  }

  predicate HasId(s: seq<Assignment>, id: string) {
    exists a :: a in s && a.id == id
  }

  predicate HasIdOf(s: seq<Assignment>, id: string, agent: Agent) {
    exists a :: a in s && a.id == id && a.agent == agent
  }

  // ---------------------------------------------------------------- the edges, declaratively

  predicate ProductEdge(s: seq<Assignment>, d: Dependency) {
    && d.kind == Blocking && d.source == First(s, ProductAnalysis) != ""
    && (HasIdOf(s, d.target, Inventory) || HasIdOf(s, d.target, Campaign))
  }

  predicate InventoryEdge(s: seq<Assignment>, d: Dependency) {
    d.kind == OptionalContext && d.source == First(s, Inventory) != "" && HasIdOf(s, d.target, Campaign)
  }

  predicate UpstreamEdge(s: seq<Assignment>, d: Dependency, agent: Agent) {
    d.kind == Blocking && d.source == First(s, agent) != "" && d.target != d.source && HasId(s, d.target)
  }

  predicate ReportEdge(s: seq<Assignment>, d: Dependency) {
    && d.kind == OptionalContext && |s| > 1 && Present(s, Report)
    && d.target == First(s, Report) && d.source != d.target && HasId(s, d.source)
  }

  predicate IsEdge(s: seq<Assignment>, d: Dependency) {
    || ProductEdge(s, d)
    || InventoryEdge(s, d)
    || UpstreamEdge(s, d, DataQuality)
    || UpstreamEdge(s, d, DatabaseQuery)
    || ReportEdge(s, d)
  }

  predicate NoDuplicates<T(==)>(s: seq<T>) {
    forall i, j :: 0 <= i < j < |s| ==> s[i] != s[j]
  }

  // ---------------------------------------------------------------- the loops that build them

  predicate Targeted(s: seq<Assignment>, wanted: Assignment -> bool, id: string) {
    exists a :: a in s && wanted(a) && a.id == id
  }

  /** An edge of that kind from the source to a wanted assignment. */
  predicate OutOfSource(s: seq<Assignment>, d: Dependency, source: string, wanted: Assignment -> bool,
      kind: DependencyType) {
    d.source == source && d.kind == kind && Targeted(s, wanted, d.target)
  }

  /** `for assignment in assignments: if wanted: append(source -> assignment)` */
  method AddTargets(deps: seq<Dependency>, source: string, s: seq<Assignment>, wanted: Assignment -> bool,
      kind: DependencyType)
    returns (r: seq<Dependency>)
    ensures forall d :: d in r <==> d in deps || OutOfSource(s, d, source, wanted, kind)
  {
    r := deps;
    for i := 0 to |s|
      invariant forall d :: d in r <==> d in deps || OutOfSource(s[..i], d, source, wanted, kind)
    {
      assert s[..i + 1] == s[..i] + [s[i]];
      if wanted(s[i]) {
        r := r + [Dependency(source, s[i].id, kind)];
      }
    }
    assert s[..|s|] == s;
  }

  /** An edge of that kind from another assignment into the target. */
  predicate IntoTarget(s: seq<Assignment>, d: Dependency, target: string, kind: DependencyType) {
    d.target == target && d.kind == kind && d.source != target && HasId(s, d.source)
  }

  /** `for assignment in assignments: if it is not the target: append(assignment -> target)` */
  method AddSources(deps: seq<Dependency>, target: string, s: seq<Assignment>, kind: DependencyType)
    returns (r: seq<Dependency>)
    ensures forall d :: d in r <==> d in deps || IntoTarget(s, d, target, kind)
  {
    r := deps;
    for i := 0 to |s|
      invariant forall d :: d in r <==> d in deps || IntoTarget(s[..i], d, target, kind)
    {
      assert s[..i + 1] == s[..i] + [s[i]];
      if s[i].id != target {
        r := r + [Dependency(s[i].id, target, kind)];
      }
    }
    assert s[..|s|] == s;
  }

  method DedupeDependencies(deps: seq<Dependency>) returns (r: seq<Dependency>)
    ensures NoDuplicates(r) && forall d :: d in r <==> d in deps
  {
    r := [];
    var seen: set<Dependency> := {};
    for i := 0 to |deps|
      invariant seen == set d | d in r
      invariant NoDuplicates(r) && forall d :: d in r <==> d in deps[..i]
    {
      assert deps[..i + 1] == deps[..i] + [deps[i]];
      if deps[i] !in seen {
        seen := seen + {deps[i]};
        r := r + [deps[i]];
      }
    }
    assert deps[..|deps|] == deps;
  }

  method FirstId(s: seq<Assignment>, agent: Agent) returns (id: string)
    ensures id == First(s, agent)
  {
    var i := 0;
    while i < |s|
      invariant 0 <= i <= |s| && First(s, agent) == First(s[i..], agent)
    {
      if s[i].agent == agent { return s[i].id; }
      i := i + 1;
    }
    id := "";
  }

  /** _assignment_dependencies. `independent` is whether the query asks for separate views. */
  method AssignmentDependencies(s: seq<Assignment>, independent: bool) returns (deps: seq<Dependency>)
    ensures NoDuplicates(deps)
    ensures forall d :: d in deps <==> !independent && IsEdge(s, d)
  {
    if independent { return []; }
    var product := FirstId(s, ProductAnalysis);
    var inventory := FirstId(s, Inventory);
    var dataQuality := FirstId(s, DataQuality);
    var database := FirstId(s, DatabaseQuery);
    deps := [];
    if product != "" {
      deps := AddTargets(deps, product, s, (a: Assignment) => a.agent == Inventory || a.agent == Campaign, Blocking);
    }
    assert forall d :: d in deps <==> ProductEdge(s, d);
    if inventory != "" {
      deps := AddTargets(deps, inventory, s, (a: Assignment) => a.agent == Campaign, OptionalContext);
    }
    assert forall d :: d in deps <==> ProductEdge(s, d) || InventoryEdge(s, d);
    deps := AddUpstream(deps, dataQuality, s, DataQuality);
    deps := AddUpstream(deps, database, s, DatabaseQuery);
    if Present(s, Report) && |s| > 1 {
      var report := FirstId(s, Report);
      deps := AddSources(deps, report, s, OptionalContext);
    }
    deps := DedupeDependencies(deps);
  }

  method AddUpstream(deps: seq<Dependency>, upstream: string, s: seq<Assignment>, ghost agent: Agent)
    returns (r: seq<Dependency>)
    requires upstream == First(s, agent)
    ensures forall d :: d in r <==> d in deps || UpstreamEdge(s, d, agent)
  {
    r := deps;
    if upstream != "" {
      r := AddTargets(deps, upstream, s, (a: Assignment) => a.id != upstream, Blocking);
    }
  }

  /** What _sanitize_dependencies lets through of a model-written plan. */
  predicate IsSane(s: seq<Assignment>, d: Dependency) {
    HasId(s, d.source) && HasId(s, d.target) && d.source != d.target && !d.kind.Unrecognised?
  }

  /** _sanitize_dependencies */
  method SanitizeDependencies(deps: seq<Dependency>, s: seq<Assignment>) returns (r: seq<Dependency>)
    ensures NoDuplicates(r) && forall d :: d in r <==> d in deps && IsSane(s, d)
    ensures forall d :: d in r ==>
              d.kind in {Blocking, OptionalContext, OrderingOnly, ConflictCheck} && d.source != d.target
  {
    var ids := set a | a in s :: a.id;
    var sane: seq<Dependency> := [];
    for i := 0 to |deps|
      invariant forall d :: d in sane <==> d in deps[..i] && IsSane(s, d)
    {
      var d := deps[i];
      assert deps[..i + 1] == deps[..i] + [d];
      if d.source in ids && d.target in ids && d.source != d.target && !d.kind.Unrecognised? {
        sane := sane + [d];
      }
    }
    assert deps[..|deps|] == deps;
    r := DedupeDependencies(sane);
  }

  // ---------------------------------------------------------------- depends_on

  /** The sources of the edges into an assignment, conflict checks aside, in edge order. */
  function Sources(deps: seq<Dependency>, id: string): seq<(DependencyType, string)> {
    if deps == [] then []
    else
      var n := |deps| - 1;
      Sources(deps[..n], id)
      + (if deps[n].kind != ConflictCheck && deps[n].target == id then [(deps[n].kind, deps[n].source)] else [])
  }

  function Names(s: seq<(DependencyType, string)>): seq<string> {
    seq(|s|, i requires 0 <= i < |s| => s[i].1)
  }

  /** `list(dict.fromkeys(...))`: the first occurrence of each element. */
  function Unique<T(==)>(s: seq<T>): seq<T> {
    if s == [] then []
    else
      var n := |s| - 1;
      if s[n] in s[..n] then Unique(s[..n]) else Unique(s[..n]) + [s[n]]
  }

  lemma {:induction false} UniqueShape<T>(s: seq<T>)
    ensures NoDuplicates(Unique(s)) && forall x :: x in Unique(s) <==> x in s
  {
    if s != [] {
      var n := |s| - 1;
      UniqueShape(s[..n]);
      assert s == s[..n] + [s[n]];
    }
  }

  /** `i` is where the element first stands. */
  predicate FirstAt<T(==)>(s: seq<T>, x: T, i: nat) {
    i < |s| && s[i] == x && x !in s[..i]
  }

  lemma {:induction false} FirstStands<T>(s: seq<T>, x: T) returns (i: nat)
    requires x in s
    ensures FirstAt(s, x, i)
  {
    var n := |s| - 1;
    assert s == s[..n] + [s[n]];
    if x in s[..n] {
      i := FirstStands(s[..n], x);
      assert s[..n][..i] == s[..i];
    } else {
      i := n;
    }
  }

  lemma UniqueIsFrom<T>(s: seq<T>, k: nat)
    requires k < |Unique(s)|
    ensures Unique(s)[k] in s
  {
    UniqueShape(s);
    assert Unique(s)[k] in Unique(s);
  }

  /** What is kept once is kept in the order in which it first stood. */
  lemma {:induction false} UniqueKeepsOrder<T>(s: seq<T>, a: nat, b: nat) returns (i: nat, j: nat)
    requires a < b < |Unique(s)|
    ensures FirstAt(s, Unique(s)[a], i) && FirstAt(s, Unique(s)[b], j) && i < j
  {
    var n := |s| - 1;
    var before := Unique(s[..n]);
    assert s == s[..n] + [s[n]];
    if b < |before| {
      i, j := UniqueKeepsOrder(s[..n], a, b);
      assert s[..n][..i] == s[..i] && s[..n][..j] == s[..j];
    } else {
      UniqueIsFrom(s[..n], a);
      i := FirstStands(s[..n], before[a]);
      assert s[..n][..i] == s[..i];
      j := n;
    }
  }

  /** An agent's first assignment, or no assignment of the agent at all. */
  lemma {:induction false} FirstIs(s: seq<Assignment>, agent: Agent) returns (i: nat)
    ensures i <= |s| && forall j :: 0 <= j < i ==> s[j].agent != agent
    ensures First(s, agent) == if i < |s| then s[i].id else ""
    ensures i < |s| ==> s[i].agent == agent
  {
    i := 0;
    if s != [] && s[0].agent != agent {
      var k := FirstIs(s[1..], agent);
      i := k + 1;
      assert forall j :: 0 < j < i ==> s[j] == s[1..][j - 1];
    }
  }

  function Synced(a: Assignment, deps: seq<Dependency>): Assignment {
    a.(dependsOn := Unique(a.dependsOn + Names(Sources(deps, a.id))),
       requirements := Unique(a.requirements + Sources(deps, a.id)))
  }

  function SyncedAll(s: seq<Assignment>, deps: seq<Dependency>): seq<Assignment> {
    seq(|s|, i requires 0 <= i < |s| => Synced(s[i], deps))
  }

  function Grouped(m: map<string, seq<(DependencyType, string)>>, id: string): seq<(DependencyType, string)> {
    if id in m then m[id] else []
  }

  /** The two dictionaries of the source always hold the same targets; the map keeps both lists of
      a target together. */
  method GroupByTarget(deps: seq<Dependency>) returns (byTarget: map<string, seq<(DependencyType, string)>>)
    ensures forall id :: Grouped(byTarget, id) == Sources(deps, id)
  {
    byTarget := map[];
    for i := 0 to |deps|
      invariant forall id :: Grouped(byTarget, id) == Sources(deps[..i], id)
    {
      assert deps[..i + 1][..i] == deps[..i];
      if deps[i].kind != ConflictCheck {
        var t := deps[i].target;
        byTarget := byTarget[t := Grouped(byTarget, t) + [(deps[i].kind, deps[i].source)]];
      }
    }
    assert deps[..|deps|] == deps;
  }

  /** _sync_assignment_dependencies */
  method SyncAssignmentDependencies(s: seq<Assignment>, deps: seq<Dependency>) returns (synced: seq<Assignment>)
    ensures synced == SyncedAll(s, deps)
  {
    var byTarget := GroupByTarget(deps);
    synced := [];
    for i := 0 to |s|
      invariant synced == SyncedAll(s[..i], deps)
    {
      var sources := Grouped(byTarget, s[i].id);
      var dependsOn, requirements := Unique(s[i].dependsOn + Names(sources)), Unique(s[i].requirements + sources);
      synced := synced + [s[i].(dependsOn := dependsOn, requirements := requirements)];
    }
    assert s[..|s|] == s;
  }

  // ---------------------------------------------------------------- deterministic plans

  datatype Capability = Capability(id: string, agent: Agent, realtime: bool)

  /** The agents that the built-in capabilities are assigned to. */
  predicate IsBuiltIn(c: Capability) {
    c.agent == ProductAnalysis || c.agent == Inventory || c.agent == Campaign || c.agent == Report
      || c.agent == DataQuality
  }

  predicate HasAgent(cs: seq<Capability>, agent: Agent) {
    exists c :: c in cs && c.agent == agent
  }

  /** The first capability of each agent, in order. */
  function FirstPerAgent(cs: seq<Capability>): seq<Capability> {
    if cs == [] then []
    else
      var n := |cs| - 1;
      FirstPerAgent(cs[..n]) + (if HasAgent(cs[..n], cs[n].agent) then [] else [cs[n]])
  }

  predicate DifferentAgents(cs: seq<Capability>) {
    forall i, j :: 0 <= i < j < |cs| ==> cs[i].agent != cs[j].agent
  }

  lemma {:induction false} FirstPerAgentKeeps(cs: seq<Capability>, agent: Agent)
    ensures HasAgent(FirstPerAgent(cs), agent) <==> HasAgent(cs, agent)
    ensures forall c :: c in FirstPerAgent(cs) ==> c in cs
  {
    if cs != [] {
      var n := |cs| - 1;
      FirstPerAgentKeeps(cs[..n], agent);
      assert cs == cs[..n] + [cs[n]];
      if HasAgent(FirstPerAgent(cs[..n]), agent) {
        var c :| c in FirstPerAgent(cs[..n]) && c.agent == agent;
        assert c in FirstPerAgent(cs);
      } else if cs[n].agent == agent {
        assert FirstPerAgent(cs)[|FirstPerAgent(cs[..n])|] == cs[n];
      }
    }
  }

  /** One capability an agent, each the first of its agent. */
  lemma {:induction false} FirstPerAgentIs(cs: seq<Capability>, k: nat) returns (i: nat)
    requires k < |FirstPerAgent(cs)|
    ensures DifferentAgents(FirstPerAgent(cs))
    ensures i < |cs| && cs[i] == FirstPerAgent(cs)[k] && forall j :: 0 <= j < i ==> cs[j].agent != cs[i].agent
  {
    var n := |cs| - 1;
    var before := FirstPerAgent(cs[..n]);
    FirstPerAgentDiffers(cs);
    if k < |before| {
      i := FirstPerAgentIs(cs[..n], k);
    } else {
      i := n;
      forall j | 0 <= j < n ensures cs[j].agent != cs[n].agent { assert cs[..n][j] in cs[..n]; }
    }
  }

  lemma {:induction false} FirstPerAgentDiffers(cs: seq<Capability>)
    ensures DifferentAgents(FirstPerAgent(cs))
  {
    if cs != [] {
      var n := |cs| - 1;
      var before := FirstPerAgent(cs[..n]);
      FirstPerAgentDiffers(cs[..n]);
      FirstPerAgentKeeps(cs[..n], cs[n].agent);
      forall k | 0 <= k < |before| && !HasAgent(cs[..n], cs[n].agent) ensures before[k].agent != cs[n].agent {
        assert before[k] in before;
      }
    }
  }

  ghost predicate AreSeen(seen: set<Agent>, cs: seq<Capability>) {
    forall agent :: agent in seen <==> HasAgent(cs, agent)
  }

  lemma SeeOneMore(seen: set<Agent>, cs: seq<Capability>, i: nat)
    requires i < |cs| && AreSeen(seen, cs[..i])
    ensures AreSeen(seen + {cs[i].agent}, cs[..i + 1])
    ensures FirstPerAgent(cs[..i + 1]) == FirstPerAgent(cs[..i]) + (if cs[i].agent in seen then [] else [cs[i]])
  {
    assert cs[..i + 1][..i] == cs[..i] && cs[..i + 1] == cs[..i] + [cs[i]];
    forall agent ensures HasAgent(cs[..i + 1], agent) <==> HasAgent(cs[..i], agent) || agent == cs[i].agent {
    }
  }

  /** _dedupe_capabilities_by_agent */
  method DedupeCapabilities(cs: seq<Capability>) returns (r: seq<Capability>)
    ensures r == FirstPerAgent(cs)
  {
    r := [];
    var seen: set<Agent> := {};
    for i := 0 to |cs|
      invariant AreSeen(seen, cs[..i]) && r == FirstPerAgent(cs[..i])
    {
      SeeOneMore(seen, cs, i);
      if cs[i].agent !in seen {
        seen := seen + {cs[i].agent};
        r := r + [cs[i]];
      } else {
        assert seen == seen + {cs[i].agent};
        assert r == r + [];
      }
    }
    assert cs[..|cs|] == cs;
  }

  /** The capabilities that the profile supports: under realtime only some. */
  function Supported(cs: seq<Capability>, realtime: bool): seq<Capability> {
    if cs == [] then []
    else
      var n := |cs| - 1;
      Supported(cs[..n], realtime) + (if !realtime || cs[n].realtime then [cs[n]] else [])
  }

  lemma {:induction false} SupportedAre(cs: seq<Capability>, realtime: bool, c: Capability)
    ensures c in Supported(cs, realtime) <==> c in cs && (realtime ==> c.realtime)
  {
    if cs != [] {
      var n := |cs| - 1;
      SupportedAre(cs[..n], realtime, c);
      assert c in cs <==> c in cs[..n] || c == cs[n] by {
        assert cs == cs[..n] + [cs[n]];
      }
    }
  }

  function AgentName(a: Agent): string {
    match a
    case ProductAnalysis => "product_analysis"
    case Inventory => "inventory"
    case Campaign => "campaign"
    case Report => "report"
    case DataQuality => "data_quality"
    case KnowledgeBase => "knowledge_base"
    case NetworkSearch => "network_search"
    case DatabaseQuery => "database_query"
    case Other(name) => name
  }

  /** The assignments of a deterministic plan, numbered from one. */
  function AssignmentsFor(cs: seq<Capability>): seq<Assignment> {
    seq(|cs|, i requires 0 <= i < |cs| =>
      Assignment("a" + Digits(i + 1) + "_" + AgentName(cs[i].agent), cs[i].agent, [], []))
  }

  /** The planning steps from the selected capabilities on (lines 177 to 185 of the source): the
      first supported capability of each agent gets an assignment, in selection order, and the
      plan is synced with exactly the edges between them. */
  method PlanAssignments(selected: seq<Capability>, realtime: bool, independent: bool)
    returns (assignments: seq<Assignment>, deps: seq<Dependency>)
    ensures NoDuplicates(deps) && forall d :: d in deps <==> !independent && IsEdge(assignments, d)
    ensures assignments == SyncedAll(AssignmentsFor(FirstPerAgent(Supported(selected, realtime))), deps)
  {
    var chosen: seq<Capability> := [];
    for i := 0 to |selected|
      invariant chosen == Supported(selected[..i], realtime)
    {
      assert selected[..i + 1][..i] == selected[..i];
      if !realtime || selected[i].realtime { chosen := chosen + [selected[i]]; }
    }
    assert selected[..|selected|] == selected;
    var cs := DedupeCapabilities(chosen);
    var drafted := AssignmentsFor(cs);
    deps := AssignmentDependencies(drafted, independent);
    assignments := SyncAssignmentDependencies(drafted, deps);
    forall d ensures IsEdge(assignments, d) <==> IsEdge(drafted, d) { SyncKeepsEdges(drafted, deps, d); }
  }

  lemma {:induction false} SyncKeepsFirst(s: seq<Assignment>, deps: seq<Dependency>, agent: Agent)
    ensures First(SyncedAll(s, deps), agent) == First(s, agent)
  {
    if s != [] {
      assert SyncedAll(s, deps)[1..] == SyncedAll(s[1..], deps);
      SyncKeepsFirst(s[1..], deps, agent);
    }
  }

  lemma SyncKeepsMembers(s: seq<Assignment>, deps: seq<Dependency>, id: string, agent: Agent)
    ensures HasIdOf(SyncedAll(s, deps), id, agent) <==> HasIdOf(s, id, agent)
    ensures HasId(SyncedAll(s, deps), id) <==> HasId(s, id)
    ensures Present(SyncedAll(s, deps), agent) <==> Present(s, agent)
  {
    var t := SyncedAll(s, deps);
    assert forall a :: a in s ==> Synced(a, deps) in t by {
      forall a | a in s ensures Synced(a, deps) in t {
        var i :| 0 <= i < |s| && s[i] == a;
        assert t[i] == Synced(a, deps);
      }
    }
    assert forall b :: b in t ==> exists a :: a in s && b == Synced(a, deps);
  }

  /** Filling in depends_on changes no edge. */
  lemma SyncKeepsEdges(s: seq<Assignment>, deps: seq<Dependency>, d: Dependency)
    ensures IsEdge(SyncedAll(s, deps), d) <==> IsEdge(s, d)
  {
    SyncKeepsFirst(s, deps, ProductAnalysis);
    SyncKeepsFirst(s, deps, Inventory);
    SyncKeepsFirst(s, deps, DataQuality);
    SyncKeepsFirst(s, deps, DatabaseQuery);
    SyncKeepsFirst(s, deps, Report);
    SyncKeepsMembers(s, deps, d.target, Inventory);
    SyncKeepsMembers(s, deps, d.target, Campaign);
    SyncKeepsMembers(s, deps, d.source, Report);
  }
}
