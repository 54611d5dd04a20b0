/** When the planner's dependency graph is acyclic, and the serial order it then allows. */
module PlannerOrder {
  import opened Basics
  import opened Planner
  import StableSort

  // ---------------------------------------------------------------- cycles

  ghost predicate IsBuilt(s: seq<Assignment>, deps: seq<Dependency>) {
    forall d :: d in deps <==> IsEdge(s, d)
  }

  predicate Linked(deps: seq<Dependency>, a: string, b: string) {
    exists d :: d in deps && d.source == a && d.target == b
  }

  /** A closed path of at least one edge. */
  predicate IsCycle(deps: seq<Dependency>, path: seq<string>) {
    |path| >= 2 && path[0] == path[|path| - 1] && forall i :: 0 <= i < |path| - 1 ==> Linked(deps, path[i], path[i + 1])
  }

  ghost predicate Acyclic(deps: seq<Dependency>) {
    !exists path :: IsCycle(deps, path)
  }

  /** Distinct, non-empty assignment ids. */
  predicate ProperIds(s: seq<Assignment>) {
    && (forall i :: 0 <= i < |s| ==> s[i].id != "")
    && (forall i, j :: 0 <= i < j < |s| ==> s[i].id != s[j].id)
  }

  lemma {:induction false} FirstIsOf(s: seq<Assignment>, agent: Agent)
    requires ProperIds(s)
    ensures Present(s, agent) <==> First(s, agent) != ""
    ensures First(s, agent) != "" ==> HasIdOf(s, First(s, agent), agent)
  {
    if s != [] {
      FirstIsOf(s[1..], agent);
      assert s[0] in s;
      assert forall a :: a in s[1..] ==> a in s;
      assert forall a :: a in s ==> a == s[0] || a in s[1..];
    }
  }

  /** A level for every id that each edge raises, unless both upstream agents are there. */
  function Level(s: seq<Assignment>, id: string): nat {
    if id != "" && (id == First(s, DataQuality) || id == First(s, DatabaseQuery)) then 0
    else if id != "" && id == First(s, Report) then 5
    else if id != "" && id == First(s, ProductAnalysis) then 1
    else if HasIdOf(s, id, Inventory) then 2
    else if HasIdOf(s, id, Campaign) then 3
    else 4
  }

  lemma EdgesRaiseLevel(s: seq<Assignment>, d: Dependency)
    requires ProperIds(s) && IsEdge(s, d) && !(Present(s, DataQuality) && Present(s, DatabaseQuery))
    ensures Level(s, d.source) < Level(s, d.target)
  {
    FirstIsOf(s, DataQuality);
    FirstIsOf(s, DatabaseQuery);
    FirstIsOf(s, Report);
    FirstIsOf(s, ProductAnalysis);
    FirstIsOf(s, Inventory);
    if ProductEdge(s, d) {
      LevelOf(s, d.target);
    } else if InventoryEdge(s, d) {
      LevelOf(s, d.source);
      LevelOf(s, d.target);
    }
  }

  lemma LevelOf(s: seq<Assignment>, id: string)
    requires ProperIds(s)
    ensures HasIdOf(s, id, Inventory) ==> Level(s, id) == 2
    ensures HasIdOf(s, id, Campaign) ==> Level(s, id) == 3
  {
    FirstIsOf(s, DataQuality);
    FirstIsOf(s, DatabaseQuery);
    FirstIsOf(s, Report);
    FirstIsOf(s, ProductAnalysis);
  }

  lemma {:induction false} LevelsAlongPath(s: seq<Assignment>, deps: seq<Dependency>, path: seq<string>, k: nat)
    requires ProperIds(s) && IsBuilt(s, deps) && !(Present(s, DataQuality) && Present(s, DatabaseQuery))
    requires forall i :: 0 <= i < |path| - 1 ==> Linked(deps, path[i], path[i + 1])
    requires k < |path|
    ensures Level(s, path[k]) >= Level(s, path[0]) + k
  {
    if k > 0 {
      LevelsAlongPath(s, deps, path, k - 1);
      assert Linked(deps, path[k - 1], path[k - 1 + 1]);
      var d :| d in deps && d.source == path[k - 1] && d.target == path[k];
      EdgesRaiseLevel(s, d);
    }
  }

  /** For every assignment list with proper ids and every query that does not ask for separate
      views, the built graph is acyclic exactly when data_quality and database_query are not
      both assigned. */
  lemma AcyclicExactlyWhen(s: seq<Assignment>, deps: seq<Dependency>)
    requires ProperIds(s) && IsBuilt(s, deps)
    ensures Acyclic(deps) <==> !(Present(s, DataQuality) && Present(s, DatabaseQuery))
  {
    if Present(s, DataQuality) && Present(s, DatabaseQuery) {
      FirstIsOf(s, DataQuality);
      FirstIsOf(s, DatabaseQuery);
      var a, b := First(s, DataQuality), First(s, DatabaseQuery);
      assert a != b;
      assert HasId(s, a) && HasId(s, b);
      assert IsEdge(s, Dependency(a, b, Blocking)) && IsEdge(s, Dependency(b, a, Blocking));
      var path := [a, b, a];
      assert Linked(deps, a, b) && Linked(deps, b, a);
      assert IsCycle(deps, path);
    } else {
      forall path ensures !IsCycle(deps, path) {
        if IsCycle(deps, path) {
          LevelsAlongPath(s, deps, path, |path| - 1);
        }
      }
    }
  }

  // ---------------------------------------------------------------- depends_on

  /** Some edge that is not a conflict check leads from `x` to `id`. */
  predicate Feeds(deps: seq<Dependency>, x: string, id: string) {
    exists d :: d in deps && d.kind != ConflictCheck && d.target == id && d.source == x
  }

  lemma NamesSplit(a: seq<(DependencyType, string)>, b: seq<(DependencyType, string)>)
    ensures Names(a + b) == Names(a) + Names(b)
  {}

  lemma {:induction false} SourcesAre(deps: seq<Dependency>, id: string, x: string)
    ensures x in Names(Sources(deps, id)) <==> Feeds(deps, x, id)
  {
    if deps != [] {
      var n := |deps| - 1;
      SourcesAre(deps[..n], id, x);
      var feeds := deps[n].kind != ConflictCheck && deps[n].target == id;
      var last := if feeds then [(deps[n].kind, deps[n].source)] else [];
      NamesSplit(Sources(deps[..n], id), last);
      assert last != [] ==> Names(last) == [deps[n].source];
    }
  }

  /** depends_on holds what the assignment came with and exactly the sources of the edges into
      it, each once. */
  lemma DependsOnIsTheSources(a: Assignment, deps: seq<Dependency>, x: string)
    ensures NoDuplicates(Synced(a, deps).dependsOn)
    ensures x in Synced(a, deps).dependsOn
       <==> x in a.dependsOn || Feeds(deps, x, a.id)
  {
    UniqueShape(a.dependsOn + Names(Sources(deps, a.id)));
    SourcesAre(deps, a.id, x);
  }

  /** Some edge of the kind, which is not that of conflict checks, leads from `x` to `id`. */
  predicate FeedsAs(deps: seq<Dependency>, kind: DependencyType, x: string, id: string) {
    kind != ConflictCheck && Dependency(x, id, kind) in deps
  }

  lemma {:induction false} SourceKindsAre(deps: seq<Dependency>, id: string, kind: DependencyType, x: string)
    ensures (kind, x) in Sources(deps, id) <==> FeedsAs(deps, kind, x, id)
  {
    if deps != [] {
      var n := |deps| - 1;
      SourceKindsAre(deps[..n], id, kind, x);
      assert deps == deps[..n] + [deps[n]];
    }
  }

  /** The requirements name each source with the kind of its edge, besides what there was before. */
  lemma RequirementsAreTheEdges(a: Assignment, deps: seq<Dependency>, kind: DependencyType, x: string)
    ensures NoDuplicates(Synced(a, deps).requirements)
    ensures (kind, x) in Synced(a, deps).requirements
       <==> (kind, x) in a.requirements || FeedsAs(deps, kind, x, a.id)
    ensures Synced(a, deps).id == a.id && Synced(a, deps).agent == a.agent
  {
    UniqueShape(a.requirements + Sources(deps, a.id));
    SourceKindsAre(deps, a.id, kind, x);
  }

  // ---------------------------------------------------------------- a serial order

  function LevelIn(all: seq<Assignment>): Assignment -> int {
    (a: Assignment) => Level(all, a.id)
  }

  predicate Before(order: seq<Assignment>, x: string, i: nat) {
    exists j :: 0 <= j < i && j < |order| && order[j].id == x
  }

  /** Every assignment comes after all that its depends_on names. */
  ghost predicate Respects(order: seq<Assignment>) {
    forall i, x :: 0 <= i < |order| && x in order[i].dependsOn ==> Before(order, x, i)
  }

  /** What an edge leads from comes earlier in every order of the same assignments by level. */
  lemma SourceComesBefore(s: seq<Assignment>, order: seq<Assignment>, i: nat, d: Dependency)
    requires ProperIds(s) && !(Present(s, DataQuality) && Present(s, DatabaseQuery))
    requires StableSort.Rising(LevelIn(s), order) && multiset(order) == multiset(s)
    requires i < |order| && IsEdge(s, d) && d.target == order[i].id
    ensures Before(order, d.source, i)
  {
    EdgesRaiseLevel(s, d);
    SourceIsAssigned(s, d);
    var a :| a in s && a.id == d.source;
    assert a in multiset(order);
    var j :| 0 <= j < |order| && order[j] == a;
    assert LevelIn(s)(order[j]) < LevelIn(s)(order[i]);
  }

  lemma SerialOrderExists(s: seq<Assignment>, deps: seq<Dependency>) returns (order: seq<Assignment>)
    requires ProperIds(s) && IsBuilt(s, deps) && !(Present(s, DataQuality) && Present(s, DatabaseQuery))
    requires forall i, x :: 0 <= i < |s| && x in s[i].dependsOn ==> Linked(deps, x, s[i].id)
    ensures multiset(order) == multiset(s) && Respects(order)
  {
    order := StableSort.Sort(LevelIn(s), s);
    StableSort.SortRises(LevelIn(s), s);
    StableSort.SortContents(LevelIn(s), s);
    forall i, x | 0 <= i < |order| && x in order[i].dependsOn ensures Before(order, x, i) {
      assert order[i] in multiset(s);
      var k :| 0 <= k < |s| && s[k] == order[i];
      assert Linked(deps, x, s[k].id);
      var d :| d in deps && d.source == x && d.target == order[i].id;
      SourceComesBefore(s, order, i, d);
    }
  }

  lemma SourceIsAssigned(s: seq<Assignment>, d: Dependency)
    requires ProperIds(s) && IsEdge(s, d)
    ensures HasId(s, d.source)
  {
    FirstIsOf(s, DataQuality);
    FirstIsOf(s, DatabaseQuery);
    FirstIsOf(s, ProductAnalysis);
    FirstIsOf(s, Inventory);
  }

  // ---------------------------------------------------------------- deterministic plans

  ghost predicate DistinctAgents(cs: seq<Capability>) {
    && DifferentAgents(cs)
    && (forall c :: c in cs ==> IsBuiltIn(c))
  }

  lemma {:induction false} NoMoreThan(cs: seq<Capability>, agents: set<Agent>)
    requires forall i, j :: 0 <= i < j < |cs| ==> cs[i].agent != cs[j].agent
    requires forall i :: 0 <= i < |cs| ==> cs[i].agent in agents
    ensures |cs| <= |agents|
  {
    if cs != [] {
      var n := |cs| - 1;
      NoMoreThan(cs[..n], agents - {cs[n].agent});
    }
  }

  lemma NoEdgesNoCycle(deps: seq<Dependency>)
    requires forall d :: d !in deps
    ensures Acyclic(deps)
  {
    forall path ensures !IsCycle(deps, path) {
      assert IsCycle(deps, path) ==> Linked(deps, path[0], path[0 + 1]);
    }
  }

  /** With one capability an agent there are at most five, so their numbers are single digits. */
  lemma IdOf(cs: seq<Capability>, i: nat)
    requires DistinctAgents(cs) && i < |cs|
    ensures var id := AssignmentsFor(cs)[i].id; |id| > 1 && id[1] as int == '1' as int + i
  {
    assert forall i :: 0 <= i < |cs| ==> cs[i] in cs && IsBuiltIn(cs[i]);
    NoMoreThan(cs, {ProductAnalysis, Inventory, Campaign, Report, DataQuality});
    assert "a" + Digits(i + 1) + "_" + AgentName(cs[i].agent)
      == ['a', ('1' as int + i) as char] + ("_" + AgentName(cs[i].agent));
  }

  lemma AssignmentIdsAreProper(cs: seq<Capability>)
    requires DistinctAgents(cs)
    ensures ProperIds(AssignmentsFor(cs))
    ensures !Present(AssignmentsFor(cs), DatabaseQuery)
  {
    var s := AssignmentsFor(cs);
    forall i | 0 <= i < |s| ensures s[i].id != "" {
      IdOf(cs, i);
    }
    forall i, j | 0 <= i < j < |s| ensures s[i].id != s[j].id {
      IdOf(cs, i);
      IdOf(cs, j);
    }
    forall a | a in s ensures a.agent != DatabaseQuery {
      var i :| 0 <= i < |s| && s[i] == a;
      assert cs[i] in cs;
    }
  }

  lemma DraftGetsItsSources(cs: seq<Capability>, deps: seq<Dependency>, independent: bool, i: nat, x: string)
    requires forall d :: d in deps <==> !independent && IsEdge(AssignmentsFor(cs), d)
    requires i < |AssignmentsFor(cs)|
    ensures var a := AssignmentsFor(cs)[i]; x in Synced(a, deps).dependsOn <==> Linked(deps, x, a.id)
  {
    var a := AssignmentsFor(cs)[i];
    DependsOnIsTheSources(a, deps, x);
    assert forall d :: d in deps ==> d.kind != ConflictCheck;
    assert Feeds(deps, x, a.id) <==> Linked(deps, x, a.id);
  }

  /** Every deterministic plan over the built-in capabilities has a serial order of all its
      assignments that respects depends_on, and depends_on holds exactly the sources of the
      edges into each assignment. */
  lemma DeterministicPlanIsSerial(cs: seq<Capability>, deps: seq<Dependency>, independent: bool)
    returns (order: seq<Assignment>)
    requires DistinctAgents(cs)
    requires forall d :: d in deps <==> !independent && IsEdge(AssignmentsFor(cs), d)
    ensures var plan := SyncedAll(AssignmentsFor(cs), deps);
      && multiset(order) == multiset(plan) && Respects(order) && Acyclic(deps)
      && (forall i, x :: 0 <= i < |plan| ==> (x in plan[i].dependsOn <==> Linked(deps, x, plan[i].id)))
  {
    var drafted := AssignmentsFor(cs);
    var plan := SyncedAll(drafted, deps);
    AssignmentIdsAreProper(cs);
    forall i, x | 0 <= i < |plan| ensures x in plan[i].dependsOn <==> Linked(deps, x, plan[i].id) {
      DraftGetsItsSources(cs, deps, independent, i, x);
    }
    if independent {
      order := plan;
      NoEdgesNoCycle(deps);
    } else {
      forall i, j | 0 <= i < j < |plan| ensures plan[i].id != plan[j].id {
        assert drafted[i].id != drafted[j].id;
      }
      SyncKeepsMembers(drafted, deps, "", DatabaseQuery);
      forall d ensures IsEdge(plan, d) <==> IsEdge(drafted, d) { SyncKeepsEdges(drafted, deps, d); }
      AcyclicExactlyWhen(plan, deps);
      order := SerialOrderExists(plan, deps);
    }
  }

  // ---------------------------------------------------------------- model-written plans

  /** After sanitising, depends_on only gains ids of other assignments. */
  lemma SanitisedDependsOn(s: seq<Assignment>, deps: seq<Dependency>, a: Assignment, x: string)
    requires forall d :: d in deps ==> IsSane(s, d)
    ensures x in Synced(a, deps).dependsOn ==> x in a.dependsOn || (HasId(s, x) && x != a.id)
  {
    DependsOnIsTheSources(a, deps, x);
  }

  /** Sanitising does not look for cycles: two edges between two assignments, one each way, are
      both let through. */
  lemma SanitisedMayBeCyclic(s: seq<Assignment>, x: string, y: string) returns (deps: seq<Dependency>)
    requires HasId(s, x) && HasId(s, y) && x != y
    ensures (forall d :: d in deps ==> IsSane(s, d)) && |deps| == 2 && !Acyclic(deps)
  {
    deps := [Dependency(x, y, Blocking), Dependency(y, x, Blocking)];
    assert deps[0] in deps && deps[1] in deps;
    assert Linked(deps, x, y) && Linked(deps, y, x);
    assert IsCycle(deps, [x, y, x]);
  }
}
