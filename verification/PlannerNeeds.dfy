/** Which assignments of a deterministic plan wait for which, by their agents alone. */
module PlannerNeeds {
  import opened Planner
  import opened PlannerOrder

  /** The agent `a` waits for the agent `b`: inventory and campaigns for the product analysis, all
      others for a check or query of the data, campaigns for what inventory may add, and the report
      for what anyone may add. */
  predicate Waits(a: Agent, b: Agent, kind: DependencyType) {
    || (kind == Blocking && b == ProductAnalysis && (a == Inventory || a == Campaign))
    || (kind == Blocking && (b == DataQuality || b == DatabaseQuery) && a != b)
    || (kind == OptionalContext && b == Inventory && a == Campaign)
    || (kind == OptionalContext && a == Report && b != Report)
  }

  predicate OneEach(s: seq<Assignment>) {
    ProperIds(s) && forall i, j :: 0 <= i < j < |s| ==> s[i].agent != s[j].agent
  }

  lemma IdNames(s: seq<Assignment>, i: nat, agent: Agent)
    requires ProperIds(s) && i < |s|
    ensures HasId(s, s[i].id) && (HasIdOf(s, s[i].id, agent) <==> s[i].agent == agent)
  {
    assert s[i] in s;
    if HasIdOf(s, s[i].id, agent) {
      var a :| a in s && a.id == s[i].id && a.agent == agent;
      var k :| 0 <= k < |s| && s[k] == a;
    }
  }

  lemma FirstNames(s: seq<Assignment>, j: nat, agent: Agent)
    requires OneEach(s) && j < |s|
    ensures First(s, agent) == s[j].id <==> s[j].agent == agent
    ensures s[j].agent == agent ==> Present(s, agent)
  {
    var i := FirstIs(s, agent);
    assert s[j] in s;
  }

  /** Between two assignments there is an edge exactly when their agents wait for each other so. */
  lemma EdgeExactlyWhen(s: seq<Assignment>, i: nat, j: nat, kind: DependencyType)
    requires OneEach(s) && i < |s| && j < |s| && i != j
    ensures IsEdge(s, Dependency(s[j].id, s[i].id, kind)) <==> Waits(s[i].agent, s[j].agent, kind)
  {
    IdNames(s, i, Inventory);
    IdNames(s, i, Campaign);
    IdNames(s, j, Report);
    FirstNames(s, j, ProductAnalysis);
    FirstNames(s, j, Inventory);
    FirstNames(s, j, DataQuality);
    FirstNames(s, j, DatabaseQuery);
    FirstNames(s, i, Report);
    AreDistinct(s, i, j);
  }

  lemma AreDistinct(s: seq<Assignment>, i: nat, j: nat)
    requires OneEach(s) && i < |s| && j < |s| && i != j
    ensures s[i].id != s[j].id && s[i].agent != s[j].agent && s[j].id != "" && |s| > 1
    ensures s[i].agent == Report ==> Present(s, Report)
  {
    if i < j { assert s[i].id != s[j].id; } else { assert s[j].id != s[i].id; }
    assert s[i] in s;
  }

  /** In every deterministic plan over the built-in capabilities, unless separate views are asked for:
      an assignment requires another one, and depends on it, exactly when its agent waits for the
      other's. */
  lemma PlanWaitsExactlyWhen(cs: seq<Capability>, deps: seq<Dependency>, independent: bool, i: nat, j: nat,
      kind: DependencyType)
    requires DistinctAgents(cs) && i < |cs| && j < |cs| && i != j
    requires forall d :: d in deps <==> !independent && IsEdge(AssignmentsFor(cs), d)
    ensures var plan := SyncedAll(AssignmentsFor(cs), deps);
      && ((kind, plan[j].id) in plan[i].requirements <==> !independent && Waits(cs[i].agent, cs[j].agent, kind))
      && (plan[j].id in plan[i].dependsOn
          <==> !independent && (Waits(cs[i].agent, cs[j].agent, Blocking)
                                || Waits(cs[i].agent, cs[j].agent, OptionalContext)))
  {
    var s := AssignmentsFor(cs);
    AssignmentIdsAreProper(cs);
    assert OneEach(s);
    RequirementsAreTheEdges(s[i], deps, kind, s[j].id);
    DraftGetsItsSources(cs, deps, independent, i, s[j].id);
    EdgeExactlyWhen(s, i, j, kind);
    EdgeExactlyWhen(s, i, j, Blocking);
    EdgeExactlyWhen(s, i, j, OptionalContext);
    LinkedBetween(s, deps, independent, i, j);
  }

  lemma LinkedBetween(s: seq<Assignment>, deps: seq<Dependency>, independent: bool, i: nat, j: nat)
    requires i < |s| && j < |s| && forall d :: d in deps <==> !independent && IsEdge(s, d)
    ensures Linked(deps, s[j].id, s[i].id)
       <==> !independent && (IsEdge(s, Dependency(s[j].id, s[i].id, Blocking))
                             || IsEdge(s, Dependency(s[j].id, s[i].id, OptionalContext)))
  {
    var blocking, optional := Dependency(s[j].id, s[i].id, Blocking), Dependency(s[j].id, s[i].id, OptionalContext);
    if Linked(deps, s[j].id, s[i].id) {
      var d :| d in deps && d.source == s[j].id && d.target == s[i].id;
      assert d == blocking || d == optional;
    }
    if blocking in deps || optional in deps { assert Linked(deps, s[j].id, s[i].id); }
  }
}
