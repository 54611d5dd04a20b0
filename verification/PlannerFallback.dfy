/** agent/plan/planner.py, _fallback_plan from the matches on: selection, the profile's filter,
    assignments, edges and depends_on in one. Out-of-scope queries and vague campaign queries,
    which end before this, are decided by keywords alone. */
module PlannerFallback {
  import opened Basics
  import opened Planner
  import opened PlannerOrder
  import opened PlannerSelection
  import StableSort

  const DAILY_REPORT := Capability("daily_report", Report, true)

  /** The plan without assignments for a realtime chat, the refusal when realtime supports nothing
      that was selected, or a plan with assignments. */
  datatype Fallback = RealtimeChat | NotSupported | Planned(assignments: seq<Assignment>, deps: seq<Dependency>)

  /** What the plan starts from: without a selection, the daily report. */
  function Starting(matches: seq<Match>, w: Words): seq<Capability> {
    var selected := Selected(matches, w);
    if selected == [] then [DAILY_REPORT] else selected
  }

  /** The supported capabilities that the plan is made for. */
  function Chosen(matches: seq<Match>, w: Words, realtime: bool): seq<Capability> {
    Supported(Starting(matches, w), realtime)
  }

  method PlanFallback(matches: seq<Match>, w: Words, realtime: bool, independent: bool) returns (plan: Fallback)
    ensures plan.RealtimeChat? <==> realtime && Selected(matches, w) == []
    ensures plan.NotSupported? <==> realtime && Selected(matches, w) != [] && Chosen(matches, w, realtime) == []
    ensures plan.Planned? ==>
              && NoDuplicates(plan.deps)
              && (forall d :: d in plan.deps <==> !independent && IsEdge(plan.assignments, d))
              && plan.assignments == SyncedAll(AssignmentsFor(FirstPerAgent(Chosen(matches, w, realtime))), plan.deps)
  {
    var selected := SelectCapabilities(matches, w);
    if selected == [] {
      if realtime { return RealtimeChat; }
      selected := [DAILY_REPORT];
    }
    var supported: seq<Capability> := [];
    if realtime {
      for i := 0 to |selected|
        invariant supported == Supported(selected[..i], true)
      {
        assert selected[..i + 1][..i] == selected[..i];
        if selected[i].realtime { supported := supported + [selected[i]]; }
      }
      assert selected[..|selected|] == selected;
      if supported == [] { return NotSupported; }
    }
    AllSupported(selected);
    var assignments, deps := PlanAssignments(selected, realtime, independent);
    plan := Planned(assignments, deps);
  }

  lemma {:induction false} AllSupported(cs: seq<Capability>)
    ensures Supported(cs, false) == cs
  {
    if cs != [] { AllSupported(cs[..|cs| - 1]); }
  }

  // ---------------------------------------------------------------- from the matches to a serial plan

  predicate AreBuiltIn(cs: seq<Capability>) {
    forall c :: c in cs ==> IsBuiltIn(c)
  }

  lemma {:induction false} ScoredAreBuiltIn(matches: seq<Match>)
    requires forall i :: 0 <= i < |matches| ==> IsBuiltIn(matches[i].capability)
    ensures AreBuiltIn(Scored(matches))
  {
    if matches != [] { ScoredAreBuiltIn(matches[..|matches| - 1]); }
  }

  lemma SortedAreBuiltIn(cs: seq<Capability>)
    requires AreBuiltIn(cs)
    ensures AreBuiltIn(SortedByRank(cs))
  {
    StableSort.SortContents(RankOf, cs);
    forall c | c in SortedByRank(cs) ensures IsBuiltIn(c) {
      assert c in multiset(SortedByRank(cs));
      assert c in cs;
    }
  }

  lemma StartingAreBuiltIn(matches: seq<Match>, w: Words)
    requires forall i :: 0 <= i < |matches| ==> IsBuiltIn(matches[i].capability)
    ensures AreBuiltIn(Starting(matches, w)) && Starting(matches, w) != []
  {
    ScoredAreBuiltIn(matches);
    var g := Gathered(matches, w);
    assert AreBuiltIn(g);
    SortedAreBuiltIn(g);
    assert forall s: seq<Capability> :: AreBuiltIn(s) ==> AreBuiltIn(FirstFour(s));
  }

  /** One assignment for each chosen agent, and for no other. */
  predicate PlansFor(assignments: seq<Assignment>, chosen: seq<Capability>) {
    && (forall i, j :: 0 <= i < j < |assignments| ==> assignments[i].agent != assignments[j].agent)
    && (forall c :: c in chosen ==> Present(assignments, c.agent))
    && (forall a :: a in assignments ==> HasAgent(chosen, a.agent))
  }

  lemma AssignmentsPlanFor(chosen: seq<Capability>, deps: seq<Dependency>)
    ensures PlansFor(SyncedAll(AssignmentsFor(FirstPerAgent(chosen)), deps), chosen)
  {
    var cs := FirstPerAgent(chosen);
    var plan := SyncedAll(AssignmentsFor(cs), deps);
    FirstPerAgentDiffers(chosen);
    forall c | c in chosen ensures Present(plan, c.agent) {
      FirstPerAgentKeeps(chosen, c.agent);
      assert HasAgent(chosen, c.agent);
      var first :| first in cs && first.agent == c.agent;
      var i :| 0 <= i < |cs| && cs[i] == first;
      assert plan[i] in plan && plan[i].agent == c.agent;
    }
    forall a | a in plan ensures HasAgent(chosen, a.agent) {
      var i :| 0 <= i < |plan| && plan[i] == a;
      assert cs[i] in cs;
      FirstPerAgentKeeps(chosen, a.agent);
      assert HasAgent(cs, a.agent);
    }
  }

  /** From any matches in the built-in registry, any words, either profile, separate views or not:
      the fallback plan has exactly one assignment for each supported selected agent, no cycle, a
      serial order that respects depends_on, and depends_on is exactly the sources of the edges. */
  lemma FallbackPlanIsSerial(matches: seq<Match>, w: Words, realtime: bool, independent: bool, deps: seq<Dependency>)
    returns (order: seq<Assignment>)
    requires forall i :: 0 <= i < |matches| ==> IsBuiltIn(matches[i].capability)
    requires forall d :: d in deps <==>
      !independent && IsEdge(AssignmentsFor(FirstPerAgent(Chosen(matches, w, realtime))), d)
    ensures var chosen := Chosen(matches, w, realtime);
      var plan := SyncedAll(AssignmentsFor(FirstPerAgent(chosen)), deps);
      && PlansFor(plan, chosen)
      && multiset(order) == multiset(plan) && Respects(order) && Acyclic(deps)
      && (forall i, x :: 0 <= i < |plan| ==> (x in plan[i].dependsOn <==> Linked(deps, x, plan[i].id)))
  {
    var chosen := Chosen(matches, w, realtime);
    StartingAreBuiltIn(matches, w);
    FirstPerAgentDiffers(chosen);
    forall c | c in FirstPerAgent(chosen) ensures IsBuiltIn(c) {
      FirstPerAgentKeeps(chosen, c.agent);
      SupportedAre(Starting(matches, w), realtime, c);
    }
    AssignmentsPlanFor(chosen, deps);
    order := DeterministicPlanIsSerial(FirstPerAgent(chosen), deps, independent);
  }

  // ---------------------------------------------------------------- without a match

  lemma OneAlone(c: Capability)
    ensures FirstPerAgent([c]) == [c]
  {
    assert [c][..0] == [] && FirstPerAgent([]) == [];
  }

  lemma FirstReport(c: Capability)
    requires c.agent == Report
    ensures AssignmentsFor([c]) == [Assignment("a1_report", Report, [], [])]
  {
    assert Digits(1) == "1";
    assert "a" + "1" + "_" + "report" == "a1_report";
  }

  /** Without any match the plan is one assignment, of the report agent, and has no edges. */
  lemma DefaultPlanIsReport(w: Words, deps: seq<Dependency>)
    requires forall d :: d in deps ==> IsEdge(AssignmentsFor(FirstPerAgent(Chosen([], w, false))), d)
    ensures deps == []
    ensures SyncedAll(AssignmentsFor(FirstPerAgent(Chosen([], w, false))), deps)
         == [Assignment("a1_report", Report, [], [])]
  {
    AllSupported([DAILY_REPORT]);
    OneAlone(DAILY_REPORT);
    FirstReport(DAILY_REPORT);
    var plan := [Assignment("a1_report", Report, [], [])];
    if deps != [] {
      assert deps[0] in deps && IsEdge(plan, deps[0]);
      NoEdgeOfOne(plan, deps[0]);
    }
    NothingToSync(plan[0]);
  }

  lemma NothingToSync(a: Assignment)
    requires a.dependsOn == [] && a.requirements == []
    ensures SyncedAll([a], []) == [a]
  {
    assert Sources([], a.id) == [] && Names([]) == [];
    assert a.dependsOn + Names([]) == [] && a.requirements + [] == [];
  }

  lemma NoEdgeOfOne(plan: seq<Assignment>, d: Dependency)
    requires |plan| == 1 && plan[0].agent == Report
    ensures !IsEdge(plan, d)
  {
    assert plan[1..] == [];
    forall agent | agent != Report ensures First(plan, agent) == "" {
      assert First(plan[1..], agent) == "";
    }
  }
}
