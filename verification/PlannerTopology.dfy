/** When the assignments of any plan have a serial order that respects depends_on. */
module PlannerTopology {
  import opened Planner
  import opened PlannerOrder

  /** The assignment with this id depends on `x`. */
  predicate Needs(s: seq<Assignment>, x: string, id: string) {
    exists a :: a in s && a.id == id && x in a.dependsOn
  }

  /** Everything that is depended on is assigned. */
  predicate NeedsAssigned(s: seq<Assignment>) {
    forall a, x :: a in s && x in a.dependsOn ==> HasId(s, x)
  }

  /** A closed path along which each id is needed by the next. */
  predicate IsNeedCycle(s: seq<Assignment>, path: seq<string>) {
    |path| >= 2 && path[0] == path[|path| - 1] && forall i :: 0 <= i < |path| - 1 ==> Needs(s, path[i], path[i + 1])
  }

  ghost predicate NoNeedCycle(s: seq<Assignment>) {
    !exists path :: IsNeedCycle(s, path)
  }

  predicate IsOrderOf(order: seq<Assignment>, s: seq<Assignment>) {
    multiset(order) == multiset(s)
  }

  ghost predicate HasSerialOrder(s: seq<Assignment>) {
    exists order :: IsOrderOf(order, s) && Respects(order)
  }

  // ---------------------------------------------------------------- an order leaves no cycle

  lemma SameMembers(order: seq<Assignment>, s: seq<Assignment>, a: Assignment)
    requires IsOrderOf(order, s)
    ensures a in order <==> a in s
  {
    assert a in order <==> a in multiset(order);
    assert a in s <==> a in multiset(s);
  }

  /** The place of an id in the order. */
  predicate StandsAt(order: seq<Assignment>, id: string, i: nat) {
    i < |order| && order[i].id == id
  }

  lemma NeedComesBefore(s: seq<Assignment>, order: seq<Assignment>, x: string, id: string, i: nat)
    requires ProperIds(s) && IsOrderOf(order, s) && Respects(order) && Needs(s, x, id) && StandsAt(order, id, i)
    ensures Before(order, x, i)
  {
    var a :| a in s && a.id == id && x in a.dependsOn;
    SameMembers(order, s, order[i]);
  }

  /** Walking back along needs goes ever further to the front. */
  lemma {:induction false} NeedsGoForward(s: seq<Assignment>, order: seq<Assignment>, path: seq<string>, k: nat, i: nat)
    returns (j: nat)
    requires ProperIds(s) && IsOrderOf(order, s) && Respects(order)
    requires forall n :: 0 <= n < |path| - 1 ==> Needs(s, path[n], path[n + 1])
    requires k < |path| && StandsAt(order, path[|path| - 1], i)
    ensures StandsAt(order, path[|path| - 1 - k], j) && j + k <= i
  {
    if k == 0 {
      j := i;
    } else {
      var later := NeedsGoForward(s, order, path, k - 1, i);
      var n := |path| - 1 - k;
      assert Needs(s, path[n], path[n + 1]);
      NeedComesBefore(s, order, path[n], path[n + 1], later);
      j :| 0 <= j < later && j < |order| && order[j].id == path[n];
    }
  }

  /** Proper ids stay distinct in every order of the assignments. */
  lemma OrderIsProper(s: seq<Assignment>, order: seq<Assignment>, i: nat, j: nat)
    requires ProperIds(s) && IsOrderOf(order, s) && i < j < |order|
    ensures order[i].id != order[j].id
  {
    if order[i].id == order[j].id {
      SameMembers(order, s, order[i]);
      SameMembers(order, s, order[j]);
      TwiceInOrder(order, i, j);
      OnceInProper(s, order[i]);
    }
  }

  lemma TwiceInOrder(order: seq<Assignment>, i: nat, j: nat)
    requires i < j < |order| && order[i] == order[j]
    ensures multiset(order)[order[i]] >= 2
  {
    assert order == order[..j] + [order[j]] + order[j + 1..];
    assert order[i] in order[..j];
  }

  lemma {:induction false} OnceInProper(s: seq<Assignment>, a: Assignment)
    requires ProperIds(s)
    ensures multiset(s)[a] <= 1
  {
    if s != [] {
      var n := |s| - 1;
      OnceInProper(s[..n], a);
      assert s == s[..n] + [s[n]];
      if a == s[n] { assert a !in s[..n]; }
    }
  }

  lemma OrderLeavesNoCycle(s: seq<Assignment>, order: seq<Assignment>)
    requires ProperIds(s) && IsOrderOf(order, s) && Respects(order)
    ensures NeedsAssigned(s) && NoNeedCycle(s)
  {
    forall a, x | a in s && x in a.dependsOn ensures HasId(s, x) {
      SameMembers(order, s, a);
      var i :| 0 <= i < |order| && order[i] == a;
      assert Before(order, x, i);
      var j :| 0 <= j < i && j < |order| && order[j].id == x;
      SameMembers(order, s, order[j]);
    }
    forall path ensures !IsNeedCycle(s, path) { OrderHasNoCycle(s, order, path); }
  }

  lemma OrderHasNoCycle(s: seq<Assignment>, order: seq<Assignment>, path: seq<string>)
    requires ProperIds(s) && IsOrderOf(order, s) && Respects(order)
    ensures !IsNeedCycle(s, path)
  {
    if IsNeedCycle(s, path) {
      var m := |path| - 1;
      assert Needs(s, path[m - 1], path[m - 1 + 1]);
      var a :| a in s && a.id == path[m] && path[m - 1] in a.dependsOn;
      SameMembers(order, s, a);
      var i :| 0 <= i < |order| && order[i] == a;
      var j := NeedsGoForward(s, order, path, m, i);
      OrderIsProper(s, order, j, i);
    }
  }

  // ---------------------------------------------------------------- no cycle leaves an order

  lemma {:induction false} Pigeonhole(walk: seq<string>, ids: set<string>) returns (i: nat, j: nat)
    requires |walk| > |ids| && forall k :: 0 <= k < |walk| ==> walk[k] in ids
    ensures i < j < |walk| && walk[i] == walk[j]
  {
    var n := |walk| - 1;
    if k :| 0 <= k < n && walk[k] == walk[n] {
      i, j := k, n;
    } else {
      i, j := Pigeonhole(walk[..n], ids - {walk[n]});
    }
  }

  function IdsOf(s: seq<Assignment>): set<string> {
    set a | a in s :: a.id
  }

  lemma {:induction false} FewIds(s: seq<Assignment>)
    ensures |IdsOf(s)| <= |s|
  {
    if s != [] {
      var n := |s| - 1;
      FewIds(s[..n]);
      assert s == s[..n] + [s[n]];
      assert IdsOf(s) == IdsOf(s[..n]) + {s[n].id};
    }
  }

  /** All that the assignment depends on is placed. */
  predicate IsReady(a: Assignment, placed: seq<Assignment>) {
    forall x :: x in a.dependsOn ==> HasId(placed, x)
  }

  predicate LacksOneOf(s: seq<Assignment>, waiting: seq<Assignment>, a: Assignment) {
    exists b :: b in waiting && Needs(s, b.id, a.id)
  }

  /** Each of the waiting assignments lacks a waiting one. */
  predicate AllWait(s: seq<Assignment>, waiting: seq<Assignment>) {
    forall a {:trigger LacksOneOf(s, waiting, a)} :: a in waiting ==> LacksOneOf(s, waiting, a)
  }

  predicate IsWalk(s: seq<Assignment>, walk: seq<string>) {
    forall k :: 0 <= k < |walk| - 1 ==> Needs(s, walk[k], walk[k + 1])
  }

  predicate StaysIn(walk: seq<string>, ids: set<string>) {
    forall k :: 0 <= k < |walk| ==> walk[k] in ids
  }

  /** A walk back along needs, of any length. */
  lemma {:induction false} WalkBack(s: seq<Assignment>, waiting: seq<Assignment>, n: nat) returns (walk: seq<string>)
    requires waiting != [] && AllWait(s, waiting)
    ensures |walk| == n + 1 && StaysIn(walk, IdsOf(waiting)) && IsWalk(s, walk)
  {
    if n == 0 {
      assert waiting[0] in waiting;
      walk := [waiting[0].id];
    } else {
      var rest := WalkBack(s, waiting, n - 1);
      assert rest[0] in IdsOf(waiting);
      var a :| a in waiting && a.id == rest[0];
      var b := OneLacked(s, waiting, a);
      walk := [b.id] + rest;
    }
  }

  lemma OneLacked(s: seq<Assignment>, waiting: seq<Assignment>, a: Assignment) returns (b: Assignment)
    requires AllWait(s, waiting) && a in waiting
    ensures b in waiting && Needs(s, b.id, a.id)
  {
    assert LacksOneOf(s, waiting, a);
    b :| b in waiting && Needs(s, b.id, a.id);
  }

  lemma LoopOfWalk(s: seq<Assignment>, walk: seq<string>, i: nat, j: nat)
    requires IsWalk(s, walk) && i < j < |walk| && walk[i] == walk[j]
    ensures IsNeedCycle(s, walk[i..j + 1])
  {
    var path := walk[i..j + 1];
    forall k | 0 <= k < |path| - 1 ensures Needs(s, path[k], path[k + 1]) {
      assert Needs(s, walk[i + k], walk[i + k + 1]);
    }
  }

  lemma WaitingMakesCycle(s: seq<Assignment>, waiting: seq<Assignment>)
    requires waiting != [] && AllWait(s, waiting)
    ensures !NoNeedCycle(s)
  {
    var walk := WalkBack(s, waiting, |waiting|);
    FewIds(waiting);
    var i, j := Pigeonhole(walk, IdsOf(waiting));
    LoopOfWalk(s, walk, i, j);
  }

  /** `placed` and `waiting` are the assignments, split. */
  predicate Splits(s: seq<Assignment>, placed: seq<Assignment>, waiting: seq<Assignment>) {
    multiset(placed) + multiset(waiting) == multiset(s)
  }

  lemma SplitMembers(s: seq<Assignment>, placed: seq<Assignment>, waiting: seq<Assignment>, a: Assignment)
    requires Splits(s, placed, waiting)
    ensures a in s <==> a in placed || a in waiting
  {
    assert a in s <==> a in multiset(s);
    assert a in placed <==> a in multiset(placed);
    assert a in waiting <==> a in multiset(waiting);
  }

  /** Without a cycle some waiting assignment is ready. */
  lemma SomeIsReady(s: seq<Assignment>, placed: seq<Assignment>, waiting: seq<Assignment>) returns (i: nat)
    requires Splits(s, placed, waiting) && waiting != [] && NeedsAssigned(s) && NoNeedCycle(s)
    ensures i < |waiting| && IsReady(waiting[i], placed)
  {
    if k :| 0 <= k < |waiting| && IsReady(waiting[k], placed) {
      i := k;
    } else {
      i := 0;
      forall a | a in waiting ensures LacksOneOf(s, waiting, a) { LacksWaiting(s, placed, waiting, a); }
      WaitingMakesCycle(s, waiting);
    }
  }

  lemma LacksWaiting(s: seq<Assignment>, placed: seq<Assignment>, waiting: seq<Assignment>, a: Assignment)
    requires Splits(s, placed, waiting) && NeedsAssigned(s) && a in waiting && !IsReady(a, placed)
    ensures LacksOneOf(s, waiting, a)
  {
    var x :| x in a.dependsOn && !HasId(placed, x);
    SplitMembers(s, placed, waiting, a);
    assert HasId(s, x);
    var b :| b in s && b.id == x;
    SplitMembers(s, placed, waiting, b);
    assert Needs(s, b.id, a.id);
  }

  lemma ReadyExtends(placed: seq<Assignment>, a: Assignment)
    requires Respects(placed) && IsReady(a, placed)
    ensures Respects(placed + [a])
  {
    var order := placed + [a];
    forall i, x | 0 <= i < |order| && x in order[i].dependsOn ensures Before(order, x, i) {
      if i < |placed| {
        assert Before(placed, x, i);
        var j :| 0 <= j < i && j < |placed| && placed[j].id == x;
        assert order[j].id == x;
      } else {
        var b :| b in placed && b.id == x;
        var j :| 0 <= j < |placed| && placed[j] == b;
        assert order[j].id == x;
      }
    }
  }

  /** Placing ready assignments one by one ends with all of them. */
  lemma {:induction false} PlaceAll(s: seq<Assignment>, placed: seq<Assignment>, waiting: seq<Assignment>)
    returns (order: seq<Assignment>)
    requires Splits(s, placed, waiting) && NeedsAssigned(s) && NoNeedCycle(s) && Respects(placed)
    ensures IsOrderOf(order, s) && Respects(order)
    decreases |waiting|
  {
    if waiting == [] {
      order := placed;
    } else {
      var i := SomeIsReady(s, placed, waiting);
      var a, rest := waiting[i], waiting[..i] + waiting[i + 1..];
      assert waiting == waiting[..i] + [a] + waiting[i + 1..];
      ReadyExtends(placed, a);
      order := PlaceAll(s, placed + [a], rest);
    }
  }

  /** For any assignments with proper ids: there is an order of all of them that respects
      depends_on if and only if everything depended on is assigned and nothing depends on itself,
      directly or along a path. */
  lemma SerialOrderExactlyWhen(s: seq<Assignment>)
    requires ProperIds(s)
    ensures HasSerialOrder(s) <==> NeedsAssigned(s) && NoNeedCycle(s)
  {
    forall order | IsOrderOf(order, s) && Respects(order) ensures NeedsAssigned(s) && NoNeedCycle(s) {
      OrderLeavesNoCycle(s, order);
    }
    if NeedsAssigned(s) && NoNeedCycle(s) {
      var order := PlaceAll(s, [], s);
    }
  }

  // ---------------------------------------------------------------- model-written plans

  /** The edges that depends_on follows: conflict checks order nothing. */
  function OrderingEdges(deps: seq<Dependency>): seq<Dependency> {
    if deps == [] then []
    else
      var n := |deps| - 1;
      OrderingEdges(deps[..n]) + (if deps[n].kind == ConflictCheck then [] else [deps[n]])
  }

  lemma {:induction false} OrderingIs(deps: seq<Dependency>, d: Dependency)
    ensures d in OrderingEdges(deps) <==> d in deps && d.kind != ConflictCheck
  {
    if deps != [] {
      var n := |deps| - 1;
      OrderingIs(deps[..n], d);
      assert deps == deps[..n] + [deps[n]];
    }
  }

  lemma LinkIsFeed(deps: seq<Dependency>, x: string, id: string)
    ensures Linked(OrderingEdges(deps), x, id) <==> Feeds(deps, x, id)
  {
    forall d ensures d in OrderingEdges(deps) <==> d in deps && d.kind != ConflictCheck { OrderingIs(deps, d); }
  }

  /** What a synced assignment depends on: what it came with, and the sources of its edges. */
  predicate NeedsOrLinked(s: seq<Assignment>, deps: seq<Dependency>, x: string, id: string) {
    Needs(s, x, id) || Linked(OrderingEdges(deps), x, id)
  }

  /** A closed path each of whose steps is a dependency of the plan's own or an ordering edge. */
  predicate IsMixedCycle(s: seq<Assignment>, deps: seq<Dependency>, path: seq<string>) {
    && |path| >= 2 && path[0] == path[|path| - 1]
    && forall i :: 0 <= i < |path| - 1 ==> NeedsOrLinked(s, deps, path[i], path[i + 1])
  }

  ghost predicate NoMixedCycle(s: seq<Assignment>, deps: seq<Dependency>) {
    !exists path :: IsMixedCycle(s, deps, path)
  }

  lemma SyncedNeeds(s: seq<Assignment>, deps: seq<Dependency>, x: string, id: string)
    requires forall d :: d in deps ==> IsSane(s, d)
    ensures Needs(SyncedAll(s, deps), x, id) <==> NeedsOrLinked(s, deps, x, id)
  {
    LinkIsFeed(deps, x, id);
    var t := SyncedAll(s, deps);
    if Needs(t, x, id) {
      var b :| b in t && b.id == id && x in b.dependsOn;
      var i :| 0 <= i < |t| && t[i] == b;
      assert s[i] in s;
      DependsOnIsTheSources(s[i], deps, x);
    }
    if Needs(s, x, id) {
      var a :| a in s && a.id == id && x in a.dependsOn;
      SyncedAddsNeed(s, deps, a, x);
    } else if Feeds(deps, x, id) {
      var d :| d in deps && d.kind != ConflictCheck && d.target == id && d.source == x;
      var a :| a in s && a.id == id;
      SyncedAddsNeed(s, deps, a, x);
    }
  }

  lemma SyncedAddsNeed(s: seq<Assignment>, deps: seq<Dependency>, a: Assignment, x: string)
    requires a in s && (x in a.dependsOn || Feeds(deps, x, a.id))
    ensures Needs(SyncedAll(s, deps), x, a.id)
  {
    var t := SyncedAll(s, deps);
    var i :| 0 <= i < |s| && s[i] == a;
    DependsOnIsTheSources(a, deps, x);
    assert t[i] == Synced(a, deps) && t[i] in t;
  }

  lemma SyncedNeedsAssigned(s: seq<Assignment>, deps: seq<Dependency>)
    requires forall d :: d in deps ==> IsSane(s, d)
    ensures NeedsAssigned(SyncedAll(s, deps)) <==> NeedsAssigned(s)
  {
    var t := SyncedAll(s, deps);
    if NeedsAssigned(s) {
      forall b, x | b in t && x in b.dependsOn ensures HasId(t, x) {
        var i :| 0 <= i < |t| && t[i] == b;
        assert s[i] in s;
        SanitisedDependsOn(s, deps, s[i], x);
        SyncKeepsMembers(s, deps, x, DatabaseQuery);
      }
    }
    if NeedsAssigned(t) {
      forall a, x | a in s && x in a.dependsOn ensures HasId(s, x) {
        SyncedAddsNeed(s, deps, a, x);
        SyncKeepsMembers(s, deps, x, DatabaseQuery);
      }
    }
  }

  /** For any assignment list with proper ids, with a depends_on of its own or not, and any
      sanitised edges between them: the synced plan has a serial order that respects depends_on if
      and only if everything that the assignments came to depend on is assigned and no closed path
      runs along these dependencies and the edges other than conflict checks. */
  lemma SanitisedPlanIsSerialExactlyWhen(s: seq<Assignment>, deps: seq<Dependency>)
    requires ProperIds(s) && forall d :: d in deps ==> IsSane(s, d)
    ensures HasSerialOrder(SyncedAll(s, deps)) <==> NeedsAssigned(s) && NoMixedCycle(s, deps)
  {
    var t := SyncedAll(s, deps);
    forall i, j | 0 <= i < j < |t| ensures t[i].id != t[j].id { assert s[i].id != s[j].id; }
    SerialOrderExactlyWhen(t);
    SyncedNeedsAssigned(s, deps);
    forall x, id ensures Needs(t, x, id) <==> NeedsOrLinked(s, deps, x, id) { SyncedNeeds(s, deps, x, id); }
    forall path ensures IsNeedCycle(t, path) <==> IsMixedCycle(s, deps, path) {}
  }

  /** Assignments that come without a depends_on of their own leave the edges to decide. */
  lemma EdgesDecideWithoutNeeds(s: seq<Assignment>, deps: seq<Dependency>)
    requires forall a :: a in s ==> a.dependsOn == []
    ensures NeedsAssigned(s) && (NoMixedCycle(s, deps) <==> Acyclic(OrderingEdges(deps)))
  {
    forall x, id ensures NeedsOrLinked(s, deps, x, id) <==> Linked(OrderingEdges(deps), x, id) {}
    forall path ensures IsMixedCycle(s, deps, path) <==> IsCycle(OrderingEdges(deps), path) {}
  }

  /** The failing plan: two assignments that come depending on each other, and no edge at all. */
  lemma MutualNeedsHaveNoOrder(a: Assignment, b: Assignment)
    requires ProperIds([a, b]) && a.dependsOn == [b.id] && b.dependsOn == [a.id]
    ensures NeedsAssigned([a, b]) && Acyclic(OrderingEdges([])) && !HasSerialOrder(SyncedAll([a, b], []))
  {
    var s := [a, b];
    assert s[0] in s && s[1] in s;
    assert HasId(s, a.id) && HasId(s, b.id);
    SanitisedPlanIsSerialExactlyWhen(s, []);
    var path := [a.id, b.id, a.id];
    assert Needs(s, a.id, b.id) && Needs(s, b.id, a.id);
    assert IsMixedCycle(s, [], path);
    NoEdgesNoCycle(OrderingEdges([]));
  }
}
