/** Any sequence of guarded calls, refused ones included: what the counters add up to, and how
    the verdicts of guard and budget compare. */
module GuardRuns {
  import opened Guards

  datatype Timed = Timed(call: Call, elapsed: real)

  function GuardAfter(l: GuardLimits, calls: seq<Timed>): Guard {
    if calls == [] then NEW_GUARD
    else
      var n := |calls| - 1;
      GuardStep(l, GuardAfter(l, calls[..n]), calls[n].call, calls[n].elapsed).0
  }

  function GuardVerdict(l: GuardLimits, calls: seq<Timed>): Verdict
    requires calls != []
  {
    var n := |calls| - 1;
    GuardStep(l, GuardAfter(l, calls[..n]), calls[n].call, calls[n].elapsed).1
  }

  function BudgetAfter(l: Limits, network: bool, calls: seq<Timed>): Budget {
    if calls == [] then Budget(0, 0, 0)
    else
      var n := |calls| - 1;
      BudgetStep(l, network, BudgetAfter(l, network, calls[..n]), calls[n].call, calls[n].elapsed).0
  }

  function BudgetVerdict(l: Limits, network: bool, calls: seq<Timed>): Verdict
    requires calls != []
  {
    var n := |calls| - 1;
    BudgetStep(l, network, BudgetAfter(l, network, calls[..n]), calls[n].call, calls[n].elapsed).1
  }

  // ---------------------------------------------------------------- sums

  ghost function SumOver(m: map<string, nat>, keys: set<string>): nat
    requires keys <= m.Keys
  {
    if keys == {} then 0
    else
      var k :| k in keys;
      m[k] + SumOver(m, keys - {k})
  }

  ghost function Sum(m: map<string, nat>): nat {
    SumOver(m, m.Keys)
  }

  lemma {:induction false} SumWithout(m: map<string, nat>, keys: set<string>, k: string)
    requires keys <= m.Keys && k in keys
    ensures SumOver(m, keys) == m[k] + SumOver(m, keys - {k})
  {
    var j :| j in keys && SumOver(m, keys) == m[j] + SumOver(m, keys - {j});
    if j != k {
      SumWithout(m, keys - {j}, k);
      SumWithout(m, keys - {k}, j);
      assert keys - {j} - {k} == keys - {k} - {j};
    }
  }

  lemma {:induction false} SumReadsOnly(m: map<string, nat>, t: map<string, nat>, keys: set<string>)
    requires keys <= m.Keys && keys <= t.Keys && forall k :: k in keys ==> m[k] == t[k]
    ensures SumOver(m, keys) == SumOver(t, keys)
  {
    if keys != {} {
      var k :| k in keys;
      SumWithout(m, keys, k);
      SumWithout(t, keys, k);
      SumReadsOnly(m, t, keys - {k});
    }
  }

  lemma CountingAddsOne(m: map<string, nat>, k: string)
    ensures Sum(Counted(m, k)) == Sum(m) + 1
  {
    var t := Counted(m, k);
    var others := m.Keys - {k};
    SumWithout(t, t.Keys, k);
    assert t.Keys - {k} == others;
    SumReadsOnly(m, t, others);
    if k in m {
      SumWithout(m, m.Keys, k);
    } else {
      assert others == m.Keys;
    }
  }

  /** After any calls, accepted or refused, the totals are the sums of the counts by name, and
      for tools also by name and arguments. */
  lemma {:induction false} TotalsAreSums(l: GuardLimits, calls: seq<Timed>)
    ensures var g := GuardAfter(l, calls);
      && g.toolCalls == Sum(g.toolCounts) == Sum(g.toolArgsCounts)
      && g.subagentCalls == Sum(g.subagentCounts)
  {
    if calls != [] {
      var n := |calls| - 1;
      TotalsAreSums(l, calls[..n]);
      var g := GuardAfter(l, calls[..n]);
      match calls[n].call
      case Model =>
      case Tool(name, args) =>
        CountingAddsOne(g.toolCounts, name);
        CountingAddsOne(g.toolArgsCounts, ArgsKey(name, args));
      case Subagent(name) => CountingAddsOne(g.subagentCounts, name);
    }
  }

  // ---------------------------------------------------------------- what the guard tells

  /** Model calls are always counted, other calls if they are made within the time. */
  predicate IsCounted(l: Limits, t: Timed) {
    t.call.Model? || t.elapsed <= l.maxSeconds
  }

  /** How many of the calls are counted and of this sort. */
  function HowMany(l: Limits, calls: seq<Timed>, sort: Call -> bool): nat {
    if calls == [] then 0
    else
      var n := |calls| - 1;
      HowMany(l, calls[..n], sort) + if IsCounted(l, calls[n]) && sort(calls[n].call) then 1 else 0
  }

  function LikeIn(c: Call): Call -> bool {
    (d: Call) => (c.Model? && d.Model?) || (c.Tool? && d.Tool?) || (c.Subagent? && d.Subagent?)
  }

  /** Tools are told apart by name and arguments written one behind the other, subagents by name. */
  function SameAs(c: Call): Call -> bool {
    (d: Call) =>
      || (c.Tool? && d.Tool? && c.name + ":" + c.args == d.name + ":" + d.args)
      || (c.Subagent? && d.Subagent? && c.name == d.name)
  }

  function Get(m: map<string, nat>, key: string): nat {
    if key in m then m[key] else 0
  }

  lemma {:induction false} CountersAre(l: GuardLimits, calls: seq<Timed>, c: Call)
    ensures var g := GuardAfter(l, calls);
      && CallsOf(g, c) == HowMany(l.shared, calls, LikeIn(c))
      && (c.Tool? ==> Get(g.toolArgsCounts, c.name + ":" + c.args) == HowMany(l.shared, calls, SameAs(c)))
      && (c.Subagent? ==> Get(g.subagentCounts, c.name) == HowMany(l.shared, calls, SameAs(c)))
  {
    if calls != [] { CountersAre(l, calls[..|calls| - 1], c); }
  }

  /** What the guard says of the last call, whatever calls came before it. */
  lemma VerdictIs(l: GuardLimits, calls: seq<Timed>)
    requires calls != []
    ensures var n := |calls| - 1; var c := calls[n].call; var v := GuardVerdict(l, calls);
      var made, same := HowMany(l.shared, calls[..n], LikeIn(c)), HowMany(l.shared, calls[..n], SameAs(c));
      if !IsCounted(l.shared, calls[n]) then v == TimedOut
      else
        match c
        case Model => v == if made >= l.shared.maxModelCalls then OverBudget else Accepted
        case Tool(_, _) =>
          v == if made >= l.shared.maxToolCalls then OverBudget
               else if same >= l.sameToolSameArgs then Repeated else Accepted
        case Subagent(_) =>
          v == if made >= l.shared.maxSubagentCalls then OverBudget
               else if same >= l.sameSubagent then Repeated else Accepted
  {
    var n := |calls| - 1;
    CountersAre(l, calls[..n], calls[n].call);
  }

  // ---------------------------------------------------------------- guard and budget

  function Capped(n: nat, limit: int): nat {
    if limit <= 0 then 0 else if n < limit then n else limit
  }

  /** The budget's counters are the guard's, stopped at the limits. */
  predicate InStep(l: Limits, g: Guard, b: Budget) {
    && b.modelCalls == Capped(g.modelCalls, l.maxModelCalls)
    && b.toolCalls == Capped(g.toolCalls, l.maxToolCalls)
    && b.subagentCalls == Capped(g.subagentCalls, l.maxSubagentCalls)
  }

  /** Model calls are made within the time, since the guard does not check it there. */
  predicate ModelCallsInTime(l: Limits, calls: seq<Timed>) {
    forall i :: 0 <= i < |calls| && calls[i].call.Model? ==> calls[i].elapsed <= l.maxSeconds
  }

  lemma {:induction false} StayInStep(l: GuardLimits, calls: seq<Timed>)
    requires ModelCallsInTime(l.shared, calls)
    ensures InStep(l.shared, GuardAfter(l, calls), BudgetAfter(l.shared, true, calls))
  {
    if calls != [] {
      StayInStep(l, calls[..|calls| - 1]);
    }
  }

  /** For equal limits, the same clock and network search allowed, whatever calls came before:
      the guard accepts a call exactly when the budget does and the call is within its repeat
      limit; both refuse for time together. */
  lemma GuardAcceptsExactlyWhen(l: GuardLimits, calls: seq<Timed>)
    requires calls != [] && ModelCallsInTime(l.shared, calls)
    ensures var n := |calls| - 1; var c := calls[n].call; var g := GuardAfter(l, calls[..n]);
      && (GuardVerdict(l, calls) == Accepted
          <==> (BudgetVerdict(l.shared, true, calls) == Accepted && Repeats(g, c) <= RepeatLimit(l, c)))
      && (GuardVerdict(l, calls) == TimedOut <==> BudgetVerdict(l.shared, true, calls) == TimedOut)
      && (GuardVerdict(l, calls) == OverBudget <==> BudgetVerdict(l.shared, true, calls) == OverBudget)
  {
    StayInStep(l, calls[..|calls| - 1]);
  }

  // ---------------------------------------------------------------- without network search

  const SEARCH := "internet_search"

  /** A network search that is made within the time. */
  predicate IsTimelySearch(l: Limits, call: Timed) {
    call.call.Tool? && call.call.name == SEARCH && call.elapsed <= l.maxSeconds
  }

  /** Without network search allowed too, a budget that meets no timely search is the same. */
  lemma {:induction false} NetworkMattersOnlyToSearches(l: Limits, calls: seq<Timed>)
    requires forall i :: 0 <= i < |calls| ==> !IsTimelySearch(l, calls[i])
    ensures BudgetAfter(l, false, calls) == BudgetAfter(l, true, calls)
    ensures calls != [] ==> BudgetVerdict(l, false, calls) == BudgetVerdict(l, true, calls)
  {
    if calls != [] {
      NetworkMattersOnlyToSearches(l, calls[..|calls| - 1]);
      assert !IsTimelySearch(l, calls[|calls| - 1]);
    }
  }

  /** The guard has no tool call left. */
  predicate IsSpent(l: GuardLimits, g: Guard) {
    g.toolCalls >= l.shared.maxToolCalls
  }

  predicate SearchesFindItSpent(l: GuardLimits, calls: seq<Timed>) {
    forall i :: 0 <= i < |calls| && IsTimelySearch(l.shared, calls[i]) ==> IsSpent(l, GuardAfter(l, calls[..i]))
  }

  /** After every prefix of the calls the budget's counters are the guard's, stopped at the limits. */
  predicate AlwaysInStep(l: GuardLimits, calls: seq<Timed>) {
    forall n :: 0 <= n <= |calls|
      ==> InStep(l.shared, GuardAfter(l, calls[..n]), BudgetAfter(l.shared, false, calls[..n]))
  }

  lemma AfterOneMore(l: GuardLimits, calls: seq<Timed>, i: nat)
    requires i < |calls|
    ensures GuardAfter(l, calls[..i + 1]) == GuardStep(l, GuardAfter(l, calls[..i]), calls[i].call, calls[i].elapsed).0
    ensures BudgetAfter(l.shared, false, calls[..i + 1])
         == BudgetStep(l.shared, false, BudgetAfter(l.shared, false, calls[..i]), calls[i].call, calls[i].elapsed).0
  {
    assert calls[..i + 1][..i] == calls[..i];
  }

  /** One call keeps the counters in step exactly unless it is a timely search that the guard
      still has a tool call left for. */
  lemma StepStaysInStep(l: GuardLimits, g: Guard, b: Budget, call: Timed)
    requires InStep(l.shared, g, b) && (call.call.Model? ==> call.elapsed <= l.shared.maxSeconds)
    ensures InStep(l.shared, GuardStep(l, g, call.call, call.elapsed).0,
      BudgetStep(l.shared, false, b, call.call, call.elapsed).0)
       <==> (IsTimelySearch(l.shared, call) ==> IsSpent(l, g))
  {}

  lemma {:induction false} InStepUpTo(l: GuardLimits, calls: seq<Timed>, n: nat)
    requires ModelCallsInTime(l.shared, calls) && SearchesFindItSpent(l, calls) && n <= |calls|
    ensures InStep(l.shared, GuardAfter(l, calls[..n]), BudgetAfter(l.shared, false, calls[..n]))
  {
    if n > 0 {
      InStepUpTo(l, calls, n - 1);
      AfterOneMore(l, calls, n - 1);
      StepStaysInStep(l, GuardAfter(l, calls[..n - 1]), BudgetAfter(l.shared, false, calls[..n - 1]), calls[n - 1]);
    }
  }

  /** Without network search, over every run: guard and budget count alike exactly when every
      timely search finds the guard's tool calls spent already. */
  lemma CountersAgreeExactlyWhen(l: GuardLimits, calls: seq<Timed>)
    requires ModelCallsInTime(l.shared, calls)
    ensures AlwaysInStep(l, calls) <==> SearchesFindItSpent(l, calls)
  {
    if SearchesFindItSpent(l, calls) {
      forall n | 0 <= n <= |calls|
        ensures InStep(l.shared, GuardAfter(l, calls[..n]), BudgetAfter(l.shared, false, calls[..n])) {
        InStepUpTo(l, calls, n);
      }
    } else {
      var i :| 0 <= i < |calls| && IsTimelySearch(l.shared, calls[i]) && !IsSpent(l, GuardAfter(l, calls[..i]));
      UnspentSearchParts(l, calls, i);
    }
  }

  lemma UnspentSearchParts(l: GuardLimits, calls: seq<Timed>, i: nat)
    requires ModelCallsInTime(l.shared, calls) && i < |calls|
    requires IsTimelySearch(l.shared, calls[i]) && !IsSpent(l, GuardAfter(l, calls[..i]))
    ensures !AlwaysInStep(l, calls)
  {
    var g, b := GuardAfter(l, calls[..i]), BudgetAfter(l.shared, false, calls[..i]);
    if InStep(l.shared, g, b) {
      AfterOneMore(l, calls, i);
      StepStaysInStep(l, g, b, calls[i]);
    }
  }

  // Verdicts.

  /** The guard accepts the i-th call exactly when the budget does and it is within its repeat
      limit. */
  predicate AgreeAt(l: GuardLimits, calls: seq<Timed>, i: nat)
    requires i < |calls|
  {
    GuardVerdict(l, calls[..i + 1]) == Accepted
    <==> (BudgetVerdict(l.shared, false, calls[..i + 1]) == Accepted
          && Repeats(GuardAfter(l, calls[..i]), calls[i].call) <= RepeatLimit(l, calls[i].call))
  }

  predicate AgreeThroughout(l: GuardLimits, calls: seq<Timed>) {
    forall i :: 0 <= i < |calls| ==> AgreeAt(l, calls, i)
  }

  predicate AcceptsSearchAt(l: GuardLimits, calls: seq<Timed>, i: nat)
    requires i < |calls|
  {
    IsTimelySearch(l.shared, calls[i]) && GuardVerdict(l, calls[..i + 1]) == Accepted
  }

  predicate AcceptsNoSearch(l: GuardLimits, calls: seq<Timed>) {
    forall i :: 0 <= i < |calls| ==> !AcceptsSearchAt(l, calls, i)
  }

  /** No other tool's calls share keys with the search's. */
  predicate SearchKeysAreItsOwn(calls: seq<Timed>) {
    forall i :: 0 <= i < |calls| && calls[i].call.Tool? && calls[i].call.name != SEARCH
      ==> !(SEARCH + ":" <= calls[i].call.name)
  }

  lemma KeyOfSearch(name: string, args: string, searched: string)
    requires ArgsKey(name, args) == ArgsKey(SEARCH, searched) && (name != SEARCH ==> !(SEARCH + ":" <= name))
    ensures name == SEARCH
  {
    var k := ArgsKey(SEARCH, searched);
    assert k[|SEARCH|] == ':' && k[..|SEARCH|] == SEARCH;
    assert k[|name|] == ':' && k[..|name|] == name;
    if |name| < |SEARCH| {
      assert SEARCH[|name|] == ':';
      NoColonInSearch(|name|);
    } else if |name| > |SEARCH| {
      LongKeyOfSearch(name, args, searched);
    }
  }

  lemma LongKeyOfSearch(name: string, args: string, searched: string)
    requires ArgsKey(name, args) == ArgsKey(SEARCH, searched) && |name| > |SEARCH|
    ensures SEARCH + ":" <= name
  {
    var k := ArgsKey(SEARCH, searched);
    assert name == k[..|name|] && (SEARCH + ":") == k[..|SEARCH| + 1];
  }

  lemma NoColonInSearch(i: nat)
    requires i < |SEARCH|
    ensures SEARCH[i] != ':'
  {}

  /** While the guard has tool calls left and accepts no search, it has counted none, if its
      repeat limit lets a first call through at all. */
  lemma {:induction false} NoSearchCounted(l: GuardLimits, calls: seq<Timed>, n: nat, args: string)
    requires SearchKeysAreItsOwn(calls) && AcceptsNoSearch(l, calls) && n <= |calls| && l.sameToolSameArgs >= 1
    requires !IsSpent(l, GuardAfter(l, calls[..n]))
    ensures ArgsKey(SEARCH, args) !in GuardAfter(l, calls[..n]).toolArgsCounts
  {
    if n > 0 {
      var g, call := GuardAfter(l, calls[..n - 1]), calls[n - 1];
      AfterOneMore(l, calls, n - 1);
      NoSearchCounted(l, calls, n - 1, args);
      if call.call.Tool? && ArgsKey(call.call.name, call.call.args) == ArgsKey(SEARCH, args) {
        KeyOfSearch(call.call.name, call.call.args, args);
        assert calls[..n][..n - 1] == calls[..n - 1];
        assert !AcceptsSearchAt(l, calls, n - 1);
      }
    }
  }

  lemma NoSearchMeansSpent(l: GuardLimits, calls: seq<Timed>)
    requires SearchKeysAreItsOwn(calls) && AcceptsNoSearch(l, calls) && l.sameToolSameArgs >= 1
    ensures SearchesFindItSpent(l, calls)
  {
    forall i | 0 <= i < |calls| && IsTimelySearch(l.shared, calls[i]) ensures IsSpent(l, GuardAfter(l, calls[..i])) {
      if !IsSpent(l, GuardAfter(l, calls[..i])) {
        NoSearchCounted(l, calls, i, calls[i].call.args);
        FirstSearchIsAccepted(l, calls, i);
      }
    }
  }

  lemma FirstSearchIsAccepted(l: GuardLimits, calls: seq<Timed>, i: nat)
    requires i < |calls| && IsTimelySearch(l.shared, calls[i]) && !IsSpent(l, GuardAfter(l, calls[..i]))
    requires ArgsKey(SEARCH, calls[i].call.args) !in GuardAfter(l, calls[..i]).toolArgsCounts && l.sameToolSameArgs >= 1
    ensures AcceptsSearchAt(l, calls, i)
  {
    assert calls[..i + 1][..i] == calls[..i];
  }

  /** Counters of model and subagent calls never part. */
  lemma {:induction false} OthersInStep(l: GuardLimits, calls: seq<Timed>)
    requires ModelCallsInTime(l.shared, calls)
    ensures var g, b := GuardAfter(l, calls), BudgetAfter(l.shared, false, calls);
      b.modelCalls == Capped(g.modelCalls, l.shared.maxModelCalls)
        && b.subagentCalls == Capped(g.subagentCalls, l.shared.maxSubagentCalls)
  {
    if calls != [] { OthersInStep(l, calls[..|calls| - 1]); }
  }

  lemma AgreeWhenInStep(l: GuardLimits, calls: seq<Timed>, i: nat)
    requires ModelCallsInTime(l.shared, calls) && i < |calls| && !AcceptsSearchAt(l, calls, i)
    requires calls[i].call.Tool? && l.sameToolSameArgs >= 1 ==>
               InStep(l.shared, GuardAfter(l, calls[..i]), BudgetAfter(l.shared, false, calls[..i]))
    ensures AgreeAt(l, calls, i)
  {
    assert calls[..i + 1][..i] == calls[..i];
    OthersInStep(l, calls[..i]);
  }

  /** The exact theorem without network search: over every run, guard and budget accept the same
      calls up to the repeat limits exactly when the guard accepts no timely search. */
  lemma VerdictsAgreeExactlyWhen(l: GuardLimits, calls: seq<Timed>)
    requires ModelCallsInTime(l.shared, calls) && SearchKeysAreItsOwn(calls)
    ensures AgreeThroughout(l, calls) <==> AcceptsNoSearch(l, calls)
  {
    if AcceptsNoSearch(l, calls) {
      if l.sameToolSameArgs >= 1 { NoSearchMeansSpent(l, calls); }
      forall i | 0 <= i < |calls| ensures AgreeAt(l, calls, i) {
        if l.sameToolSameArgs >= 1 { InStepUpTo(l, calls, i); }
        assert !AcceptsSearchAt(l, calls, i);
        AgreeWhenInStep(l, calls, i);
      }
    } else {
      var i :| 0 <= i < |calls| && AcceptsSearchAt(l, calls, i);
      assert calls[..i + 1][..i] == calls[..i];
      assert !AgreeAt(l, calls, i);
    }
  }

  /** The failing run: a search that the guard accepts and the budget refuses, and then, with one
      tool call allowed, a call that the guard refuses and the budget accepts. */
  lemma NetworkSearchSeparatesThem(args: string) returns (l: GuardLimits, calls: seq<Timed>)
    ensures |calls| == 2 && calls[0].call == Tool(SEARCH, args) && l.shared.maxToolCalls == 1
    ensures GuardVerdict(l, calls) == OverBudget && BudgetVerdict(l.shared, false, calls) == Accepted
    ensures !AgreeThroughout(l, calls)
  {
    l := GuardLimits(Limits(1.0, 1, 1, 1), 1, 1);
    var first, second := Timed(Tool(SEARCH, args), 0.0), Timed(Tool("sql", args), 0.0);
    calls := [first, second];
    assert calls[..1] == [first] && [first][..0] == [] && calls[..2] == calls;
    assert GuardAfter(l, [first]).toolCalls == 1;
    assert BudgetAfter(l.shared, false, [first]) == Budget(0, 0, 0);
    assert !AgreeAt(l, calls, 1);
  }

  // ---------------------------------------------------------------- repeated messages

  function HeardAll(messages: seq<string>): (string, nat) {
    if messages == [] then ("", 0)
    else
      var before := HeardAll(messages[..|messages| - 1]);
      Heard(before.0, before.1, messages[|messages| - 1])
  }

  /** The last k messages are the same and not blank. */
  predicate EndsInSame(messages: seq<string>, k: nat) {
    0 < k <= |messages| && messages[|messages| - 1] != ""
    && forall i :: |messages| - k <= i < |messages| ==> messages[i] == messages[|messages| - 1]
  }

  lemma {:induction false} HeardIsRunLength(messages: seq<string>, k: nat)
    requires messages != [] && k > 0
    ensures HeardAll(messages).0 == messages[|messages| - 1]
    ensures HeardAll(messages).1 >= k <==> EndsInSame(messages, k + 1)
    decreases |messages|
  {
    var n := |messages| - 1;
    var before := messages[..n];
    if before == [] {
      assert HeardAll(before) == ("", 0);
    } else {
      HeardIsRunLength(before, k);
      if k > 1 { HeardIsRunLength(before, k - 1); }
      var m := messages[n];
      if m != "" && m == before[n - 1] {
      } else {
        assert messages[n - 1] == before[n - 1];
      }
    }
  }

  /** No progress is reported exactly when the last three messages are the same and not blank. */
  lemma NoProgressExactlyWhen(messages: seq<string>)
    requires messages != []
    ensures HeardAll(messages).1 >= 2 <==> EndsInSame(messages, 3)
  {
    HeardIsRunLength(messages, 2);
  }
}
