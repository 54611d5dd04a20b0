/** agent/subagent/guard.py and agent/runtime/budget.py: the guard counts a call and then checks
    it, the budget checks it and then counts it. An exception is the verdict of a call; the time
    elapsed at a call is an input. */
module Guards {

  datatype Verdict = Accepted | TimedOut | OverBudget | Repeated | NetworkDenied

  /** `args` is the canonical JSON text of a tool call's arguments. */
  datatype Call = Model | Tool(name: string, args: string) | Subagent(name: string)

  datatype Limits = Limits(maxSeconds: real, maxModelCalls: int, maxToolCalls: int, maxSubagentCalls: int)

  // ---------------------------------------------------------------- the guard

  datatype GuardLimits = GuardLimits(shared: Limits, sameToolSameArgs: int, sameSubagent: int)

  datatype Guard = Guard(
    modelCalls: nat, toolCalls: nat, subagentCalls: nat,
    toolCounts: map<string, nat>, subagentCounts: map<string, nat>, toolArgsCounts: map<string, nat>)

  const NEW_GUARD := Guard(0, 0, 0, map[], map[], map[])

  function Counted(counts: map<string, nat>, key: string): map<string, nat> {
    counts[key := (if key in counts then counts[key] else 0) + 1]
  }

  function ArgsKey(name: string, args: string): string {
    name + ":" + args
  }

  function GuardCounts(g: Guard, c: Call): Guard {
    match c
    case Model => g.(modelCalls := g.modelCalls + 1)
    case Tool(name, args) =>
      g.(toolCalls := g.toolCalls + 1, toolCounts := Counted(g.toolCounts, name),
         toolArgsCounts := Counted(g.toolArgsCounts, ArgsKey(name, args)))
    case Subagent(name) =>
      g.(subagentCalls := g.subagentCalls + 1, subagentCounts := Counted(g.subagentCounts, name))
  }

  /** How often the same call has been counted, this one included. */
  function Repeats(g: Guard, c: Call): nat {
    match c
    case Model => 0
    case Tool(name, args) => Counted(g.toolArgsCounts, ArgsKey(name, args))[ArgsKey(name, args)]
    case Subagent(name) => Counted(g.subagentCounts, name)[name]
  }

  function RepeatLimit(l: GuardLimits, c: Call): int {
    match c
    case Model => 0
    case Tool(_, _) => l.sameToolSameArgs
    case Subagent(_) => l.sameSubagent
  }

  function CallLimit(l: Limits, c: Call): int {
    match c
    case Model => l.maxModelCalls
    case Tool(_, _) => l.maxToolCalls
    case Subagent(_) => l.maxSubagentCalls
  }

  function CallsOf(g: Guard, c: Call): nat {
    match c
    case Model => g.modelCalls
    case Tool(_, _) => g.toolCalls
    case Subagent(_) => g.subagentCalls
  }

  /** Model calls are not checked against the time. */
  function GuardStep(l: GuardLimits, g: Guard, c: Call, elapsed: real): (Guard, Verdict) {
    if !c.Model? && elapsed > l.shared.maxSeconds then (g, TimedOut)
    else
      var h := GuardCounts(g, c);
      (h, if CallsOf(h, c) > CallLimit(l.shared, c) then OverBudget
          else if Repeats(g, c) > RepeatLimit(l, c) then Repeated
          else Accepted)
  }

  class RuntimeGuard {
    const limits: GuardLimits
    var modelCalls: nat
    var toolCalls: nat
    var subagentCalls: nat
    var toolCounts: map<string, nat>
    var subagentCounts: map<string, nat>
    var toolArgsCounts: map<string, nat>
    var lastAssistantMessage: string
    var repeatedAssistantMessages: nat

    ghost function Value(): Guard
      reads this
    {
      Guard(modelCalls, toolCalls, subagentCalls, toolCounts, subagentCounts, toolArgsCounts)
    }

    constructor (l: GuardLimits)
      ensures limits == l && Value() == NEW_GUARD && lastAssistantMessage == "" && repeatedAssistantMessages == 0
    {
      limits := l;
      modelCalls, toolCalls, subagentCalls := 0, 0, 0;
      toolCounts, subagentCounts, toolArgsCounts := map[], map[], map[];
      lastAssistantMessage, repeatedAssistantMessages := "", 0;
    }

    method RecordModelCall() returns (v: Verdict)
      modifies `modelCalls
      ensures forall elapsed :: (Value(), v) == GuardStep(limits, old(Value()), Model, elapsed)
    {
      modelCalls := modelCalls + 1;
      if modelCalls > limits.shared.maxModelCalls { return OverBudget; }
      v := Accepted;
    }

    method RecordToolCall(name: string, args: string, elapsed: real) returns (v: Verdict)
      modifies `toolCalls, `toolCounts, `toolArgsCounts
      ensures (Value(), v) == GuardStep(limits, old(Value()), Tool(name, args), elapsed)
    {
      if elapsed > limits.shared.maxSeconds { return TimedOut; }
      toolCalls := toolCalls + 1;
      toolCounts := Counted(toolCounts, name);
      var key := ArgsKey(name, args);
      toolArgsCounts := Counted(toolArgsCounts, key);
      if toolCalls > limits.shared.maxToolCalls { return OverBudget; }
      if toolArgsCounts[key] > limits.sameToolSameArgs { return Repeated; }
      v := Accepted;
    }

    method RecordSubagentCall(name: string, elapsed: real) returns (v: Verdict)
      modifies `subagentCalls, `subagentCounts
      ensures (Value(), v) == GuardStep(limits, old(Value()), Subagent(name), elapsed)
    {
      if elapsed > limits.shared.maxSeconds { return TimedOut; }
      subagentCalls := subagentCalls + 1;
      subagentCounts := Counted(subagentCounts, name);
      if subagentCalls > limits.shared.maxSubagentCalls { return OverBudget; }
      if subagentCounts[name] > limits.sameSubagent { return Repeated; }
      v := Accepted;
    }

    /** `normalized` is the lower-cased, space-collapsed message cut to 500 characters. */
    method RecordAssistantMessage(normalized: string) returns (noProgress: bool)
      modifies `lastAssistantMessage, `repeatedAssistantMessages
      ensures (lastAssistantMessage, repeatedAssistantMessages)
           == Heard(old(lastAssistantMessage), old(repeatedAssistantMessages), normalized)
      ensures noProgress <==> repeatedAssistantMessages >= 2
    {
      if normalized != "" && normalized == lastAssistantMessage {
        repeatedAssistantMessages := repeatedAssistantMessages + 1;
      } else {
        repeatedAssistantMessages := 0;
        lastAssistantMessage := normalized;
      }
      noProgress := repeatedAssistantMessages >= 2;
    }
  }

  function Heard(last: string, repeated: nat, normalized: string): (string, nat) {
    if normalized != "" && normalized == last then (last, repeated + 1) else (normalized, 0)
  }

  // ---------------------------------------------------------------- the budget

  datatype Budget = Budget(modelCalls: nat, toolCalls: nat, subagentCalls: nat)

  function Spent(b: Budget, c: Call): nat {
    match c
    case Model => b.modelCalls
    case Tool(_, _) => b.toolCalls
    case Subagent(_) => b.subagentCalls
  }

  function BudgetStep(l: Limits, allowNetwork: bool, b: Budget, c: Call, elapsed: real): (Budget, Verdict) {
    if elapsed > l.maxSeconds then (b, TimedOut)
    else if c.Tool? && c.name == "internet_search" && !allowNetwork then (b, NetworkDenied)
    else if Spent(b, c) >= CallLimit(l, c) then (b, OverBudget)
    else
      match c
      case Model => (b.(modelCalls := b.modelCalls + 1), Accepted)
      case Tool(_, _) => (b.(toolCalls := b.toolCalls + 1), Accepted)
      case Subagent(_) => (b.(subagentCalls := b.subagentCalls + 1), Accepted)
  }

  class AgentExecutionBudget {
    const limits: Limits
    const allowNetworkSearch: bool
    var modelCalls: nat
    var toolCalls: nat
    var subagentCalls: nat

    ghost function Value(): Budget
      reads this
    {
      Budget(modelCalls, toolCalls, subagentCalls)
    }

    constructor (l: Limits, network: bool)
      ensures limits == l && allowNetworkSearch == network && Value() == Budget(0, 0, 0)
    {
      limits, allowNetworkSearch := l, network;
      modelCalls, toolCalls, subagentCalls := 0, 0, 0;
    }

    method RecordModelCall(elapsed: real) returns (v: Verdict)
      modifies `modelCalls
      ensures (Value(), v) == BudgetStep(limits, allowNetworkSearch, old(Value()), Model, elapsed)
    {
      if elapsed > limits.maxSeconds { return TimedOut; }
      if modelCalls >= limits.maxModelCalls { return OverBudget; }
      modelCalls := modelCalls + 1;
      v := Accepted;
    }

    method RecordToolCall(name: string, ghost args: string, elapsed: real) returns (v: Verdict)
      modifies `toolCalls
      ensures (Value(), v) == BudgetStep(limits, allowNetworkSearch, old(Value()), Tool(name, args), elapsed)
    {
      if elapsed > limits.maxSeconds { return TimedOut; }
      if name == "internet_search" && !allowNetworkSearch { return NetworkDenied; }
      if toolCalls >= limits.maxToolCalls { return OverBudget; }
      toolCalls := toolCalls + 1;
      v := Accepted;
    }

    method RecordSubagentCall(name: string, elapsed: real) returns (v: Verdict)
      modifies `subagentCalls
      ensures (Value(), v) == BudgetStep(limits, allowNetworkSearch, old(Value()), Subagent(name), elapsed)
    {
      if elapsed > limits.maxSeconds { return TimedOut; }
      if subagentCalls >= limits.maxSubagentCalls { return OverBudget; }
      subagentCalls := subagentCalls + 1;
      v := Accepted;
    }
  }
}
