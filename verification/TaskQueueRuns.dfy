/** Permits, progress and the end-to-end concurrency bound, in every interleaving. */
module TaskQueueRuns {
  import opened Basics
  import opened TaskQueue
  import R = TaskRuntime
  import E = TaskRuntimeRuns

  // ---------------------------------------------------------------- permits

  function InStage(q: Queue, s: Stage): set<nat> {
    set j | j in q.jobs && q.jobs[j].stage == s
  }

  /** The coroutines that hold a global permit. */
  function Holders(q: Queue): set<nat> {
    set j | j in q.jobs && (q.jobs[j].stage == WantsProfile || q.jobs[j].stage == Handling)
  }

  /** The coroutines that hold a permit of the profile. */
  function ProfileHolders(q: Queue, p: string): set<nat> {
    set j | j in q.jobs && q.jobs[j].stage == Handling && q.jobs[j].profile == p
  }

  /** For every semaphore, free permits and holders add up to its limit. */
  ghost predicate Permits(c: Config, q: Queue) {
    && q.free + |Holders(q)| == c.maxConcurrency
    && (forall p :: p in q.profileFree ==> q.profileFree[p] + |ProfileHolders(q, p)| == Limit(c, p))
    && (forall j :: j in q.jobs && q.jobs[j].stage != Queued && q.jobs[j].stage != Scheduled ==>
          q.jobs[j].profile in q.profileFree)
  }

  /** The inline queue holds exactly the payloads not yet taken. */
  ghost predicate QueueHoldsQueued(q: Queue) {
    && (forall j :: At(q, j, Queued) <==> j in q.waiting)
    && (forall a, b :: 0 <= a < b < |q.waiting| ==> q.waiting[a] != q.waiting[b])
  }

  ghost predicate QueueInv(c: Config, q: Queue) {
    ValidConfig(c) && Permits(c, q) && QueueHoldsQueued(q)
  }

  /** The payload that a step moves on. */
  function Moved(q: Queue, s: Step): nat
    requires Enabled(q, s)
  {
    if s.Take? then q.waiting[0] else s.j
  }

  lemma HoldersAfter(c: Config, q: Queue, s: Step)
    requires Enabled(q, s)
    ensures var j := Moved(q, s);
      && Holders(Next(c, q, s)) == (if s.TakeGlobal? || s.TakeProfile? then Holders(q) + {j} else Holders(q) - {j})
      && (j in Holders(q) <==> s.TakeProfile? || s.Return?)
  {
    var j := Moved(q, s);
    var to := Next(c, q, s);
    forall k ensures k in Holders(to) <==> (if k == j then s.TakeGlobal? || s.TakeProfile? else k in Holders(q)) {
      assert k != j ==> (k in to.jobs <==> k in q.jobs) && (k in q.jobs ==> to.jobs[k] == q.jobs[k]);
    }
  }

  lemma GlobalPermitsStep(c: Config, q: Queue, s: Step)
    requires Enabled(q, s) && q.free + |Holders(q)| == c.maxConcurrency
    ensures Next(c, q, s).free + |Holders(Next(c, q, s))| == c.maxConcurrency
  {
    HoldersAfter(c, q, s);
    var j, held := Moved(q, s), Holders(q);
    if s.Return? {
      assert |held - {j}| == |held| - 1;
    } else if s.TakeGlobal? {
      assert |held + {j}| == |held| + 1;
    } else if s.TakeProfile? {
      assert held + {j} == held;
    } else {
      assert held - {j} == held;
    }
  }

  lemma ProfileHoldersAfter(c: Config, q: Queue, s: Step, p: string)
    requires Enabled(q, s)
    ensures var j := Moved(q, s);
      ProfileHolders(Next(c, q, s), p)
      == if s.TakeProfile? && q.jobs[j].profile == p then ProfileHolders(q, p) + {j} else ProfileHolders(q, p) - {j}
  {}

  lemma ProfileFreeAfter(c: Config, q: Queue, s: Step, p: string)
    requires Permits(c, q) && Enabled(q, s) && p in Next(c, q, s).profileFree
    ensures var own := Moved(q, s) in q.jobs && q.jobs[Moved(q, s)].profile == p;
      Next(c, q, s).profileFree[p] ==
        if p !in q.profileFree then Limit(c, p)
        else q.profileFree[p] + (if s.Return? && own then 1 else if s.TakeProfile? && own then -1 else 0)
  {}

  lemma ProfilePermitsStep(c: Config, q: Queue, s: Step, p: string)
    requires Permits(c, q) && Enabled(q, s) && p in Next(c, q, s).profileFree
    ensures Next(c, q, s).profileFree[p] + |ProfileHolders(Next(c, q, s), p)| == Limit(c, p)
  {
    var j, held := Moved(q, s), ProfileHolders(q, p);
    ProfileHoldersAfter(c, q, s, p);
    ProfileFreeAfter(c, q, s, p);
    if p !in q.profileFree {
      NoHolderBeforeBegin(c, q, p);
    } else if s.Return? && q.jobs[j].profile == p {
      assert j in held && |held - {j}| == |held| - 1;
    } else if s.TakeProfile? && q.jobs[j].profile == p {
      assert j !in held && |held + {j}| == |held| + 1;
    } else {
      assert held - {j} == held;
    }
  }

  lemma PermitsStep(c: Config, q: Queue, s: Step)
    requires ValidConfig(c) && Permits(c, q) && Enabled(q, s)
    ensures Permits(c, Next(c, q, s))
  {
    GlobalPermitsStep(c, q, s);
    forall p | p in Next(c, q, s).profileFree
      ensures Next(c, q, s).profileFree[p] + |ProfileHolders(Next(c, q, s), p)| == Limit(c, p)
    {
      ProfilePermitsStep(c, q, s, p);
    }
  }

  lemma NoHolderBeforeBegin(c: Config, q: Queue, p: string)
    requires Permits(c, q) && p !in q.profileFree
    ensures ProfileHolders(q, p) == {}
  {}

  lemma QueueHoldsStep(c: Config, q: Queue, s: Step)
    requires QueueHoldsQueued(q) && Enabled(q, s)
    ensures QueueHoldsQueued(Next(c, q, s))
  {
    var to := Next(c, q, s);
    var j := Moved(q, s);
    if s.Put? {
      assert !At(q, j, Queued);
    }
    forall k ensures At(to, k, Queued) <==> k in to.waiting {
      assert At(q, k, Queued) <==> k in q.waiting;
      if s.Take? {
        assert q.waiting == [j] + to.waiting;
      }
    }
  }

  // ---------------------------------------------------------------- progress

  ghost predicate Finished(q: Queue) {
    forall j :: j in q.jobs ==> q.jobs[j].stage == Completed
  }

  /** The queue never deadlocks: with an unfinished payload some step other than a new
      arrival is enabled. The global permit is always taken first, so whoever waits for a
      profile permit waits for a handler of that profile, never for another waiter. */
  lemma NeverDeadlocks(c: Config, q: Queue)
    requires QueueInv(c, q) && !Finished(q)
    ensures exists s: Step :: !s.Put? && Enabled(q, s)
  {
    var j :| j in q.jobs && q.jobs[j].stage != Completed;
    if h :| h in InStage(q, Handling) {
      assert Enabled(q, Return(h));
    } else if w :| w in InStage(q, WantsProfile) {
      assert ProfileHolders(q, q.jobs[w].profile) == {} by {
        assert forall k :: k in ProfileHolders(q, q.jobs[w].profile) ==> k in InStage(q, Handling);
      }
      assert Enabled(q, TakeProfile(w));
    } else {
      assert Holders(q) == {} by {
        assert forall k :: k in Holders(q) ==> k in InStage(q, Handling) || k in InStage(q, WantsProfile);
      }
      assert j !in InStage(q, WantsProfile) && j !in InStage(q, Handling);
      match q.jobs[j].stage
      case Queued => assert At(q, j, Queued) && q.waiting[0] in q.waiting;
        assert Enabled(q, Take);
      case Scheduled => assert Enabled(q, Begin(j));
      case WantsGlobal => assert Enabled(q, TakeGlobal(j));
      case _ =>
    }
  }

  function StepsLeft(s: Stage): nat {
    match s
    case Queued => 5
    case Scheduled => 4
    case WantsGlobal => 3
    case WantsProfile => 2
    case Handling => 1
    case Completed => 0
  }

  function AtLeast(q: Queue, k: nat): set<nat> {
    set j | j in q.jobs && StepsLeft(q.jobs[j].stage) >= k
  }

  /** The steps that all payloads together still have to take. */
  function Measure(q: Queue): nat {
    |AtLeast(q, 1)| + |AtLeast(q, 2)| + |AtLeast(q, 3)| + |AtLeast(q, 4)| + |AtLeast(q, 5)|
  }

  lemma AtLeastAfter(c: Config, q: Queue, s: Step, k: nat)
    requires Enabled(q, s) && !s.Put? && 1 <= k
    ensures var j := Moved(q, s); var w := StepsLeft(q.jobs[j].stage);
      AtLeast(Next(c, q, s), k) == (if k == w then AtLeast(q, k) - {j} else AtLeast(q, k))
        && (j in AtLeast(q, k) <==> k <= w)
  {
    var to, j := Next(c, q, s), Moved(q, s);
    assert to.jobs == q.jobs[j := to.jobs[j]];
    assert StepsLeft(to.jobs[j].stage) == StepsLeft(q.jobs[j].stage) - 1;
  }

  lemma StepLowersMeasure(c: Config, q: Queue, s: Step)
    requires Enabled(q, s) && !s.Put?
    ensures Measure(Next(c, q, s)) == Measure(q) - 1
  {
    var to, j := Next(c, q, s), Moved(q, s);
    var w := StepsLeft(q.jobs[j].stage);
    forall k: nat | 1 <= k <= 5 ensures |AtLeast(to, k)| == |AtLeast(q, k)| - (if k == w then 1 else 0) {
      AtLeastAfter(c, q, s, k);
    }
    assert 1 <= w <= 5;
  }

  ghost predicate IsRun(c: Config, q: Queue, run: seq<Step>)
    decreases |run|
  {
    run == [] || (Enabled(q, run[0]) && IsRun(c, Next(c, q, run[0]), run[1..]))
  }

  ghost function Final(c: Config, q: Queue, run: seq<Step>): Queue
    requires IsRun(c, q, run)
    decreases |run|
  {
    if run == [] then q else Final(c, Next(c, q, run[0]), run[1..])
  }

  /** How often the payload's handler was left. */
  function Completions(run: seq<Step>, j: nat): nat {
    if run == [] then 0 else (if run[0] == Return(j) then 1 else 0) + Completions(run[1..], j)
  }

  lemma {:induction false} QueueInvHolds(c: Config, q: Queue, run: seq<Step>)
    requires QueueInv(c, q) && IsRun(c, q, run)
    ensures QueueInv(c, Final(c, q, run))
    decreases |run|
  {
    if run != [] {
      PermitsStep(c, q, run[0]);
      QueueHoldsStep(c, q, run[0]);
      QueueInvHolds(c, Next(c, q, run[0]), run[1..]);
    }
  }

  predicate IsCompleted(q: Queue, j: nat) {
    At(q, j, Completed)
  }

  lemma {:induction false} CompletionsCount(c: Config, q: Queue, run: seq<Step>, j: nat)
    requires IsRun(c, q, run)
    ensures Completions(run, j) == if !IsCompleted(q, j) && IsCompleted(Final(c, q, run), j) then 1 else 0
    ensures IsCompleted(q, j) ==> IsCompleted(Final(c, q, run), j)
    ensures q.jobs.Keys <= Final(c, q, run).jobs.Keys
    decreases |run|
  {
    if run != [] {
      CompletionsCount(c, Next(c, q, run[0]), run[1..], j);
    }
  }

  lemma {:induction false} RunIsBounded(c: Config, q: Queue, run: seq<Step>)
    requires IsRun(c, q, run) && forall i :: 0 <= i < |run| ==> !run[i].Put?
    ensures |run| + Measure(Final(c, q, run)) == Measure(q)
    decreases |run|
  {
    if run != [] {
      StepLowersMeasure(c, q, run[0]);
      RunIsBounded(c, Next(c, q, run[0]), run[1..]);
    }
  }

  /** After any run of the started queue, let no more payloads arrive: every continuation is
      at most as long as the measure, and one that cannot be continued has completed every
      payload, each of them exactly once over the two runs. */
  lemma EveryPayloadCompletesOnce(c: Config, past: seq<Step>, rest: seq<Step>, j: nat)
    requires ValidConfig(c) && IsRun(c, Started(c), past) && IsRun(c, Final(c, Started(c), past), rest)
    requires forall i :: 0 <= i < |rest| ==> !rest[i].Put?
    requires j in Final(c, Started(c), past).jobs
    ensures var q := Final(c, Started(c), past); var end := Final(c, q, rest);
      && |rest| <= Measure(q)
      && ((forall s: Step :: Enabled(end, s) ==> s.Put?) ==>
            Finished(end) && Completions(past, j) + Completions(rest, j) == 1)
  {
    var q := Final(c, Started(c), past);
    var end := Final(c, q, rest);
    QueueInvHolds(c, Started(c), past);
    QueueInvHolds(c, q, rest);
    RunIsBounded(c, q, rest);
    CompletionsCount(c, Started(c), past, j);
    CompletionsCount(c, q, rest, j);
    if forall s: Step :: Enabled(end, s) ==> s.Put? {
      if !Finished(end) { NeverDeadlocks(c, end); }
      assert j in end.jobs;
    }
  }

  // ---------------------------------------------------------------- queue and registry together

  /** `agent` maps a payload to the Agent task object that its handler started. */
  datatype System = System(queue: Queue, rt: R.Runtime, agent: map<nat, nat>)

  /** `StartAgent` is start_agent_task up to the wait for the Agent task; it does nothing
      when the task was cancelled in the queue, and is refused when its id is still busy.
      `Runtime` is any other step of the registry, starts from elsewhere included. */
  datatype SystemStep =
    | InQueue(step: Step)
    | InRuntime(event: E.Event)
    | StartAgent(j: nat, meta: R.Meta, h: nat)

  predicate CancelledInQueue(rt: R.Runtime, id: string) {
    id in rt.states && rt.states[id].status == R.Cancelled
  }

  /** start_and_wait returns, or raises, only once the Agent task has ended. */
  predicate MayReturn(s: System, j: nat) {
    j in s.agent ==> !R.Unfinished(s.rt, s.agent[j])
  }

  predicate SystemEnabled(s: System, e: SystemStep) {
    match e
    case InQueue(step) => Enabled(s.queue, step) && (step.Return? ==> MayReturn(s, step.j))
    case InRuntime(event) => E.Possible(s.rt, event)
    case StartAgent(j, _, h) => At(s.queue, j, Handling) && j !in s.agent && h !in s.rt.outcome
  }

  function SystemNext(c: Config, s: System, e: SystemStep): System
    requires SystemEnabled(s, e)
  {
    match e
    case InQueue(step) => s.(queue := Next(c, s.queue, step))
    case InRuntime(event) => s.(rt := E.Next(s.rt, event))
    case StartAgent(j, meta, h) =>
      var id := s.queue.jobs[j].task;
      if CancelledInQueue(s.rt, id) then s
      else
        var (rt, ok) := R.Start(s.rt, id, meta, h);
        s.(rt := rt, agent := if ok then s.agent[j := h] else s.agent)
  }

  /** The payloads whose Agent task has not ended. */
  function Active(s: System): set<nat> {
    set j | j in s.agent && R.Unfinished(s.rt, s.agent[j])
  }

  function ActiveOf(s: System, p: string): set<nat> {
    set j | j in Active(s) && j in s.queue.jobs && s.queue.jobs[j].profile == p
  }

  predicate IsTaskOf(rt: R.Runtime, id: string, h: nat) {
    id in rt.tasks && rt.tasks[id] == h
  }

  ghost predicate NothingDropped(rt: R.Runtime) {
    && (forall h :: R.Unfinished(rt, h) ==> exists id :: IsTaskOf(rt, id, h))
    && (forall id :: id in rt.tasks ==> rt.tasks[id] in rt.outcome)
  }

  /** Every started task object belongs to one payload, which is being handled while it is active. */
  ghost predicate AgentsAreHandled(s: System) {
    && (forall j :: j in s.agent ==> s.agent[j] in s.rt.outcome && j in s.queue.jobs)
    && (forall j :: j in Active(s) ==> At(s.queue, j, Handling))
    && (forall j, k :: j in s.agent && k in s.agent && s.agent[j] == s.agent[k] ==> j == k)
  }

  ghost predicate SystemInv(c: Config, s: System) {
    && QueueInv(c, s.queue)
    && NothingDropped(s.rt)
    && AgentsAreHandled(s)
  }

  lemma StartDropsNothing(rt: R.Runtime, id: string, meta: R.Meta, h: nat)
    requires NothingDropped(rt) && h !in rt.outcome
    ensures NothingDropped(R.Start(rt, id, meta, h).0)
  {
    var (to, ok) := R.Start(rt, id, meta, h);
    forall g | R.Unfinished(to, g) ensures exists jd :: IsTaskOf(to, jd, g) {
      if ok && g == h {
        assert IsTaskOf(to, id, h);
      } else {
        assert R.Unfinished(rt, g);
        var jd :| IsTaskOf(rt, jd, g);
        assert IsTaskOf(to, jd, g);
      }
    }
  }

  predicate SameTasks(rt: R.Runtime, to: R.Runtime) {
    to.tasks == rt.tasks && to.outcome == rt.outcome
  }

  lemma PopKeepsTasks(rt: R.Runtime, id: string, d: R.Decision)
    ensures SameTasks(rt, R.PopAndAnswer(rt, id, d))
  {}

  lemma CancelKeepsTasks(rt: R.Runtime, id: string)
    ensures SameTasks(rt, R.Cancel(rt, id).0)
  {
    PopKeepsTasks(rt, id, R.Abort);
  }

  /** Only a start adds a task or a task object, and nothing reopens one that has ended. */
  lemma RuntimeKeepsTasks(rt: R.Runtime, e: E.Event)
    requires E.Possible(rt, e) && !e.StartE?
    ensures var to := E.Next(rt, e);
      to.tasks == rt.tasks && to.outcome == (if e.CompleteE? then rt.outcome[e.h := e.o] else rt.outcome)
  {
    match e
    case CancelE(id) => CancelKeepsTasks(rt, id);
    case _ =>
  }

  lemma RuntimeDropsNothing(rt: R.Runtime, e: E.Event)
    requires NothingDropped(rt) && E.Possible(rt, e)
    ensures NothingDropped(E.Next(rt, e))
    ensures forall h :: h in rt.outcome ==> h in E.Next(rt, e).outcome
    ensures forall h :: h in rt.outcome && R.Unfinished(E.Next(rt, e), h) ==> R.Unfinished(rt, h)
  {
    if e.StartE? {
      StartDropsNothing(rt, e.id, e.meta, e.h);
    } else {
      RuntimeKeepsTasks(rt, e);
      SameTasksDropNothing(rt, E.Next(rt, e));
    }
  }

  lemma SameTasksDropNothing(rt: R.Runtime, to: R.Runtime)
    requires NothingDropped(rt) && to.tasks == rt.tasks && to.outcome.Keys == rt.outcome.Keys
    requires forall h :: R.Unfinished(to, h) ==> R.Unfinished(rt, h)
    ensures NothingDropped(to)
  {
    forall h | R.Unfinished(to, h) ensures exists id :: IsTaskOf(to, id, h) {
      var id :| IsTaskOf(rt, id, h);
      assert IsTaskOf(to, id, h);
    }
  }

  lemma QueueStepKeepsAgents(s: System, c: Config, step: Step)
    requires AgentsAreHandled(s) && SystemEnabled(s, InQueue(step))
    ensures AgentsAreHandled(SystemNext(c, s, InQueue(step)))
  {
    assert Active(SystemNext(c, s, InQueue(step))) == Active(s);
  }

  lemma QueueStepKeepsInv(c: Config, s: System, step: Step)
    requires SystemInv(c, s) && SystemEnabled(s, InQueue(step))
    ensures SystemInv(c, SystemNext(c, s, InQueue(step)))
  {
    PermitsStep(c, s.queue, step);
    QueueHoldsStep(c, s.queue, step);
    QueueStepKeepsAgents(s, c, step);
  }

  lemma RuntimeStepKeepsInv(c: Config, s: System, event: E.Event)
    requires SystemInv(c, s) && SystemEnabled(s, InRuntime(event))
    ensures SystemInv(c, SystemNext(c, s, InRuntime(event)))
  {
    RuntimeDropsNothing(s.rt, event);
    assert Active(SystemNext(c, s, InRuntime(event))) <= Active(s);
  }

  lemma StartStepKeepsAgents(c: Config, s: System, j: nat, meta: R.Meta, h: nat)
    requires AgentsAreHandled(s) && SystemEnabled(s, StartAgent(j, meta, h))
    ensures AgentsAreHandled(SystemNext(c, s, StartAgent(j, meta, h)))
  {
    assert Active(SystemNext(c, s, StartAgent(j, meta, h))) <= Active(s) + {j};
  }

  lemma StartStepKeepsInv(c: Config, s: System, j: nat, meta: R.Meta, h: nat)
    requires SystemInv(c, s) && SystemEnabled(s, StartAgent(j, meta, h))
    ensures SystemInv(c, SystemNext(c, s, StartAgent(j, meta, h)))
  {
    StartDropsNothing(s.rt, s.queue.jobs[j].task, meta, h);
    StartStepKeepsAgents(c, s, j, meta, h);
  }

  lemma SystemStepKeepsInv(c: Config, s: System, e: SystemStep)
    requires SystemInv(c, s) && SystemEnabled(s, e)
    ensures SystemInv(c, SystemNext(c, s, e))
  {
    match e
    case InQueue(step) => QueueStepKeepsInv(c, s, step);
    case InRuntime(event) => RuntimeStepKeepsInv(c, s, event);
    case StartAgent(j, meta, h) => StartStepKeepsInv(c, s, j, meta, h);
  }

  ghost predicate IsSystemRun(c: Config, s: System, run: seq<SystemStep>)
    decreases |run|
  {
    run == [] || (SystemEnabled(s, run[0]) && IsSystemRun(c, SystemNext(c, s, run[0]), run[1..]))
  }

  ghost function SystemFinal(c: Config, s: System, run: seq<SystemStep>): System
    requires IsSystemRun(c, s, run)
    decreases |run|
  {
    if run == [] then s else SystemFinal(c, SystemNext(c, s, run[0]), run[1..])
  }

  lemma {:induction false} SystemInvHolds(c: Config, s: System, run: seq<SystemStep>)
    requires SystemInv(c, s) && IsSystemRun(c, s, run)
    ensures SystemInv(c, SystemFinal(c, s, run))
    decreases |run|
  {
    if run != [] {
      SystemStepKeepsInv(c, s, run[0]);
      SystemInvHolds(c, SystemNext(c, s, run[0]), run[1..]);
    }
  }

  lemma {:induction false} SubsetSize(a: set<nat>, b: set<nat>)
    requires a <= b
    ensures |a| <= |b|
  {
    if a != {} {
      var x :| x in a;
      SubsetSize(a - {x}, b - {x});
    }
  }

  /** End to end, in every interleaving of queue and registry steps: unfinished Agent tasks
      started through the queue never exceed the global limit, nor those of one queue profile
      its limit; the permits of every semaphore add up; and no unfinished task object of any
      origin has been dropped from the registry. */
  lemma ConcurrencyIsBounded(c: Config, run: seq<SystemStep>, p: string)
    requires ValidConfig(c) && IsSystemRun(c, System(Started(c), R.INITIAL, map[]), run)
    ensures var s := SystemFinal(c, System(Started(c), R.INITIAL, map[]), run);
      && |Active(s)| <= c.maxConcurrency
      && |ActiveOf(s, p)| <= (if p in c.profileLimits then c.profileLimits[p] else 1)
      && Permits(c, s.queue)
      && (forall h :: R.Unfinished(s.rt, h) ==> exists id :: IsTaskOf(s.rt, id, h))
  {
    SystemInvHolds(c, System(Started(c), R.INITIAL, map[]), run);
    var s := SystemFinal(c, System(Started(c), R.INITIAL, map[]), run);
    SubsetSize(Active(s), Holders(s.queue));
    SubsetSize(ActiveOf(s, p), ProfileHolders(s.queue, p));
    if p !in s.queue.profileFree {
      NoHolderBeforeBegin(c, s.queue, p);
    }
  }
}
