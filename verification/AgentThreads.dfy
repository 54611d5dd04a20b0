/** Agents that go on after their task objects. A job's Agent runs in a worker thread that the task
    object waits for; cancelling the task object ends the wait, not the thread. */
module AgentThreads {
  import opened TaskQueue
  import opened TaskQueueRuns
  import R = TaskRuntime
  import E = TaskRuntimeRuns

  /** `running` are the payloads whose Agent is at work, in a thread or on the loop. */
  datatype Live = Live(sys: System, running: set<nat>)

  /** `AgentEnds` is the end of the Agent itself. */
  datatype LiveStep = InSystem(step: SystemStep) | AgentEnds(j: nat)

  /** The step ends the task object of an Agent that is at work. */
  predicate EndsTaskOf(l: Live, e: LiveStep, j: nat) {
    && e.InSystem? && e.step.InRuntime? && e.step.event.CompleteE?
    && j in l.running && j in l.sys.agent && l.sys.agent[j] == e.step.event.h
  }

  /** A task object ends by returning or raising only after its Agent; by being cancelled it may
      end before. */
  predicate LiveEnabled(l: Live, e: LiveStep) {
    match e
    case InSystem(step) =>
      && SystemEnabled(l.sys, step)
      && forall j :: j in l.running && EndsTaskOf(l, e, j) ==> step.event.o == R.WasCancelled
    case AgentEnds(j) => j in l.running
  }

  function LiveNext(c: Config, l: Live, e: LiveStep): Live
    requires LiveEnabled(l, e)
  {
    match e
    case InSystem(step) =>
      var to := SystemNext(c, l.sys, step);
      Live(to, l.running + (to.agent.Keys - l.sys.agent.Keys))
    case AgentEnds(j) => l.(running := l.running - {j})
  }

  /** A cancelled task object ends while its Agent is at work. */
  predicate IsOverrun(l: Live, e: LiveStep) {
    exists j :: j in l.running && EndsTaskOf(l, e, j)
  }

  /** Every Agent at work has an unfinished task object. */
  predicate IsWithin(l: Live) {
    l.running <= Active(l.sys)
  }

  lemma RuntimeKeepsUnfinished(rt: R.Runtime, event: E.Event, h: nat)
    requires E.Possible(rt, event) && R.Unfinished(rt, h)
    ensures R.Unfinished(E.Next(rt, event), h) <==> !(event.CompleteE? && event.h == h)
  {
    if !event.StartE? { RuntimeKeepsTasks(rt, event); }
  }

  lemma RuntimeStepWithin(c: Config, l: Live, event: E.Event)
    requires IsWithin(l) && LiveEnabled(l, InSystem(InRuntime(event)))
    ensures var e := InSystem(InRuntime(event)); IsWithin(LiveNext(c, l, e)) <==> !IsOverrun(l, e)
  {
    var e := InSystem(InRuntime(event));
    var to := LiveNext(c, l, e);
    assert to.running == l.running;
    forall j | j in l.running ensures j in Active(to.sys) <==> !EndsTaskOf(l, e, j) {
      RuntimeKeepsUnfinished(l.sys.rt, event, l.sys.agent[j]);
    }
  }

  lemma StartStepWithin(c: Config, l: Live, j: nat, meta: R.Meta, h: nat)
    requires IsWithin(l) && LiveEnabled(l, InSystem(StartAgent(j, meta, h)))
    ensures IsWithin(LiveNext(c, l, InSystem(StartAgent(j, meta, h))))
  {
    var to := LiveNext(c, l, InSystem(StartAgent(j, meta, h)));
    forall k | k in to.running ensures k in Active(to.sys) {
      if k in l.running { assert k in Active(l.sys); }
    }
  }

  /** While every Agent at work has an unfinished task object, a step keeps that so exactly unless
      it is a cancellation that its Agent overruns. */
  lemma StepWithinExactlyWhen(c: Config, l: Live, e: LiveStep)
    requires IsWithin(l) && LiveEnabled(l, e)
    ensures IsWithin(LiveNext(c, l, e)) <==> !IsOverrun(l, e)
  {
    if e.InSystem? {
      match e.step
      case InQueue(step) => assert Active(LiveNext(c, l, e).sys) == Active(l.sys);
      case InRuntime(event) => RuntimeStepWithin(c, l, event);
      case StartAgent(j, meta, h) => StartStepWithin(c, l, j, meta, h);
    }
  }

  /** When its Agent ends, a payload alone leaves those at work, and its task object may then end
      by returning, which before it could not. */
  lemma EndedAgentMayReturn(c: Config, l: Live, j: nat)
    requires j in l.running && j in Active(l.sys) && AgentsAreHandled(l.sys)
    ensures var to := LiveNext(c, l, AgentEnds(j));
      var done := InSystem(InRuntime(E.CompleteE(l.sys.agent[j], R.Returned)));
      && (forall k :: k in to.running <==> k in l.running && k != j) && to.sys == l.sys
      && LiveEnabled(to, done) && !LiveEnabled(l, done)
  {
    var to := LiveNext(c, l, AgentEnds(j));
    var done := InSystem(InRuntime(E.CompleteE(l.sys.agent[j], R.Returned)));
    assert EndsTaskOf(l, done, j);
    forall k | k in to.running ensures !EndsTaskOf(to, done, k) {}
  }

  // ---------------------------------------------------------------- whole runs

  ghost predicate IsLiveRun(c: Config, l: Live, run: seq<LiveStep>)
    decreases |run|
  {
    run == [] || (LiveEnabled(l, run[0]) && IsLiveRun(c, LiveNext(c, l, run[0]), run[1..]))
  }

  ghost function LiveFinal(c: Config, l: Live, run: seq<LiveStep>): Live
    requires IsLiveRun(c, l, run)
    decreases |run|
  {
    if run == [] then l else LiveFinal(c, LiveNext(c, l, run[0]), run[1..])
  }

  ghost predicate AlwaysWithin(c: Config, l: Live, run: seq<LiveStep>)
    requires IsLiveRun(c, l, run)
    decreases |run|
  {
    IsWithin(l) && (run != [] ==> AlwaysWithin(c, LiveNext(c, l, run[0]), run[1..]))
  }

  ghost predicate NeverOverruns(c: Config, l: Live, run: seq<LiveStep>)
    requires IsLiveRun(c, l, run)
    decreases |run|
  {
    run != [] ==> !IsOverrun(l, run[0]) && NeverOverruns(c, LiveNext(c, l, run[0]), run[1..])
  }

  lemma {:induction false} AlwaysWithinExactlyWhen(c: Config, l: Live, run: seq<LiveStep>)
    requires IsWithin(l) && IsLiveRun(c, l, run)
    ensures AlwaysWithin(c, l, run) <==> NeverOverruns(c, l, run)
    ensures NeverOverruns(c, l, run) ==> IsWithin(LiveFinal(c, l, run))
    decreases |run|
  {
    if run != [] {
      var to := LiveNext(c, l, run[0]);
      StepWithinExactlyWhen(c, l, run[0]);
      if !IsOverrun(l, run[0]) { AlwaysWithinExactlyWhen(c, to, run[1..]); }
    }
  }

  function LiveStarted(c: Config): Live {
    Live(System(Started(c), R.INITIAL, map[]), {})
  }

  lemma {:induction false} SystemInvLives(c: Config, l: Live, run: seq<LiveStep>)
    requires SystemInv(c, l.sys) && IsLiveRun(c, l, run)
    ensures SystemInv(c, LiveFinal(c, l, run).sys)
    decreases |run|
  {
    if run != [] {
      if run[0].InSystem? { SystemStepKeepsInv(c, l.sys, run[0].step); }
      SystemInvLives(c, LiveNext(c, l, run[0]), run[1..]);
    }
  }

  /** The Agents at work whose payloads have this queue profile. */
  function RunningOf(l: Live, p: string): set<nat> {
    set j | j in l.running && j in l.sys.queue.jobs && l.sys.queue.jobs[j].profile == p
  }

  /** For every run of the started system: at each moment every Agent at work has an unfinished
      task object if and only if no cancellation is overrun by its Agent; and then the Agents at
      work exceed neither the global limit nor their profile's. */
  lemma RunningIsBoundedWithin(c: Config, run: seq<LiveStep>, p: string)
    requires ValidConfig(c) && IsLiveRun(c, LiveStarted(c), run)
    ensures AlwaysWithin(c, LiveStarted(c), run) <==> NeverOverruns(c, LiveStarted(c), run)
    ensures var l := LiveFinal(c, LiveStarted(c), run);
      NeverOverruns(c, LiveStarted(c), run) ==>
        && |l.running| <= c.maxConcurrency
        && |RunningOf(l, p)| <= (if p in c.profileLimits then c.profileLimits[p] else 1)
  {
    var l := LiveFinal(c, LiveStarted(c), run);
    AlwaysWithinExactlyWhen(c, LiveStarted(c), run);
    SystemInvLives(c, LiveStarted(c), run);
    if NeverOverruns(c, LiveStarted(c), run) { InvBounds(c, l, p); }
  }

  lemma InvBounds(c: Config, l: Live, p: string)
    requires SystemInv(c, l.sys) && IsWithin(l)
    ensures |l.running| <= c.maxConcurrency && |RunningOf(l, p)| <= Limit(c, p)
  {
    SubsetSize(l.running, Holders(l.sys.queue));
    SubsetSize(RunningOf(l, p), ProfileHolders(l.sys.queue, p));
    if p !in l.sys.queue.profileFree { NoHolderBeforeBegin(c, l.sys.queue, p); }
  }

  // ---------------------------------------------------------------- overruns without bound

  lemma StartsWith(c: Config, l: Live, e: LiveStep, rest: seq<LiveStep>)
    requires LiveEnabled(l, e) && IsLiveRun(c, LiveNext(c, l, e), rest)
    ensures IsLiveRun(c, l, [e] + rest) && LiveFinal(c, l, [e] + rest) == LiveFinal(c, LiveNext(c, l, e), rest)
  {
    assert ([e] + rest)[1..] == rest;
  }

  /** Every task object so far was cancelled and has ended. */
  ghost predicate AllCancelled(rt: R.Runtime, n: nat) {
    && (forall h :: h in rt.outcome ==> h < n && rt.outcome[h] == R.WasCancelled)
    && (forall jd :: jd in rt.tasks ==> rt.tasks[jd] in rt.outcome)
  }

  /** Of profile `p` are the payloads below `n`, and their Agents are at work nevertheless. */
  ghost predicate Overran(l: Live, p: string, n: nat) {
    && (forall j: nat :: j < n ==> j in l.sys.queue.jobs && l.sys.queue.jobs[j].profile == p)
    && (forall j :: j in l.sys.agent ==> j < n)
    && (forall j: nat :: j in l.running <==> j < n) && |l.running| == n
  }

  predicate HasPermits(q: Queue, p: string) {
    q.free >= 1 && (p in q.profileFree ==> q.profileFree[p] >= 1)
  }

  /** Nothing is queued, held or unfinished. */
  ghost predicate IsIdle(l: Live, p: string, n: nat) {
    && l.sys.queue.waiting == [] && HasPermits(l.sys.queue, p) && (forall j :: j in l.sys.queue.jobs ==> j < n)
    && AllCancelled(l.sys.rt, n) && Overran(l, p, n)
  }

  predicate IsEnqueued(rt: R.Runtime, id: string) {
    id in rt.states && rt.states[id].status == R.Queued
  }

  /** The n-th payload is on its way to being handled, alone. */
  predicate IsServed(q: Queue, p: string, id: string, n: nat, stage: Stage) {
    && At(q, n, stage) && q.jobs[n].profile == p && q.jobs[n].task == id && (forall j :: j in q.jobs ==> j <= n)
    && q.waiting == (if stage == Queued then [n] else [])
    && (stage == Queued || stage == Scheduled || stage == WantsGlobal ==> HasPermits(q, p))
    && (stage == WantsProfile ==> p in q.profileFree && q.profileFree[p] >= 1)
    && (stage == WantsGlobal || stage == Handling ==> p in q.profileFree)
  }

  ghost predicate OnItsWay(l: Live, p: string, id: string, n: nat, stage: Stage) {
    IsServed(l.sys.queue, p, id, n, stage) && IsEnqueued(l.sys.rt, id) && AllCancelled(l.sys.rt, n) && Overran(l, p, n)
  }

  lemma SubmittedIsServed(c: Config, l: Live, p: string, id: string, n: nat) returns (run: seq<LiveStep>)
    requires ValidConfig(c) && IsIdle(l, p, n)
    ensures IsLiveRun(c, l, run) && OnItsWay(LiveFinal(c, l, run), p, id, n, Queued)
  {
    var e0 := InSystem(InRuntime(E.EnqueueE(id, R.NO_META)));
    var e1 := InSystem(InQueue(Put(n, p, id)));
    var l1 := LiveNext(c, l, e0);
    StartsWith(c, l1, e1, []);
    StartsWith(c, l, e0, [e1] + []);
    run := [e0] + ([e1] + []);
  }

  function QueueStep(n: nat, stage: Stage): Step {
    match stage
    case Queued => Take
    case Scheduled => Begin(n)
    case WantsGlobal => TakeGlobal(n)
    case _ => TakeProfile(n)
  }

  function Later(stage: Stage): Stage {
    match stage
    case Queued => Scheduled
    case Scheduled => WantsGlobal
    case WantsGlobal => WantsProfile
    case _ => Handling
  }

  lemma QueueStepServes(c: Config, q: Queue, p: string, id: string, n: nat, stage: Stage)
    requires ValidConfig(c) && IsServed(q, p, id, n, stage) && StepsLeft(stage) > 1
    ensures var e := QueueStep(n, stage);
      Enabled(q, e) && !e.Return? && IsServed(Next(c, q, e), p, id, n, Later(stage))
    ensures var to := Next(c, q, QueueStep(n, stage)).jobs;
      forall j :: j in q.jobs && j != n ==> j in to && to[j] == q.jobs[j]
  {}

  lemma {:induction false} IsServedToTheEnd(c: Config, l: Live, p: string, id: string, n: nat, stage: Stage)
    returns (run: seq<LiveStep>)
    requires ValidConfig(c) && OnItsWay(l, p, id, n, stage) && StepsLeft(stage) >= 1
    ensures IsLiveRun(c, l, run) && OnItsWay(LiveFinal(c, l, run), p, id, n, Handling)
    decreases StepsLeft(stage)
  {
    if stage == Handling {
      run := [];
    } else {
      var e := InSystem(InQueue(QueueStep(n, stage)));
      QueueStepServes(c, l.sys.queue, p, id, n, stage);
      var rest := IsServedToTheEnd(c, LiveNext(c, l, e), p, id, n, Later(stage));
      StartsWith(c, l, e, rest);
      run := [e] + rest;
    }
  }

  /** The n-th task object stands in its way no more: all have been cancelled. */
  lemma StartThenCancel(rt: R.Runtime, id: string, n: nat)
    requires AllCancelled(rt, n) && IsEnqueued(rt, id)
    ensures R.Start(rt, id, R.NO_META, n).1 && !CancelledInQueue(rt, id)
    ensures var to := R.Cancel(R.Start(rt, id, R.NO_META, n).0, id).0;
      R.Unfinished(to, n) && AllCancelled(to.(outcome := to.outcome[n := R.WasCancelled]), n + 1)
  {
    var started := R.Start(rt, id, R.NO_META, n).0;
    CancelKeepsTasks(started, id);
  }

  lemma StartStep(c: Config, l: Live, p: string, id: string, n: nat)
    requires OnItsWay(l, p, id, n, Handling)
    ensures var e := InSystem(StartAgent(n, R.NO_META, n));
      var sys := System(l.sys.queue, R.Start(l.sys.rt, id, R.NO_META, n).0, l.sys.agent[n := n]);
      LiveEnabled(l, e) && LiveNext(c, l, e) == Live(sys, l.running + {n})
  {
    StartThenCancel(l.sys.rt, id, n);
    assert l.sys.agent[n := n].Keys - l.sys.agent.Keys == {n};
  }

  lemma CancelStep(c: Config, l: Live, id: string)
    ensures var e := InSystem(InRuntime(E.CancelE(id)));
      LiveEnabled(l, e) && LiveNext(c, l, e) == l.(sys := l.sys.(rt := R.Cancel(l.sys.rt, id).0))
  {
    var e := InSystem(InRuntime(E.CancelE(id)));
    assert LiveNext(c, l, e).running == l.running;
  }

  lemma CompleteStep(c: Config, l: Live, n: nat)
    requires R.Unfinished(l.sys.rt, n)
    ensures var e := InSystem(InRuntime(E.CompleteE(n, R.WasCancelled))); var rt := l.sys.rt;
      LiveEnabled(l, e) && LiveNext(c, l, e) == l.(sys := l.sys.(rt := rt.(outcome := rt.outcome[n := R.WasCancelled])))
  {
    var e := InSystem(InRuntime(E.CompleteE(n, R.WasCancelled)));
    assert LiveNext(c, l, e).running == l.running;
  }

  lemma ReturnStep(c: Config, l: Live, n: nat)
    requires Enabled(l.sys.queue, Return(n)) && MayReturn(l.sys, n)
    ensures var e := InSystem(InQueue(Return(n)));
      LiveEnabled(l, e) && LiveNext(c, l, e) == l.(sys := l.sys.(queue := Next(c, l.sys.queue, Return(n))))
  {
    var e := InSystem(InQueue(Return(n)));
    assert LiveNext(c, l, e).running == l.running;
  }

  lemma FourSteps(c: Config, l: Live, e0: LiveStep, e1: LiveStep, e2: LiveStep, e3: LiveStep)
    returns (run: seq<LiveStep>)
    requires LiveEnabled(l, e0) && LiveEnabled(LiveNext(c, l, e0), e1)
    requires var l2 := LiveNext(c, LiveNext(c, l, e0), e1); LiveEnabled(l2, e2) && LiveEnabled(LiveNext(c, l2, e2), e3)
    ensures IsLiveRun(c, l, run)
    ensures LiveFinal(c, l, run) == LiveNext(c, LiveNext(c, LiveNext(c, LiveNext(c, l, e0), e1), e2), e3)
  {
    var l1 := LiveNext(c, l, e0);
    var l2 := LiveNext(c, l1, e1);
    var l3 := LiveNext(c, l2, e2);
    StartsWith(c, l3, e3, []);
    StartsWith(c, l2, e2, [e3] + []);
    StartsWith(c, l1, e1, [e2] + ([e3] + []));
    StartsWith(c, l, e0, [e1] + ([e2] + ([e3] + [])));
    run := [e0] + ([e1] + ([e2] + ([e3] + [])));
  }

  /** A handled payload gives its permits back. */
  lemma ReturnedHasPermits(c: Config, q: Queue, p: string, id: string, n: nat)
    requires IsServed(q, p, id, n, Handling)
    ensures Enabled(q, Return(n))
    ensures var to := Next(c, q, Return(n));
      && to.waiting == [] && HasPermits(to, p) && (forall j :: j in to.jobs ==> j < n + 1)
      && (forall j :: j in q.jobs ==> j in to.jobs && to.jobs[j].profile == q.jobs[j].profile)
      && n in to.jobs && to.jobs[n].profile == p
  {}

  lemma IdleAgain(l: Live, to: Live, p: string, n: nat)
    requires Overran(l, p, n) && to.running == l.running + {n} && to.sys.agent == l.sys.agent[n := n]
    requires var q, r := l.sys.queue.jobs, to.sys.queue.jobs;
      forall j :: j in q ==> j in r && r[j].profile == q[j].profile
    requires n in to.sys.queue.jobs && to.sys.queue.jobs[n].profile == p
    requires to.sys.queue.waiting == [] && HasPermits(to.sys.queue, p)
    requires (forall j :: j in to.sys.queue.jobs ==> j < n + 1) && AllCancelled(to.sys.rt, n + 1)
    ensures IsIdle(to, p, n + 1)
  {}

  /** The Agent starts, its task is cancelled and ends, and the handler gives its permits back. */
  lemma CancelledIsIdle(c: Config, l: Live, p: string, id: string, n: nat) returns (run: seq<LiveStep>)
    requires ValidConfig(c) && OnItsWay(l, p, id, n, Handling)
    ensures IsLiveRun(c, l, run) && IsIdle(LiveFinal(c, l, run), p, n + 1)
  {
    var e0, e1 := InSystem(StartAgent(n, R.NO_META, n)), InSystem(InRuntime(E.CancelE(id)));
    var e2, e3 := InSystem(InRuntime(E.CompleteE(n, R.WasCancelled))), InSystem(InQueue(Return(n)));
    StartThenCancel(l.sys.rt, id, n);
    StartStep(c, l, p, id, n);
    var l1 := LiveNext(c, l, e0);
    CancelStep(c, l1, id);
    var l2 := LiveNext(c, l1, e1);
    CompleteStep(c, l2, n);
    var l3 := LiveNext(c, l2, e2);
    ReturnedHasPermits(c, l.sys.queue, p, id, n);
    ReturnStep(c, l3, n);
    run := FourSteps(c, l, e0, e1, e2, e3);
    IdleAgain(l, LiveNext(c, l3, e3), p, n);
  }

  lemma {:induction false} RunsJoin(c: Config, l: Live, a: seq<LiveStep>, b: seq<LiveStep>)
    requires IsLiveRun(c, l, a) && IsLiveRun(c, LiveFinal(c, l, a), b)
    ensures IsLiveRun(c, l, a + b) && LiveFinal(c, l, a + b) == LiveFinal(c, LiveFinal(c, l, a), b)
    decreases |a|
  {
    if a == [] {
      assert a + b == b;
    } else {
      RunsJoin(c, LiveNext(c, l, a[0]), a[1..], b);
      assert (a + b)[1..] == a[1..] + b;
    }
  }

  lemma OneOverrun(c: Config, l: Live, p: string, id: string, n: nat) returns (run: seq<LiveStep>)
    requires ValidConfig(c) && IsIdle(l, p, n)
    ensures IsLiveRun(c, l, run) && IsIdle(LiveFinal(c, l, run), p, n + 1)
  {
    var a := SubmittedIsServed(c, l, p, id, n);
    var b := IsServedToTheEnd(c, LiveFinal(c, l, a), p, id, n, Queued);
    RunsJoin(c, l, a, b);
    var d := CancelledIsIdle(c, LiveFinal(c, l, a + b), p, id, n);
    RunsJoin(c, l, a + b, d);
    run := a + b + d;
  }

  lemma {:induction false} ManyOverrun(c: Config, p: string, id: string, n: nat) returns (run: seq<LiveStep>)
    requires ValidConfig(c)
    ensures IsLiveRun(c, LiveStarted(c), run) && IsIdle(LiveFinal(c, LiveStarted(c), run), p, n)
  {
    if n == 0 {
      run := [];
    } else {
      var past := ManyOverrun(c, p, id, n - 1);
      var l := LiveFinal(c, LiveStarted(c), past);
      var once := OneOverrun(c, l, p, id, n - 1);
      RunsJoin(c, LiveStarted(c), past, once);
      run := past + once;
    }
  }

  /** Under every configuration, with cancellations that are overrun, any number of Agents of one
      profile come to be at work together, whatever the limits. */
  lemma OverrunsAreUnbounded(c: Config, p: string, id: string, n: nat) returns (run: seq<LiveStep>)
    requires ValidConfig(c)
    ensures IsLiveRun(c, LiveStarted(c), run) && |RunningOf(LiveFinal(c, LiveStarted(c), run), p)| == n
  {
    run := ManyOverrun(c, p, id, n);
    var l := LiveFinal(c, LiveStarted(c), run);
    assert RunningOf(l, p) == l.running;
  }
}
