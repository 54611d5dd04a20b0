/** What each registry step does to a task, and that a task cancelled in the queue is not started. */
module TaskLifecycle {
  import opened Basics
  import opened TaskRuntime
  import opened TaskRuntimeRuns
  import Q = TaskQueue
  import S = TaskQueueRuns

  // ---------------------------------------------------------------- one step

  function StatusOf(rt: Runtime, id: string): Option<Status> {
    if id in rt.states then Some(rt.states[id].status) else None
  }

  function MetaOf(rt: Runtime, id: string): Option<Meta> {
    if id in rt.states then Some(rt.states[id].meta) else None
  }

  /** The conversation is registered under another identity. */
  predicate IsForeign(rt: Runtime, conversation: string, identity: Identity) {
    var owner := if conversation in rt.latest then rt.latest[conversation] else conversation;
    MetaOf(rt, owner).Some? && MetaOf(rt, owner).value.identity != identity
  }

  /** The step registers the id as queued, with these metadata. */
  predicate Queues(rt: Runtime, e: Event, id: string, meta: Meta) {
    match e
    case EnqueueE(jd, m) => jd == id && m == meta && !Busy(rt, id)
    case SubmitE(c, jd, identity) =>
      jd == id && meta == Meta(Some(c), identity) && !Busy(rt, id) && !IsForeign(rt, c, identity)
    case _ => false
  }

  predicate IsQueuing(rt: Runtime, e: Event, id: string) {
    || (e.EnqueueE? && Queues(rt, e, id, e.meta))
    || (e.SubmitE? && Queues(rt, e, id, Meta(Some(e.conversation), e.identity)))
  }

  predicate Starts(rt: Runtime, e: Event, id: string) {
    e.StartE? && e.id == id && !Busy(rt, id)
  }

  predicate Resumes(rt: Runtime, e: Event, id: string) {
    e.ResumeE? && e.id == id && HasPending(rt, id) && StatusOf(rt, id) == Some(Interrupted)
  }

  /** The status that the step leaves under the id. */
  function StatusAfter(rt: Runtime, e: Event, id: string): Option<Status>
    requires Possible(rt, e)
  {
    if IsQueuing(rt, e, id) then Some(Queued)
    else if Starts(rt, e, id) then Some(Running)
    else if e.InterruptE? && e.id == id then Some(Interrupted)
    else if id !in rt.states then None
    else if e.CancelE? && e.id == id && Busy(rt, id) then Some(Cancelling)
    else if e.CancelE? && e.id == id && rt.states[id].status == Queued then Some(Cancelled)
    else if Resumes(rt, e, id) then Some(if e.d == Abort then Cancelling else Running)
    else if e.FinishE? && e.id == id && rt.outcome[e.h] == WasCancelled then Some(Cancelled)
    else if e.FinishE? && e.id == id && rt.outcome[e.h] == Raised then Some(Failed)
    else if e.FinishE? && e.id == id && rt.outcome[e.h] == Returned then Some(Succeeded)
    else Some(rt.states[id].status)
  }

  lemma ForeignIsRefused(rt: Runtime, c: string, id: string, identity: Identity)
    ensures Submit(rt, c, id, identity)
            == if IsForeign(rt, c, identity) then (rt, false) else Enqueue(rt, id, Meta(Some(c), identity))
  {}

  /** The statuses as one automaton: what a step leaves under any id. */
  lemma StatusMoves(rt: Runtime, e: Event, id: string)
    requires Possible(rt, e)
    ensures StatusOf(Next(rt, e), id) == StatusAfter(rt, e, id)
  {
    match e
    case SubmitE(c, jd, identity) => ForeignIsRefused(rt, c, jd, identity);
    case CancelE(jd) => CancelMoves(rt, jd, id);
    case ResumeE(jd, d) => ResumeMoves(rt, jd, d, id);
    case _ =>
  }

  lemma PopKeepsStates(rt: Runtime, jd: string, d: Decision)
    ensures var to := PopAndAnswer(rt, jd, d);
      to.states == rt.states && to.tasks == rt.tasks && to.outcome == rt.outcome && to.latest == rt.latest
  {}

  lemma SetStatusMoves(rt: Runtime, jd: string, now: Status, id: string)
    ensures StatusOf(SetStatus(rt, jd, now), id) == if jd == id && id in rt.states then Some(now) else StatusOf(rt, id)
    ensures MetaOf(SetStatus(rt, jd, now), id) == MetaOf(rt, id)
  {}

  lemma CancelMoves(rt: Runtime, jd: string, id: string)
    ensures StatusOf(Cancel(rt, jd).0, id) == StatusAfter(rt, CancelE(jd), id)
    ensures MetaOf(Cancel(rt, jd).0, id) == MetaOf(rt, id)
  {
    PopKeepsStates(rt, jd, Abort);
    SetStatusMoves(PopAndAnswer(rt, jd, Abort), jd, Cancelling, id);
    SetStatusMoves(PopAndAnswer(rt, jd, Abort), jd, Cancelled, id);
  }

  lemma ResumeMoves(rt: Runtime, jd: string, d: Decision, id: string)
    ensures StatusOf(Resume(rt, jd, d).0, id) == StatusAfter(rt, ResumeE(jd, d), id)
  {}

  /** What the caller of cancel is told, and that the id's open future is answered with abort. */
  lemma CancelAnswers(rt: Runtime, id: string)
    ensures Cancel(rt, id).1 <==> Busy(rt, id) || StatusOf(rt, id) == Some(Queued)
    ensures var to := Cancel(rt, id).0;
      && to.futures == rt.futures - {id}
      && to.future == (if HasPending(rt, id) then rt.future[rt.futures[id] := Answered(Abort)] else rt.future)
      && to.tasks == rt.tasks && to.outcome == rt.outcome && to.latest == rt.latest
  {
    assert id !in rt.futures ==> rt.futures - {id} == rt.futures;
  }

  /** What the caller of resume is told, and that the future is answered only if it went through. */
  lemma ResumeAnswers(rt: Runtime, id: string, d: Decision)
    ensures Resume(rt, id, d).1 <==> HasPending(rt, id) && StatusOf(rt, id) == Some(Interrupted)
    ensures var (to, ok) := Resume(rt, id, d);
      && to.futures == rt.futures - {id}
      && to.future == (if ok then rt.future[rt.futures[id] := Answered(d)] else rt.future)
      && to.tasks == rt.tasks && to.outcome == rt.outcome && to.latest == rt.latest
  {}

  /** An entry that is there is kept where the new metadata say nothing of it. */
  predicate IsMerged(before: Option<string>, given: Option<string>, now: Option<string>) {
    (given.Some? ==> now == given) && (given.None? ==> now == before)
  }

  predicate IsMergedMeta(before: Meta, given: Meta, now: Meta) {
    && IsMerged(before.conversation, given.conversation, now.conversation)
    && IsMerged(before.identity.tenant, given.identity.tenant, now.identity.tenant)
    && IsMerged(before.identity.user, given.identity.user, now.identity.user)
    && IsMerged(before.identity.shop, given.identity.shop, now.identity.shop)
  }

  /** Queueing replaces the metadata, a start adds to them, and no other step changes them; an
      interrupt of an unknown id registers it without any. */
  ghost predicate MetaAfter(rt: Runtime, e: Event, id: string, now: Option<Meta>) {
    var before := MetaOf(rt, id);
    if e.EnqueueE? && Queues(rt, e, id, e.meta) then now == Some(e.meta)
    else if IsQueuing(rt, e, id) then now == Some(Meta(Some(e.conversation), e.identity))
    else if Starts(rt, e, id)
    then now.Some? && IsMergedMeta(if before.Some? then before.value else NO_META, e.meta, now.value)
    else if e.InterruptE? && e.id == id && before == None then now == Some(NO_META)
    else now == before
  }

  lemma StartMerges(rt: Runtime, jd: string, meta: Meta, h: nat, id: string)
    ensures MetaAfter(rt, StartE(jd, meta, h), id, MetaOf(Start(rt, jd, meta, h).0, id))
  {}

  lemma QueueingReplaces(rt: Runtime, jd: string, meta: Meta, id: string)
    ensures MetaOf(Enqueue(rt, jd, meta).0, id) == if jd == id && !Busy(rt, id) then Some(meta) else MetaOf(rt, id)
  {}

  lemma ResumeKeepsMeta(rt: Runtime, jd: string, d: Decision, id: string)
    ensures MetaOf(Resume(rt, jd, d).0, id) == MetaOf(rt, id)
  {}

  lemma MetaMoves(rt: Runtime, e: Event, id: string)
    requires Possible(rt, e)
    ensures MetaAfter(rt, e, id, MetaOf(Next(rt, e), id))
  {
    match e
    case EnqueueE(jd, meta) => QueueingReplaces(rt, jd, meta, id);
    case SubmitE(c, jd, identity) =>
      ForeignIsRefused(rt, c, jd, identity);
      QueueingReplaces(rt, jd, Meta(Some(c), identity), id);
    case StartE(jd, meta, h) => StartMerges(rt, jd, meta, h, id);
    case CancelE(jd) => CancelMoves(rt, jd, id);
    case ResumeE(jd, d) => ResumeKeepsMeta(rt, jd, d, id);
    case _ =>
  }

  /** An interrupt stores a new open future under its id; starts and finishes touch none. */
  lemma FuturesMove(rt: Runtime, e: Event)
    requires Possible(rt, e) && !e.CancelE? && !e.ResumeE? && !e.LoseAwaitE?
    ensures var to := Next(rt, e);
      if e.InterruptE? then to.futures == rt.futures[e.id := e.f] && to.future == rt.future[e.f := Pending]
      else to.futures == rt.futures && to.future == rt.future
  {}

  /** A start stores a new unfinished task object, unless the id's own is unfinished still. */
  lemma TasksMove(rt: Runtime, e: Event)
    requires Possible(rt, e) && e.StartE?
    ensures var to := Next(rt, e);
      if Busy(rt, e.id) then to == rt
      else to.tasks == rt.tasks[e.id := e.h] && to.outcome == rt.outcome[e.h := Ongoing] && Busy(to, e.id)
  {}

  /** The step queues or starts its id for the conversation. */
  predicate Registers(rt: Runtime, e: Event, c: string) {
    && c != ""
    && match e
       case EnqueueE(id, meta) => Queues(rt, e, id, meta) && meta.conversation == Some(c)
       case SubmitE(d, id, identity) => Queues(rt, e, id, Meta(Some(d), identity)) && d == c
       case StartE(id, meta, _) => Starts(rt, e, id) && meta.conversation == Some(c)
       case _ => false
  }

  predicate SameEntry(now: map<string, string>, before: map<string, string>, c: string) {
    (c in now <==> c in before) && (c in now ==> now[c] == before[c])
  }

  lemma IndexMoves(latest: map<string, string>, meta: Meta, id: string, c: string)
    ensures var now := Index(latest, meta, id);
      if c != "" && meta.conversation == Some(c) then c in now && now[c] == id else SameEntry(now, latest, c)
  {}

  /** The latest task of a conversation is the last one queued or started for it. */
  lemma LatestMoves(rt: Runtime, e: Event, c: string)
    requires Possible(rt, e)
    ensures var now := Next(rt, e).latest;
      if Registers(rt, e, c) then c in now && now[c] == e.id else SameEntry(now, rt.latest, c)
  {
    match e
    case EnqueueE(id, meta) => IndexMoves(rt.latest, meta, id, c);
    case SubmitE(d, id, identity) =>
      ForeignIsRefused(rt, d, id, identity);
      IndexMoves(rt.latest, Meta(Some(d), identity), id, c);
    case StartE(id, meta, _) => IndexMoves(rt.latest, meta, id, c);
    case CancelE(id) => CancelAnswers(rt, id);
    case ResumeE(id, d) => ResumeAnswers(rt, id, d);
    case _ =>
  }

  // ---------------------------------------------------------------- cancelled in the queue

  /** The id is cancelled and no task object of it is unfinished. */
  predicate IsCancelled(rt: Runtime, id: string) {
    StatusOf(rt, id) == Some(Cancelled) && !Busy(rt, id)
  }

  /** The step queues, starts or interrupts the id again, or is the late finishing step of an earlier
      task object of it that has not been cancelled. */
  predicate Revives(rt: Runtime, e: Event, id: string)
    requires Possible(rt, e)
  {
    || IsQueuing(rt, e, id)
    || (e.StartE? && e.id == id)
    || (e.InterruptE? && e.id == id)
    || (e.FinishE? && e.id == id && rt.outcome[e.h] != WasCancelled)
  }

  lemma NotBusyStays(rt: Runtime, e: Event, id: string)
    requires Possible(rt, e) && S.NothingDropped(rt) && !Busy(rt, id) && !(e.StartE? && e.id == id)
    ensures !Busy(Next(rt, e), id)
  {
    if !e.StartE? { S.RuntimeKeepsTasks(rt, e); }
  }

  /** A cancelled task stays cancelled exactly in the steps that do not revive it. */
  lemma StaysCancelledExactlyWhen(rt: Runtime, e: Event, id: string)
    requires Possible(rt, e) && S.NothingDropped(rt) && IsCancelled(rt, id)
    ensures IsCancelled(Next(rt, e), id) <==> !Revives(rt, e, id)
  {
    StatusMoves(rt, e, id);
    if !Revives(rt, e, id) { NotBusyStays(rt, e, id); }
  }

  predicate RevivesIn(s: S.System, e: S.SystemStep, id: string)
    requires S.SystemEnabled(s, e)
  {
    e.InRuntime? && Revives(s.rt, e.event, id)
  }

  ghost predicate NeverRevives(c: Q.Config, s: S.System, run: seq<S.SystemStep>, id: string)
    requires S.IsSystemRun(c, s, run)
    decreases |run|
  {
    run == [] || (!RevivesIn(s, run[0], id) && NeverRevives(c, S.SystemNext(c, s, run[0]), run[1..], id))
  }

  /** The payload's handler has started an Agent of this task. */
  predicate HasStarted(s: S.System, j: nat, id: string) {
    j in s.agent && j in s.queue.jobs && s.queue.jobs[j].task == id
  }

  lemma OtherStartLeaves(rt: Runtime, jd: string, meta: Meta, h: nat, id: string)
    requires jd != id && h !in rt.outcome && S.NothingDropped(rt) && IsCancelled(rt, id)
    ensures IsCancelled(Start(rt, jd, meta, h).0, id)
  {}

  lemma CancelledStep(c: Q.Config, s: S.System, e: S.SystemStep, id: string)
    requires S.SystemInv(c, s) && S.SystemEnabled(s, e) && IsCancelled(s.rt, id) && !RevivesIn(s, e, id)
    ensures IsCancelled(S.SystemNext(c, s, e).rt, id)
    ensures forall j :: HasStarted(S.SystemNext(c, s, e), j, id) ==> HasStarted(s, j, id)
  {
    match e
    case InQueue(step) =>
    case InRuntime(event) => StaysCancelledExactlyWhen(s.rt, event, id);
    case StartAgent(k, meta, h) =>
      if s.queue.jobs[k].task != id { OtherStartLeaves(s.rt, s.queue.jobs[k].task, meta, h, id); }
  }

  lemma {:induction false} CancelledRun(c: Q.Config, s: S.System, run: seq<S.SystemStep>, id: string)
    requires S.SystemInv(c, s) && S.IsSystemRun(c, s, run) && IsCancelled(s.rt, id) && NeverRevives(c, s, run, id)
    ensures IsCancelled(S.SystemFinal(c, s, run).rt, id)
    ensures forall j :: HasStarted(S.SystemFinal(c, s, run), j, id) ==> HasStarted(s, j, id)
    decreases |run|
  {
    if run != [] {
      CancelledStep(c, s, run[0], id);
      S.SystemStepKeepsInv(c, s, run[0]);
      CancelledRun(c, S.SystemNext(c, s, run[0]), run[1..], id);
    }
  }

  /** After any system run, cancel a queued task: it is cancelled, and stays so in every
      continuation that does not revive it, in which no handler starts an Agent of it. */
  lemma CancelledInQueueIsNotStarted(c: Q.Config, past: seq<S.SystemStep>, run: seq<S.SystemStep>, id: string)
    requires Q.ValidConfig(c) && S.IsSystemRun(c, S.System(Q.Started(c), INITIAL, map[]), past)
    requires var s := S.SystemFinal(c, S.System(Q.Started(c), INITIAL, map[]), past);
      var cancelled := S.SystemNext(c, s, S.InRuntime(CancelE(id)));
      && StatusOf(s.rt, id) == Some(Queued) && !Busy(s.rt, id)
      && S.IsSystemRun(c, cancelled, run) && NeverRevives(c, cancelled, run, id)
    ensures var s := S.SystemFinal(c, S.System(Q.Started(c), INITIAL, map[]), past);
      var end := S.SystemFinal(c, S.SystemNext(c, s, S.InRuntime(CancelE(id))), run);
      && StatusOf(end.rt, id) == Some(Cancelled)
      && forall j :: HasStarted(end, j, id) ==> HasStarted(s, j, id)
  {
    var start := S.System(Q.Started(c), INITIAL, map[]);
    S.SystemInvHolds(c, start, past);
    var s := S.SystemFinal(c, start, past);
    var cancel := S.InRuntime(CancelE(id));
    S.SystemStepKeepsInv(c, s, cancel);
    StatusMoves(s.rt, CancelE(id), id);
    NotBusyStays(s.rt, CancelE(id), id);
    CancelledRun(c, S.SystemNext(c, s, cancel), run, id);
  }

  // ---------------------------------------------------------------- a late finish

  /** A task object of the id ends, the id is queued again and cancelled, and only then does the
      finishing step of the ended object come: cancel has said yes, yet the task counts as succeeded
      and its handler starts an Agent. */
  lemma LateFinishRevives(rt: Runtime, id: string, meta: Meta, h: nat, g: nat)
    requires IsTask(rt, id, h) && rt.outcome[h] == Returned && g !in rt.outcome
    ensures var cancelled := Cancel(Enqueue(rt, id, meta).0, id);
      && cancelled.1 && IsCancelled(cancelled.0, id)
      && StatusOf(Finish(cancelled.0, id, h), id) == Some(Succeeded)
      && !S.CancelledInQueue(Finish(cancelled.0, id, h), id)
      && Start(Finish(cancelled.0, id, h), id, meta, g).1
  {}

  predicate IsTask(rt: Runtime, id: string, h: nat) {
    id in rt.tasks && rt.tasks[id] == h && h in rt.outcome
  }

  lemma StepThen(c: Q.Config, s: S.System, e: S.SystemStep, rest: seq<S.SystemStep>)
    requires S.SystemEnabled(s, e) && S.IsSystemRun(c, S.SystemNext(c, s, e), rest)
    ensures S.IsSystemRun(c, s, [e] + rest)
    ensures S.SystemFinal(c, s, [e] + rest) == S.SystemFinal(c, S.SystemNext(c, s, e), rest)
  {
    assert ([e] + rest)[1..] == rest;
  }

  /** The payload of the task is at its handler. */
  predicate IsHandling(q: Q.Queue, j: nat, id: string) {
    Q.At(q, j, Q.Handling) && q.jobs[j].task == id
  }

  /** The payload is put and comes to its handler; the rest of the run follows. */
  lemma PutAndHandled(c: Q.Config, id: string, profile: string, rest: seq<S.SystemStep>)
    returns (run: seq<S.SystemStep>)
    requires Q.ValidConfig(c)
    requires forall q: Q.Queue :: IsHandling(q, 1, id) ==>
               && S.IsSystemRun(c, S.System(q, INITIAL, map[]), rest)
               && HasStarted(S.SystemFinal(c, S.System(q, INITIAL, map[]), rest), 1, id)
    ensures |run| == 5 + |rest| && run[5..] == rest
    ensures S.IsSystemRun(c, S.System(Q.Started(c), INITIAL, map[]), run)
    ensures HasStarted(S.SystemFinal(c, S.System(Q.Started(c), INITIAL, map[]), run), 1, id)
  {
    var put, begin := S.InQueue(Q.Put(1, profile, id)), S.InQueue(Q.Begin(1));
    var s0 := S.System(Q.Started(c), INITIAL, map[]);
    var s1 := S.SystemNext(c, s0, put);
    var s2 := S.SystemNext(c, s1, S.InQueue(Q.Take));
    var s3 := S.SystemNext(c, s2, begin);
    var s4 := S.SystemNext(c, s3, S.InQueue(Q.TakeGlobal(1)));
    var s5 := S.SystemNext(c, s4, S.InQueue(Q.TakeProfile(1)));
    assert IsHandling(s5.queue, 1, id);
    StepThen(c, s4, S.InQueue(Q.TakeProfile(1)), rest);
    var run4 := [S.InQueue(Q.TakeProfile(1))] + rest;
    StepThen(c, s3, S.InQueue(Q.TakeGlobal(1)), run4);
    var run3 := [S.InQueue(Q.TakeGlobal(1))] + run4;
    StepThen(c, s2, begin, run3);
    StepThen(c, s1, S.InQueue(Q.Take), [begin] + run3);
    StepThen(c, s0, put, [S.InQueue(Q.Take)] + ([begin] + run3));
    run := [put] + ([S.InQueue(Q.Take)] + ([begin] + run3));
  }

  predicate AnyStep(rt: Runtime, e: Event) {
    true
  }

  function Lifted(events: seq<Event>): seq<S.SystemStep> {
    seq(|events|, i requires 0 <= i < |events| => S.InRuntime(events[i]))
  }

  /** Registry steps alone, and then the rest of a system run. */
  lemma {:induction false} RegistryFirst(c: Q.Config, q: Q.Queue, rt: Runtime, events: seq<Event>,
      rest: seq<S.SystemStep>)
    requires IsRun(AnyStep, rt, events)
    requires S.IsSystemRun(c, S.System(q, Final(AnyStep, rt, events), map[]), rest)
    ensures S.IsSystemRun(c, S.System(q, rt, map[]), Lifted(events) + rest)
    ensures S.SystemFinal(c, S.System(q, rt, map[]), Lifted(events) + rest)
            == S.SystemFinal(c, S.System(q, Final(AnyStep, rt, events), map[]), rest)
    decreases |events|
  {
    if events == [] {
      assert Lifted(events) + rest == rest;
    } else {
      RegistryFirst(c, q, Next(rt, events[0]), events[1..], rest);
      StepThen(c, S.System(q, rt, map[]), S.InRuntime(events[0]), Lifted(events[1..]) + rest);
      assert Lifted(events) + rest == [S.InRuntime(events[0])] + (Lifted(events[1..]) + rest);
    }
  }

  /** The id is queued and cancelled, and an earlier task object of it finishes. */
  function LateSteps(id: string): seq<Event> {
    [EnqueueE(id, NO_META), CancelE(id), FinishE(id, 0)]
  }

  function LateFinish(id: string): seq<Event> {
    [StartE(id, NO_META, 0)] + ([CompleteE(0, Returned)] + LateSteps(id))
  }

  lemma LateStepsAreRun(rt: Runtime, id: string)
    requires IsTask(rt, id, 0) && rt.outcome[0] == Returned && 1 !in rt.outcome
    ensures IsRun(AnyStep, rt, LateSteps(id))
    ensures var to := Final(AnyStep, rt, LateSteps(id));
      !S.CancelledInQueue(to, id) && !Busy(to, id) && 1 !in to.outcome
  {
    var one := Enqueue(rt, id, NO_META).0;
    var two := Cancel(one, id).0;
    LateFinishRevives(rt, id, NO_META, 0, 1);
    CancelAnswers(one, id);
    RunStartsWith(AnyStep, two, FinishE(id, 0), []);
    RunStartsWith(AnyStep, one, CancelE(id), [FinishE(id, 0)]);
    RunStartsWith(AnyStep, rt, EnqueueE(id, NO_META), [CancelE(id), FinishE(id, 0)]);
    assert LateSteps(id) == [EnqueueE(id, NO_META)] + ([CancelE(id)] + ([FinishE(id, 0)] + []));
  }

  lemma LateFinishIsRun(id: string)
    ensures IsRun(AnyStep, INITIAL, LateFinish(id))
    ensures var to := Final(AnyStep, INITIAL, LateFinish(id));
      !S.CancelledInQueue(to, id) && !Busy(to, id) && 1 !in to.outcome
  {
    var one := Start(INITIAL, id, NO_META, 0).0;
    var two := Next(one, CompleteE(0, Returned));
    LateStepsAreRun(two, id);
    RunStartsWith(AnyStep, one, CompleteE(0, Returned), LateSteps(id));
    RunStartsWith(AnyStep, INITIAL, StartE(id, NO_META, 0), [CompleteE(0, Returned)] + LateSteps(id));
  }

  lemma AgentIsStarted(c: Q.Config, q: Q.Queue, rt: Runtime, id: string)
    requires IsHandling(q, 1, id) && !S.CancelledInQueue(rt, id) && !Busy(rt, id) && 1 !in rt.outcome
    ensures S.IsSystemRun(c, S.System(q, rt, map[]), [S.StartAgent(1, NO_META, 1)])
    ensures HasStarted(S.SystemFinal(c, S.System(q, rt, map[]), [S.StartAgent(1, NO_META, 1)]), 1, id)
  {
    StepThen(c, S.System(q, rt, map[]), S.StartAgent(1, NO_META, 1), []);
    assert [S.StartAgent(1, NO_META, 1)] + [] == [S.StartAgent(1, NO_META, 1)];
  }

  /** Such a run from the start. */
  lemma CancelledYetStarted(c: Q.Config, id: string, profile: string) returns (run: seq<S.SystemStep>)
    requires Q.ValidConfig(c)
    ensures |run| == 11 && run[8] == S.InRuntime(CancelE(id)) && run[10] == S.StartAgent(1, NO_META, 1)
    ensures S.IsSystemRun(c, S.System(Q.Started(c), INITIAL, map[]), run)
    ensures HasStarted(S.SystemFinal(c, S.System(Q.Started(c), INITIAL, map[]), run), 1, id)
  {
    var late := Lifted(LateFinish(id)) + [S.StartAgent(1, NO_META, 1)];
    LateFinishIsRun(id);
    forall q: Q.Queue | IsHandling(q, 1, id)
      ensures S.IsSystemRun(c, S.System(q, INITIAL, map[]), late)
           && HasStarted(S.SystemFinal(c, S.System(q, INITIAL, map[]), late), 1, id)
    {
      AgentIsStarted(c, q, Final(AnyStep, INITIAL, LateFinish(id)), id);
      RegistryFirst(c, q, INITIAL, LateFinish(id), [S.StartAgent(1, NO_META, 1)]);
    }
    run := PutAndHandled(c, id, profile, late);
    assert LateFinish(id)[3] == CancelE(id);
    assert run[8] == run[5..][3] && run[10] == run[5..][5];
  }
}
