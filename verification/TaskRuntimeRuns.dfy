/** What holds over whole runs of the task registry, in every interleaving of its steps. */
module TaskRuntimeRuns {
  import opened Basics
  import opened TaskRuntime

  /** The steps of the registry and of the event loop. `Complete` ends a task object;
      `LoseAwait` is the loop cancelling the wait for a future, which closes the future. */
  datatype Event =
    | EnqueueE(id: string, meta: Meta)
    | SubmitE(conversation: string, id: string, identity: Identity)
    | StartE(id: string, meta: Meta, h: nat)
    | CancelE(id: string)
    | InterruptE(id: string, f: nat)
    | ResumeE(id: string, d: Decision)
    | FinishE(id: string, h: nat)
    | CompleteE(h: nat, o: Outcome)
    | LoseAwaitE(f: nat)

  /** POST /api/task: refused when the conversation is known and not the caller's. */
  function Submit(rt: Runtime, c: string, id: string, identity: Identity): (Runtime, bool) {
    if ConversationExists(rt, c) && !OwnsConversation(rt, c, identity) then (rt, false)
    else Enqueue(rt, id, Meta(Some(c), identity))
  }

  /** What asyncio itself guarantees: new objects are new, only unfinished tasks end, the
      finishing step runs on a task that has ended, only open futures close. */
  predicate Possible(rt: Runtime, e: Event) {
    match e
    case StartE(_, _, h) => h !in rt.outcome
    case InterruptE(_, f) => f !in rt.future
    case FinishE(_, h) => h in rt.outcome && rt.outcome[h] != Ongoing
    case CompleteE(h, o) => Unfinished(rt, h) && o != Ongoing
    case LoseAwaitE(f) => IsPending(rt, f)
    case _ => true
  }

  function Next(rt: Runtime, e: Event): Runtime
    requires Possible(rt, e)
  {
    match e
    case EnqueueE(id, meta) => Enqueue(rt, id, meta).0
    case SubmitE(c, id, identity) => Submit(rt, c, id, identity).0
    case StartE(id, meta, h) => Start(rt, id, meta, h).0
    case CancelE(id) => Cancel(rt, id).0
    case InterruptE(id, f) => Interrupt(rt, id, f)
    case ResumeE(id, d) => Resume(rt, id, d).0
    case FinishE(id, h) => Finish(rt, id, h)
    case CompleteE(h, o) => rt.(outcome := rt.outcome[h := o])
    case LoseAwaitE(f) => rt.(future := rt.future[f := AwaitCancelled])
  }

  /** A run every step of which is possible and satisfies `rule`. */
  ghost predicate IsRun(rule: (Runtime, Event) -> bool, rt: Runtime, run: seq<Event>)
    decreases |run|
  {
    run == [] || (Possible(rt, run[0]) && rule(rt, run[0]) && IsRun(rule, Next(rt, run[0]), run[1..]))
  }

  ghost function Final(rule: (Runtime, Event) -> bool, rt: Runtime, run: seq<Event>): Runtime
    requires IsRun(rule, rt, run)
    decreases |run|
  {
    if run == [] then rt else Final(rule, Next(rt, run[0]), run[1..])
  }

  lemma RunStartsWith(rule: (Runtime, Event) -> bool, rt: Runtime, e: Event, rest: seq<Event>)
    requires Possible(rt, e) && rule(rt, e) && IsRun(rule, Next(rt, e), rest)
    ensures IsRun(rule, rt, [e] + rest) && Final(rule, rt, [e] + rest) == Final(rule, Next(rt, e), rest)
  {
    assert ([e] + rest)[1..] == rest;
  }

  // ---------------------------------------------------------------- no lost wake-up

  /** The caller's side: an id is started once; a task interrupts under its own id, while it
      runs and without an interrupt still open there; it cannot end while its own wait is open. */
  ghost predicate Obliging(rt: Runtime, e: Event) {
    match e
    case StartE(id, _, _) => id !in rt.tasks
    case InterruptE(id, _) => Busy(rt, id) && !HasPending(rt, id)
    case FinishE(id, h) => id in rt.tasks && rt.tasks[id] == h
    case CompleteE(h, _) => forall id :: id in rt.tasks && rt.tasks[id] == h ==> !HasPending(rt, id)
    case _ => true
  }

  predicate Waits(rt: Runtime, id: string, f: nat) {
    id in rt.futures && rt.futures[id] == f
  }

  ghost predicate WakeInv(rt: Runtime) {
    && (forall id :: id in rt.futures ==> rt.futures[id] in rt.future)
    && (forall id, jd :: id in rt.futures && jd in rt.futures && rt.futures[id] == rt.futures[jd] ==> id == jd)
    && (forall id :: HasPending(rt, id) ==> Busy(rt, id) && id in rt.states && rt.states[id].status == Interrupted)
    && (forall id, jd :: id in rt.tasks && jd in rt.tasks && rt.tasks[id] == rt.tasks[jd] ==> id == jd)
    && (forall id :: id in rt.tasks ==> rt.tasks[id] in rt.outcome)
    && (forall f :: IsPending(rt, f) ==> exists id :: Waits(rt, id, f))
  }

  /** Steps that touch only what no open future depends on: other ids' states, tasks and the
      conversation index. */
  lemma WakeFrame(rt: Runtime, to: Runtime)
    requires WakeInv(rt) && to.futures == rt.futures && to.future == rt.future
    requires forall id :: HasPending(rt, id) ==>
               Busy(to, id) && id in to.states && to.states[id].status == Interrupted
    requires forall id, jd :: id in to.tasks && jd in to.tasks && to.tasks[id] == to.tasks[jd] ==> id == jd
    requires forall id :: id in to.tasks ==> to.tasks[id] in to.outcome
    ensures WakeInv(to)
  {
    forall f | IsPending(to, f) ensures exists id :: Waits(to, id, f) {
      assert IsPending(rt, f);
      var id :| Waits(rt, id, f);
      assert Waits(to, id, f);
    }
    forall id | HasPending(to, id) ensures HasPending(rt, id) {}
  }

  lemma WakeEnqueue(rt: Runtime, id: string, meta: Meta)
    requires WakeInv(rt)
    ensures WakeInv(Enqueue(rt, id, meta).0)
  {
    WakeFrame(rt, Enqueue(rt, id, meta).0);
  }

  lemma WakeStart(rt: Runtime, id: string, meta: Meta, h: nat)
    requires WakeInv(rt) && h !in rt.outcome && id !in rt.tasks
    ensures WakeInv(Start(rt, id, meta, h).0)
  {
    WakeFrame(rt, Start(rt, id, meta, h).0);
  }

  lemma WakeStatus(rt: Runtime, id: string, s: Status)
    requires WakeInv(rt) && !HasPending(rt, id)
    ensures WakeInv(SetStatus(rt, id, s))
  {
    WakeFrame(rt, SetStatus(rt, id, s));
  }

  lemma PopKeepsWaiters(rt: Runtime, id: string, d: Decision, f: nat)
    requires WakeInv(rt) && IsPending(PopAndAnswer(rt, id, d), f)
    ensures exists jd :: Waits(PopAndAnswer(rt, id, d), jd, f)
  {
    assert IsPending(rt, f);
    var jd :| Waits(rt, jd, f);
    assert Waits(PopAndAnswer(rt, id, d), jd, f);
  }

  /** Taking an id's future out is harmless when it is answered or was closed before. */
  lemma WakePop(rt: Runtime, id: string, d: Decision)
    requires WakeInv(rt)
    ensures WakeInv(PopAndAnswer(rt, id, d)) && !HasPending(PopAndAnswer(rt, id, d), id)
  {
    var to := PopAndAnswer(rt, id, d);
    forall jd | HasPending(to, jd) ensures HasPending(rt, jd) {}
    forall f | IsPending(to, f) ensures exists jd :: Waits(to, jd, f) {
      PopKeepsWaiters(rt, id, d, f);
    }
  }

  lemma WakeInterrupt(rt: Runtime, id: string, f: nat)
    requires WakeInv(rt) && f !in rt.future && Busy(rt, id) && !HasPending(rt, id)
    ensures WakeInv(Interrupt(rt, id, f))
  {
    var to := Interrupt(rt, id, f);
    forall jd | HasPending(to, jd) ensures jd == id || HasPending(rt, jd) {}
    forall g | IsPending(to, g) ensures exists jd :: Waits(to, jd, g) {
      if g == f {
        assert Waits(to, id, g);
      } else {
        assert IsPending(rt, g);
        var jd :| Waits(rt, jd, g);
        assert Waits(to, jd, g);
      }
    }
  }

  lemma WakeResume(rt: Runtime, id: string, d: Decision)
    requires WakeInv(rt)
    ensures WakeInv(Resume(rt, id, d).0)
  {
    WakePop(rt, id, d);
    if HasPending(rt, id) {
      WakeStatus(PopAndAnswer(rt, id, d), id, if d == Abort then Cancelling else Running);
    } else {
      assert rt.(futures := rt.futures - {id}) == PopAndAnswer(rt, id, d) || rt.futures - {id} == rt.futures;
    }
  }

  lemma WakeCancel(rt: Runtime, id: string)
    requires WakeInv(rt)
    ensures WakeInv(Cancel(rt, id).0)
  {
    WakePop(rt, id, Abort);
    WakeStatus(PopAndAnswer(rt, id, Abort), id, Cancelling);
    WakeStatus(PopAndAnswer(rt, id, Abort), id, Cancelled);
  }

  lemma WakeLoseAwait(rt: Runtime, f: nat)
    requires WakeInv(rt) && IsPending(rt, f)
    ensures WakeInv(Next(rt, LoseAwaitE(f)))
  {
    var to := rt.(future := rt.future[f := AwaitCancelled]);
    forall jd | HasPending(to, jd) ensures HasPending(rt, jd) {}
    forall g | IsPending(to, g) ensures exists jd :: Waits(to, jd, g) {
      assert IsPending(rt, g);
      var jd :| Waits(rt, jd, g);
      assert Waits(to, jd, g);
    }
  }

  lemma WakeStep(rt: Runtime, e: Event)
    requires WakeInv(rt) && Possible(rt, e) && Obliging(rt, e)
    ensures WakeInv(Next(rt, e))
  {
    match e
    case EnqueueE(id, meta) => WakeEnqueue(rt, id, meta);
    case SubmitE(c, id, identity) => WakeEnqueue(rt, id, Meta(Some(c), identity));
    case StartE(id, meta, h) => WakeStart(rt, id, meta, h);
    case CancelE(id) => WakeCancel(rt, id);
    case InterruptE(id, f) => WakeInterrupt(rt, id, f);
    case ResumeE(id, d) => WakeResume(rt, id, d);
    case FinishE(id, h) => WakeStatus(rt, id, StatusFor(rt.outcome[h]));
    case CompleteE(h, o) => WakeFrame(rt, Next(rt, e));
    case LoseAwaitE(f) => WakeLoseAwait(rt, f);
  }

  lemma {:induction false} WakeInvHolds(rt: Runtime, run: seq<Event>)
    requires WakeInv(rt) && IsRun(Obliging, rt, run)
    ensures WakeInv(Final(Obliging, rt, run))
    decreases |run|
  {
    if run != [] {
      WakeStep(rt, run[0]);
      WakeInvHolds(Next(rt, run[0]), run[1..]);
    }
  }

  /** `f` is stored under `id`, where a resume answers it with `d` and a cancel with abort. */
  predicate Wakeable(rt: Runtime, id: string, f: nat, d: Decision) {
    && Waits(rt, id, f) && id in rt.states && rt.states[id].status == Interrupted
    && Resume(rt, id, d).1 && f in Resume(rt, id, d).0.future && Resume(rt, id, d).0.future[f] == Answered(d)
    && Cancel(rt, id).1 && f in Cancel(rt, id).0.future && Cancel(rt, id).0.future[f] == Answered(Abort)
  }

  /** No lost wake-up: after every obliging run, each open interrupt future is still stored
      under an id whose status is `interrupted`, where resume and cancel answer it. */
  lemma NoLostWakeUp(run: seq<Event>, f: nat, d: Decision)
    requires IsRun(Obliging, INITIAL, run) && IsPending(Final(Obliging, INITIAL, run), f)
    ensures exists id :: Wakeable(Final(Obliging, INITIAL, run), id, f, d)
  {
    WakeInvHolds(INITIAL, run);
    var rt := Final(Obliging, INITIAL, run);
    var id :| Waits(rt, id, f);
    assert HasPending(rt, id);
    assert Wakeable(rt, id, f, d);
  }

  /** The open future of `id` is dropped without being closed. */
  predicate Loses(rt: Runtime, to: Runtime, id: string)
    requires id in rt.futures
  {
    IsPending(to, rt.futures[id]) && !Waits(to, id, rt.futures[id])
  }

  lemma PopLosesNothing(rt: Runtime, jd: string, d: Decision, id: string)
    requires HasPending(rt, id)
    requires forall kd :: kd in rt.futures && rt.futures[kd] == rt.futures[id] ==> kd == id
    ensures !Loses(rt, PopAndAnswer(rt, jd, d), id)
  {}

  lemma ResumeLoses(rt: Runtime, jd: string, d: Decision, id: string)
    requires HasPending(rt, id)
    requires forall kd :: kd in rt.futures && rt.futures[kd] == rt.futures[id] ==> kd == id
    ensures Loses(rt, Resume(rt, jd, d).0, id)
      <==> jd == id && !(id in rt.states && rt.states[id].status == Interrupted)
  {}

  /** In any state whatever, the steps that drop an open future without closing it are
      exactly two: a second interrupt under the same id, and a resume that finds another
      status there. */
  lemma LosingStepsExactly(rt: Runtime, e: Event, id: string)
    requires Possible(rt, e) && HasPending(rt, id)
    requires forall jd :: jd in rt.futures && rt.futures[jd] == rt.futures[id] ==> jd == id
    ensures var to := Next(rt, e);
      Loses(rt, to, id)
      <==> || (e.InterruptE? && e.id == id)
           || (e.ResumeE? && e.id == id && !(id in rt.states && rt.states[id].status == Interrupted))
  {
    match e
    case ResumeE(jd, d) => ResumeLoses(rt, jd, d, id);
    case CancelE(jd) => PopLosesNothing(rt, jd, Abort, id);
    case _ =>
  }
}
