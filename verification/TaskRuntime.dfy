/** api/task_runtime.py: the in-memory task registry with cancel, interrupt and resume.

    The lock is never held across a suspension point, so each method is one atomic step;
    an interrupt's second half, the wait for its future, is the event loop's business.
    Asyncio's task and future objects are numbers; `outcome` and `future` hold what the
    loop knows of them. A state dictionary is its status and the metadata keys that are
    ever read: conversation_id, tenant_id, user_id and shop_id. */
module TaskRuntime {
  import opened Basics

  datatype Status = Queued | Running | Interrupted | Cancelling | Cancelled | Failed | Succeeded
  datatype Decision = Continue | Revise | Abort

  datatype Outcome = Ongoing | WasCancelled | Raised | Returned
  datatype FutureState = Pending | Answered(decision: Decision) | AwaitCancelled

  datatype Identity = Identity(tenant: Option<string>, user: Option<string>, shop: Option<string>)
  datatype Meta = Meta(conversation: Option<string>, identity: Identity)

  const NO_META := Meta(None, Identity(None, None, None))

  datatype TaskState = TaskState(status: Status, meta: Meta)

  datatype Runtime = Runtime(
    tasks: map<string, nat>,
    outcome: map<nat, Outcome>,
    states: map<string, TaskState>,
    futures: map<string, nat>,
    future: map<nat, FutureState>,
    latest: map<string, string>)

  const INITIAL := Runtime(map[], map[], map[], map[], map[], map[])

  predicate Unfinished(rt: Runtime, h: nat) {
    h in rt.outcome && rt.outcome[h] == Ongoing
  }

  /** `thread_id in self._tasks and not self._tasks[thread_id].done()` */
  predicate Busy(rt: Runtime, id: string) {
    id in rt.tasks && Unfinished(rt, rt.tasks[id])
  }

  predicate IsPending(rt: Runtime, f: nat) {
    f in rt.future && rt.future[f] == Pending
  }

  predicate HasPending(rt: Runtime, id: string) {
    id in rt.futures && IsPending(rt, rt.futures[id])
  }

  /** A dictionary's `.get` after `{**old, **new}`. */
  function Merged(old_: Option<string>, new_: Option<string>): Option<string> {
    if new_.Some? then new_ else old_
  }

  function Merge(a: Meta, b: Meta): Meta {
    Meta(Merged(a.conversation, b.conversation),
         Identity(Merged(a.identity.tenant, b.identity.tenant),
                  Merged(a.identity.user, b.identity.user),
                  Merged(a.identity.shop, b.identity.shop)))
  }

  function Index(latest: map<string, string>, meta: Meta, id: string): map<string, string> {
    if meta.conversation.Some? && meta.conversation.value != "" then latest[meta.conversation.value := id] else latest
  }

  // ---------------------------------------------------------------- the steps

  /** Refused (the error of line 18) while the id's task is unfinished. */
  function Enqueue(rt: Runtime, id: string, meta: Meta): (Runtime, bool) {
    if Busy(rt, id) then (rt, false)
    else (rt.(states := rt.states[id := TaskState(Queued, meta)], latest := Index(rt.latest, meta, id)), true)
  }

  function OldMeta(rt: Runtime, id: string): Meta {
    if id in rt.states then rt.states[id].meta else NO_META
  }

  function Start(rt: Runtime, id: string, meta: Meta, h: nat): (Runtime, bool) {
    if Busy(rt, id) then (rt, false)
    else (rt.(tasks := rt.tasks[id := h],
              outcome := rt.outcome[h := Ongoing],
              states := rt.states[id := TaskState(Running, Merge(OldMeta(rt, id), meta))],
              latest := Index(rt.latest, meta, id)), true)
  }

  function SetStatus(rt: Runtime, id: string, s: Status): Runtime {
    if id in rt.states then rt.(states := rt.states[id := rt.states[id].(status := s)]) else rt
  }

  /** Takes the id's future out of the registry, answering it first when it is still open. */
  function PopAndAnswer(rt: Runtime, id: string, d: Decision): Runtime {
    if id !in rt.futures then rt
    else if HasPending(rt, id) then
      rt.(futures := rt.futures - {id}, future := rt.future[rt.futures[id] := Answered(d)])
    else rt.(futures := rt.futures - {id})
  }

  function Cancel(rt: Runtime, id: string): (Runtime, bool) {
    var popped := PopAndAnswer(rt, id, Abort);
    if Busy(rt, id) then (SetStatus(popped, id, Cancelling), true)
    else if id in rt.states && rt.states[id].status == Queued then (SetStatus(popped, id, Cancelled), true)
    else (popped, false)
  }

  function Interrupt(rt: Runtime, id: string, f: nat): Runtime {
    rt.(futures := rt.futures[id := f],
        future := rt.future[f := Pending],
        states := rt.states[id := TaskState(Interrupted, OldMeta(rt, id))])
  }

  /** The future is popped first, whether or not the call then goes through. */
  function Resume(rt: Runtime, id: string, d: Decision): (Runtime, bool) {
    if HasPending(rt, id) && id in rt.states && rt.states[id].status == Interrupted then
      (SetStatus(PopAndAnswer(rt, id, d), id, if d == Abort then Cancelling else Running), true)
    else (rt.(futures := rt.futures - {id}), false)
  }

  function StatusFor(o: Outcome): Status
    requires o != Ongoing
  {
    match o
    case WasCancelled => Cancelled
    case Raised => Failed
    case Returned => Succeeded
  }

  function Finish(rt: Runtime, id: string, h: nat): Runtime
    requires h in rt.outcome && rt.outcome[h] != Ongoing
  {
    SetStatus(rt, id, StatusFor(rt.outcome[h]))
  }

  // ---------------------------------------------------------------- scoped reads

  function Resolve(rt: Runtime, x: string): string {
    if x in rt.latest then rt.latest[x] else x
  }

  predicate MatchesIdentity(state: TaskState, identity: Identity) {
    state.meta.identity == identity
  }

  function GetScoped(rt: Runtime, x: string, identity: Identity): Option<TaskState> {
    var id := Resolve(rt, x);
    if id in rt.states && MatchesIdentity(rt.states[id], identity) then Some(rt.states[id]) else None
  }

  predicate OwnsConversation(rt: Runtime, c: string, identity: Identity) {
    GetScoped(rt, c, identity).Some?
  }

  predicate ConversationExists(rt: Runtime, c: string) {
    Resolve(rt, c) in rt.states
  }

  // ---------------------------------------------------------------- the class

  class TaskRegistry {
    var tasks: map<string, nat>
    var outcome: map<nat, Outcome>
    var states: map<string, TaskState>
    var interruptFutures: map<string, nat>
    var future: map<nat, FutureState>
    var conversationLatestTask: map<string, string>

    function View(): Runtime
      reads this
    {
      Runtime(tasks, outcome, states, interruptFutures, future, conversationLatestTask)
    }

    constructor ()
      ensures View() == INITIAL
    {
      tasks, outcome, states := map[], map[], map[];
      interruptFutures, future, conversationLatestTask := map[], map[], map[];
    }

    method IndexConversation(id: string, meta: Meta)
      modifies this`conversationLatestTask
      ensures conversationLatestTask == Index(old(conversationLatestTask), meta, id)
    {
      if meta.conversation.Some? && meta.conversation.value != "" {
        conversationLatestTask := conversationLatestTask[meta.conversation.value := id];
      }
    }

    method EnqueueTask(id: string, meta: Meta) returns (ok: bool)
      modifies this
      ensures (View(), ok) == Enqueue(old(View()), id, meta)
    {
      if id in tasks && !(tasks[id] !in outcome || outcome[tasks[id]] != Ongoing) { return false; }
      states := states[id := TaskState(Queued, meta)];
      IndexConversation(id, meta);
      ok := true;
    }

    method StartTask(id: string, meta: Meta, h: nat) returns (ok: bool)
      requires h !in outcome
      modifies this
      ensures (View(), ok) == Start(old(View()), id, meta, h)
    {
      if id in tasks && !(tasks[id] !in outcome || outcome[tasks[id]] != Ongoing) { return false; }
      tasks, outcome := tasks[id := h], outcome[h := Ongoing];
      var known := NO_META;
      if id in states { known := states[id].meta; }
      states := states[id := TaskState(Running, Merge(known, meta))];
      IndexConversation(id, meta);
      ok := true;
    }

    method CancelTask(id: string) returns (ok: bool)
      requires id in tasks ==> id in states
      modifies this
      ensures (View(), ok) == Cancel(old(View()), id)
      ensures var busy, queued := old(Busy(View(), id)), old(id in states && states[id].status == Queued);
        && ok == (busy || queued) && (busy ==> states[id].status == Cancelling)
        && (!busy && queued ==> states[id].status == Cancelled)
    {
      if id in interruptFutures {
        var f := interruptFutures[id];
        interruptFutures := interruptFutures - {id};
        if f in future && future[f] == Pending { future := future[f := Answered(Abort)]; }
      }
      if id !in tasks || tasks[id] !in outcome || outcome[tasks[id]] != Ongoing {
        if id in states && states[id].status == Queued {
          states := states[id := states[id].(status := Cancelled)];
          return true;
        }
        return false;
      }
      states := states[id := states[id].(status := Cancelling)];
      ok := true;
    }

    method InterruptTask(id: string, f: nat)
      requires f !in future
      modifies this
      ensures View() == Interrupt(old(View()), id, f)
    {
      future := future[f := Pending];
      interruptFutures := interruptFutures[id := f];
      var meta := NO_META;
      if id in states { meta := states[id].meta; }
      states := states[id := TaskState(Interrupted, meta)];
    }

    method ResumeTask(id: string, d: Decision) returns (ok: bool)
      modifies this
      ensures (View(), ok) == Resume(old(View()), id, d)
    {
      if id !in interruptFutures {
        assert interruptFutures - {id} == interruptFutures;
        return false;
      }
      var f := interruptFutures[id];
      interruptFutures := interruptFutures - {id};
      if f !in future || future[f] != Pending || id !in states || states[id].status != Interrupted { return false; }
      states := states[id := states[id].(status := if d == Abort then Cancelling else Running)];
      future := future[f := Answered(d)];
      ok := true;
    }

    method FinishTask(id: string, h: nat)
      requires h in outcome && outcome[h] != Ongoing
      modifies this
      ensures View() == Finish(old(View()), id, h)
    {
      if id !in states { return; }
      var s := Succeeded;
      if outcome[h] == WasCancelled { s := Cancelled; } else if outcome[h] == Raised { s := Failed; }
      states := states[id := states[id].(status := s)];
    }

    method Owns(c: string, identity: Identity) returns (ok: bool)
      ensures ok == OwnsConversation(View(), c, identity)
    {
      var id := c;
      if c in conversationLatestTask { id := conversationLatestTask[c]; }
      if id !in states { return false; }
      ok := states[id].meta.identity == identity;
    }
  }
}
