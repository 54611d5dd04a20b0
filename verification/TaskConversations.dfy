/** Tasks and the conversations they belong to. */
module TaskConversations {
  import opened Basics
  import opened TaskRuntime
  import opened TaskRuntimeRuns

  // Interrupts that are raised under a conversation id, and whether a conversation keeps to one
  // identity.

  // ---------------------------------------------------------------- what the endpoints can answer

  /** No id that a caller can pass resolves to `c`. */
  predicate Unreachable(rt: Runtime, c: string) {
    c in rt.latest && c !in rt.latest.Values
  }

  predicate ResolvesTo(rt: Runtime, x: string, id: string) {
    Resolve(rt, x) == id
  }

  lemma ResolvesNeverExactlyWhen(rt: Runtime, c: string)
    ensures (forall x :: !ResolvesTo(rt, x, c)) <==> Unreachable(rt, c)
  {
    if c !in rt.latest {
      assert ResolvesTo(rt, c, c);
    } else if c in rt.latest.Values {
      var x :| x in rt.latest && rt.latest[x] == c;
      assert ResolvesTo(rt, x, c);
    }
  }

  /** The requests that cancel or resume. The first two resolve what they are given and then look
      the result up in the caller's scope; the chat endpoint takes the id of one of the caller's
      chat runs as it is. No step of theirs waits for anything, so each is one step. */
  datatype Request =
    | CancelRequest(x: string)
    | ResumeRequest(x: string, decision: Decision)
    | ChatCancelRequest(id: string)

  function Requested(rt: Runtime, identity: Identity, chatRuns: set<string>, request: Request): Runtime {
    match request
    case CancelRequest(x) =>
      var id := Resolve(rt, x);
      if GetScoped(rt, id, identity).None? then rt else Cancel(rt, id).0
    case ResumeRequest(x, d) =>
      var id := Resolve(rt, x);
      if GetScoped(rt, id, identity).None? then rt else Resume(rt, id, d).0
    case ChatCancelRequest(id) => if id in chatRuns then Cancel(rt, id).0 else rt
  }

  predicate AnsweredIn(rt: Runtime, f: nat, d: Decision) {
    f in rt.future && rt.future[f] == Answered(d)
  }

  /** The request answers the future: with its decision if it is one to resume, else with abort. */
  predicate Answers(rt: Runtime, identity: Identity, chatRuns: set<string>, request: Request, f: nat) {
    AnsweredIn(Requested(rt, identity, chatRuns, request), f,
               if request.ResumeRequest? then request.decision else Abort)
  }

  predicate StoredOnlyUnder(rt: Runtime, id: string, f: nat) {
    forall jd :: jd in rt.futures && rt.futures[jd] == f ==> jd == id
  }

  lemma CancelAnswersOnly(rt: Runtime, jd: string, id: string, f: nat)
    requires HasPending(rt, id) && rt.futures[id] == f && StoredOnlyUnder(rt, id, f)
    ensures AnsweredIn(Cancel(rt, jd).0, f, Abort) <==> jd == id
  {}

  lemma ResumeAnswersOnly(rt: Runtime, jd: string, id: string, f: nat, d: Decision)
    requires HasPending(rt, id) && rt.futures[id] == f && StoredOnlyUnder(rt, id, f)
    ensures AnsweredIn(Resume(rt, jd, d).0, f, d)
       <==> jd == id && id in rt.states && rt.states[id].status == Interrupted
  {}

  /** The id resolves from something, and its state is in the caller's scope. */
  predicate InReach(rt: Runtime, id: string, identity: Identity) {
    !Unreachable(rt, id) && GetScoped(rt, id, identity).Some?
  }

  /** In any state: an open interrupt under an id can be resumed by a caller exactly when the id
      resolves from something, its state is in the caller's scope and has the status interrupted. */
  lemma ResumableExactlyWhen(rt: Runtime, id: string, identity: Identity, chatRuns: set<string>, d: Decision)
    requires HasPending(rt, id) && StoredOnlyUnder(rt, id, rt.futures[id])
    ensures (exists x :: Answers(rt, identity, chatRuns, ResumeRequest(x, d), rt.futures[id]))
       <==> InReach(rt, id, identity) && id in rt.states && rt.states[id].status == Interrupted
  {
    var f := rt.futures[id];
    ResolvesNeverExactlyWhen(rt, id);
    forall x
      ensures Answers(rt, identity, chatRuns, ResumeRequest(x, d), f) <==>
        (ResolvesTo(rt, x, id) && GetScoped(rt, id, identity).Some?
         && id in rt.states && rt.states[id].status == Interrupted)
    {
      ResumeAnswersOnly(rt, Resolve(rt, x), id, f, d);
    }
    if InReach(rt, id, identity) && id in rt.states && rt.states[id].status == Interrupted {
      var x :| ResolvesTo(rt, x, id);
      assert Answers(rt, identity, chatRuns, ResumeRequest(x, d), f);
    }
  }

  lemma CancellableExactlyWhen(rt: Runtime, id: string, identity: Identity, chatRuns: set<string>)
    requires HasPending(rt, id) && StoredOnlyUnder(rt, id, rt.futures[id])
    ensures (exists x :: Answers(rt, identity, chatRuns, CancelRequest(x), rt.futures[id]))
            <==> InReach(rt, id, identity)
    ensures (exists jd :: Answers(rt, identity, chatRuns, ChatCancelRequest(jd), rt.futures[id])) <==> id in chatRuns
  {
    var f := rt.futures[id];
    ResolvesNeverExactlyWhen(rt, id);
    forall x ensures Answers(rt, identity, chatRuns, CancelRequest(x), f)
                <==> ResolvesTo(rt, x, id) && GetScoped(rt, id, identity).Some?
    {
      CancelAnswersOnly(rt, Resolve(rt, x), id, f);
    }
    forall jd ensures Answers(rt, identity, chatRuns, ChatCancelRequest(jd), f) <==> jd == id && id in chatRuns {
      CancelAnswersOnly(rt, jd, id, f);
    }
    if InReach(rt, id, identity) {
      var x :| ResolvesTo(rt, x, id);
      assert Answers(rt, identity, chatRuns, CancelRequest(x), f);
    }
    if id in chatRuns { assert Answers(rt, identity, chatRuns, ChatCancelRequest(id), f); }
  }

  /** In any state: an open interrupt under an id is answered by some request of a caller exactly
      when the id resolves from something and its state is in the caller's scope, or the id is
      one of the caller's chat runs. */
  lemma AnswerableExactlyWhen(rt: Runtime, id: string, identity: Identity, chatRuns: set<string>)
    requires HasPending(rt, id) && StoredOnlyUnder(rt, id, rt.futures[id])
    ensures (exists request :: Answers(rt, identity, chatRuns, request, rt.futures[id]))
       <==> InReach(rt, id, identity) || id in chatRuns
  {
    var f := rt.futures[id];
    CancellableExactlyWhen(rt, id, identity, chatRuns);
    forall request | Answers(rt, identity, chatRuns, request, f) ensures InReach(rt, id, identity) || id in chatRuns {
      match request
      case CancelRequest(x) =>
      case ResumeRequest(x, d) => ResumableExactlyWhen(rt, id, identity, chatRuns, d);
      case ChatCancelRequest(jd) =>
    }
  }

  // ---------------------------------------------------------------- interrupts under a conversation id

  ghost predicate InScopeOfSomeone(rt: Runtime, id: string) {
    exists identity :: GetScoped(rt, id, identity).Some?
  }

  /** Resumes and cancels come from requests; `chatRuns` are the task ids of all chat runs. */
  ghost predicate ThroughRequests(rt: Runtime, e: Event, chatRuns: set<string>) {
    && (e.ResumeE? ==> (exists x :: ResolvesTo(rt, x, e.id)) && InScopeOfSomeone(rt, e.id))
    && (e.CancelE? ==> ((exists x :: ResolvesTo(rt, x, e.id)) && InScopeOfSomeone(rt, e.id)) || e.id in chatRuns)
  }

  /** Steps through the requests that give no task the id `c`. Interrupts are free. */
  ghost function Around(c: string, chatRuns: set<string>): (Runtime, Event) -> bool {
    (rt: Runtime, e: Event) =>
      ThroughRequests(rt, e, chatRuns) && (e.EnqueueE? || e.SubmitE? || e.StartE? ==> e.id != c)
  }

  /** `c` is out of the requests' reach, and nobody has answered `f`, which is stored there if
      anywhere: a further interrupt under `c` takes its place. */
  ghost predicate Stranded(rt: Runtime, c: string, f: nat) {
    && Unreachable(rt, c) && StoredOnlyUnder(rt, c, f)
    && f in rt.future && (rt.future[f] == Pending || rt.future[f] == AwaitCancelled)
  }

  lemma StrandedPop(rt: Runtime, c: string, f: nat, id: string, d: Decision)
    requires Stranded(rt, c, f) && id != c
    ensures Stranded(PopAndAnswer(rt, id, d), c, f) && Stranded(rt.(futures := rt.futures - {id}), c, f)
  {}

  lemma StrandedCancel(rt: Runtime, c: string, f: nat, id: string)
    requires Stranded(rt, c, f) && id != c
    ensures Stranded(Cancel(rt, id).0, c, f)
  {
    StrandedPop(rt, c, f, id, Abort);
  }

  lemma StrandedResume(rt: Runtime, c: string, f: nat, id: string, d: Decision)
    requires Stranded(rt, c, f) && id != c
    ensures Stranded(Resume(rt, id, d).0, c, f)
  {
    StrandedPop(rt, c, f, id, d);
  }

  lemma StrandedStep(rt: Runtime, e: Event, c: string, f: nat, chatRuns: set<string>)
    requires Stranded(rt, c, f) && Possible(rt, e) && Around(c, chatRuns)(rt, e) && c !in chatRuns
    ensures Stranded(Next(rt, e), c, f)
  {
    ResolvesNeverExactlyWhen(rt, c);
    match e
    case CancelE(id) => StrandedCancel(rt, c, f, id);
    case ResumeE(id, d) => StrandedResume(rt, c, f, id, d);
    case _ =>
  }

  /** An interrupt raised under a conversation id `c` that has a task, as the database workflow
      does, is never answered in any run in which no task is given the id `c` and `c` is no chat
      run's task: it stays open or its wait is cancelled, whatever else is raised under `c`. */
  lemma {:induction false} ConversationInterruptIsNeverAnswered(
      rt: Runtime, run: seq<Event>, c: string, f: nat, chatRuns: set<string>)
    requires Stranded(rt, c, f) && IsRun(Around(c, chatRuns), rt, run) && c !in chatRuns
    ensures Stranded(Final(Around(c, chatRuns), rt, run), c, f)
    decreases |run|
  {
    if run != [] {
      StrandedStep(rt, run[0], c, f, chatRuns);
      ConversationInterruptIsNeverAnswered(Next(rt, run[0]), run[1..], c, f, chatRuns);
    }
  }

  /** Wherever a conversation has a task of another id, an interrupt under it strands at once. */
  lemma ConversationInterruptStrands(rt: Runtime, c: string, f: nat)
    requires Unreachable(rt, c) && f !in rt.future && forall id :: id in rt.futures ==> rt.futures[id] in rt.future
    ensures Stranded(Interrupt(rt, c, f), c, f)
  {}

  /** From the empty registry: a submission, its start and the workflow's interrupt. */
  function WorkflowRun(c: string, t: string, identity: Identity, h: nat, f: nat): seq<Event> {
    [SubmitE(c, t, identity), StartE(t, Meta(Some(c), identity), h), InterruptE(c, f)]
  }

  lemma WorkflowRunStrands(c: string, t: string, identity: Identity, h: nat, f: nat, chatRuns: set<string>)
    requires c != "" && t != c
    ensures var rule, run := Around(c, chatRuns), WorkflowRun(c, t, identity, h, f);
      IsRun(rule, INITIAL, run) && Stranded(Final(rule, INITIAL, run), c, f)
  {
    var rule, meta := Around(c, chatRuns), Meta(Some(c), identity);
    var one := Submit(INITIAL, c, t, identity).0;
    var two := Start(one, t, meta, h).0;
    var three := Interrupt(two, c, f);
    RunStartsWith(rule, two, InterruptE(c, f), []);
    RunStartsWith(rule, one, StartE(t, meta, h), [InterruptE(c, f)]);
    RunStartsWith(rule, INITIAL, SubmitE(c, t, identity), [StartE(t, meta, h), InterruptE(c, f)]);
    assert WorkflowRun(c, t, identity, h, f) == [SubmitE(c, t, identity)]
      + ([StartE(t, meta, h)] + ([InterruptE(c, f)] + []));
    assert two.latest == map[c := t];
    ConversationInterruptStrands(two, c, f);
  }

  // ---------------------------------------------------------------- one identity per conversation

  predicate InConversation(rt: Runtime, t: string, c: string) {
    t in rt.states && rt.states[t].meta.conversation == Some(c) && c != ""
  }

  /** Task ids are fresh and conversation ids not empty; a task starts with the conversation and
      identity it was enqueued with. Enqueues come from the submission endpoint, which asks whose
      the conversation is, and from the chat and job routes, which do not. */
  predicate Fresh(rt: Runtime, e: Event) {
    match e
    case EnqueueE(id, meta) => id !in rt.states && meta.conversation.Some? && meta.conversation.value != ""
    case SubmitE(c, id, _) => id !in rt.states && c != ""
    case StartE(id, meta, _) => id in rt.states && rt.states[id].meta.conversation.Some? && meta == rt.states[id].meta
    case _ => true
  }

  /** The conversation is new, or the enqueued task has the identity of its latest one. */
  predicate KeepsIdentity(rt: Runtime, meta: Meta)
    requires meta.conversation.Some?
  {
    var c := meta.conversation.value;
    c in rt.latest ==> rt.latest[c] in rt.states && rt.states[rt.latest[c]].meta.identity == meta.identity
  }

  predicate Matched(rt: Runtime, e: Event)
    requires Fresh(rt, e)
  {
    e.EnqueueE? ==> KeepsIdentity(rt, e.meta)
  }

  ghost predicate ScopeInv(rt: Runtime) {
    && (forall c :: c in rt.latest ==> InConversation(rt, rt.latest[c], c))
    && (forall t, c :: InConversation(rt, t, c) ==>
          c in rt.latest && rt.latest[c] in rt.states
            && rt.states[t].meta.identity == rt.states[rt.latest[c]].meta.identity)
  }

  /** Two tasks of the conversation have different identities. */
  predicate Mixed(rt: Runtime, c: string, t: string, u: string) {
    InConversation(rt, t, c) && InConversation(rt, u, c) && rt.states[t].meta.identity != rt.states[u].meta.identity
  }

  /** Enqueuing a fresh task keeps one identity a conversation exactly when the conversation is
      new or its latest task has the same identity; otherwise the conversation is mixed. */
  lemma EnqueueKeepsScopeExactlyWhen(rt: Runtime, id: string, meta: Meta)
    requires ScopeInv(rt) && id !in rt.states && !Busy(rt, id)
    requires meta.conversation.Some? && meta.conversation.value != ""
    ensures ScopeInv(Enqueue(rt, id, meta).0) <==> KeepsIdentity(rt, meta)
    ensures var c := meta.conversation.value;
      !KeepsIdentity(rt, meta) ==> Mixed(Enqueue(rt, id, meta).0, c, rt.latest[c], id)
  {
    var to, c := Enqueue(rt, id, meta).0, meta.conversation.value;
    if KeepsIdentity(rt, meta) {
      forall t, k | InConversation(to, t, k)
        ensures k in to.latest && to.latest[k] in to.states
          && to.states[t].meta.identity == to.states[to.latest[k]].meta.identity
      {
        assert t == id || InConversation(rt, t, k);
      }
      forall k | k in to.latest ensures InConversation(to, to.latest[k], k) {
        assert k == c || InConversation(rt, rt.latest[k], k);
      }
    } else {
      assert InConversation(rt, rt.latest[c], c);
      assert InConversation(to, rt.latest[c], c) && InConversation(to, id, c);
      assert to.latest[c] == id;
    }
  }

  lemma SubmitKeepsScope(rt: Runtime, c: string, id: string, identity: Identity)
    requires ScopeInv(rt) && id !in rt.states && c != ""
    ensures ScopeInv(Submit(rt, c, id, identity).0)
  {
    var to := Submit(rt, c, id, identity).0;
    if to != rt {
      forall t, k | InConversation(to, t, k)
        ensures k in to.latest && to.latest[k] in to.states
          && to.states[t].meta.identity == to.states[to.latest[k]].meta.identity
      {
        assert t == id || InConversation(rt, t, k);
      }
      forall k | k in to.latest ensures InConversation(to, to.latest[k], k) {
        assert k == c || InConversation(rt, rt.latest[k], k);
      }
    }
  }

  lemma StartKeepsScope(rt: Runtime, id: string, meta: Meta, h: nat)
    requires ScopeInv(rt) && Fresh(rt, StartE(id, meta, h))
    ensures ScopeInv(Start(rt, id, meta, h).0)
  {
    var to := Start(rt, id, meta, h).0;
    if to != rt {
      assert to.states[id].meta == rt.states[id].meta;
      var c := meta.conversation.value;
      forall t, k | InConversation(to, t, k)
        ensures k in to.latest && to.latest[k] in to.states
          && to.states[t].meta.identity == to.states[to.latest[k]].meta.identity
      {
        assert InConversation(rt, t, k);
        assert k == c ==> InConversation(rt, id, k);
      }
      forall k | k in to.latest ensures InConversation(to, to.latest[k], k) {
        if k != c || c == "" { assert InConversation(rt, rt.latest[k], k); }
      }
    }
  }

  /** The other steps change no metadata and no index entry. */
  lemma MetaUnchanged(rt: Runtime, to: Runtime)
    requires ScopeInv(rt) && to.latest == rt.latest && rt.states.Keys <= to.states.Keys
    requires forall t :: t in rt.states ==> to.states[t].meta == rt.states[t].meta
    requires forall t :: t in to.states && t !in rt.states ==> to.states[t].meta == NO_META
    ensures ScopeInv(to)
  {
    forall t, k | InConversation(to, t, k) ensures InConversation(rt, t, k) {}
    forall k | k in to.latest ensures InConversation(to, to.latest[k], k) {
      assert InConversation(rt, rt.latest[k], k);
    }
  }

  lemma StatusKeepsScope(rt: Runtime, id: string, s: Status)
    requires ScopeInv(rt)
    ensures ScopeInv(SetStatus(rt, id, s))
  {
    MetaUnchanged(rt, SetStatus(rt, id, s));
  }

  lemma PopKeepsScope(rt: Runtime, id: string, d: Decision)
    requires ScopeInv(rt)
    ensures ScopeInv(PopAndAnswer(rt, id, d)) && ScopeInv(rt.(futures := rt.futures - {id}))
  {
    MetaUnchanged(rt, PopAndAnswer(rt, id, d));
    MetaUnchanged(rt, rt.(futures := rt.futures - {id}));
  }

  /** Every matched step keeps one identity a conversation, and index entries that name recorded
      tasks of it. */
  lemma ScopeStep(rt: Runtime, e: Event)
    requires ScopeInv(rt) && Registered(rt) && Possible(rt, e) && Fresh(rt, e) && Matched(rt, e)
    ensures ScopeInv(Next(rt, e))
  {
    match e
    case EnqueueE(id, meta) => EnqueueKeepsScopeExactlyWhen(rt, id, meta);
    case SubmitE(c, id, identity) => SubmitKeepsScope(rt, c, id, identity);
    case StartE(id, meta, h) => StartKeepsScope(rt, id, meta, h);
    case CancelE(id) =>
      PopKeepsScope(rt, id, Abort);
      StatusKeepsScope(PopAndAnswer(rt, id, Abort), id, Cancelling);
      StatusKeepsScope(PopAndAnswer(rt, id, Abort), id, Cancelled);
    case ResumeE(id, d) =>
      PopKeepsScope(rt, id, d);
      StatusKeepsScope(PopAndAnswer(rt, id, d), id, if d == Abort then Cancelling else Running);
    case FinishE(id, h) => StatusKeepsScope(rt, id, StatusFor(rt.outcome[h]));
    case InterruptE(id, f) => MetaUnchanged(rt, Interrupt(rt, id, f));
    case CompleteE(_, _) => MetaUnchanged(rt, Next(rt, e));
    case LoseAwaitE(_) => MetaUnchanged(rt, Next(rt, e));
  }

  /** Only recorded ids have tasks. */
  predicate Registered(rt: Runtime) {
    rt.tasks.Keys <= rt.states.Keys
  }

  /** What every step keeps of the states: none goes away, and none changes its metadata. */
  predicate MetaStays(rt: Runtime, to: Runtime) {
    && Registered(to) && rt.states.Keys <= to.states.Keys
    && forall t :: t in rt.states ==> to.states[t].meta == rt.states[t].meta
  }

  lemma MetaStaysInPop(rt: Runtime, id: string, d: Decision, s: Status)
    requires Registered(rt)
    ensures MetaStays(rt, PopAndAnswer(rt, id, d)) && MetaStays(rt, rt.(futures := rt.futures - {id}))
    ensures MetaStays(rt, SetStatus(PopAndAnswer(rt, id, d), id, s))
  {
    var popped := PopAndAnswer(rt, id, d);
    assert popped.states == rt.states && popped.tasks == rt.tasks;
  }

  lemma MetaStaysInCancel(rt: Runtime, id: string)
    requires Registered(rt)
    ensures MetaStays(rt, Cancel(rt, id).0)
  {
    MetaStaysInPop(rt, id, Abort, Cancelling);
    MetaStaysInPop(rt, id, Abort, Cancelled);
  }

  lemma MetaStaysInStep(rt: Runtime, e: Event)
    requires Registered(rt) && Possible(rt, e) && Fresh(rt, e)
    ensures MetaStays(rt, Next(rt, e))
  {
    match e
    case CancelE(id) => MetaStaysInCancel(rt, id);
    case _ =>
  }

  /** Each enqueue of the run matched the conversation it found. */
  ghost predicate AllMatched(rt: Runtime, run: seq<Event>)
    requires IsRun(Fresh, rt, run)
    decreases |run|
  {
    run == [] || (Matched(rt, run[0]) && AllMatched(Next(rt, run[0]), run[1..]))
  }

  ghost predicate SomeMixed(rt: Runtime) {
    exists c, t, u :: Mixed(rt, c, t, u)
  }

  lemma {:induction false} MixedForGood(rt: Runtime, run: seq<Event>, c: string, t: string, u: string)
    requires Registered(rt) && IsRun(Fresh, rt, run) && Mixed(rt, c, t, u)
    ensures Mixed(Final(Fresh, rt, run), c, t, u)
    decreases |run|
  {
    if run != [] {
      MetaStaysInStep(rt, run[0]);
      MixedForGood(Next(rt, run[0]), run[1..], c, t, u);
    }
  }

  lemma {:induction false} ScopeExactlyWhen(rt: Runtime, run: seq<Event>)
    requires ScopeInv(rt) && Registered(rt) && IsRun(Fresh, rt, run)
    ensures AllMatched(rt, run) ==> ScopeInv(Final(Fresh, rt, run))
    ensures !AllMatched(rt, run) ==> SomeMixed(Final(Fresh, rt, run))
    decreases |run|
  {
    if run != [] {
      var e := run[0];
      MetaStaysInStep(rt, e);
      if Matched(rt, e) {
        ScopeStep(rt, e);
        ScopeExactlyWhen(Next(rt, e), run[1..]);
      } else {
        EnqueueKeepsScopeExactlyWhen(rt, e.id, e.meta);
        var c := e.meta.conversation.value;
        MixedForGood(Next(rt, e), run[1..], c, rt.latest[c], e.id);
      }
    }
  }

  /** For every run with fresh task ids, through the submission endpoint and around it: all tasks
      of every conversation carry one identity if and only if each enqueue around the endpoint
      found its conversation new or under the same identity. */
  lemma OneIdentityExactlyWhen(run: seq<Event>)
    requires IsRun(Fresh, INITIAL, run)
    ensures !SomeMixed(Final(Fresh, INITIAL, run)) <==> AllMatched(INITIAL, run)
  {
    ScopeExactlyWhen(INITIAL, run);
    var rt := Final(Fresh, INITIAL, run);
    if AllMatched(INITIAL, run) {
      forall c, t, u ensures !Mixed(rt, c, t, u) {}
    }
  }

  /** Then each conversation index entry names a recorded task of that conversation, and asking
      the latest task alone whose conversation it is agrees with asking all of them. */
  lemma OwnershipAgreesWithAll(run: seq<Event>, c: string, identity: Identity)
    requires IsRun(Fresh, INITIAL, run) && AllMatched(INITIAL, run) && c in Final(Fresh, INITIAL, run).latest
    ensures var rt := Final(Fresh, INITIAL, run);
      && InConversation(rt, rt.latest[c], c)
      && (OwnsConversation(rt, c, identity)
        <==> forall t :: InConversation(rt, t, c) ==> MatchesIdentity(rt.states[t], identity))
  {
    ScopeExactlyWhen(INITIAL, run);
    var rt := Final(Fresh, INITIAL, run);
    assert InConversation(rt, rt.latest[c], c);
    forall t | InConversation(rt, t, c)
      ensures MatchesIdentity(rt.states[t], identity) <==> OwnsConversation(rt, c, identity)
    {}
  }

  /** The failing run: a submission by one caller and a chat message by another that names the
      same conversation. The second then owns it, and the first no more. */
  lemma ChatTakesConversationOver(c: string, t: string, u: string, i: Identity, j: Identity)
    requires c != "" && t != u && i != j && c != t && c != u
    ensures var run := [SubmitE(c, t, i), EnqueueE(u, Meta(Some(c), j))];
      && IsRun(Fresh, INITIAL, run) && !AllMatched(INITIAL, run)
      && var rt := Final(Fresh, INITIAL, run);
         Mixed(rt, c, t, u) && OwnsConversation(rt, c, j) && !OwnsConversation(rt, c, i)
  {
    var first, second := SubmitE(c, t, i), EnqueueE(u, Meta(Some(c), j));
    var one := Submit(INITIAL, c, t, i).0;
    assert one.latest == map[c := t] && one.states[t].meta.identity == i;
    RunStartsWith(Fresh, one, second, []);
    RunStartsWith(Fresh, INITIAL, first, [second]);
    assert [first, second] == [first] + ([second] + []);
    assert [first, second][1..] == [second] && !Matched(one, second);
  }
}
