# A verified model of the agent platform's core state machines

This project models, in Dafny, the parts of the repository that keep state across steps, and proves
what they promise over whole runs:

- the Redis checkpoint saver: incremental blobs against a history of whole snapshots, and what pending writes leave and read back (`Checkpoint`, `CheckpointHistory`, `PendingWrites`, `PendingReads`);
- the task registry with cancel, interrupt and resume, what the endpoints reach of it, and the task queue with its nested semaphores, in every interleaving, with Agents that outlive their task objects (`TaskRuntime`, `TaskRuntimeRuns`, `TaskLifecycle`, `TaskConversations`, `TaskQueue`, `TaskQueueRuns`, `TaskOrder`, `AgentThreads`);
- the database workflow graph with its caps and loop guard, what its runs do and answer, what they change in production, its tool calls, the SQL text gates, and the low-level fuse (`DatabaseWorkflow`, `DatabaseWorkflowRuns`, `DatabaseOutcomes`, `DatabaseGuards`, `DatabaseWrites`, `DatabaseSettings`, `DatabaseCalls`, `SqlGate`, `SqlMeaning`, `SqlTexts`, `DbFuse`);
- the planner's capability cut, dependency graph, `depends_on` index, fallback plan, and plan normalisation (`PlannerSelection`, `Planner`, `PlannerOrder`, `PlannerNeeds`, `PlannerTopology`, `PlannerFallback`, `PlanModels`);
- mojibake repair in the gateway (`Mojibake`), job finalisation (`JobResults`, `JobResultRuns`, `JobStrategies`), the trace writer and tail reader (`Tracer`, `TraceReader`), the call guards (`Guards`, `GuardRuns`).

`Basics`, `Ordering` and `StableSort` hold what several modules share.

Where the source changes things in place the model has a class or a method with a loop, each tied by its
`ensures` to a function of the old state; the theorems are about those functions, over all runs. Texts of
language models, results of MySQL, keyword matches, the clock, fresh identifiers, the settings, a handler or a
tool call that raises, and the human decision are inputs, so every statement holds for all of them; exceptions
that are not modelled are named under "Left out". `dafny verify dfyconfig.toml` verifies the whole project.

## What turned out false, and exactly when it holds

- Production changes only by approved writes of the merge node: for every run, whatever databases MySQL lets a text
  change, if and only if no sandbox step commits an accepted candidate that changes production from its sandbox and
  no SQL step's gated text changes it (`ProductionChangesApprovedExactlyWhen`). As a setting: if and only if no
  accepted candidate changes production from DB_SANDBOX_DATABASE, or the caps stop every run before its sandbox
  node, and no gated text changes production, or the caps stop every run before its SQL node
  (`SettingIsSafeExactlyWhen`). Every such candidate and every such text has a run, with the merge switch off
  (`WriteChangesUnapproved`, `ReadChangesUnapproved`); among them a candidate that names the production database
  (`QualifiedNameEscapes`) and a deletion behind `with` that the read executor runs (`WithDeleteEscapes`), since
  validation looks for no database's name (`InsertAdmitsAnything`) and the read gate at the head word and the naming
  of tenant and shop alone (`WithAdmitsAnything`). On a server that confines every text to its connection's
  database, and gated texts to reading, the two names decide (`ConfinedSettingIsSafeExactlyWhen`).
- Every interrupt can be answered: in any state if and only if its id resolves from something and its state is in
  the caller's scope, or it is one of the caller's chat runs (`AnswerableExactlyWhen`; resume also wants the status
  interrupted, `ResumableExactlyWhen`). The database workflow raises its interrupt under the conversation id, which
  resolves to the task: three steps from the empty registry strand it (`WorkflowRunStrands`), and it is then never
  answered, whatever else is raised there (`ConversationInterruptIsNeverAnswered`).
- All tasks of a conversation have one identity: for every run if and only if each enqueue by the chat and job
  routes found its conversation new or under the same identity (`OneIdentityExactlyWhen`); a chat message that names
  another caller's conversation takes it over (`ChatTakesConversationOver`).
- A task's batch of ordinary pending writes is read back in write order: if and only if it has at most ten writes
  (`BatchReadsBackInOrder`), and for any batch if and only if the digits of the ordinary positions are in text order
  (`BatchReadsBackExactlyWhen`).
- A combined query keeps the product, inventory and campaign agents: if and only if at most one match adds a product
  or inventory capability to the two selected anyway (`CombinedKeepsAllExactlyWhen`, `CombinedMayLoseAnAgent`).
- The built dependency graph has no cycle: if and only if `data_quality` and `database_query` are not both assigned
  (`AcyclicExactlyWhen`). A model-written plan has a serial order if and only if everything that its
  assignments came to depend on is assigned and no closed path runs along these dependencies and the edges other
  than conflict checks (`SanitisedPlanIsSerialExactlyWhen`). Sanitising lets cycles of edges through
  (`SanitisedMayBeCyclic`) and does not look at what assignments come with (`MutualNeedsHaveNoOrder`).
- A task that was cancelled while it was queued is not started: in every run exactly as long as no step revives it, that
  is, queues, starts or interrupts its id again or is the late finishing step of an earlier task object of it that was
  not cancelled (`StaysCancelledExactlyWhen`, `CancelledInQueueIsNotStarted`). Such a finishing step turns the cancelled
  task into a succeeded one, and its handler starts an Agent (`LateFinishRevives`, `CancelledYetStarted`).
- The supervisor is asked at regular intervals: only for the first twenty visits; from the twenty-first on, once at
  most, since no more than twenty are kept to count from (`SupervisorFallsSilent`). The default caps end runs before.
- The limits bound the Agents at work: over every run every Agent at work has an unfinished task object if and only
  if no task is cancelled while its Agent is at work in a thread, and then the limits hold
  (`RunningIsBoundedWithin`); with such cancellations any number of Agents of one profile come to be at work
  together, whatever the limits (`OverrunsAreUnbounded`).
- A failed task's report is a draft: after any run decided by the initial state and the events
  (`AgreeExactlyWhen`); a report that the task produced but its job does not link to stays ready
  (`UnlinkedReportStaysReady`).
- The database workflow answers with something: if and only if the run does not end at the summary node, reached
  unanswered and without a specialised result, with an empty text from the model (`EveryRunEnds`); such runs exist
  (`SmoothRunHasNoAnswer`, `SomeRunHasNoAnswer`), and the tool then returns its fixed sentence.
- Guard and budget accept the same calls up to repeat limits: with network search always
  (`GuardAcceptsExactlyWhen`), without it over every run if and only if the guard accepts no search within the time
  (`VerdictsAgreeExactlyWhen`, `NetworkSearchSeparatesThem`).
- The comparison of the repaired text with the input in the mojibake repair never stops a repair, and the
  several-statements rejection behind SQL extraction never fires (`RepairLatin1Mojibake`, `SeveralStatementsNeverReported`).

## Model

| member | source | states |
|---|---|---|
| Ordering.LessIsStrictTotalOrder | agent/subagent/checkpoint.py:267-277 | Python's text order, by which fields are sorted and ids compared with `before`, is a strict total order |
| Ordering.Listing | agent/subagent/checkpoint.py:267-277 | `sorted` of a finite set: strictly rising, over exactly the set's elements |
| Ordering.SortedIsUnique | agent/subagent/checkpoint.py:267-277 | a strictly rising listing of given elements is the only one |
| Checkpoint.RedisCheckpointSaver.PutCheckpoint | agent/subagent/checkpoint.py:51-78 | the whole store after a put: blobs of the channels in new_versions only, the row, the index score |
| Checkpoint.RedisCheckpointSaver.PutPendingWrites | agent/subagent/checkpoint.py:213-232 | the pipelined loop equals applying the writes one after another to the checkpoint's own hash, where an ordinary write is skipped if its field was there before the batch; blobs, rows, index and the pending writes of every other checkpoint stay |
| Checkpoint.RedisCheckpointSaver.LoadBlobsOf | agent/subagent/checkpoint.py:255-265 | the loop yields the stored, non-empty blobs of the named versions |
| Checkpoint.RedisCheckpointSaver.LoadWritesOf | agent/subagent/checkpoint.py:267-277 | pending writes in sorted field order, decoded |
| Checkpoint.RedisCheckpointSaver.Get | agent/subagent/checkpoint.py:109-137 | the tuple of the given id, or of the index's first entry; nothing for a missing row |
| Checkpoint.RedisCheckpointSaver.Visit | agent/subagent/checkpoint.py:169-189 | one member is yielded unless it is not below `before`, has no row, or its metadata misses the filter |
| Checkpoint.RedisCheckpointSaver.CollectItems | agent/subagent/checkpoint.py:169-189 | stopping at the limit yields the prefix that a full collection would start with |
| Checkpoint.RedisCheckpointSaver.ListCheckpoints | agent/subagent/checkpoint.py:169-189 | list run to its end is the filtered index cut to a positive limit; an absent configuration lists nothing |
| Checkpoint.Latin1RoundTrip | agent/subagent/checkpoint.py:213-232 | payload bytes survive the Latin-1 text form |
| Checkpoint.CutAtFull | agent/subagent/checkpoint.py:169-189 | a list that is full at the limit is the cut of any list it begins |
| CheckpointHistory.BlobsAfter | agent/subagent/checkpoint.py:51-78 | after any run a blob reads as the value its last put held |
| CheckpointHistory.RowsAfter | agent/subagent/checkpoint.py:51-78 | after any run a row and its index score are those of the last put of that id |
| CheckpointHistory.WritesAfter | agent/subagent/checkpoint.py:213-232 | after any run a checkpoint's pending writes are those of its own batches, in order, whatever was written to other checkpoints and threads |
| CheckpointHistory.RestoredExactlyWhen | agent/subagent/checkpoint.py:109-137 | for every run: a checkpoint reads back as its original snapshot, with the pending writes of the run's own batches for it, if and only if, for each channel it names, the last put of that version anywhere held the snapshot's value |
| CheckpointHistory.EveryCheckpointIsRestored | agent/subagent/checkpoint.py:51-78 | with fresh ids, one value a version and unchanged channels keeping theirs, every checkpoint ever put reads back whole, pending writes of the run's batches included, however many calls follow |
| CheckpointHistory.NewestExactlyWhen | agent/subagent/checkpoint.py:109-121 | get_tuple without an id answers with the last put if and only if its index entry is ahead of all others |
| CheckpointHistory.IndexListsHistory | agent/subagent/checkpoint.py:169-189 | with fresh ids, whatever the clock did, the index lists exactly the history's checkpoints, by score and then id, both falling |
| CheckpointHistory.IndexIsHistory | agent/subagent/checkpoint.py:169-189 | with fresh ids and an increasing clock that is the history, newest first |
| CheckpointHistory.ListIsHistory | agent/subagent/checkpoint.py:109-189 | after every disciplined run with non-empty ids, whatever the clock did, get_tuple with no or an empty id gives the first, and list gives all of the history in the index's order, below `before`, matching, each a whole snapshot; a positive limit lets so many items through, none or zero all, a negative one the first; with an increasing clock that order is newest first |
| PendingWrites.FieldInjective | agent/subagent/checkpoint.py:213-232 | task and index can be read off a field name, whatever the task id contains |
| PendingWrites.OtherFieldsStay | agent/subagent/checkpoint.py:213-232 | a batch touches no field but its own |
| PendingWrites.RecordCarries | agent/subagent/checkpoint.py:213-232 | a record carries task, channel, path and value |
| PendingWrites.OrdinaryKeepsFirst | agent/subagent/checkpoint.py:213-232 | an ordinary position keeps the first value it ever got |
| PendingWrites.SpecialKeepsLast | agent/subagent/checkpoint.py:213-232 | a special channel keeps the last value of the batch |
| PendingWrites.OtherTasksStay | agent/subagent/checkpoint.py:213-232 | batches of other tasks leave a task's fields alone |
| PendingWrites.ReplayChangesNothing | agent/subagent/checkpoint.py:213-232 | replaying a batch changes nothing, even after other tasks' batches |
| PendingReads.OrdinaryBatchInOrderExactlyWhen | agent/subagent/checkpoint.py:267-277 | the fields of a batch of ordinary writes are in text order if and only if there are at most ten |
| PendingReads.BatchKeepsWellFormed | agent/subagent/checkpoint.py:213-232 | every batch keeps each field named after the task of its record, so that this holds of all stores that put_writes builds |
| PendingReads.OwnFieldsOfBatch | agent/subagent/checkpoint.py:213-232 | after a batch, on a checkpoint that other tasks wrote to as well, the task's ordinary fields are exactly those at the ordinary positions |
| PendingReads.BatchReadsBackExactlyWhen | agent/subagent/checkpoint.py:213-277 | for any batch, special writes among it or not: its ordinary fields are read in write order if and only if the digits of their positions are in text order, and then channels and payloads come back as written, in that order |
| PendingReads.BatchReadsBackInOrder | agent/subagent/checkpoint.py:213-277 | a batch of ordinary writes alone is read in write order if and only if it has at most ten; the ordinary writes of any batch of at most ten come back in order, with channels and payload bytes |
| TaskRuntime.TaskRegistry.EnqueueTask | api/task_runtime.py:14-30 | the whole registry after enqueue, and its refusal of a busy id |
| TaskRuntime.TaskRegistry.StartTask | api/task_runtime.py:50-77 | the whole registry after a start: task object, merged metadata, conversation index; refusal of a busy id |
| TaskRuntime.TaskRegistry.CancelTask | api/task_runtime.py:143-159 | the open future is answered with abort and taken out; an unfinished task becomes cancelling, a queued one cancelled, and only then the call says yes |
| TaskRuntime.TaskRegistry.InterruptTask | api/task_runtime.py:161-177 | the new future is stored and the status becomes interrupted |
| TaskRuntime.TaskRegistry.ResumeTask | api/task_runtime.py:179-195 | the future is always taken out but answered only under status interrupted |
| TaskRuntime.TaskRegistry.FinishTask | api/task_runtime.py:226-245 | the status follows how the task object ended |
| TaskRuntime.TaskRegistry.Owns | api/task_runtime.py:113-123 | only the latest task of the conversation is asked |
| TaskRuntimeRuns.WakeStep | api/task_runtime.py:143-195 | every obliging step keeps: open futures are stored under unfinished, interrupted ids, each under one |
| TaskRuntimeRuns.NoLostWakeUp | api/task_runtime.py:161-195 | after every obliging run each open interrupt future is stored under an interrupted id, where resume and cancel answer it |
| TaskRuntimeRuns.LosingStepsExactly | api/task_runtime.py:161-195 | in any state the steps that drop an open future unanswered are exactly a second interrupt under its id and a resume that finds another status |
| TaskLifecycle.StatusMoves | api/task_runtime.py:14-245 | the statuses as one automaton: for every state and step, what is left under every id; cancelling makes a busy id cancelling, a queued one cancelled, and touches no other |
| TaskLifecycle.MetaMoves | api/task_runtime.py:14-77 | queueing replaces the metadata, a start adds to them what it is given, no other step changes any |
| TaskLifecycle.LatestMoves | api/task_runtime.py:14-77 | a conversation's latest task is the one last queued or started for it, and no other step moves the index |
| TaskLifecycle.CancelAnswers | api/task_runtime.py:143-159 | cancel says yes if and only if the id is busy or queued; it answers the id's open future with abort, takes it out, and leaves all others and all task objects |
| TaskLifecycle.ResumeAnswers | api/task_runtime.py:179-195 | resume says yes if and only if a future is open and the status is interrupted; only then is the future answered, with the given decision |
| TaskLifecycle.FuturesMove | api/task_runtime.py:161-177 | an interrupt stores a new open future under its id; starts, finishes and queueing touch none |
| TaskLifecycle.TasksMove | api/task_runtime.py:50-77 | a start stores a new unfinished task object unless the id's own is unfinished still |
| TaskLifecycle.StaysCancelledExactlyWhen | api/task_runtime.py:143-245 | a cancelled id without an unfinished task stays so in a step if and only if the step does not queue, start or interrupt it and is no finish of a task object of it that was not cancelled |
| TaskLifecycle.CancelledInQueueIsNotStarted | api/server.py:158-168 | after any run of queue and registry, a queued task that is cancelled stays cancelled in every continuation without such a step, and no handler starts an Agent of it |
| TaskLifecycle.LateFinishRevives | api/task_runtime.py:226-245 | in any state: if an earlier task object of the id has returned, the id is queued and cancelled, and then its finishing step comes, the task counts as succeeded and may be started |
| TaskLifecycle.CancelledYetStarted | api/server.py:158-168 | such a run from the start, under every valid configuration: the cancelled task's handler starts an Agent |
| TaskConversations.ResolvesNeverExactlyWhen | api/task_runtime.py:90-92 | no argument resolves to an id if and only if it is an indexed conversation id that is no conversation's latest task |
| TaskConversations.ResumableExactlyWhen | api/server.py:382-393 | in any state an open interrupt is resumed by some request of a caller if and only if its id resolves from something, its state is in the caller's scope and its status is interrupted |
| TaskConversations.CancellableExactlyWhen | api/server.py:371-379 | it is cancelled through the task endpoint if and only if its id resolves from something and its state is in scope, and through the chat endpoint if and only if it is one of the caller's chat runs |
| TaskConversations.AnswerableExactlyWhen | api/routes/ai_chat.py:166-185 | in any state an open interrupt is answered by some request of a caller if and only if its id resolves from something and its state is in the caller's scope, or it is one of the caller's chat runs |
| TaskConversations.ConversationInterruptStrands | agent/tools/database_workflow_tool.py:636-648 | wherever a conversation's latest task has another id, an interrupt under the conversation id is out of reach at once |
| TaskConversations.WorkflowRunStrands | agent/tools/database_workflow_tool.py:636-648 | a submission, its start and the workflow's interrupt, from the empty registry, give such an interrupt |
| TaskConversations.ConversationInterruptIsNeverAnswered | agent/tools/database_workflow_tool.py:636-648 | in every run through the requests that gives no task the conversation's id it is never answered, however many further interrupts are raised there |
| TaskConversations.EnqueueKeepsScopeExactlyWhen | api/routes/ai_chat.py:67 | enqueuing a fresh task without asking whose the conversation is keeps one identity a conversation if and only if the conversation is new or its latest task has the same identity |
| TaskConversations.ScopeStep | api/server.py:321-350 | submissions, starts, such enqueues and all other steps keep one identity a conversation and index entries that name recorded tasks |
| TaskConversations.OneIdentityExactlyWhen | api/task_runtime.py:14-134 | for every run with fresh ids, through the submission endpoint and around it: all tasks of each conversation have one identity if and only if each enqueue around it found its conversation new or under the same identity |
| TaskConversations.OwnershipAgreesWithAll | api/task_runtime.py:113-134 | then the index names one of the conversation's tasks, and asking the latest agrees with asking all |
| TaskConversations.ChatTakesConversationOver | api/routes/ai_chat.py:67 | a submission and another caller's enqueue under the same conversation: the second owns it, the first no more |
| TaskConversations.MixedForGood | api/task_runtime.py:14-77 | a conversation with two identities keeps them in every continuation |
| TaskQueue.Dispatcher.constructor | api/task_queue.py:14-45 | all permits free, nothing queued |
| TaskQueue.Dispatcher.Enqueue | api/task_queue.py:47-61 | a payload is appended at the end of the inline queue |
| TaskQueue.Dispatcher.WorkerStep | api/task_queue.py:63-66 | the oldest payload becomes a scheduled handler |
| TaskQueue.Dispatcher.BeginHandler | api/task_queue.py:126-153 | an unknown profile gets a semaphore of one |
| TaskQueue.Dispatcher.Acquire | api/task_queue.py:126-153 | the global permit is taken before the profile's, each only when free |
| TaskQueue.Dispatcher.LeaveHandler | api/task_queue.py:126-153 | both permits are given back, whether the handler returned or raised |
| TaskQueueRuns.PermitsStep | api/task_queue.py:126-153 | every step keeps, for every semaphore, free permits plus holders equal to its limit |
| TaskQueueRuns.QueueHoldsStep | api/task_queue.py:47-66 | every step keeps: the inline queue holds exactly the payloads not yet taken, each once |
| TaskQueueRuns.NeverDeadlocks | api/task_queue.py:126-153 | in every valid state with an unfinished payload some step other than an arrival is enabled |
| TaskQueueRuns.StepLowersMeasure | api/task_queue.py:63-153 | every step but an arrival takes exactly one from the stage count |
| TaskQueueRuns.CompletionsCount | api/task_queue.py:126-153 | over any run a payload's handler was left once if it is completed, else never |
| TaskQueueRuns.RunIsBounded | api/task_queue.py:63-153 | a run without arrivals is as long as the stage count falls |
| TaskQueueRuns.EveryPayloadCompletesOnce | api/task_queue.py:63-153 | once arrivals stop every continuation is bounded, and one that cannot go on has completed every payload exactly once |
| TaskOrder.FirstInFirstOut | api/task_queue.py:47-66 | for every run of the started queue: the payloads put, in order, are the payloads that have left the queue, in order, followed by those that wait |
| TaskOrder.PutPayloadStays | api/task_queue.py:47-66 | over every run a payload keeps the profile and the task with which it was put |
| TaskQueueRuns.RuntimeDropsNothing | api/task_runtime.py:14-77 | no step of the registry drops an unfinished task object |
| TaskQueueRuns.SystemStepKeepsInv | api/server.py:158-286 | queue and registry steps together keep: active Agent tasks belong to payloads that are being handled, one each |
| TaskQueueRuns.ConcurrencyIsBounded | api/server.py:280-286 | in every interleaving unfinished task objects of Agents started through the queue exceed neither the global limit nor their queue profile's, permits add up, and no unfinished task is dropped |
| AgentThreads.StepWithinExactlyWhen | api/server.py:182-226 | a step keeps an unfinished task object for every Agent at work if and only if it does not end a cancelled one whose Agent is at work |
| AgentThreads.EndedAgentMayReturn | api/server.py:182-226 | when its Agent ends a payload alone leaves those at work, and its task object may return then, which before it could not |
| AgentThreads.RunningIsBoundedWithin | api/server.py:182-286 | over every run that holds at each moment if and only if no cancellation is overrun by its Agent, and then Agents at work exceed neither limit |
| AgentThreads.OverrunsAreUnbounded | api/server.py:214-226 | with cancellations that are overrun any number of Agents of one profile come to be at work together, under every configuration |
| SqlGate.ExtractedIsNormal | agent/tools/database_workflow_tool.py:688-694 | extraction gives one statement in normal form or a text that no head test lets through |
| SqlGate.AcceptedPassesGate | agent/platform/db.py:215-225 | whatever validation accepts the executor's own gate lets through in its validated form |
| SqlGate.AcceptedIsExecutedVerbatim | agent/tools/database_workflow_tool.py:595-609 | after extraction the executed text is the validated candidate, character for character |
| SqlGate.SeveralStatementsNeverReported | agent/tools/database_workflow_tool.py:595-609 | behind extraction the several-statements rejection never fires |
| SqlGate.InsertAdmitsAnything | agent/tools/database_workflow_tool.py:595-609 | behind `insert` validation accepts any one statement without the words DROP and TRUNCATE, whatever database it names |
| SqlGate.ReadTextsAreReads | agent/platform/db.py:136-150 | what the read executor runs starts with a read word, has a limit when it is a SELECT, and names tenant and shop when it mentions a scoped table |
| SqlGate.ReadTextsAreNotWrites | agent/platform/db.py:136-219 | no text passes both executors |
| SqlGate.WithAdmitsAnything | agent/platform/db.py:136-150 | behind `with` any text whatever is run as it is, if it keeps to the naming of tenant and shop |
| SqlMeaning.HasWordExactlyWhen | agent/tools/database_workflow_tool.py:603-606 | a search finds a word if and only if its letters stand somewhere in the text, in any case, with no word character on either side |
| SqlMeaning.ValidationIs | agent/tools/database_workflow_tool.py:595-609 | what validation says of every statement, by its characters: the first of the faults not allowed first word, update or deletion without WHERE, DROP or TRUNCATE that it has, else acceptance |
| SqlMeaning.ExecutedExactlyWhen | agent/platform/db.py:215-225 | the write executor runs a statement if and only if its first word is allowed, an update or deletion has WHERE, and a DROP or TRUNCATE is permitted |
| SqlMeaning.ReadExactlyWhen | agent/platform/db.py:136-150 | the read executor runs a statement if and only if it starts with a read word and is isolated; a SELECT without a limit gets one, any other text is run as it is |
| SqlMeaning.IsolatedExactlyWhen | agent/platform/db.py:182-197 | a text is isolated if and only if it names no scoped table, or tenant and shop are known and both column names occur in it |
| SqlMeaning.ExtractIsFirst | agent/tools/database_workflow_tool.py:688-694 | extraction gives the first statement of the text: only semicolons and white space stand before it, only white space between it and the next semicolon or the end; a text of nothing else is given as it is |
| SqlMeaning.NormalizeIs | agent/platform/db.py:143 | normalising takes white space off both ends and then the semicolons at the end, and nothing else |
| SqlTexts.QualifiedIsAccepted | agent/tools/database_workflow_tool.py:595-609 | an insertion into a table named with its database is extracted as it is and accepted |
| SqlTexts.WithDeleteIsRun | agent/platform/db.py:136-197 | a deletion behind `with` that names tenant and shop is extracted as it is and run by the read executor |
| DatabaseWorkflow.WorkflowLoopGuard.constructor | agent/tools/database_workflow_tool.py:148-179 | the guard starts from the state's snapshot |
| DatabaseWorkflow.WorkflowLoopGuard.RecordEvent | agent/tools/database_workflow_tool.py:148-179 | the event is recorded, and a stop is told exactly when the same fingerprint occurs too often among all recorded |
| DatabaseWorkflowRuns.EnterKeeps | agent/tools/database_workflow_tool.py:83-135 | round cap and guard change only rounds, guard, route and answer, and leave an unanswered state within the rounds |
| DatabaseWorkflowRuns.StepLowersBounds | agent/tools/database_workflow_tool.py:714-747 | every edge as wired lowers both the count by rounds and the count by graph shape and SQL failures |
| DatabaseWorkflowRuns.EveryRunEnds | agent/tools/database_workflow_tool.py:753-774 | every run ends within both caps; it reaches the recursion limit if and only if the round cap is below -3; the tool's fixed sentence is used if and only if the run ends at the summary node, reached unanswered and without a specialised result, and the model's text is empty |
| DatabaseWorkflowRuns.SmoothRunHasNoAnswer | agent/tools/database_workflow_tool.py:383-417 | every read in four nodes in which every outside call goes well and the summary is empty is such a run |
| DatabaseWorkflowRuns.SomeRunHasNoAnswer | agent/tools/database_workflow_tool.py:383-417 | and there is one |
| DatabaseOutcomes.MergeExecutes | agent/tools/database_workflow_tool.py:264-292 | wherever the merge node stands rightly and comes to its body, it executes the approved text once in production if the switch is on and nothing otherwise, and its answer says which |
| DatabaseOutcomes.ApprovedWriteIsExecuted | agent/tools/database_workflow_tool.py:234-292 | in every run an approval answered `continue` inside a task is followed by the merge node, where the run ends; if that comes to its body with the switch on, exactly the shown text is executed, once, and the tool's answer says so |
| DatabaseOutcomes.WriteRun | agent/tools/database_workflow_tool.py:190-292 | every run of a write question in which no step is stopped by rounds, loop guard or supervisor: a rejected candidate is only reported; an accepted one is tried in the sandbox if there is one, shown, and executed in production if and only if it is approved inside a task with the switch on; nothing else is done, and the answer is the one for that end |
| DatabaseOutcomes.HotProductRun | agent/tools/database_workflow_tool.py:295-391 | every such run of a question for hot products calls the analysis alone and answers with the table of its result, an empty one when it fails |
| DatabaseOutcomes.ReadRun | agent/tools/database_workflow_tool.py:310-417 | every such run of a read question: the tables are looked up; if any is there, statements are tried until one succeeds, which the model's summary answers, or as many as the cap says have failed; a fixed sentence for an empty summary, the fallback when the model fails |
| DatabaseGuards.StoppedExactlyWhen | agent/tools/database_workflow_tool.py:83-179 | in every run a step that finds no answer is stopped if and only if the rounds are used up, its statement was tried too often among the last twenty visits, or the supervisor is due and stops it; the answer says which |
| DatabaseGuards.SupervisorFallsSilent | agent/tools/database_workflow_tool.py:165-179 | from the twenty-first visit on the supervisor is asked once at most |
| DatabaseWrites.MergeWrites | agent/tools/database_workflow_tool.py:264-292 | behind its guards and with the switch on merge runs exactly the shown, approved and validated text, once and in production; otherwise it runs nothing |
| DatabaseWrites.SandboxWrites | agent/tools/database_workflow_tool.py:211-231 | the sandbox node writes its validated candidate in DB_SANDBOX_DATABASE, whatever database that is, before anyone is asked; nothing when it is unset or empty |
| DatabaseWrites.SqlReads | agent/tools/database_workflow_tool.py:331-380 | the SQL node sends the read executor the model's first statement, behind its guards, and runs nothing else |
| DatabaseWrites.OthersRunNothing | agent/tools/database_workflow_tool.py:714-747 | no other node has a text of the model's run |
| DatabaseWrites.StepChangesExactly | agent/tools/database_workflow_tool.py:211-380 | a step's changes of production are approved ones if and only if it is neither a sandbox step whose valid candidate changes production from its sandbox nor an SQL step whose gated text does |
| DatabaseWrites.ProductionChangesApprovedExactlyWhen | agent/tools/database_workflow_tool.py:211-380 | for every run: every change of production is merge's, with the switch on, by exactly the text that was validated, shown and answered `continue`, one statement with an allowed head and WHERE for UPDATE and DELETE, if and only if no step is of these two kinds |
| DatabaseSettings.SettingIsSafeExactlyWhen | agent/tools/database_workflow_tool.py:612-633 | that holds whatever is asked and answered if and only if no accepted candidate changes production from DB_SANDBOX_DATABASE, or the caps keep every run from its sandbox node, and no gated text changes production, or the caps keep every run from its SQL node |
| DatabaseSettings.StaysOut | agent/tools/database_workflow_tool.py:83-135 | sandbox and SQL node come to their bodies in no run whose caps are below the stated ones |
| DatabaseSettings.ConfinedSettingIsSafeExactlyWhen | agent/tools/database_workflow_tool.py:612-633 | if the server confines each text to its connection's database and gated texts to reading: if and only if DB_SANDBOX_DATABASE is unset, empty or different from MYSQL_DATABASE, or no accepted candidate changes production, or the caps keep every run from its sandbox node |
| DatabaseSettings.WriteChangesUnapproved | agent/tools/database_workflow_tool.py:612-633 | every accepted candidate that changes production from the sandbox is committed there by a run with the merge switch off |
| DatabaseSettings.ReadChangesUnapproved | agent/tools/database_workflow_tool.py:331-380 | every gated text that changes production is sent to the read executor by such a run, whatever the sandbox |
| DatabaseSettings.QualifiedNameEscapes | agent/tools/database_workflow_tool.py:612-633 | with different databases, an insertion that names the production database is committed through the sandbox's connection |
| DatabaseSettings.WithDeleteEscapes | agent/platform/db.py:136-166 | without a sandbox, a deletion behind `with` is run by the read executor |
| DatabaseWrites.OnlySqlReads | agent/tools/database_workflow_tool.py:331-380 | only the SQL node sends the read executor a text, the first statement of the model's |
| DatabaseWrites.ProductionReadsAreGated | agent/platform/db.py:136-197 | in every run what the read executor runs starts with a read word, has no head that the write executor knows, and names tenant and shop when it mentions a scoped table |
| DatabaseCalls.SchemaTablesAreDistinct | agent/tools/database_workflow_tool.py:444-452 | at most the table cap many candidate tables, all distinct |
| DatabaseCalls.SchemaTablesAreFirst | agent/tools/database_workflow_tool.py:444-452 | the tables looked up are the first of those hinted at, or of the default five, in the order of the table of hints, as many as the cap lets through |
| DatabaseCalls.RunCalls | agent/tools/database_workflow_tool.py:310-380 | a run calls the specialised analysis alone, or distinct schema look-ups and then at most the failure cap many statements |
| DatabaseCalls.FuseTripsExactlyOnRepeatedSql | agent/tools/db_tools.py:50-83 | with the default limits a run on a reset thread trips the fuse exactly where it repeats an SQL text |
| DbFuse.DbToolGuard.Reset | agent/tools/db_tools.py:39-42 | the thread's guard is fresh afterwards, the others as before |
| DbFuse.DbToolGuard.RecordCall | agent/tools/db_tools.py:50-83 | the guard after a call and whether it is broken off: refused after the specialised result, repeated among the last six, or over a limit |
| DbFuse.DbToolGuard.MarkSpecializedResultReady | agent/tools/db_tools.py:91-93 | only a result of more than one line marks the thread |
| DbFuse.GuardAfterExploration | agent/tools/db_tools.py:50-83 | the counters after look-ups followed by statements |
| DbFuse.BrokenExactlyWhen | agent/tools/db_tools.py:50-93 | after any calls, resets and specialised results, whatever the limits: a call is broken off if and only if it is for another tool behind a specialised result, repeats one of the last five counted calls, or is one too many of all, of the look-ups or of the statements |
| DbFuse.TripsExactlyOnRepeatedSql | agent/tools/db_tools.py:50-83 | at most five distinct look-ups and then at most four statements trip the default fuse exactly at a repeated statement |
| PlannerSelection.SelectCapabilities | agent/plan/planner.py:230-250 | the selection loop, the insertions and the cut at four, as the next four rows say |
| PlannerSelection.PicksAre | agent/plan/planner.py:230-237 | a match is picked if and only if it scores at least two and no earlier match of its capability does |
| PlannerSelection.ScoredArePicks | agent/plan/planner.py:230-237 | the scored capabilities are those of the picked matches, in match order |
| PlannerSelection.PlainSelectionIs | agent/plan/planner.py:230-250 | a query that does not ask for the three together selects the scored capabilities, one for products in front and for inventory and campaigns behind if they are mentioned and have none, cut at four |
| PlannerSelection.CombinedSelectionIs | agent/plan/planner.py:230-259 | one that does selects these and the missing ones of the three, in order of preference by agent, equal agents as they were, cut at four |
| PlannerSelection.CombinedGathersAll | agent/plan/planner.py:244-249 | a combined query has all three capabilities before the cut |
| PlannerSelection.SurvivesExactlyWhen | agent/plan/planner.py:249-259 | an agent survives the cut if and only if fewer than four gathered capabilities rank before it |
| PlannerSelection.AllThreeSurviveExactlyWhen | agent/plan/planner.py:249-259 | a gathered list keeps all three agents if and only if at most three of its capabilities rank before campaigns |
| PlannerSelection.GatheredCounts | agent/plan/planner.py:230-249 | a combined query gathers `hot_product_analysis`, `inventory_analysis` and one capability before campaigns for each match that adds one |
| PlannerSelection.CombinedKeepsAllExactlyWhen | agent/plan/planner.py:230-250 | a combined query keeps all three agents if and only if at most one match adds a product or inventory capability to those two |
| PlannerSelection.CombinedMayLoseAnAgent | agent/plan/planner.py:230-250 | one further product and one further inventory capability that match make it lose an agent |
| Planner.AddTargets | agent/plan/planner.py:375-389 | the edges from one source to every wanted assignment are added |
| Planner.AddSources | agent/plan/planner.py:390-394 | the edges into one target from every other assignment are added |
| Planner.AddUpstream | agent/plan/planner.py:385-389 | the edges of one upstream agent, if it is assigned |
| Planner.FirstId | agent/plan/planner.py:370-373 | the id of the agent's first assignment, else empty |
| Planner.FirstIs | agent/plan/planner.py:370-373 | it is the id of the first assignment of the agent, and empty exactly without one |
| Planner.DedupeDependencies | agent/plan/planner.py:421-430 | the same edges, each once |
| Planner.AssignmentDependencies | agent/plan/planner.py:367-395 | exactly the edges that the rules name, each once; none for separate views |
| Planner.SanitizeDependencies | agent/plan/planner.py:414-418 | exactly the edges between two different known assignments with a known type, each once |
| Planner.SyncAssignmentDependencies | agent/plan/planner.py:398-411 | grouping by target and then merging equals adding to each assignment its own sources |
| Planner.UniqueShape | agent/plan/planner.py:408-409 | `dict.fromkeys` keeps exactly the elements, each once |
| Planner.UniqueKeepsOrder | agent/plan/planner.py:408-409 | and in the order in which they first stood |
| Planner.DedupeCapabilities | agent/plan/planner.py:355-364 | the loop keeps the first capability of each agent, in order |
| Planner.FirstPerAgentIs | agent/plan/planner.py:355-364 | each kept capability is the first of its agent, and no two have one agent |
| Planner.FirstPerAgentKeeps | agent/plan/planner.py:355-364 | the agents are those there were |
| Planner.GroupByTarget | agent/plan/planner.py:398-411 | grouping by target gives for each id exactly its sources, in order |
| Planner.PlanAssignments | agent/plan/planner.py:177-185 | the first supported capability of each agent gets an assignment, in selection order, and the plan is synced with exactly the edges between them |
| Planner.SyncKeepsEdges | agent/plan/planner.py:398-411 | filling in depends_on changes no edge |
| PlannerOrder.EdgesRaiseLevel | agent/plan/planner.py:367-395 | without one of data_quality and database_query every edge raises a level |
| PlannerOrder.AcyclicExactlyWhen | agent/plan/planner.py:367-395 | for proper ids the built graph is acyclic if and only if data_quality and database_query are not both assigned |
| PlannerOrder.DependsOnIsTheSources | agent/plan/planner.py:398-411 | depends_on holds what it held and exactly the sources of the edges into the assignment, each once |
| PlannerOrder.RequirementsAreTheEdges | agent/plan/planner.py:398-411 | the requirements hold what they held and exactly the kinds and sources of the edges into the assignment, each once |
| PlannerOrder.SerialOrderExists | agent/plan/planner.py:367-411 | then there is an order of all assignments that respects depends_on |
| PlannerOrder.AssignmentIdsAreProper | agent/plan/planner.py:262-282 | the ids of a deterministic plan are distinct and not empty |
| PlannerOrder.DeterministicPlanIsSerial | agent/plan/planner.py:165-205 | every deterministic plan over the built-in capabilities is acyclic, has such an order, and its depends_on is exactly the sources |
| PlannerNeeds.PlanWaitsExactlyWhen | agent/plan/planner.py:367-411 | in every deterministic plan, unless separate views are asked for, an assignment requires another and depends on it if and only if: inventory or campaigns on the product analysis, any on a check of the data, campaigns on inventory, the report on any |
| PlannerOrder.SanitisedDependsOn | agent/plan/planner.py:414-418 | after sanitising depends_on only gains ids of other assignments |
| PlannerOrder.SanitisedMayBeCyclic | agent/plan/planner.py:414-418 | between any two assignments both directions are let through |
| PlannerTopology.SerialOrderExactlyWhen | agent/plan/planner.py:398-418 | for any assignments with proper ids an order of all that respects depends_on exists if and only if everything depended on is assigned and nothing depends on itself, directly or along a path |
| PlannerTopology.SanitisedPlanIsSerialExactlyWhen | agent/plan/planner.py:207-228 | for any assignments with proper ids, whatever they come depending on, and any sanitised edges, the plan has such an order if and only if all that they came to depend on is assigned and no closed path runs along these dependencies and the edges other than conflict checks |
| PlannerTopology.EdgesDecideWithoutNeeds | agent/plan/planner.py:207-228 | when they come without depends_on that is: if and only if those edges have no cycle |
| PlannerTopology.MutualNeedsHaveNoOrder | agent/plan/planner.py:398-411 | two assignments that come depending on each other have no order, without any edge |
| PlannerFallback.PlanFallback | agent/plan/planner.py:165-185 | the fallback plan: the default capability when nothing is selected, the realtime filter and its two refusals, one assignment an agent and exactly the edges of the rules |
| PlannerFallback.DefaultPlanIsReport | agent/plan/planner.py:165-185 | without any match the plan is one assignment, of the report agent, and no edge |
| PlannerFallback.FallbackPlanIsSerial | agent/plan/planner.py:165-250 | from any matches and words, in either profile: one assignment for exactly the agents chosen, no cycle, a serial order, and depends_on exactly the sources |
| StableSort.SortRises | agent/plan/planner.py:257-259 | sorting gives rising keys |
| StableSort.SortContents | agent/plan/planner.py:257-259 | sorting keeps the elements |
| StableSort.SortIsStable | agent/plan/planner.py:257-259 | elements with one key keep their order |
| StableSort.SortStartsWith | agent/plan/models.py:117-119 | sorting starts with the first of the elements of least key |
| StableSort.LowKeysComeFirst | agent/plan/planner.py:257-259 | in rising order the elements below a key are exactly the first ones |
| PlanModels.ReadExactlyWhen | agent/plan/models.py:230-247 | the plans that from_dict can give are exactly those with every default filled in |
| PlanModels.ReadingFillsIn | agent/plan/models.py:32-97 | for every dictionary whatever: each given entry is kept and each absent one replaced by its default, and lists keep exactly their dictionaries, in order |
| PlanModels.IntentsAreByPriority | agent/plan/models.py:117-119 | the intents are those of the assignments by rising priority, in plan order within one priority |
| PlanModels.ModeExactlyWhen | agent/plan/models.py:133-143 | for every plan, on its fields alone, when each of the five execution modes is chosen, each an if and only if |
| PlanModels.EvaluationExactlyWhen | agent/plan/models.py:170-172 | an evaluation is left out if and only if the profile is not deep, there is at most one assignment and the risk is neither medium nor high |
| PlanModels.SeveralAgentsAreEvaluated | agent/plan/models.py:133-172 | several agents, and a network search, run only with an evaluation |
| PlanModels.TaskTypeIs | agent/plan/models.py:121-131 | for every plan which text the primary task type is, in the end the intent of the first assignment of least priority, or what the profile says without assignments |
| PlanModels.TaskTypeIsNamed | agent/plan/models.py:121-131 | a plan that was read always has a primary task type |
| PlanModels.WritingTells | agent/plan/models.py:209-228 | a written plan tells plan_id, raw_query, primary_intent and profile, the derived primary_task_type, execution_mode and assignment_intents, and each assignment as it is |
| PlanModels.NormalisationIs | agent/plan/models.py:209-247 | writing and reading changes nothing but an empty primary_intent, which becomes the primary task type |
| PlanModels.NormalisationPreservesMeaning | agent/plan/models.py:209-247 | for every plan that was read, primary_task_type, execution_mode, evaluation_required and assignment_intents are kept, and normalising is idempotent |
| PlanModels.IdentityExactlyWhen | agent/plan/models.py:209-247 | for every plan, normalising is the identity if and only if every default is filled in and primary_intent is not empty |
| Mojibake.DecodeUndoesEncode | gateway/internal/auth/mysql_user_store.go:500-508 | the rune loop's decoding undoes UTF-8 encoding, whatever follows (sections 3 and 4 of RFC 3629) |
| Mojibake.EncodeUndoesDecode | gateway/internal/auth/mysql_user_store.go:500-508 | what decodes is the encoding of a scalar value |
| Mojibake.ValidExactlyWhen | gateway/internal/auth/mysql_user_store.go:509-511 | validity holds of exactly the encodings of scalar value sequences |
| Mojibake.UnreadUndoesMisread | gateway/internal/auth/mysql_user_store.go:500-508 | the loop recovers the bytes of every misreading |
| Mojibake.MisreadUndoesUnread | gateway/internal/auth/mysql_user_store.go:500-508 | what the loop recovers misreads as the value |
| Mojibake.RepairLatin1Mojibake | gateway/internal/auth/mysql_user_store.go:497-517 | success exactly on Latin-1 misreadings of valid UTF-8 with a non-ASCII byte, giving the original bytes, strictly shorter; the input unchanged elsewhere |
| Mojibake.Settled | gateway/internal/auth/mysql_user_store.go:486-495 | repeated repair ends at a text that repair leaves alone |
| Mojibake.RepairsUndoMisreadings | gateway/internal/auth/mysql_user_store.go:497-517 | text misread any number of times is restored by as many repairs |
| Mojibake.FixedExactlyWhen | gateway/internal/auth/mysql_user_store.go:497-517 | a text is left alone if and only if it is no misreading of another |
| JobResults.JobResultService.FinalizeSuccess | api/services/job_result_service.py:30-62 | the three tables after a success; nothing without a job |
| JobResults.JobResultService.FinalizeFailure | api/services/job_result_service.py:65-107 | the three tables after a failure; only a linked report becomes a draft |
| JobResults.JobResultService.UpsertReport | api/services/job_result_service.py:124-176 | the linked report, else the task's own, else a new linked one for a job type that has reports |
| JobResults.JobResultService.InsertStrategyCandidates | api/services/job_result_service.py:179-210 | the titled ones of the first three candidates are inserted, unless the task has strategies; the count is told |
| JobResultRuns.RepeatedSuccessChangesNothing | api/services/job_result_service.py:38-46 | two consecutive identical successes are one |
| JobResultRuns.SuccessAgrees | api/services/job_result_service.py:47-62 | after a success the job is completed without error and its report ready |
| JobResultRuns.FailureAgreesExactlyWhen | api/services/job_result_service.py:82-107 | after a failure the job is failed with a message of 1 to 1000 characters, and job and report agree if and only if the report is linked, absent or a draft |
| JobResultRuns.SuccessWritesTheReport | api/services/job_result_service.py:124-176 | the job's own report carries the result; an existing row keeps id, kind, title and author, a new one has the drawn id, the kind named for the job's type, the job's title if it has one, and the caller as author |
| JobResultRuns.FailureWritesTheReport | api/services/job_result_service.py:91-106 | exactly the linked rows become drafts whose content is the failure message, cut at 1000, behind a fixed opening, and whose summary is its start; no row is added |
| JobResultRuns.StrategiesAreWellFormed | api/services/job_result_service.py:188-209 | every inserted strategy comes from a titled candidate and has a title of 1 to 255 characters, a source, an impact and a known risk level |
| JobResultRuns.ReportsCreatedExactly | api/services/job_result_service.py:124-176 | over any run one report is created if there is a success, the job links to none, its type has reports and the task has none; otherwise none; no row goes away |
| JobResultRuns.AgreeExactlyWhen | api/services/job_result_service.py:30-107 | after any run the job's status is the last outcome, and job and report agree if and only if that is a success or the report is not an unlinked one that is no draft |
| JobResultRuns.StrategiesCreated | api/services/job_result_service.py:179-210 | over any run at most three strategies are added, all of the task, and none if it had some |
| JobStrategies.WithStrategiesInserts | api/services/job_result_service.py:179-210 | a result's titled candidates among the first three are all inserted, in order, each row carrying its candidate, if the task had no strategies; else none |
| JobStrategies.StrategiesOfRun | api/services/job_result_service.py:179-210 | over any run exactly those of the first result that names any, and none of a later one |
| JobResultRuns.OthersStay | api/services/job_result_service.py:30-176 | over any run other jobs and every report but the job's own stay as they were |
| JobResultRuns.UnknownTaskIsSkipped | api/services/job_result_service.py:47-83 | a task without a job changes nothing, however often and however it ends |
| JobResultRuns.UnlinkedReportStaysReady | api/services/job_result_service.py:141-159 | a success that found an unlinked report followed by a failure leaves a failed job with a ready report |
| Tracer.JsonlTracer.constructor | agent/trace/tracer.py:28-33 | an empty queue, no writer, nothing dropped |
| Tracer.JsonlTracer.RecordEvent | agent/trace/tracer.py:65-82 | the event is queued, or counted as dropped when the writer cannot start or the queue is full |
| Tracer.JsonlTracer.TakeEvent | agent/trace/tracer.py:84-86 | the writer takes the oldest event |
| Tracer.JsonlTracer.WriteEvent | agent/trace/tracer.py:87-92 | the event in hand is written, or counted as dropped when writing raises |
| Tracer.SubsequenceWithout | agent/trace/tracer.py:87-92 | leaving out a lost event keeps the order of the others |
| Tracer.TraceConservation | agent/trace/tracer.py:65-92 | in every interleaving, at every step, recorded = written + in hand + queued + dropped, the written events are a subsequence of the recorded in order, all of them when nothing is dropped or under way, and the queue keeps its bound |
| Tracer.TraceIsTold | agent/trace/tracer.py:65-92 | in every interleaving the steps alone tell which events are refused, queued, in hand, written and lost: an event is refused if and only if no writer is there and none can be started, or the queue holds as many as it may; what is queued is taken and written in order, and the count of dropped events is exact |
| TraceReader.AllEvents | agent/trace/reader.py:188-201 | the full scan yields what its lines parse to, in order |
| TraceReader.LineEndsAreTranslated | agent/trace/reader.py:188-201 | opened as text, records closed by carriage returns, with or without newlines, read as those closed by newlines |
| TraceReader.ParseLines | agent/trace/reader.py:194-201 | blank and broken lines are left out, the others kept in order |
| TraceReader.RecentEvents | agent/trace/reader.py:204-224 | the tail reader yields what its tail lines parse to |
| TraceReader.LinesAfter | agent/trace/reader.py:211-214 | jumping into the file and dropping the rest of a line leaves exactly the lines that start after the point jumped to |
| TraceReader.TailLinesAreSuffix | agent/trace/reader.py:208-216 | for every file and all limits the tail lines are the last lines of the file, all of them when they fit |
| TraceReader.TailIsSuffixOfScan | agent/trace/reader.py:188-224 | for every file of newline-separated records the tail reader yields a suffix of what the full scan yields |
| TraceReader.TaskTracesAreSuffix | agent/trace/reader.py:16-18 | list_task_traces yields a suffix of the task's whole trace |
| TraceReader.ReadsBackWhatWasWritten | agent/trace/tracer.py:94-110 | what the writer wrote is read back: a suffix of the written events, exactly the last max_events when they fit the byte limit |
| Guards.RuntimeGuard.constructor | agent/subagent/guard.py:46-61 | all counters start empty |
| Guards.RuntimeGuard.RecordModelCall | agent/subagent/guard.py:71-74 | counted, then compared with the limit; time is not looked at |
| Guards.RuntimeGuard.RecordToolCall | agent/subagent/guard.py:76-85 | refused for time uncounted; else counted three ways and then compared with call and repeat limits |
| Guards.RuntimeGuard.RecordSubagentCall | agent/subagent/guard.py:87-94 | refused for time uncounted; else counted twice and then compared with both limits |
| Guards.RuntimeGuard.RecordAssistantMessage | agent/subagent/guard.py:96-104 | the run of equal messages is counted, and two repeats tell no progress |
| Guards.AgentExecutionBudget.constructor | agent/runtime/budget.py:25-48 | nothing spent |
| Guards.AgentExecutionBudget.RecordModelCall | agent/runtime/budget.py:81-86 | compared with time and limit, counted only when accepted |
| Guards.AgentExecutionBudget.RecordToolCall | agent/runtime/budget.py:88-95 | network search may be refused; otherwise compared, counted only when accepted |
| Guards.AgentExecutionBudget.RecordSubagentCall | agent/runtime/budget.py:97-102 | compared with time and limit, counted only when accepted |
| GuardRuns.TotalsAreSums | agent/subagent/guard.py:76-94 | after any calls, refused ones included, tool_calls is the sum of tool_counts and of tool_args_counts, subagent_calls of subagent_counts |
| GuardRuns.VerdictIs | agent/subagent/guard.py:71-94 | what the guard says of a call after any others: by the time, the number of calls of its sort counted before, and the number of the same calls counted before |
| GuardRuns.StayInStep | agent/runtime/budget.py:81-102 | over any run the budget's counters are the guard's, stopped at the limits |
| GuardRuns.GuardAcceptsExactlyWhen | agent/subagent/guard.py:71-94 | with equal limits, one clock and network search allowed the guard accepts a call if and only if the budget does and its repeat count is within the limit; both refuse for time and for the budget together |
| GuardRuns.NetworkMattersOnlyToSearches | agent/runtime/budget.py:88-95 | the budget without network search is the budget with it over every run that meets no search within the time |
| GuardRuns.CountersAgreeExactlyWhen | agent/runtime/budget.py:81-102 | without network search guard and budget count alike over a run if and only if each search within the time finds the guard's tool calls spent |
| GuardRuns.VerdictsAgreeExactlyWhen | agent/runtime/budget.py:81-102 | without network search, over every run, they accept the same calls up to the repeat limits if and only if the guard accepts no search within the time |
| GuardRuns.NetworkSearchSeparatesThem | agent/runtime/budget.py:88-95 | the failing run: an accepted search takes the guard's only tool call, so that it refuses what the budget accepts |
| GuardRuns.NoProgressExactlyWhen | agent/subagent/guard.py:96-104 | no progress is told if and only if the last three messages are the same and not blank |

## Left out

- The async twins of the checkpointer (`aput`, `aget_tuple`, `alist`, `aput_writes`): copies of the synchronous methods.
- Serialiser, JSON and SHA-256: taken as bijections or collision-free functions; Redis keys are tuples, so components holding ':' cannot collide here as text keys could.
- Redis and NATS transports of the task queue: only the inline backend is modelled; `start` is called once; fairness of semaphores and of the event loop is left open, so completion is stated for runs that cannot be continued.
- What happens inside the worker thread of `_run_agent_task_sync`, timestamps, and task metadata other than conversation, tenant, user and shop.
- asyncio atomicity: no lock is held across a suspension point, so each registry method, the identity test with the enqueue of a submission, and the cancelled test with the start in the handler are each one step; two requests of one conversation that interleave between test and enqueue are not modelled.
- Language models, prompts, keyword and regular-expression matching, the supervisor's verdict, the fence expression of `_extract_sql`: arbitrary inputs. Whether a character outside ASCII is a word character, and the lower-casing of the read gate, are parameters.
- The semantics of SQL, MySQL and the sandbox database: a result is an arbitrary text with a failure flag; `schema_text` and error texts only feed prompts.
- WriteRun: stated for runs whose every step is let through; when a step is stopped, and with which answer, is `StoppedExactlyWhen`, and an answer that a stopped or rejecting step leaves is handed on unless the rounds run out behind it.
- CancelledYetStarted: the finishing step of an ended task object may come at any later time; which of several ready coroutines the event loop runs first is left open.
- FirstInFirstOut: the order in which payloads leave the inline queue; which of several waiting handlers gets a free permit is left open.
- SettingIsSafeExactlyWhen: which databases a text changes on which connection is a parameter (`changes`) that does not depend on the rows; the fuse's verdict on a read is an input; the fixed statements of the schema look-ups and of the specialised analysis are taken to change nothing.
- SanitisedPlanIsSerialExactlyWhen: ids have to be distinct and not empty, which reading a model-written plan does not enforce.
- RunningIsBoundedWithin: an Agent on the event loop, as a chat run's, ends with its task object; both orders of the two ends are allowed. Agents started around the queue are not counted.
- EveryRunEnds: a model call that raises in the SQL or sandbox node ends the tool with an exception, which is not modelled; the tool calls of these nodes that raise are.
- LangGraph: its recursion limit refuses values below one and its special write channels have the indices listed in `WRITES_IDX_MAP`; both are taken from its public behaviour, its code is not part of this model.
- The wording of answers, approval and merge summaries: kept as constructors of `Answer`, except for the SQL text they show.
- Model-written plans beyond `_sanitize_dependencies`: enrichment of assignments fills texts without a property of its own.
- PlanFallback: the boundary and clarification plans for queries out of scope and unnamed campaigns are decided by keywords before it and not modelled.
- DeterministicPlanIsSerial: stated for capabilities of the built-in registry (lines 100 to 113), whose five agents do not include `database_query`; a registry passed in from outside may have others.
- CombinedKeepsAllExactlyWhen: assumes that a capability with one of the three fixed ids is the built-in one, as in the default registry.
- TaskRegistry.InterruptTask: the wait for the future is the event loop's; its cancellation is the step `LoseAwaitE`, a time-out does not exist in the source.
- OneIdentityExactlyWhen: assumes fresh task ids, although POST /api/task accepts one chosen by the caller, conversation ids that are not empty, and starts that carry the metadata they were enqueued with, as the handler's payload does.
- ConversationInterruptIsNeverAnswered: assumes that no task and no chat run is given the conversation's own id, since one that is can be cancelled under it.
- ResumableExactlyWhen: assumes that the future is stored under one id only, which every obliging run keeps (`WakeStep`); the chat endpoint's test that its run is still open is left to the set of chat runs.
- RepairLatin1Mojibake: the trimming that `cleanDisplayText` does first is not modelled.
- FinalizeSuccess: one job row a task; `updated_at`, tenant and shop columns are fixed by the scope; several shops are several models. Summaries and candidates are inputs, as `business_text` only rewrites text.
- RecordEvent: the increment of `dropped_count` from several threads is taken as atomic, and an event is written whole or not at all.
- AllEvents: a file with bytes that are not UTF-8 makes the full scan raise, which is not modelled; the tail reader replaces them.
- TailIsSuffixOfScan: needs a file without carriage returns, which text mode would take for line ends and the tail reader would not; the writer's JSON never contains one.
- GuardAcceptsExactlyWhen: model calls have to be within the time, since only the budget looks at it there; the middleware's choice between tool and subagent calls is not modelled.
- VerdictsAgreeExactlyWhen: assumes that no tool's name starts with `internet_search:`, whose argument keys would run into the search's.
- Reflection, evaluation and the other budget fields, scorecards, reports, HTTP routes, the gateway's router and permissions, the Docker runner and path policies: single decisions or plumbing.
