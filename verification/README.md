# The Conductor engine's task runtime, verified

A Dafny model of the engine's runtime core and proofs about it: the supervisor that takes
a task through policy, approval, execution, retries and escalation; the stores that keep
its records; the bus that tells clients what happened; the orchestrator that runs plans of
tasks; the guild that counts what succeeded and failed; and the trigger scheduler.
`dafny verify dfyconfig.toml` checks everything.

## How the model is built

**One journal.** Everything the supervisor makes durable or visible is a step of a journal:
a record saved, an event emitted, a capability executed on an input (`Journals.dfy`). `TaskOk` is the
local rule of the lifecycle - which single step may follow a task's history - and the lemmas
beside it say what that rule amounts to over whole histories: audit replay, at most one
authorised start, terminal statuses that are never left, durability before visibility, and an
event log that is exactly what the trail announces. Every prefix of a legal history is legal,
so these hold at every moment and not only between operations.

**A run as a function.** `Runs.dfy` writes `run_task` as a function from the stored record to
the steps it takes. What a capability, the policy engine and the guild's suggestion answer,
the random draws and the times read are given by `World` and `Config`. `Outcomes.dfy`,
`Timestamps.dfy`, `Accounts.dfy` and `Schedules.dfy` prove the exact outcome of the retry
loop, the order of timestamps, the agreement with the guild's counts, and that parallel
batches do not depend on the schedule; `Ledger.dfy` draws the guild's account over many runs.
`Transitions.dfy`, `Inputs.dfy` and `Lessons.dfy` state, in terms of the submitted task and the
collaborators' answers alone, what each step does to the record, which input each attempt is
made on and under which keys the guild counts.

**The supervisor as an object.** `Supervisor.dfy` is the imperative supervisor: its store,
queue, event log and rate-limit table are fields, its retry loop is a loop, and each
operation is proved to append exactly the steps of the function it is specified by.
`Serve` runs any finite sequence of operations; `EveryRecord` says what then holds of every
stored task.

**Protocols.** `LockedStore.dfy` (processes sharing the JSON file) and `EventBus.dfy`
(subscribers, emitter threads and loop callbacks) are state machines; their results hold for
every interleaving of any number of participants.

## Where the code and its documentation disagree

- `docs/conductor/task-model.md` calls `attempt` the number of execution attempts made. When
  the escalation policy cuts a failing run short of its retry budget, the stored number is
  one more than the executions: `Outcomes.AttemptOvercounts` is an instance and
  `Outcomes.AttemptCountsExecutions` the exact condition.
- The state machine in the same document has no escalation. `Journals.Documented` adds
  RUNNING -> ESCALATED and the entries `allowed` and `retry` that stay in their status;
  `docs/conductor/design-integrity.md` has ESCALATED as terminal, which holds.
- The orchestrator looks for FAILED tasks only and leaves the rest to its validator, so the
  status it reports need not be that of the trace: `ControlPlane.VerdictMatchesTraceIff` says
  exactly when they agree, and `ControlPlane.EscalatedWorkflowDisagrees` is a workflow reported
  as completed whose trace is failed.
- A guild key joins three fields with colons. It identifies its fingerprint exactly when no
  field contains a colon (`Guild.KeyUnambiguousIff`); `Guild.KeyInjective` needs only the last
  two fields to be free of them.
- The search through a cron list ends at the first `*` or step token, wherever it stands;
  later tokens are not looked at (`Cron.LaterTokensHidden`). `Cron.FieldSelects` is the exact
  meaning of every list, `Cron.FieldIsUnionIff` says when it is the union of its tokens, and
  `Cron.HiddenValue` is a list that misses a value. Day and weekday must both match.
- Only the last emitted minute is remembered. Each minute is emitted at most once exactly when
  no other due minute is polled between two polls of a due minute (`Cron.OnceIff`). A clock that
  does not go back is enough (`Cron.OncePerMinute`) and not necessary: it may step back within
  a minute or over minutes that are not due. `Cron.BackwardClockRepeats` is a repetition.
- The record is saved before it is queued, so a full queue leaves a stored task that nothing
  will run by itself. Queued ids are stored ids; the converse is not an invariant.

## Model

| member | source | states |
|---|---|---|
| `Journals.AuditReplay` | engine/supervisor/service.py:101-184 | On every reachable record each audit entry with statuses starts where the previous one ended and makes a documented move, folding the trail gives the current status, `started` occurs at most once and only after `allowed` or `approved` - after `approved` when the capability requires approval |
| `Journals.FactsPreserved` | engine/supervisor/service.py:153-184 | One legal save keeps record and trail in agreement, whichever transition it makes |
| `Journals.SavesAreTrailPrefixes` | engine/supervisor/service.py:123-126 | The i-th save of a task holds exactly the first i+1 entries of its final trail; identity fields never change |
| `Journals.TerminalIsFinal` | engine/supervisor/service.py:349-353 | After a record with status COMPLETED, FAILED, ESCALATED, POLICY_DENIED or CANCELLED is saved, at most its own announcement follows; nothing is saved or executed any more |
| `Journals.DurableBeforeVisible` | engine/supervisor/service.py:165-184 | The step right before any emission is the save of a record with the announced status, attempt and kind |
| `Journals.EventKinds` | engine/supervisor/service.py:128-151 | The type of every event follows from the status it tells of and, for a running task, from whether this is its first attempt |
| `Journals.EventsProjectTrail` | engine/supervisor/service.py:128-184 | A task's events are, in order, the projection of its trail without submitted, allowed, peer_suggestion_applied and failure_recorded; only the announcement of the very last save may be outstanding |
| `Journals.ExecutionsMatchTrail` | engine/supervisor/service.py:405-541 | Executions equal the `started` and `retry` entries, less one just announced and not yet begun |
| `Journals.QuietAccounts` | engine/supervisor/service.py:349-573 | At rest a launched task executed 1 + its `retry` entries times and any other task never, and every announcement has been made |
| `Runs.RunLegal` | engine/supervisor/service.py:349-573 | For every record at rest and every behaviour of the collaborators, a run takes legal steps only, comes to rest and stores the record it returns |
| `Runs.AttemptsLegal` | engine/supervisor/service.py:417-571 | The same for the retry loop from any attempt |
| `Transitions.RunExact` | engine/supervisor/service.py:235-320 | Every save of a run is, field by field, the effect of its entry on the record before it - actor, statuses, times, attempt, input and result - and every event and execution carries what that record says |
| `Transitions.RunKeepsTask` | engine/supervisor/service.py:349-573 | A run keeps the task's id, name, capability, retries, workflow and time of creation |
| `Inputs.RunInputs` | engine/supervisor/service.py:385-387 | The executions of a run are exactly attempts 1 to the last, in order, each on its own input: the stored one updated by the suggestion, then the adjuster's answer to the failure before, where there is one, or the same input again; every saved record has the input of its attempt, and every failure tells its error and the fingerprint of the input that failed |
| `Inputs.LoopOn` | engine/supervisor/service.py:461-541 | The same for the retry loop from any attempt |
| `Outcomes.LoopOutcome` | engine/supervisor/service.py:417-571 | With limit = min(B, E), B = max(max_retries, 0) + 1, E = max(threshold, 1): exact executions, status, result, attempt number and failure history of the loop, for every built-in strategy |
| `Outcomes.RunOutcome` | engine/supervisor/service.py:349-573 | A run that launches ends exactly as promised from attempt 1; one that does not executes nothing and records no failures |
| `Outcomes.CompletedIff` | engine/supervisor/service.py:419-457 | COMPLETED iff some attempt within min(B, E) succeeds and all before it fail |
| `Supervisor.SubmissionOutcome` | engine/supervisor/service.py:339-341 | A submission run at once is the task that was submitted, and completed iff it needs no approval, the policy allows it, the suggestion does not fail and the first attempt within the limit of its own max_retries that does not fail succeeds |
| `Supervisor.AcceptedIff` | engine/guardrails/validation.py:12-28 | A submission is accepted iff name and capability are not just white space, the capability is registered and it accepts the input |
| `Outcomes.AttemptCountsExecutions` | engine/supervisor/service.py:505-515 | The stored attempt equals the executions iff the policy does not cut an all-failing run short of its budget |
| `Outcomes.AttemptOvercounts` | engine/supervisor/service.py:505-515 | Three retries, threshold one and a failing capability: one execution, stored as attempt 2, ESCALATED |
| `Outcomes.GateOutcome` | engine/supervisor/service.py:352-376 | A run that does not launch is held iff approval is called for, denied (with the policy's reason) iff the policy denies a task needing no approval, left pending with a saved `allowed` entry iff the suggestion fails after admission; each error has exactly its own cause |
| `Outcomes.GateSteps` | engine/supervisor/service.py:352-400 | Such a run either does nothing or saves one new entry and announces it unless it is `allowed` |
| `Outcomes.Decisive` | engine/supervisor/service.py:419-457 | The first attempt that does not fail: every earlier one fails, and it lies within the limit or is limit + 1 |
| `Timestamps.TimestampsAscend` | engine/supervisor/service.py:101-126 | Under a clock that never goes back every stored trail is in order of time, whatever other tasks do meanwhile |
| `Timestamps.RunStamped` | engine/supervisor/service.py:349-573 | Every entry a run saves carries the time read when it was prepared |
| `Accounts.RunAccounts` | engine/supervisor/service.py:322-328 | Whenever a run evicts nothing, a completed one adds exactly one success and no failures to the guild, a failed or escalated one exactly as many failures as executions and no successes, a torn-down one nothing |
| `Accounts.EvictedCount` | engine/guild/knowledge.py:227-238 | What counts as evicted is exactly the difference between the records a run teaches and those it leaves |
| `Accounts.BelowLimitLostNothing` | engine/guild/knowledge.py:227-238 | A guild below its limit after a run lost nothing to it and was below it before |
| `Ledger.RunBalances` | engine/supervisor/service.py:349-573 | Running a stored task that evicts nothing keeps the guild's totals equal to the completed tasks and to the executions of failed and escalated ones |
| `RateLimit.StartRecorded` | engine/supervisor/service.py:202-210 | Recording a start that respects the gap keeps every capability's starts spaced and the last one remembered |
| `RateLimit.RateBound` | engine/supervisor/service.py:196-210 | Any n starts of a capability within a span T satisfy (n - 1) * interval <= T |
| `Schedules.InterleavingKeepsHistories` | engine/workflow/orchestrator.py:100-111 | In any interleaving of work on distinct tasks each task's history is exactly its own part, and no other task is touched |
| `Schedules.InterleavingLegal` | engine/workflow/orchestrator.py:100-111 | Interleaving legal work on distinct tasks keeps every history legal |
| `Schedules.BatchScheduleIndependent` | engine/workflow/orchestrator.py:90-113 | Every interleaving of a batch's steps ends, up to timestamps, in the store of running the jobs one after another |
| `Schedules.BatchRecords` | engine/workflow/orchestrator.py:101-113 | The k-th record of a batch is the one the k-th job stored, alike to that of the sequential run |
| `Schedules.RunAlike` | engine/supervisor/service.py:349-573 | Two runs of alike records that differ only in the clock take alike steps and return alike records |
| `Supervisor.TaskSupervisor.constructor` | engine/supervisor/service.py:67-99 | A new supervisor is valid, with an empty store, queue and event log |
| `Supervisor.TaskSupervisor.TransitionStatus` | engine/supervisor/service.py:153-184 | The entry records exactly the move; the record is saved, then announced |
| `Supervisor.TaskSupervisor.WaitForExecutionWindow` | engine/supervisor/service.py:196-210 | The start is recorded at the time asked for if the interval since the last start is over, and otherwise exactly when it is, plus what the sleep overruns; without an interval nothing happens; starts stay spaced |
| `Supervisor.TaskSupervisor.ApplyPolicy` | engine/supervisor/service.py:235-282 | Denial, hold and admission each save exactly their record; only the first two are announced |
| `Supervisor.TaskSupervisor.ReactToFailure` | engine/supervisor/service.py:487-544 | After a recorded failure: the two escalation points, giving up, or another round, as one step of the specified pass |
| `Supervisor.TaskSupervisor.OneAttempt` | engine/supervisor/service.py:419-544 | One pass of the loop appends exactly the steps of `Runs.OnePass` |
| `Supervisor.TaskSupervisor.RunAttempts` | engine/supervisor/service.py:417-544 | The `while True` loop terminates and appends exactly the steps of `Runs.Attempts` up to the final failure |
| `Supervisor.TaskSupervisor.RunRecord` | engine/supervisor/service.py:352-573 | Running a record takes exactly the steps of `Runs.Run`, and the guild learns exactly what the run teaches |
| `Supervisor.TaskSupervisor.RunTask` | engine/supervisor/service.py:349-573 | Unknown id: an error and no change. Otherwise the run's steps, the returned record is the stored one, no other record changes, the guild holds exactly what the run teaches less what it evicts, and invariant and books are kept |
| `Supervisor.TaskSupervisor.CreateTask` | engine/supervisor/service.py:212-233 | Invalid submissions leave no trace; otherwise the stored record has every field of the submission, is pending at attempt 0 without a result and with the one entry `submitted`; the full-queue error comes iff the queue has reached its capacity, with the record stored and not queued |
| `Supervisor.TaskSupervisor.SubmitTask` | engine/supervisor/service.py:336-337 | Invalid: an error and no change; queue at capacity: an error with the record stored and not queued; otherwise stored, with every field of the submission, and queued last |
| `Supervisor.TaskSupervisor.RunSubmission` | engine/supervisor/service.py:339-341 | Invalid: an error and no change, also of the guild; otherwise the record is created and run, with the exact store, result and guild records; it is the submitted task and completed exactly as `SubmissionOutcome` says |
| `Supervisor.TaskSupervisor.RunNext` | engine/supervisor/service.py:343-347 | First in, first out; the id leaves the queue whatever comes of the run; exact store, result and guild records; an empty queue is an error |
| `Supervisor.TaskSupervisor.ApproveTask` | engine/supervisor/service.py:575-598 | Only while awaiting approval; approved and run, with the exact store, result and guild records, or approved and queued, with the full-queue error after the approval is stored |
| `Supervisor.TaskSupervisor.MarkApproved` | engine/supervisor/service.py:587-594 | The record becomes APPROVED with one entry by the actor, and nothing else changes |
| `Supervisor.TaskSupervisor.CancelTask` | engine/supervisor/service.py:600-631 | Only while awaiting approval; the record becomes CANCELLED with one entry by the actor and a failed result that tells the reason or, without one, the default |
| `Supervisor.TaskSupervisor.EveryRecord` | engine/supervisor/service.py:330-631 | After any operations: every stored record satisfies audit replay and authorised single start, the event log restricted to it is what its trail announces, its executions are counted by its trail, and its timestamps ascend |
| `Supervisor.TaskSupervisor.StartsAreSpaced` | engine/supervisor/service.py:196-210 | After any operations, any n recorded starts of a rate-limited capability span at least (n - 1) * interval |
| `Supervisor.TaskSupervisor.BooksAgree` | engine/supervisor/service.py:322-328 | As long as no run has evicted anything, the guild's successes have grown by the number of COMPLETED tasks and its failures by the executions of the FAILED and ESCALATED ones |
| `Supervisor.TaskSupervisor.Serve` | engine/supervisor/service.py:336-631 | Any finite sequence of operations keeps the invariant; trails only grow, terminal records stay exactly as they are, no record is dropped; the guild's books stay balanced while nothing is evicted, and nothing was if the guild has no limit or is below it in the end |
| `Supervisor.ServeFromStart` | engine/supervisor/service.py:322-328 | A new supervisor and any operations: if the guild has no limit or ends below it, its successes have grown by exactly the COMPLETED tasks and its failures by exactly the executions of the FAILED and ESCALATED ones |
| `Supervisor.StoreProgress` | engine/supervisor/service.py:349-353 | Over any further legal activity stored records only make progress |
| `Supervisor.OneTaskAdvances` | engine/supervisor/service.py:123-126 | Continuing one task to rest changes its entry in the store and nothing else |
| `RetryPolicies.StrategiesAgree` | engine/runtime/retry.py:40-55 | Any two strategies agree on retrying and, with the same exhaustion clause, on escalating, whatever delays and inputs they choose |
| `RetryPolicies.DelayIsClampedRecurrence` | engine/runtime/retry.py:93-95 | min(base * m^(k-1), max) is the recurrence that starts at the base, multiplies and clamps |
| `RetryPolicies.ExponentialIsProduct` | engine/runtime/retry.py:93-95 | The exponential used is base times the k-th power of the multiplier |
| `RetryPolicies.DelayBoundedAndMonotone` | engine/runtime/retry.py:93-95 | Delays lie in [base, max] and never shrink with later attempts |
| `RetryPolicies.RetryDelayBounds` | engine/runtime/retry.py:151-153 | For every strategy, however wrapped, a retry's delay lies in [0, the clamped exponential], and there is one iff some wrapped strategy backs off |
| `RetryPolicies.RetryDelayIs` | engine/runtime/retry.py:93-113 | Exactly what a retry waits: nothing, the clamped recurrence, the random part of it, or what the wrapped strategy waits |
| `LockedStore.RunKeepsAll` | engine/runtime/store.py:125-189 | Every interleaving of lock, load, write, replace, release and death steps keeps the protocol's invariant, the lock order and consistent reads |
| `LockedStore.Linearizable` | engine/runtime/store.py:152-189 | The file is always a complete document equal to the committed saves applied in lock order; a returned save is committed exactly once; no id is ever lost |
| `LockedStore.LastSaveWins` | engine/runtime/store.py:184-189 | The record found under an id is that of its last committed save |
| `LockedStore.DeathIsAtomic` | engine/runtime/store.py:160-178 | A process dying between any two steps leaves the old or the new complete document, according to whether the rename happened, and not the lock |
| `LockedStore.RealTimeOrder` | engine/runtime/store.py:180-194 | A save that returned before an operation began takes effect before it and is seen by it |
| `LockedStore.ReadsInRealTime` | engine/runtime/store.py:180-205 | After a read has returned, a read that begins sees at least as much and a save that begins takes effect after all it saw |
| `LockedStore.ReadsAreConsistent` | engine/runtime/store.py:180-205 | A read returns the document after some prefix of the saves, no shorter than what had taken effect when it began |
| `LockedStore.SaveCompletes` | engine/runtime/store.py:184-189 | With the lock free a waiting save can run to its end by itself, and the file is then the old document with its record |
| `LockedStore.ReadCompletes` | engine/runtime/store.py:180-182 | With the lock free a waiting read can, and returns the document in the file |
| `TaskStores.MemoryTaskStore.List` | engine/runtime/store.py:104-112 | The slice that offset and limit cut from the records with the wanted status, each once, in strict order of id; negative offsets and limits count from the end |
| `TaskStores.LocalTaskStore.Save` | engine/runtime/store.py:184-189 | The document decodes to the old map with the record under its id |
| `TaskStores.LocalTaskStore.List` | engine/runtime/store.py:196-205 | The same page as specified for every store |
| `TaskStores.RedisTaskStore.Save` | engine/runtime/store.py:486-489 | The abstract map gains the record, and the id index equals the record keys again |
| `TaskStores.RedisTaskStore.Get` | engine/runtime/store.py:491-492 | The abstract map's record, if any |
| `TaskStores.RedisTaskStore.List` | engine/runtime/store.py:494-508 | The same page as specified for every store, read through the id index |
| `TaskStores.SaveKeeps` | engine/runtime/store.py:486-489 | Both Redis commands together keep keys decodable and index equal to record keys, and add exactly one record |
| `TaskStores.HalfSaved` | engine/runtime/store.py:486-488 | After the first command alone the record is readable under its key while the index is unchanged, so `get` sees the save before `list` does |
| `TaskStores.KeysApart` | engine/runtime/store.py:479-484 | Record keys are distinct for distinct ids and never the index key, in any namespace |
| `TaskStores.SaveHistory` | engine/runtime/store.py:96-189 | After any history of saves the three stores hold the same map |
| `TaskStores.Compare` | engine/runtime/store.py:100-112 | Stores that hold the same map give the same `get` and `list` for every status, limit and offset |
| `TaskStores.ListingUnique` | engine/runtime/store.py:46-59 | There is one listing per map, status, limit and offset |
| `TaskStores.ListingIsPage` | engine/runtime/store.py:46-59 | Every listing is that slice, whatever the offset and limit |
| `TaskStores.LessMeans` | engine/runtime/store.py:111-111 | The order of ids is that of strings: a proper prefix comes first, otherwise the first difference decides |
| `TaskStores.SortIds` | engine/runtime/store.py:111-111 | A set's ids, each once, in strictly ascending order |
| `TaskStores.PagesRebuild` | engine/runtime/store.py:46-59 | Consecutive pages rebuild the filtered list exactly, each record once |
| `EventBus.RunKeepsInvariant` | engine/api/bus.py:61-128 | For every interleaving: per queue and emitter, delivered plus scheduled plus still to be scheduled is what is due |
| `EventBus.Delivery` | engine/api/bus.py:61-128 | A queue holds, from each emitter, a prefix of what it emitted after the loop was attached and while the queue was subscribed, as the schedule alone tells - in order, no duplicates, nothing else - and all of it once nothing is outstanding |
| `EventBus.DueIsTold` | engine/api/bus.py:85-103 | The bus's state and its log of obligations agree with the schedule: what is due to a queue is every item emitted after the loop was attached and while the queue was subscribed |
| `EventBus.EverythingArrives` | engine/api/bus.py:96-103 | From any point of any schedule the threads and the loop can finish by themselves, and then every queue holds exactly what was due to it |
| `EventBus.WantedLaws` | engine/api/routes/events.py:64-71 | The filter keeps an event iff there is none or its type is in it, and the stream ends at a sentinel |
| `EventBus.StreamEvents` | engine/api/routes/events.py:49-73 | The client is sent exactly the type-filtered events before the first sentinel, one heartbeat per timeout before it, and the loop ends iff a sentinel arrives |
| `EventBus.ClientIsSent` | engine/api/routes/events.py:54-73 | End to end, for every interleaving: what a client is sent of one emitter is the filtered part of a prefix of what was emitted while it was registered, free of sentinels, and of all of it once nothing is outstanding |
| `Workflow.StepBatches` | engine/workflow/orchestrator.py:59-77 | The batches concatenate to the steps, none is empty, ungrouped steps are alone, neighbours never share a group |
| `Workflow.BatchingIsUnique` | engine/workflow/orchestrator.py:59-77 | There is only one such decomposition |
| `Workflow.RunBatch` | engine/workflow/orchestrator.py:91-113 | All steps of a batch see the same prior results; records come in step order; it raises iff some step does |
| `Workflow.RunWorkflow` | engine/workflow/orchestrator.py:87-136 | The records are those of a prefix of batches, each step having seen exactly the earlier batches; failures occur in the last batch only; the validator is asked iff nothing failed; a raise comes from the first batch with a raising step |
| `Workflow.AllStepsRun` | engine/workflow/orchestrator.py:119-128 | When the validator is asked there is one record per step of the plan |
| `Guild.KeyInjective` | engine/guild/interface.py:37-39 | Equal keys mean equal fingerprints when error types and input fingerprints contain no colon |
| `Guild.KeyUnambiguousIff` | engine/guild/interface.py:37-39 | A key belongs to one fingerprint only iff none of its fields contains a colon |
| `Guild.ReportAllCounts` | engine/guild/knowledge.py:79-131 | Each key's failure count rises by exactly the number of contexts with that key, other records stay as they are, totals rise by the number of contexts |
| `Lessons.FailuresByField` | engine/guild/knowledge.py:85-92 | The failures found under `c:e:i` rise by exactly the number of failures with capability c - the failure's own if none is given -, error type e and input fingerprint i - that of an empty input if absent |
| `Lessons.ReportedRecord` | engine/guild/knowledge.py:103-130 | The record one more failure leaves, field by field |
| `Lessons.SuccessRecord` | engine/guild/knowledge.py:155-184 | The record one more success leaves, field by field, its time of creation kept |
| `Lessons.FailedRunTeaches` | engine/supervisor/service.py:546-553 | A failed or escalated run raises the failures under `capability:e:i` by exactly the number of its attempts that raised e on an input with fingerprint i |
| `Lessons.FailedRunAdvises` | engine/supervisor/service.py:322-328 | and leaves under each such key the advice that goes with the way it ended |
| `Lessons.CompletedRunTeaches` | engine/supervisor/service.py:451-456 | A completed run raises the successes under `capability:_success:i` by one, i being the fingerprint of the input that succeeded |
| `Guild.PublishSplits` | engine/guild/knowledge.py:79-131 | Publishing xs + ys counts as publishing xs and then ys |
| `Guild.ReportSuccessCounts` | engine/guild/knowledge.py:152-186 | Exactly one success more, no failures, other records untouched |
| `Guild.EvictionExact` | engine/guild/knowledge.py:227-238 | min(n, max_records) records are left, unchanged, together with the removed ones they are the old records, and no survivor is older than a removed record |
| `Guild.EvictionByAgeAndPosition` | engine/guild/knowledge.py:234-238 | Age decides, and among records of one age the one stored first goes first |
| `Knowledge.KnowledgeBase.Publish` | engine/guild/knowledge.py:79-133 | The loop with its cache of published records ends as reporting every context one by one and evicting; one current record is returned per distinct key; the limit holds |
| `Knowledge.KnowledgeBase.PublishSuccess` | engine/guild/knowledge.py:152-186 | The success is counted once, then the limit is enforced |
| `Knowledge.KnowledgeBase.EnforceLimit` | engine/guild/knowledge.py:227-238 | Deleting one by one gives exactly the specified eviction |
| `Meeting.HoldMeeting` | engine/guild/meeting.py:113-290 | A profile for every capability of the records and no other, in order, with exactly its records' totals, adding up to the global totals; high-failure and high-success insights are exact and never both about one capability |
| `Meeting.InsightsMean` | engine/guild/meeting.py:252-286 | A capability is named iff it has at least five outcomes and more failures than successes, or more than three times as many successes as failures |
| `Meeting.TotalsAddUp` | engine/guild/meeting.py:141-147 | Over any distinct ids that cover the records, per-capability totals sum to the global totals |
| `ControlPlane.TraceStatusTable` | engine/control_plane/contracts.py:27-56 | The status in terms of the tasks' statuses, five disjoint and exhaustive cases, so the last return is never reached |
| `ControlPlane.BuildTraces` | engine/control_plane/contracts.py:313-337 | Traces strictly ordered by workflow id, each with exactly its workflow's tasks in order of creation, one for every workflow that has a task |
| `ControlPlane.FailureStays` | engine/workflow/orchestrator.py:55-57 | A failed record that `run_submission` returned is found under its workflow's id, as returned, in every later store |
| `ControlPlane.FailedIsNeverCompleted` | engine/workflow/orchestrator.py:115-117 | A workflow the orchestrator failed, with the records its submissions returned, has no COMPLETED trace in any later snapshot, whatever operations follow |
| `ControlPlane.VerdictMatchesTraceIff` | engine/workflow/orchestrator.py:115-128 | The status delivered is the status of the trace iff there are records and: with a failure none completed or is active; with a passing validator all completed; otherwise none is active, some completed and some did not |
| `ControlPlane.EscalatedWorkflowDisagrees` | engine/workflow/orchestrator.py:115-128 | One escalated task and a validator that passes: the run delivers a COMPLETED workflow whose trace is FAILED |
| `Cron.FieldSelects` | engine/runtime/scheduler.py:24-60 | For every list of tokens the field matches iff a literal before the first `*` or step equals the value or that first token admits it; it never raises; weekday 7 counts as 0 |
| `Cron.FieldIsUnionIff` | engine/runtime/scheduler.py:24-60 | At a value, the list means the union of its tokens iff the tokens after the first `*` or step do not alone admit it |
| `Cron.FieldDenotes` | engine/runtime/scheduler.py:24-60 | A single token or a list of values means the union of its tokens, at every value |
| `Cron.LaterTokensHidden` | engine/runtime/scheduler.py:36-46 | Any text after a list with a `*` or step token, even malformed, changes nothing |
| `Cron.BadTokenRaises` | engine/runtime/scheduler.py:39-58 | A token that is no `*`, step or value of the range raises, unless the search has ended before it |
| `Cron.FieldRanges` | engine/runtime/scheduler.py:88-99 | The values each of the five fields takes; a weekday may be written 7 for 0 |
| `Cron.ParsedFields` | engine/runtime/scheduler.py:72-80 | An expression is accepted iff it has exactly five words, the fields in order, and the probe moment does not make it raise |
| `Cron.FirstFieldDecides` | engine/runtime/scheduler.py:85-100 | Fields are looked at in order and the first that does not match decides, by saying no or by raising |
| `Cron.StripDrops` | engine/runtime/scheduler.py:32-32 | Stripping takes white space off both ends and nothing else |
| `Cron.HiddenValue` | engine/runtime/scheduler.py:36-46 | A list with a step in the middle misses the value listed after it |
| `Cron.CronDenotes` | engine/runtime/scheduler.py:72-100 | The text of five well-formed lists is accepted, and matches exactly the moments all five of whose parts are selected |
| `Cron.OncePerMinute` | engine/runtime/scheduler.py:129-146 | Under nondecreasing poll times emitted minutes strictly increase, each emission is the first poll of a due minute, and every due minute polled is emitted |
| `Cron.OnceIff` | engine/runtime/scheduler.py:129-146 | For all poll times: emitted minutes are pairwise distinct iff no other due minute is polled between two polls of a due minute |
| `Cron.EveryDueMinuteEmitted` | engine/runtime/scheduler.py:129-146 | For all poll times every due minute polled is emitted |
| `Cron.BackwardClockRepeats` | engine/runtime/scheduler.py:134-138 | A clock that steps back over another due minute emits a minute twice |
| `Cron.CronTriggerAdapter.Poll` | engine/runtime/scheduler.py:129-146 | At most one dispatch, for the time of the poll; a poll raises iff matching does, and then emits and changes nothing |
| `Cron.CronTriggerAdapter.PollAll` | engine/runtime/scheduler.py:129-146 | From any state of the adapter, polling any sequence of times dispatches exactly what its emissions gain |
| `PollLoop.TriggerSchedulerLoopRunner.Run` | engine/runtime/scheduler.py:345-376 | Exactly as many cycles and sleeps as the bound and the first stopping check allow - max_cycles and max(max_cycles - 1, 0) when nothing stops it - each sleep the one its idle streak calls for; for a valid runner all within [base, max * (1 + jitter)]; a negative bound is an error |
| `PollLoop.StreakIsLongest` | engine/runtime/scheduler.py:363-366 | The cycles counted were idle, and the one before them was not |
| `PollLoop.SleepBounds` | engine/runtime/scheduler.py:332-343 | Every sleep lies in [base, max * (1 + jitter)], and in [base, base * (1 + jitter)] after a cycle with work and after the first idle one |
| `PollLoop.SleepIs` | engine/runtime/scheduler.py:332-343 | Exactly how long a sleep is: the base after work, the clamped recurrence for the idle cycles otherwise, stretched by jitter |
| `PollLoop.StretchIs` | engine/runtime/scheduler.py:340-341 | Jitter adds the random share of its part of the interval |
| `PollLoop.IdleNeverShortens` | engine/runtime/scheduler.py:332-343 | Without jitter an idle cycle never shortens the next sleep |

## Left out

- The SQLite and Postgres stores, whose behaviour is their SQL engine's.
- Command line, HTTP routes other than the event stream's loop, authentication, server start-up.
- Capabilities, timeouts and sandboxing: an execution is an oracle that returns, raises or is torn down.
- Policy engines, the capability registry's own operations and peer-suggestion scoring: their answers are inputs of a run.
- Metadata dictionaries, the reasons and records of escalations, and the text of event frames; what the supervisor itself counts in metadata is carried by `Tasks.Action`.
- Two operations on the same task at once: the source has no lock per task, so operations on one task do not overlap here. Operations on different tasks interleave freely (`Schedules.dfy`).
- Stores, the guild, retry strategies and fingerprinting that raise; an event bus that raises or drops events before a loop is attached or after it has stopped; restart with an existing store.
- Custom retry strategies: the outcome is proved for the four built-in ones, nested to any depth.
- JSON encoding is an encoder with its decoder, SHA-256 an arbitrary function, task ids are fresh by assumption.
- Sleeping before a retry takes only time, which the clock covers; how long it is is `RetryPolicies.RetryDelayIs`.
- The clock is read once per durable step. A completed run reads it when its result is built, which is the same step here.
- Floating point: arithmetic is over the reals.
- Unicode digits and white space in names and cron fields; ASCII is modelled.
- Calendar arithmetic: a calendar is any function from minutes to moments that gives different minutes different slots; the weekday is given from Sunday = 0.
- The cron constructor's check of one probe moment is modelled, but it is no guarantee that a constructed schedule never raises later, because matching stops at the first field that does not match.
- Webhook triggers and `TriggerSchedulerService.run_once`: queues whose conservation depends on mappers and sinks that do not raise.
- The local guild store, which has no lock; `lookup` and filtered guild listings; roles, top lists and insight texts of meetings, and task, approval and capability lists of snapshots, which would add only easy members.
- TaskStores.LocalTaskStore.Save: the lock and the temporary file are the subject of `LockedStore.dfy`; here saving is one step.
- A guild shared by the parallel steps of a batch: what it suggests to each step is an input of that step's run, and its counts are stated for runs one after another.
- Workflow.RunBatch: steps are evaluated in order; that the order does not matter is `Schedules.BatchScheduleIndependent`.
- EventBus.Delivery: while the loop runs; callbacks lost by closing the loop are not modelled.
- PollLoop.TriggerSchedulerLoopRunner.Run: an unbounded loop needs a stop signal that some check finds set.
