# A verified model of the ox workflow engine

ox runs workflows for an event-sourced server: a *herder* decides which step runs next, *runners* hold
step leases, a server keeps the event log, and *watchers* feed it facts from other systems. This project
models the parts of ox where steps over shared state are hard to get right, and proves what they keep.
`dafny verify dfyconfig.toml` checks everything.

| File | Part of ox |
|---|---|
| `Prelude.dfy`, `Events.dfy` | shared types; the event envelope and payloads |
| `Retry.dfy`, `Workflow.dfy` | retry budgets; the step graph and its visit limits |
| `Execution.dfy`, `Herder.dfy` | the phase machine of one execution; the scheduler over all of them |
| `BoundedRuns.dfy`, `Settling.dfy` | how long an execution of a bounded workflow lasts; when the scheduler's inner loop ends |
| `Visits.dfy`, `Walks.dfy`, `LimitCheck.dfy` | what max_visits and the replayed counts mean over whole runs, and when the limit holds |
| `CodeTask.dfy` | the shipped code-task workflow as an instance of these results |
| `TriggerDedup.dfy`, `DedupRuns.dfy`, `RetryRace.dfy` | one execution per source fact, with a herder that lags, reconnects and restarts; a run where it fails |
| `Projections.dfy`, `Leases.dfy`, `Rebuild.dfy` | what the log folds to; step leases and orphans; rebuilding from disk |
| `EventBus.dfy`, `Pool.dfy`, `Monitor.dfy` | the log and the ingest transaction; sweeps and dispatch; the staleness check |
| `Watcher.dfy`, `EventStream.dfy` | delivery into the log by watchers, and out of it to a reconnecting reader |
| `Interpolation.dfy`, `LogScan.dfy` | staged templates; the bounded UTF-8 window of the failure scan |

Objects the program updates in place are classes (`RetryTracker`, `Projections`, `EventBus`, `Monitor`,
`Watcher`, `Stream`, `Herder`); each method's contract ties the new state to a function or a relation of
the old one, and the lemmas are about those. Choices the program leaves to hash-map order, to storage,
to the network or to other processes are arbitrary in the model, so what is proved holds for all of them.

Where the program and its documentation disagree, the model follows the program:

- `docs/prd/execution.md:204-207` says `max_visits` limits how often a step is visited. The visit at creation
  and those another step's `max_visits_goto` makes are not counted (`Visits.VisitsAddUp`), so the shipped
  code-task workflow can propose four times under a limit of three (`CodeTask.FourthProposal`).
  `LimitCheck.LimitHoldsIff` gives a check of the workflow that is passed exactly when no run breaks the limit.
- `docs/workflows-design.md:200-202` says visits are counted at dispatch, retries included. They are counted
  when a step is picked (`Workflow.VisitCountIsPickCount`); only replay counts dispatches.
  `docs/workflows-design.md:647-651` says the two counts match; `Visits.ReplayCountAddsUp` says when they do.
- `docs/workflows-design.md:633-638` says the scheduler's inner loop always ends. For a known workflow it
  does, from whatever step and visit counts, if and only if no cycle of action steps leads on past its limits
  (`Settling.AlwaysSettlesIff`). A cycle without limits is entered at creation (`StartedOnCycleNeverSettles`);
  limits can be spent by the action step's own confirmation coming back (`EchoedConfirmNeverSettles`). An
  execution whose workflow is not loaded, or whose failed step is not declared, keeps the loop busy too
  (`Settling.SettlesUnlessStuck`).
- The comment at `ox-herder/src/herder.rs:50-54` says remembered signals are reset on confirmation. They are not
  (`Execution.ConfirmKeepsSignals`), so a step that passed with a non-retriable signal denies the action step
  after it all retries (`Execution.StaleSignalsDecideRetry`, `Execution.StaleSignalEscalatesMerge`).
- `docs/workflows-design.md:60-83` says the herder's dedup keeps one live execution per subject and workflow. A
  fact delivered twice while the herder stands between the two events of a retry breaks it
  (`RetryRace.RepeatInsideRetryBreaksDedup`); `DedupRuns.DedupHoldsIff` says exactly when.
- The comment at `ox-cx-watcher/src/main.rs:18` says a failed post is retried with the same batch. The next
  tick builds a new one; delivery does not depend on which.

An *action cycle* is a closed walk over action steps along the picks of a pass and of on_fail, where a pick of a
step with `max_visits` counts as where that step sends its overflow. An execution is *stuck* when it is to advance
but its workflow is not loaded, or is to handle the failure of a step that is not declared. Step names are unique
once loaded (`Workflow.LoadKeepsLastDef`). A workflow is *bounded* when every step has
`max_visits` and no `max_visits_goto`, every goto and on_fail is a declared step or a reserved name allowed
there, and no step has a reserved name; such a workflow has no action cycle.

## Model

| member | source | states |
|---|---|---|
| Retry.RetryTracker.RecordFailure | ox-core/src/workflow.rs:504-538 | the tracker's new state and answer for one failure, forced or not |
| Retry.RetryTracker.Reset | ox-core/src/workflow.rs:541-544 | the tracker is as new |
| Retry.TrackerHoldsStreak | ox-core/src/workflow.rs:489-545 | the only readable count is the last step's, and it is the length of the run of unforced failures ending the history |
| Retry.RetryRefinesHistory | ox-core/src/workflow.rs:504-538 | for every history the answer is Retry(n + 1) exactly when the failure is unforced and n, the streak it completes, is within budget; otherwise Exhausted |
| Retry.StaleKeysAreNeverRead | ox-core/src/workflow.rs:511-518 | trackers differing only in keys left by a forced escalation on another step answer alike after any later history |
| Workflow.FromDef | ox-core/src/workflow.rs:358-371 | loading keeps declaration order, one entry per name |
| Workflow.LoadKeepsLastDef | ox-core/src/workflow.rs:358-371 | names are unique after loading, and each name means its last definition |
| Workflow.ComputeNextStep | ox-core/src/workflow.rs:394-439 | the scan over transitions with its early returns computes `NextStep`: first match, else declaration order, else complete; unknown step escalates |
| Workflow.PathsAgreeUnlessReservedOverflow | ox-herder/src/herder.rs:680-714 | the confirm path and the on_fail path count alike, and branch alike exactly unless the target is over its limit and redirects to a reserved name |
| Workflow.VisitCountIsPickCount | ox-core/src/workflow.rs:423-439 | over any mix of next_step calls and on_fail jumps a step's count is the number of times it was picked as primary target |
| Workflow.GrantsAreBounded | ox-core/src/workflow.rs:423-439 | a picked step is granted exactly min(picks, max_visits) times |
| Visits.VisitsAddUp | ox-core/src/workflow.rs:423-439 | over every run of a new execution a step with max_visits is visited min(picks, max_visits) times, plus once if it is the first step, plus once for each overflow that leads to it; its live count is the picks |
| Visits.LimitHoldsFromElsewhere | docs/prd/execution.md:204-207 | no run visits a step more than max_visits times if it is not the first step and no step overflows into it |
| Walks.WalkIsRun | ox-core/src/workflow.rs:394-439 | every walk over the picks its steps can make is made by some run, whatever retries that takes |
| Walks.MovesWalk | ox-herder/src/herder.rs:552-741 | and every run, with its outputs, signals and failures, makes such a walk |
| LimitCheck.ChoicesArePossible | ox-core/src/workflow.rs:394-421 | the listed picks of a step are exactly those that some output, or on_fail, makes |
| LimitCheck.LimitHoldsIff | docs/prd/execution.md:204-207 | over all runs of a new execution max_visits is an upper bound on the visits, the first included, if and only if the terminating search of the workflow finds no walk with more |
| CodeTask.FourthProposal | defaults/workflows/code-task.toml:18-21 | three failed plan reviews make four visits of propose, whose max_visits is three |
| CodeTask.SettlesAlways | defaults/workflows/code-task.toml:384-388 | the code-task workflow has no action cycle, so the scheduler settles each of its executions |
| Visits.ReplayCountAddsUp | ox-herder/src/herder.rs:385-388 | over every run whose ready steps are each dispatched once, replayed count + picks refused = live count + first step + retries + overflow entries; the counts agree if and only if these balance; action steps have no replayed count |
| Execution.StuckIff | ox-herder/src/herder.rs:552-571 | the scheduler reports a change although nothing moved exactly when the workflow is not loaded or a failed step is undeclared |
| Execution.ActionStepRetriesIff | ox-herder/src/herder.rs:645-670 | a failed action step with a fresh tracker is retried if and only if no remembered signal is non-retriable and its budget allows it |
| Execution.ConfirmKeepsSignals | ox-herder/src/herder.rs:398-407 | a confirmation resets the retry tracker and keeps the signals of the attempt it confirms |
| Execution.StaleSignalsDecideRetry | ox-herder/src/herder.rs:645-670 | after a step that passed with signals the first failed merge is retried if these are all retriable and escalates the execution otherwise |
| Execution.StaleSignalEscalatesMerge | ox-herder/src/herder.rs:50-54 | a concrete run: dispatch, a non-retriable signal, confirmation, one refused merge of four allowed, escalated |
| BoundedRuns.GrantUsesOneVisit | ox-core/src/workflow.rs:423-439 | a granted visit lowers the visits left over all steps by exactly one |
| BoundedRuns.AdvanceLosesWork | ox-herder/src/herder.rs:552-622 | advancing a bounded execution lowers the measure and leaves it at a declared step, completed or escalated |
| BoundedRuns.FailLosesWork | ox-herder/src/herder.rs:624-741 | so does handling a failure: retry, on_fail jump, overflow or escalation |
| BoundedRuns.ProcessLosesWork | ox-herder/src/herder.rs:516-549 | every change the scheduler reports lowers the measure, whatever the merge answers |
| BoundedRuns.BoundedExecutionEnds | ox-herder/src/herder.rs:552-741 | a new execution of a bounded workflow is completed or escalated after (1 + sum of max_visits) * (R + 1) outcomes, whatever they are and whatever signals come with them |
| BoundedRuns.BoundIsExact | ox-herder/src/herder.rs:552-741 | the bound is exact: for all limits some bounded workflow is still running one outcome before it |
| Settling.ProcessLosesInlineWork | ox-herder/src/herder.rs:516-549 | without action cycle every change the scheduler reports leaves less inline work, for every merge answer |
| Settling.SettlesWithinWork | ox-herder/src/herder.rs:493-509 | after as many moves as an execution has inline work it awaits its step, is ready for a runner or has ended |
| Settling.CycleNeverSettles | ox-herder/src/herder.rs:493-509 | on an action cycle whose limits are spent some merge answers never settle the execution |
| Settling.StartedOnCycleNeverSettles | ox-herder/src/herder.rs:317-347 | a new execution started on an action cycle whose picks have no limits is never settled by some merge answers |
| Settling.AlwaysSettlesIff | docs/workflows-design.md:633-638 | the inner loop ends on all executions of a workflow, whatever step they are at and whatever visits they count, if and only if it has no action cycle |
| Settling.SettlesUnlessStuck | ox-herder/src/herder.rs:552-571 | without action cycle an execution, of a loaded workflow or not, settles for all merge answers if and only if it is not stuck |
| Settling.EchoedConfirmNeverSettles | ox-herder/src/herder.rs:398-407 | a run from creation: a merge is done inline, its own confirmation then arrives and advances the execution again, which spends the limit of a cycle and never settles |
| Settling.BoundedHasNoActionCycle | ox-core/src/workflow.rs:423-439 | a bounded workflow has no action cycle |
| Herder.Herder.ApplyMessage | ox-herder/src/herder.rs:232-452 | the runner and execution maps after each kind of event, with the freed runner any of the matching ones; idle iff no execution and no step is kept |
| Herder.Herder.FreeRunnerForStep | ox-herder/src/herder.rs:464-475 | one matching runner, in arbitrary order, becomes idle; none if none matches |
| Herder.Herder.ProcessExecution | ox-herder/src/herder.rs:516-549 | one visit is `Process` of the view and an arbitrary merge answer, and changes no other execution |
| Herder.Herder.Settle | ox-herder/src/herder.rs:493-509 | the loop until stable terminates for any number of executions that are not stuck, of workflows without action cycle, and all merge answers; every running one ends awaiting its step or ready for a runner, reached by scheduler moves only |
| Herder.Herder.DispatchStep | ox-herder/src/herder.rs:888-932 | a refused dispatch restores both maps, an accepted one marks exactly that runner and execution |
| Herder.Herder.MatchToIdle | ox-herder/src/herder.rs:851-857 | ready executions are matched to pairwise distinct, previously idle runners until either side runs out |
| Herder.Herder.DispatchReadySteps | ox-herder/src/herder.rs:832-935 | if no call fails, exactly min(ready, idle) executions start, and no ready step is left together with an idle runner |
| Herder.Herder.EvaluateTriggersForEvent | ox-herder/src/herder.rs:965-1077 | the triggers are offered the event in order, each optimistic insert being seen by the next check |
| Herder.Herder.Schedule | ox-herder/src/herder.rs:487-513 | after one run no trigger is pending, nothing is left to process and, unless a call failed, nothing to dispatch |
| Herder.Herder.HandleSseMessage | ox-herder/src/herder.rs:170-180 | a message that leaves no execution stuck keeps runners consistent, leaves live state settled, and ends replay exactly at the target |
| TriggerDedup.HandlersFollowView | ox-herder/src/herder.rs:314-372 | the herder's handlers change origins, workflows and statuses by the shared fold |
| TriggerDedup.ProjectionsFollowView | ox-server/src/projections.rs:337-395 | so does the server's projection |
| TriggerDedup.FiringFollowsView | ox-core/src/events.rs:354-393 | a trigger creates exactly when eligible and its job is not running or escalated in the view, ignoring the firing seq |
| TriggerDedup.SchedulerOnlyEnds | ox-herder/src/herder.rs:516-549 | the scheduler changes neither origin nor workflow, and a running status only to completed or escalated |
| TriggerDedup.RetryEventsAreThePair | ox-server/src/api.rs:1046-1069 | a retry is built exactly for an escalated execution; its events cancel it and create one for the same origin and workflow |
| TriggerDedup.StepIsStreamStep | ox-server/src/sse.rs:26-59 | everything the herder receives in the protocol is received as `EventStream` delivers it: replay, then live events, repeats included |
| TriggerDedup.UnknownIsCovered | ox-herder/src/herder.rs:976-1000 | an execution the lagging herder does not know has a predecessor of the same job that still blocks its triggers |
| TriggerDedup.ServerIsActiveIff | ox-herder/src/herder.rs:976-1000 | if the view shows no active execution of the job on offer, the server has one if and only if one is live that the herder does not know while it stands between the two events of a retry of that job |
| TriggerDedup.FiringIsSafeIff | ox-herder/src/herder.rs:965-1077 | a firing keeps the promise if and only if it is not caught between those two events |
| DedupRuns.DedupHoldsIff | ox-herder/src/herder.rs:965-1077 | over every interleaving of server events, retries, connections, deliveries, repeats, firings and herder restarts, there is all along at most one running or escalated execution per (source, kind, subject, workflow) if and only if no firing was so caught |
| DedupRuns.DedupHolds | ox-server/src/sse.rs:26-59 | and none is, repeats or not, if the server reads its log for no connection between the two events of a retry |
| RetryRace.RepeatInsideRetryBreaksDedup | ox-server/src/api.rs:546-595 | a run from an empty server in which the log is read there: a fact logged after the subscription is delivered twice, and its second delivery fires a second live execution |
| Projections.Projections.Apply | ox-server/src/projections.rs:150-414 | every event's effect on pool, executions and secrets |
| Projections.Projections.UpdateAttempt | ox-server/src/projections.rs:122-143 | the last entry with this step and number changes in place; a missing one is created |
| Projections.Projections.ReturnRunner | ox-server/src/projections.rs:258-267 | the first match in hash order is released, attempt number not compared |
| Projections.AttemptsAlwaysUnique | ox-server/src/projections.rs:122-143 | (step, attempt) names one entry of an execution after every event sequence |
| Leases.ClosingEndsOneLease | ox-server/src/projections.rs:248-306 | a confirm, failure or timeout takes exactly its attempt out of the leased ones |
| Leases.SweepClosesExactlyOrphans | ox-server/src/pool.rs:396-430 | a sweep ends exactly the leases it scanned, every other keeps its lessee, and the leased count drops by exactly that number |
| Leases.OneRoundSuffices | ox-server/src/pool.rs:396-430 | if no orphan shares its (execution, step) with a sound lease one sweep leaves no orphan |
| Leases.OneLeasePerStepSuffices | ox-server/src/pool.rs:396-430 | in particular with at most one leased attempt per (execution, step) |
| Leases.SharedStepCanOrphan | ox-server/src/projections.rs:276-291 | if one does, a sweep can free the runner of the sound lease and leave it an orphan |
| Leases.OneRoundSufficesIff | ox-server/src/pool.rs:396-430 | every sweep of a state leaves no orphan if and only if no orphan shares its step with a sound lease |
| Leases.RoundsReachNoOrphans | ox-server/src/pool.rs:396-430 | repeated sweeps reach a state without orphans, within as many rounds as there are leases |
| Leases.StartupReconciles | ox-server/src/main.rs:99-107 | after the drains and one sweep each leased attempt is the current step of an undrained runner with a fresh heartbeat |
| Leases.GuardedDispatchKeepsInv | ox-server/src/pool.rs:440-484 | closing the runner's other attempt first, a dispatch to a registered runner of a step nobody else holds keeps leases sound |
| Leases.OnlyDrainsOrphan | ox-server/src/pool.rs:486-535 | in a sound state the orphans are exactly the leased attempts of drained runners |
| Leases.LeasesStaySound | ox-server/src/pool.rs:396-484 | over every run from a sound state of fresh registrations, drains, reports of held attempts, guarded dispatches and sweeps, no two runners hold one step, each lease is its lessee's current step, and only a drain orphans |
| Leases.StartupLeavesInv | ox-server/src/main.rs:99-107 | start-up reconciliation leaves such a state, without orphans, if each step had one leased attempt and was held by at most the runner its entry names |
| Rebuild.ExecutionsCommute | ox-server/src/events.rs:119-130 | applying an event commutes with cutting timestamps to milliseconds |
| Rebuild.RebuildRestoresExecutions | ox-server/src/events.rs:74-109 | a rebuilt server has the executions it had, up to that truncation, and the same secrets |
| Rebuild.RebuildRestoresPool | ox-server/src/events.rs:74-109 | and the same pool, if no two runners ever held one step |
| Rebuild.FreeingIsAmbiguousIff | ox-server/src/projections.rs:258-267 | freeing a step has two possible results exactly when two runners hold it |
| EventBus.EventBus.constructor | ox-server/src/events.rs:74-109 | start-up folds the stored log and continues its numbering |
| EventBus.EventBus.Append | ox-server/src/events.rs:112-152 | one event is numbered, stored, folded and broadcast, or nothing changes; the numbering and the fold are kept |
| EventBus.EventBus.IngestBatch | ox-server/src/events.rs:238-371 | the whole batch commits with appended + deduped equal to its length, or a conflict or a storage error at any write leaves log, keys, cursors, counter and projections alone |
| EventBus.EventBus.Commit | ox-server/src/events.rs:356-365 | what the transaction appended is folded and broadcast in order |
| EventBus.EventBus.ReplayAfter | ox-server/src/events.rs:170-191 | exactly the events after the given seq, in order |
| EventBus.LogIsDedupOfAccepted | ox-server/src/events.rs:284-337 | for every source but ox the log restricted to it is the first-occurrence dedup by key of its accepted batches taken together |
| EventBus.AcceptedBatchesChain | ox-server/src/events.rs:256-276 | accepted batches chain cursor to cursor from none, and the stored cursor is where the last ended |
| EventBus.RunIsNumbered | ox-server/src/events.rs:112-152 | the log of every run is numbered 1..n |
| Monitor.HeartbeatHeals | ox-server/src/pool.rs:41-52 | a heartbeat naming the runner's step keeps the runner from being reported missed within the grace period, and the next tick, if it loses no report, then reports it recovered exactly if it was marked |
| Pool.Drain | ox-server/src/pool.rs:55-70 | the drain event is stored and folded, and the heartbeat row goes unless its removal fails |
| Pool.SweepOrphans | ox-server/src/pool.rs:111-134 | exactly the undrained runners without a fresh heartbeat are drained |
| Pool.ScanOrphanAttempts | ox-server/src/pool.rs:486-535 | exactly the orphaned attempts, each once, with its lessee and the reason |
| Pool.SweepOrphanAttempts | ox-server/src/pool.rs:396-430 | closes orphans only, exactly those whose failure is stored; if every append is stored, one sweep in the sense of `Leases` |
| Pool.Reconcile | ox-server/src/main.rs:99-107 | start-up leaves every lease sound, if each step had one leased attempt and every event was stored; if steps were held at most once, and by the runner the entry names, it leaves the state `LeasesStaySound` starts from |
| Pool.ClosePriorAttemptOnDispatch | ox-server/src/pool.rs:440-484 | the runner's other attempt is failed first; an idle, unknown or same-attempt runner is left alone |
| Pool.DispatchStep | ox-server/src/api.rs:784-815 | guard then dispatch, the effect `GuardedDispatchKeepsInv` is about |
| Monitor.Monitor.MarkMissing | ox-server/src/pool.rs:162-249 | the marks and missed reports of the first pass, runner by runner |
| Monitor.Monitor.ClearRecovered | ox-server/src/pool.rs:254-290 | the second pass unmarks every runner not unhealthy and reports exactly those present with a heartbeat |
| Monitor.Monitor.TimeOutSteps | ox-server/src/pool.rs:292-346 | each overdue attempt not yet timed out is timed out once; marks are kept only while some runner holds the attempt |
| Monitor.Monitor.CheckTick | ox-server/src/pool.rs:155-372 | one tick: both passes, the timeouts and the orphan sweep, with what each appends; a report that cannot be stored is missing from the log and changes nothing else |
| Monitor.TickReportsOnce | ox-server/src/pool.rs:155-290 | no tick reports a runner both missed and recovered |
| Monitor.MissedAndRecoveredAlternate | ox-server/src/pool.rs:139-290 | over any interleaving within one server lifetime, appends failing or not: if no recovery report of a runner is lost two missed reports have a recovery or drain between them; if no missed report is lost every recovery answers an open one |
| Monitor.LostRecoveryRepeatsMiss | ox-server/src/pool.rs:281-289 | a run that loses one recovery report has two missed reports in a row |
| Monitor.LostMissLeavesRecoveryUnmatched | ox-server/src/pool.rs:238-247 | a run that loses one missed report has a recovery that answers nothing |
| Watcher.SummariseLogEntries | ox-cx-watcher/src/cx.rs:86-125 | all comments in order, the touched nodes once each in ascending order, and the newest commit |
| Watcher.CommentKeysAgreeIff | ox-cx-watcher/src/mapping.rs:78-104 | two comments share a key exactly when node, author and tag written together, and twelve-digit commit agree; authors and tags may hold colons, nodes may not |
| Watcher.ColonsCollide | ox-cx-watcher/src/mapping.rs:60-89 | with a colon in a node name a comment and a node state can share a key |
| Watcher.Watcher.BuildIncremental | ox-cx-watcher/src/main.rs:193-242 | the batch of a diff: node states under the newest commit, then comments, from the cursor to the newest commit |
| Watcher.Watcher.Tick | ox-cx-watcher/src/main.rs:119-153 | whatever is lost, the tables change at most as one post of the built batch, and the cursor only ever becomes the stored one |
| Watcher.BuiltIsWellBuilt | ox-cx-watcher/src/main.rs:158-242 | a built batch tells exactly the comments between the commits it goes from and to |
| Watcher.DedupKeepsCommentKeys | ox-cx-watcher/src/mapping.rs:44-104 | dropping repeated keys drops no comment key, since a key tells the event's kind |
| Watcher.CommentsExactlyOnce | ox-cx-watcher/src/main.rs:64-104 | with any number of watchers, lost, late and repeated posts, crashes and refetches, the comment keys in the log are exactly those of the commits after the cold-start head up to the stored cursor, each once |
| EventStream.PublishKeepsOrder | ox-server/src/events.rs:112-152 | publishing what is logged keeps the channel equal to the end of the log, as the stream needs |
| EventStream.Stream.Next | ox-server/src/sse.rs:26-59 | the stream yields the replay, then the live events, in order; an unreadable log replays nothing |
| EventStream.PromiseHoldsIff | ox-server/src/sse.rs:26-59 | over every run, unreadable logs included, the reader has all along handled every event up to its last seq and left replay at its target, if and only if each first event after an empty replay found it having seen all there was at its subscription |
| EventStream.EverythingUpToLastSeqHandled | ox-herder/src/herder.rs:170-194 | in such runs, across any number of connections, every event up to the last seq has been handled, and replay ends only after every event up to its target |
| EventStream.UnreadableLogIsHarmlessIff | ox-server/src/sse.rs:31-40 | after a log that could not be read, the promise survives the first live event exactly if the highest seq the reader has seen reaches the subscription; its last seq reaching it is enough |
| EventStream.UnreadableLogLosesAnEvent | ox-server/src/sse.rs:31-40 | a run from the start: one event, a connection whose replay is unreadable, a second event live; the last seq is 2 and event 1 unhandled |
| EventStream.LastSeqCanStepBack | ox-server/src/sse.rs:26-59 | an event logged between subscribing and replaying is delivered twice, and the last seq steps back |
| Interpolation.Interpolate | ox-core/src/interpolation.rs:32-60 | the loop computes `Render` of the parsed template, unclosed braces included |
| Interpolation.InterpolateEventTemplate | ox-core/src/workflow.rs:301-327 | the loop computes `RenderEvent`: event names replaced, all others put back in braces |
| Interpolation.CollectSecretRefs | ox-core/src/interpolation.rs:68-80 | the names after `secret.`, in order |
| Interpolation.BuildVars | ox-core/src/workflow.rs:250-259 | every var resolved, or the error of one that is not |
| Interpolation.StagingKeepsMeaning | ox-core/src/workflow.rs:301-327 | if no event field holds an opening brace, event stage then full stage gives the text of one pass over both; it fails exactly when that does, with the same error unless the event stage fails |
| Interpolation.StagingAgreesIff | ox-core/src/workflow.rs:301-327 | the two agree on all templates and contexts if and only if no nameable field value holds an opening brace |
| Interpolation.OnlyCollectedSecretsMatter | ox-core/src/interpolation.rs:32-80 | the result depends on no secret but the collected ones |
| Interpolation.StageOneKeepsSecrets | ox-core/src/workflow.rs:301-327 | the event stage of a plain event neither adds nor hides secret references |
| LogScan.DropPartialUtf8Prefix | ox-runner/src/scan.rs:91-102 | the suffix from the first of at most four skips that is valid, or nothing |
| LogScan.TextIsWholeCharacters | ox-runner/src/scan.rs:70-102 | in a valid log the text is exactly the whole characters inside the last tail_bytes, from the first boundary there |
| LogScan.ReadsSomethingIff | ox-runner/src/scan.rs:91-102 | a tail is read at all exactly if it is valid after dropping at most three bytes |
| LogScan.BadByteHidesTail | ox-runner/src/scan.rs:86-102 | one impossible byte past the first three hides the tail from every signal |
| LogScan.EnclosingLineIsUnique | ox-runner/src/scan.rs:107-117 | the reported line is the only stretch around the match bounded by newlines and adding none |
| LogScan.ScanFailureSignals | ox-runner/src/scan.rs:29-66 | at most one match per signal, in order, each from its own tail whatever the sizes of the others |

## Left out

- DedupRuns.DedupHoldsIff: assumes create, complete and escalate calls reach the server, nothing is logged between a retry's two events, nothing changes a completed or cancelled execution, the replay target was read at start-up, no subscriber lags, and an unreadable log would replay only events already delivered.
- Visits.ReplayCountAddsUp: is about runs that dispatch each ready step once; each further dispatch after a timeout or a lost runner would add one to the replayed count.
- EventStream.PromiseHoldsIff: assumes no subscriber lags behind the channel's capacity.
- BoundedRuns.BoundedExecutionEnds: assumes one outcome per step made ready; events of action steps that come back over the stream are not counted as further outcomes.
- Watcher.CommentsExactlyOnce: is about comments on a linear history of commits with different hashes, with no colon in node names; node states reflect the moment they were fetched.
- Monitor.Monitor.TimeOutSteps: keys timed-out attempts by their three parts, where the program joins them with slashes.
- Visit counts, retry counts, seqs and attempt numbers are unbounded; the program uses 32 and 64 bits.
- The herder keeps a retry tracker inside each execution's view; there it is the value `RetryState`, and the class is proved to compute the same.
- The late publish of an ingest: commit, fold and broadcast are one step, and bus operations do not interleave.
- The JSON payloads of cx events: short texts stand for them, since nothing here reads them.
- HTTP routing, request validation, JSON, TOML and YAML parsing, regular expressions, and SQLite itself.
- `cx`, `git`, `merge_to_main`, process spawning, and the PTY and websocket relay: nondeterministic answers.
- Trigger where-clauses and the validation of vars: one arbitrary reply covers them.
- Environment labels of runners, redaction of secret values on the stream, and config refresh while running.
- Liveness of step timeouts, the herder's periodic drains of surplus runners, and the API's own execution creation.
