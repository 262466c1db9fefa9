# Model of a backup manager: runs, agents, checks, storage history and logins

A backup server keeps runs of backup jobs in tables. Agents on other hosts poll
it, execute what they are handed and post results. Operators cancel, timers fail
what nobody fetched, and a failed backup is retried or announced. Around this
core the server rotates integrity checks through a repository, keeps a history
of repository sizes for a chart, pairs command line clients, caps second-factor
attempts, looks after the secrets of jobs and derives slugs from names.

The project models these parts and proves what they guarantee over every
schedule, every history and every input. Concurrency is explicit: protocols are
transition systems whose steps are single database statements, messages, lock
sections and atomics, and theorems quantify over all sequences of steps. Where
calls are taken one after the other instead, "Left out" says so. Code
that updates objects in place is also written that way, as classes and methods
with loops, and each method is tied to the functions the theorems are about.

| file | content |
|---|---|
| `Wrappers.dfy` | optional values |
| `AgentQueue.dfy`, `AgentTask.dfy` | the agent: goroutines around the queue, and every path through the execution of one unit of work |
| `RunRows.dfy`, `Protocol.dfy` | run rows with their guarded updates, and the composed system of server, agents, operators and timers |
| `ProtocolInvariant.dfy` | the inductive invariant of the composed system, action by action |
| `ProtocolTheorems.dfy`, `RetryTheorems.dfy` | what follows: handouts, results, cancels, finality, retries, notifications |
| `RunStore.dfy` | the server methods on the run tables |
| `ProtocolProgress.dfy` | what becomes of runs: which outcome a row shows and why, runs carried through, failures retried, cancels that arrive |
| `Rotation.dfy`, `RotationFreshness.dfy` | rotating integrity checks: what a certificate rests on, and when that is the latest reads |
| `StorageHistory.dfy`, `StorageSeries.dfy` | size readings from the write to the chart's tooltip |
| `StatsRecording.dfy` | recordings of readings that overlap |
| `DeviceAuth.dfy`, `CliLogin.dfy` | device authorization after RFC 8628 and the client that polls |
| `ChallengeGuard.dfy` | the cap on second-factor attempts |
| `JobSecrets.dfy` | secrets of jobs |
| `Slug.dfy` | slugs |

`dafny verify dfyconfig.toml` checks everything. Inductive proofs are written out: automatic
induction is switched off wherever Dafny would apply it.

## Where the code does less than it says

Each item below opens with a promise that does not hold as it stands. A concrete
run breaks it, and a theorem says when it does hold.

- A finished run is final. The cancel of a backup or check reads the status
  first and then updates by id alone (`server/src/runs/runs.service.ts:181-210`),
  unlike the cancel of a restore. `OutcomeIsFinalIff` and `FinishTimeIsFinalIff`
  give the exact condition, `CancelledRunIsRetried` a run that had failed and then
  shows as cancelled.
- A certificate rests on the latest reads. A verdict reaches the run row and the
  repository by two updates, and a rotating check may start in between.
  `RotationSound` holds all the same: every certificate rests on a whole rotation
  in order. But its parts may have been read before the last certificate.
  `StartIsSafeIff` says exactly which starts bring that about (those that find
  another part than the same part 1 not yet stored), `RotationFresh` that nothing
  else does, and `OverlapCertifiesUnread` has a run.
- The history stores only changes and loses nothing. A call compares with the
  columns it read, which another call may have replaced meanwhile, and in which a
  missing size counts as 0. `TellsIff` has the exact condition over every
  interleaving, `ApartRunsLosslessIff` and `DeduplicationLosslessIff` the one for
  calls that do not overlap; `OverlapLosesReading` and `MaskedReadingExists` are
  examples of the two ways to lose a reading.
- At most five codes are checked per challenge. An attempt is counted after its token was
  verified, and the entry it is counted in outlives the token by one minute.
  `CappedIff`: the cap holds exactly if attempts are counted within that minute;
  `DelayedAttemptIsNotCapped` has a sixth check.
- Every job-owned secret belongs to a repository. Secrets are created outside
  of the transaction that links them. `SecretAccount` counts what a failed
  transaction strands, `SecretsConservedIff` has the exact condition for calls one
  after the other,
  `FailedCreateStrands` a single create that strands its password.
- A cancelled run is neither retried nor announced. `CancelledStaysSilentIff` has
  the exact condition, `CancelledRunIsRetried` a run.
- The chart shows the latest reading. Readings of one repository in the same
  millisecond may come back in any order. `WindowKeepsLatestIff` has the exact
  condition, `TieOutOfOrder` an example.
- Re-saving an unchanged name keeps its slug. `BaseIsKeptIff` and
  `NumberIsKeptIff` have the exact condition, `ResavingMoves` two families that
  break it.
- A chosen slug is free and has the shape of a slug. Suffixes are floating-point
  numbers. `NextSlugIsFreeIff` and `NextSlugShapeIff` have the exact conditions,
  `CollisionAtLastExact` and `ExponentIsPrinted` examples.

## Model

| member | source | states |
|---|---|---|
| `AgentQueue.InvStep` | agent/main.go:156-208 | every step of poll loop, senders, channel and worker keeps: `active` counts at least what senders, channel and worker hold, `inflight` is exactly what is between acceptance and release, and nothing is held while the process may replace itself |
| `AgentQueue.InvRun` | agent/main.go:156-208 | the same over every interleaving of any length, restarts and lost replies included |
| `AgentQueue.SelfUpdateSafe` | agent/main.go:156-208 | in every interleaving `active` bounds the load from above, and whenever the agent is inside maybeSelfUpdate no work is queued, being sent, in flight or running; as every prefix is covered, none appears while it executes |
| `AgentQueue.UpdatesIffIdle` | agent/main.go:156-179 | at the end of every poll the agent enters maybeSelfUpdate if and only if senders, channel and worker hold nothing |
| `AgentQueue.IdleAgentUpdates` | agent/main.go:156-179 | an idle agent gets there with its next poll |
| `AgentQueue.FirstInFirstOut` | agent/main.go:184-208 | in every schedule of one process the worker executes what was sent in the order it was sent |
| `AgentQueue.HeldStep` | agent/main.go:184-208 | conservation: a unit of work enters with a reply, leaves with exactly one result, and is otherwise lost only with a lost reply, a restart or as a duplicate that is in flight already |
| `AgentQueue.WorkDecreases` | agent/main.go:184-208 | every internal step brings the agent strictly closer to having dealt with all it received |
| `AgentQueue.AcceptedTasksFinish` | agent/main.go:184-208 | from every state a bounded schedule of internal steps posts the result of everything accepted: a full channel or a busy worker strands nothing |
| `AgentTask.TaskResults` | agent/main.go:229-503 | everything the execution of one unit of work posts: exactly one result for every known type in every world, none for an unknown one that was not cancelled before its start, and a cancelled result only with a cancelled context |
| `AgentTask.FirstStop` | agent/main.go:304-416 | the first point a backup does not get past |
| `AgentTask.BackupOutcome` | agent/main.go:304-416 | success exactly if scripts, init and restic (exit 0 or 3) pass and no cancel is seen up to the last look at the context; a failure only if a stage failed and no cancel came before the first one; a prune is reported exactly if the forget was clean and asked for one, figures exactly with a success |
| `AgentTask.OtherOutcomes` | agent/main.go:435-491 | a restore or check is cancelled exactly if its context is by the time restic ended, succeeds exactly for a clean exit otherwise, and a check that could not run is never reported as damage |
| `AgentTask.StatsOutcome` | agent/main.go:494-503 | a reading of the figures fails exactly if they could not be read |
| `AgentTask.Runner.HandleFailure` | agent/main.go:314-331 | adds exactly one result to what was posted, cancelled exactly if the context is cancelled where the failure is handled |
| `AgentTask.Runner.RunBackup` | agent/main.go:304-416 | on every path exactly the results of a backup are added to what was posted: a path that went on after posting would add more |
| `AgentTask.Runner.RunRestore` | agent/main.go:435-464 | the same for a restore |
| `AgentTask.Runner.RunCheck` | agent/main.go:469-491 | the same for a check |
| `AgentTask.Runner.RunStats` | agent/main.go:494-503 | the same for a reading of the figures |
| `AgentTask.Runner.RunTask` | agent/main.go:229-257 | exactly the results the run protocol takes over are added, one for every known type; what was cancelled before its start never runs |
| `RunRows.ReportEvolves` | server/src/agents/agents.service.ts:788-956 | a result moves a row only forward, keeps the columns that identify it and the agent it runs on, and never moves a cancelled one |
| `RunRows.CancelWriteEvolves` | server/src/runs/runs.service.ts:181-210 | an operator's cancel never returns a row to the queue and changes no figures of a finished one |
| `RunRows.ExpireEvolves` | server/src/jobs/job-runner.service.ts:82-112 | the queue timeout moves a row only forward and leaves everything that is not waiting alone |
| `ProtocolInvariant.InvStep` | server/src/agents/agents.service.ts:522-1018 | every step of server, agents, operators and timers keeps the invariant of the composed system: rows, retry links, handouts, results, cancel answers, finalizations |
| `ProtocolInvariant.InvRun` | server/src/agents/agents.service.ts:522-1018 | the same over every schedule |
| `ProtocolInvariant.InvClaim` | server/src/agents/agents.service.ts:564-769 | a claim keeps it, whether or not the agent still waits for the reply |
| `ProtocolInvariant.OneResult` | agent/main.go:229-257 | the messages a finished run sends are exactly one, because its execution posts exactly one result, and it says cancelled only if the context was |
| `ProtocolInvariant.InvEnd` | agent/main.go:200-257 | sending whatever the execution of a run posts keeps it: until then the agent that was handed the run held it exactly once |
| `ProtocolInvariant.InvDeliver` | server/src/agents/agents.service.ts:788-956 | a result that arrives, at any time and after anything, keeps it, together with the finalization it starts |
| `ProtocolInvariant.InvSweep` | server/src/jobs/job-runner.service.ts:82-112 | a run failed by the queue timeout keeps it: it was never handed out, so its finalization is the only one |
| `ProtocolInvariant.InvCancel` | server/src/runs/runs.service.ts:181-210 | a cancel that lands at any time keeps it |
| `ProtocolInvariant.InvInsertRetry` | server/src/jobs/run-retry.service.ts:44-95 | queueing a retry keeps it, however long ago the run was read |
| `ProtocolInvariant.QueuedIsNowhere` | server/src/agents/agents.service.ts:592-602 | a queued run was never handed out, has no result and no agent holds it |
| `ProtocolTheorems.AtMostOneHandout` | server/src/agents/agents.service.ts:592-602 | over all polls of all agents a backup, check or restore is handed out at most once, and a run that was handed out is never queued again |
| `ProtocolTheorems.DedupeDropsNoRun` | agent/main.go:184-195 | what an agent is about to enqueue is never in flight there already: the dedupe drops no run |
| `ProtocolTheorems.AtMostOneResult` | agent/main.go:200-257 | over every schedule, with agents sending all that executing a run posts, a run has at most one result, and no agent holds a run that has one |
| `ProtocolTheorems.RowsOverTime` | server/src/agents/agents.service.ts:788-956 | over every schedule a deleted run never comes back, identifying columns never change, and a run that left the queue stays out of it and with its agent |
| `ProtocolTheorems.CancelAgreement` | agent/main.go:263-302 | under any delay of messages a context is cancelled, and a cancelled result posted, only for a run the server has cancelled or deleted; such a result changes nothing |
| `ProtocolTheorems.CancelledIsForever` | server/src/agents/agents.service.ts:773-836 | a run once cancelled stays cancelled (or is deleted) and shows no new progress or figures, whatever arrives later |
| `ProtocolTheorems.WhoEndsARun` | server/src/agents/agents.service.ts:788-918 | only a result of the agent that was handed the run, or an operator's cancel, takes it out of running |
| `ProtocolTheorems.TerminalRun` | server/src/agents/agents.service.ts:793-836 | status and finish time of a finished run never change over any schedule, if it is a restore or no cancel is between its check and its write |
| `ProtocolTheorems.OutcomeIsFinalIff` | server/src/runs/runs.service.ts:181-210 | no continuation changes the status of a finished run if and only if it is a restore, is cancelled, or no cancel is between its check and its write |
| `ProtocolTheorems.FinishTimeIsFinalIff` | server/src/runs/runs.service.ts:181-210 | no continuation changes its finish time if and only if it is a restore or no cancel is between its check and its write |
| `RetryTheorems.RetryLinks` | server/src/jobs/run-retry.service.ts:44-95 | a retry repeats a backup of the same job and trigger that failed, with the next attempt number; no run has two successors |
| `RetryTheorems.ChainLength` | server/src/jobs/run-retry.service.ts:44-95 | the attempt number is the length of the chain of runs behind it |
| `RetryTheorems.CeilingWasSet` | server/src/jobs/run-retry.service.ts:44-62 | the bound used for a job is a `retry_max` it was really given in that schedule |
| `RetryTheorems.RetryChainBound` | server/src/jobs/run-retry.service.ts:44-95 | over every schedule all chains are finite and no attempt exceeds one plus a `retry_max` the job was given on the way |
| `RetryTheorems.FinalizationAdvances` | server/src/jobs/run-retry.service.ts:29-62 | a finalization never hangs: its next statement is possible and brings it closer to its end |
| `RetryTheorems.FinalizationCompletes` | server/src/jobs/run-retry.service.ts:29-95 | from every state some schedule takes a finalization to its end, a queued successor or the notify call |
| `RetryTheorems.OneFinalizationPerRun` | server/src/jobs/run-retry.service.ts:29-38 | a backup or check that shows success or failure has exactly one finalization, no run has two, and a run has a successor if and only if its finalization ended that way: never both a retry and a notify call |
| `RetryTheorems.NotifiedIsNeverRetried` | server/src/jobs/run-retry.service.ts:29-38 | a run whose end was announced never gets a successor later |
| `RetryTheorems.CancelledStaysSilent` | server/src/notifications/notifications.service.ts:159-184 | a run stopped before it had an outcome gets neither a retry nor a delivered notification, then or later, even if a late result still starts a finalization |
| `RetryTheorems.CancelledStaysSilentIff` | server/src/jobs/run-retry.service.ts:29-95 | for every cancelled run in every reachable state: no continuation shows a retry or a delivered notification of it if and only if no finalization of it has read the failure the cancel replaced or has passed the notify filter |
| `RetryTheorems.CancelledRunIsRetried` | server/src/runs/runs.service.ts:181-210 | a reachable state in which a cancelled backup has a queued retry: the cancel's unguarded update raced the queue timeout |
| `RunStore.Store.ClaimTasks` | server/src/agents/agents.service.ts:564-769 | a poll hands over exactly the queued runs of that agent, each once and a retry only once its delay is over, and turns exactly those into running ones of that agent |
| `RunStore.Store.FailStaleQueuedRuns` | server/src/jobs/job-runner.service.ts:82-112 | exactly the backups and checks that waited longer than the timeout fail, a retry counted from the end of its delay; each is returned for one finalization, and a timeout of 0 switches it off |
| `RunStore.Store.SubmitResult` | server/src/agents/agents.service.ts:788-956 | a result of another agent is not found; a running row then shows the status, figures and time that were reported, any other stays as it is, and a finalization is asked for exactly for a backup that was not stopped |
| `RunStore.Store.BackupProgress` | server/src/agents/agents.service.ts:773-786 | progress reaches only a running row of that agent |
| `RunStore.Store.CancelRun` | server/src/runs/runs.service.ts:181-210 | uninterrupted, a cancel is refused exactly for a finished or unknown run and otherwise ends it |
| `RunStore.Store.ScheduleRetry` | server/src/jobs/run-retry.service.ts:44-95 | uninterrupted, a retry is queued if and only if the run is a failed backup with attempts left and no other backup of the job is active, with the next attempt number and the job's delay |
| `RunStore.RetryIsSchedule` | server/src/jobs/run-retry.service.ts:44-95 | what that method does to the rows is what the three statements of a finalization do when nothing comes in between |
| `RunStore.RetryWaits` | server/src/jobs/run-retry.service.ts:64-95 | a retry is handed out from the end of the job's delay on, and its time in the queue counts from then |
| `ProtocolProgress.RecordedOutcome` | server/src/agents/agents.service.ts:788-956 | in every reachable state a row shows success only if a processed result of the agent that ran it says so, and failure only if one says so or the queue timeout failed it, with the reported figures; and every result is what executing a run of that kind posts |
| `ProtocolProgress.SuccessIsReal` | agent/main.go:304-491 | from exit code to row: a backup shows success only if its stages passed, restic exited with 0 or 3 and no cancel was seen; a restore or check only for a clean exit |
| `ProtocolProgress.FailureIsReal` | agent/main.go:304-416 | a backup shows failure only if one of its stages failed or it waited too long |
| `ProtocolProgress.RunCompletes` | server/src/agents/agents.service.ts:522-956 | a run that waits for an idle agent can be polled, claimed, enqueued, executed in any world and reported, and its row then shows what happened there |
| `ProtocolProgress.InsertedWaits` | server/src/jobs/check-runner.service.ts:104-117 | a new run waits as a first attempt that is due at once |
| `ProtocolProgress.FailureIsRetried` | server/src/jobs/run-retry.service.ts:29-95 | the posted failure of a running backup with attempts left, and no other backup of the job on its way, leads to a queued next attempt of the same job and trigger that waits for the job's delay |
| `ProtocolProgress.TimeoutIsRetried` | server/src/jobs/job-runner.service.ts:82-112 | so does a failure of the queue timeout |
| `ProtocolProgress.NotifiedForAReason` | server/src/jobs/run-retry.service.ts:29-95 | over every schedule a finalization goes on to the notify call only after a step that found no failed backup with attempts left, or another backup on its way, or the job or run gone, or was started for a check |
| `ProtocolProgress.RetryIsRedundant` | server/src/jobs/run-retry.service.ts:64-74 | another backup of the job on its way turns a finalization to the notify call |
| `ProtocolProgress.NotifyDelivers` | server/src/notifications/notifications.service.ts:159-184 | the notify call passes the filter exactly for a run that shows success or failure then |
| `ProtocolProgress.CancelReaches` | agent/main.go:229-302 | an agent that executes a cancelled or deleted run can learn of it at any time: its context is cancelled, and a run cancelled from the start posts that |
| `Rotation.PlanCheck` | server/src/jobs/check-runner.service.ts:310-325 | the part to read is always one of the split, whatever position is stored |
| `Rotation.PlanFollowsLevel` | server/src/jobs/check-runner.service.ts:310-325 | what is verified follows the level asked for, else the scheduled one, else a quick check; the split is the configured one or 12 |
| `Rotation.VerdictMeans` | server/src/jobs/check-runner.service.ts:328-359 | damage is recorded and changes nothing else; a pass is recorded with its time, moves the position on after a rotating check, and sets `data_verified_at` exactly after a full check or the last part; a check that could not run changes nothing |
| `Rotation.PartsInTurn` | server/src/jobs/check-runner.service.ts:310-359 | the n-th passing check reads the n-th part from the stored position on, and checks that do not pass repeat theirs |
| `Rotation.RotationCovers` | server/src/jobs/check-runner.service.ts:310-359 | from any stored position, also a stale one of another split, P passing checks of a split of P read every part exactly once whatever failures lie in between, and exactly one of them sets `data_verified_at` |
| `Rotation.SoundStep` | server/src/jobs/check-runner.service.ts:248-273 | start, claim, timeout, cancel, verdict and repository update, in any order, keep: the stored position, every check and every pending verdict rest on the parts before them, each read from the position the one before stored |
| `Rotation.RotationSound` | server/src/jobs/check-runner.service.ts:328-359 | in every schedule, whenever a rotating check is about to set `data_verified_at`, every part 1..P of its split was read back since the rotation began, in order: each part by a check planned after the part before had passed, from the very position it stored, and part 1 first |
| `Rotation.VerifiedBy` | server/src/jobs/check-runner.service.ts:341-357 | over every step `data_verified_at` becomes the time of the step if and only if the verdict of a passed full check or last part reaches the repository, and is unchanged otherwise |
| `RotationFreshness.FreshStep` | server/src/jobs/check-runner.service.ts:248-273 | every step but a harmful start keeps: the stored position, the active check and the verdicts to be stored continue the latest passes |
| `RotationFreshness.RotationFresh` | server/src/jobs/check-runner.service.ts:248-273 | in every schedule without a harmful start the last P passes before a certificate are exactly the parts 1..P of the certified split |
| `RotationFreshness.StartIsSafeIff` | server/src/jobs/check-runner.service.ts:93-273 | in every state that keeps the invariant of `FreshStep`: after a start all further certificates without another harmful start rest on the latest reads if and only if every passed part whose position is not stored yet is part 1 of the split that the starting check reads part 1 of |
| `RotationFreshness.HarmfulStart` | server/src/jobs/check-runner.service.ts:248-273 | after any other start there is a schedule to a certificate that does not |
| `RotationFreshness.OverlapCertifiesUnread` | server/src/jobs/check-runner.service.ts:254-273 | a schedule with one such start after which the data is certified twice, the second time with nothing read since the first |
| `Rotation.CheckRunner.Start` | server/src/jobs/check-runner.service.ts:93-202 | a check starts exactly if no check, backup, prune or restore of the job is active, and is the start step of the transition system |
| `Rotation.CheckRunner.RecordAgentResult` | server/src/jobs/check-runner.service.ts:123-158 | an uninterrupted report is a schedule of the transition system: verdict on a running row, then the repository; a cancelled one leaves the repository alone |
| `Rotation.CheckRunner.Settle` | server/src/jobs/check-runner.service.ts:248-278 | the same for the verdict alone; a row that is no longer running changes nothing |
| `Rotation.CheckRunner.WriteBack` | server/src/jobs/check-runner.service.ts:328-359 | the columns built field by field are those `VerdictMeans` and the rotation theorems are about |
| `StorageHistory.StatsStore.RecordStats` | server/src/repositories/repositories.service.ts:315-368 | uninterrupted, a reading overwrites the cached figures and appends history exactly for a size that is the first or differs from the cached one in size or snapshot count, a missing size counting as 0; a failed one changes no figure |
| `StorageHistory.DeduplicationLosslessIff` | server/src/repositories/repositories.service.ts:315-368 | for all readings recorded one after the other, the change-only history gives after every prefix the same size of every repository at every time as keeping all readings, if and only if no reading is masked |
| `StorageHistory.MaskedReadingIsLost` | server/src/repositories/repositories.service.ts:350-360 | the first masked reading makes the two differ |
| `StorageHistory.SizedReadingsAreKept` | server/src/repositories/repositories.service.ts:315-368 | readings recorded one after the other that all carry a size or failed altogether lose nothing |
| `StorageHistory.MaskedReadingExists` | server/src/repositories/repositories.service.ts:350-360 | a size, a reading without one, then an empty repository with the same snapshot count: the last is masked |
| `StatsRecording.RecordIsSchedule` | server/src/repositories/repositories.service.ts:315-368 | the statements of a call without others in between do what the uninterrupted recording does |
| `StatsRecording.LineRun` | server/src/repositories/repositories.service.ts:315-368 | in every interleaving of calls the table, sorted by time, holds exactly the finished readings that saw a change |
| `StatsRecording.TellsIff` | server/src/repositories/repositories.service.ts:315-368 | in every interleaving the history shows, at every moment, the size of the latest finished reading of a repository if and only if each reading left out has the size of the reading before it in time |
| `StatsRecording.RepeatsShows` | server/src/repositories/repositories.service.ts:315-368 | then it gives the same size at every time as all readings |
| `StatsRecording.FinishLosesIff` | server/src/repositories/repositories.service.ts:350-368 | a call that no other call of its repository overlaps loses its reading if and only if it is masked |
| `StatsRecording.ApartRunsLosslessIff` | server/src/repositories/repositories.service.ts:315-368 | in every schedule in which calls of one repository do not overlap, whatever calls of others do, nothing is ever lost if and only if no reading is masked |
| `StatsRecording.OverlapLosesReading` | server/src/repositories/repositories.service.ts:315-368 | two overlapping calls after which the history shows 7 while the latest reading is 5, with nothing masked |
| `StatsRecording.Dashboard` | client/src/ui/storage-chart.tsx:223-229 | end to end over every interleaving: if each reading left out repeats the one before it, the tooltip shows the total over all finished readings |
| `StorageSeries.SumOf` | client/src/ui/storage-chart.tsx:20-44 | the reduction over the map is its sum, in whatever order |
| `StorageSeries.SortIsStable` | server/src/repositories/repositories.service.ts:413-419 | sorting by time leaves readings of one repository and time in their order |
| `StorageSeries.InsideWindow` | server/src/repositories/repositories.service.ts:396-402 | exactly the readings of visible repositories inside the window |
| `StorageSeries.BeforeWindow` | server/src/repositories/repositories.service.ts:403-411 | for exactly the visible repositories with a reading before the window, the latest of them |
| `StorageSeries.StatsHistory` | server/src/repositories/repositories.service.ts:376-421 | for every table the answer is ordered by time, holds only readings of the window and all inside it, and says of every visible repository and every time to be shown what the table says |
| `StorageSeries.WindowKeepsLatest` | server/src/repositories/repositories.service.ts:376-421 | from the start of the window on, cutting it out changes no visible repository's latest size |
| `StorageSeries.WindowKeepsLatestIff` | server/src/repositories/repositories.service.ts:396-411 | for answers with readings of one time in any order, this holds if and only if the last recorded one of each time that is ever shown comes last, or one of the same size |
| `StorageSeries.TieOutOfOrder` | server/src/repositories/repositories.service.ts:396-411 | two readings of one millisecond for which it does not |
| `StorageSeries.TotalStorageSeries` | client/src/ui/storage-chart.tsx:20-44 | for points in any order, sorted first: a baseline at the start of the window if there were earlier readings, one step per reading with the running total, and a last point at now |
| `StorageSeries.Hover` | client/src/ui/storage-chart.tsx:223-229 | the scan reads the step function of the series |
| `StorageSeries.SeriesShowsTotals` | client/src/ui/storage-chart.tsx:20-44 | for every table and window the step function of the series over the windowed answer equals, from its first point to now, the sum of every visible repository's latest reading in the full table |
| `StorageSeries.Tooltip` | client/src/ui/storage-chart.tsx:223-229 | from the table on: if it tells the sizes of all readings, the window, the fold and the lookup show the total over all of them |
| `StorageSeries.TooltipInTurn` | client/src/ui/storage-chart.tsx:223-229 | readings recorded one after the other, none masked, are shown as if all had been kept |
| `DeviceAuth.InvStep` | server/src/auth/device-auth.service.ts:66-287 | requests, polls split at their statements, decisions, account changes and purge keep: one decision per pairing, and every key is backed by one |
| `DeviceAuth.OneKeyPerPairing` | server/src/auth/device-auth.service.ts:108-212 | in every interleaving a device code yields at most one key, in a poll that began before expiry, with the user, access and lifetime of the one approval (sections 3.3 to 3.5 of RFC 8628) |
| `DeviceAuth.SpentYieldsNothing` | server/src/auth/device-auth.service.ts:240-287 | a denied, consumed or purged pairing never yields a key again |
| `DeviceAuth.RequestedPairing` | server/src/auth/device-auth.service.ts:66-102 | a new pairing is undecided, belongs to nobody and lasts ten minutes |
| `DeviceAuth.DecisionMeans` | server/src/auth/device-auth.service.ts:240-267 | an approval or denial in time reaches exactly the pairing whose code was entered, with the user, access and lifetime given |
| `DeviceAuth.ApprovalYieldsKey` | server/src/auth/device-auth.service.ts:142-212 | a poll of an approved pairing in time, of an enabled account, issues one key with the user, access and lifetime of the approval and uses the pairing up |
| `DeviceAuth.PendingPollMarks` | server/src/auth/device-auth.service.ts:123-136 | a poll of an undecided pairing leaves its time there and nothing else |
| `DeviceAuth.FirstAnswerMeans` | server/src/auth/device-auth.service.ts:108-123 | when a poll is answered denied, and when it goes on |
| `CliLogin.PairingService.ExchangeCode` | server/src/auth/device-auth.service.ts:108-212 | for each answer exactly when it is given and what it does to the pairing; only an approved, unexpired pairing of an enabled account is consumed for a key |
| `CliLogin.PairingService.PurgeExpired` | server/src/auth/device-auth.service.ts:277-287 | the purge deletes exactly what expired more than a day ago |
| `CliLogin.RunLogin` | cli/login.go:128-194 | against the pairing service and whatever the delays and decisions, a lone client that starts with at least 4 s is never told to slow down, its interval grows by 5 s per back-off and never shrinks (section 3.5 of RFC 8628), it ends at the deadline after at most one poll a second; a poll that finds an approval of an enabled account in time is a login with one key, one that finds a denial ends in that, and there is no login or denial otherwise |
| `CliLogin.AcceptedInputs` | server/src/auth/device-auth.service.ts:311-314 | accepted is exactly what has eight characters besides blanks and dashes, all of them letters of the alphabet in either case |
| `CliLogin.CleanedAt` | server/src/auth/device-auth.service.ts:311-314 | the characters that count stay in upper case and in order |
| `CliLogin.DisplayedCodeRoundTrip` | server/src/auth/device-auth.service.ts:306-314 | the displayed code, typed in any case and with or without the dash, normalizes to the stored one |
| `CliLogin.DisplayedShape` | server/src/auth/device-auth.service.ts:306-308 | the displayed code is two groups of four letters with a dash between them |
| `ChallengeGuard.AuthService.ConsumeAttempt` | server/src/auth/auth.service.ts:54-67 | the sweep removes exactly the expired entries; an attempt is accepted and counted exactly if fewer than five are counted in an entry that is not over, and the first one opens an entry of six minutes |
| `ChallengeGuard.AuthService.BurnChallenge` | server/src/auth/auth.service.ts:70-75 | a burned challenge accepts no attempt |
| `ChallengeGuard.AtMostFiveChecks` | server/src/auth/auth.service.ts:54-143 | if attempts are counted within a minute of verification, at most five codes are checked per challenge in every run, and while its token is valid the entry that counts them is never swept |
| `ChallengeGuard.BurnedIsSpent` | server/src/auth/auth.service.ts:70-143 | no check starts after a success burned the challenge |
| `ChallengeGuard.DelayedAttemptIsNotCapped` | server/src/auth/auth.service.ts:117-143 | for every longer delay a run with a sixth check |
| `ChallengeGuard.CappedIff` | server/src/auth/auth.service.ts:54-143 | all runs whose attempts are counted within a delay are capped if and only if the delay is at most the minute by which an entry outlives its token |
| `JobSecrets.LinkJob` | server/src/jobs/jobs.service.ts:276-298 | pointing a repository at unowned secrets keeps all references sound and unshared, and frees exactly what it pointed at before |
| `JobSecrets.CreatedBalance` | server/src/jobs/jobs.service.ts:255-298 | a create adds no unowned secret unless its transaction fails, and then exactly those it created |
| `JobSecrets.UpdatedBalance` | server/src/jobs/jobs.service.ts:399-467 | an update, accepted, refused or failed, leaves references sound; it strands a secret exactly if it created an override and its transaction failed |
| `JobSecrets.RemovedBalance` | server/src/jobs/jobs.service.ts:472-486 | a removal takes both secrets of the job along and no other |
| `JobSecrets.SecretAccount` | server/src/jobs/jobs.service.ts:255-486 | over any sequence of calls, each with the connections its user may use then, there is no dangling reference and no sharing, connection secrets are untouched, and the unowned secrets are exactly those stranded by failed transactions, for good |
| `JobSecrets.SecretsConservedIff` | server/src/jobs/jobs.service.ts:255-486 | the job-owned secrets are exactly those live repositories point at, each from one place, if and only if no transaction stranded one |
| `JobSecrets.FailedCreateStrands` | server/src/jobs/jobs.service.ts:255-298 | one create from an empty, conserved state whose transaction fails: its password secret belongs to nobody |
| `JobSecrets.SecretsConserved` | server/src/jobs/jobs.service.ts:255-486 | in particular after any sequence of calls whose transactions commit, refused ones included |
| `JobSecrets.UpdateMeans` | server/src/jobs/jobs.service.ts:399-467 | an accepted update leaves the job on the connection and with the password asked for, else the old ones; its override is dropped when cleared or on a move, merged with what is given on the same connection, and left alone otherwise; a dropped one is deleted, and nothing else changes |
| `JobSecrets.ClearDropsOverride` | server/src/jobs/jobs.service.ts:416-418 | a cleared override is gone, whatever else the request says |
| `JobSecrets.UpdateRefused` | server/src/jobs/jobs.service.ts:385-455 | a refused or failed update leaves all jobs as they are |
| `JobSecrets.CreateMeans` | server/src/jobs/jobs.service.ts:255-298 | an accepted create stores the password, connection and non-empty fields asked for, under a job of its own |
| `JobSecrets.CreateRefused` | server/src/jobs/jobs.service.ts:225-238 | a refused create changes nothing |
| `JobSecrets.RemoveMeans` | server/src/jobs/jobs.service.ts:472-486 | a removed job is gone with both its secrets, and nothing else is |
| `JobSecrets.OverrideMeans` | server/src/jobs/jobs.service.ts:117-133 | an override is refused exactly for a field that may not be overridden, and is otherwise exactly the non-empty fields |
| `JobSecrets.MergeKeepsUnnamedFields` | server/src/jobs/jobs.service.ts:432-442 | an override update on the same connection keeps the stored fields it does not name and replaces the others |
| `JobSecrets.MoveDropsOverride` | server/src/jobs/jobs.service.ts:409-454 | an override never survives a move to another connection: the old secret is deleted and a new one, if any, holds only what the request brought |
| `JobSecrets.BuildCredentialOverride` | server/src/jobs/jobs.service.ts:117-133 | refused exactly if some field may not be overridden, otherwise exactly the non-empty fields |
| `JobSecrets.JobsService.Create` | server/src/jobs/jobs.service.ts:255-298 | the method performs the writes the account is about |
| `JobSecrets.JobsService.Update` | server/src/jobs/jobs.service.ts:399-467 | the same, through the variable that remembers the orphaned secret |
| `JobSecrets.JobsService.Remove` | server/src/jobs/jobs.service.ts:472-486 | the same |
| `Slug.SlugifyJoinsWords` | server/src/common/slug.ts:26-32 | the slug is the alphanumeric runs of the lower-cased name joined by single dashes, or the fallback if there are none |
| `Slug.SlugifyShape` | server/src/common/slug.ts:26-32 | it always has the shape of a slug |
| `Slug.SlugsAreFixed` | server/src/common/slug.ts:26-32 | a name is left as it is if and only if it is a slug |
| `Slug.SlugifyIdempotent` | server/src/common/slug.ts:26-32 | slugify is idempotent |
| `Slug.DecimalRoundTrip` | server/src/common/slug.ts:66-68 | a printed number parses to itself |
| `Slug.MaxSuffixBounds` | server/src/common/slug.ts:58-67 | the maximum is at least every suffix in use, and is one of them or 1 |
| `Slug.IeeeIsPossible` | server/src/common/slug.ts:66-68 | the laws of floating-point numbers and their printed form that the next rows rest on do not contradict each other |
| `Slug.PlusOneMoves` | server/src/common/slug.ts:66-68 | in floating point one more is a larger number that is printed plainly, or the same number; below 2^53 it is always larger |
| `Slug.PlusOneStaysIff` | server/src/common/slug.ts:66-68 | it is the same number if and only if that is at least 2^54, or at least 2^53 and a multiple of four |
| `Slug.NextSlugIsFreeIff` | server/src/common/slug.ts:46-69 | for every table the chosen slug is held by no other row if and only if the base is free, or the largest suffix is below 2^53, or below 2^54 and no multiple of four, or no row is written the way that suffix is printed |
| `Slug.NextSlugIsFree` | server/src/common/slug.ts:46-69 | with suffixes below 2^53 it always is |
| `Slug.CollisionAt` | server/src/common/slug.ts:66-68 | with any plainly printed number that absorbs one more in use, written as it is printed, the chosen slug is taken |
| `Slug.CollisionAtLastExact` | server/src/common/slug.ts:66-68 | so it is with the suffix 2^53 |
| `Slug.NextSlugShapeIff` | server/src/common/slug.ts:46-69 | for every table the chosen slug is alphanumeric runs joined by single dashes if and only if the base is free or the new number is printed without an exponent |
| `Slug.ExponentIsPrinted` | server/src/common/slug.ts:66-68 | a row with the suffix 10^21 breaks it |
| `Slug.BaseIsKeptIff` | server/src/common/slug.ts:34-69 | a row that holds the base keeps it when saved again if and only if no other row does |
| `Slug.NumberIsKeptIff` | server/src/common/slug.ts:34-69 | a row that holds suffix k, 2 <= k < 2^53, keeps it when saved again if and only if the base is taken by another row, all other suffixes are smaller, and k is 2 or k - 1 is in use |
| `Slug.ResavingMoves` | server/src/common/slug.ts:34-39 | for every base, suffix 2 next to the base and suffix 3 becomes suffix 4, and suffix 2 alone becomes the base |
| `Slug.OthersAre` | server/src/common/slug.ts:54-57 | exactly the rows other than the excluded one count |
| `Slug.UniqueSlug` | server/src/common/slug.ts:46-69 | for every table the scan over the rows computes that slug; it is the base exactly if no other row than the excluded one holds it |

## Left out

- Local execution of runs, the dispatch of due local retries and prunes: their status writes are unguarded, so the claims about rows are for runs that agents execute.
- Deleting an agent (which clears `agent_id` on its rows): the composed system keeps its agents.
- Claiming and routing of size readings as agent work (`claimStatsRequests`): it enters the agent's queue from outside in the model, without a server row.
- A read that only precedes a guarded update of the same row is merged with it; `agent_id` and `kind` of a row do not change in between.
- The set-wise statements of claim loops and sweep are single-row steps in the composed system (`RunStore` has them as they are), and any agent may be the one that claims a backup or check: both allow more schedules than the server has.
- Starting a check (reading the position, idle test and insert) is one step, and a rotation stays with one repository; log texts, error texts and check levels of a repository are not modelled.
- StorageSeries.SeriesShowsTotals: sums beyond 2^53 bytes, which the browser rounds, are not modelled, and readings lie at or before now.
- CliLogin.AcceptedInputs: upper-casing is modelled for ASCII letters.
- StorageSeries.StatsHistory: takes readings of one repository and time to come from the database in the order of recording, which SQL does not promise; `WindowKeepsLatestIff` says what any other order does.
- Floating point is modelled by the laws of IEEE 754 and ECMAScript's number formatting that slugs need (`Slug.Ieee`), not bit by bit.
- JobSecrets.SecretAccount: calls are handled one after the other. Overlapping ones are not modelled: two updates of one job that each create an override strand the first one, although both commit.
- JobSecrets.RemovedBalance: a server that stops in the middle of a removal is not modelled.
- StatsRecording: a repository deleted while a reading of it is recorded is not modelled.
- ChallengeGuard and Slug: the methods of `AuthService` run without interruption, as they do in the source; two rows named at the same time are left to the unique index of the table.
- The 32-bit width of the agent's counter is not modelled; it is bounded by the work handed out.
- HTTP, access control, cryptography, token signing, password hashing, cron expressions, notification delivery, reports, the user interface apart from the chart's fold and lookup, restic and the scripts around it: foreign calls or plumbing, which appear as parameters or arbitrary outcomes.
