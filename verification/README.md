# Verification model of apsis' background work

apsis runs its background work on Postgres rows: a table of recurring jobs that workers claim under a lease, and a transactional outbox that workers claim under a row lock. On top of the two sits one data pipeline: a job refreshes the TLEs of the satellites and publishes an event for each change, and the handler of that event recomputes the satellite's passes over every ground station. This project models both protocols, the pipeline, and the sequential kernels inside it, and proves what they keep in every run.

`dafny verify dfyconfig.toml` checks the whole project.

## How it is built

| file | what it holds |
|---|---|
| `Wrappers.dfy` | options, results, time in microseconds |
| `Jobs.dfy`, `JobWorker.dfy` | the job table, its SQL statements as functions, the worker as a class, fairness with one worker |
| `JobProtocol.dfy`, `JobLease.dfy` | any number of job workers interleaved statement by statement; accounting, mutual exclusion by the lease, bounded recovery |
| `Outbox.dfy`, `OutboxWorker.dfy` | the outbox row and what one attempt does to it; dispatcher, row and worker as classes |
| `OutboxProtocol.dfy`, `OutboxProgress.dfy`, `OutboxDelivery.dfy`, `OutboxBatchSelect.dfy` | any number of outbox workers interleaved; exclusion, retries, timing, drain, fairness, coming to rest, delivery per handler; the variant that the source rejects |
| `Passes.dfy`, `Sampling.dfy`, `TleText.dfy` | the event loop of the pass prediction, the sampled instants, the TLE text format |
| `Ingest.dfy`, `Predictions.dfy` | the transactional ingest, the recomputation of predictions |
| `IngestSteps.dfy`, `RefreshJob.dfy`, `RefreshRuns.dfy` | the ingest record by record and as a job: claims, crashes, recoveries, reruns and overlapping transactions on one database |
| `Pipeline.dfy`, `PipelineOverlap.dfy`, `PipelineConvergence.dfy` | ingest, outbox and recompute composed: no silent staleness, for how many outbox workers, and that predictions catch up |

Code that changes state step by step is a class or a method with a loop, proved against a function of the old state. The state machines take their steps from the same functions, so what is proved of a step in an interleaving is about the statement that the method runs. A table is a sequence and an id is an index, because the modelled code only inserts and updates these rows; the predictions, which are deleted too, are a map keyed by the unique constraint. An interleaving is a list of actions, `CanRun` says that each is enabled where it comes, and `Reachable` says that some list leads to a state: the lemmas quantify over all of them.

Handlers are code outside the model: the classes log every call of one, with what it raised, so that contracts say which handlers were called and that results and rows report what they did.

There is one clock, in whole microseconds, that never goes back. Outcomes of handlers, jitter, crash points, the answers that a query may give in case of ties, and the interleaving are free.

## What the results depend on

- **Distinct handler names.** `handler_state` is keyed by `__name__`. `DeliveryIffDistinctNames` proves that PROCESSED means "every handler has succeeded" exactly for registries in which no event type has two handlers of the same name, and `NotRepeatedIffDistinctNames` that only there successes are not repeated but for aborted attempts. The handlers registered for an event do not change during a run.
- **The lease must cover the whole run, not only the handler.** The lease is dated before the claim and the row is freed after the handler, so a live run takes up to the timeout plus some latency. `ExclusionIffLeaseCoversRun` proves that two live workers never hold the same job exactly when timeout plus latency is at most the lease. The validator asks for lease >= 2 * timeout, which is enough when the latency is at most one timeout (`ValidatedSettingsExclude`) but says nothing about longer latencies; the comment in `config.py` and `docs/adr/0002-claim-strategies.md` promise it without that condition. That a run ends within the bound also supposes that handlers honour cancellation.
- **Refreshes of one satellite must not overlap.** Outbox rows are locked per event, not per satellite. `NoSilentStaleness` is for every run in which no two workers handle refreshes of the same satellite at once. `KeepUpIffAtMostOneWorker` turns that into a condition on the deployment: a set of outbox workers keeps predictions from going stale unnoticed, in all runs and configurations, exactly when it has at most one member. For any two workers `OverlapGoesStale` is a run that ends with both events PROCESSED and predictions from the replaced TLE.
- **Retries.** With `max_retries` of zero or less the code still makes one attempt; the bounds are stated with the greater of 1 and `max_retries` (`Limit`), so they need no hypothesis on it.
- **Agreeing records and overlapping refreshes.** Running an ingest again succeeds without publishing exactly when no two records of a catalogue number differ (`RerunIsSilentIffAgree`). `PublishesOnceIff` is the condition for all runs of the refresh job together, with any crashes, recoveries and overlaps: they publish each change once exactly when records agree and either the lease covers a run or the first row that the data changes is new, so that overlapping transactions meet at its insert (or when the data cannot be ingested at all). It supposes that the epochs of the stored lines can be read, which every write of a row has computed from them.
- **Name changes.** A record whose name alone has changed is skipped, as in the code.

## Model

| member | source | states |
|---|---|---|
| JobLease.LeaseExclusion | app/core/jobs/worker.py:102-163 | if timeout plus latency is within the lease then, for any number of workers, jobs, crashes and cancellations, at most one live worker is between claim and reschedule of a job, its row is RUNNING under its own lease, and another worker's unguarded reschedule leaves that so |
| JobLease.ExclusionIffLeaseCoversRun | app/core/config.py:67-75 | exclusion holds in every reachable state if and only if the lease is at least the timeout plus the latency |
| JobLease.ValidatedSettingsExclude | app/core/config.py:67-75 | settings that the validator accepts give exclusion when the latency is at most one timeout |
| JobLease.ValidatorIsExact | app/core/config.py:67-75 | the validator accepts a timeout and a lease if and only if they give exclusion in every reachable state for every latency of up to one more timeout |
| JobLease.DefaultsExcludeIff | app/core/config.py:30-32 | the default settings are accepted, and give exclusion exactly for latencies of up to 65 s |
| JobLease.ShortLeaseDoubleRun | app/core/jobs/worker.py:66-125 | for every configuration whose runs may outlast the lease, a reachable state in which two workers are inside the same job |
| JobLease.ShortLeaseReleasesLiveClaim | app/core/jobs/worker.py:144-163 | and one in which the slower worker's reschedule has put the row back to PENDING under the other's live run |
| JobLease.OrphansAreRecovered | app/core/jobs/worker.py:43-80 | for any settings, while one worker's loop is healthy, no row of any reachable state is RUNNING later than one loop period after its lease ends, plus the time by which a run may outlast the lease; with a lease that covers a run, nothing is added |
| JobLease.RecoveredJobIsRead | app/core/jobs/worker.py:66-97 | the candidate query after the recovery reads a job it has freed, whatever others do in between, unless they take it or BATCH_SIZE other due jobs are earlier or tied |
| JobLease.StepWithinPeriod | app/core/jobs/worker.py:43-60 | a healthy loop is back at its next recovery within poll interval, a full page of runs and three sessions |
| JobLease.SweptStep | app/core/jobs/worker.py:66-80 | every step of every worker keeps: no RUNNING row has a lease that ended before the last recovery of a healthy loop, up to the time by which a run may outlast the lease |
| JobLease.OwnedStep | app/core/jobs/worker.py:66-163 | every step of every worker keeps the live runs' ownership of their rows |
| JobProtocol.JobAccounting | app/core/jobs/worker.py:103-163 | in every reachable state, for any settings: claims won = `run_count` + live runs + lost runs, and owner and lease are null exactly while the row is PENDING |
| JobProtocol.ClaimsAreSpaced | app/core/jobs/worker.py:107-125 | a claim is won no earlier than one interval after the last reschedule, however stale the candidate list |
| JobProtocol.BooksStep | app/core/jobs/worker.py:66-163 | every step keeps the shape of the rows, the runs' intervals and the balance of claims |
| JobWorker.JobWorker.RecoverStaleJobs | app/core/jobs/worker.py:66-80 | frees exactly the RUNNING rows whose lease has ended or is null; nothing else changes, `next_run_at` included |
| JobWorker.JobWorker.ReadCandidates | app/core/jobs/worker.py:87-97 | a page of at most ten of the due jobs, in one of the orders that the query allows |
| Jobs.PageMeans | app/core/jobs/worker.py:89-95 | the ids on a page are of PENDING rows whose `next_run_at` has come, each once, earliest first, and none is left out that is earlier than one taken or while there is room |
| JobWorker.JobWorker.ClaimJob | app/core/jobs/worker.py:103-125 | wins exactly when the row is PENDING and its `next_run_at` has come; then it is RUNNING, owned, with a lease counted from the first of two clock reads, and no other row changes |
| JobWorker.JobWorker.RunHandler | app/core/jobs/worker.py:127-142 | calls the registered handler once and returns what it raised; without one, nothing is called and the error says so |
| JobWorker.JobWorker.RescheduleJob | app/core/jobs/worker.py:144-163 | frees the row whoever holds it, counts the run, moves it one interval past now, keeps what is kept of the error |
| JobWorker.Kept | app/core/jobs/worker.py:158 | an error that is not empty leaves its tail, and nothing else does |
| JobWorker.Tail | app/core/jobs/worker.py:158 | the last 500 characters, or all |
| JobWorker.JobWorker.ExecuteJob | app/core/jobs/worker.py:102-163 | without interference: the job runs if and only if it is due at the claim; its handler, if registered, is then called exactly once, while the row is RUNNING under this worker's lease, and the row ends PENDING one interval after the handler did, with the handler's error |
| JobWorker.JobWorker.ProcessDueJobs | app/core/jobs/worker.py:87-100 | without interference: every candidate read runs exactly once and moves past the poll, exactly the handlers of the candidates are called, in the order of the page, with their errors on the rows; no other row changes |
| JobWorker.JobWorker.RunTurn | app/core/jobs/worker.py:43-60 | one turn of the loop without interference: a recovery, then a poll of the table that it left |
| JobWorker.JobWorker.Run | app/core/jobs/worker.py:43-60 | the loop of one worker on any table, RUNNING rows included: after n turns every due job of rank at most 10 n has run and had its handler called, if intervals are positive, and no other handler calls are made than those of the polls |
| JobWorker.PollLowersRank | app/core/jobs/worker.py:87-100 | with positive intervals, a due job that a poll does not run is unchanged and BATCH_SIZE places nearer the front of all jobs, whatever their status |
| JobWorker.TurnLowersRank | app/core/jobs/worker.py:43-47 | so it is after a recovery and a poll: the recovery frees rows without rescheduling any |
| JobWorker.DueJobRunsWithinItsRank | app/core/jobs/worker.py:43-100 | with one worker, whose recoveries may free rows at every turn, a job of rank r that is due at the first poll runs within the first ceil(r / BATCH_SIZE) polls |
| Jobs.FewAheadIsSelected | app/core/jobs/worker.py:89-97 | a due job is in every answer of the candidate query when fewer than the limit are earlier or tied |
| Jobs.PageExists | app/core/jobs/worker.py:89-97 | the candidate query has an answer for every table, and it is not empty when a job is due |
| OutboxProtocol.OutboxExclusion | app/core/events/worker.py:109-129 | in every interleaving with aborts, two workers never hold the same event, the row a worker commits over is the row it locked, and `retry_count` is the number of committed failed attempts |
| OutboxProtocol.LockStep | app/core/events/worker.py:115-129 | every step keeps exclusion and: a held row is PENDING, was due when locked, and is as it was read |
| OutboxProtocol.RetriesMatchStatus | app/core/events/worker.py:154-176 | a row is FAILED exactly when its committed failures have reached the limit, and they never exceed it |
| OutboxProtocol.RowStep | app/core/events/worker.py:154-176 | every step keeps each row in agreement with its history of failures: number, spacing by the backoff, and present due time |
| OutboxProtocol.DeadLetterTiming | app/core/events/worker.py:158-176 | whatever the jitters and interleavings, a FAILED event's last attempt was locked at least 2^N - 2 s (N up to 12), then 3600 s more for each further retry, after its first one ended |
| OutboxProtocol.ScheduledDelays | app/core/events/worker.py:172-176 | the delays scheduled for an event add up to between the sums of the backoffs with no jitter and with 5 s |
| OutboxProtocol.Drain | app/core/events/worker.py:115-176 | without new publishes each commit uses an attempt: there are at most as many commits as attempts are left, in any interleaving, and rows that have ended stay |
| OutboxProgress.WorkIsBounded | app/core/events/worker.py:115-129 | without new publishes, workers in any interleaving take no more steps than attempts left and aborted ones allow: every run of theirs ends |
| OutboxProgress.MayCommitIffPending | app/core/events/worker.py:115-129 | and it does not end early: without new publishes another attempt can be committed if and only if some event is PENDING |
| OutboxProgress.ComesToRest | app/core/events/worker.py:115-176 | from every state with a worker, even if every handler keeps failing, a run leads to a table in which nothing is PENDING |
| OutboxProtocol.EndStatesArePermanent | app/core/events/worker.py:117-128 | a PROCESSED or FAILED row never changes again |
| OutboxProtocol.CommitMovesPast | app/core/events/worker.py:117-129 | while an event is due and unheld, the commit of an attempt locked since then takes exactly its own event out of those scheduled no later |
| OutboxProtocol.BoundedOvertaking | app/core/events/worker.py:115-129 | without new publishes, a due event that nobody locks waits for at most as many commits, by any number of workers, as there are events scheduled no later plus attempts already under way |
| OutboxDelivery.Delivery | app/core/events/worker.py:131-157 | with distinct names: each handler succeeds at most 1 + aborted attempts times; PROCESSED means every handler is recorded ok and has succeeded, exactly once if nothing was aborted |
| OutboxDelivery.DeliveryIffDistinctNames | app/core/events/dispatcher.py:72-86 | PROCESSED implies that every handler has succeeded, in all reachable states, if and only if no event type has two handlers of the same name |
| OutboxDelivery.SharedNameLosesHandler | app/core/events/worker.py:142-157 | for every registry with a shared name, a reachable state in which the event is PROCESSED and one of its handlers has never succeeded |
| OutboxDelivery.NotRepeatedIffDistinctNames | app/core/events/worker.py:142-152 | no handler succeeds more than 1 + aborted attempts times, in all reachable states, if and only if no event type has two handlers of the same name |
| OutboxDelivery.SharedNameRunsTwice | app/core/events/worker.py:142-152 | for every registry with a shared name, a reachable state in which a handler has succeeded twice although no attempt was aborted |
| OutboxDelivery.OkIsFinal | app/core/events/dispatcher.py:72-75 | once a committed row records a handler as ok it stays so and its number of calls never changes again, shared names or not |
| OutboxDelivery.CallsStep | app/core/events/dispatcher.py:72-86 | every step keeps one count of calls for each registered handler of the event |
| OutboxDelivery.BalancesStep | app/core/events/worker.py:131-157 | every step keeps the balance of each handler's successes: recorded or in flight, plus at most one for each abort |
| OutboxBatchSelect.BatchSelectDoubleDispatches | app/core/events/worker.py:110-114 | with one ordered and limited select for the batch and commits inside the loop, two workers reach a double dispatch of a still due event, from any table with two due events, for any handlers and whatever those of the first event do |
| Outbox.MergedOk | app/core/events/worker.py:142-152 | after a complete dispatch of distinct handlers, one is recorded ok exactly when it already was or has just succeeded |
| Outbox.MergeSets | app/core/events/worker.py:144-150 | the last result run under a name decides its entry |
| Outbox.MergeKeeps | app/core/events/worker.py:144-150 | entries of names that were skipped or not reported are untouched |
| Outbox.BackoffIsMonotoneFrom3 | app/core/events/worker.py:172-175 | for all jitters the next delay is no shorter, exactly from the third failure on |
| Outbox.BackoffSumClosedForm | app/core/events/worker.py:172-175 | the least total delay after n failures is 2^(n+1) - 2 s up to n = 11, then 4094 + 3600 (n - 11) s |
| OutboxWorker.EventDispatcher.Register | app/core/events/dispatcher.py:42-50 | appends the handler to its event type and leaves the other types alone |
| OutboxWorker.EventDispatcher.Dispatch | app/core/events/dispatcher.py:52-88 | calls exactly the handlers that are not completed, in order and each once, failures notwithstanding; one result for each handler, a skipped success for a completed one and otherwise what the call raised |
| OutboxWorker.ToRunOnce | app/core/events/dispatcher.py:72-86 | each position that is not completed is in that order exactly once, and no other |
| OutboxWorker.OutboxWorker.MergeResults | app/core/events/worker.py:142-150 | the loop computes the merged `handler_state` that the lemmas of `Outbox` are about |
| OutboxWorker.OutboxWorker.HandleEvent | app/core/events/worker.py:131-186 | the whole new row of one attempt, from the results that report the calls of its dispatch, with clock reads made after those calls and the jitter that was drawn |
| Outbox.HandledMeans | app/core/events/worker.py:151-176 | the columns of that row: PROCESSED with its time, or one more retry with the summary and FAILED at the limit, due again after the backoff below it; all others are kept |
| Outbox.SummaryJoinsFailures | app/core/events/dispatcher.py:32-35 | `last_error` is the failed handlers' lines, in order, joined by the separator |
| Outbox.EntryOf | app/core/events/worker.py:147-149 | an entry has the outcome, the time, and the first 500 characters of an error that is not empty |
| Outbox.BackoffInMicroseconds | app/core/events/worker.py:172-175 | 2^k s plus a jitter of up to 5 s for the first eleven failures, an hour from the twelfth on |
| OutboxWorker.OutboxWorker.ProcessBatch | app/core/events/worker.py:115-129 | with one worker: at most fifty attempts, each on the earliest due row of the table left by the one before, each with the calls of its own dispatch and no others; it stops early only when nothing is due |
| OutboxWorker.AttemptUsesOne | app/core/events/worker.py:154-176 | every attempt of that loop uses up an attempt left |
| Outbox.NextExists | app/core/events/worker.py:117-127 | the select finds a row whenever one is due and not locked |
| Pipeline.NoSilentStaleness | app/tracking/event_handlers/recompute_passes.py:23-38 | in every run of ingests, attempts, crashes and retries without overlapping refreshes of one satellite, where a recompute selects the satellite again for each station and may meet a newer TLE half way: for every station listed at a satellite's last recompute the stored rows are the passes of its present TLE, or its newest refresh event is not PROCESSED |
| Pipeline.NoSilentStalenessWithOneWorker | app/core/events/worker.py:115-157 | the same with at most one outbox worker, with no hypothesis on the run |
| PipelineConvergence.QuietRunConverges | app/core/events/worker.py:115-176 | without ingests and publishes, and if refreshes of one satellite do not overlap: at most as many commits as attempts were left, another commit is possible exactly while an event is PENDING, and when none is possible every satellite is fresh or its newest refresh event is FAILED |
| PipelineConvergence.ConvergesWithOneWorker | app/core/events/worker.py:115-176 | the same after any run of one outbox worker, with no hypothesis on overlaps; and from every state of a quiet run that end can be reached |
| PipelineConvergence.ProjectionRuns | app/core/events/worker.py:115-129 | the outbox part of every pipeline run is a run of the outbox protocol, so what is proved of all of those holds here |
| Pipeline.CoverKept | app/core/events/worker.py:131-176 | the newest event of a satellite that owes it a recompute keeps owing it through every step but the success of its own recompute or an ingest that publishes a newer one |
| Pipeline.CoveredStep | app/tracking/use_cases/ingest_tles.py:27-57 | every step keeps every satellite fresh or owed a recompute by some event |
| Pipeline.SessionStep | app/tracking/use_cases/compute_passes.py:36 | every step keeps: a handler that has loaded, for any station, a row since replaced is covered by an event other than its own |
| Pipeline.IngestCovers | app/tracking/use_cases/ingest_tles.py:52-57 | every satellite that an ingest writes has, in the same commit, its newest refresh event, which owes it a recompute |
| Pipeline.FreshKept | app/tracking/use_cases/compute_passes.py:57-71 | a satellite whose row does not change stays fresh through every step but a recompute of its own |
| PipelineOverlap.OverlapGoesStale | app/core/events/worker.py:117-124 | for any two of any set of outbox workers, a run that ends with every event PROCESSED and predictions of the replaced TLE |
| PipelineOverlap.KeepUpIffAtMostOneWorker | app/core/events/worker.py:109-129 | in all configurations and runs every satellite is fresh or its newest refresh event is not PROCESSED, if and only if there is at most one outbox worker |
| Ingest.Session.Publish | app/core/events/bus.py:19-47 | adds one PENDING event with the column defaults to the transaction and commits nothing |
| Ingest.Upsert | app/tracking/use_cases/ingest_tles.py:28-51 | creates, updates or skips as the stored lines say; the other rows are untouched |
| Ingest.Execute | app/tracking/use_cases/ingest_tles.py:24-58 | returns the number of row writes, with one event for each of them, in order, in the same session |
| Ingest.RecordIsStored | app/tracking/use_cases/ingest_tles.py:28-51 | a record is skipped exactly when its satellite is stored with these lines; otherwise name, lines and their epoch are stored, in the satellite's row or a new one, and no other row changes |
| Ingest.EventsName | app/tracking/use_cases/ingest_tles.py:52-56 | each event is a PENDING `tle.refreshed` with the id and catalogue number of its satellite, 8 retries and the transaction's time |
| Ingest.TleRefresh | app/core/jobs/handlers/tle_refresh.py:16-33 | both tables change together or not at all; a rate limit is a clean no-op, any other error reaches the job worker |
| Ingest.Find | app/tracking/use_cases/ingest_tles.py:28-29 | the row of a catalogue number, or none exactly when no row has it |
| Ingest.OneEventPerChange | app/tracking/use_cases/ingest_tles.py:26-58 | events are as many as records that differ from what precedes them: the last earlier record of that satellite, or the stored lines |
| Ingest.LastRecordWins | app/tracking/use_cases/ingest_tles.py:27-51 | after a committed ingest a listed catalogue number has the lines of its last record |
| Ingest.UnlistedUntouched | app/tracking/use_cases/ingest_tles.py:27-51 | a catalogue number that no record lists keeps its rows, or its absence |
| Ingest.NoWriteIffStored | app/tracking/use_cases/ingest_tles.py:40-51 | an ingest writes nothing exactly when every record's lines are stored already |
| Ingest.RerunIsSilentIffAgree | app/tracking/use_cases/ingest_tles.py:24-58 | running a committed ingest again on the same records succeeds and publishes nothing exactly when records of one satellite agree |
| Ingest.RerunPublishesUnlessAgree | app/tracking/use_cases/ingest_tles.py:24-58 | on a table whose epochs can be read the second run always succeeds, and publishes exactly when some records of one satellite differ |
| Ingest.IngestReads | app/tracking/use_cases/ingest_tles.py:30-49 | a committed ingest leaves every stored row with readable lines, and has read all of its records |
| RefreshJob.CurrentStep | app/core/jobs/handlers/tle_refresh.py:18-32 | with a lease that covers a run, an open refresh transaction has read and written what it would if it were alone on what is stored now, so its commit loses no update |
| RefreshJob.RerunsStoreOnce | app/core/jobs/worker.py:66-163 | on agreeing records, if the lease covers a run or the first write inserts: in every interleaving of any number of workers with crashes before or after the commit, recoveries, reruns and overlapping transactions, the database holds what it held before or exactly what one ingest leaves |
| RefreshRuns.PublishesOnceIff | app/core/jobs/worker.py:127-163 | all runs of the job together publish at most one event for each change in the data, in every reachable state and for any lease, if and only if records of one satellite agree and the lease covers a run or the first row to be written is new, or the data cannot be ingested |
| RefreshRuns.CommitTwice | app/core/jobs/worker.py:144-163 | a crash between commit and reschedule, the recovery by another worker, and its second commit on the same data |
| RefreshRuns.OverlapPublishesTwice | app/tracking/use_cases/ingest_tles.py:40-56 | with a lease shorter than a run and a first write that updates, two overlapping transactions publish the same update twice |
| IngestSteps.WritesAreIngest | app/tracking/use_cases/ingest_tles.py:27-57 | record by record, a transaction that nobody interferes with does exactly what the ingest as a whole is specified to do |
| Predictions.PredictionRepo.DeleteForSatelliteAndStation | app/tracking/repos/pass_prediction.py:26-35 | removes exactly the rows of the pair |
| Predictions.PredictionRepo.Create | app/tracking/models/pass_prediction.py:14-20 | inserts the row unless satellite, station and rise are taken |
| Predictions.PredictionRepo.ListForGroundStation | app/tracking/repos/pass_prediction.py:13-24 | exactly the station's rows that rise from the given instant on, each once, in the order of their rise |
| Predictions.Execute | app/tracking/use_cases/compute_passes.py:27-72 | stores every pass, whole, under its satellite, station and rise, and no other row of the pair; other pairs are untouched. Fails exactly for an unknown satellite or station, or when two passes share a rise |
| Predictions.RowsForHolds | app/tracking/use_cases/compute_passes.py:60-71 | with different rises, each pass is found whole under its own key |
| Predictions.WindowIs48Hours | app/tracking/event_handlers/recompute_passes.py:31-32 | the passes are those of the 48 hours from the handler's clock read |
| Predictions.RecomputePasses | app/tracking/event_handlers/recompute_passes.py:23-38 | all stations in one transaction, with nobody else writing: succeeds exactly when each of them does, and otherwise commits nothing |
| Predictions.RecomputedRow | app/tracking/event_handlers/recompute_passes.py:34-38 | row by row: a recomputed pair has exactly the passes of the satellite's row that was loaded for that station, every other row is as it was |
| Predictions.OrderDoesNotMatter | app/tracking/event_handlers/recompute_passes.py:33-37 | the resulting table depends on the set of stations only |
| Predictions.RecomputeIsIdempotent | app/tracking/event_handlers/recompute_passes.py:19-21 | recomputing twice for the same window and TLEs is recomputing once |
| Predictions.RisesAreDistinct | app/tracking/models/pass_prediction.py:14-20 | with events in increasing time the unique constraint is never violated |
| Passes.FindPasses | app/tracking/services/passes.py:67-94 | the loop emits exactly the complete passes of any event sequence, in order, with the times of their rise, peak and set; a pass is defined by the codes 0, 1 and 2 of the events |
| Passes.SpansAreSpans | app/tracking/services/passes.py:70-93 | the listed spans are all and only the rise-to-set stretches with no other rise or set inside and at least one culmination, the last being the peak; none overlap |
| Passes.PassesAreOrdered | app/tracking/services/passes.py:70-94 | with increasing times each pass rises, peaks and sets in that order, and rises after the previous one has set |
| Passes.SliceFindsPassesInside | app/tracking/services/passes.py:67-94 | on any slice of the events the passes are exactly those wholly inside it |
| Passes.ComputePasses | app/tracking/services/passes.py:49-94 | which guard rejects which arguments, in which order, and that everything else gives exactly the passes |
| Sampling.SampleInstants | app/tracking/services/passes.py:120-126 | exactly `count` instants from start to end, each the half-even rounded point |
| Sampling.TiesGoToEven | app/tracking/services/passes.py:124 | a point half way between two microseconds is rounded to the even one |
| Sampling.LastInstantIsEnd | app/tracking/services/passes.py:125 | the last rounded instant is the end already, so the overwrite changes nothing |
| Sampling.InstantIsNearest | app/tracking/services/passes.py:124 | every instant is within half a microsecond of the exact point |
| Sampling.InstantsAreNonDecreasing | app/tracking/services/passes.py:124 | the instants never go back |
| Sampling.StrictIffRoom | app/tracking/services/passes.py:120-126 | no two instants coincide exactly when the span has a microsecond for each step |
| TleText.ParseRecords | app/core/celestrak/drivers/http.py:70-84 | the parser on every string: which records, or which error: not found exactly for a blank body and for the one that says so |
| TleText.WhiteSpace | app/core/celestrak/drivers/http.py:71-75 | which characters `strip` removes and which ones `splitlines` breaks at |
| TleText.ParseGroups | app/core/celestrak/drivers/http.py:76-84 | the index loop accepts exactly the lines that come in threes with their prefixes |
| TleText.ParseReadsLines | app/core/celestrak/drivers/http.py:71-84 | the result depends only on the right-trimmed non-blank lines of the body, and success consumes all of them in threes |
| TleText.RenderedParses | app/core/celestrak/drivers/http.py:70-84 | parsing a rendered non-empty list of well-formed records gives it back |
| TleText.RoundTripIff | app/core/celestrak/drivers/http.py:70-84 | a list survives rendering and parsing exactly when it is not empty and well formed |
| TleText.ParsedIsWellFormed | app/core/celestrak/drivers/http.py:75-84 | whatever the parser accepts is a non-empty list of well-formed records |
| TleText.ParseIsStable | app/core/celestrak/drivers/http.py:70-84 | rendering what was read and reading it again gives the same records |

## Left out

- DeadLetterTiming: is measured from the end of the first attempt to the lock of the last one and says nothing for a limit of one, where there is a single attempt.
- RecoveredJobIsRead: the job being unclaimed when the query runs is a hypothesis, because another worker may win it first.
- DueJobRunsWithinItsRank: is for one worker whose sessions do not raise; several workers, and polls that an exception cuts short, are not considered.
- NoSilentStaleness: supposes that refreshes of one satellite do not overlap; `KeepUpIffAtMostOneWorker` says for how many workers that needs no supposition. A dead-lettered newest event counts as not PROCESSED: the staleness it leaves is on record.
- HandleEvent: what each handler does is a free outcome here; the effect of `recompute_passes` is in `Predictions` and `Pipeline`.
- ProcessBatch: is the loop of one worker alone; several are the subject of `OutboxProtocol`.
- ExecuteJob: is one worker alone; interference is the subject of `JobProtocol`.
- Concurrent ingests: in `Pipeline` an ingest commit is one step on the committed table. Overlapping ones are the subject of `RefreshJob`, where `tle_refresh`, the only writer of satellites, reads and writes record by record at READ COMMITTED. There an update writes the whole row, and a record's select sees the transaction's own writes and what is committed, never an ORM instance kept from the record before.
- Sessions of the recompute handler: each station's select sees what is committed by then (READ COMMITTED, and nothing keeps the previous ORM instance alive). Deletes and inserts take effect in one step with the commit, and that commit stands even if the handler is cancelled right after.
- Postgres itself: a conditional update, and the select that locks one committed row, are atomic steps; a rollback drops a transaction's writes.
- Orbit computation (skyfield, SGP4), elevations, ground-track geometry and their storage: the events are an input of the pass loop, so nothing is claimed about the greatest elevation, only about the last culmination.
- The digits of the catalogue number and the epoch inside a TLE: what the lines encode, or that they cannot be read, is an input of the ingest.
- HTTP fetching and its status codes, the API, health, startup, migrations, deployment and configuration other than the lease.
- LISTEN/NOTIFY and reconnecting: the poll is the trigger; `pg_notify` is not modelled.
- Clock skew between hosts and floating point: jitter is a whole number of microseconds, and powers of two never overflow.
- Columns that no decision reads: `created_at`, `updated_at`, `aggregate_id`, `correlation_id`, `description`, generated ids.
- `list_in_bbox`, `list_paginated`, registries, and the register and list use cases, which would only add easy members.
