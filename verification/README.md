# Longbox: a verified model of its stateful core

Longbox is a self-hosted comic and book server. This project models the parts of it whose
correctness depends on more than one step: the migrations that rebuild tables, the job runner,
the download pipeline, the processes of local plugins, the WebSocket keepalive, and a few
transformations of data that must not lose or reorder anything.

Where the program changes things in place, the model has a class whose methods follow the code
statement by statement, and each method is tied to a function of the state it started from.
Where callers interleave, the model is a system of steps, and the results hold for every run.
What the network, the disk, the database and other processes answer is always an input.

| file | models |
|---|---|
| `CalendarDrain.dfy` | any number of servers running the release-calendar migration at once |
| `ReadingSessions.dfy` | the renumbering of two reading-session tables into one |
| `JobRunner.dfy`, `JobLifecycle.dfy` | the worklist loop of a job; job rows and cancellation tokens over restarts |
| `DownloadQueue.dfy`, `DownloadStream.dfy`, `Placement.dfy`, `Download.dfy` | draining the queue, streaming a body to a file, putting the file in place, and the last two together |
| `Sweep.dfy` | the pull-list pass that fills the queue |
| `PluginProcesses.dfy` | concurrent start, stop and stop-all of plugin processes |
| `Keepalive.dfy` | the ping and pong timers of a socket |
| `Upload.dfy` | taking files out of GraphQL variables |
| `Pagination.dfy` | offset and cursor pages |
| `MetadataPool.dfy` | the backfill of provider links |
| `Omnibus.dfy`, `Existence.dfy`, `FileHash.dfy` | the omnibus name test, the missing-file sweep, the sampled hashes |
| `Wrappers.dfy`, `Decimal.dfy`, `Ascii.dfy` | optional values and bytes, numerals, letters without case |

`dafny verify dfyconfig.toml` checks the whole project.

## What does not hold as written

Some statements one would expect, or that a comment makes, are not true of the code. The model
keeps the code, shows an instance, and proves when the statement does hold.

- Recorded progress is less than one update interval behind the file exactly when the latest
  update due was accepted: a failed one is not tried again until another interval has passed
  (`DownloadStream.NeverFarBehindIff`, `LateUpdate`).
- Nothing resets `progress_bytes` when a download is approved again. The progress a row shows falls
  in some download, when the stream records its first figure or when the download completes, and
  is ahead of the file in some download, unless it starts from zero:
  `DownloadStream.ShownProgressNeverFallsIff` and `ShownProgressFallsOnCompletion`,
  `ShownProgressIsNeverAheadIff` and `ShownProgressRunsAhead`. While the body streams it can fall
  only from more than one interval: `StreamedProgressNeverFallsIff`, `StreamedProgressFalls`.
- A download cancelled half-way is written as Cancelled and then, by `execute_task`, as Failed,
  if that write goes through: `DownloadQueue.CancelledTransferEndsFailedIff` and
  `CancelledTransferEndsFailed`.
- A cancel that arrives during a job's last task is too late, and the job completes:
  `JobRunner.CancelIsHonouredBeforeATask`, `LateCancel`.
- A `finalize` or database error leaves the row Running until the next boot:
  `JobLifecycle.AbandonedJobWaitsForTheNextBoot`, `AbandonedJob`.
- `stop_all` does not stop a plugin whose start is still in flight. After it returns a child may be
  alive, without a new start, exactly when some start has not got its child yet or holds one that
  is alive: `PluginProcesses.StopAllIsFinalIff`. `StartInFlightOutlivesStopAll` is a run in which a
  child registers itself afterwards.
- One sweep can queue two files for one issue. It cannot exactly when the wanted entries it gets
  to are for different issues: `Sweep.OneFileForEachIssueIff`, `OneIssueMayBeQueuedTwice`.
- Two files of an upload can be recorded at one path, exactly when a key has a dot in it:
  `Upload.WrittenPathsDifferIff`, `CollisionCollides`.
- A page number so large that the offset exceeds 64 bits shows earlier rows again, in a build
  without overflow checks: `Pagination.PageThatWrapsAround`, `Pagination.PastTheLastPageIff`. The
  comments on `OffsetPaginationInfo` call `current_page` zero-indexed and count its offset from
  there; the code copies the page as it was given.

## Model

| member | source | states |
|---|---|---|
| CalendarDrain.NoReleaseIsEverLost | crates/migrations/src/m20260815_020000_calendar_all_releases.rs:111-221 | in every state of every interleaving of any number of runners, each legacy row is still in its table unchanged or its identity is in the calendar |
| CalendarDrain.CalendarOnlyGrows | crates/migrations/src/m20260815_020000_calendar_all_releases.rs:78-84 | in every step of every run, an identity has one calendar entry, and an entry that is there stays as it is |
| CalendarDrain.FinishedRunnerMeansSingleRunnerResult | crates/migrations/src/m20260815_020000_calendar_all_releases.rs:45-116 | once any runner finishes, the calendar is the one a single runner would have made, no legacy table is left and no other table was touched |
| CalendarDrain.SomeRunnerFinishes | crates/migrations/src/m20260815_020000_calendar_all_releases.rs:180-221 | a table vanishing under a runner aborts it, but once all runners have halted at least one of them has finished |
| CalendarDrain.EveryRunEnds | crates/migrations/src/m20260815_020000_calendar_all_releases.rs:111-113 | every interleaving of n runners ends after at most 10 n statements |
| CalendarDrain.RedrainIsIdempotent | crates/migrations/src/m20260815_020000_calendar_all_releases.rs:208-214 | draining a table that has been drained before changes nothing |
| CalendarDrain.InsertRowsLookup | crates/migrations/src/m20260815_020000_calendar_all_releases.rs:210-213 | after INSERT OR IGNORE an identity has the entry it had before, else the first of the inserted rows with it |
| CalendarDrain.SelectTakesLowestId | crates/migrations/src/m20260815_020000_calendar_all_releases.rs:197-213 | the select offers an identity exactly when the table has it, from its row of lowest id, column by column: a series id that resolves is kept and any other is NULL, the labels are kept if the table has them, all else is copied |
| CalendarDrain.SingleRunnerResultEntries | crates/migrations/src/m20260815_020000_calendar_all_releases.rs:180-221 | entry by entry, the result is the existing entry, else the one of expected_issues, else the one of expected_issues_new, else nothing; an entry of a legacy table carries over its row of lowest id, column by column |
| CalendarDrain.DownThenUpKeepsBoundReleases | crates/migrations/src/m20260815_020000_calendar_all_releases.rs:118-169 | down and then up carries over exactly the bound releases, column by column, without their series labels |
| CalendarDrain.Database.ExecuteInsertSelect | crates/migrations/src/m20260815_020000_calendar_all_releases.rs:208-214 | the row-by-row insert is the statement's function, and fails without effect when the table is gone |
| CalendarDrain.Database.DrainLegacyTable | crates/migrations/src/m20260815_020000_calendar_all_releases.rs:180-221 | an absent table is a no-op; a present one is merged into the calendar and dropped |
| CalendarDrain.Database.Up | crates/migrations/src/m20260815_020000_calendar_all_releases.rs:45-116 | from any state a crashed or aborted run left behind, one more run succeeds and completes the migration the first runner began |
| ReadingSessions.RowNumberMonotone | crates/migrations/src/m20260519_192218_reading_sessions_v2.rs:146-149 | an earlier row of a partition has the smaller row number |
| ReadingSessions.RowNumberIsBijection | crates/migrations/src/m20260519_192218_reading_sessions_v2.rs:146-149 | a partition of n rows is numbered by exactly 1 to n, none twice |
| ReadingSessions.ReadthroughsAreOneToN | crates/migrations/src/m20260519_192218_reading_sessions_v2.rs:111-221 | the readthroughs of each user and book are numbered by exactly 1 to n, none twice, none missing |
| ReadingSessions.NumbersFollowTheReading | crates/migrations/src/m20260519_192218_reading_sessions_v2.rs:146-200 | finished rows are numbered in the order (completed, started, id), active ones by (started, id), every active one after every finished one |
| ReadingSessions.ReadingTimeIsConserved | crates/migrations/src/m20260519_192218_reading_sessions_v2.rs:145-196 | the seconds read by each user on each book are the same before and after |
| ReadingSessions.FinishedSession | crates/migrations/src/m20260519_192218_reading_sessions_v2.rs:134-156 | every column a finished row gets: its shelf, seconds and two timestamps, the day it was completed, 0 to 1, and no place |
| ReadingSessions.ActiveSession | crates/migrations/src/m20260519_192218_reading_sessions_v2.rs:185-207 | every column an active row gets: its shelf, seconds, place and start, and its last update or else its start, with that day |
| ReadingSessions.Database.CountBefore | crates/migrations/src/m20260519_192218_reading_sessions_v2.rs:146-149 | counting the rows before a row, one by one, gives its row number |
| ReadingSessions.Database.GroupCounts | crates/migrations/src/m20260519_192218_reading_sessions_v2.rs:208-217 | the grouped count is the number of finished rows of every pair, zero for pairs with none |
| ReadingSessions.Database.Up | crates/migrations/src/m20260519_192218_reading_sessions_v2.rs:111-231 | every legacy row becomes exactly one session, with the number the window functions give it, and the legacy tables are gone |
| JobRunner.PreorderVisitsEveryTask | core/src/job/run.rs:54-82 | the preorder of a task forest has as many entries as the forest has tasks |
| JobRunner.PopAndPush | core/src/job/run.rs:65-72 | replacing the head of the deque by its subtasks leaves the rest of the preorder, one task shorter |
| JobRunner.WorkerState.PushFront | core/src/job/run.rs:69-71 | pushing the subtasks in reverse puts them before the deque in their own order |
| JobRunner.NextTask | core/src/job/run.rs:54-81 | each turn of the loop keeps tasks run plus tasks reachable equal to the whole preorder, or ends the run at the first cancelled or failing position |
| JobRunner.WorkerState.RunTasks | core/src/job/run.rs:46-82 | the loop ends, has run the preorder or the prefix of it before its first stop, and has folded the outputs and logs of exactly those tasks |
| JobRunner.WorkerState.RunJob | core/src/job/run.rs:24-87 | the worker is left as the run's ending and the database's answers decide, the result reports the same ending, and a job that ran to its end has its folded output in its row |
| JobRunner.RunResolvesOrLeavesRunning | core/src/job/run.rs:37-86 | a job ends Completed, Failed or Cancelled with no token, exactly in the stated cases, or its row is untouched and keeps the token; a Completed row has the fold of the outputs over the preorder, any other the output it had; the logs added are those of init and the tasks, with the job's id; other rows never change |
| JobRunner.FoldKeepsTheOrder | core/src/job/run.rs:65-68 | where updating is appending, the fold is the start followed by the outputs in their order, each once |
| JobRunner.LogsKeepTheOrder | core/src/job/run.rs:65-69 | the logs are those of init followed by those of the tasks in their order |
| JobRunner.CancelIsHonouredBeforeATask | core/src/job/run.rs:54-58 | a cancel ends the run exactly when it is seen before some task, all before which succeeded without one; and a run with no cancel and no failure runs all tasks |
| JobRunner.FailureEndsTheRun | core/src/job/run.rs:74-80 | the first failing task ends the run after exactly the tasks before it |
| JobRunner.LateCancel | core/src/job/run.rs:54-84 | a job of one task, cancelled while that runs, which runs to its end |
| JobRunner.WorkerState.NewContext | core/src/job/state.rs:106-142 | the row is Running and the token registered, or nothing changed |
| JobRunner.WorkerState.CancelJob | core/src/job/state.rs:62-69 | answers whether there is a token, and cancels that one only |
| JobRunner.WorkerState.CancelIslandedJobs | core/src/job/state.rs:72-89 | every Running row becomes Cancelled, no other row changes, and none is Running, or nothing changed |
| JobRunner.WorkerState.Fail | core/src/job/state.rs:244-265 | the status is written and the token dropped, or neither |
| JobRunner.WorkerState.Cancel | core/src/job/state.rs:268-270 | the row is Cancelled and the token dropped, or neither |
| JobRunner.WorkerState.Complete | core/src/job/state.rs:198-241 | logs, output and status are written and the token dropped; a failed write keeps the token and the row's status |
| JobLifecycle.StepKeepsInv | core/src/job/state.rs:62-142 | every database statement, token operation, request, crash and boot keeps the link between rows, tokens and handlers |
| JobLifecycle.StatusNeverGoesBack | core/src/job/state.rs:198-270 | over every run and restart a status moves at most once, from Running to a terminal one, and a deleted job never returns |
| JobLifecycle.ClosedJobsHoldNoToken | core/src/job/state.rs:238-262 | once complete or fail has finished for a job it never has a token again and its row is resolved or deleted |
| JobLifecycle.CancelSticks | core/src/job/state.rs:62-69 | a request to cancel that finds a token cancels it for as long as it is there |
| JobLifecycle.CancelledOnRequest | core/src/job/state.rs:130-134 | a token is cancelled only if somebody asked for that |
| JobLifecycle.DeletedIsGone | crates/graphql/src/mutation/job.rs:51-83 | a deleted job, or one that was not Running when the history was deleted, is gone for good |
| JobLifecycle.OthersAreKept | crates/graphql/src/mutation/job.rs:51-83 | deleting a job keeps the others, and deleting the history keeps the Running ones |
| JobLifecycle.RunningJobsAreNewerThanTheBoot | core/src/job/state.rs:72-89 | at any time after a boot, a Running row belongs to a job dispatched since, however earlier runs ended |
| JobLifecycle.StartIsAPath | core/src/job/state.rs:106-142 | registering a job in the runner's model is the two registration steps of this one |
| JobLifecycle.RunEndsOnAPath | core/src/job/run.rs:37-86 | whatever ending the runner's model gives a run, it is resolving and releasing, or giving up |
| JobLifecycle.RecoveryIsTheBoot | core/src/job/state.rs:72-89 | recovery in the runner's model is what a boot does to the rows of this one |
| JobLifecycle.RunningJobsCanBeCancelled | core/src/job/state.rs:62-69 | while the server is up each Running row has a token for a cancel to find, except between its two registration steps |
| JobLifecycle.AbandonedJobWaitsForTheNextBoot | core/src/job/run.rs:84-86 | a job given up after a finalize or database error stays Running until the next boot, which cancels it |
| JobLifecycle.AbandonedJob | core/src/job/run.rs:84-86 | a run in which a job is given up and its row is Running with nobody to resolve it |
| DownloadQueue.Queue.Init | core/src/download/mod.rs:203-226 | the tasks are the rows Approved now, each once |
| DownloadQueue.Queue.Mark | core/src/download/mod.rs:286-302 | one update: only this row's status changes, and a missing row is an error |
| DownloadQueue.Queue.DownloadOne | core/src/download/mod.rs:305-377 | makes exactly its updates and its transfer, with the rows before and after each, and succeeds exactly when both updates find the row and the file is placed, leaving the row Completed with its size |
| DownloadQueue.Queue.ExecuteTask | core/src/download/mod.rs:228-282 | re-reads the row, and then makes no other statement unless it is Approved; otherwise exactly the download's and, if that fails, the one that marks it Failed |
| DownloadQueue.Queue.RunTasks | core/src/job/run.rs:54-81 | the run gets to the first task before which it is cancelled or whose re-read fails; totals and statements are those of the tasks before it |
| DownloadQueue.Queue.Drain | core/src/download/mod.rs:175-282 | the tasks are the rows Approved when listed, each once, and the history grows by the listing and the statements of the tasks reached |
| DownloadQueue.CountsAreConserved | core/src/download/mod.rs:175-181 | completed + failed is the number of rows still Approved when re-read, completed the number of those whose fetch and writes went through, bytes the sum of their sizes, whatever others do to the rows |
| DownloadQueue.CancelledTransferEndsFailedIff | core/src/download/mod.rs:258-274 | a transfer cancelled half-way is marked Downloading, Cancelled and Failed in turn, and with nobody in between ends Cancelled exactly when the last write fails |
| DownloadQueue.CancelledTransferEndsFailed | core/src/download/mod.rs:258-274 | one in which every write is accepted, and the row ends Failed |
| DownloadQueue.PlacedTransfer | core/src/download/mod.rs:305-377 | an approved row whose file is placed is marked Downloading and then Completed with its size, or Failed if that update finds it gone or is refused |
| DownloadQueue.BrokenTransfer | core/src/download/mod.rs:258-274 | an approved row whose transfer breaks, or that cannot be marked, ends with the update that marks it Failed |
| DownloadQueue.RowsNoLongerApprovedAreLeftAlone | core/src/download/mod.rs:236-257 | a row found cancelled, deleted or otherwise changed is the same before and after every statement of the run, is not fetched, and counts for nothing |
| DownloadQueue.TouchedAfterApproval | core/src/download/mod.rs:236-259 | a statement that changes a row, or a transfer of its file, comes after a re-read that found that row Approved, and the row was a task |
| DownloadQueue.TaskTouchesItsRow | core/src/download/mod.rs:228-282 | a task changes and fetches no row but its own |
| DownloadStream.Transfer.StreamToFile | core/src/download/mod.rs:473-537 | success exactly when the source opens, the file is created, every chunk arrives uncancelled and is written, all together are at most the ceiling, and the end is neither cancelled nor fails to flush; TooLarge exactly when the first turn to go wrong takes the body over the ceiling; after every turn the file is the chunks so far and the row shows the latest figure accepted |
| DownloadStream.Transfer.TakeChunk | core/src/download/mod.rs:509-530 | one chunk goes through exactly when the body so far is at most the ceiling and the write succeeds; then an update exactly when an interval is full |
| DownloadStream.SmoothIff | core/src/download/mod.rs:491-531 | the loop meets no problem exactly when no turn is cancelled, broken or fails to write and the chunks together are at most the ceiling |
| DownloadStream.LeftoverIs | core/src/download/mod.rs:509-518 | a failed write leaves as much of its chunk as was saved in the file, any other failure nothing |
| DownloadStream.BehindByLessThanAnIntervalIff | core/src/download/mod.rs:520-530 | the recorded figure is never ahead of the file, and less than an interval behind exactly when the latest update due was accepted |
| DownloadStream.NeverFarBehindIff | core/src/download/mod.rs:520-530 | it is less than an interval behind after every turn exactly when every update due is accepted |
| DownloadStream.RecordedFigures | core/src/download/mod.rs:520-530 | recorded figures never fall, and the first is at least one interval |
| DownloadStream.StreamedProgressNeverFallsIff | core/src/download/mod.rs:520-530 | while the body streams, the progress a row shows never falls, in any stream, exactly when what it showed before is at most one interval |
| DownloadStream.ShownProgressNeverFallsIff | core/src/download/mod.rs:348-366 | over a whole download, final update included, the progress a row shows never falls, in any stream, exactly when it starts from zero |
| DownloadStream.StreamedProgressFalls | core/src/download/mod.rs:520-530 | for more than one interval, a stream of one chunk in which it falls |
| DownloadStream.ShownProgressFallsOnCompletion | core/src/download/mod.rs:348-366 | for any start but zero, a body of one chunk on whose completion it falls |
| DownloadStream.LateUpdate | core/src/download/mod.rs:520-530 | a stream of one chunk whose update is refused, which leaves the row one interval behind |
| DownloadStream.ShownProgressIsNeverAheadIff | core/src/download/mod.rs:520-530 | the progress a row shows is never ahead of the file, in any stream, exactly when it starts from zero |
| DownloadStream.ShownProgressRunsAhead | core/src/download/mod.rs:520-530 | for any other start, a stream of one chunk in which it is ahead |
| Placement.PartialNamesNeverCollide | core/src/download/mod.rs:338-340 | two rows with one partial name are the same row, whatever the file names |
| Placement.NamesDiffer | core/src/download/mod.rs:566-596 | partial, hidden and final name differ even in one directory |
| Placement.Disk.Rename | core/src/download/mod.rs:586-588 | a rename is one step of the disk's history: it moves the file or changes nothing |
| Placement.Disk.Copy | core/src/download/mod.rs:598 | a copy goes through every length the target has on the way, each a state of its own |
| Placement.Disk.MoveIntoPlace | core/src/download/mod.rs:585-619 | the disk goes through exactly these states, one call after the other, and success is exactly a rename, or a copy and a second rename |
| Placement.MoveIsSafe | core/src/download/mod.rs:585-619 | in each of those states the destination holds what it held or the whole new file, one whole copy of the download exists, and nothing else has changed |
| Placement.MoveEnds | core/src/download/mod.rs:585-619 | the move ends with the whole file in place, or with the destination and the source as they were |
| Placement.Disk.PlaceFile | core/src/download/mod.rs:544-570 | the same for the series directory or staging, by exactly the states of the move; an error leaves the partial whole and the destination untouched |
| Download.FetchAndPlace | core/src/download/mod.rs:321-353 | a download succeeds exactly when it is resolved, the stream is complete, the series can be read and the file is placed, with the whole body at the destination; the disk goes through exactly the states of the stream and the move |
| Download.OutcomeIs | core/src/download/mod.rs:491-501 | the queue is told of a cancelled transfer exactly when a cancel is the first thing to go wrong, and of a placed one exactly when the body is complete and placed |
| Download.CompletedRowHasItsFile | core/src/download/mod.rs:228-377 | a task counts as completed exactly when the row was Approved, both updates found it and the whole body was put in place; then the row is Completed with the body's size and the body is at its destination |
| Download.DestinationIsNeverHalf | core/src/download/mod.rs:331-353 | in every one of those states the destination holds its old content or, after a complete stream, the whole body |
| Download.FailedDownloadKeepsTheDestination | core/src/download/mod.rs:341-353 | a failed download leaves the destination as it was, and a failed placement the partial whole |
| Sweep.BestIsLastGreatest | core/src/download/sweep.rs:95-118 | the best candidate ranks at least as high as every other, and above every later one |
| Sweep.BestAgreesWheneverOneDoes | core/src/download/sweep.rs:95-118 | a number-agreeing candidate is picked whenever there is one, and it is the most confident of those |
| Sweep.BestIsMostConfidentThenLargest | core/src/download/sweep.rs:108-116 | among offers that agree as the pick does, the pick is the most confident, and of equally confident ones the largest |
| Sweep.TrimmedWord | core/src/download/sweep.rs:100-106 | exactly the leading hashes of a word are dropped before its number is compared |
| Sweep.OwnedNumbers | core/src/download/sweep.rs:47-83 | a number is listed for a series exactly when a live book of that series has it in its metadata |
| Sweep.ExpectedAreInWindow | core/src/download/sweep.rs:140-149 | the entries looked at are exactly those of followed series released in the window |
| Sweep.Sweeper.VisitAll | core/src/download/sweep.rs:171-255 | the loop, with its early exits, leaves the queue and the totals of the entry-by-entry pass |
| Sweep.Sweeper.Run | core/src/download/sweep.rs:120-271 | nothing is done when nobody follows a series; else the pass, and the queue job is enqueued exactly when something was approved |
| Sweep.SweepAddsOnlyWhatIsMissing | core/src/download/sweep.rs:162-255 | old rows are unchanged, new rows are for followed, unowned, unqueued issues in the window with the file, size and state of an offer, and added ≤ queued = found ≤ wanted ≤ max_per_run |
| Sweep.NoOwnedIssueIsQueued | core/src/download/sweep.rs:187-196 | no row is added for a number that agrees with the number of a live book of its series |
| Sweep.WantedIff | core/src/download/sweep.rs:180-203 | an entry is wanted exactly when its series is known, no live book of it has an agreeing number, and no queue row is for that series and number |
| Sweep.WantedAreTheMissingIssues | core/src/download/sweep.rs:162-203 | a pass that no failed insert cuts short counts as wanted exactly the missing issues, up to the cap, and adds rows only for those |
| Sweep.EveryOfferIsQueued | core/src/download/sweep.rs:176-247 | a wanted entry reached below the cap, with an offer, has its best offer on the queue in the end |
| Sweep.OneFileForEachIssueIff | core/src/download/sweep.rs:162-203 | whatever the sources answer, one pass queues no issue twice exactly when the wanted entries it reaches are for different issues |
| Sweep.OneIssueMayBeQueuedTwice | core/src/download/sweep.rs:162-203 | two calendar entries for one issue can put two rows on the queue in one pass |
| PluginProcesses.StepKeepsInv | core/src/plugin/local.rs:207-316 | every step of every start, stop and stop_all keeps each live child owned once |
| PluginProcesses.EveryChildHasOneOwner | core/src/plugin/local.rs:207-316 | in every interleaving a live child is owned by the map or by exactly one call, under its own slug |
| PluginProcesses.OneChildPerSlug | core/src/plugin/local.rs:229-298 | whenever no start is in flight, no slug has two live children |
| PluginProcesses.StopKillsTheChild | core/src/plugin/local.rs:300-305 | in every run, a stop, or the stop inside a start, that gets the lock takes the child then under its slug: it is never registered again, nor is any other while the lock is held, and it is dead once the call leaves that phase |
| PluginProcesses.StopStops | core/src/plugin/local.rs:300-305 | when a stop has returned, the child under its slug when it got the lock is dead and not registered |
| PluginProcesses.FailedProbeKills | core/src/plugin/local.rs:291-294 | a child that failed its probe is never registered and is dead once its start lets go of it |
| PluginProcesses.InsertRegistersTheChild | core/src/plugin/local.rs:296-297 | a healthy child is registered and the one it replaces is dead |
| PluginProcesses.StopIsAPath | core/src/plugin/local.rs:300-305 | the stop of the code is a path of the system, ending in the table the method leaves |
| PluginProcesses.StartIsAPath | core/src/plugin/local.rs:234-298 | so is a start: a failed probe ends with no entry, a successful one with this child registered |
| PluginProcesses.StopAllIsAPath | core/src/plugin/local.rs:308-315 | so is a stop_all, which ends with no entry and every registered child dead |
| PluginProcesses.NothingLeaksWhenQuiet | core/src/plugin/local.rs:296-305 | when no call is in flight every live child is in the map |
| PluginProcesses.StopAllLeavesOnlyStartsInFlight | core/src/plugin/local.rs:308-315 | when stop_all returns, the live children are those held by starts in flight, so none if there is no such start |
| PluginProcesses.StopAllIsFinalIff | core/src/plugin/local.rs:234-315 | when stop_all returns, a child may be alive then or later without a new start exactly when some start has not got its child yet or holds one that is alive |
| PluginProcesses.NothingLivesAfterStopAll | core/src/plugin/local.rs:308-315 | in every run, from a stop_all that leaves no such start until a new start arrives, no child is alive |
| PluginProcesses.StartInFlightOutlivesStopAll | core/src/plugin/local.rs:291-315 | a run in which a child started during stop_all is alive and registered after it |
| PluginProcesses.Processes.StopOne | core/src/plugin/local.rs:300-305 | the slug's child dies and leaves the map; nothing else changes |
| PluginProcesses.Processes.StartOne | core/src/plugin/local.rs:234-298 | the slug ends with the new healthy child or with none, and the old one is dead |
| PluginProcesses.Processes.StopEverything | core/src/plugin/local.rs:308-315 | no child is left alive and the map is empty |
| Keepalive.StepKeepsInv | packages/sdk/src/socket.ts:57-142 | every timer, message and close keeps the timers and the history consistent |
| Keepalive.AtMostOnePongTimer | packages/sdk/src/socket.ts:71-82 | in every timed run at most one pong timer is live |
| Keepalive.NoTimerSurvivesTheCloseEvent | packages/sdk/src/socket.ts:102-107 | after the close event no timer is live, ever |
| Keepalive.ForceCloseMeansSilence | packages/sdk/src/socket.ts:76-80 | a force-close comes exactly the timeout after a ping that had no pong and no ack since |
| Keepalive.ResponsivePeerIsNeverForceClosed | packages/sdk/src/socket.ts:76-80 | while its peer answers every ping in time, an open socket stays open until a close is requested or happens |
| Keepalive.LeavesOpenIff | packages/sdk/src/socket.ts:57-142 | in every run an open socket leaves that state exactly by a request to close, the close event, or a timeout that fires that long after a ping still unanswered |
| Keepalive.HistoryOfAStep | packages/sdk/src/socket.ts:73-141 | a step adds to the history exactly the ack, the pong, the ping or the force-close that it is |
| Keepalive.PingsEveryInterval | packages/sdk/src/socket.ts:71-82 | a ping goes out exactly one interval after the ack or ping before it, and none is late |
| Keepalive.SilentConnectionIsClosedInTime | packages/sdk/src/socket.ts:71-82 | an acknowledged connection still open had a sign of life at most interval plus timeout ago |
| Keepalive.TimeIsNeverStuck | packages/sdk/src/socket.ts:71-82 | a due timer can run or time can pass, so the deadlines are met and not avoided |
| Keepalive.KeepaliveSocket.ClearTimers | packages/sdk/src/socket.ts:60-69 | both timers are cancelled and forgotten |
| Keepalive.KeepaliveSocket.Start | packages/sdk/src/socket.ts:71-82 | old timers are cleared and one interval is armed |
| Keepalive.KeepaliveSocket.OnInterval | packages/sdk/src/socket.ts:73-81 | an open socket pings and arms the timeout; any other does nothing |
| Keepalive.KeepaliveSocket.OnTimeout | packages/sdk/src/socket.ts:78-80 | an open socket is asked to close; any other is left alone |
| Keepalive.KeepaliveSocket.HandleAck | packages/sdk/src/socket.ts:120-133 | an acknowledgement restarts the keepalive |
| Keepalive.KeepaliveSocket.HandleClose | packages/sdk/src/socket.ts:102-107 | the socket is closed and both timers are cancelled |
| Keepalive.KeepaliveSocket.HandlePong | packages/sdk/src/socket.ts:135-141 | the pending timeout, if any, is cancelled and forgotten |
| Upload.Extractor.Extract | packages/sdk/src/api.ts:391-417 | the result is the tree with its files nulled, and the files met are appended and mapped by number to their paths in traversal order |
| Upload.Extractor.Assemble | packages/sdk/src/api.ts:349-361 | the operations are the stripped tree and the parts are the files under their numbers |
| Upload.Extractor.AppendFiles | packages/sdk/src/api.ts:359-361 | file i becomes the part named i |
| Upload.PuttingBackRebuilds | packages/sdk/src/api.ts:391-417 | putting every file back at its path rebuilds the variables |
| Upload.RecordedWhereItIs | packages/sdk/src/api.ts:397-413 | a file is recorded at a path exactly when it is the value there |
| Upload.NoFileIsLeft | packages/sdk/src/api.ts:397-403 | no path of the returned tree leads to a file |
| Upload.LeftAt | packages/sdk/src/api.ts:397-416 | null is left where a file was, and every other leaf as it was |
| Upload.OneStepDown | packages/sdk/src/api.ts:405-411 | in a path an array's element is named by its index in decimal, and an object's entry by its key |
| Upload.PathsDiffer | packages/sdk/src/api.ts:404-413 | no two files have one path |
| Upload.NumbersAreZeroToN | packages/sdk/src/api.ts:398-400 | the numbers in the map are exactly 0 to n-1 |
| Upload.NumberBelongsToPath | packages/sdk/src/api.ts:398-400 | each number has the one path of the file met as that number |
| Upload.SplitDotted | packages/sdk/src/api.ts:405-411 | a path whose labels have no dot is read back from its written form |
| Upload.UploadRoundTrip | packages/sdk/src/api.ts:349-361 | with dot-free keys the written paths differ and the receiver rebuilds the variables from operations, map and parts |
| Upload.WrittenPathsDifferIff | packages/sdk/src/api.ts:405-411 | among trees whose other keys have no dot, a key never makes two written paths equal exactly when it has no dot |
| Upload.CollisionCollides | packages/sdk/src/api.ts:410-411 | for every key with a dot, a tree in which two files share one written path |
| Upload.JoinSplit | packages/sdk/src/api.ts:405-411 | joining the parts of a written path gives the path |
| Pagination.GetCursorPage | crates/graphql/src/pagination.rs:338-376 | the page is the first rows after the cursor, with an error for an unknown cursor |
| Pagination.UnknownCursorIff | crates/graphql/src/pagination.rs:349-357 | the page is an error exactly when there is a cursor and no row has it |
| Pagination.PageFrom | crates/graphql/src/pagination.rs:348-365 | a page from a position shows the rows there, has a next cursor exactly when it is full, standing where it ends, and a current cursor unless there are no rows |
| Pagination.CursorWalkShowsEveryRowOnce | crates/graphql/src/pagination.rs:348-365 | following the cursors ends after exactly n / limit + 1 pages and shows every row once in order |
| Pagination.InfoAgreesWithTheQuery | crates/graphql/src/pagination.rs:226-245 | on all validated 64-bit input the page info's offset is the query's, for every size and flag, given or not; it has the count and the page, and page k exists exactly when it starts before the count |
| Pagination.ValidIff | crates/graphql/src/pagination.rs:177-192 | a page is valid exactly when it is at least one, or zero-based, and its size is not zero; the size left out is 20 |
| Pagination.OneBasedIsZeroBased | crates/graphql/src/pagination.rs:75-86 | for every 64-bit k and every size, one-based page k is zero-based page k - 1 |
| Pagination.OffsetOfAnExistingPage | crates/graphql/src/pagination.rs:75-86 | on a page that exists the offset does not wrap around and is less than the count |
| Pagination.OffsetPagesShowEveryRowOnce | crates/graphql/src/pagination.rs:226-245 | pages 1 to total_pages, or 0 to total_pages - 1, are the rows in order, and the pages of the cursor walk less a last empty one |
| Pagination.NextThenPrevious | crates/graphql/src/pagination.rs:92-105 | next and previous undo each other, and only the first page has no previous one |
| Pagination.PastTheLastPageIff | crates/graphql/src/pagination.rs:75-86 | a page number past the last gives an empty page for all rows exactly when its offset fits in 64 bits |
| Pagination.PageThatWrapsAround | crates/graphql/src/pagination.rs:177-192 | a valid page whose offset does not fit shows the first page again |
| MetadataPool.Database.InsertFromMedia | crates/migrations/src/m20260812_000000_metadata_enrichment_pool.rs:162-208 | row by row, the insert adds the offers whose book has no link for the provider |
| MetadataPool.Database.InsertFromSeries | crates/migrations/src/m20260812_000000_metadata_enrichment_pool.rs:174-185 | the same for series |
| MetadataPool.Database.Up | crates/migrations/src/m20260812_000000_metadata_enrichment_pool.rs:156-208 | the four statements run in their order |
| MetadataPool.BackfillIsTheMerge | crates/migrations/src/m20260812_000000_metadata_enrichment_pool.rs:156-208 | for every entity and provider the result is the existing link, else the merge of the entity's own row, else none |
| MetadataPool.GenericPairWins | crates/migrations/src/m20260812_000000_metadata_enrichment_pool.rs:156-208 | the generic pair is the link for its provider whatever the id columns hold, each id column is the link for a provider the pair does not cover, column by column, and each is represented |
| MetadataPool.SeriesPairIsLinked | crates/migrations/src/m20260812_000000_metadata_enrichment_pool.rs:175-186 | a series' pair is its link for that provider, column by column |
| MetadataPool.BackfillTwice | crates/migrations/src/m20260812_000000_metadata_enrichment_pool.rs:69-83 | old links keep their place, no entity gets two links for a provider, and running it again adds nothing |
| Omnibus.PatternAgreesWithTheName | core/src/omnibus.rs:21-31 | the string test accepts exactly the names that match the LIKE pattern |
| Omnibus.LikeAnywhere | core/src/omnibus.rs:29-31 | for any word without wildcards, the pattern with it between two percent signs is the search for it without regard to case |
| Ascii.LowerCharIs | core/src/omnibus.rs:21-23 | A to Z become a to z, each its own letter, and no other character changes |
| Omnibus.QualifyingBooks | core/src/omnibus.rs:37-64 | the query takes exactly the books whose name, title, format or live series' name passes the test, null columns included |
| Existence.FindMissingPaths | core/src/filesystem/existence.rs:114-139 | the loop and the sort give the outcome of the answers |
| Existence.CompletionOrderDoesNotMatter | core/src/filesystem/existence.rs:114-139 | any two orders of the same answers give the same outcome, sorted, with each id as often as it was reported missing |
| Existence.OrderIs | core/src/filesystem/existence.rs:134-136 | the ids are in ascending order: a prefix first, else by the first character that differs |
| Existence.UndecidedCount | core/src/filesystem/existence.rs:126-133 | the count is the number of answers that could not tell |
| FileHash.Generate | core/src/filesystem/hash.rs:32-53 | told any length, the bytes fed to the digest are the first that many, zero-padded, or the five samples of that length |
| FileHash.SamplesAreInTheFile | core/src/filesystem/hash.rs:37-51 | every sample of a long file is in bounds and the four strided ones do not overlap |
| FileHash.SampleOffsetsAre | core/src/filesystem/hash.rs:37-49 | the samples start at each quarter of the length and 10000 bytes before the end |
| FileHash.SampledBytesAgreeIff | core/src/filesystem/hash.rs:32-53 | told one length, two files feed the same bytes exactly when they agree at every sampled position; told their true length, if short, exactly when they are equal |
| FileHash.GenerateKoreaderHash | core/src/filesystem/hash.rs:76-94 | leaving the loop at the first empty read feeds the same padded blocks as filtering all the offsets |
| FileHash.OffsetsAre | core/src/filesystem/hash.rs:76-81 | the offsets are 0 and 1024 times the powers of four up to 1 GiB |
| FileHash.BlockAt | core/src/filesystem/hash.rs:79-93 | while the offsets are inside the file, the bytes fed are one block for each, in their order |

## Left out

- SQLite, SeaORM and Apalis themselves: a statement is one atomic step on tables held as maps or sequences, and the job storage is a queue that runs one job at a time.
- Three non-unique indexes of the calendar and the indexes and schema changes of the other migrations, which do not affect rows.
- Row ids, timestamps of the migration itself, and `DATE` beyond a day number: they are integers or absent.
- Foreign keys: a row that names a missing book or series aborts the metadata pool's backfill, and one that names a missing user or book aborts the reading-session backfill.
- The redirect and address checks of `open_source`, `sanitize_filename`, and the request that resolves a download: their outcome is an input.
- When the background removal of a partial file after a failed transfer runs, the states of a file within one chunk's write, and restarts in the middle of a drain.
- Event and progress messages of jobs, elapsed times, and which job type a dispatch selects.
- `issue_numbers_match`: an arbitrary relation. A candidate's confidence is a real number, its title the list of its words.
- Other writers of the queue during a sweep; the model runs one sweep on its own.
- Plugin health polling, ports, output forwarding and exit codes; a kill takes effect at once.
- JavaScript timers that drift: they are exact, though which of several due ones runs first is open.
- An own key `__proto__` in upload variables, whose assignment sets the prototype and loses the entry.
- Objects in upload variables that are neither plain nor files, and what `JSON.stringify` makes of scalars.
- Pages beyond what SQLite can count: offsets wrap at 2^64 as the server's integers do, while SQLite's stop at 2^63, and the rows that refute `PastTheLastPageIff` may be that many.
- Rows inserted or deleted between two pages of a walk; `total_pages` is an integer ceiling, which the floating-point one equals below 2^53.
- Queries against rows whose text is not plain characters: `LIKE` and `LOWER` work on characters, with ASCII case only.
- How the file system answers an existence check, `is_storage_root_available` and `canonical_path_within`.
- MD5 and SHA-256: only the bytes fed to them are modelled, for full reads.
- Pagination.GetCursorPage: cursors are the column's values; their encoding as strings is not modelled.
- Placement.Disk.MoveIntoPlace: one process uses these names, so the history holds its own calls only; two downloads placed under one name at once are not modelled.
