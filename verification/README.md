# Reputo: verified protocols, crawls and envelopes

Reputo runs reputation snapshots as durable workflows, crawls the history of
chat and code platforms, and keeps live feeds of them. This project models
the parts of it that are hard to get right and proves what they promise, in
Dafny 4.11. `dafny verify dfyconfig.toml` checks everything.

| files | what they model |
|---|---|
| `Settlement` | one snapshot row between its workflow's at-least-once writes, the reconciler and the create path, in every interleaving |
| `SettlementReplicas` | the same with any number of reconcilers, one to a replica of the API |
| `SnapshotRows`, `SnapshotService`, `SnapshotReconciler` | the row's status machine under its lock, its writers, and a reconciliation pass |
| `EncryptedRun` | an orchestrator run: readiness polls under a fixed deadline, encrypted passes, the order of everything before `completed` |
| `Records`, `DatasetEngine` | the row contract, what makes a resume cursor sound, and the staging that survives crashes |
| `DiscordMessages`, `DiscordCrawl`, `DiscordFreeze` | the Discord crawl, from one message to a frozen channel |
| `GitHubCrawl`, `GitHubFreeze` | the GitHub crawl |
| `MattermostPosts`, `MattermostCrawl`, `MattermostFreeze` | the Mattermost crawl, with posts arriving meanwhile |
| `DiscordAccess` | Discord's effective-permission algorithm |
| `ReconnectingSocket` | the generation-guarded socket under every order of late events |
| `HttpErrors`, `HttpRetry` | which failures pass for transport failures, message by message, and the retry loop |
| `CommunityAudit`, `CommunityRaces` | the audit log that replays to the row, and every schedule of operations that overlap |
| `Credentials`, `AuthSessions` | the sealed envelope, sessions refreshed by replicas |

## How to read it

A platform, a database or the workflow server is an environment: a pure
function from request to page, a script saying how the i-th request or
activity goes, or a step that may happen at any time. Code that changes state
is a class or a method with a loop; what it promises is stated against an
independent definition, and the theorems over whole runs are lemmas about
those definitions.

The crawls share one idea. `owed(cursor)` is the set of rows still to be
delivered from a cursor, and `Records.Resumable` says that after any batch,
what was yielded plus what the last cursor owes is all that was owed at the
start. Each iterator proves it under its own pages and stop rules; the
dataset engine then loses and invents nothing however its attempts die; and
`FrozenRowsAreTheWindow` compares what is owed with the in-window rows of the
whole history.

Times are milliseconds as integers (microseconds for Discord archive times).
Times that come from a clock, random jitter, storage and platform answers are
parameters.

### Where the code and its own words differ

The models follow the code.

* Discord loses the `reply_received` row of a reply written at or after the
  window end, although `docs/community-algorithms.md:51` lets the parent's
  time decide: the walk starts at the window end
  (`DiscordFreeze.FrozenRowsAreTheWindow`). Mattermost starts at the newest
  post and keeps such rows.
* `packages/community-api/src/discord/transform.ts:358-360` speaks of the
  receiving message's creation time; the code uses the parent's own timestamp.
* "Terminal statuses are immutable" holds of the status alone. A settled row's
  error, completion time and outputs still change under an update that names
  the same status or none (`SnapshotRows.SettledUnchangedIff`,
  `SnapshotRows.SettledRowStillChanges`).
* `apps/api/src/snapshot/snapshot-reconciler.service.ts:97-100` provides for a
  completed workflow whose write was lost. That cannot arise
  (`Settlement.CompletedExecutionLeavesNothingToSettle`).
* Line 120 of the same file settles a row after a failed start without asking
  whether the start had reached the server, which the create path does ask: it
  fails a live run's row exactly when it had, unless that run has ended since
  (`Settlement.OverBudgetHitsALiveRunIff`). Its `default` case leaves rows
  described by a name it does not know unsettled for good
  (`SnapshotReconciler.StillUnsettled`).
* The guard at lines 34 and 69 of the same file holds for one process. Two
  replicas at one row at once can fail the row of a live run without any lost
  call (`SettlementReplicas.SettleHitsALiveRunIff`,
  `SettlementReplicas.TwoReplicasSettleALiveRun`).
* A refusal whose body happens to contain a word such as `network` or
  `timeout` is retried and reported as a network failure
  (`HttpRetry.RefusalIsFinalIff`, `HttpRetry.MissingIsRetried`).
* `partial` is described as "some records were read"
  (`packages/community-api/src/shared/records.ts:80-84`); a Discord forum all
  of whose listings fail ends as `partial` without a batch, since its thread
  phase never answers `failed` (`DiscordCrawl.IterateRecords`,
  `DiscordCrawl.ForumWithoutListings`).
* The audit log replays to the row for operations that do not overlap. Writing
  the row and telling the log are two steps, so overlapping ones, human checks
  included, can leave it saying something else (`CommunityRaces.LogReplaysIff`,
  `CommunityRaces.ReorderedChecksMislead`).
* A socket stopped and started again while an `open()` is in flight ends up with
  two sockets it listens to (`ReconnectingSocket.ExclusiveIffStartsAreApart`,
  `ReconnectingSocket.RestartUnderPendingOpen`).
* The associated data of a sealed credential joins its parts with a colon, so
  it identifies a binding only for colon-free platform names, which the three
  platforms' are (`Credentials.OnlyItsOwnBinding`).
* A resume of the Mattermost walk continues after the post its cursor names;
  it does not read that page again as
  `packages/community-api/src/mattermost/fetch.ts:30` says.

## Model

| member | source | states |
|---|---|---|
| Settlement.SettlingNeverMeetsALiveRun | apps/api/src/snapshot/snapshot-reconciler.service.ts:89-127 | In every interleaving of at-least-once workflow writes, stale reconciler reads, lost start responses, purges and deletes, a row is settled from a describe answer, or by the create path, only while no run is live (start-budget branch excluded) |
| Settlement.TurnSettles | apps/api/src/snapshot/snapshot-reconciler.service.ts:85-128 | The reconciler's whole turn at a row, whatever all others do between its read, its describe and its end: a live execution is left alone; a closed one, or one gone whose row was past queued, ends in a settled row, cancelled for a cancelled execution and failed for any other unless somebody settled it first; one gone whose row was queued is started again |
| Settlement.WhoMovesTheRow | apps/api/src/snapshot/snapshot.repository.ts:288-297 | Every step: a settled row moves only by deletion; an unsettled one only by a settle, the spent start budget, the create path or a landed write along an edge, each to the status written out |
| Settlement.WhoMovesTheRun | apps/workflows/src/workflows/orchestrator.workflow.ts:265-353 | Every step: exactly when a run starts, under which number, when it ends, and what an ended one is closed as |
| Settlement.SettledStays | apps/api/src/snapshot/snapshot.repository.ts:110-112 | A settled row stays as it is, or is deleted, over every continuation |
| Settlement.ReconcilerMovesOn | apps/api/src/snapshot/snapshot-reconciler.service.ts:68-83 | The reconciler can take up every created row that is queued or running, and is never stuck at one |
| Settlement.CreatePathFailsTheMissing | apps/api/src/snapshot/snapshot.service.ts:119-154 | After a failed start the create path fails the row only if it finds no execution, live or closed |
| Settlement.RunMarksRunning | apps/workflows/src/workflows/orchestrator.workflow.ts:293-310 | A run left alone marks its queued row running |
| Settlement.RunCompletes | apps/workflows/src/workflows/orchestrator.workflow.ts:444-743 | Left alone from there it ends completed, its row with it |
| Settlement.RunFailsOnRecord | apps/workflows/src/workflows/orchestrator.workflow.ts:311-353 | One whose phases fail, or that is cancelled, writes failed or cancelled before it closes as such |
| Settlement.LiveRunSettlesItsOwnRow | apps/workflows/src/workflows/orchestrator.workflow.ts:293-353 | The row of a live run carries a terminal status only if a workflow run wrote it, and that very run unless an earlier execution was purged with a write in flight or during a pass |
| Settlement.CompletedExecutionLeavesNothingToSettle | apps/api/src/snapshot/snapshot-reconciler.service.ts:97-100 | An execution closes as completed only with its row settled or deleted, so settling from a completed execution never changes a status: the case the comment there describes cannot arise |
| Settlement.EveryRunKeepsInv | apps/api/src/snapshot/snapshot-reconciler.service.ts:85-128 | Seven invariants over row, execution, writes in flight, create path and reconciler view hold after every possible sequence of steps |
| Settlement.StepKeepsDecisions | apps/api/src/snapshot/snapshot.service.ts:119-144 | What the reconciler or the create path concluded about an execution (closed, missing) stays true until it acts on it, across every step of anyone else |
| Settlement.StepSettlesTheDead | apps/api/src/snapshot/snapshot.service.ts:109-118 | No step lets a row that someone other than a workflow settled meet a live run or a pending decision |
| Settlement.StepLeavesMarks | apps/api/src/snapshot/snapshot.repository.ts:288-297 | A status write that landed leaves its mark: the row is past queued, settled after a terminal write, and completion is only sent once running has landed |
| Settlement.StepKeepsCompletion | apps/workflows/src/workflows/orchestrator.workflow.ts:730-742 | The completed close of a run, and the answer describing it, only ever coexist with a settled row |
| Settlement.StepKeepsOneRun | apps/api/src/temporal/temporal.service.ts:109-120 | Short of a late purge, everything still in flight and every terminal status under a live run belongs to the last run started |
| Settlement.OverBudgetHitsALiveRunIff | apps/api/src/snapshot/snapshot-reconciler.service.ts:115-123 | The branch left out above, whatever everyone does between the failed restart and giving up on it: the row settled is a live run's exactly when the failed start call had reached the server and no step since ended the run it started |
| Settlement.NobodyElseStarts | apps/api/src/snapshot/snapshot-reconciler.service.ts:109-123 | While the reconciler is at a row whose restart failed, a run is live exactly as long as one was and no step ended it: nobody else starts one |
| Settlement.LiveRunLosesItsRow | apps/api/src/snapshot/snapshot-reconciler.service.ts:120-122 | A concrete run of the code: start response lost, budget over, row failed by the reconciler while the workflow lives; its later completed write is refused |
| SettlementReplicas.SettleHitsALiveRunIff | apps/api/src/snapshot/snapshot-reconciler.service.ts:34-69 | Any number of reconcilers, each guarding only itself: between a describe and the settling that follows it, whatever all the others do, the row settled is a live run's exactly when some start reached the server since and nothing has ended its run |
| SettlementReplicas.ReplicasOneAtATimeAreSafe | apps/api/src/snapshot/snapshot-reconciler.service.ts:68-83 | With any number of reconcilers of which never two are at the row at once, a describe answer settles a row only while no run is live, and a live run's row is settled only by a workflow |
| SettlementReplicas.TwoReplicasSettleALiveRun | apps/api/src/snapshot/snapshot-reconciler.service.ts:85-128 | Two reconcilers at the row at once: a concrete run without any lost call that ends with a live run and its row failed |
| SnapshotRows.TransitionsAreTheEdges | apps/api/src/snapshot/snapshot.repository.ts:109-120 | The status machine allows exactly the repeats and the six edges of its description |
| SnapshotRows.AppliedInFull | apps/api/src/snapshot/snapshot.repository.ts:299-355 | An update is refused exactly for a status off the edges; any other replaces each field it gives and keeps each it does not, replaces the outputs by exactly the defined ones if it gives any whatever the status, and moves the modification stamp exactly for a field |
| SnapshotRows.SnapshotRepository.ApplyExternalUpdate | apps/api/src/snapshot/snapshot.repository.ts:299-355 | One locked transaction: unknown id; refused transition (total no-op, nobody notified); or every given field taken over and every absent one kept, outputs replaced in full whatever the status, the stamp moved exactly for a field, listeners notified |
| SnapshotRows.BuildOutputRows | apps/api/src/snapshot/snapshot.repository.ts:131-142 | One output row per defined key, none for an undefined value |
| SnapshotRows.MapOutputs | apps/api/src/snapshot/snapshot.repository.ts:122-129 | Rows back to outputs by key; nothing at all for no rows |
| SnapshotRows.ReplaceOutputs | apps/api/src/snapshot/snapshot.repository.ts:342-348 | Outputs replaced and read back are exactly the defined ones |
| SnapshotRows.SnapshotRepository.Create | apps/api/src/snapshot/snapshot.repository.ts:209-238 | A new row is queued, with the outputs it was given and no stamps |
| SnapshotRows.SnapshotRepository.FindUnsettled | apps/api/src/snapshot/snapshot.repository.ts:392-402 | Exactly the queued and running rows not touched since the cutoff, each once, oldest first by creation |
| SnapshotRows.RedeliveryIsIdempotent | apps/api/src/snapshot/snapshot.repository.ts:294-295 | Applying an update again changes nothing but the modification stamp, and is refused exactly if the first was |
| SnapshotRows.FirstTerminalIsFinal | apps/api/src/snapshot/snapshot.repository.ts:110-112 | For every sequence of attempts in any order with any duplication, the first terminal status committed is final |
| SnapshotRows.StepFollowsAnEdge | apps/api/src/snapshot/snapshot.repository.ts:115-120 | Each attempt keeps the status or follows one edge of the machine |
| SnapshotRows.NoReturn | apps/api/src/snapshot/snapshot.repository.ts:115-120 | A status once left is never returned to |
| SnapshotRows.CompletedOnlyThroughRunning | apps/api/src/snapshot/snapshot.repository.ts:117-118 | A row that began queued is completed only after an earlier attempt had made it running |
| SnapshotRows.StampsMatchStatus | apps/api/src/snapshot/snapshot.service.ts:187-207 | Over every sequence of attempts, completedAt is present exactly for a terminal status and startedAt whenever running or completed |
| SnapshotRows.SettledRefuses | apps/api/src/snapshot/snapshot.repository.ts:310-313 | A settled row refuses an update exactly when it names another status |
| SnapshotRows.SettledUnchangedIff | apps/api/src/snapshot/snapshot.repository.ts:310-355 | An update leaves a settled row as it was exactly when it names another status or gives nothing new: the outcome at the stamp the row carries, the same details, the same outputs, no newer modification |
| SnapshotRows.SettledRowStillChanges | apps/api/src/snapshot/snapshot.repository.ts:311-312 | A settled row whose error and completion time an update naming the same status overwrites, and whose outputs an update naming none replaces |
| SnapshotService.Service.ApplyExternalUpdate | apps/api/src/snapshot/snapshot.service.ts:197-244 | The update built field by field is the stamped one: start time for running, completion time for a terminal status |
| SnapshotService.Service.LaunchSnapshotWorkflow | apps/api/src/snapshot/snapshot.service.ts:88-107 | However the start goes, the derived workflow id is on the row and nothing else it held is lost; the row ends failed with the reason, and the caller sees an error, exactly when the start failed and a describe confirmed nothing exists; otherwise it stays queued |
| SnapshotService.Service.HandleStartFailure | apps/api/src/snapshot/snapshot.service.ts:119-154 | Only a confirmed missing execution terminalizes the row |
| SnapshotService.Service.DeleteById | apps/api/src/snapshot/snapshot.service.ts:270-287 | A run that may be live is terminated, under the id its row was given or the derived one, before its row is deleted; a settled one is not |
| SnapshotService.WorkflowIdsAreDistinct | apps/api/src/temporal/temporal.service.ts:104-107 | Two snapshots never share a derived workflow id |
| SnapshotReconciler.Reconciler.Reconcile | apps/api/src/snapshot/snapshot-reconciler.service.ts:68-83 | A pass reads exactly the unsettled rows past the cutoff, resolves them in order up to the first it cannot describe, changes no other row, and never overlaps another pass of the process |
| SnapshotReconciler.Reconciler.ReconcileRow | apps/api/src/snapshot/snapshot-reconciler.service.ts:85-128 | One row: settled with its reason and time, restarted or left alone as the description, the stale status and the budget say |
| SnapshotReconciler.StillUnsettled | apps/api/src/snapshot/snapshot-reconciler.service.ts:89-127 | Convergence: after its turn a row is unsettled, and then unchanged, exactly when it is described by a name that is none of the five closed ones, was started, or could not be started inside its budget; settled, it is cancelled exactly for a cancelled execution and failed for any other |
| SnapshotReconciler.Reconciler.SettledRowsAreLeftAlone | apps/api/src/snapshot/snapshot-reconciler.service.ts:72-76 | A pass changes no row that had settled, so a second pass changes none the first one settled |
| EncryptedRun.Run.PollForEncryptionReadiness | apps/workflows/src/workflows/encryption-readiness.ts:46-108 | Polls back to back on schedule; a not-ready poll over at or after the deadline always ends the call, and only such a one times it out |
| EncryptedRun.NoSleepCrossesTheDeadline | apps/workflows/src/workflows/encryption-readiness.ts:57-59 | No sleep that starts before the deadline lasts past it |
| EncryptedRun.DelaysAddUp | apps/workflows/src/workflows/encryption-readiness.ts:56-59 | Every poll but the last waited out its whole delay and ended before the deadline |
| EncryptedRun.ElapsedInMinutes | apps/workflows/src/shared/constants/timeouts.ts:20-21 | The schedule: one minute, then fifteen, then hourly |
| EncryptedRun.PollsAreFew | apps/workflows/src/workflows/encryption-readiness.ts:39-45 | Whatever the activities take, a call polls once or less often than whole minutes fit before the deadline, rounded up; within a day at most 26 times |
| EncryptedRun.Run.RunEncryptedCustomScoreLifecycle | apps/workflows/src/workflows/encrypted-custom-score.ts:42-89 | Over all rounds: every poll is under the one deadline a day after entry, no sleep begun before it lasts past it; it throws exactly for a failed activity or a poll that missed the deadline; a pass that did not submit leads to another round; every encrypted pass follows a ready poll and carries the same timestamp and observations; it succeeds only on a pass that submitted |
| EncryptedRun.RoundsKeepTheDeadline | apps/workflows/src/workflows/encryption-readiness.ts:50-66 | Rounds after a run without polls leave one deadline, sleeps that end by it, and every poll in time unless the last event is one |
| EncryptedRun.CompletionInOrder | apps/workflows/src/workflows/orchestrator.workflow.ts:664-740 | Persisted outputs, raw submission, a ready poll and the pass right after it that submitted earn the completed write |
| EncryptedRun.Run.RunCombinedPhases | apps/workflows/src/workflows/orchestrator.workflow.ts:664-740 | A combined run sends completed only once it is earned, and nothing else about status |
| EncryptedRun.Run.RunSnapshotPhases | apps/workflows/src/workflows/orchestrator.workflow.ts:444-743 | The phases await what their plan says in order, ending after preparation for an unsupported algorithm; they throw exactly for a failed activity, a missed deadline or an unsupported algorithm; they ask for no status but completed, last, and end well only after it |
| EncryptedRun.Run.RunOrchestrator | apps/workflows/src/workflows/orchestrator.workflow.ts:265-353 | Over every script of failures: the run throws exactly for a failed activity, a missed deadline or an unsupported algorithm, which is never run; a supported run that is not combined and whose activities succeed awaits exactly its five activities and is completed; all polls share one deadline no sleep crosses; every completed write of a combined run is earned; all submissions share timestamp and observations; past the running write a failure asks for failed, a cancellation for cancelled, unless the row is gone |
| EncryptedRun.Run.RunWithHandler | apps/workflows/src/workflows/orchestrator.workflow.ts:293-353 | The phases and what follows them: nothing but the write of the failure handler, and that exactly for a failure other than a missing row |
| Records.ResumableConcat | packages/community-api/src/shared/records.ts:91-99 | Two crawl phases in a row can be abandoned after any batch if each can and the second owes no more than the first left |
| Records.ResumableStep | packages/community-api/src/shared/records.ts:91-99 | One more batch keeps a crawl resumable when its cursor moves on past no more than it carries |
| Records.AccountedConcat | packages/community-api/src/shared/records.ts:113-117 | Accounts of two stretches of requests add up: stop at the first throw, a reason on record exactly for a swallowed failure |
| DatasetEngine.Staging.constructor | apps/workflows/src/activities/community/dataset-engine.ts:257-259 | A run begins with nothing staged and everything owed |
| DatasetEngine.Staging.FlushSegment | apps/workflows/src/activities/community/dataset-engine.ts:266-279 | Buffered rows become the next segment before the cursor moves; earlier segments stay as they were |
| DatasetEngine.Staging.Buffer | apps/workflows/src/activities/community/dataset-engine.ts:287-297 | One batch taken in: a full buffer goes up under the next index with the batch's cursor, and with nothing pending the cursor advances without an upload |
| DatasetEngine.Staging.CrawlResource | apps/workflows/src/activities/community/dataset-engine.ts:257-302 | However an attempt dies and whichever heartbeats are lost, what is staged behind the last checkpoint plus what its cursor owes is all that was owed, and nothing is invented; with every heartbeat heard a crash costs fewer than 5000 of the rows whose heartbeat was due |
| DatasetEngine.StagedAfterUpload | apps/workflows/src/activities/community/dataset-engine.ts:266-277 | A segment uploaded under the next index adds its rows and hides none |
| DiscordMessages.SnowflakeBoundary | packages/community-api/src/discord/transform.ts:309-322 | For every id and time, the id is below the snowflake of the time exactly when its message was created before it |
| DiscordMessages.IdOrderIsTimeOrder | packages/community-api/src/discord/transform.ts:311-315 | Newer ids are never older messages |
| DiscordMessages.CountReactions | packages/community-api/src/discord/transform.ts:324-336 | The sum of the positive finite counts |
| DiscordMessages.CollectMentions | packages/community-api/src/discord/transform.ts:338-350 | Each mentioned account once, with the flag of its first mention |
| DiscordMessages.ToActivityRecords | packages/community-api/src/discord/transform.ts:365-452 | Exactly the credits of the message inside the window, told on its fields alone: for each kind whom the row credits, with whom, at what time, how much, and whether a bot; no row twice |
| DiscordMessages.RowsAreCredits | packages/community-api/src/discord/transform.ts:352-452 | The rows a message contributes are exactly those credits: a reply credits its author with the parent's as counterparty at its own time, and the parent's author with the reply's as counterparty at the parent's time |
| DiscordMessages.FirstMentionDecides | packages/community-api/src/discord/transform.ts:338-350 | A mentioned account is credited once, under the bot flag of its first mention |
| DiscordMessages.ReactionsAddUp | packages/community-api/src/discord/transform.ts:324-336 | Reaction counts add up, a missing or non-positive one counting nothing |
| DiscordMessages.MessageRowsExact | packages/community-api/src/discord/transform.ts:352-364 | The row set of a message is that definition |
| DiscordMessages.OldMessageHasNoRows | packages/community-api/src/discord/fetch.ts:99-102 | A message older than the window start has no row in the window, its parent being older still |
| DiscordMessages.ProcessMessagePage | packages/community-api/src/discord/fetch.ts:84-111 | Rows up to the first message older than the window, the id to continue from, and the exact rule for stopping |
| DiscordMessages.PageLosesNothing | packages/community-api/src/discord/fetch.ts:84-111 | Over every history and boundary: a page that ends the walk held every row left, any other left the rest strictly older |
| DiscordCrawl.CrawlableThreads | packages/community-api/src/discord/transform.ts:484-505 | Exactly the public and announcement threads of the parent, in id order |
| DiscordCrawl.CrawlThreadMessages | packages/community-api/src/discord/fetch.ts:185-209 | A thread is read to the end unless a request fails, every batch under the cursor given |
| DiscordCrawl.CrawlChannelMessages | packages/community-api/src/discord/fetch.ts:211-238 | The message phase may be abandoned after any batch, every cursor moving on to an older message; finished, it leaves exactly the threads owed |
| DiscordCrawl.CrawlArchivedPage | packages/community-api/src/discord/fetch.ts:275-289 | One archived page: the threads that may reach into the window are read in full, nothing is asked for of the others, and the oldest archive time is found |
| DiscordCrawl.QuietThreadHasNoRows | packages/community-api/src/discord/fetch.ts:284-288 | A thread archived before the window start holds no row in it |
| DiscordCrawl.ArchivedPageLosesNothing | packages/community-api/src/discord/fetch.ts:291-296 | Every stop rule of the archived walk (no more pages, past the window, stuck) leaves no in-window row behind it |
| DiscordCrawl.ReadArchivedPage | packages/community-api/src/discord/fetch.ts:258-304 | One step of the walk: it ends exactly on the last page, past the window or where the boundary no longer moves; otherwise it moves the boundary back to the oldest listed archive time, inside the window |
| DiscordCrawl.CrawlArchivedThreads | packages/community-api/src/discord/fetch.ts:258-304 | The archived walk ends on every server that lists no thread newer than the boundary, whatever has_more says, and on an honest one reads every in-window row |
| DiscordCrawl.CrawlActiveThreads | packages/community-api/src/discord/fetch.ts:243-256 | The active threads of the channel, read in full or with a reason on record |
| DiscordCrawl.CrawlAllThreads | packages/community-api/src/discord/fetch.ts:240-304 | Phase two from any thread cursor: resumable, and complete when no failure was swallowed |
| DiscordCrawl.IterateRecords | packages/community-api/src/discord/fetch.ts:147-307 | One call under any pattern of faults: resumable after every batch, no invented row; complete only with every owed row and nothing swallowed; failed exactly when the channel, its kind or the first page of a fresh message walk cannot be read; partial for every other swallowed failure, naming each one's category in order, and partial without a batch exactly when each of its requests for messages and archived threads was refused, in a resumed call or for a forum |
| DiscordCrawl.ForumWithoutListings | packages/community-api/src/discord/fetch.ts:240-304 | A forum whose listings are all refused: partial, although no record was ever read |
| DiscordFreeze.FreezeChannel | apps/workflows/src/activities/community/dataset-engine.ts:257-302 | Crash and resume equivalence for Discord: over any number of attempts with any crashes and lost heartbeats, the staged rows plus those its cursor owes are all rows owed, and a finished crawl staged exactly those |
| DiscordFreeze.FrozenRowsAreTheWindow | packages/community-api/src/discord/fetch.ts:213-214 | What is frozen is every in-window row of the channel and its threads if and only if no reply to an in-window message was written once the window had closed |
| DiscordFreeze.LateReplyIsLost | packages/community-api/src/discord/transform.ts:420-434 | The row crediting the parent of such a reply is inside the window and never frozen |
| DiscordFreeze.LateReplyExample | packages/community-api/src/discord/fetch.ts:189-214 | A concrete honest channel that loses such a row |
| DiscordFreeze.IdentityDeterminesRow | packages/community-api/src/shared/records.ts:26-27 | Ids being unique, two in-window rows with one deduplication identity are one row |
| DiscordAccess.ParseOverwrites | packages/community-api/src/discord/transform.ts:128-148 | Absent overwrites are none; anything malformed is refused as a whole |
| DiscordAccess.BitOfOr | packages/community-api/src/discord/transform.ts:171-198 | The bit-wise or of two integers, bit by bit |
| DiscordAccess.BitOfAndNot | packages/community-api/src/discord/transform.ts:171-198 | Clearing the bits of one integer in another, bit by bit |
| DiscordAccess.EffectivePermissions | packages/community-api/src/discord/transform.ts:171-198 | The integer mask arithmetic grants a bit exactly by the per-bit rule: the most specific level that mentions it decides, allow beating deny inside a level |
| DiscordAccess.ResolveChannelAccess | packages/community-api/src/discord/transform.ts:158-207 | Administrator short-circuits even malformed overwrites; otherwise the two read bits decide, View Channel first |
| DiscordAccess.VerdictIgnoresOrder | packages/community-api/src/discord/transform.ts:176-198 | With at most one overwrite for @everyone and for the bot member, and any number for every other target, neither the order of the bot's roles nor that of the overwrites changes the verdict |
| DiscordAccess.OrderMattersIff | packages/community-api/src/discord/transform.ts:176-198 | Without that: every reordering of the overwrites gives one verdict exactly when all overwrites for @everyone and for the bot member would |
| DiscordAccess.DuplicatesDependOnOrder | packages/community-api/src/discord/transform.ts:193-198 | Two overwrites for the bot member, reordered, change the verdict |
| GitHubCrawl.ToIssueRecords | packages/community-api/src/github/transform.ts:187-226 | Exactly the opening and merge rows of an issue or pull request inside the window, each crediting its author, told on the issue's fields |
| GitHubCrawl.ToReviewRecords | packages/community-api/src/github/transform.ts:235-268 | Exactly the submitted, attributable reviews inside the window, each crediting whoever wrote it, with the author of the pull request as counterparty |
| GitHubCrawl.ToCommentRecords | packages/community-api/src/github/transform.ts:275-306 | Exactly the attributable comments created inside the window |
| GitHubCrawl.DecimalStandsFor | packages/community-api/src/github/transform.ts:187-226 | An account is credited under the numeral of its own number |
| GitHubCrawl.FetchReviewRecords | packages/community-api/src/github/fetch.ts:91-112 | Every review page of a pull request, all rows or none |
| GitHubCrawl.IssuePageRecords | packages/community-api/src/github/fetch.ts:174-186 | One page of issues with the nested review pages: all rows unless a failure is on record |
| GitHubCrawl.CrawlPhase | packages/community-api/src/github/fetch.ts:155-202 | Page walk of one phase: each batch names the page after its own, the last the next phase, and the phase ends on the first short page |
| GitHubCrawl.IterateRecords | packages/community-api/src/github/fetch.ts:114-208 | One call under any pattern of faults: resumable, nothing invented, honest coverage: failed exactly in three named cases, partial with the category of each swallowed failure in order |
| GitHubFreeze.FreezeRepository | apps/workflows/src/activities/community/dataset-engine.ts:257-302 | Crash and resume equivalence for GitHub over any crashes and lost heartbeats |
| GitHubFreeze.FrozenRowsAreTheWindow | packages/community-api/src/github/fetch.ts:81-86 | If nothing is updated before what is recorded on it, the since filter hides no in-window row: an old pull request merged or reviewed in the window is credited |
| GitHubFreeze.WindowRowsAreCredits | packages/community-api/src/github/transform.ts:187-306 | The in-window rows of a whole repository, each by the issue, review or comment it comes from; the counterparty of a review is the author of its pull request |
| MattermostPosts.ToReactionCounts | packages/community-api/src/mattermost/transform.ts:226-241 | How many reactions each account left, for exactly the accounts that did |
| MattermostPosts.ToActivityRecords | packages/community-api/src/mattermost/transform.ts:256-313 | Exactly the credits of a post inside the window, told on its fields and its root's alone: whom each row credits, with whom, at what time and how much |
| MattermostPosts.RowsAreCredits | packages/community-api/src/mattermost/transform.ts:243-313 | The rows a post contributes are exactly those credits |
| MattermostPosts.ReactionsAddUp | packages/community-api/src/mattermost/transform.ts:226-241 | Counting one account's reactions adds up, one for each of its own |
| MattermostPosts.BotResolver.Prime | packages/community-api/src/mattermost/fetch.ts:87-106 | After a lookup every wanted account has its flag, unknown ones as human, no account asked for twice |
| MattermostPosts.BotResolver.LookUp | packages/community-api/src/mattermost/fetch.ts:90-99 | One chunk of at most 100 ids; a failed one changes nothing known |
| MattermostCrawl.OldestPost | packages/community-api/src/mattermost/fetch.ts:60-72 | A post of the oldest creation time among those with an id and a time, scoreable or not |
| MattermostCrawl.StoppingLosesNothing | packages/community-api/src/mattermost/fetch.ts:188-200 | Each stop rule is met only when everything behind the page predates the window |
| MattermostCrawl.NeverTheBoundary | packages/community-api/src/mattermost/fetch.ts:141-148 | The walk never meets the post it continues from again |
| MattermostCrawl.MovedOwesTheRest | packages/community-api/src/mattermost/fetch.ts:201-203 | The cursor a batch carries owes at least what the page left unread |
| MattermostCrawl.WalkOn | packages/community-api/src/mattermost/fetch.ts:149-208 | One page further: the batch leaves the call resumable, and the next page starts right after it |
| MattermostCrawl.IterateRecords | packages/community-api/src/mattermost/fetch.ts:114-209 | While posts arrive between requests: the posts read are one contiguous stretch, none twice, down past the window start when complete and not a page further; resumable after every batch; coverage exact |
| MattermostFreeze.FreezeChannel | apps/workflows/src/activities/community/dataset-engine.ts:257-302 | Crash and resume equivalence for Mattermost over any faults, crashes and arrivals: every row of the posts present at the start is staged or owed |
| MattermostFreeze.NothingReadOwesThePresent | packages/community-api/src/mattermost/fetch.ts:105-113 | What a fresh run owes is the rows of the posts present at its start, computed among those posts alone |
| MattermostFreeze.RootsDoNotArrive | packages/community-api/src/mattermost/transform.ts:271 | Arrivals never change the root a present post is credited against |
| MattermostFreeze.IdentityDeterminesRow | packages/community-api/src/shared/records.ts:26-27 | Two in-window rows with one deduplication identity are one row |
| ReconnectingSocket.EveryOrderIsExclusive | packages/community-api/src/shared/reconnecting-socket.ts:71-254 | In every order of late events with starts apart: exactly one of an open() in flight, a current socket and an armed reconnect timer while running; only the current socket is listened to; if frames behave, a live feed has a socket, and the idle watchdog armed over it if it was given one |
| ReconnectingSocket.StepKeepsInv | packages/community-api/src/shared/reconnecting-socket.ts:103-227 | Each single event keeps those invariants |
| ReconnectingSocket.LiveWithoutSocketIff | packages/community-api/src/shared/reconnecting-socket.ts:142-160 | A frame leaves the feed live without a socket exactly when its handler declares it live after dropping it |
| ReconnectingSocket.StoppedStaysQuiet | packages/community-api/src/shared/reconnecting-socket.ts:239-249 | After a stop no late event changes anything; a late open() only settles |
| ReconnectingSocket.FatalStaysQuiet | packages/community-api/src/shared/reconnecting-socket.ts:215-223 | After a fatal close no event but a stop changes anything at all |
| ReconnectingSocket.ExclusiveIffStartsAreApart | packages/community-api/src/shared/reconnecting-socket.ts:71-254 | Exclusivity and one voice hold after every prefix of a sequence exactly when each start that takes effect finds no open() in flight |
| ReconnectingSocket.RestartUnderPendingOpen | packages/community-api/src/shared/reconnecting-socket.ts:176-187 | Stop and start under a pending open(): two sockets capture one generation and both are listened to |
| ReconnectingSocket.Feed.OnOpen | packages/community-api/src/shared/reconnecting-socket.ts:189-194 | The opening of any socket but the current one changes nothing; of the current one it arms the watchdog and leaves socket, state and backoff exactly as the handler's calls say; exclusivity is kept |
| ReconnectingSocket.Feed.DoHandle | packages/community-api/src/shared/reconnecting-socket.ts:142-160 | The calls of one frame handler, in order |
| ReconnectingSocket.Feed.OnOpenSettled | packages/community-api/src/shared/reconnecting-socket.ts:166-187 | A settled attempt keeps exclusivity; a running feed then has a listened-to socket or an armed reconnect timer, a stopped one neither |
| ReconnectingSocket.Feed.OnStart | packages/community-api/src/shared/reconnecting-socket.ts:233-238 | A start of a running feed changes nothing; a stopped one begins one attempt with the backoff reset; exclusivity is kept exactly unless the feed was stopped with an open() in flight |
| ReconnectingSocket.Feed.OnReconnectTimer | packages/community-api/src/shared/reconnecting-socket.ts:126-129 | The spent timer gives way to exactly one attempt, with the backoff as it was; exclusivity is kept |
| ReconnectingSocket.Feed.OnIdle | packages/community-api/src/shared/reconnecting-socket.ts:93-101 | A silent socket is gone, nothing is live, the reconnect timer is armed and one more attempt counted; exclusivity is kept |
| ReconnectingSocket.Feed.OnMessage | packages/community-api/src/shared/reconnecting-socket.ts:196-207 | A frame of any socket but the current one changes nothing; any frame of the current one arms the watchdog; a text frame then leaves socket, state and backoff exactly as its handler's calls say, retired and due for a retry if one drops it, a binary one leaves them; exclusivity is kept |
| ReconnectingSocket.Feed.OnClose | packages/community-api/src/shared/reconnecting-socket.ts:212-226 | A close of any socket but the current one changes nothing; of the current one it leaves no socket listened to and, unless fatal, the reconnect timer armed with one more attempt counted; exclusivity is kept |
| ReconnectingSocket.Feed.OnStop | packages/community-api/src/shared/reconnecting-socket.ts:239-249 | After a stop no socket ever made is listened to and nothing is armed; exclusivity is kept |
| Credentials.DecodeEncode | packages/community-api/src/shared/credentials.ts:72-78 | base64url (section 5 of RFC 4648) without padding decodes what it encodes, for all bytes |
| Credentials.SplitJoin | packages/community-api/src/shared/credentials.ts:86 | Colon-free segments survive join and split |
| Credentials.JoinSplit | packages/community-api/src/shared/credentials.ts:86 | Splitting loses nothing and leaves no colon |
| Credentials.AsTheStandardSays | packages/community-api/src/shared/credentials.ts:72-78 | The alphabet and the digits are those of section 5 of RFC 4648 |
| Credentials.OpenOfAny | packages/community-api/src/shared/credentials.ts:81-109 | What opening any text gives, sealed or not, error by error: not an envelope, short secret, unknown key, failed authentication, or the plaintext |
| Credentials.SealOfAny | packages/community-api/src/shared/credentials.ts:60-79 | A sealed credential is five segments under the current key; a short secret seals nothing |
| Credentials.KeyIdIsEightCharacters | packages/community-api/src/shared/credentials.ts:36-54 | A key is the digest of its secret, and its id the first eight characters of the digest of the key |
| Credentials.OpenOfSealed | packages/community-api/src/shared/credentials.ts:60-109 | The outcome of opening a sealed credential for every sealing ring, opening ring, pair of bindings and plaintext, error by error |
| Credentials.RoundTrip | packages/community-api/src/shared/credentials.ts:60-109 | The same ring and binding return the plaintext |
| Credentials.RotationKeepsOpening | packages/community-api/src/shared/credentials.ts:92-94 | After rotation it still opens exactly when the new key id differs, or the key is the same |
| Credentials.OnlyItsOwnBinding | packages/community-api/src/shared/credentials.ts:3-9 | With colon-free platform names a credential fails to open for every other binding |
| Credentials.ColonsBlurBindings | packages/community-api/src/shared/credentials.ts:56-58 | With a colon in the platform name it opens for another binding |
| HttpRetry.ExecuteRequest | packages/community-api/src/shared/http.ts:179-296 | For every script of outcomes: one request an attempt up to the first decisive one, never more than maxAttempts, and the outcome of that attempt or of the last |
| HttpRetry.ReadResponse | packages/community-api/src/shared/http.ts:204-275 | The exact condition on status, headers and body of each outcome of an exchange, and what it carries: the wait asked for in whole milliseconds, the header before the body, the reset time, the status and text |
| HttpRetry.CalculateBackoffMs | packages/community-api/src/shared/http.ts:147-150 | Capped exponential backoff with up to half again of jitter, never over one and a half times the cap |
| HttpRetry.BackoffDoubles | packages/community-api/src/shared/http.ts:147-150 | The delay doubles from the base on until it meets the cap, plus up to half of itself |
| HttpRetry.TotalWaitIsBounded | packages/community-api/src/shared/http.ts:248-267 | Without retry-after, all computed waits together stay within one and a half caps per allowed attempt but the last |
| HttpErrors.HttpErrorIsNetworkErrorIff | packages/community-api/src/shared/http.ts:69-101 | Whatever the status, an HTTP error passes for a transport failure exactly when what it quotes of the body holds one of the thirteen hints, in any case |
| HttpErrors.HintsCount | packages/community-api/src/shared/http.ts:69-101 | Each of the thirteen hints, in any case and inside any message or error code, makes a transport failure |
| HttpErrors.SnippetQuotes | packages/community-api/src/shared/errors.ts:1-40 | What is quoted of a body is at most its first 200 characters, the spaces around it cut off |
| HttpErrors.DecisionsAreNotNetworkErrors | packages/community-api/src/shared/http.ts:96-101 | The messages of authentication, permission, redirect, byte-cap and rate-limit errors, whatever cap or wait they name, hold none of the hints |
| HttpRetry.RefusalIsFinalIff | packages/community-api/src/shared/http.ts:254-277 | A 4xx refusal is final, and reported as itself, exactly when the body text it quotes holds none of the hints; otherwise it ends as a network failure |
| HttpRetry.MissingIsRetried | packages/community-api/src/shared/http.ts:254-277 | A 404 whose body reads "Network not found" is retried and reported as a network failure |
| HttpRetry.CredentialsAreNeverRetried | packages/community-api/src/shared/http.ts:219-242 | 401, plain 403 and spent-budget answers are final whatever their body says |
| HttpRetry.PolicyIsNeverRetried | packages/community-api/src/shared/http.ts:204-217 | Refused redirects and bodies over the cap are final |
| CommunityAudit.Community.CompleteConnect | apps/api/src/community/community.service.ts:448-486 | A connect, resolved or not, keeps the log truthful and audits its outcome against the one row it touched, which then says what the probe found and when |
| CommunityAudit.Community.CheckHealth | apps/api/src/community/community.service.ts:299-335 | A human check is always on record, a system one exactly when it changes what the row says; the row says active, broken or degraded by the category, with the time, and a failing check keeps the last good metadata; the log still replays to the row |
| CommunityAudit.Community.ReadResources | apps/api/src/community/community.service.ts:271-292 | A listing moves the row only on failure, and the log replays to it |
| CommunityAudit.Community.DoDisconnect | apps/api/src/community/community.service.ts:343-361 | A failed revocation keeps the row as failing and on record; a successful one deletes it |
| CommunityAudit.Community.UpsertFromInstall | apps/api/src/community/community-connection.repository.ts:144-160 | A known community keeps its id and last check, a new one gets a new id |
| CommunityAudit.Community.RecordCheck | apps/api/src/community/community-connection.repository.ts:168-181 | A failing check moves status and reason without wiping the last good metadata |
| CommunityAudit.RecordKeepsReplay | apps/api/src/community/community.service.ts:542-566 | Recording a row beside the change it tells of keeps every connection's replay true |
| CommunityAudit.ReplayUnlinked | apps/api/src/community/community-connection.repository.ts:183-190 | Clearing the links of a deleted connection changes no other connection's replay |
| CommunityRaces.LogReplaysIff | apps/api/src/community/community.service.ts:299-335 | Any number of overlapping operations on one connection, each reading the row, writing it and appending to the log in separate steps: once all are done the log replays to the row exactly when the last to write and the last to tell the log found the same |
| CommunityRaces.WhatATurnDoes | apps/api/src/community/community.service.ts:299-335 | Each step by its own words: a connect shows the row pending with the last reason kept, and a check that read it meanwhile always leaves a row in the log |
| CommunityRaces.SafeWhateverIsFoundIff | apps/api/src/community/community.service.ts:305-327 | A schedule of human checks and connects leaves a truthful log, whatever each finds, exactly when the last to write the row is the last to append |
| CommunityRaces.OneWriterAtATimeReplays | apps/api/src/community/community.service.ts:299-335 | System checks included, while no two operations with something to say about the row overlap, the log replays whenever none is under way |
| CommunityRaces.WhoSpokeLast | apps/api/src/community/community.service.ts:305-327 | At every point of every schedule the log replays to what the last operation to tell it found, and the row is what the last writer found unless a connect is pending |
| CommunityRaces.StaleCheckReplaysIff | apps/api/src/community/community.service.ts:404-411 | A system check whose write and append have nothing between them keeps a truthful log so exactly when it finds a change from the row it read at its start, or the row already says what it finds |
| CommunityRaces.ReorderedChecksMislead | apps/api/src/community/community.service.ts:305-327 | Two checks, human or not, written in one order and appended in the other: the row says broken, its log healthy |
| CommunityRaces.RacingChecksMislead | apps/api/src/community/community.service.ts:548-557 | Two system checks of one healthy row, the second silent: the row is active, its log says degraded |
| AuthSessions.NoRefreshOutlivesCreation | apps/api/src/auth/auth.service.ts:359-378 | In every interleaving of refreshes from stale copies and revocations, no unrevoked session's expiry exceeds the one set at creation |
| AuthSessions.CreatedSessionsAreFound | apps/api/src/auth/auth.service.ts:359-378 | A created session is found exactly until the earlier of its refresh token's end and the absolute limit |
| AuthSessions.RevokedStaysRevoked | apps/api/src/sessions/auth-session.repository.ts:112-169 | Once a revoke has committed no later lookup finds the session, whatever was under way and whatever the clocks say |
| AuthSessions.RevokeAllEndsTheUsers | apps/api/src/sessions/auth-session.repository.ts:163-169 | Revoking all sessions of a user leaves none of them active then or later, and nobody else's touched |
| AuthSessions.SweepKeepsTheActive | apps/api/src/sessions/auth-session.repository.ts:171-175 | Sweeping takes away exactly the rows past their expiry, so no active session |
| AuthSessions.RefreshRaisesExpiryIff | apps/api/src/auth/auth.service.ts:438-441 | A refresh raises the stored expiry exactly when its copy and its refresh token both reach further than the row |
| AuthSessions.StaleRefreshLiftsALimit | apps/api/src/auth/auth.service.ts:434-451 | Three steps in which a stale refresh lifts a limit an earlier refresh had set |
| AuthSessions.AuthService.RefreshSessionIfNeeded | apps/api/src/auth/auth.service.ts:402-424 | A fresh session is kept, a dead one revoked, a refresh under way joined, else exactly one started; like every step of the process it leaves at most one refresh per session under way |
| AuthSessions.AuthService.OnTokens | apps/api/src/auth/auth.service.ts:426-468 | Tokens are written over an active row only; the refresh is settled |
| AuthSessions.AuthService.OnUnauthorized | apps/api/src/auth/auth.service.ts:474-494 | A rejected token falls back to a sibling's newer row, else goes on to revoke |
| AuthSessions.AuthService.OnRevoke | apps/api/src/auth/auth.service.ts:496-497 | The revocation that follows settles the refresh |
| AuthSessions.AuthService.OnTransientFailure | apps/api/src/auth/auth.service.ts:478-486 | Any other failure keeps the session for another try and settles the refresh |
| AuthSessions.SessionRepository.DoUpdateAfterRefresh | apps/api/src/sessions/auth-session.repository.ts:134-157 | Written only over an unrevoked, unexpired row: the new tokens and times field by field, never past the limit of the copy, the refresh token kept when none is given |
| AuthSessions.SessionRepository.DoRevoke | apps/api/src/sessions/auth-session.repository.ts:159-161 | No lookup finds the session afterwards at any time; it is stamped and expired at once, the first revocation stands, and lookups of every other session answer as before |

## Left out

- Settlement.SettlingNeverMeetsALiveRun: leaves out the start-budget branch, of which the exact failing condition is proved beside it; a describe answer is taken as truthful, a start call as one atomic effect whose response may be lost, and the grace cutoff as keeping the reconciler off a row until its create path has finished. One reconciler here; SettlementReplicas has any number.
- Settlement.LiveRunSettlesItsOwnRow: the writer is that very run only short of a purge under a write in flight or a pass; writes that carry no status are not steps of this model, since they move no status.
- DiscordFreeze.FreezeChannel: assumes no swallowed failure; under one the crawl skips rows by design and says so in its coverage, which DiscordCrawl.IterateRecords states.
- GitHubFreeze.FreezeRepository: assumes no swallowed failure, and listings that do not shift during the crawl.
- MattermostCrawl.IterateRecords: a page's order array is taken to name only posts the page carries, and creation times to be distinct.
- EncryptedRun.Run.RunEncryptedCustomScoreLifecycle: no bound on the number of rounds is claimed, because a ready poll skips the deadline check; a trace is cut off after a given number of rounds.
- EncryptedRun.Run.RunOrchestrator: definition lookups and dependency resolution are one awaited activity, and score posting after completion is not an event.
- SnapshotReconciler.StillUnsettled: is about a pass no other writer interleaves with; Settlement covers the interleavings.
- Credentials.OpenOfSealed: the cipher is idealised and hashing uninterpreted; UTF-8 is a function with a left inverse, and text outside the base64url alphabet fails to decode, where Node's decoder skips such characters.
- HttpErrors.HttpErrorIsNetworkErrorIff: lower-casing is that of ASCII letters; other characters that lower-case into ASCII, such as the Kelvin sign, stay as they are, and only spaces, tabs and line ends are trimmed.
- HttpRetry.ReadResponse: JSON is not parsed here; whether a body parses, the complaint if not and its retry_after field come with the body.
- CommunityAudit.Community.CompleteConnect: also stands for the Mattermost token connect, whose validation failures come before any row; storage failures and the race of two first installs are not modelled.
- CommunityRaces.LogReplaysIff: is about one connection that stays; a successful disconnect while other operations are under way, and a write or append that fails, are not steps of it.
- AuthSessions.NoRefreshOutlivesCreation: takes each repository call as atomic; the lookup and save inside a refresh update are two statements in the code.
- Coverage across a resume: the reasons live in a local list of one call, so a failure swallowed before a throw is forgotten by the call that resumes, and coverage is claimed call by call.
- Discord's active-thread listing is fetched per call; its cache per guild is not modelled. Thread ids sort as numbers where the code compares strings.
- Unreadable cursors, which restart a crawl, and the JSON encoding of cursors.
- Row uniqueness for GitHub comments: issue comments and review comments are numbered apart but share one row type.
- Platform object and user ids are opaque values; parsing of ISO timestamps is left to the platform clock.
- Ordering of startedAt against completedAt: stamps are taken before the row lock.
- Publications, listing and paging of snapshots, storage clean-up, notifications beyond the id announced.
- Listener callbacks of the socket that call back into it, and the Discord gateway's delayed reconnect.
- Temporal, PostgreSQL, object storage, HTTP and WebSocket libraries; NestJS wiring and logging.
- Preset validation, algorithm execution and scoring, OAuth redirects, admin pages and scripts.
