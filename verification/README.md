# BoxFleet: verified models

BoxFleet runs sing-box nodes from one server. An agent on every node updates itself, executes operations it
claims from the server, and ships traffic, connection and log data; the server stages update campaigns and decides
which user may use which path. This project models the parts of BoxFleet that have to survive crashes, lost
responses and concurrent changes, and proves what they keep.

The Dafny files come in two layers. Protocol files give the durable state as a datatype and every single write,
transaction or message as a named rule with the guard the code has checked before it; the theorems are about every
run of such rules, so a crash may fall between any two of them. Code files hold the classes that update that state
in place, with the loops, early returns and failing calls of the Go code; each of their methods proves that what it
does is a run of the rules, or equals the specification function the lemmas are about.

| files | what they model |
|---|---|
| `UpdateGuard`, `UpdateGuardAgent` | the self-update guard: guard record, agent link, service files and their backup |
| `OperationLog`, `OperationStore`, `StuckOperations` | the server's operations, leases and event log; which operations can still end |
| `OperationOutbox`, `OutboxRuns`, `OperationAgent` | the agent's durable outbox against that server, over a network that loses and repeats messages |
| `TrafficReport` | traffic deltas, reset epochs, staged reports, a server that skips known keys |
| `ConnectionBucket`, `ClosedIdRing`, `ConnectionCollector`, `ConnectionReplay`, `ConnectionStream` | the connection collector |
| `ConnectionEffects`, `ConnectionEvidence` | what one event, and every sequence of them, does to the collector, told from the events alone |
| `ConnectionSession`, `ConnectionArrival` | the snapshots of one tracked connection, and what of them arrives at the server |
| `JournalReport`, `LineReader` | shipping journal entries in batches, reading lines of bounded length |
| `UpdateCampaign`, `UpdateCampaignController`, `CampaignMembers` | staged update campaigns |
| `PathGraph`, `PathStore`, `PathChains`, `PublishedNames` | the dialer graph, its table, and the names published over it |
| `PathAccess`, `PathGrants`, `PathChanges`, `DeletionImpact`, `DeletionRetirement` | grants, credential retirement, the deletion preview and the deletion itself |
| `LongPoll` | the claim handlers' long poll and the notifier |
| `TimeSeries` | time buckets and zero fill |
| `Common`, `Sums` | shared datatypes, finite sums |

## Where the code keeps less than one would expect

- Update guard: an update can be armed while the service backup of an already confirmed update is still on disk
  (the agent died before removing it); a rollback then installs service files two releases old
  (`StaleBackupBreaksRollback`). It can also be armed while another one is pending and has switched the link: saving
  the checkpoint behind the switch fails the operation, but the old agent goes on and takes the unconfirmed candidate
  as the way back; a rollback then ends on a release that was never confirmed
  (`UnconfirmedReleaseSurvivesRollback`). `RecoverableIffCleanRun` shows that there is no third way.
- Operations: a comment at `finalLeaseError` says that a committed update is not reported as failed; when the lease
  monitor gave up while the executor was completing, it is (`CommittedUpdateReportedFailed`).
- Operations: one that was asked to cancel while it runs, and whose lease then runs out, stays `running` for good, and
  its node never gets another operation (`StuckForever`, `StuckIsReachable`). `CanEndIffNotStuck` and
  `NodeGetsAnotherIff` show that this is the only way.
- Outbox: when saving the operation record fails without a crash, the agent still sends the event it could not
  save, and after a restart reports another event under the same sequence. `UnsavedReportConflicts` is a run,
  `InStepIffAppendsSaved` the exact condition over runs.
- Campaigns: an operation created just before a crash and never entered in its row is overlooked; its member is
  skipped later and the next batch starts while it runs (`UnattachedOperationIsOverlooked`). A paused campaign can get
  stuck for good in four ways (`DeadEndsAreReachable`), one of them a node held by such an operation; `ResumableIff`
  says exactly when it can be resumed.
- Long poll: an operation that becomes claimable, by its start time or by the end of a lease, while a handler is
  already blocked wakes nobody (`LateStartMissesWakeup`), nor does one announced under a new name of the node while
  the handler waits under the old one (`RenameMissesWakeup`). `WokenIffNothingLate` shows that nothing else is missed.
- Published names: an edit is only checked from the roots that are live before it, and only blamed for clashes of the
  edited path. So it can publish two other paths under one name (`AcceptedEditCanPublishAClash`), and enabling a path
  the user already has an access to is not checked at all (`EnablingCanPublishAClash`). The exact condition is in
  `AcceptedEditKeepsNamesIff`.
- Dialer depth: only the edited path's own chain is checked, so its ancestors can exceed three paths
  (`AncestorsCanExceedTheLimit`, exact condition in `StaysShallowIff`).
- Grants: a newly granted path that is disabled itself, or whose endpoint is, gets its credentials issued and disabled
  again in one transaction (`DisabledPathGetsNoCredential`, exact condition in `GrantedHopEnabledIff`).
- Deletion preview: behind a hop that is out of service it announces credentials as disabled that the retirement
  keeps (`PreviewDiffersBehindAGap`); it never leaves one out (`PreviewAgainstRetirement`). Deleting a path leaves users
  alone whose access to it is disabled, but the preview announces their credentials as disabled too
  (`PreviewDiffersForADisabledAccess`). `PreviewIsExactIff` says exactly when its list is right.
- Time series: a comment in `series_common.go` calls 400 day buckets the largest legitimate series; the code allows 401
  (`BoundsAreReached`). The model follows the code.

## Model

| member | source | states |
|---|---|---|
| UpdateGuardRules.CleanRunsRecover | internal/agent/update_guard.go:74-131 | In every durable state of every cleanly armed run a pending guard leads back to the release confirmed last, its original service files are the backup, or the live files if there is none, the link is one of the two releases, at most two starts were granted; when `rolled_back` is written, the link is on the release confirmed last and the files are the original ones |
| UpdateGuardRules.RecoverableIffCleanRun | internal/agent/updater.go:205-225 | A run stays recoverable throughout if and only if no update was armed over a foreign backup, and none while a pending update had switched the link |
| UpdateGuardRules.StaleBackupBreaksRollback | internal/agent/update_guard.go:151-192 | A legal run that is rolled back to service files that are not the originals |
| UpdateGuardRules.UnconfirmedReleaseSurvivesRollback | internal/agent/updater.go:219-225 | Legal runs whose `rolled_back` leaves the link on a release that was never confirmed: the next update to another version, and to the same |
| UpdateGuardRules.ThirdStartRollsBack | internal/agent/update_guard.go:96-130 | Within the deadline, while the link stands on the candidate, the first two completed guard runs each grant a start and change nothing but its count; the third, any after the deadline, and any that finds the link back puts the link on the release confirmed last and restores files and record |
| UpdateGuardAgent.Host.Persist | internal/agent/update_guard.go:42-54 | A durable write happens, fails, or crashes the agent before or after it, and is always one rule |
| UpdateGuardAgent.Host.WriteServiceFiles | internal/agent/service_files.go:43-73 | Files are written one by one; finished means all are in place, cut short means only rule steps were taken |
| UpdateGuardAgent.Host.SyncServiceUnits | internal/agent/service_files.go:81-139 | A pending update saves the files found on disk before the first overwrite; success leaves the desired files |
| UpdateGuardAgent.Host.UndoServiceWrite | internal/agent/service_files.go:141-145 | Undoing never reports success and touches nothing but service files |
| UpdateGuardAgent.Host.RestoreServiceBackup | internal/agent/service_files.go:147-178 | Success puts the backup's files back and removes it |
| UpdateGuardAgent.Host.ClearServiceBackup | internal/agent/service_files.go:180-186 | Removes the backup and nothing else |
| UpdateGuardAgent.Host.RunAgentGuard | internal/agent/update_guard.go:74-131 | A successful guard run, in whatever state a crash left the disk: with a pending update it charges and grants a start exactly if fewer than two were granted, the deadline has not passed and the link is not back, leaving link, files and backup; otherwise the link is on the previous release, the record `rolled_back`, the files restored and the backup gone; without one, nothing changes but what an earlier rollback left to restore |
| UpdateGuardAgent.Host.ConfirmAgentUpdateGuard | internal/agent/update_guard.go:151-192 | Confirming a pending candidate needs the heartbeat and ends with no guard, no backup and the desired files; without the heartbeat it fails, and for another release it succeeds, in both cases without a change |
| UpdateGuardAgent.Host.UpdateAgent | internal/agent/updater.go:132-235 | The tail of an update, by whatever release is running and wherever the link is: it arms the guard with zero attempts, the link's target as the way back, before it switches the link; a failure leaves the old agent running |
| UpdateGuardAgent.Lifetime | internal/agent/update_guard.go:74-192 | Any sequence of starts, crashes, confirmations, synchronisations and updates, of any operations and service definitions, is a legal run, recoverable exactly when cleanly armed |
| OperationLog.NextKeepsInv | internal/server/db/node_operations.go:115-537 | Every server transaction keeps gapless sequences, one active operation a node, and lease records consistent |
| OperationLog.SequencesAreGapless | internal/server/db/node_operations.go:492-503 | The stored sequences of an attempt are exactly 1 up to the last one |
| OperationLog.RunInv | internal/server/db/node_operations.go:115-537 | The invariant holds in every state of every run |
| OperationLog.HistoryIsFinal | internal/server/db/node_operations.go:423-537 | Once a later attempt is claimed or the operation is terminal, no event is added to the earlier attempt; stored events never change |
| OperationLog.JudgeIsSound | internal/server/db/node_operations.go:460-532 | A report is appended exactly when it is next in order under the current lease; on a closed attempt it is an exact replay or refused |
| OperationLog.VerdictsMean | internal/server/db/node_operations.go:460-532 | A report is appended exactly when the operation runs on the node, the report carries its live lease and attempt, is the next in sequence, and cancels only on request; the operation then has the status of the event, its lease kept and extended by 90 seconds if that is running and gone otherwise, and nothing else changes; any other verdict changes nothing |
| OperationLog.LastEventIsTheStatus | queries/node_operations.sql:167-191 | In every state of every run: an operation whose current attempt has events has the status of the last of them |
| StuckOperations.CanEndIffNotStuck | queries/node_operations.sql:75-137 | Over a clock that does not go back, an active operation can still be brought to an end if and only if it is not running with a requested cancellation and an expired lease |
| StuckOperations.StuckForever | queries/node_operations.sql:63-216 | From then on nothing changes it, and its node gets no other operation |
| StuckOperations.NodeGetsAnotherIff | internal/server/db/node_operations.go:173-177 | A node can get another operation if and only if none of its operations is stuck |
| StuckOperations.StuckIsReachable | queries/node_operations.sql:125-138 | A run from the empty log into such a state |
| OperationStore.LastEventSequence | internal/server/db/node_operations.go:492-497 | The maximum over stored events is the last sequence |
| OperationStore.Store.CreateNodeOperation | internal/server/db/node_operations.go:115-226 | Exactly which requests are refused, answered by the stored operation of the same key, conflict with it, find the node busy, or are stored as one new queued operation |
| OperationStore.Store.ClaimNodeOperation | internal/server/db/node_operations.go:326-384 | A claim resumes the presented live lease for another 90 seconds, or starts the next attempt under a new token, or grants nothing; an operation of the node that is due, within its capabilities, and queued or out of its lease is never passed over |
| OperationStore.Store.RenewLease | internal/server/db/node_operations.go:386-405 | Renewal succeeds exactly for the holder of the live lease, which it extends to 90 seconds from now, and reports a requested cancellation |
| OperationStore.Store.RequestCancel | internal/server/db/node_operations.go:407-414 | A queued operation is cancelled, a running one only asked to stop |
| OperationStore.Store.CancelUnclaimed | internal/server/db/node_operations.go:416-421 | Only a queued operation is cancelled |
| OperationStore.Store.RecordNodeOperationEvent | internal/server/db/node_operations.go:423-537 | An appended report stores its event and leaves the operation with the event's status, its lease kept and extended to 90 seconds from now while that is running and void otherwise; all else, and everything on any other verdict, stays |
| OperationOutbox.SavedRunsStayInStep | internal/agent/operations.go:397-440 | In every run whose reports were saved before they were sent, the server is at the saved sequence, or one ahead with exactly the saved pending event |
| OperationOutbox.ReportsNeverConflict | internal/server/db/node_operations.go:460-532 | Any sent report, early, late or repeated, is appended, recognised or refused for its lease; never a gap or a reused sequence |
| OperationOutbox.ResendReplays | internal/agent/operations.go:413-440 | Resending the saved report is an exact replay exactly when the server is one ahead |
| OperationOutbox.AppendStaysInStepIffSaved | internal/agent/operations.go:398-411 | An appended report keeps both sides in step if and only if the saved record holds it |
| OutboxRuns.InStepIffAppendsSaved | internal/agent/operations.go:397-440 | Over every run, failed saves included: both sides stay in step throughout if and only if every report appended at the saved record's attempt is the one saved there |
| OperationOutbox.UnsavedReportConflicts | internal/agent/operations.go:398-411 | A run in which a failed save makes the agent reuse a sequence for different content |
| OperationAgent.Agent.SaveOperationState | internal/agent/operations.go:500-506 | Saving succeeds, fails without effect, or crashes |
| OperationAgent.Agent.FlushPendingOperationEvent | internal/agent/operations.go:413-440 | Success means the server has the pending report and the record was advanced and saved |
| OperationAgent.Agent.ReportOperationEvent | internal/agent/operations.go:397-411 | A leftover report goes instead of the new one; success means the report that went is stored |
| OperationAgent.Agent.ClaimOperation | internal/agent/operations.go:84-123 | Keeps sequence and pending report for the same attempt, starts afresh for a new one, drops the record only when the server answered that its lease is void; an answered claim takes up the operation that waits for the node |
| OperationAgent.Agent.RunClaimedOperation | internal/agent/operations.go:126-195 | Success drops the record and means that the server has, of this very attempt, the justified outcome, or a progress report left in the outbox; a committed result is a success unless the monitor lost the lease, any other success rests on an extended lease; wherever else it stops, a restart included, the record stays on disk |
| OperationAgent.Agent.Conclude | internal/agent/operations.go:144-187 | The outcome the executor's end, the lease monitor and the last renewal justify |
| OperationAgent.Agent.RenewLease | internal/agent/operations.go:371-395 | A lease reported as held was extended by the server during the call, with the answer about cancelling |
| OperationAgent.CommittedUpdateReportedFailed | internal/agent/operations.go:155-162 | A run in which the server stores a failure for a committed result, and nothing else may be reported |
| TrafficReport.FoldIsExact | internal/agent/agent.go:757-783 | The deltas of one query are exactly the bytes its readings newly prove, with baseline and epoch advanced |
| TrafficReport.DeltasAreReadings | internal/agent/agent.go:757-783 | Every delta stands for one reading of its counter: it has that value, the epoch the readings up to it prove, and exactly the bytes that reading adds |
| TrafficReport.TrafficIsConserved | internal/agent/agent.go:738-803 | Over every run of readings, resets, crashes and lost responses: recorded plus staged bytes are the closed epochs plus the saved baseline; sequences have no gap and one content each |
| TrafficAgent.Server.RecordTrafficReport | internal/server/db/traffic.go:27-110 | A key seen before changes nothing |
| TrafficAgent.Agent.ReadCounters | internal/agent/agent.go:757-783 | The loop computes the specified fold |
| TrafficAgent.Agent.SaveFold | internal/agent/agent.go:784-797 | Counters, epochs, sequence and staged report are saved as one state or not at all |
| TrafficAgent.Agent.ReportTraffic | internal/agent/agent.go:738-803 | One cycle: a staged report first; finished means the query's readings are saved and nothing is staged |
| ConnectionBucket.Bucket.Merge | internal/model/connection_telemetry.go:342-362 | In place, the merge of both measures |
| ConnectionBucket.MergeMeans | internal/model/connection_telemetry.go:342-362 | Of a session the larger total stands, of anything else the sum, and the window spans both |
| ConnectionBucket.MergeIgnoresOrderAndRepetition | internal/model/connection_telemetry.go:342-362 | The same session snapshots in any order with any repetitions merge to the same measures |
| ConnectionBucket.LatestTotalsWin | internal/model/connection_telemetry.go:342-362 | Of growing snapshots, any delivery that contains the latest merges to its totals |
| ConnectionSession.SnapshotsOnlyGrow | internal/agent/connections.go:365-575 | Over every sequence of batches, replays and drains, the snapshots of one tracked connection, from its entry to its close or sweep, are of one session and only grow, and the latest of an open one has its high-water marks |
| ConnectionArrival.StoredSnapshotsArrive | internal/agent/connections.go:542-649 | Wherever drains cut in, a session's drained buckets and its waiting one merge to what its stored snapshots merge to |
| ConnectionArrival.SessionTotalsArrive | queries/connection_events.sql:191-199 | Delivered in any order and with any repetitions, they give the totals of the latest snapshot if that was stored, which are the high-water marks while the connection is open |
| ConnectionBucket.LegacyMergeCountsTwice | internal/model/connection_telemetry.go:349-355 | Merging a legacy bucket with itself is harmless exactly when it is empty |
| ConnectionBucket.KeyIsIdentity | internal/model/connection_telemetry.go:316-338 | Two keys are equal exactly for the same session or the same legacy dimensions; a session never shares a key with a legacy bucket |
| ClosedIdRing.QueueIsLastEffectiveAdds | internal/agent/connections.go:651-680 | After any adds the queue is the last `limit` effective ones, without repetition, first in first out |
| ClosedIdRing.RememberedFor | internal/agent/connections.go:66-70 | An id survives fewer than `limit` further adds |
| ClosedIdRing.Ring.Add | internal/agent/connections.go:670-680 | The ring and its map represent the queue after the add |
| ClosedIdRing.Ring.Contains | internal/agent/connections.go:665-668 | The map answers membership in the queue |
| ConnectionCollector.BytesAreConserved | internal/agent/connections.go:331-649 | Over every sequence of batches and drains: drained plus pending plus refused bytes are the growth of all high-water marks; attributed is at most observed; observed connections are attributed plus unattributed; all maps stay bounded |
| ConnectionCollector.EventKeepsInv | internal/agent/connections.go:365-509 | Every single event keeps that balance |
| ConnectionEvidence.BytesAreWhatEventsProve | internal/agent/connections.go:331-649 | Over every sequence of batches, replays and drains: the marks of every tracked connection are what the events about it prove, ticks by their growth and totals by their level, and drained plus pending plus refused bytes are the sum of what the events prove over all entries ever made |
| ConnectionEffects.TickRaisesMarks | internal/agent/connections.go:432-446 | An UPDATE of a tracked connection adds to each mark the positive part of its own delta, counts the connection once in the window, as attributed or not, and takes a snapshot exactly if a mark rose |
| ConnectionEffects.TotalsRaiseMarks | internal/agent/connections.go:376-388 | A NEW event of a tracked connection raises each mark to its total if that is higher |
| ConnectionEffects.NewConnectionIsTracked | internal/agent/connections.go:411-428 | A connection not known yet is tracked from its totals on, counted, and gets a first snapshot |
| ConnectionEffects.CloseBooksTheRest | internal/agent/connections.go:448-509 | A close books what the final totals add to the marks, takes the connection out, remembers its id, raises the close high-water mark, and its snapshot lasts from creation to the instant chosen from event, connection and clock |
| ConnectionEffects.ReplayedCloseBooksTheRest | internal/agent/connections.go:376-387 | So does a NEW event that shows a tracked connection closed |
| ConnectionEffects.UntrackedCloseIsRecovered | internal/agent/connections.go:390-409 | A close of a connection never tracked, not accounted for and not from before the start, books all its bytes, counts as a gap and leaves the same |
| ConnectionEffects.OtherEventsOnlyCount | internal/agent/connections.go:365-492 | All other events change nothing, or only the counter of gaps or of refused entries |
| ConnectionEffects.ReplayBegins | internal/agent/connections.go:331-360 | A replay counts as a gap unless it is the first one, and afterwards drops exactly what belongs to older epochs |
| ConnectionEffects.DrainHandsOut | internal/agent/connections.go:624-649 | A drain with anything to report empties buckets and counters, books the bytes, and counts every connection afresh; the marks stay |
| ConnectionReplay.SurvivorsWereMentioned | internal/agent/connections.go:511-523 | After a replay every connection still tracked was mentioned in it |
| ConnectionReplay.ReplayIsIdempotent | internal/agent/connections.go:331-428 | Delivering the same full state twice leaves live totals, buckets, remembered closes, byte and connection counters as after the first delivery |
| ConnectionReplay.KnownNewIsRefresh | internal/agent/connections.go:365-410 | A NEW event the collector already knows changes the epoch and nothing else |
| ConnectionStream.Collector.Receive | internal/agent/connections.go:331-360 | In place as specified: a replay starts a new epoch, every event is applied in order, and a replay sweeps at its end |
| ConnectionStream.Collector.HandleNew | internal/agent/connections.go:365-428 | In place as specified: a known connection adds only its growth, a recognised close is skipped, an unrecognised one is recovered in full, a new one is refused at the bound |
| ConnectionStream.Collector.HandleUpdate | internal/agent/connections.go:432-446 | In place as specified: each mark of a tracked connection rises by the positive part of its own delta, unknown ids are ignored |
| ConnectionStream.Collector.HandleClosed | internal/agent/connections.go:448-492 | In place as specified: final totals close the gap, a close already accounted for is no new gap, an unknown one is recovered in full |
| ConnectionStream.Collector.CloseTracked | internal/agent/connections.go:497-509 | Records the last contribution, forgets the connection, remembers its id |
| ConnectionStream.Collector.SweepStale | internal/agent/connections.go:517-523 | Drops exactly the entries of older epochs |
| ConnectionStream.Collector.StoreSnapshot | internal/agent/connections.go:542-575 | Merges the snapshot or refuses it at the bound, and books the bytes accordingly |
| ConnectionStream.Collector.Drain | internal/agent/connections.go:624-649 | Hands out everything pending, unless there is nothing; its window starts where the last one ended |
| JournalReport.Reporter.Flush | internal/agent/agent.go:825-841 | The cursor is saved only after the whole batch was accepted |
| JournalReport.Reporter.ReportLogs | internal/agent/agent.go:805-891 | Wherever a cycle stops, no entry before the saved cursor is missing on the server; a finished cycle has sent exactly the entries it read, each once and in order, in batches that go out as soon as they have 100 entries or 256 KiB, has read everything unless eight batches were full, and leaves the cursor behind the last entry read that has one |
| LineReader.ReadLines | internal/agent/agent.go:220-248 | For every way the text is cut into slices: the kept lines up to the first refused one, and the right ending |
| LineReader.TrimRight | internal/agent/agent.go:239-239 | Exactly the carriage returns and line feeds at the end go |
| LineReader.OversizedLineIsSkipped | internal/agent/agent.go:216-219 | An oversized line changes nothing about the lines before and after it |
| LineReader.LineIsDelivered | internal/agent/agent.go:237-243 | A line of at most 1 MiB is delivered without its terminator, or not at all if nothing else is on it, whatever stands around it |
| CampaignRules.CampaignIsStaged | internal/server/api/update_campaigns.go:62-241 | In every state of every run: earlier batches done, later ones untouched, what is in flight lies in the current batch and fits one batch, the current batch is not empty, a succeeded campaign has nothing left |
| CampaignRules.LiveOperationsAreStaged | internal/server/api/update_campaigns.go:164-212 | No node beyond the current batch gets an operation; a live one of a node not deleted is in flight, then in the current batch, if and only if it was entered in its row |
| CampaignRules.SuccessIsReal | internal/server/api/update_campaigns.go:73-132 | A member counts as updated only if its operation succeeded |
| CampaignRules.UnattachedOperationIsOverlooked | internal/server/api/update_campaigns.go:166-206 | A run that starts the next batch while an overlooked operation runs |
| CampaignRules.DeadEndIsFinal | internal/server/api/update_campaigns.go:372-427 | From a dead end no run without cancelling leaves the pause |
| CampaignRules.ResumableIff | internal/server/api/update_campaigns.go:372-427 | A paused campaign can be set running again if and only if some member of the current batch is broken and no broken one lost its node, has its node held by an operation that cannot end, or has a leftover retry |
| CampaignRules.DeadEndsAreReachable | internal/server/api/update_campaigns.go:386-420 | Runs into each of the four dead ends |
| UpdateCampaignController.Controller.RefreshMembers | internal/server/api/update_campaigns.go:73-132 | Afterwards every member whose operation had ended shows how it ended, or was skipped with its node |
| UpdateCampaignController.Controller.ShowOperation | internal/server/api/update_campaigns.go:95-131 | Cancels an operation queued for too long, so that it is not queued afterwards, skips it only if it was never run, otherwise shows its status |
| UpdateCampaignController.Controller.DispatchBatch | internal/server/api/update_campaigns.go:164-212 | Every member of the current batch still to be dispatched gets an operation, or is skipped exactly for being late, disabled or deleted, or its node was held by an active operation at the time; no other row is written |
| UpdateCampaignController.Controller.AdvanceBatch | internal/server/api/update_campaigns.go:214-239 | Moves to the lowest batch with a pending member, or finishes when there is none, and only when the batch is done |
| UpdateCampaignController.Controller.Reconcile | internal/server/api/update_campaigns.go:62-241 | Leaves inactive campaigns alone; otherwise reflects every operation that had ended before the call, whatever happens to the database meanwhile |
| UpdateCampaignController.Controller.ResumeCampaign | internal/server/api/update_campaigns.go:372-427 | Conflict exactly when not paused or nothing is broken; acceptance leaves it running with nothing broken |
| UpdateCampaignController.Controller.CancelCampaign | internal/server/api/update_campaigns.go:345-370 | Conflict exactly for terminal campaigns; acceptance cancels and keeps the rows, and no operation in flight whose cancellation is accepted stays queued |
| CampaignMembers.PickCanary | internal/server/api/update_campaigns.go:547-564 | An online active node, else an online one, else none |
| CampaignMembers.BuildMembers | internal/server/api/update_campaigns.go:547-576 | An online canary changes places with the first node; positions follow the list, member 0 alone is in batch 0, and member i in batch 1 + (i - 1) / size |
| CampaignMembers.CheckMembers | internal/server/db/node_update_campaigns.go:101-127 | Accepts exactly distinct nodes and positions, valid kinds and one canary |
| CampaignMembers.BuiltPlansAreStaged | internal/server/api/update_campaigns.go:565-576 | A built plan passes the store's checks, is a permutation of the nodes, and no batch is larger than allowed |
| PathGraph.SoundIffAcyclic | internal/server/db/paths.go:693-720 | All chains end exactly when nothing dangles and there is no cycle |
| PathGraph.Validation.Visit | internal/server/db/paths.go:693-719 | The depth-first walk accepts exactly chains within the limit, and its errors are true |
| PathGraph.ValidatePathGraph | internal/server/db/paths.go:678-721 | Accepts a candidate exactly if its chain in the changed graph is complete and at most three paths long |
| PathGraph.GraphStaysSound | internal/server/db/paths.go:173-205 | Whatever is created, changed, switched or deleted, the stored graph stays free of cycles and dangling edges |
| PathGraph.StaysShallowIff | internal/server/db/paths.go:720-720 | All chains stay within the limit if and only if every path that dials through the edited one leaves it room |
| PathGraph.AncestorsCanExceedTheLimit | internal/server/db/paths.go:720-720 | Accepted changes after which a chain has four paths |
| PathStore.Store.CreatePath | internal/server/db/paths.go:173-205 | Stores exactly the validated path |
| PathStore.Store.UpdatePath | internal/server/db/paths.go:409-486 | Accepted exactly for a known path with a short chain, if for every user all that the edited graph emits from the roots live before can be read and does not clash with the edited path |
| PathStore.AcceptedEditKeepsNamesIff | internal/server/db/paths.go:475-537 | With the roots live before for the check and those live after for what is published: distinct names stay distinct over an accepted edit if and only if no path newly published, the edited one only if the edit makes its own access live, shares its name |
| PathStore.AcceptedEditCanPublishAClash | internal/server/db/paths.go:521-526 | An accepted edit after which a user gets two other paths of one name |
| PathStore.EnablingCanPublishAClash | queries/paths.sql:80-93 | An accepted edit that enables a path a user has an access to and so publishes it under a name in use |
| PathStore.Store.DeletePath | migrations/023_endpoints_paths.sql:44-59 | A path others dial through cannot be deleted |
| PublishedNames.ValidatePublishedNames | internal/server/db/paths.go:475-537 | Terminates on every sound graph and accepts exactly when all emitted paths can be read and none clash |
| PublishedNames.EmittedByIsEmittedSet | internal/server/db/paths.go:488-535 | What is emitted are the enabled paths reachable over enabled paths from the user's roots |
| PublishedNames.PublishesIff | internal/server/db/paths.go:488-535 | A root publishes exactly what it dials over enabled paths only, itself included |
| PublishedNames.ClashIff | internal/server/db/paths.go:516-526 | Two paths clash exactly if their display names are equal, where a path without one goes by its proxy's name and its own |
| PathChains.ChainIsReached | internal/server/db/paths.go:884-903 | The collected chain is what dialer hops reach |
| PathGrants.Collector.Visit | internal/server/db/paths.go:884-903 | The shared visit with its seen map collects exactly the chain |
| PathGrants.CollectHops | internal/server/db/path_groups.go:444-463 | The proxies of all paths on the chains |
| PathGrants.GrantPathToUser | internal/server/db/paths.go:762-829 | Issues a credential for every hop and activates the root only |
| PathGrants.DisableUnusedCredentials | internal/server/db/paths.go:877-930 | Disables exactly the enabled credentials, of proxies in service, that no live active access needs |
| PathGrants.ReconcilePathGrants | internal/server/db/path_groups.go:431-511 | All or nothing: afterwards a path is active if and only if it is granted directly or is a member of an existing, enabled group granted to the user; credentials are as specified and names distinct |
| PathAccess.EnabledIff | internal/server/db/paths.go:877-930 | Which credentials are enabled after reconciling: issued or enabled before and on the chain of a live active access, or enabled before and of a retired proxy |
| PathAccess.EnabledMeans | internal/server/db/paths.go:877-930 | Of a proxy in service, a credential is enabled after reconciling if and only if it was enabled before or some newly active path dials over the proxy, and some active path dials over it whose own row, endpoint and proxy are in service |
| PathAccess.GrantedHopEnabledIff | internal/server/db/path_groups.go:491-511 | A hop of a newly granted path is enabled if and only if a live active access needs it |
| PathAccess.LiveGrantIsUsable | internal/server/db/path_groups.go:491-511 | Every hop of a newly granted live path is enabled |
| PathAccess.DisabledStaysDisabled | internal/server/db/path_groups.go:485-503 | Through any number of reconciliations a credential an operator disabled is not restored while its hop stays in use |
| PathChanges.SelectedIsAsAsked | internal/server/db/path_selection.go:42-65 | Changed paths are as asked for, all others as before |
| PathChanges.Store.ChangeUserPathSelection | internal/server/db/path_selection.go:16-67 | On success every named path is active as asked for, every other one exactly if it was granted before, directly or through an enabled group; all grants are direct now and the user is reconciled; otherwise nothing changes |
| PathChanges.Store.ChangePathGroup | internal/server/db/path_groups.go:172-418 | On success exactly the users of the group, or the one named, are reconciled: what they have active is what other grants give them and, after saving it enabled or granting it, the members of the group; after saving it disabled, archiving or revoking it, nothing through it; no other user's rows change; otherwise nothing changes |
| PathChanges.DisabledPathGetsNoCredential | internal/server/db/path_groups.go:491-511 | A reconciled grant whose only hop has no enabled credential |
| DeletionImpact.FindAffected | internal/server/db/deletion.go:93-117 | The rounds end and find exactly the paths whose chain reaches something deleted |
| DeletionImpact.UnaffectedChain | internal/server/db/deletion.go:105-117 | An unaffected path dials through unaffected paths only |
| DeletionImpact.PrefixIsChainIff | internal/server/db/deletion.go:183-200 | What the preview follows is the whole chain exactly when every hop is in service |
| DeletionImpact.PreviewCredentials | internal/server/db/deletion.go:181-235 | A credential not deleted yet is shown as unavailable exactly if its user is deleted, as archived exactly if the user stays and its proxy goes, and as disabled exactly if neither holds, it is enabled, its user has a grant on an affected path, and no remaining grant still dials over its proxy through paths in service |
| DeletionRetirement.RetireCredentials | internal/server/db/deletion.go:262-315 | What a deletion leaves of every credential: archived with its proxy; disabled exactly if its user is reconciled and no remaining grant in service dials over its proxy any more; otherwise untouched |
| DeletionRetirement.PreviewAgainstRetirement | internal/server/db/deletion.go:181-235 | Every proxy the preview requires is required on retirement; the reverse can only fail behind a hop out of service |
| DeletionRetirement.PreviewIsExactIff | internal/server/db/deletion.go:222-235 | The preview foretells what the deletion leaves of every credential a user may have if and only if every proxy in service on a remaining live chain is reached in service by some remaining grant; for a user who loses only disabled grants with a deleted path, if and only if remaining grants reach every proxy; always for one who loses no grant or is deleted |
| DeletionRetirement.PreviewDiffersBehindAGap | internal/server/db/deletion.go:183-200 | A credential shown as disabled that the deletion leaves enabled |
| DeletionRetirement.PreviewDiffersForADisabledAccess | internal/server/db/paths.go:633-672 | A credential shown as disabled when a path is deleted whose only access is disabled, and left alone since that user is not reconciled |
| LongPoll.NoMissedWakeup | internal/server/api/node_operations.go:85-133 | In every interleaving, a blocked handler that could run an operation announced under its name and still to be run holds a closed channel, unless that operation was too early or leased at the handler's second read |
| LongPoll.WokenIffNothingLate | queries/node_operations.sql:86-97 | A run misses no wakeup if and only if, while a handler is blocked on its open channel, no announced operation it could run becomes claimable and none is first announced under another name |
| LongPoll.LateStartMissesWakeup | internal/server/api/node_operations.go:198-216 | A run in which an operation with a start time becomes claimable and the handler sleeps on |
| LongPoll.RenameMissesWakeup | internal/server/db/nodes.go:404-442 | A run in which the node is renamed and an operation, claimable throughout, is announced under the new name while the handler sleeps on |
| LongPoll.Notifier.Subscribe | internal/server/api/node_operation_notifier.go:17-26 | Hands out the node's current open channel, and is the subscription step of the long poll |
| LongPoll.Notifier.Notify | internal/server/api/node_operation_notifier.go:28-35 | Closes everything issued for the node, nothing else, and no channel twice, and is the announcement step of the long poll |
| TimeSeries.SqlAgreesWithGo | internal/server/db/series_common.go:88-117 | The database and the code assign every instant the same bucket, for every offset |
| TimeSeries.BucketIsLocal | internal/server/db/series_common.go:88-117 | An hour bucket is the hour of UTC around the instant, a day bucket the local day from midnight to midnight |
| TimeSeries.BucketStarts | internal/server/db/series_common.go:132-149 | One start a step from the first to the last bucket, cut only by the cap |
| TimeSeries.ParseSeriesParams | internal/server/api/series_params.go:37-76 | Which requests are served, with which bucket; each served one fits the walk uncut |
| TimeSeries.AcceptedWindowsFit | internal/server/api/series_params.go:54-65 | Accepted windows touch at most 193 hours or 401 days, so the cap never cuts |
| TimeSeries.BoundsAreReached | internal/server/db/series_common.go:35-37 | Both bounds occur |
| TimeSeries.BucketOccursOnce | internal/server/db/series_common.go:132-149 | Every instant of the window, to the second, has its bucket at exactly one place |
| TimeSeries.ZeroFillSeries | internal/server/db/series_common.go:154-171 | One point for every start, zero where nothing was counted |
| TimeSeries.PointCountsItsBucket | internal/server/db/network_event_series.go:146-189 | The point of a bucket is the count of exactly the events within its hour or day |
| TimeSeries.ZeroFillConserves | internal/server/db/network_event_series.go:146-189 | The points add up to the total of the window's events |

## Left out

- HTTP, JSON, SQLite, file formats and service manager commands: a call succeeds, fails, or loses its response; a transaction is atomic.
- Real time: deadlines, lease expiry and timeouts are parameters or nondeterministic choices.
- Field checks that do not change the protocol: text lengths, trimming, identifiers, capability names, JSON payloads, phases.
- Updating sing-box, installing, downloading and verifying candidates, refreshing the guard's own binary; of update checkpoints only that saving the last one can fail.
- The lease monitor's own renewals, of which only the result counts here; the re-read after an idempotency race on creation.
- ConnectionStream.Collector.HandleNew: tracked connections are values in the live map, not shared objects, so aliasing of entries is not captured; the Go code never shares them either.
- Session window bounds are instants, not text: that the fixed-width text sorts in the order of time is not modelled. Ports and versions in keys are their decimal text.
- ConnectionStream.Collector.Drain: the order of the drained buckets is not modelled.
- ConnectionArrival.SessionTotalsArrive: a session that is swept and announced again gets a second entry with totals of its own; for it only `StoredSnapshotsArrive` is stated.
- Staging of connection reports and their record on the server: the same pattern as traffic, but sequence numbers may have gaps.
- TrafficReport.TrafficIsConserved: counter readings are natural numbers; negative readings and reports of unknown credentials are not modelled.
- JournalReport.Reporter.ReportLogs: the journal is read by position; the first run and the resumption by time are not modelled. OpenRC log files are not part of this model.
- UpdateCampaignController.Controller.Reconcile: promises about progress stop at one call; messages and error texts of rows are not modelled.
- CampaignMembers.BuildMembers: which nodes are eligible, and sorting them by name, are inputs.
- OperationAgent.Agent.RunClaimedOperation: the terminal event need not reach the server, since a leftover progress report makes the code skip it; the contract therefore promises one of these reports, not the terminal one.
- PathChanges.Store.ChangePathGroup: group revisions, preview tokens, names, the impact report and the audit record are not modelled; a preview is a change that is rolled back.
- PathStore.Store.UpdatePath: managed paths, visibility rules and direct publication of proxies are not modelled; endpoints, proxies and every user's active accesses are parameters. Restoring a proxy or enabling an endpoint, which can make accesses live as well, is not part of this model.
- DeletionImpact.PreviewCredentials: items other than credentials, and their order, are not modelled.
- DeletionRetirement.RetireCredentials: paths of proxies retired earlier are taken to be archived since then; the grants and the tables it reads are those that deletion leaves untouched.
- LongPoll.NoMissedWakeup: a claim is one atomic read and write; the timer that ends every wait is a step that may happen at any time.
- Text filters of series queries, grouped series, pagination, the web interface, tokens, cryptography and log parsing.
