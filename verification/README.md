# A verified model of the file sync engine's core

This project models the parts of the engine whose correctness is hardest to see by reading the
code, and proves what they promise for all inputs, all runs and all crash points. Each component
has its own modules.

| component | files | main results |
|---|---|---|
| Replicated settings database | `ConfigSync*.dfy`, `PairingCode.dfy` | copies are never ahead of the owner; merges commute; edits and commands are not lost; commands complete once |
| Snapshot retention | `Retention*.dfy` | exactly what a plan deletes, promotes and sweeps; a run stopped anywhere keeps every block that a stored snapshot needs; exactly when a run completes and when it keeps every view; two runs reach a fixed point |
| Archive intake, scrub, repair, prune | `Intake.dfy`, `Scrub.dfy`, `Prune.dfy`, `ArchiveBlocks.dfy` | bounded work; scrub and plan agree; repair leaves nothing repairable; pruning keeps what jobs need |
| Manifests, assembly, restore | `Blocks.dfy`, `Manifests.dfy`, `Assembly.dfy` | a manifest determines the bytes; assembly and restore give exactly them back |
| Block transfer | `Spans.dfy`, `Transfer.dfy`, `Download*.dfy`, `Batch.dfy` | spans partition files; patches rebuild blocks; resumed downloads keep what they saved, fetch nothing twice and hand over exact files; batches round-trip |
| Registry and vault | `RemoteInstances*.dfy` | registry file and credential vault stay consistent at every crash point |
| Single-flight bootstrap | `Bootstrap.dfy` | one worker, one close per channel, no stranded waiter, success reaches every waiter, over all interleavings |
| Apply ordering | `ApplyOrder.dfy` | the greedy schedule is optimal |

`Bytes.dfy`, `Bags.dfy`, `Sorting.dfy`, `Text.dfy` and `Outcomes.dfy` hold what the components
share. `dafny verify dfyconfig.toml` checks everything.

How the code is modelled. Objects whose methods update fields are classes, and loops are loops;
each is proved against a specification function or relation, and the theorems are about that.
Input and output that can fail take their outcome from a parameter, so a statement over all
parameters is a statement over all failures and crash points. SHA-256 is taken to be injective: a
digest is modelled by the bytes that were hashed. A rename is atomic, and a file is a byte sequence.

## Where the code falls short of what it promises

- Retention promotes the wrong manifest for a path that was changed between two snapshots and again
  after the later one, because the change list knows only a path's last change
  (internal/state/json_store.go:1269-1317, internal/backup/archive.go:1078-1108). The run ends with the
  later snapshot showing the older manifest, and that manifest's blocks swept
  (`RetentionHistory.HiddenChangeLosesASnapshot`). A promotion leaves every snapshot as it was exactly
  when both snapshots show the same manifest (`RetentionTheorems.PromotionKeepsViews`). However far a run
  gets, every snapshot has shown the same all along exactly when that holds for every promotion done so far
  (`RetentionHistory.StoppedRunKeepsViewsExactlyWhen`). Without such a hidden change it does hold, the run
  completes, and every snapshot keeps its blocks wherever the run stops
  (`RetentionHistory.AgreesUnlessHidden`, `RetentionHistory.PlainRunKeepsEverything`).
- If such a path did not exist yet in the earlier snapshot there is nothing to promote, and the run fails
  with an error (internal/backup/archive.go:987-990). Every later run over that store fails in the same way
  and nothing is deleted (`RetentionHistory.HiddenCreationStopsRetention`). A run completes if and only if
  the earlier snapshot of every promotion shows the path and the later one has a positive cursor
  (`RetentionCompletion.CompletesExactlyWhen`); one that cannot complete stops before it deletes anything
  (`RetentionCompletion.IncompleteRunDeletesNothing`), but it can already have changed what a kept snapshot
  shows, by a promotion done before the one that fails (`RetentionHistory.FailedRunChangesASnapshot`).
- An intake run whose job list cannot be saved has used no attempt, so the next run processes the same jobs
  again (internal/backup/archive.go:1583-1702). With failing saves no number of attempts bounds the work
  (`Intake.LostSavesProcessForever`). The jobs processed in all are at most the attempts unused at first and
  the jobs whose save failed, and so at most the attempts if every save works (`Intake.ProcessedIsBounded`).
- The bootstrap worker reports success without having reached a peer if its context ends between the
  two looks at it in the first pass (internal/discovery/pairing_dht.go:363-368). `Bootstrap.Dial`
  states exactly when it succeeds; `Bootstrap.SuccessWithoutPeers` gives the case.
- An interrupted small-file batch leaves its bytes in the staging file of another download
  of the same path, next to a record it does not touch (internal/foldershare/batch.go:170-179). The
  next attempt may then hand over a file that is too long, which the size check of `finishDownload`
  refuses (`DownloadTheorems.InterruptedBatchCanLengthenTheFile`). `DownloadTheorems.HandedOverFile` gives
  the exact condition on the disk before the attempt, and `DownloadTheorems.EveryFileHandedOverIsExact`
  shows that only such a batch brings it about.
- A downloaded block is checked by hash only, not by length, so a block list that names a hash of fewer
  bytes than the block has is accepted block by block (internal/foldershare/blocks.go:518-526), and a
  shorter file is handed over (`DownloadTheorems.ShortBlockIsHandedOver`). This is the other half of the
  condition in `DownloadTheorems.HandedOverFile`.
- Witnessing a remote clock does not always make the local clock compare as later: with equal wall time
  and counter the larger writer id wins (internal/configsync/sync.go:226-230). New clocks are still
  later than every clock seen, unless the 32-bit counter wraps (`ConfigSync.TickAdvancesUnlessItWraps`,
  `ConfigSync.WitnessCoversButMayCompareBehind`).
- A delta between manifests of different block sizes can leave out blocks that the base does not have
  in place (`Manifests.DeltaNeedsOneBlockSize`). The rebuild gives the target if and only if every block
  that is not needed is in the base, extended with zeros, at the target's offset
  (`Manifests.PatchGivesTarget`), which one block size ensures (`Manifests.DeltaRebuildsTarget`).

## Model

| member | source | states |
|---|---|---|
| ConfigSync.TickAdvancesUnlessItWraps | internal/configsync/sync.go:214-224 | a new clock is later than every clock the local one covers, if and only if the counter does not wrap |
| ConfigSync.WitnessCoversButMayCompareBehind | internal/configsync/sync.go:226-230 | a witnessed clock is covered, and exactly when it still compares as later |
| ConfigSync.UpsertEditAt | internal/configsync/sync.go:385-393 | the first edit with the id is replaced and every other position is unchanged |
| ConfigSync.UpsertCommandAt | internal/configsync/sync.go:395-406 | a command with a known id replaces the first stored copy exactly if its clock is later, an unknown one is appended, and every other position is unchanged |
| ConfigSyncReplica.Replica.constructor | internal/configsync/sync.go:190-201 | a new replica is empty, with a zero clock of its own id |
| ConfigSyncReplica.Replica.Clone | internal/configsync/sync.go:607-626 | a clone has the same contents |
| ConfigSyncReplica.Replica.Tick | internal/configsync/sync.go:214-224 | the local clock becomes the next clock and nothing else changes |
| ConfigSyncReplica.Replica.WitnessClock | internal/configsync/sync.go:226-230 | the local clock is raised to the remote one if that is later |
| ConfigSyncReplica.Replica.PutOwnField | internal/configsync/sync.go:232-243 | only the own record's field changes |
| ConfigSyncReplica.Replica.Set | internal/configsync/sync.go:246-256 | a refused write changes nothing; an accepted one ticks, writes exactly this field of the own record and returns it |
| ConfigSyncReplica.Replica.Upsert | internal/configsync/sync.go:385-393 | the pending list is upserted in place |
| ConfigSyncReplica.Replica.Queue | internal/configsync/sync.go:261-288 | an edit for this engine is applied at once, one for another is queued as pending; the edit is returned as asked for, under the new clock |
| ConfigSyncReplica.Replica.QueueCommand | internal/configsync/sync.go:293-323 | an accepted command is appended as asked for, waiting, under a new clock, an accepted code normalised; refused exactly for a bad target, an issue with a code, an unreadable code or another action |
| ConfigSyncReplica.Replica.Complete | internal/configsync/sync.go:328-359 | a command completes only at its target, only while pending; it keeps a code only as a done issue, whose code must be readable; a command that is finished already is returned as it is; anything else is an error and changes nothing |
| ConfigSyncReplica.Replica.PublishConnection | internal/configsync/sync.go:362-383 | the own connection is replaced under a new clock and returned, with a last-seen time filled in if it is online and has none |
| ConfigSyncReplica.Replica.UpsertOnboarding | internal/configsync/sync.go:395-406 | the command list is upserted in place |
| ConfigSyncReplica.Replica.FoldRecords | internal/configsync/sync.go:439-466 | foreign records become the later of both, field by field, whatever the order of iteration; the own record stays |
| ConfigSyncReplica.Replica.FoldConnections | internal/configsync/sync.go:467-477 | connections become the later of both |
| ConfigSyncReplica.Replica.FoldEdit | internal/configsync/sync.go:478-496 | an admissible pending edit for this engine is applied and written if its path is unset or its clock is later, and superseded otherwise; every other edit is passed on as it is |
| ConfigSyncReplica.Replica.FoldCommand | internal/configsync/sync.go:497-511 | an issue, or an accept with a readable or no code, for a valid target is kept in its later copy; any other command changes nothing |
| ConfigSyncReplica.Merge | internal/configsync/sync.go:431-515 | the loops compute exactly the merge of both snapshots, lists sorted, the group adopted only if there was none, neither input changed |
| ConfigSyncTheorems.EveryStateIsGood | internal/configsync/sync.go:214-515 | the invariant holds in every state of every run with stale, reordered and repeated merges |
| ConfigSyncTheorems.HistoryGrows | internal/configsync/sync.go:214-515 | along a run no own write, issued clock, arrival or completion is taken back |
| ConfigSyncTheorems.CopyIsNeverAhead | internal/configsync/sync.go:431-466 | every field in a stored copy is in the owner's record with a clock at least as late, and an equal clock means an equal field |
| ConfigSyncTheorems.CurrentSnapshotMakesCopyEqual | internal/configsync/sync.go:431-466 | merging a snapshot taken since the owner's last change makes the copy equal to the owner's record |
| ConfigSyncTheorems.OwnFieldIsLatestArrival | internal/configsync/sync.go:232-288 | an own field is the latest of all own writes and delivered edits for its key |
| ConfigSyncTheorems.DecidedEditHasArrived | internal/configsync/sync.go:478-496 | no replica shows an edit as applied or superseded before its target's own clock has reached it |
| ConfigSyncTheorems.MergeUnitesEdits | internal/configsync/sync.go:385-393 | a merge holds exactly the edit ids of both sides |
| ConfigSyncTheorems.ReachedEditsAreHeld | internal/configsync/sync.go:478-496 | edit ids are never dropped along any chain of merges |
| ConfigSyncTheorems.RelayedEditTakesEffect | internal/configsync/sync.go:478-496 | an edit that reaches its target through any chain is in effect there or was beaten by a later write |
| ConfigSyncTheorems.StampIsNew | internal/configsync/sync.go:214-224 | an issued clock was never issued before |
| ConfigSyncTheorems.ClocksAreUniqueAndIncrease | internal/configsync/sync.go:214-230 | clocks issued in a run are distinct, and each engine's increase |
| ConfigSyncTheorems.CommandCompletesAtMostOnce | internal/configsync/sync.go:328-359 | no command is completed twice in a run, and only its target completes it |
| ConfigSyncTheorems.FinishedCommandStaysFinished | internal/configsync/sync.go:395-406 | no step at any replica takes a finished command back to pending |
| ConfigSyncCommands.EveryCommandIsWellformed | internal/configsync/sync.go:293-359 | every command that any run stores asks a valid engine to issue a code, or to accept one that is readable or was cleared |
| ConfigSyncCommands.MergeUnitesCommands | internal/configsync/sync.go:497-511 | a merge holds exactly the command ids of both sides, each once, in a copy no earlier than either side's |
| ConfigSyncCommands.RunMergeUnitesCommands | internal/configsync/sync.go:431-515 | the same for every merge of every run, of whatever snapshot |
| ConfigSyncCommands.ReachedCommandIsHeld | internal/configsync/sync.go:497-511 | a command is held wherever the state of an engine that held it has reached, through any chain of merges: the same copy, or a finished one where it was waiting |
| ConfigSyncCommands.RelayedCommandCanComplete | internal/configsync/sync.go:325-359 | a waiting command whose state has reached its target is finished there, or its target can complete it: with a failure, or with a success that for an issue brings a readable code |
| ConfigSyncCommands.FinishedCommandKeepsNoCode | internal/configsync/sync.go:325-359 | nowhere does a finished command keep a code, unless it is an issue that succeeded |
| ConfigSyncCommands.CodesAreStable | internal/configsync/sync.go:408-424 | a normalised code passes the check again, if trimming and upper-casing leave it alone |
| PairingCode.NormalizeOnboardingCode | internal/configsync/sync.go:408-424 | sixteen characters of the alphabet, separators dropped, in four groups joined by dashes; an error exactly otherwise |
| PairingCode.NormalizedIsStable | internal/configsync/sync.go:408-424 | a normalised code is its own normal form |
| ConfigSyncConvergence.ChainField | internal/configsync/sync.go:439-466 | after any chain of merges a foreign field is the latest offered |
| ConfigSyncConvergence.ChainConnection | internal/configsync/sync.go:467-477 | after any chain of merges a connection is the latest offered |
| ConfigSyncConvergence.ChainRaises | internal/configsync/sync.go:226-230 | after any chain the local clock is the latest heard |
| ConfigSyncConvergence.ChainFollows | internal/configsync/sync.go:478-496 | after any chain of merges the own record is the latest of the writes it had and the edits delivered |
| ConfigSyncConvergence.ChainEdits | internal/configsync/sync.go:478-496 | after any chain of merges the edit ids are those held at first and those of all the snapshots |
| ConfigSyncConvergence.ChainCommands | internal/configsync/sync.go:497-511 | after any chain of merges the commands are those held at first and those of all the snapshots, each once and in its latest copy |
| ConfigSyncConvergence.MergeOrderDoesNotMatter | internal/configsync/sync.go:431-515 | merging the same set of snapshots in any order and with any repetition gives the same records, own and foreign, connections, edit ids and local clock |
| ConfigSyncConvergence.MergeOrderDoesNotMatterForCommands | internal/configsync/sync.go:497-511 | and the same commands, each in the same copy |
| ConfigSyncConvergence.ReachedRecordIsHeld | internal/configsync/sync.go:439-466 | whoever an engine's state has reached, through any chain of merges, holds each of its fields or a later one |
| ConfigSyncConvergence.RelayedCopyIsCurrent | internal/configsync/sync.go:439-466 | if a state of an engine has reached another through any chain of merges and the engine's record has not changed since, the copy equals the record |
| Retention.ViewIsLastRecord | internal/state/json_store.go:2355-2387 | a snapshot shows the last manifest recorded up to its cursor, unless the path was deleted by then |
| Retention.ViewWithoutRecord | internal/state/json_store.go:2355-2387 | without a record up to its cursor a snapshot shows the current manifest, if that is no newer than the cursor |
| Retention.NextRetained | internal/backup/archive.go:1065-1076 | the first later marker that the plan does not delete; there is one whenever one is needed |
| Retention.PlanFolder | internal/backup/archive.go:906-935 | past the newest, unpinned markers are deprecated, and deleted with a later surviving heir if they already were |
| RetentionRun.PlanSnapshotRetention | internal/backup/archive.go:887-951 | the plan over all folders; an error exactly for a keep count below one |
| RetentionPlan.MarkedExactlyWhen | internal/backup/archive.go:906-935 | a folder's marker is deprecated exactly if at least the keep count of newer ones follow it and it is neither pinned nor deprecated, and deleted exactly if they do and it is deprecated and not pinned |
| RetentionPlan.HeirIsTheNextToStay | internal/backup/archive.go:1065-1076 | a deleted marker's heir is the next of its folder that stays, and all in between are deleted |
| RetentionPlan.PromotedExactlyWhen | internal/backup/archive.go:1078-1108 | a path that an heir shows is promoted exactly if neither its last write nor its deletion lies between the two cursors |
| RetentionPlan.UnchangedPathIsPromoted | internal/backup/archive.go:1078-1108 | a tracked path that an heir shows and that has no record between the two cursors is promoted |
| RetentionPlan.InOrder | internal/backup/archive.go:942-949 | the plan's ids are worked off in the order of their text, promotions by the deleted snapshot and then the path, blocks by their hashes, each once |
| RetentionRun.SweepBlocks | internal/backup/archive.go:1110-1156 | exactly the blocks of deleted snapshots that no retained snapshot and no current file needs |
| RetentionRun.Backup.Execute | internal/backup/archive.go:953-1024 | the state after any prefix of deprecate, promote, delete and sweep steps, stopping at the first error |
| RetentionTheorems.StoppedRetentionKeepsBlocks | internal/backup/archive.go:953-1009 | stopped after any step, every stored snapshot and every current file of those folders keeps the archive blocks it had |
| RetentionPlan.StoppedRunKeepsRestorable | internal/backup/archive.go:953-1009 | stopped after any step, every block of a manifest that a stored snapshot showed, or that is current in a folder with snapshots, is as intact in the archive as before |
| RetentionPlan.SweptExactlyWhen | internal/backup/archive.go:1110-1156 | after a complete run exactly those blocks are gone that a deleted snapshot showed and no remaining snapshot and no current file shows |
| RetentionTheorems.PromotionKeepsViews | internal/state/json_store.go:543-566 | recording a manifest at a snapshot's cursor leaves every snapshot unchanged if and only if that snapshot shows this manifest |
| RetentionHistory.StoppedRetentionKeepsViews | internal/backup/archive.go:972-997 | if the snapshots agree on promoted paths, every snapshot shows the same after any number of steps |
| RetentionHistory.StoppedRunKeepsViewsExactlyWhen | internal/backup/archive.go:953-1009 | however far a run gets, whether it completes, fails or is stopped, every snapshot has shown the same all along if and only if both snapshots of every promotion done so far agree |
| RetentionHistory.AgreesUnlessHidden | internal/backup/archive.go:1078-1108 | without a hidden change a promoted path is the same in both snapshots; with one, the later snapshot shows the last hidden record |
| RetentionHistory.EveryHistoryIsTracked | internal/state/json_store.go:460-508 | every path that was written, deleted and promoted in any order from nothing has its current manifest as the latest recorded one |
| RetentionHistory.HiddenChangeLosesASnapshot | internal/backup/archive.go:1078-1108 | a store on which every complete run ends with the kept snapshot showing the older manifest, whose own block is gone from the archive |
| RetentionHistory.HiddenCreationStopsRetention | internal/backup/archive.go:982-990 | a store on which no run completes and none changes anything, because a planned promotion has no manifest to promote |
| RetentionHistory.FailedRunChangesASnapshot | internal/backup/archive.go:972-997 | a store on which a run, with the promotions in the order of their paths, fails after it made a kept snapshot show the older manifest, and deletes nothing |
| RetentionHistory.PlainRunKeepsEverything | internal/backup/archive.go:953-1009 | without hidden changes a run completes, and stopped anywhere every snapshot shows what it showed and every stored one keeps the blocks of all that it shows |
| RetentionHistory.CompleteRunKeepsViewsExactlyWhen | internal/backup/archive.go:972-997 | a run that completes keeps every view throughout if and only if both snapshots of every promotion show the same manifest |
| RetentionCompletion.HeirsSurvive | internal/backup/archive.go:1065-1076 | only deprecated, unpinned markers are deleted, each with a later heir of its folder that the plan keeps |
| RetentionCompletion.CompletesExactlyWhen | internal/backup/archive.go:953-1009 | a run reaches its end if and only if, for every planned promotion, the deleted snapshot shows the path and its heir's cursor is positive |
| RetentionCompletion.IncompleteRunDeletesNothing | internal/backup/archive.go:972-1001 | a run that cannot complete leaves every marker stored and the archive as it was, wherever it stops |
| RetentionCompletion.CompleteRunIsOneRound | internal/backup/archive.go:953-1001 | a run whose promotions can all be done completes and takes every folder's markers through one round |
| RetentionCompletion.TwoRoundsReachTheFixedPoint | internal/backup/archive.go:887-951 | two rounds leave exactly the newest markers and the pinned ones, and further rounds change nothing |
| RetentionPlan.RemainsExactlyWhen | internal/backup/archive.go:887-951 | of a folder's markers exactly the pinned ones and those with fewer than the keep count of newer ones remain after two rounds |
| RetentionCompletion.TwoRunsReachTheFixedPoint | internal/backup/archive.go:953-1024 | two executions whose planned promotions can all be done complete and leave exactly the newest markers and the pinned ones |
| Intake.ReadWithFallback | internal/backup/archive.go:2004-2021 | the live block or else the first retained copy that verifies |
| Intake.ArchiveOneBlock | internal/backup/archive.go:1759-1781 | reuses a safe block, refuses a damaged one, stores a missing one under its own hash |
| Intake.Worker.Try | internal/backup/archive.go:1627-1665 | a tried job is archived with its block in place, exactly if its folder is known and its block is safe already, or missing, readable and writable; otherwise it is failed and put off; the archive grows by one exactly for a newly stored block |
| Intake.MustSucceedExactlyWhen | internal/backup/archive.go:1759-1781 | the exact condition under which a tried job succeeds: a known folder, and a block that is in the archive intact, or is not in it, can be written, and is in the live file or a retained copy |
| Intake.DueExactlyWhen | internal/backup/archive.go:1673-1685 | a job is open exactly if it is not archived, has attempts left, and was not put off to a later time |
| Intake.TakenExactlyWhen | internal/backup/archive.go:1619-1632 | a run takes exactly the open jobs with fewer open ones before them than it may take |
| Intake.NoRetryTooSoon | internal/backup/archive.go:1687-1692 | a job that failed is not tried again before its delay is over |
| Intake.Worker.RunOnce | internal/backup/archive.go:1583-1671 | exactly the first due jobs are tried, at most the limit, and each that can succeed does; the archive gains one block per job counted as archived, under its own hash, and failed counts the newly failed jobs; each snapshot's jobs are saved or stay as they were |
| Intake.RunUsesAttempts | internal/backup/archive.go:1673-1692 | a run uses up an attempt for each job taken and saved, and leaves archived jobs alone |
| Intake.ProcessedIsKeptOrLost | internal/backup/archive.go:1583-1671 | the jobs a run processes are those it saves and those it fails to save, and none of the latter if every save works |
| Intake.TotalIsBounded | internal/backup/archive.go:1583-1702 | over any sequence of runs with varying attempt limits and failing saves, the jobs taken and saved are at most the attempts unused at first |
| Intake.ProcessedIsBounded | internal/backup/archive.go:1583-1702 | over any sequence of runs the jobs processed are at most the attempts unused at first and the jobs whose save failed; if every save works, at most the attempts |
| Intake.LostSavesProcessForever | internal/backup/archive.go:1583-1702 | one job with one attempt left is processed in each of any number of runs whose saves fail |
| Intake.ArchivedIsFinal | internal/backup/archive.go:1620-1623 | an archived job is never touched again |
| Scrub.ScrubArchive | internal/backup/archive.go:356-405 | exact counts of sound, incomplete, corrupt and missing jobs, and exactly the unreferenced blocks |
| Scrub.CountsAre | internal/backup/archive.go:356-405 | incomplete jobs are those not archived, missing ones those archived without a file, corrupt ones those archived with a wrong file, and the kinds add up |
| Scrub.RemedyIsTheBlock | internal/backup/archive.go:761-804 | a repair source has the block's bytes |
| Scrub.RemedyExactlyWhen | internal/backup/archive.go:761-804 | there is a repair exactly if a configured folder's live file or retained copy, or a peer's archive, has the block |
| Scrub.PlanRepair | internal/backup/archive.go:573-605 | actions for exactly the unsound jobs that have a source, in order, and the number that have none |
| Scrub.ScrubMatchesPlan | internal/backup/archive.go:356-405 | incomplete, corrupt and missing jobs number exactly the plan's repairable plus unresolved |
| Scrub.ExecuteRepair | internal/backup/archive.go:607-685 | stopped after any action by a failed write or save, exactly the jobs of the actions done are marked archived with their blocks safe, but for at most the last one whose save was lost; every other job and block is unchanged and safe blocks stay; after a full repair a new plan has no actions |
| Prune.IsFullyProtected | internal/backup/archive.go:1922-1932 | some job is for the path and every such job's block is safe |
| Prune.PruneFiles | internal/backup/archive.go:1852-1920 | removes only files at least as old as asked for a path all of whose jobs are archived and intact, and leaves none of them; stops early exactly at the first such file that cannot be removed |
| Prune.PruneKeepsWhatJobsNeed | internal/backup/archive.go:2004-2058 | for every job not safe in the archive, the live-or-retained read is the same before and after a prune |
| Blocks.CutDetermines | internal/block/manifest.go:42-79 | a file's block list determines its bytes, by hashes and sizes alone |
| Blocks.VerifiedIsJoined | internal/foldershare/blocks.go:346-367 | a file of the right length passes a contiguous list exactly when it is the joined blocks and hashes fit the sizes |
| Manifests.BuildManifest | internal/block/manifest.go:42-79 | the manifest is the file cut into blocks; an error exactly for a block size that is not positive |
| Manifests.ManifestDeterminesBytes | internal/block/manifest.go:42-79 | equal block lists mean equal files, whatever the block sizes; equal files cut with one block size have equal lists |
| Manifests.PlanDelta | internal/block/manifest.go:81-94 | needed are exactly the target blocks that the base lacks at the same index |
| Manifests.DeltaRebuildsTarget | internal/block/manifest.go:81-94 | writing the needed blocks over the base and cutting to length gives the target |
| Manifests.PatchGivesTarget | internal/block/manifest.go:81-94 | the rebuild is the target if and only if every block that is not needed is in the base, extended with zeros, at the target's offset |
| Manifests.DeltaNeedsOneBlockSize | internal/block/manifest.go:81-94 | two files and two block sizes for which it does not |
| Manifests.PlanContentDelta | internal/block/manifest.go:96-116 | each target block is reused from a source that offers its hash, or needed, in order |
| Manifests.NothingNeeded | internal/block/manifest.go:96-116 | nothing is needed exactly when sources offer every block |
| Assembly.IndexSources | internal/apply/assembler.go:77-88 | every key on offer, each with a block of a source |
| Assembly.CopyBlock | internal/apply/assembler.go:94-109 | copies the block to its offset, or fails if the source is missing or short |
| Assembly.VerifyManifest | internal/apply/assembler.go:111-125 | accepts exactly files whose cut has the manifest's sizes and hashes |
| Assembly.MatchingIsTheFile | internal/apply/assembler.go:111-125 | what passes against a file's manifest is that file |
| Assembly.Assemble | internal/apply/assembler.go:26-75 | replaces the destination only with bytes that pass; with unchanged sources that offer every block it becomes the original |
| Assembly.PlanPromisesAssembly | internal/apply/assembler.go:26-75 | a content plan that needs nothing means the assembly can succeed, and conversely |
| Assembly.RestoreFile | internal/backup/archive.go:1417-1479 | an archive that holds the blocks of a file's manifest gives the file back unless staging or renaming fails; nothing that fails the manifest replaces the destination |
| Assembly.VerifyRestored | internal/backup/archive.go:1481-1505 | accepts exactly files of the manifest's size in which every block verifies |
| Assembly.RestoreSnapshot | internal/backup/archive.go:1219-1312 | nothing is touched unless all blocks are there; on success every destination passes its manifest and those that did already are left alone and counted as skipped; if all blocks are archived it succeeds if and only if every file not there yet can be written, and then every destination is its original |
| Spans.SpanIsBlock | internal/api/server.go:2623-2649 | server block spans are the client's blocks, and out of range exactly past the last |
| Spans.SpanIsSubBlock | internal/api/server.go:2623-2649 | server sub-block spans are the client's sub-blocks |
| Spans.BlocksPartitionTheFile | internal/api/server.go:2623-2649 | every byte is in exactly one block span |
| Spans.SubBlocksPartitionTheFile | internal/api/server.go:2623-2649 | every byte is in exactly one sub-block span of exactly one block |
| Transfer.BlocksOf | internal/foldershare/blocks.go:85-116 | the block list and hash of exactly `size` bytes; an error exactly for a negative size or a short stream |
| Transfer.HashSubs | internal/foldershare/blocks.go:138-173 | the hashes of the pieces, through a small buffer |
| Transfer.SubLengthIsCutSize | internal/foldershare/blocks.go:434-441 | the client's sub-block length is that piece's length |
| Transfer.TrySubBlock | internal/foldershare/blocks.go:386-432 | a patch has the named bytes and moves at most a quarter; with an honest peer it is the remote block and fails only when more would have to move |
| Download.ValidateBlocks | internal/foldershare/blocks.go:346-367 | accepts exactly contiguous lists of full blocks with a last one that may be short, covering the size |
| Download.FetchBlock | internal/foldershare/blocks.go:369-384 | bytes with the block's hash, never more than its size; local bytes cost nothing |
| Download.Stage.LoadPartial | internal/foldershare/blocks.go:552-591 | a record of this file is kept and counts exactly where the bytes verify, any other is dropped |
| Download.Stage.DownloadOnce | internal/foldershare/blocks.go:231-322 | the attempt's effect on staging file and record for every failure, torn write and crash |
| DownloadProgress.AsksExactlyFor | internal/foldershare/blocks.go:275-307 | an attempt asks for exactly the unconfirmed blocks up to the one that ends it |
| DownloadProgress.SavedBlockIsConfirmed | internal/foldershare/blocks.go:275-307 | an attempt that does not hand over leaves confirmed what was, and every block it reached that arrived with its hash, was written and was recorded |
| DownloadProgress.SavedBlockIsNotFetchedAgain | internal/foldershare/blocks.go:275-307 | such a block is in no later attempt's requests |
| DownloadProgress.HandsOverExactlyWhen | internal/foldershare/blocks.go:231-322 | an attempt hands over exactly if the file is empty, or its list is sound, its staging file opens, and every unconfirmed block arrives with its hash, is written and is recorded |
| DownloadTheorems.HandedOverFile | internal/foldershare/blocks.go:231-322 | the file handed over is the verified blocks if and only if hashes fit the sizes and the attempt did not start with confirmed blocks in an overlong staging file |
| DownloadTheorems.ShortBlockIsHandedOver | internal/foldershare/blocks.go:518-526 | an entry whose block is longer than the bytes its hash is of, for which a short file is handed over |
| DownloadTheorems.AttemptKeepsFits | internal/foldershare/blocks.go:231-322 | no attempt leaves a staging file longer than the file its record is for |
| DownloadTheorems.EveryFileHandedOverIsExact | internal/foldershare/blocks.go:231-322 | in every run over any entries and batches, interrupted or completed, the same holds, and an overlong staging file comes only from an interrupted batch that wrote more bytes than the recorded file has |
| DownloadTheorems.ConfirmedBlocksAreKept | internal/foldershare/blocks.go:552-609 | an attempt asks for no block confirmed at its start, and keeps all of them confirmed unless it hands the file over |
| DownloadTheorems.NothingIsFetchedTwice | internal/foldershare/blocks.go:552-609 | through any attempts on one entry, from any disk, a block once confirmed stays confirmed and is never asked for again |
| DownloadTheorems.EveryRecordIsConfirmed | internal/foldershare/blocks.go:552-609 | from a disk without a record of the entry, every block that any attempt records is confirmed, if hashes fit the sizes |
| DownloadTheorems.InterruptedBatchCanLengthenTheFile | internal/foldershare/batch.go:170-179 | the interleaving after which a longer file is handed over |
| Batch.WriteFileBatch | internal/foldershare/batch.go:45-65 | writes the frames of the files before the first that does not fit, and fails exactly if a path is empty or over 4096 bytes or a body over 4 MiB |
| Batch.FrameLayout | internal/foldershare/batch.go:45-65 | a frame is the path's length, the path, the body's length and the body, lengths as four bytes with the most significant first |
| Batch.ReadFileBatch | internal/foldershare/batch.go:68-104 | reads the frames one by one, keeping what was read before an error |
| Batch.BatchRoundTrip | internal/foldershare/batch.go:45-104 | reading what was written gives the same files, and an error for more than 32 |
| Batch.OnlyBatchesAreRead | internal/foldershare/batch.go:68-104 | whatever is read without error is a batch of at most 32 fitting files |
| Batch.TruncationIsDetected | internal/foldershare/batch.go:68-104 | a cut batch is an error if and only if the cut is not between two frames |
| Batch.Partition | internal/foldershare/batch.go:119-125 | small are exactly the files of at most 256 KiB that are their own only block; both lists keep the order |
| Batch.ApplyChunk | internal/foldershare/batch.go:142-165 | a job is applied if and only if its delivered bytes have the hash and size and its write works, and left over otherwise, in order |
| Batch.ArrivesExactlyWhen | internal/foldershare/batch.go:142-165 | the exact condition for a small file to be applied: its request was answered with bytes of its hash and size, and they could be written |
| Batch.ApplySmallBatches | internal/foldershare/batch.go:115-168 | with at least two small jobs exactly those are applied whose request was answered, whose bytes were delivered and whose write works, in order; all others are left over once, and the remaining bytes go down by what was applied |
| RemoteInstancesApp.AppendUniqueRef | desktop-gui/app_native_features.go:225-232 | appended unless it is there |
| RemoteInstancesApp.RemoveCredentialRef | desktop-gui/app_native_features.go:234-242 | every occurrence is gone and the rest keep their order |
| RemoteInstances.AppendedRefIsRemoved | desktop-gui/app_native_features.go:225-242 | clearing a tombstone just written gives back the tombstones before |
| RemoteInstancesApp.Validate | desktop-gui/app_native_features.go:379-424 | accepts exactly valid registries |
| RemoteInstancesApp.App.Load | desktop-gui/app_native_features.go:83-110 | the stored registry, revisions defaulted, if it can be read and is valid |
| RemoteInstancesApp.App.Save | desktop-gui/app_native_features.go:118-143 | a valid registry replaces the file as a whole or not at all |
| RemoteInstancesApp.App.StoreCredential | desktop-gui/app_native_features.go:426-454 | the secret is stored; after a failure it may or may not be |
| RemoteInstancesApp.App.DeleteCredential | desktop-gui/app_native_features.go:456-469 | the secret is gone, also if it was not there; after a failure it may or may not be |
| RemoteInstancesApp.App.Select | desktop-gui/app_native_features.go:145-169 | the selection changes only from the expected one to an existing instance, and nothing else changes |
| RemoteInstancesApp.App.Onboard | desktop-gui/app_native_features.go:171-223 | nothing, a tombstone, or the instance with its secret; success exactly for an acceptable request when nothing fails, and then the entry is appended and selected and its secret stored; if only the last save fails, the secret is deleted again and the tombstone cleared |
| RemoteInstancesApp.App.Update | desktop-gui/app_native_features.go:244-266 | success exactly for an entry found by id, reference and revision with a valid new title and URL, when nothing fails; then it has them, is offline and one revision on, and every other entry, the order, the selection, the tombstones and the vault are as before |
| RemoteInstances.EditableExactlyWhen | desktop-gui/app_native_features.go:244-266 | an edit is accepted exactly if it names an entry by id, reference and revision and brings a valid title and URL |
| RemoteInstancesApp.App.Remove | desktop-gui/app_native_features.go:268-311 | success exactly for an entry found by id, title, reference and revision, when nothing fails; the entry goes, the others keep their order, only its own selection is cleared, and it leaves a tombstone until its secret is known to be gone |
| RemoteInstances.RemovableExactlyWhen | desktop-gui/app_native_features.go:268-311 | a removal is accepted exactly if it names an entry by id, title, reference and revision |
| RemoteInstancesApp.App.Reconcile | desktop-gui/app_native_features.go:315-341 | only tombstoned secrets go, only tombstones of missing secrets are dropped, none is left on success, and a deletion that fails does not stop the others |
| RemoteInstancesTheorems.OnboardKeeps | desktop-gui/app_native_features.go:171-223 | whatever fails, file and vault stay consistent and other secrets are untouched |
| RemoteInstancesTheorems.UpdateKeeps | desktop-gui/app_native_features.go:244-266 | the same, and an edit that succeeded is not accepted again |
| RemoteInstancesTheorems.RemoveKeeps | desktop-gui/app_native_features.go:268-311 | the same for a removal |
| RemoteInstancesTheorems.SelectKeeps | desktop-gui/app_native_features.go:145-169 | the same for a selection |
| RemoteInstancesTheorems.ReconcileKeeps | desktop-gui/app_native_features.go:315-341 | the same, and after success the vault holds exactly the instances' secrets |
| RemoteInstancesTheorems.EveryDiskIsConsistent | desktop-gui/app_native_features.go:171-341 | in every run each secret has an instance or a tombstone, each instance its secret, and the two are disjoint |
| RemoteInstancesTheorems.StoredRegistryIsSound | desktop-gui/app_native_features.go:379-424 | every registry that any run stores has at most 128 complete entries with ids and references of their own, none tombstoned, and a selection that exists |
| RemoteInstancesTheorems.SecretOutlastsOtherRequests | desktop-gui/app_native_features.go:171-341 | while an instance stays registered nothing changes its secret |
| Bootstrap.Dial | internal/discovery/pairing_dht.go:349-371 | no error exactly if a reached dial connected or the context slipped through the first pass; otherwise the last dial's error or the context's |
| Bootstrap.SuccessWithoutPeers | internal/discovery/pairing_dht.go:363-368 | the worker can succeed without any dial |
| Bootstrap.Router.Enter | internal/discovery/pairing_dht.go:318-329 | already connected, or the one channel to wait on, made if there is none |
| Bootstrap.Router.Leave | internal/discovery/pairing_dht.go:335-343 | success exactly if the flag is set, else the recorded error |
| Bootstrap.Router.End | internal/discovery/pairing_dht.go:374-383 | records the ending, clears the wait and closes the channel |
| Bootstrap.EveryWorldIsGood | internal/discovery/pairing_dht.go:314-384 | the invariant holds in every state of every interleaving |
| Bootstrap.OneWorkerAndOneClose | internal/discovery/pairing_dht.go:323-328 | at most one worker, and a channel is closed exactly once, when its worker has ended |
| Bootstrap.NoWaiterIsStranded | internal/discovery/pairing_dht.go:330-334 | a waiter can wake exactly when its worker is gone |
| Bootstrap.AnswersAreJustified | internal/discovery/pairing_dht.go:335-343 | "did not finish" is never returned; an error is that of a worker no older than the caller's, up to which none had succeeded |
| Bootstrap.SuccessReachesTheWaiter | internal/discovery/pairing_dht.go:330-343 | a caller that waited for a worker by whose end one had succeeded gets no failure, and exactly the callers that gave up are told that they were cancelled |
| Bootstrap.LeavesWith | internal/discovery/pairing_dht.go:318-343 | what a caller is told is decided as it leaves: after its channel was closed, success exactly if the flag is set then, and else the last worker's error |
| Bootstrap.BootstrappedIsEarnedAndFinal | internal/discovery/pairing_dht.go:372-384 | the flag is set exactly by a worker that succeeded, and stays set |
| ApplyOrder.BestDeleteIndex | internal/applyplan/order.go:65-73 | the first of the largest |
| ApplyOrder.LargestFreeMost | internal/applyplan/order.go:65-73 | no choice of as many deletes frees more than the largest ones |
| ApplyOrder.GreedyPlanIsOptimal | internal/applyplan/order.go:46-56 | no schedule of the writes that fits does fewer deletes before any of them, and if one fits the greedy one does |
| ApplyOrder.Order | internal/applyplan/order.go:41-63 | writes once and in order, deletes once, unneeded deletes last in the order of their paths, and the whole plan optimal |
| Text.LessExactlyWhen | internal/applyplan/order.go:57-63 | paths are ordered by the first character in which they differ, a proper prefix first |
| Sorting.SortIsStable | internal/applyplan/order.go:58-58 | elements that tie keep their order |

## Left out

- Handlers, routing, the command line, logging, progress reports, the desktop shell and all network code: plumbing around the modelled logic.
- internal/configsync/store.go and internal/apicontrol/config_sync.go: each replica operation is one atomic step; how handlers load and save is not modelled.
- Settings values, keys, UUIDs and connection details are opaque, and the text checks on them are parameters (`ConfigSync.Policy`), as are trimming and upper-casing of pairing codes; instance ids are ordered numbers.
- Merge statistics and the instance view of internal/configsync/sync.go:518-577: counters and projections.
- Runs of the settings database exclude steps in which the 32-bit clock counter would wrap; what such a step does is stated by `ConfigSync.TickAdvancesUnlessItWraps`.
- ConfigSyncTheorems.EveryStateIsGood: edit statuses are not monotone, because an upsert overwrites them; only ids, clocks and effects are.
- The metadata store is a list of markers and a history per path; rename hints, metadata compaction, the Badger backend and failing store calls are not modelled, and creation times appear only as the order of the markers.
- RetentionRun.PlanSnapshotRetention: gives the plan's lists in folder order or as sets; `RetentionPlan.InOrder` sorts them as a separate step, and the execution theorems hold for every order.
- Job records of retention, restore and repair runs, checkpoints, database reversion and status summaries: bookkeeping.
- Assembly.RestoreSnapshot: requires distinct destinations, because an alternate path for a directory selection sends several files to one place; selection and path building are not modelled.
- The scrub of internal/backupcontrol/scrub.go:54-57 builds its repair plan without the archive root; scrub and plan are compared for the same archive.
- Intake.Worker.RunOnce: path cleaning and malformed block metadata are not modelled, jobs come in their sorted order, and times are whole seconds.
- Prune.PruneFiles: the removal of empty directories is not modelled.
- Read errors of files that exist, other than wrong contents, are not modelled in manifests, assembly and restore.
- Product overflow of index and block size in 64 bits is not modelled.
- Download.Stage.DownloadOnce: starts with the entry whose block list is known and ends where the file is handed over; removing a stale record is assumed to succeed, and a torn write damages a prefix of its own range.
- Batch.ApplySmallBatches: what the shared path index and the progress callback receive is not modelled.
- RemoteInstancesApp.App.Onboard: direct calls that store or delete a credential outside a request, and the file's JSON form, are not modelled; a registry write that fails is assumed to have changed nothing.
- RemoteInstancesApp.App.Update: error texts are reduced to their kinds, which the contracts do not fix.
- Bootstrap.Router.Enter: each critical section is one step; panics and the router's shutdown are not modelled.
- ApplyOrder.Order: sizes are unbounded integers.
