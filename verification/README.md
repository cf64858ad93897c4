# Verified model of the collection and data-layer scripts

The repository collects token-launch data in short *slices*, uploads the bulk to R2, frees the local disk, and turns
finished runs into labels, splits and research scores. This project models the parts whose mistakes would lose data or
let a bad slice through, and proves what they promise for every input, every run or every point at which a run can be
interrupted.

1. **Chunk recovery** (`Recovery`, `RunDirectory`, `RecoveryTheorems`, `RecoveryOutcome`, `RecoverySummary`). A recovery marks entries of
   two chunk manifests, writes both, and only then removes local chunks. The run directory is a class whose atomic
   steps are one manifest write or one removal; a ghost history records every state that reaches the disk. The main
   result covers any number of attempts, each interrupted anywhere: whatever is missing locally is recorded as verified
   in a manifest that is already on disk.
2. **Slice acceptance** (`SliceVerdict`, `SliceTheorems`, `SliceReports`, `BatchSupervisor`, `Ledger`, `LedgerTheorems`,
   `Resume`, `Collector`, `CollectorTheorems`, `CollectorHistory`, `ResumeOutcome`, `ResumeTheorems`, `StaleRecovery`,
   `Mission`, `MissionOutcome`, `MissionTheorems`). One slice is judged, a batch
   loops over slices, a collector loops over batches and keeps a ledger, a resume command recovers slices, a mission
   polls the collector. Slice outcomes, clocks and process answers are arbitrary inputs. A slice passes exactly when a
   stated condition on its evidence and hosts holds, and the levels count consistently.
3. **Storage** (`StorageReadiness`, `StorageCheck`, `FileTree`, `StorageEnforcer`, `StorageGc`). The tree is a map from
   component paths to sizes. Both sweepers remove exactly a stated set of files and report exactly the bytes the tree
   lost, and the collector's check is proved together with the enforcer it runs.
4. **Labels, splits, audits** (`Labels`, `LabelTheorems`, `LabelStore`, `LabelAudit`, `ChronologicalOrder`,
   `ChronologicalSplits`, `ReadinessSplits`, `KeyPrefix`). What the producers make passes the label and split rules of every auditor, although
   the auditors live in other files and were written separately.
5. **Two research tracks** (`TrackScores`, `TrackComparison`). The decision chains collapse to plain thresholds, the
   early track is monotone, and the comparison table speaks of all rows although it only sees the best ones.

A JSON value tested with `is True` is a `Flag` (`Yes` is the JSON true; `Other` is anything else that is present);
values tested by truthiness or by a text parser have types of their own. Missing fields are options, or an empty text
where the source treats missing and empty alike. Python exceptions are `Failure` results. Lemmas carry
`{:induction false}` so that every proof is the one written down.

## What the proofs found

- A recovery in delete mode that crashed after its first manifest write can not be repeated with the same key; it is
  rejected and the files not yet removed stay (`RerunAfterCrash`). Such a run can even read CLEAN. Which attempts can be
  interrupted so that it does, with a chunk still there, can be told before the attempt
  (`CleanWithFilesLeftExactly`); `CleanCanLeaveFiles` shows one whose artifact pass was refused.
- The supervisor's exit code 3 (candidate review) can not be reached: a candidate is already a blocker, so the batch
  stops with exit code 2 (`RunBatch`, `CandidateStopsBatch`).
- A resume that recovers a run logged in an earlier batch gives its row that batch, so the ledger is canonical exactly
  when every recovery was of a run logged in the batch open at the time (`CanonicalExactly`, `RunHistory`);
  `RecoverOldRun` is a history of supervised slices in which it does not stay so.
- A batch whose tenth row was recovered never gets its summary, although the ledger is canonical (`RecoverTenthRow`).
- A recovery is only made directly after a worker run that a slice stopped (`RecoveryFollowsFailedSlice`). A refused
  resume writes a status that reads as a stop of the disk: it forfeits the recovery, and the next resume no longer asks
  why the worker had stopped (`RefusalForfeitsRecovery`).
- Of the logs the supervisor itself leaves, the quarantine recovery takes none. The no-signal recovery takes only slices
  whose two files disagree on whether a launch was attempted; the broken-pipe recovery only those the supervisor would
  have recovered itself but for one of six stated reasons (`SupervisedRecoveryExactly`).
- `gc_ran` is wrong both ways, in exactly the cases stated by `GcReportIsRightExactly`.
- The enforcer prints no safe-byte total, so the storage check never sweeps for a disk that is short of space, only for
  a collector directory over its budget or a disk that blocks for another reason (`CheckStorage`). When the
  enforcer's output can not be read its usage counts as zero; `ReadyWithoutUsageExactly` says when exactly a ready
  verdict then rests on no usage at all.
- The enforcer's legacy option, which the collector always passes, asks of a run only that it is not active
  (`LegacyOptionAsksOnlyForInactivity`).
- The garbage collector and the enforcer disagree exactly about runs without any transport summary
  (`SweepersDisagreeExactly`); what the garbage collector then deletes on is in `DeletableWithoutEvidenceExactly`, and
  `UnprovenRunIsDeleted` shows such a run, with failed uploads, losing its frames under any root without a protected name.
- The replay check of run inclusion can be masked by a truthy value that does not read as true (`DenialMasksReplay`).
- On the survivor track one more new holder can cost a launch its review (`OneMoreHolderCanLoseReview`).

## Model

| member | source | states |
|---|---|---|
| `RunDirectory.MarkVerifiedEntries` | scripts/recover_r2_streaming_run.py:71-105 | the in-place pass rewrites exactly the entries the key covers, counts and defers exactly those, and raises at the first entry whose bytes differ or can not be read |
| `RunDirectory.MarkManifest` | scripts/recover_r2_streaming_run.py:118-145 | one pass over the entries of a manifest: refused exactly when some entry would raise, and it never reports "nothing matched" itself |
| `RunDirectory.RunDirectory.UnlinkDeferred` | scripts/recover_r2_streaming_run.py:150-152 | every deferred file is removed once, one atomic step each, and nothing else changes |
| `RunDirectory.RunDirectory.MarkManifests` | scripts/recover_r2_streaming_run.py:118-148 | both manifests are rewritten before any removal; a raising pass leaves either the old disk or only the relay manifest written |
| `RunDirectory.RunDirectory.WriteCounters` | scripts/recover_r2_streaming_run.py:154-197 | the counters, blockers and verdict of the stream manifest and the counters of the spool manifest are rewritten from the relay entries, in that order |
| `RunDirectory.RunDirectory.ApplyVerifiedUpload` | scripts/recover_r2_streaming_run.py:108-197 | succeeds exactly when both passes accept; then the states written are both manifests, each deferred file once, the counters; otherwise nothing is removed |
| `RecoveryTheorems.TraceIsCrashPoints` | scripts/recover_r2_streaming_run.py:118-197 | every state a successful attempt writes is one of the crash points the safety results speak about |
| `RecoveryTheorems.CrashSafety` | scripts/recover_r2_streaming_run.py:108-152 | at every crash point or exception of an attempt, a missing file is recorded as uploaded, verified and deleted, under the confirmed key and with its digest, in a manifest already on disk |
| `RecoveryTheorems.RecordsArePermanent` | scripts/recover_r2_streaming_run.py:83-84 | no later attempt, with any key and however it ends, changes a record that justifies a removal |
| `RecoveryTheorems.OneMoreAttempt` | scripts/recover_r2_streaming_run.py:108-152 | the safety promise survives one more interrupted attempt |
| `RecoveryTheorems.NeverLoseAnUnconfirmedChunk` | scripts/recover_r2_streaming_run.py:71-152 | over any number of attempts with any keys and modes, each interrupted anywhere, every missing file is recorded as verified under one of the keys |
| `RecoveryTheorems.RerunAfterCrash` | scripts/recover_r2_streaming_run.py:83-126 | in delete mode an interrupted attempt can be repeated with the same key if and only if the relay manifest was not yet written |
| `RecoveryTheorems.SecondRunRejected` | scripts/recover_r2_streaming_run.py:125-126 | a completed recovery in delete mode is rejected the second time, without any digest mismatch |
| `RecoveryTheorems.KeepModeIsIdempotent` | scripts/recover_r2_streaming_run.py:79-105 | without deletion the same pass can be repeated, changes nothing and counts the same entries |
| `RecoveryTheorems.BlockersAreExact` | scripts/recover_r2_streaming_run.py:163-169 | the unverified-shard blocker occurs once or not at all, every other blocker keeps its multiplicity, and when the list becomes empty |
| `RecoveryTheorems.CountersAreExact` | scripts/recover_r2_streaming_run.py:154-197 | verified plus unverified is the shard count, and `ok` holds if and only if every shard is verified and no other blocker is left |
| `RecoveryTheorems.VerifiedStaysVerified` | scripts/recover_r2_streaming_run.py:83-105 | no attempt, however it ends, makes a verified entry unverified or touches a settled one |
| `RecoveryOutcome.AcceptedExactly` | scripts/recover_r2_streaming_run.py:71-126 | on the fields of the entries: a recovery is accepted exactly when no entry it concerns contradicts its file and one is covered, and which manifest raises |
| `RecoveryOutcome.AttemptExactly` | scripts/recover_r2_streaming_run.py:71-152 | after every accepted recovery, in either mode: a covered entry carries the key, is uploaded and verified without an error, and is recorded as deleted in delete mode only; every other entry and field is unchanged; exactly the covered files are gone in delete mode, none otherwise |
| `RecoveryOutcome.ReportExactly` | scripts/recover_r2_streaming_run.py:154-197 | the reported and written counters as numbers of entries found before: marked, uploaded, verified, unverified, deleted |
| `RecoveryOutcome.VerifiedGrows` | scripts/recover_r2_streaming_run.py:154-197 | the verified count is the old one plus the newly confirmed entries, in keep mode too |
| `RecoverySummary.BuildSummary` | scripts/recover_r2_streaming_run.py:257-289 | the loop counts three classes of shards and the missing manifests |
| `RecoverySummary.ClassesAreDisjoint` | scripts/recover_r2_streaming_run.py:270-280 | the three shard counters together never exceed the shard count |
| `RecoverySummary.CleanExactlyWhenSettled` | scripts/recover_r2_streaming_run.py:242-254 | a run is CLEAN if and only if no manifest is missing and every shard is individually verified and deleted |
| `RecoverySummary.ClassifyExactly` | scripts/recover_r2_streaming_run.py:242-280 | each classification of a run, exactly, from its request, manifests, shards and files |
| `RecoverySummary.VanishedShardIsNeverClean` | scripts/recover_r2_streaming_run.py:242-280 | an unverified shard keeps a run from being CLEAN even when its file is gone |
| `RecoverySummary.CleanAtCrashPointExactly` | scripts/recover_r2_streaming_run.py:118-254 | an interrupted run is CLEAN if and only if the relay manifest was written, settles every shard, and no manifest is missing |
| `RecoverySummary.CleanWithFilesLeftExactly` | scripts/recover_r2_streaming_run.py:118-254 | an accepted delete-mode attempt can be interrupted so that the run reads CLEAN with a chunk to be removed still there if and only if, before the attempt, the pass would settle every relay shard and no manifest but the artifact one is missing; whenever an interrupted run reads CLEAN a repeat is rejected |
| `RecoverySummary.RefusedArtifactReadsAsClean` | scripts/recover_r2_streaming_run.py:118-145 | after a refused artifact pass nothing is removed and a repeat is rejected, and when exactly the run is CLEAN all the same |
| `RecoverySummary.CleanCanLeaveFiles` | scripts/recover_r2_streaming_run.py:118-280 | a concrete run with a refused artifact pass: CLEAN, its only chunk on disk and unmarked in the artifact manifest, and no way to repeat |
| `SliceVerdict.ValidateSlice` | scripts/run_relay_r2_primary_batch.py:1068-1113 | the blocker list built test by test, with the no-signal replacement, equals the specified one in order |
| `SliceTheorems.DataMembers` | scripts/run_relay_r2_primary_batch.py:1068-1099 | each data blocker is raised exactly when its condition on the raw evidence holds |
| `SliceTheorems.HostMembers` | scripts/run_relay_r2_primary_batch.py:1538-1572 | each host blocker is raised exactly when its condition holds |
| `SliceTheorems.ReadsExactly` | scripts/run_relay_r2_primary_batch.py:1546-1572 | what two reads of the exit code come to: zero exactly when either says so, else the second read unless it is empty or missing; timed out exactly when the poll was or a second read that was called for did |
| `SliceTheorems.NoSignalExactly` | scripts/run_relay_r2_primary_batch.py:449-537 | the clean no-signal test holds exactly on clean data with no attempts and a recovered provider gap |
| `SliceTheorems.RecoveriesExactly` | scripts/run_relay_r2_primary_batch.py:1158-1273 | the missing-exit-code and broken-pipe recoveries apply exactly on their routes |
| `SliceTheorems.QuarantineRouteExactly` | scripts/run_relay_r2_primary_batch.py:1116-1155 | the provider quarantine applies exactly on its route |
| `SliceTheorems.PassesExactlyWhen` | scripts/run_relay_r2_primary_batch.py:1068-1593 | a slice passes if and only if data and hosts are clean and one of the five routes applies |
| `SliceTheorems.PassedSliceIsClean` | scripts/run_relay_r2_primary_batch.py:1068-1593 | whatever route passed it: zero integrity counters and R2 failures, consistent artifacts, no candidate, clean hosts, accepted or quarantined but not both, never the review classification |
| `SliceTheorems.CandidateStopsBatch` | scripts/run_relay_r2_primary_batch.py:1095-1099 | a waiting candidate always stops the batch |
| `SliceReports.StoppedReport` | scripts/run_relay_r2_primary_batch.py:398-448 | a stopped slice: every reported field from the evidence, exactly the blockers there are, and the classification of the gravest |
| `SliceReports.PassedReport` | scripts/run_relay_r2_primary_batch.py:1276-1296 | a passed slice: every reported field from the evidence, by which route, and its classification |
| `BatchSupervisor.AttemptSlice` | scripts/run_relay_r2_primary_batch.py:1891-1913 | quarantine first, then blockers with their classification; passes exactly when the slice does |
| `BatchSupervisor.RunBatch` | scripts/run_relay_r2_primary_batch.py:1884-1952 | on any outcome sequence: the summary is the passing prefix, accepted never exceeds the target, exit 0 means the target met exactly, 4 all attempts used and blocked = target minus accepted, 2 what stopped the first failing slice; 3 never |
| `BatchSupervisor.RunAttempts` | scripts/run_relay_r2_primary_batch.py:1884-1952 | the loop itself, for any attempts of which none that passes waits for review |
| `BatchSupervisor.AcceptedAndQuarantined` | scripts/run_relay_r2_primary_batch.py:1903-1912 | accepted and quarantined slices partition what was let through |
| `BatchSupervisor.RollupStep` | scripts/run_relay_r2_primary_batch.py:1596-1649 | what one more slice adds to every total of the rollup |
| `BatchSupervisor.EmptyRollup` | scripts/run_relay_r2_primary_batch.py:1596-1649 | the rollup of no slices is zero but for the blocked count |
| `BatchSupervisor.BatchTotals` | scripts/run_relay_r2_primary_batch.py:1596-1649 | the rollup's totals are the loop's own, and no integrity error, R2 failure, inconsistent artifact or candidate was let through |
| `Ledger.PassedSliceBlocker` | scripts/run_background_24h_collector.py:1059-1079 | for a passed slice the collector's second look finds nothing but a host service that is not inactive |
| `Ledger.PassedRowCounts` | scripts/run_background_24h_collector.py:990-1000 | a passed slice's row counts as success exactly when it was accepted and has no blocker; the mission also wants verified chunks |
| `Ledger.PassOnlyIsTextual` | scripts/run_background_24h_collector.py:990-996 | deciding on the classification is deciding on PASS, BLOCK and NO_COUNT in its text |
| `Ledger.MissionAcceptsIsTextual` | scripts/run_clean_24h_r2_streaming_mission.py:306-325 | deciding on the classification is membership of its text in the mission's set |
| `Ledger.SuccessfulCounts` | scripts/run_clean_24h_r2_streaming_mission.py:306-325 | whatever the mission counts as successful the collector counts too |
| `Ledger.MissionNeverExceedsCollector` | scripts/run_clean_24h_r2_streaming_mission.py:259-325 | for any ledger the mission counts no more slices than the collector |
| `LedgerTheorems.RowExactly` | scripts/run_background_24h_collector.py:1059-1171 | a row carries its slice's fields, and as blocker the first of nine findings in their order |
| `Text.ContainsExactly` | scripts/run_background_24h_collector.py:990-996 | what the substring tests on texts mean |
| `LedgerTheorems.SuccessCountExactly` | scripts/run_background_24h_collector.py:990-1000 | the success count is the number of rows without a blocker whose text says PASS and neither BLOCK nor NO_COUNT |
| `LedgerTheorems.MissionCountExactly` | scripts/run_clean_24h_r2_streaming_mission.py:259-325 | the mission's count is the number of rows without blocker, R2 failure, unverified chunk or inconsistent artifact whose text is one of eight |
| `Collector.SummariesWritten` | scripts/run_background_24h_collector.py:2484-2521 | a run writes a batch's summary exactly when that batch's tenth row is among its new rows |
| `Collector.GrewKeepsShape` | scripts/run_background_24h_collector.py:2459-2521 | from a canonical ledger every run keeps row and batch numbering, lets only the last row ask for a stop, and stays within the slice limit |
| `Collector.Collector.StopClassification` | scripts/run_background_24h_collector.py:2309-2339 | a status blocker decides first; without one the worker stops exactly for a row blocker, a candidate, 20 high-positive mints, 96 successes or 24 hours, with the classification and reason of the first of these |
| `Collector.Collector.MirrorRecovered` | scripts/run_background_24h_collector.py:2073-2184 | one recovery rewrites the log where the source does and adds the run's row exactly when it is not in the ledger, under the batch of its log |
| `Collector.Collector.TryRecoveries` | scripts/run_background_24h_collector.py:2073-2184 | the recovery that applies is made, and no other |
| `Collector.Collector.Resume` | scripts/run_background_24h_collector.py:2187-2646 | a resume is allowed, recovers a run and rewrites status, ledger and log exactly as specified: the previous stop was the disk's or a recovered slice's, and the ledger raises no objection |
| `Collector.Collector.RunOneSlice` | scripts/run_background_24h_collector.py:2342-2456 | a row is added exactly when storage was ready and the supervisor succeeded or left a safe quarantine; the status tells which |
| `Collector.Collector.Iterate` | scripts/run_background_24h_collector.py:2484-2521 | a turn ends the loop or adds exactly one row, with the summary of a batch it completes |
| `Collector.Collector.Worker` | scripts/run_background_24h_collector.py:2459-2521 | for any surroundings: the rows added are those of the turns that went through, the exit code is that of the turn that did not, the summaries are those of the batches completed, and the final status says what ended the run |
| `Resume.FindLog` | scripts/run_background_24h_collector.py:1770-1784 | the newest log whose last line is about the run, or none exactly when there is none |
| `Resume.RoutesExclude` | scripts/run_background_24h_collector.py:1787-2046 | at most one of the three recoveries can apply to a logged result, so their order is of no account |
| `Resume.RecoveredRowIsQuietExactly` | scripts/run_background_24h_collector.py:1787-2070 | a recovered row is the run's, carries the batch of its log, and asks for a stop exactly after a broken pipe with inconsistent artifacts or a candidate |
| `ResumeOutcome.AllowsExactly` | scripts/run_background_24h_collector.py:2187-2306 | on rows, logs and status: a resume is allowed exactly when nothing outside objects, no row shows trouble, and the stop was the disk's, a quarantine without a log, or cured by a logged line |
| `ResumeOutcome.RecoveryExactly` | scripts/run_background_24h_collector.py:1770-2184 | a resume recovers exactly the curing line of the newest log of the run, when it is allowed and the ledger lacks the run |
| `ResumeOutcome.ResumedExactly` | scripts/run_background_24h_collector.py:2624-2646 | the status every resume leaves, and that without a recovery nothing else changes |
| `ResumeOutcome.RecoveredLineExactly` | scripts/run_background_24h_collector.py:2049-2184 | the row a recovery adds, field by field from the logged line, and the log it rewrites; all else is unchanged |
| `CollectorHistory.RunHistory` | scripts/run_background_24h_collector.py:2459-2646 | for any sequence of worker runs and resumes: a batch's summary exists exactly when a worker added its tenth row, only the last row can ask for a stop, and the ledger is canonical exactly when every recovery was of a run logged in the batch then open |
| `CollectorHistory.CanonicalExactly` | scripts/run_background_24h_collector.py:2459-2646 | the same guard at every point of every history |
| `CollectorHistory.ResumeKeepsNumbersExactly` | scripts/run_background_24h_collector.py:2073-2184 | a resume keeps a canonical ledger canonical exactly when it recovers nothing or a run logged in the batch now open |
| `CollectorHistory.RecoveryFollowsFailedSlice` | scripts/run_background_24h_collector.py:1787-2646 | in every history a recovery directly follows a worker run that a slice, not the storage or a limit, stopped |
| `CollectorHistory.RefusalForfeitsRecovery` | scripts/run_background_24h_collector.py:1282-2646 | in every history, after a refused resume all resumes up to the next worker run change nothing but the status, and the very next one is allowed exactly when surroundings and ledger raise no objection, whatever had stopped the worker |
| `CollectorHistory.FreshRecoveryIsInPlace` | scripts/run_background_24h_collector.py:1770-1784 | in every history the recovery of the slice that has just stopped the worker is in place |
| `ResumeTheorems.StoppedRowsExactly` | scripts/run_background_24h_collector.py:1844-2046 | which of the slices the supervisor stopped the recoveries accept, as conditions on evidence and hosts; the quarantine accepts none |
| `ResumeTheorems.KeptFromPassingExactly` | scripts/run_relay_r2_primary_batch.py:1207-1273 | such a slice after a broken pipe was stopped exactly for a candidate, an allowed replay, a provider class, a changed latest run or a timed-out poll |
| `ResumeTheorems.SupervisedRecoveryExactly` | scripts/run_background_24h_collector.py:1787-2184 | for every log a supervised slice leaves without a row: which recovery takes it, exactly, and that its row asks for a stop exactly when a candidate or replay candidate was reported |
| `StaleRecovery.RecoverOldRun` | scripts/run_background_24h_collector.py:2459-2646 | for any distinct run names, a history of supervised slices and possible commands after which the eleventh row carries batch 1 |
| `StaleRecovery.RecoverTenthRow` | scripts/run_background_24h_collector.py:2459-2646 | for any distinct run names, such a history with a canonical ledger, a full batch 1 and no summary of it |
| `CollectorTheorems.Supervise` | scripts/run_relay_r2_primary_batch.py:1884-1952 | a one-slice batch leaves one summary line exactly when its slice passed, with exit 0, 2 or 4 |
| `CollectorTheorems.MirroredRowIsClean` | scripts/run_background_24h_collector.py:1082-1171 | a mirrored row of a supervised slice has no candidate, no R2 failure and consistent artifacts, and counts exactly when accepted |
| `CollectorTheorems.FailureCodesAreDistinct` | scripts/run_background_24h_collector.py:2342-2456 | the worker's exit code tells storage, a failed slice and an unaccepted quarantine apart |
| `CollectorTheorems.WorkerLedgerIsClean` | scripts/run_background_24h_collector.py:2459-2521 | every row a worker adds over the real supervisor is clean, belongs to a passed slice and counts exactly when that was accepted without a blocker |
| `CollectorTheorems.WorkerStopsExactly` | scripts/run_background_24h_collector.py:2309-2521 | a worker ends with exit 0 exactly when the last row has a blocker, a row reports a candidate, 20 mints are high positive, 96 rows read as passed or 24 hours are over, and its status names the first of these; otherwise it names the storage or the slice |
| `CollectorTheorems.NoTurnHadToStop` | scripts/run_background_24h_collector.py:2309-2521 | no turn that went through had any of these reasons to stop |
| `CollectorTheorems.QuarantineKeptExactly` | scripts/run_background_24h_collector.py:1082-1102 | which quarantined slices the collector mirrors, as conditions on evidence and hosts |
| `Mission.RunMission` | scripts/run_clean_24h_r2_streaming_mission.py:612-647 | a failed start ends the run; otherwise, for any poll answers, recoveries are the blockers met, none more often than the limit, and the exit code is that of the first poll that does not go on |
| `Mission.RecoveriesAreBounded` | scripts/run_clean_24h_r2_streaming_mission.py:630-645 | all recoveries together are at most the limit times the distinct blockers |
| `MissionTheorems.MissionSuccess` | scripts/run_clean_24h_r2_streaming_mission.py:259-325 | mission exit 0 over a ledger a worker has added to: exactly 96 rows are successful, the collector counts the very same ones, the added ones are accepted clean slices of the real supervisor with every chunk verified |
| `MissionOutcome.GoesOnExactly` | scripts/run_clean_24h_r2_streaming_mission.py:612-647 | the runner goes past a poll exactly when its ledger has nothing to review and fewer than 96 successes, and a reported blocker was met fewer than `limit` times before |
| `MissionOutcome.ExitExactly` | scripts/run_clean_24h_r2_streaming_mission.py:612-647 | exit 3 for anything to review, else 0 with 96 successes, else 2 |
| `MissionOutcome.MetExactly` | scripts/run_clean_24h_r2_streaming_mission.py:628-645 | the recoveries are those of the polls that asked for help, in their order |
| `StorageReadiness.EnsureStorageReady` | scripts/run_background_24h_collector.py:482-597 | ready exactly when usage is within budget and the preflight that counts shows room or the override; one destructive sweep or none, and exactly when; the usage reported; when exactly the report of a sweep is true |
| `StorageReadiness.GcReportIsRightExactly` | scripts/run_background_24h_collector.py:495-575 | when exactly the report denies a sweep that ran, and when it claims one that did not |
| `StorageReadiness.UnknownUsageReadsAsZero` | scripts/run_background_24h_collector.py:493-597 | when exactly the check is ready although the dry run reported no usage, including through the sweep |
| `StorageReadiness.ReadyWithoutUsageExactly` | scripts/run_background_24h_collector.py:493-597 | when exactly a ready verdict rests on no reported usage; otherwise the usage it rests on is within budget |
| `StorageReadiness.SweepWithoutReportedBytesExactly` | scripts/run_background_24h_collector.py:551-557 | without a safe-byte total a sweep for space is started exactly when the disk is not short of space but blocks |
| `StorageReadiness.NeedIsLeast` | scripts/run_background_24h_collector.py:551-557 | the sweep is asked for the least bytes that lift the free space to the requirement, or to the recommendation when that is met |
| `StorageReadiness.ConditionsExactly` | scripts/run_background_24h_collector.py:425-556 | the room, budget and sweep tests of the check as comparisons of the reported numbers |
| `StorageReadiness.CheckBlockersExactly` | scripts/run_background_24h_collector.py:425-597 | exactly which blockers a check returns |
| `StorageCheck.RunEnforcer` | scripts/local_r2_first_storage_enforcer.py:367-470 | what a run with the collector's options removes, the bytes and usage it prints and its exit code |
| `StorageCheck.EnforcerReports` | scripts/run_background_24h_collector.py:452-556 | what the check reads from that output: always a usage, never a safe-byte total |
| `StorageCheck.CheckStorage` | scripts/run_background_24h_collector.py:482-597 | the check and the enforcer on a file tree: when exactly it sweeps, what then goes, and that ready means the directory really is within budget and the disk has room |
| `FileTree.TotalSplits` | scripts/local_r2_first_storage_enforcer.py:75-90 | a tree's size is that of what lies below a path plus that of the rest |
| `FileTree.FileTree.SizeBytes` | scripts/local_r2_first_storage_enforcer.py:75-90 | the walk returns the total size below the path, 0 when it does not exist |
| `FileTree.FileTree.RemovePath` | scripts/local_r2_first_storage_enforcer.py:282-288 | exactly what lies below the path goes, and the bytes returned are the drop in total size |
| `StorageEnforcer.FindBulkCandidates` | scripts/local_r2_first_storage_enforcer.py:213-246 | safe and unsafe candidates are exactly the bulk directories with bytes, split by the run's safety, each with its true size |
| `StorageEnforcer.BulkExactly` | scripts/local_r2_first_storage_enforcer.py:213-246 | a bulk directory is swept exactly when its run is proven over, completed, uploaded, clean and consistent, or is inactive under the legacy option |
| `StorageEnforcer.AdvertisedSuffices` | scripts/local_r2_first_storage_enforcer.py:401-442 | for any rows, nested, repeated or missing, a sweep never removes more than the rows advertise |
| `StorageEnforcer.ApplyRows` | scripts/local_r2_first_storage_enforcer.py:398-416 | the deleted bytes reported are exactly the drop in total size and in the size of the root, in any row order |
| `StorageEnforcer.Enforce` | scripts/local_r2_first_storage_enforcer.py:367-442 | an applied run removes exactly the stated files, reports exactly the bytes lost, and never more than it advertised |
| `StorageEnforcer.LegacyOptionAsksOnlyForInactivity` | scripts/local_r2_first_storage_enforcer.py:376-391 | with the legacy option a run's bulk goes exactly when the run is not active |
| `StorageGc.OrdinaryReasons` | scripts/local_r2_primary_storage_gc.py:368-394 | exactly the ordinary reasons that apply, and none exactly under the stated proof obligations |
| `StorageGc.AssessRun` | scripts/local_r2_primary_storage_gc.py:330-432 | a run is safe exactly when it is deletable in the stated sense, through the ordinary route or the tier-A override; its tier, and exactly its reasons when it is not |
| `StorageGc.ApplyDeletions` | scripts/local_r2_primary_storage_gc.py:601-622 | the loop removes exactly the guarded rows' subtrees and logs exactly the bytes lost |
| `StorageGc.CollectGarbage` | scripts/local_r2_primary_storage_gc.py:435-622 | with the operator tier off: a collection removes exactly the bulk of the listed deletable runs and reports the drop, at most what was available |
| `StorageGc.CondemnedBulkMayGo` | scripts/local_r2_primary_storage_gc.py:601-606 | the audit never condemns a path that the deletion guard would protect |
| `StorageGc.OnlyProvenBulkGoes` | scripts/local_r2_primary_storage_gc.py:330-432 | every removed file lies in a bulk child of a listed run directory under the root that was inactive, with an upload that says verified or lists uploads without a failure, an exit status or frame count that shows completion, all five counters of the summary that counts at zero, and no protected name on the path |
| `StorageGc.GoesExactly` | scripts/local_r2_primary_storage_gc.py:330-622 | a file goes exactly when it lies in a bulk directory that holds bytes, of a listed run that has proved itself in this sense and whose bulk is raw frames or excused by a retention file with consistent artifacts |
| `StorageGc.DeletableWithoutEvidenceExactly` | scripts/local_r2_primary_storage_gc.py:182-213 | what a run with neither transport summary must show to be deletable |
| `StorageGc.SweepersDisagreeExactly` | scripts/local_r2_primary_storage_gc.py:199-213 | the two sweepers judge integrity differently exactly for runs without evidence |
| `StorageGc.FailedUploadsExactly` | scripts/local_r2_primary_storage_gc.py:153-168 | a deletable run can have failed uploads exactly when its upload result says verified |
| `StorageGc.UnprovenRunIsDeleted` | scripts/local_r2_primary_storage_gc.py:435-622 | a run with failed uploads and no transport summary loses its frames to a collection exactly when no name on the root is protected |
| `Labels.InspectRun` | scripts/build_strategy_readiness.py:660-692 | the exclusion list names exactly the failed checks, and a run is included when there are none |
| `Labels.IncludedMeans` | scripts/build_strategy_readiness.py:660-692 | inclusion gives zero transport counters and no replay in the countability file |
| `Labels.DenialMasksReplay` | scripts/build_strategy_readiness.py:678-684 | when exactly the replay check passes although some file allows replay |
| `LabelTheorems.IncludedExactly` | scripts/build_strategy_readiness.py:627-692 | which runs are included: counting, upload and artifacts confirmed, three counters zero, six switches whose first truthy value does not read as true |
| `LabelTheorems.SegmentExactly` | scripts/build_strategy_readiness.py:627-760 | which segments are clean and which lost data, from the last row of the segment |
| `Labels.BuildLabels` | scripts/build_strategy_readiness.py:778-869 | the loop with its seen-set yields the specified label list in run and attempt order |
| `LabelTheorems.LabelExactly` | scripts/build_strategy_readiness.py:778-869 | each field of an attempt's label from the files: outcome, gaps, candidacy, clean negative, clean positive, censored, quality |
| `LabelTheorems.LabelsExactly` | scripts/build_strategy_readiness.py:778-869 | the list built has one label for each mint attempted, that of its first attempt in run and attempt order, in that order, and each says exactly the above |
| `LabelTheorems.LastIsUnique` | scripts/build_strategy_readiness.py:747-776 | the segments a label speaks of are those of the last run of its directory name |
| `LabelAudit.LabelsAreSound` | scripts/build_strategy_readiness.py:778-869 | on included runs every attempted mint has exactly one label, none replay eligible or clean positive, none both clean negative and censored |
| `LabelAudit.CleanNegativeIsExclusive` | scripts/build_strategy_readiness.py:627-820 | for every run, included or not, a clean negative comes from an included run and is never censored |
| `LabelAudit.LabelsAreExclusive` | scripts/build_strategy_readiness.py:747-869 | no label built from any runs of distinct directories is both clean negative and censored |
| `LabelStore.LabelStore.LoadMintLabels` | scripts/strategy/label_store.py:16-19 | the file is read once; later changes to it are not seen |
| `LabelStore.LabelStore.GetLabel` | scripts/strategy/label_store.py:21-25 | the first row of a mint, or nothing exactly when there is none |
| `LabelStore.LabelStore.Validate` | scripts/strategy/label_store.py:42-54 | the blockers are exactly the justified objections, and the store passes exactly when every row is acceptable |
| `LabelStore.NoneJustified` | scripts/strategy/label_store.py:42-54 | a complete and truthful blocker list is empty exactly when all labels are acceptable |
| `LabelStore.LabelStore.Summary` | scripts/strategy/label_store.py:56-67 | the five counts and the outcome counter of the summary |
| `LabelStore.CountsExactly` | scripts/strategy/label_store.py:56-67 | the five counts are the numbers of labels with the field set |
| `LabelStore.OutcomesExactly` | scripts/strategy/label_store.py:56-67 | the outcome counter lists exactly the outcomes there are, with their numbers, an empty one as missing |
| `LabelAudit.SoundCounts` | scripts/strategy/label_store.py:56-67 | on sound labels the summary shows no clean positive and no eligible row, and the other two kinds fit in the total |
| `LabelAudit.AuditLeakage` | scripts/build_strategy_readiness.py:2238-2253 | of the label and split rules, the audit lists exactly the broken ones |
| `LabelAudit.BuildAndAudit` | scripts/build_strategy_readiness.py:2701-2720 | labels and both splits built from included runs, with any rounding of the cuts, leave the label store, the split validator and the label and split rules of the leakage audit without a blocker |
| `LabelAudit.EveryAuditorPasses` | scripts/build_strategy_readiness.py:2238-2253 | for every list of included runs no rule of the store or the split validator and no label or split rule of the leakage audit is broken |
| `LabelAudit.NothingIsEligible` | scripts/build_strategy_readiness.py:1622-1647 | no feature row of an included run is ever decided eligible, whatever its reasons |
| `LabelAudit.V2Exactly` | scripts/build_strategy_readiness.py:1622-1647 | when exactly each decision is taken, for every set of reasons |
| `ChronologicalOrder.SortedIsOrdered` | scripts/strategy/splits.py:7 | sorting by launch time and mint gives an ordered permutation |
| `ChronologicalOrder.LessExactly` | scripts/strategy/splits.py:7 | the order of texts: the first difference decides, and a prefix comes first |
| `ChronologicalOrder.AtMostExactly` | scripts/strategy/splits.py:7 | rows go by launch time, those of one time by mint |
| `ChronologicalSplits.OneRowPerMint` | scripts/strategy/splits.py:8-14 | deduplication keeps one row for every non-empty mint |
| `ChronologicalSplits.UniqueRowsAreEarliest` | scripts/strategy/splits.py:7-14 | each kept mint is represented by its earliest row, in time order |
| `ChronologicalSplits.WindowsAreSeparated` | scripts/strategy/splits.py:15-20 | for any cuts: windows in order, adjacent non-empty ones an embargo apart, at most two embargoes dropped |
| `ChronologicalSplits.BuildChronologicalSplits` | scripts/strategy/splits.py:6-27 | for any rounding of the cuts, the builder returns the split of the deduplicated sorted rows |
| `ChronologicalSplits.WindowsAreChronological` | scripts/strategy/splits.py:6-27 | every train row is at most every validation row, and both at most every test row |
| `ChronologicalSplits.SplitExactly` | scripts/strategy/splits.py:15-27 | for any cuts and embargo: in which window each unique row is, and at which place |
| `ChronologicalSplits.FloorCutsExactly` | scripts/strategy/splits.py:16-18 | the cuts are 60% and 20% of the rows rounded down |
| `ChronologicalSplits.SplitSizes` | scripts/strategy/splits.py:15-27 | window sizes and at most two embargoes of dropped rows sum to the unique mints |
| `ChronologicalSplits.ValidateSplits` | scripts/strategy/splits.py:30-40 | the validator names exactly the repeated mints and an unknown method |
| `ChronologicalSplits.SplitsPassValidator` | scripts/strategy/splits.py:6-40 | every produced split passes the validator |
| `ReadinessSplits.SlicesAreSeparated` | scripts/build_strategy_readiness.py:2278-2296 | for any cuts: at least two embargoes of rows between any two non-empty windows |
| `ReadinessSplits.FloorSharesAreInOrder` | scripts/build_strategy_readiness.py:2281-2282 | 60% of the rows end no later than 80% |
| `ReadinessSplits.ReadinessExactly` | scripts/build_strategy_readiness.py:2278-2296 | for any shares: in which window each sorted row is, and at which place |
| `ReadinessSplits.FloorSharesExactly` | scripts/build_strategy_readiness.py:2281-2282 | the shares are 60% and 80% of the rows rounded down |
| `ReadinessSplits.EmbargoExactly` | scripts/build_strategy_readiness.py:2283 | the embargo is a hundredth of the rows rounded down, at least 1 and at most 25 |
| `ReadinessSplits.AuditSplits` | scripts/build_strategy_readiness.py:2242-2251 | the audit reports exactly the mints in two windows |
| `ReadinessSplits.UniqueMintsPassAudit` | scripts/build_strategy_readiness.py:2242-2296 | when every mint has one label the audit reports no mint in two splits |
| `KeyPrefix.JoinInvertsSplit` | scripts/build_strategy_readiness.py:454-463 | joining a split text gives the text back |
| `KeyPrefix.SplitInvertsJoin` | scripts/build_strategy_readiness.py:454-463 | splitting joined slash-free components gives them back |
| `KeyPrefix.CommonPrefix` | scripts/build_strategy_readiness.py:454-463 | the result joins the greatest component list that starts every key |
| `TrackScores.EarlyReviewExactly` | scripts/strategy_pipeline/dual_strategy_tracks.py:285-341 | the early decision chain is a review exactly under plain thresholds |
| `TrackScores.EarlyOtherwiseExactly` | scripts/strategy_pipeline/dual_strategy_tracks.py:269-341 | when exactly a row is audit-only, censored, postponed or rejected on the early track |
| `TrackScores.BinsExactly` | scripts/strategy_pipeline/dual_strategy_tracks.py:128-149 | with thresholds in order the bins are the ranges between them |
| `TrackScores.HolderDevRiskExactly` | scripts/strategy_pipeline/dual_strategy_tracks.py:295-296 | when no holder risk is known; otherwise it is the larger share |
| `TrackScores.LiquidityBinExactly` | scripts/strategy_pipeline/dual_strategy_tracks.py:297-299 | the liquidity bin: an exit is unsafe, else the loss decides |
| `TrackScores.EarlyReviewIsMonotone` | scripts/strategy_pipeline/dual_strategy_tracks.py:285-341 | a row no worse than an early review row is one too |
| `TrackScores.SurvivorReviewExactly` | scripts/strategy_pipeline/dual_strategy_tracks.py:376-427 | the survivor decision chain is a review exactly under plain thresholds |
| `TrackScores.SurvivorOtherwiseExactly` | scripts/strategy_pipeline/dual_strategy_tracks.py:376-427 | when exactly a row is unjudged, still observed or rejected on the survivor track |
| `TrackScores.SurvivorBinsExactly` | scripts/strategy_pipeline/dual_strategy_tracks.py:380-392 | the survival and stability bins as ranges |
| `TrackScores.SurvivorStaysReviewExactly` | scripts/strategy_pipeline/dual_strategy_tracks.py:376-427 | when exactly a row no worse than a survivor review row is one too |
| `TrackScores.OneMoreHolderCanLoseReview` | scripts/strategy_pipeline/dual_strategy_tracks.py:381 | the survivor track is not monotone in new holders |
| `TrackScores.SurvivorIsStricter` | scripts/strategy_pipeline/dual_strategy_tracks.py:285-427 | a survivor review row that is promoted, traded and has an observed exit is an early review row |
| `TrackComparison.BestByHorizon` | scripts/strategy_pipeline/dual_strategy_tracks.py:166-177 | the fold keeps for every key the first row that no row of the key beats |
| `TrackComparison.KeptMapIsUnique` | scripts/strategy_pipeline/dual_strategy_tracks.py:166-177 | only one map keeps the best row of every key |
| `TrackComparison.BestRowTellsReview` | scripts/strategy_pipeline/dual_strategy_tracks.py:166-177 | a key's best row is a review row if and only if some row of the key is |
| `TrackComparison.ComparisonRows` | scripts/strategy_pipeline/dual_strategy_tracks.py:480-510 | one line per key of either track, whose overlap is "both" exactly when both tracks have a review row for the key, and so on |
| `TrackComparison.OverlapCountsCoverKeys` | scripts/strategy_pipeline/dual_strategy_tracks.py:809 | the four overlap counts sum to the number of distinct keys |
| `TrackComparison.CountOverlapExactly` | scripts/strategy_pipeline/dual_strategy_tracks.py:809 | each overlap count is the number of lines with that overlap |

## Left out

- RunDirectory.RunDirectory.WriteCounters: does not model the byte totals and time stamps of the two manifests, which no decision reads.
- RunDirectory.RunDirectory.ApplyVerifiedUpload: does not model the retention summary and the copies of the counters in the two collector summaries, written after everything it covers.
- StorageGc.CollectGarbage: does not model the operator-review tier, the largest-first listing, or the validator process behind the artifact flag.
- LabelAudit.AuditLeakage: does not model the audit's column and time-stamp rules, which read feature tables that are not part of this model.
- LabelAudit.BuildAndAudit: runs the label and split rules of the leakage audit only, for the same reason.
- LabelAudit.EveryAuditorPasses: covers the label and split rules of the leakage audit only, for the same reason.
- StorageGc.AssessRun: takes the artifact validator's answer as a flag and gives one reason for all artifact blockers; how the status file and the validator process are read is not modelled.
- Collector.Collector.Resume: takes as inputs the storage, host and process parts of the resume decision, whether the worker's output mentions the disk, what a recovered run's own files say, which unmirrored run is newest, and the text of a refusal; log directories are taken in the order they were created. The finalization recovery, which rebuilds a run's files and its log before the decision, is not modelled.
- Collector.Collector.TryRecoveries: a logged backpressure flag that is the text "true" instead of the JSON value is not modelled.
- SSH, tunnels, process spawning, signals, R2 transfer, hashing, zip, CSV and JSON encoding: a file write is one atomic step, a digest is a value, and every outside answer is an input.
- Report, Markdown and status writers, and the status file's heartbeat fields.
- Torn writes, concurrent writers, symbolic links, and removal or write errors inside a sweep.
- Recovery: the listing of unverified chunks in the recovery summary, and `pathlib` normalisation beyond the empty path, so two spellings of one path count as two paths. Files are removed in sorted order; the proofs hold for any order.
- SliceVerdict: counters are naturals, as the collector writes unsigned counters, and are read after parsing; the as-of table check itself, of which only the blockers enter.
- BatchSupervisor: the rollup's totals of fields that no decision reads, file layout of a batch, its gate and preflight, and exceptions other than a batch error (a batch error raised by a slice ends the run with exit 2, as in the source's handler).
- Collector: the start and recover commands, the operator override, and exceptions inside the worker or while a recovered row is mirrored.
- Mission: stop and finalize commands, wall time and sleeping, and the collector's own recovery command.
- StorageReadiness: the preflight process; its answer is an input, and a second answer is used only where the source asks again.
- StorageEnforcer: how run facts are read from JSON and the process list; activity is asked of the immediate parent directory, as in the source. Candidate order by size and the 200-row cut of the printed lists.
- Labels: reading and parsing the files, the affected-mint tokenizer (its result is an input), and label columns no auditor reads.
- LabelStore: the CSV text round trip and the row filters.
- LabelAudit: the first version's reason codes with its first failed gate, and the bins behind the second version's reason codes; the decision is proved for every set of reasons.
- TrackScores: not-a-number values, the explanatory reason codes, and how promotion, exit observation and data quality are resolved from other tables.
- TrackComparison: the descriptive columns of the comparison table, its sort order and the metrics block.
- The label builder of the dataset exporter, the fixed-answer gates of the strategy pipeline, and the Rust crates.
