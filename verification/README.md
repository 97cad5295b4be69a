# Verified models of the OMEGA content pipeline

A Dafny project that models the parts of the OMEGA repository whose correctness rests on state,
ordering or arithmetic, and proves what those parts promise. `dafny verify dfyconfig.toml` checks
all of it.

| module | models |
|---|---|
| `Wrappers`, `Text` | options; white space, string order, decimal and UUID texts |
| `ScheduleStore` | the tables of migration 025 as a transition system: statements, deferred commit check, cascades, a session class |
| `SweepProtocol` | claim, dispatch, crash, recovery and reconciliation of occurrences as interleaved steps of any number of workers |
| `SweepService` | the same dispatch and reconciliation as methods on one session |
| `ScheduleTimeline` | collecting missed ticks, catch-up policies, one sweep of a due schedule, the schedule lifecycle |
| `Rollups` | daily buckets, the rollup table of migration 026, replacement of one unit, the backfill loops |
| `HybridQuery` | cutting a query range into partial days, closed days and the open day |
| `CampaignMigration` | a step machine for schema changes, and migration 024 run on it in both directions |
| `CivilTime`, `CampaignDraft` | calendar fields, ISO texts, release input, the draft validator, moving an item |
| `ReadAuthority` | the stale-response guard, automatic artifact choice, the rendered read view |
| `Provisioning` | verifying, copying, downloading and renaming model files |
| `Sanitizer` | the three substitutions of the error sanitizer and the truncation after them |
| `Timeline` | the beat timeline and the ASS times of its cues |
| `LeakCheck` | the recursive search for forbidden keys and sensitive texts |

How the source's parts appear here. Tables are maps and a transaction is a sequence of statements,
so a commit is one step and a rollback leaves the committed tables alone; the `Session` class has the
statement, commit and rollback calls that the services make. Recurrence rules, the digest, the
engine's `Date` constructor, the viewer-text filter and the direction in which a decimal tie rounds are
parameters, so the theorems hold for all of them. Instants are integers. Times that the database
supplies, batch limits and server answers are arbitrary inputs of the steps that use them.

## Where the code and its documentation disagree

The model follows the code in each of these, states exactly when the documented promise holds, and
shows an input for which it does not.

- The hybrid query engine says "0 gap" (backend/src/omega/application/analytics/hybrid_query_engine.py:10).
  A range from inside one closed day to inside the next loses everything after the midnight between
  them: `HybridQuery.NoGapIff`, `HybridQuery.NoonToNoonLosesTheMorning`.
- A sweep collects at most fifty ticks and then moves the schedule past now
  (recurring_sweep_service.py:195-211, 164-174). Later ticks are neither run nor recorded, and
  RUN_LATEST_ONLY then does not run the latest: `ScheduleTimeline.SweepRecordsAllTicksIff`,
  `ScheduleTimeline.LatestOnlyRunsLatestIff`, and for a minute schedule swept fifty intervals late
  `ScheduleTimeline.FiftyOneTicks`.
- SKIP_MISSED, the column default, also skips the tick that has only just come due:
  `ScheduleTimeline.SkipMissedNeverRuns`.
- Reconciliation repairs only DISPATCHING rows, so it relies on a bound occurrence being DISPATCHING or
  DISPATCHED. Two steps write a status without looking for a binding: the answer to a refused
  campaign admission (recurring_sweep_service.py:298-308) and the exception handler after its rollback
  (310-327). Bound occurrences stay in these states exactly over the runs in which no such step meets a
  bound one: `SweepProtocol.OverwrittenIff`, `SweepProtocol.AlwaysSettledIff`. It happens when the
  reconciler takes back the row of a slow worker and a second worker claims it; all row locks granted,
  the second one can then write SKIPPED over an admitted occurrence:
  `SweepProtocol.OverlappingWorkersSkipAdmittedItem`. With one worker at a time on each occurrence it
  cannot: `SweepProtocol.ExclusiveRunsSettleBindings`. Whether the handler reaches its write after a
  rollback depends on the session library; the model has both, a recovery and a crash.
- Activating a schedule that has no further run violates a table check instead of completing it:
  `ScheduleTimeline.ActivationCommitsIff`, `ScheduleTimeline.ExpiredCannotResume`.
- The backfill is safe to rerun, but a render unit always fails while two stored codecs differ only in
  case or surrounding space, or one is unsupported: `Rollups.ReplacedExact`, and for "h264" beside
  "H264" `Rollups.TwoSpellingsFail`.
- The validator compares ISO texts. A release in the UTC year 10000 sorts before every other, so a
  draft in order of its instants passes exactly when its releases lie on one side of that new year:
  `CampaignDraft.TextOrderIff`, `CampaignDraft.DraftOrderIff`. Five hours west of UTC, on the last
  evening of 9999, it refuses a draft in order and accepts the reversed one:
  `CampaignDraft.LastEveningVerdicts`.
- `--no-cache` selects the default cache directory instead of none
  (backend/scripts/download_kokoro_models.py:122,168), so it is honoured exactly when nothing there
  could be used: `Provisioning.NoCacheHonouredIff`, `Provisioning.NoCacheExample`. The size is not
  checked after a download: `Provisioning.SecondRunIff`.
- ASS seconds are rounded without a carry, so 60.00 appears in the last 5 ms of a minute:
  `Timeline.SixtySecondsIff`, `Timeline.SixtySecondsExample`.

## Model

| member | source | states |
|---|---|---|
| ScheduleStore.ExecuteExact | backend/alembic/versions/025_create_recurring_schedules.py:92-299 | a statement is refused exactly when it repeats a key or would leave some check, unique key or immediate foreign key broken |
| ScheduleStore.CommitCheckExact | backend/alembic/versions/025_create_recurring_schedules.py:191-199 | rechecking only the schedules a transaction touched finds every broken deferred reference |
| ScheduleStore.TransactionKeepsIntegrity | backend/alembic/versions/025_create_recurring_schedules.py:92-332 | a committed transaction of any statements keeps every check, key and reference, immediate and deferred |
| ScheduleStore.IntegrityIff | backend/alembic/versions/025_create_recurring_schedules.py:92-332 | integrity is every check, unique key and reference of the migration, constraint by constraint, and nothing more |
| ScheduleStore.ExecuteWrites | backend/alembic/versions/025_create_recurring_schedules.py:92-332 | an accepted statement writes its row, or takes it and its cascade away, and changes nothing else |
| ScheduleStore.InsertNeedsNewKey | backend/alembic/versions/025_create_recurring_schedules.py:34-292 | no insert is accepted for a primary key that is there already |
| ScheduleStore.HistoryKeepsIntegrity | backend/alembic/versions/025_create_recurring_schedules.py:31-332 | so does every history of committed and rolled-back transactions |
| ScheduleStore.HistoryGoesOn | backend/alembic/versions/025_create_recurring_schedules.py:31-332 | one more transaction takes effect on a history whole or not at all |
| ScheduleStore.ActiveSchedulesAreExecutable | backend/alembic/versions/025_create_recurring_schedules.py:96-181 | after any history an ACTIVE schedule has a next run and an existing version of its own with exactly one rule and an interval of at least 60 |
| ScheduleStore.DeleteScheduleExact | backend/alembic/versions/025_create_recurring_schedules.py:117-117 | deleting a schedule commits exactly when it has no occurrence, and takes its own versions and nothing else: the cascade cannot break another schedule's deferred reference |
| ScheduleStore.DeleteVersionExact | backend/alembic/versions/025_create_recurring_schedules.py:261-266 | deleting a version commits exactly when no occurrence and no current pointer uses it |
| ScheduleStore.CreateDraftCommits | backend/src/omega/application/scheduler/recurring_scheduler_service.py:61-107 | a schedule may be inserted before the version it points to, because only the commit looks; without the version the commit fails |
| ScheduleStore.MissionsAtMostInstants | backend/alembic/versions/025_create_recurring_schedules.py:258-299 | after any history a schedule has at most as many missions as distinct occurrence instants |
| ScheduleStore.BindingsAreInjective | backend/alembic/versions/025_create_recurring_schedules.py:276-300 | over any history bindings are a partial injection, and a bound occurrence runs a version of its own schedule |
| ScheduleStore.Session.Perform | backend/src/omega/application/scheduler/recurring_sweep_service.py:276-280 | a statement changes the session's view or aborts it; what is committed does not change |
| ScheduleStore.Session.Commit | backend/src/omega/application/scheduler/recurring_sweep_service.py:180-180 | publishes exactly the tables of the transaction performed so far, or nothing |
| ScheduleStore.Session.Rollback | backend/src/omega/application/scheduler/adapters/mission_adapter.py:112-112 | returns to the committed tables |
| SweepProtocol.DispatchExact | backend/src/omega/application/scheduler/adapters/mission_adapter.py:78-109 | mission, binding and DISPATCHED commit together, exactly when the occurrence has no mission yet, and change nothing else |
| SweepProtocol.ReconcileExact | backend/src/omega/application/scheduler/recurring_sweep_service.py:381-424 | a bound stale row becomes DISPATCHED and points to what it is bound to; an unbound one becomes FAILED exactly when its attempts have reached the limit, else PENDING; nothing else changes |
| SweepProtocol.RecoverExact | backend/src/omega/application/scheduler/recurring_sweep_service.py:310-327 | the exception handler ends the attempt and leaves the row FAILED exactly when its attempts have reached the limit, else PENDING |
| SweepProtocol.ClaimExact | backend/src/omega/application/scheduler/recurring_sweep_service.py:242-262 | a free worker takes a PENDING row, and no other row, in hand |
| SweepProtocol.MarkExact | backend/src/omega/application/scheduler/recurring_sweep_service.py:269-280 | the claimed row becomes DISPATCHING with one attempt more than when it was read |
| SweepProtocol.LookExact | backend/src/omega/application/scheduler/adapters/mission_adapter.py:37-60 | a bound occurrence ends the attempt with nothing written, any other is built |
| SweepProtocol.MissionStepExact | backend/src/omega/application/scheduler/adapters/mission_adapter.py:78-118 | a mission commits with its origin, binding and DISPATCHED, or breaks the attempt with nothing written, exactly when the occurrence has one or a key is taken |
| SweepProtocol.AdmissionStepExact | backend/src/omega/application/campaign_admission_service.py:473-494 | an admission commits binding and DISPATCHED, or breaks the attempt with nothing written, exactly as it fits |
| SweepProtocol.AdmissionFitsIff | backend/src/omega/application/campaign_admission_service.py:473-494 | it fits exactly when neither the occurrence nor the item is bound, the binding is new, and campaign and item exist |
| SweepProtocol.RefuseExact | backend/src/omega/application/scheduler/recurring_sweep_service.py:298-308 | a refused admission leaves the answer as the status and ends the attempt |
| SweepProtocol.FailureExact | backend/src/omega/application/scheduler/recurring_sweep_service.py:310-312 | an exception while building breaks the attempt and a crash forgets it; neither writes anything |
| SweepProtocol.ExpireExact | backend/src/omega/application/scheduler/recurring_sweep_service.py:343-362 | a WAITING row, and no other, becomes SKIPPED |
| SweepProtocol.AloneDispatches | backend/src/omega/application/scheduler/recurring_sweep_service.py:242-330 | an undisturbed worker with new keys dispatches a due, unbound row: claim, mark, look and commit end with mission, binding, DISPATCHED and one attempt more, and nothing else different |
| SweepProtocol.RunGoesOn | backend/src/omega/application/scheduler/recurring_sweep_service.py:241-431 | a run is its events one after another, in any order |
| SweepProtocol.RunIsSafe | backend/src/omega/application/scheduler/recurring_sweep_service.py:241-431 | every interleaving of claims, dispatches, refusals, crashes, recoveries and other transactions keeps integrity, keeps DISPATCHED rows bound and every mission bound to its occurrence, and never removes a binding |
| SweepProtocol.AtMostOneMission | backend/scripts/run_p20a_canary.py:314-347 | no interleaving, crash or recovery gives an occurrence a second mission |
| SweepProtocol.DispatchedMeansBoundForGood | backend/scripts/run_p20a_canary.py:481-531 | in every run DISPATCHED implies bound, and a binding once seen never changes |
| SweepProtocol.AdmissionExact | backend/src/omega/application/campaign_admission_service.py:473-494 | binding and DISPATCHED commit together, exactly when neither the occurrence nor the item is bound and the rows referred to exist, and change nothing else |
| SweepProtocol.OverwrittenIff | backend/src/omega/application/scheduler/recurring_sweep_service.py:298-327 | a step takes a bound occurrence out of DISPATCHING or DISPATCHED exactly when it is a refusal or a recovery on that occurrence |
| SweepProtocol.AlwaysSettledIff | backend/src/omega/application/scheduler/recurring_sweep_service.py:364-424 | over a whole run every bound occurrence is DISPATCHING or DISPATCHED exactly when no refusal and no recovery meets a bound one |
| SweepProtocol.OverlappingWorkersSkipAdmittedItem | backend/src/omega/application/scheduler/recurring_sweep_service.py:241-424 | a run with all row locks granted after which an occurrence is SKIPPED, bound to an item, and in nobody's hands |
| SweepProtocol.ExclusiveRunsSettleBindings | backend/src/omega/application/scheduler/recurring_sweep_service.py:364-424 | with one worker at a time on each occurrence a bound row is always DISPATCHED or DISPATCHING, and one reconciliation makes it DISPATCHED |
| SweepService.Dispatch | backend/src/omega/application/scheduler/adapters/mission_adapter.py:37-118 | reports the bound mission exactly when there is one; else commits mission, binding and status in one step exactly when payload, planning and keys are good, or raises with nothing committed and the session clean |
| SweepService.DispatchTwice | backend/scripts/run_p20a_canary.py:339-347 | after a dispatch that gave a mission, a second one gives the same mission and adds none |
| SweepService.ReconcileRow | backend/src/omega/application/scheduler/recurring_sweep_service.py:381-422 | one stale row gets its reconciled state in the session, all other rows keep theirs |
| SweepService.ReconcileStale | backend/src/omega/application/scheduler/recurring_sweep_service.py:364-431 | every listed row is reconciled against the bindings before the loop: DISPATCHED exactly when bound, FAILED exactly when unbound with its attempts used up, PENDING otherwise; the two counts are what the rows now show |
| SweepService.FindDownstream | backend/src/omega/application/scheduler/recurring_sweep_service.py:386-408 | reads exactly the row that the occurrence is bound to |
| ScheduleTimeline.CollectMissedTicks | backend/src/omega/application/scheduler/recurring_sweep_service.py:185-211 | the loop returns the first fifty of all ticks from the due one up to now |
| ScheduleTimeline.PartitionSplits | backend/src/omega/domain/recurring_schedule.py:371-405 | skipped ticks followed by ticks to run are the sorted input |
| ScheduleTimeline.PartitionConserves | backend/src/omega/domain/recurring_schedule.py:371-405 | no tick is lost or doubled, the run part is the latest ones, and it stays within the policy's bound |
| ScheduleTimeline.PartitionExact | backend/src/omega/domain/recurring_schedule.py:371-405 | the latest ticks run and the rest are skipped: none under SKIP_MISSED, one under RUN_LATEST_ONLY, and under RUN_ALL_BOUNDED as many as there are up to the configured number, held between 1 and 10 |
| ScheduleTimeline.SweepPartition | backend/src/omega/application/scheduler/recurring_sweep_service.py:111-178 | a sweep runs exactly that many of the latest collected ticks and records exactly the others as skipped |
| ScheduleTimeline.MaterializeDue | backend/src/omega/application/scheduler/recurring_sweep_service.py:111-178 | the loop body of one due schedule records exactly the specified ticks and row |
| ScheduleTimeline.SweepRecordsAllTicksIff | backend/src/omega/application/scheduler/recurring_sweep_service.py:115-178 | a sweep records the due tick and every later one up to now exactly when these are at most fifty; the others are lost for good |
| ScheduleTimeline.LatestOnlyRunsLatestIff | backend/src/omega/domain/recurring_schedule.py:390-394 | RUN_LATEST_ONLY runs the latest missed tick exactly under the same condition |
| ScheduleTimeline.FiftyOneTicks | backend/src/omega/application/scheduler/recurring_sweep_service.py:195-211 | the sweep at 3000 of a minute schedule due at 0 neither runs nor records the tick at 3000, and RUN_LATEST_ONLY runs the one at 2940 |
| ScheduleTimeline.SkipMissedNeverRuns | backend/src/omega/domain/recurring_schedule.py:386-388 | a sweep runs nothing exactly under SKIP_MISSED |
| ScheduleTimeline.IntervalTicks | backend/src/omega/domain/recurring_schedule.py:317-327 | an interval schedule has one tick per interval, as many as fit |
| ScheduleTimeline.IntervalRuns | backend/src/omega/domain/recurring_schedule.py:317-327 | from any reference, the k-th tick is the start, or one interval later, plus k intervals, and there is none after the end |
| ScheduleTimeline.DueSweepExact | backend/src/omega/application/scheduler/recurring_sweep_service.py:71-183 | a sweep does nothing unless the gate is open and an active schedule is due; then it records the first fifty ticks, sets the last run, and leaves a next run ahead of now or completes the schedule |
| ScheduleTimeline.RunGoesOn | backend/src/omega/application/scheduler/recurring_scheduler_service.py:52-352 | a lifecycle is its operations one after another, at clocks that never go back |
| ScheduleTimeline.NoInstantRecordedTwice | backend/alembic/versions/025_create_recurring_schedules.py:258-258 | over any lifecycle, a due instant between a sweep's two clock readings included, no instant is recorded twice, so materialisation never meets the unique key |
| ScheduleTimeline.ActivationCommitsIff | backend/src/omega/application/scheduler/recurring_scheduler_service.py:110-237 | activating or resuming commits exactly from the right status, with the gate on, a next run existing and, for activating, an eligible target |
| ScheduleTimeline.ExpiredCannotResume | backend/src/omega/application/scheduler/recurring_scheduler_service.py:110-237 | a schedule paused until after its end can neither be activated nor resumed and is not completed either |
| ScheduleTimeline.StoppingExact | backend/src/omega/application/scheduler/recurring_scheduler_service.py:164-256 | pausing works exactly from ACTIVE and cancelling always; both leave no next run and change nothing else |
| ScheduleTimeline.EditExact | backend/src/omega/application/scheduler/recurring_scheduler_service.py:259-352 | an edit is rejected exactly for a terminal schedule or an ineligible target, fails exactly when the end is not after the start or an active schedule has no further run, and else moves the end and an active next run only |
| ScheduleTimeline.TerminalForGood | backend/src/omega/application/scheduler/recurring_scheduler_service.py:110-352 | a completed, cancelled or archived schedule stays so and records nothing more, whatever is tried |
| ScheduleTimeline.ClosedGate | backend/src/omega/application/scheduler/recurring_scheduler_service.py:110-237 | while the gate is closed nothing is activated, resumed or recorded |
| ScheduleTimeline.PausedTimeIsNotMissed | backend/src/omega/application/scheduler/recurring_scheduler_service.py:188-233 | after a resume no instant up to the resume is ever recorded, to run or as skipped |
| Rollups.DailyBuckets | backend/src/omega/domain/pipeline_analytics.py:229-247 | the loop returns exactly the whole UTC days inside the range |
| Rollups.BucketsAreTheWholeDays | backend/src/omega/domain/pipeline_analytics.py:229-247 | the buckets are, once each and in order, exactly the whole UTC days inside the range |
| Rollups.SeriesDaysDisjoint | backend/alembic/versions/026_create_pipeline_analytics_rollups.py:48-58 | two rows of one family, dimension and value never cover the same instant |
| Rollups.RowOkIff | backend/alembic/versions/026_create_pipeline_analytics_rollups.py:54-71 | what the table checks of a row: one whole UTC day, counts, and which family may have which dimension |
| Rollups.ReplacedExact | backend/src/omega/application/analytics/rollup_service.py:41-222 | recomputing a unit succeeds exactly for a known family whose codecs are supported and do not repeat a spelling, whatever the table holds, and leaves the unit's new rows and all other units |
| Rollups.UnitRowsExact | backend/src/omega/application/analytics/rollup_service.py:41-130 | the rows of a unit: GLOBAL always, one per channel for the render and QA families, one per codec as it is spelled in the end for the render families, one per target type for the scheduler family, each with what was measured for it, and no others |
| Rollups.ReplacedRows | backend/src/omega/application/analytics/rollup_service.py:133-222 | key by key, a successful replacement leaves exactly these rows in the unit and every other row as it was |
| Rollups.TwoSpellingsFail | backend/src/omega/application/analytics/rollup_service.py:41-222 | a render unit over the codecs "h264" and "H264" validates and yet cannot be replaced |
| Rollups.RollupStore.ComputeSnapshot | backend/src/omega/application/analytics/rollup_service.py:72-130 | gives the unit's dimensions, or raises when one does not validate |
| Rollups.RollupStore.ReplaceSnapshot | backend/src/omega/application/analytics/rollup_service.py:133-196 | deletes and inserts the unit, or rolls back to the old table on a violation |
| Rollups.RollupStore.ReplaceUnit | backend/src/omega/application/analytics/rollup_service.py:199-222 | is atomic: the whole new snapshot and its row count, or no change |
| Rollups.RollupStore.RunUnits | backend/scripts/backfill_analytics_rollups.py:68-80 | the nested loops end in the table of the units before the first failing one or before the process went away, with the matching outcome and total |
| Rollups.RollupStore.ExecuteWithSession | backend/scripts/backfill_analytics_rollups.py:61-80 | an unusable schema ends the run before any change |
| Rollups.RollupStore.RunBackfill | backend/scripts/backfill_analytics_rollups.py:42-86 | the same over the range and the families asked for; a run that reports a total has put exactly the measured rows into every whole day of the range, kept all others, and counted them; no bucket means 0 and an unusable schema means no change |
| Rollups.RestartConverges | backend/scripts/backfill_analytics_rollups.py:7-8 | runs stopped anywhere, any number of times, and then one full run give the table of one clean run |
| Rollups.InterruptedGoesOn | backend/scripts/backfill_analytics_rollups.py:68-80 | each stopped run leaves exactly what the loops leave when the process goes away there |
| Rollups.BackfillMeaning | backend/scripts/backfill_analytics_rollups.py:68-80 | every row of a covered day and family is the measured one and exists exactly when it was measured, every other row is untouched, and the total is the number of rows now covered |
| Rollups.FinishedIsBackfilled | backend/scripts/backfill_analytics_rollups.py:61-86 | a run that reports a total has done so for all it was asked for |
| Rollups.ApplyKeepsTableOk | backend/alembic/versions/026_create_pipeline_analytics_rollups.py:54-71 | a backfill keeps every check of the table |
| HybridQuery.PartitionQueryIntervals | backend/src/omega/application/analytics/hybrid_query_engine.py:35-118 | an error exactly for an empty or reversed range; else the pieces run on without overlap to the end or, exactly when the range loses, to its last midnight |
| HybridQuery.BucketsTile | backend/src/omega/domain/pipeline_analytics.py:229-247 | adjacent day buckets tile a range of whole days exactly |
| HybridQuery.PiecesTile | backend/src/omega/application/analytics/hybrid_query_engine.py:41-118 | the same of the specification, segment by segment from the start |
| HybridQuery.InstantsCounted | backend/src/omega/application/analytics/hybrid_query_engine.py:10-10 | no instant is counted twice or outside the range, and one is missed exactly after the last midnight of a range that loses |
| HybridQuery.NoGapIff | backend/src/omega/application/analytics/hybrid_query_engine.py:10-10 | every instant of the range is counted once exactly when its ends are not inside two neighbouring closed days |
| HybridQuery.SegmentKinds | backend/src/omega/application/analytics/hybrid_query_engine.py:4-8 | closed segments are whole closed days, partial ones proper parts of one closed day, the open one starts today or later |
| HybridQuery.NoonToNoonLosesTheMorning | backend/src/omega/application/analytics/hybrid_query_engine.py:87-104 | the concrete range that loses half a day |
| Text.IsSpaceIff | backend/src/omega/application/error_sanitizer.py:7-12 | white space is the separating controls and the space separators of Unicode |
| Text.NatTextExact | frontend/src/lib/production-read-authority.ts:102-102 | a number prints as its decimal digits, without leading zeros |
| Text.UuidTextExact | backend/alembic/versions/024_add_campaign_runtime_orchestration.py:33-33 | a UUID prints as its 32 small hexadecimal digits in groups of 8, 4, 4, 4 and 12 |
| Text.StripParts | backend/src/omega/application/analytics/rollup_service.py:62-62 | stripping takes white space off both ends and nothing else, and leaves none there |
| Text.LowerExact | backend/src/omega/application/analytics/rollup_service.py:62-62 | lower case moves the capital letters A to Z and nothing else |
| CampaignMigration.RunKeepsOk | backend/alembic/versions/024_add_campaign_runtime_orchestration.py:19-75 | whatever schema script is accepted, rows fit their columns and meet every constraint then in force |
| CampaignMigration.UpgradeSucceeds | backend/alembic/versions/024_add_campaign_runtime_orchestration.py:20-30 | from every table valid before, no step of the upgrade fails, each constraint holds of all rows when created, and the result is as described |
| CampaignMigration.DowngradeSucceeds | backend/alembic/versions/024_add_campaign_runtime_orchestration.py:53-75 | from every table valid after, however it was written to since, the downgrade succeeds and meets the restored constraints |
| CampaignMigration.DowngradeKeepsRows | backend/alembic/versions/024_add_campaign_runtime_orchestration.py:58-74 | it loses the status and the added columns of each row, and nothing else |
| CampaignMigration.RoundTrip | backend/alembic/versions/024_add_campaign_runtime_orchestration.py:19-75 | upgrade then downgrade gives a status table back: columns, constraints and rows |
| CampaignMigration.CampaignsUpgraded | backend/alembic/versions/024_add_campaign_runtime_orchestration.py:20-28 | after the upgrade a campaign has exactly the nine new columns with these widths, nullability and defaults, the eight statuses, the two modes and the least concurrency, and every old cell |
| CampaignMigration.CampaignsDowngraded | backend/alembic/versions/024_add_campaign_runtime_orchestration.py:69-75 | after the downgrade every campaign is READY under the old check, without the nine columns and the two checks, and keeps all other cells |
| CampaignMigration.ExecutionsUpgraded | backend/alembic/versions/024_add_campaign_runtime_orchestration.py:52-54 | executions get one nullable column and three statuses |
| CampaignMigration.ExecutionsDowngraded | backend/alembic/versions/024_add_campaign_runtime_orchestration.py:58-61 | and lose them again, all MATERIALIZED |
| CampaignMigration.CampaignPlanOk | backend/alembic/versions/024_add_campaign_runtime_orchestration.py:20-30 | the campaign columns, defaults and checks meet what those theorems need |
| CampaignMigration.ExecutionPlanOk | backend/alembic/versions/024_add_campaign_runtime_orchestration.py:52-54 | and so do those of the executions |
| CampaignMigration.KeysDiffer | backend/alembic/versions/020_create_content_campaign_tables.py:105-107 | two items get different keys, because selection runs are unique and keys determine them |
| CampaignMigration.SelectionKeysOk | backend/alembic/versions/024_add_campaign_runtime_orchestration.py:33-33 | the key text is injective on UUIDs and fits its column |
| CampaignMigration.GuardStep | backend/alembic/versions/024_add_campaign_runtime_orchestration.py:34-34 | the guard block never raises |
| CampaignMigration.GuardRaisesIff | backend/alembic/versions/024_add_campaign_runtime_orchestration.py:34-34 | on any table the guard raises exactly for an item without a key or two items of one campaign with one key |
| CampaignMigration.TwoExecutionsStop | backend/alembic/versions/024_add_campaign_runtime_orchestration.py:43-43 | without the unique key of 021 two executions of one item would stop the backfill |
| CampaignMigration.ItemsUpgraded | backend/alembic/versions/024_add_campaign_runtime_orchestration.py:32-46 | items get exactly the eight columns with these widths and nullability and the three constraints |
| CampaignMigration.ItemRowsUpgraded | backend/alembic/versions/024_add_campaign_runtime_orchestration.py:33-43 | each item gets the key selection-run: with its run, no attempt, no error, and MATERIALIZED with the execution time exactly when an execution refers to it, else PENDING; its other cells stay |
| CampaignMigration.ItemsDowngraded | backend/alembic/versions/024_add_campaign_runtime_orchestration.py:64-68 | and the downgrade takes exactly these columns and constraints away |
| CampaignMigration.ItemsUpgrade | backend/alembic/versions/024_add_campaign_runtime_orchestration.py:32-50 | the item upgrade gets through on every table valid before, subquery and unique key included |
| CampaignMigration.MaterializedIff | backend/alembic/versions/024_add_campaign_runtime_orchestration.py:43-43 | an item is MATERIALIZED exactly when an execution refers to it, at that execution's creation time, and else PENDING |
| CampaignMigration.TimesExact | backend/alembic/versions/021_create_content_campaign_execution_tables.py:113-115 | the scalar subquery sees at most one row, and the right one |
| CampaignMigration.ItemsDowngrade | backend/alembic/versions/024_add_campaign_runtime_orchestration.py:61-68 | from every item table valid after, the downgrade succeeds and drops the eight columns and three constraints only |
| CampaignMigration.MigrationRoundTrip | backend/alembic/versions/024_add_campaign_runtime_orchestration.py:19-75 | on every database that 020 and 021 allow, upgrade then downgrade gives the three tables back |
| CampaignMigration.Database.Upgrade | backend/alembic/versions/024_add_campaign_runtime_orchestration.py:19-54 | all three scripts take effect or none, and all do on every database that 020 and 021 allow |
| CampaignMigration.Database.Downgrade | backend/alembic/versions/024_add_campaign_runtime_orchestration.py:57-75 | all three scripts take effect or none, and all do on every database as the upgrade leaves it, whatever was written since |
| CivilTime.FieldsRoundTrip | frontend/src/lib/content-workflow.ts:43-44 | real calendar fields come back from their minute number |
| CivilTime.MinuteOfFields | frontend/src/lib/content-workflow.ts:43-44 | every minute number is that of its own, real fields |
| CivilTime.MonthLengths | frontend/src/lib/content-workflow.ts:39-46 | the month lengths of the calendar, the leap day included |
| CivilTime.EarlierIff | frontend/src/lib/content-workflow.ts:47-47 | comparing fields from the year down is comparing instants |
| CampaignDraft.AcceptedIff | frontend/src/lib/content-workflow.ts:35-48 | an accepted release text is exactly the text of a real calendar date and time, whatever the engine makes of other dates, and stands for that instant |
| CampaignDraft.NormalizedIff | frontend/src/lib/content-workflow.ts:35-48 | white space only, the empty text included, means no release; a release is accepted exactly when the text is that of a real date and time |
| CampaignDraft.NormalizedText | frontend/src/lib/content-workflow.ts:35-48 | an accepted text becomes the ISO text of its instant |
| CampaignDraft.TrimSpaceIff | frontend/src/lib/content-workflow.ts:36-36 | trimming takes off the white space and line terminators of ECMA-262 |
| CampaignDraft.IsoReadsBack | frontend/src/lib/content-workflow.ts:47-47 | for the UTC years 0 to 9999 the ISO text is the date and time of the instant in UTC, to the minute, and reads back as that instant |
| CampaignDraft.IsoOfOtherYears | frontend/src/lib/content-workflow.ts:47-47 | other years are written with a sign and six digits |
| CampaignDraft.TextOrderIff | frontend/src/lib/content-workflow.ts:79-79 | ISO texts order as instants exactly when both or neither lie in the UTC year 10000 |
| CampaignDraft.LastEveningVerdicts | frontend/src/lib/content-workflow.ts:65-86 | a draft of two local releases in order that is refused, and accepted when reversed |
| CampaignDraft.ComplaintIff | frontend/src/lib/content-workflow.ts:65-86 | each message exactly when its rule is the first one broken, null exactly when none is |
| CampaignDraft.NeighboursSuffice | frontend/src/lib/content-workflow.ts:78-81 | comparing neighbours among the scheduled releases is comparing every pair, unscheduled items between them or not |
| CampaignDraft.DraftOrderIff | frontend/src/lib/content-workflow.ts:78-81 | on one side of the turn to that year the check is that instants strictly increase; a draft whose instants increase passes exactly there, and one that passes is in order exactly there |
| CampaignDraft.DistinctExact | frontend/src/lib/content-workflow.ts:68-68 | a Set as large as the list means no value twice |
| CampaignDraft.MoveCampaignItem | frontend/src/lib/content-workflow.ts:50-56 | a permutation with the item at its target and the rest unchanged once it is taken out; an index out of range changes nothing |
| CampaignDraft.MoveBack | frontend/src/lib/content-workflow.ts:50-56 | the reverse move undoes a move |
| CampaignDraft.OthersKeepOrder | frontend/src/lib/content-workflow.ts:50-56 | the other items keep their relative order |
| ReadAuthority.ArtifactTruthRequestGuard.Begin | frontend/src/lib/production-read-authority.ts:42-44 | hands out the ticket of the event it adds to the history |
| ReadAuthority.ArtifactTruthRequestGuard.Invalidate | frontend/src/lib/production-read-authority.ts:46-48 | adds an event without a ticket |
| ReadAuthority.CurrentIff | frontend/src/lib/production-read-authority.ts:50-52 | a ticket is of the current generation exactly when nothing came after it, or the counter has reached 2^53 |
| ReadAuthority.CurrentMeansLatest | frontend/src/lib/production-read-authority.ts:50-54 | below that, the guard accepts a ticket exactly when nothing happened since, its artifact is still selected, and the response names no other |
| ReadAuthority.StaleForever | frontend/src/lib/production-read-authority.ts:39-55 | a stale ticket never becomes current again |
| ReadAuthority.GenerationsDiffer | frontend/src/lib/production-read-authority.ts:42-44 | below 2^53 generations are pairwise distinct, so at most one ticket is current |
| ReadAuthority.SelectedIff | frontend/src/lib/production-read-authority.ts:63-71 | an artifact is chosen exactly when it is the only one marked current |
| ReadAuthority.UnresolvedIff | frontend/src/lib/production-read-authority.ts:63-71 | nothing is chosen without an error exactly when no artifact is current, with one exactly when two are |
| ReadAuthority.RenderedIff | frontend/src/lib/production-read-authority.ts:82-99 | a snapshot shows only for the artifact asked for and answered; outside the planned state anything else shows nothing |
| ReadAuthority.ViewFollowsSnapshot | frontend/src/lib/production-read-authority.ts:101-139 | the view itself has every scene, segment and cue of the snapshot in its place, with its number, text, times, intent and id, every reference written as the id of the scene it means, and the snapshot's visuals and duration |
| ReadAuthority.PlanIsShown | frontend/src/lib/production-read-authority.ts:82-91 | the planned lists come back as they are, with the sum of their durations and no visuals |
| ReadAuthority.SceneIdInjective | frontend/src/lib/production-read-authority.ts:102-102 | different scene indices give different ids |
| ReadAuthority.CueRefersIff | frontend/src/lib/production-read-authority.ts:128-131 | a cue of the view refers to a scene of the view exactly when its scene index occurs in the snapshot |
| ReadAuthority.SegmentRefersIff | frontend/src/lib/production-read-authority.ts:117-120 | the same for a narration segment of the view |
| ReadAuthority.IntentIff | frontend/src/lib/production-read-authority.ts:110-112 | a scene of the view has the intent of the visual its snapshot scene points at, and none when there is none |
| Provisioning.FileSystem.ComputeSha256 | backend/scripts/download_kokoro_models.py:31-37 | the block loop digests the whole content, for every length |
| Provisioning.FileSystem.VerifyFile | backend/scripts/download_kokoro_models.py:40-47 | true exactly when the file exists with that size and digest |
| Provisioning.FileSystem.Download | backend/scripts/download_kokoro_models.py:50-71 | writes the concatenated chunks; a refused or broken transfer does not touch the target unless it is its own temporary file |
| Provisioning.FileSystem.ProvisionFile | backend/scripts/download_kokoro_models.py:74-113 | returns normally only with the digest at the target, leaves no file on a mismatch, and ends in the specified files |
| Provisioning.FileSystem.ProvisionKokoroModels | backend/scripts/download_kokoro_models.py:116-147 | reports success exactly when both files are provisioned, the voices after the model only; the files are then what the two runs leave, and only the targets and their temporary names change |
| Provisioning.OthersUntouched | backend/scripts/download_kokoro_models.py:91-113 | the cache and every other path stay as they were |
| Provisioning.CopyHasTwoFiles | backend/scripts/download_kokoro_models.py:92-97 | the copy never has one file for source and target |
| Provisioning.TempIsTargetIff | backend/scripts/download_kokoro_models.py:52-52 | the temporary name is the target exactly for a target named .tmp |
| Provisioning.TempNames | backend/scripts/download_kokoro_models.py:52-52 | the temporary name replaces what the last dot starts, unless that dot is the first or last character, and is appended to a name without a dot |
| Provisioning.CacheChoice | backend/scripts/download_kokoro_models.py:122-168 | the directory looked in is the one given, and the default one under --no-cache |
| Provisioning.TargetNeverWrong | backend/scripts/download_kokoro_models.py:82-113 | however often runs fail, the target holds what it held at the start or content with the published digest |
| Provisioning.FailureKeepsTargetIff | backend/scripts/download_kokoro_models.py:91-102 | what a failed download leaves at the target: the old content, save for an unverified copy or a target named .tmp |
| Provisioning.SecondRunIff | backend/scripts/download_kokoro_models.py:85-108 | a second run finds the file in place exactly when its size agrees too |
| Provisioning.NoCacheHonouredIff | backend/scripts/download_kokoro_models.py:122-168 | under --no-cache every run ends as without a cache, whatever the server answers, exactly when the default cache has no usable file |
| Provisioning.NoCacheExample | backend/scripts/download_kokoro_models.py:122-168 | one file in the default cache and a server that refuses: provisioned under --no-cache, failed without a cache |
| Provisioning.NoCacheStillCopies | backend/scripts/download_kokoro_models.py:122-168 | --no-cache still copies from the default cache, and then never downloads |
| Sanitizer.SanitizedIsSafe | backend/src/omega/application/error_sanitizer.py:15-21 | the result is one line within the limit, holds no match of the URL expression, and has the marker, or a cut piece of it, for the value of everything credential-shaped |
| Sanitizer.HarmlessTextIsKept | backend/src/omega/application/error_sanitizer.py:15-21 | a line with nothing credential-shaped and no URL is only cut to the limit |
| Sanitizer.Established | backend/src/omega/application/error_sanitizer.py:8-12 | after its own substitution every credential-shaped occurrence has the marker for a value |
| Sanitizer.ValueGone | backend/src/omega/application/error_sanitizer.py:8-12 | behind a heading, in any case and with any spaces around its separator, one marker stands for the whole value, and the scan goes on after it |
| Sanitizer.TokenGone | backend/src/omega/application/error_sanitizer.py:8-8 | a bearer token goes with its scheme word, in any case and with any space between them |
| Sanitizer.UrlGone | backend/src/omega/application/error_sanitizer.py:7-7 | a URL goes whole, scheme included |
| Sanitizer.PrefixKept | backend/src/omega/application/error_sanitizer.py:18-20 | text in which no match begins stays as it is |
| Sanitizer.TokenLine | backend/src/omega/application/error_sanitizer.py:15-21 | a line with a bearer token, whatever the token, becomes Authorization: [REDACTED], cut to the limit |
| Sanitizer.LikeExact | backend/src/omega/application/error_sanitizer.py:7-12 | which characters match a letter when case is ignored, the long s, the Kelvin sign and the Turkish letters included |
| Sanitizer.Preserved | backend/src/omega/application/error_sanitizer.py:18-20 | later substitutions neither uncover a value nor put a new one behind a head |
| Sanitizer.UrlsGone | backend/src/omega/application/error_sanitizer.py:20-20 | no URL match survives, not even across a replacement |
| Sanitizer.HeadInPrefix | backend/src/omega/application/error_sanitizer.py:21-21 | truncation makes no match of its own |
| Sanitizer.FirstLineHasNoNewline | backend/src/omega/application/error_sanitizer.py:17-17 | the text is cut at its first newline |
| Timeline.BuildTimeline | backend/scripts/run_p19g2b_real_canary.py:252-354 | every beat gets a unit from the sum of the durations before it, a cue with the same bounds, and an asset kind required exactly when one is acquired |
| Timeline.CueAndAsset | backend/scripts/run_p19g2b_real_canary.py:252-354 | a cue has the bounds of its unit and the filtered text, or the raw one where the filter leaves nothing; an asset is acquired exactly for a beat with B-roll or images, of that kind |
| Timeline.UnitsTile | backend/scripts/run_p19g2b_real_canary.py:252-334 | the units tile the time from 0 to the total |
| Timeline.OneUnitEach | backend/scripts/run_p19g2b_real_canary.py:252-334 | every instant belongs to exactly one unit |
| Timeline.AssReadsBack | backend/scripts/run_p19g2b_real_canary.py:408-413 | the printed time reads back as the rounded time |
| Timeline.AssTimesFaithful | backend/scripts/run_p19g2b_real_canary.py:408-413 | it is within 5 ms of the cue, and later cues never print earlier times |
| Timeline.SixtySecondsIff | backend/scripts/run_p19g2b_real_canary.py:411-412 | the seconds field shows 60.00 exactly in the last 5 ms of a minute |
| Timeline.SixtySecondsExample | backend/scripts/run_p19g2b_real_canary.py:408-413 | 59.996 s is printed as 0:00:60.00 |
| LeakCheck.CheckExact | frontend/src/lib/publisher-operations-helpers.ts:157-183 | a reported error is the first leak in document order, under its rendered path; no error means no leak at any place |
| LeakCheck.PassesIff | frontend/src/lib/publisher-operations-helpers.ts:153-183 | the check passes exactly when nothing leaks anywhere in the value |
| LeakCheck.PassesIffDiscreet | frontend/src/lib/publisher-operations-helpers.ts:153-183 | the same in terms of the values inside, at any depth of lists and records: none is a sensitive text and none has a forbidden key |
| LeakCheck.ForbiddenKeyIff | frontend/src/lib/publisher-operations-helpers.ts:7-18 | a key is forbidden exactly when it holds one of the ten words in any case |
| LeakCheck.SensitiveTextIff | frontend/src/lib/publisher-operations-helpers.ts:157-165 | a text is sensitive exactly when it holds one of the three words in any case |
| LeakCheck.LeakIsAtPath | frontend/src/lib/publisher-operations-helpers.ts:166-183 | the reported path spells the way to the leak: positions in brackets, keys after dots |

## Left out

- Surrogate row ids of bindings, created and updated times, payload templates, error messages and indexes: carried by the tables but not constrained by anything proved here; payload validation counts as one of the ways a dispatch attempt breaks.
- Primary-key updates and statements of two open transactions interleaved inside the database: transactions take effect one after another at their commits, and the unique keys decide races.
- Row locks, except that `SweepProtocol.Granted` says which steps they let through in the overlapping run; the age a DISPATCHING row must have before it is reconciled, which a slow worker can always exceed.
- What makes a target eligible or a plan fail: whether it does is an input of `ScheduleTimeline.Operate` and `SweepService.Dispatch`.
- Cron search, time zones and daylight saving: a recurrence is any function that moves forward; the interval rule is modelled.
- Inside of campaign admission (capacity, ordering of items): an admission either commits item, binding and status together or answers with a refusal.
- Inside of the metrics computations: the payload of a rollup row is an opaque value determined by the facts, and its validation never fails here.
- Command-line parsing and the check that --to lies after --from.
- Reads of the hybrid engine behind the cut (rollup hits, fallback, merging).
- Local time zones with changing offsets: release input is read at one fixed offset in whole minutes.
- Symbolic links, permissions and directory creation in provisioning; the published digests and sizes are parameters.
- canFinalizeSelection, calculateProgress, the formatters, canPublishArtifact, describeRuntimeVisual and initialArtifactTruthState: expressions whose contract would repeat them; a visual's identity is one text.
- Rendering, encoding and browser capture of the canary video; subtitle texts are copied as they are.
- The order of migration statements that touch different tables: each table has its own script, and only the item backfill reads another table. Indexes and foreign keys of the migrated tables are not part of their constraints.
