# The disk-budget scheduler, verified

A Dafny model of the daemon's disk-budget scheduler: the shared ledger of byte reservations
(`resource_reservations`), the schedulers that write and read it, and the state machines that feed it.
Each table is a sequence or a map of rows in a `StateDb` object, a transaction is one step, and a tick
has one clock value. The services are classes whose methods change the tables as the code does; every
such method is proved to compute a function or a relation on values, and the theorems are about those.

| area | modules |
|---|---|
| ledger and its three readers | `Ledger`, `LedgerUpdates`, `LedgerReaders`, `StateDbTables` |
| soak queue | `SoakVictims`, `SoakTrim`, `SoakSelection`, `SoakSamples`, `SoakQueue` |
| planner | `Health`, `PlannerChoice`, `PlannerEffects`, `PlannerLedger`, `PlannerSelection`, `PlannerReport`, `Planner`, `PlannerRuns` |
| the daemon's tick | `Daemon` |
| batches | `BatchSelection`, `BatchKnapsack`, `BatchLifecycle`, `BatchInvariant`, `BatchTurn`, `FileBatch`, `BatchWorkers` |
| uploads | `Upload`, `SidecarUploads` |
| timed machines | `Carousel`, `TokenBucket`, `SeedingPreemption` |
| shared | `Options`, `Rounding`, `Sums`, `Order`, `Torrents`, `Tables` |

`dafny verify dfyconfig.toml` checks everything.

## What the code does not do

The model follows the code. These properties, which one might expect, fail; each has a lemma with a
failure and one with the exact condition.

- *The ledger total after a tick is within free bytes less the floor.* The planner credits everything a
  torrent has reserved against its download, bytes awaiting cleanup included, and then adds a download
  row of the whole remainder. `PlannerLedger.LedgerMayExceedCommitment` is a tick, on the ledger a run
  from the empty database leaves, that overdraws it by a whole download. `PlannerLedger.TickBalances`
  gives the ledger afterwards to the byte, and `PlannerLedger.LedgerUnderFloorIff` says exactly when it is
  under the floor. Bytes are counted twice only for a selected torrent that holds some beside its downloads
  and batches and needs more than those have (`PlannerLedger.CountsTwiceIff`); when no candidate is
  one, a solvent tick leaves the ledger under the floor (`PlannerLedger.LedgerStaysUnderFloor`). What
  such a tick commits stays under the floor either way (`Daemon.TickStaysSolvent`).
- *Preempting a victim frees what it is credited with.* The credit counts expired rows and ignores
  batches covering the same bytes (`SoakVictims.CreditMayBeDishonest`); `SoakVictims.CreditCoveredIff`
  says exactly when no victim list credits too much. Solvency of a tick assumes it of the torrents
  preempted.
- *Active soak rows sum to the reported bytes.* `hash not in (...)` never releases a row whose hash is
  null (`SoakQueue.StrayRowOutlasts`); `SoakQueue.ReservedIsExact` is the exact condition. No step
  inserts such a row (`BatchInvariant.LedgerRun`, `Daemon.TickKeepsBatches`).
- *Live batches of a torrent never share a file.* `retry_wait` and `cleanup_requested` are missing from
  the in-flight states; `BatchInvariant.CreationDisjointIff` is the exact condition,
  `BatchInvariant.BackwardsProgressOverlaps` a run on which it fails, and with monotone file progress the
  property holds on every run (`BatchInvariant.InvRun`). The ledger stays in step with the batches on
  every run, monotone or not (`BatchInvariant.LedgerRun`).
- *A failed sidecar manifest stays failed.* The scan stops at the first job that is not done
  (`SidecarUploads.FailureForgotten`); `SidecarUploads.FailureIsForgottenIff` says when it goes back to
  uploading, and `SidecarUploads.CompleteRunsSettle` that it ends failed all the same.
- *A stopped probe is not started again in the same tick.* With a zero backoff it can be
  (`Carousel.StoppedAndStartedAtOnce`); `Carousel.StoppedMayStartIff` is the exact condition.
- A promoted carousel torrent keeps its `soak` row and is never probed again (`Carousel.PromotionIsForGood`).

## Model

| member | source | states |
|---|---|---|
| `Ledger.ScanOrderIrrelevant` | src/qbt_orchestrator/planner.py:354-381 | the rows of a ledger may be read in any order: every column of every torrent adds up to the same bytes |
| `Ledger.TotalSplitsOffSoak` | src/qbt_orchestrator/file_batch.py:737-757 | the deduplicated total is the total without `soak_probe` rows plus the live `soak_probe` bytes |
| `LedgerReaders.PlannerBytes` | src/qbt_orchestrator/planner.py:354-381 | for any row order, each torrent's bytes are max(active_download, batch) + other, live rows only, soak rows left out on request |
| `LedgerReaders.NonSoakBytes` | src/qbt_orchestrator/soak_queue.py:328-349 | the soak queue's reader returns the deduplicated total without its own rows |
| `LedgerReaders.AllBytes` | src/qbt_orchestrator/file_batch.py:737-757 | the batch service's reader returns the deduplicated total of all rows |
| `LedgerReaders.ReadersAgree` | src/qbt_orchestrator/planner.py:354-381 | the three independent readers agree on every ledger, each with a row order of its own; the batch total is the soak total plus the soak rows |
| `LedgerUpdates.SyncedHoldsOne` | src/qbt_orchestrator/planner.py:572-591 | whatever duplicates there were, after bringing rows in step each wanted torrent has exactly one unreleased row of that kind, of the wanted bytes and expiry |
| `LedgerUpdates.SyncedElsewhere` | src/qbt_orchestrator/planner.py:572-591 | bringing rows in step changes no column of any other torrent or kind |
| `LedgerUpdates.SyncedColumn` | src/qbt_orchestrator/soak_queue.py:538-566 | the live bytes of a synced torrent are exactly the wanted ones |
| `LedgerUpdates.ReleaseHashesShrinks` | src/qbt_orchestrator/planner.py:305-335 | releasing the rows of absent torrents never raises anybody's bytes |
| `StateDbTables.StateDb.HoldersByHash` | src/qbt_orchestrator/planner.py:555-563 | the existing rows are grouped by torrent in id order, none missed |
| `StateDbTables.StateDb.SyncRows` | src/qbt_orchestrator/planner.py:572-591 | rewriting the first row, releasing the others and inserting the missing ones, torrent by torrent, gives the specified ledger |
| `SoakVictims.CoverIsMinimal` | src/qbt_orchestrator/soak_queue.py:392-401 | the victims taken are the shortest prefix of the ranking that covers the need |
| `SoakVictims.VictimsCoverBarely` | src/qbt_orchestrator/soak_queue.py:351-401 | a victim list covers its need and stops covering it without its last member |
| `SoakVictims.VictimsAreEligible` | src/qbt_orchestrator/soak_queue.py:368-385 | every victim is an active, running, unprotected, not excluded, not nearly finished download |
| `SoakSelection.VictimsAreBest` | src/qbt_orchestrator/soak_queue.py:386-401 | no download left alone scores higher than a victim |
| `SoakSelection.NoVictims` | src/qbt_orchestrator/soak_queue.py:386-401 | there are no victims exactly when all downloads that may be preempted fall short of the need |
| `SoakVictims.ReleaseFrees` | src/qbt_orchestrator/soak_queue.py:403-433 | releasing victims lowers the deduplicated total by exactly what their downloads exceed their batches by |
| `SoakVictims.HonestIffFreed` | src/qbt_orchestrator/soak_queue.py:358-366 | releasing a torrent frees all its unreleased download bytes if and only if none of them expired and no live batch covers them |
| `SoakVictims.CreditCoveredIff` | src/qbt_orchestrator/soak_queue.py:351-401 | for a torrent that may be preempted, no victim list for any need credits more than its release frees, if and only if its credit is honest |
| `SoakVictims.GreatestCredit` | src/qbt_orchestrator/soak_queue.py:386-401 | for a large enough need a victim list credits all the torrent's unreleased bytes, expired ones included |
| `SoakVictims.CreditMayBeDishonest` | src/qbt_orchestrator/soak_queue.py:358-401 | two ledgers on which the victim selection picks and credits a torrent whose release frees nothing |
| `SoakVictims.HonestVictimsFree` | src/qbt_orchestrator/soak_queue.py:351-433 | preempting victims with honest credit frees at least the credited bytes |
| `SoakTrim.TrimWithinCap` | src/qbt_orchestrator/soak_queue.py:263-312 | after every resident the summed exposures are at most the initial cap plus the bytes credited by preemption |
| `SoakTrim.ExposureIsLeast` | src/qbt_orchestrator/soak_queue.py:109-120 | an exposure is the least number that, up to the bytes left and the cap per torrent, covers the configured minimum and the projected bytes with two pieces, or 32 MiB, of spill |
| `SoakSelection.SelectedInTurn` | src/qbt_orchestrator/soak_queue.py:150-178 | every active torrent in soak is selected, and of the idle ones the nearest to done, until the resident slots or the active downloads are used up |
| `SoakSelection.DroppedFor` | src/qbt_orchestrator/soak_queue.py:263-312 | a selected torrent is dropped only when those kept before leave no room for its exposure under the free bytes above the floor and the configured total, and a hot one only when all downloads that may be preempted would not make it |
| `SoakSelection.PreemptsForHot` | src/qbt_orchestrator/soak_queue.py:286-303 | nobody is preempted but for a resident fast for the confirmation time whose exposure does not fit |
| `SoakTrim.TrimKeepsSelected` | src/qbt_orchestrator/soak_queue.py:263-312 | the kept residents are distinct selected torrents, with exactly one exposure entry each |
| `SoakTrim.VictimListsDisjoint` | src/qbt_orchestrator/soak_queue.py:299-303 | victim lists of one run are disjoint, and no resident is its own victim |
| `SoakTrim.TrimReleasesWhatItCredits` | src/qbt_orchestrator/soak_queue.py:297-303 | if every preempted torrent's credit was honest, the ledger shrinks by at least what the cap grew |
| `SoakTrim.SoakLeavesRoom` | src/qbt_orchestrator/soak_queue.py:263-312 | kept exposures and everybody else's bytes fit under the disk floor after trimming |
| `SoakTrim.SelectedDistinct` | src/qbt_orchestrator/soak_queue.py:150-178 | running residents and newly started candidates never name a torrent twice |
| `SoakQueue.SoakLedgerElsewhere` | src/qbt_orchestrator/soak_queue.py:521-566 | the soak queue's ledger update leaves everybody else's bytes as they were |
| `SoakQueue.SoakLedgerTotal` | src/qbt_orchestrator/soak_queue.py:521-566 | afterwards the live soak bytes are the reported exposures plus the rows without a torrent that `not in` never releases |
| `SoakQueue.ReservedIsExact` | src/qbt_orchestrator/soak_queue.py:521-566 | the live soak rows sum to the reported bytes if and only if nothing was kept or no live soak row lacks a torrent |
| `SoakQueue.StrayRowOutlasts` | src/qbt_orchestrator/soak_queue.py:521-536 | a ledger whose live soak row without a torrent survives the update unreported |
| `SoakQueue.SoakQueueService.SelectVictims` | src/qbt_orchestrator/soak_queue.py:351-401 | scoring, ranking and taking victims computes the specified list and its bytes, or nothing when the need cannot be covered |
| `SoakQueue.SoakQueueService.TakeCover` | src/qbt_orchestrator/soak_queue.py:392-401 | the loop stops at the first prefix that covers the need |
| `SoakQueue.SoakQueueService.PreemptActive` | src/qbt_orchestrator/soak_queue.py:403-433 | exactly the victims' download rows are released and their allocations and soak rows put into cooldown |
| `SoakQueue.SoakQueueService.TrimToBudget` | src/qbt_orchestrator/soak_queue.py:263-312 | the trimming loop over the mutable tables is the fold the lemmas are about |
| `SoakQueue.SoakQueueService.UpdateResidentState` | src/qbt_orchestrator/soak_queue.py:435-480 | residents turn hot, keep or lose their timers as specified; nobody else's row changes |
| `SoakQueue.SoakQueueService.UpdateSamples` | src/qbt_orchestrator/soak_queue.py:221-244 | every managed torrent's row gets its next moving average, and a candidate's row if it had none; nothing else changes |
| `SoakSamples.SamplingOnlySamples` | src/qbt_orchestrator/soak_queue.py:234-240 | sampling leaves phases and timers alone |
| `SoakSamples.EmaIsBetween` | src/qbt_orchestrator/soak_queue.py:229-233 | the moving average lies between the old one and the current speed |
| `SoakSamples.NextEmaMeans` | src/qbt_orchestrator/soak_queue.py:229-233 | seven tenths of the old average and three of the current speed, to the nearest byte; the first sample in full |
| `SoakQueue.SoakQueueService.RunOnce` | src/qbt_orchestrator/soak_queue.py:122-212 | a run samples the speeds, leaves the specified ledger, allocations and soak rows, holds each kept resident for the least exposure that covers it and reports their sum, which its live soak rows then have if no row was a stray; no allocation becomes active; disabled or unhealthy it only samples |
| `SoakQueue.KeptAreExposed` | src/qbt_orchestrator/soak_queue.py:435-566 | each kept resident's soak row has its exposure, average, phase and timers, and one active reservation of exactly that exposure |
| `SoakQueue.RunReports` | src/qbt_orchestrator/soak_queue.py:180-212 | which residents a run starts and stops, and who is cooling down |
| `Health.DemotionMeansSlow` | src/qbt_orchestrator/planner.py:383-391 | on every run of ticks a slow demotion implies selection at every sampled tick since 90 s ago or more, and under 100 KiB/s at every one since `slow_active_demote_sec` ago or more |
| `Health.DeathMeansAnHour` | src/qbt_orchestrator/planner.py:393-415 | an auto-dead mark implies an hour of samples without a swarm and an hour without progress |
| `Health.OrMeans` | src/qbt_orchestrator/planner.py:445-472 | a health timer that runs keeps its start, and one stored as zero counts as none |
| `Health.LongSlowIsDemoted` | src/qbt_orchestrator/planner.py:383-391 | conversely, a torrent selected and slow at every sampled tick since one at least 90 s and `slow_active_demote_sec` ago is demoted unless it speeds up |
| `Health.HourAloneIsDeath` | src/qbt_orchestrator/planner.py:393-415 | conversely, a soaking torrent is given up an hour after its last swarm and an hour after a tick from which on none showed progress |
| `Health.ActiveSinceMeans` | src/qbt_orchestrator/planner.py:430-492 | `active_since` is a tick from which on the torrent was selected at every tick |
| `Health.LowSpeedSinceMeans` | src/qbt_orchestrator/planner.py:430-492 | `low_speed_since` is a tick from which on every sample was slow |
| `Health.NoProgressSinceMeans` | src/qbt_orchestrator/planner.py:430-492 | `no_progress_since` is a tick from which on no sample showed more downloaded than the one before |
| `Health.DemotionsApart` | src/qbt_orchestrator/planner.py:126-140 | two slow demotions of one torrent are at least `slow_active_demote_sec` apart, whatever other writers do in between |
| `PlannerChoice.PicksWithinBudget` | src/qbt_orchestrator/planner.py:149-166 | the selection uses exactly the summed extra bytes of its members, within the budget |
| `PlannerChoice.PicksMaximal` | src/qbt_orchestrator/planner.py:149-166 | in every mode no queued torrent that was left out still fits the slots and the budget |
| `PlannerChoice.SelectionIsLargest` | src/qbt_orchestrator/planner.py:280-284 | smallest-first selects as many torrents as any set that fits, when nothing is forced or already reserved |
| `PlannerChoice.PicksFromQueue` | src/qbt_orchestrator/planner.py:149-166 | selected torrents are distinct members of the queue |
| `PlannerChoice.CandidateElements` | src/qbt_orchestrator/planner.py:257-284 | the ordered candidate lists contain exactly the managed torrents that pass every test |
| `PlannerSelection.SelectionIsServed` | src/qbt_orchestrator/planner.py:114-166 | in every mode the selection is what serving the torrents that may run in turn comes to, forced ones first: in normal mode smallest first within the active slots and free bytes less the floor, in recovery nearest to done first within its slots and margin, in an emergency nobody |
| `PlannerSelection.NobodyLeftOut` | src/qbt_orchestrator/planner.py:149-166 | a torrent that may run is left out only when the slots are full, or the tick's commitment with what it still needs would exceed free bytes less the floor |
| `PlannerSelection.TickServesMost` | src/qbt_orchestrator/planner.py:280-284 | in normal mode, with nothing forced and nothing reserved for them, no set of torrents that may run, and that fits the slots and the free bytes above the floor, is larger than the tick's own selection |
| `PlannerEffects.StoredStates` | src/qbt_orchestrator/planner.py:168-247 | after a tick a managed unfinished torrent is stored as `active` if and only if it was selected, and a dead one outside cooldown stays dead |
| `PlannerEffects.RunningPartition` | src/qbt_orchestrator/planner.py:168-247 | start and stop lists are disjoint, and what is left running is selected, protected, or in recovery just demoted as slow |
| `PlannerEffects.SelectedAreEligible` | src/qbt_orchestrator/planner.py:257-284 | a selected torrent needs bytes, is not dead and is not cooling down |
| `PlannerReport.StoresAllIsOverlay` | src/qbt_orchestrator/planner.py:188-247 | which allocation every managed torrent ends with, and that no other changes |
| `PlannerReport.StartsAndStops` | src/qbt_orchestrator/planner.py:168-178 | started are the selected torrents that stand still, stopped the running managed ones neither selected, nor protected, nor just slow in recovery |
| `Planner.RequestsSaid` | src/qbt_orchestrator/planner.py:180-247 | sequential download is asked for exactly for lively selected torrents without it, and asked to end for torrents written, not selected and not known to be without |
| `Planner.SlowOnesAre` | src/qbt_orchestrator/planner.py:188-210 | the soak row of a torrent just demoted: in cooldown for 1800 s, or in recovery a resident since it first was one; no other row changes |
| `Planner.AbsentIsForgotten` | src/qbt_orchestrator/planner.py:305-335 | exactly the torrents that are in no snapshot lose their allocation and active reservations |
| `PlannerEffects.TickIsHealthStep` | src/qbt_orchestrator/planner.py:417-492 | what a tick writes for one torrent is one step of the health runs |
| `PlannerRuns.SelectionIsTurn` | src/qbt_orchestrator/planner.py:149-166 | what a tick selects are candidates of it, so every tick is a turn of a run |
| `PlannerRuns.NextTurn` | src/qbt_orchestrator/planner.py:84-247 | on tables a run of ticks left, with activity ended by whatever wrote in between, the next tick continues the run |
| `PlannerRuns.RowIsHistory` | src/qbt_orchestrator/planner.py:417-492 | on every run of ticks a torrent's health row is what its samples add up to |
| `PlannerRuns.SlowDemotionOnRuns` | src/qbt_orchestrator/planner.py:126-140 | on every run of ticks a slow demotion implies selection at every tick that sampled the torrent since 90 s ago or more, and under 100 KiB/s since `slow_active_demote_sec` ago or more |
| `PlannerRuns.LongSlowIsDemotedOnRuns` | src/qbt_orchestrator/planner.py:126-140 | conversely, on every run of ticks such a torrent is demoted |
| `PlannerRuns.DeathOnRuns` | src/qbt_orchestrator/planner.py:126-133 | on every run of ticks an auto-dead mark implies an hour of ticks without a swarm and an hour without progress |
| `PlannerRuns.DemotionsApartOnRuns` | src/qbt_orchestrator/planner.py:126-140 | on every run of ticks two slow demotions of one torrent are at least `slow_active_demote_sec` apart, whatever other writers do to its allocation |
| `PlannerEffects.PlannerRowsExact` | src/qbt_orchestrator/planner.py:550-593 | from any ledger each selected torrent ends with exactly one unreleased download row, of its remaining bytes |
| `PlannerEffects.PlannerRowsElsewhere` | src/qbt_orchestrator/planner.py:565-570 | managed torrents left out end with none, and all other rows are unchanged |
| `PlannerEffects.NeedAfterSync` | src/qbt_orchestrator/planner.py:550-593 | a selected torrent's bytes become max(amount_left, batch) + other, an idle managed one's batch + other, and nobody else's change |
| `PlannerEffects.SyncTotal` | src/qbt_orchestrator/planner.py:550-593 | the new deduplicated total is at most the old one, the greedy loop's used bytes, and the other bytes of the selected torrents |
| `PlannerEffects.CommittedTotal` | src/qbt_orchestrator/planner.py:149-166 | counting selected torrents at the larger of their remaining and reserved bytes adds exactly the greedy loop's used bytes |
| `PlannerEffects.TickWithinFloor` | src/qbt_orchestrator/planner.py:114-166 | the commitment of a tick in any mode is within free bytes less the mode's floor and margin, or adds nothing to what was reserved |
| `Planner.DownloadPlanner.ActiveReservationBytes` | src/qbt_orchestrator/planner.py:354-381 | the planner's reservations are the bytes each key needs, and their sum the ledger total |
| `Planner.DownloadPlanner.ReconcileAbsent` | src/qbt_orchestrator/planner.py:305-335 | allocations, soak rows and reservations of absent torrents go, everything else stays |
| `Planner.DownloadPlanner.Select` | src/qbt_orchestrator/planner.py:149-166 | the forced loop and the regular loop together compute the specified selection and its used bytes |
| `Planner.DownloadPlanner.StoreOutcomes` | src/qbt_orchestrator/planner.py:168-247 | every managed torrent gets at most one allocation write and at most one sequential-mode request, each as specified |
| `Planner.DownloadPlanner.UpdateHealth` | src/qbt_orchestrator/planner.py:417-492 | the health loop writes one next row per managed torrent |
| `Planner.DownloadPlanner.SyncReservations` | src/qbt_orchestrator/planner.py:550-593 | the reservation loop leaves the specified ledger |
| `Planner.DownloadPlanner.PlanAndApply` | src/qbt_orchestrator/planner.py:84-247 | a whole tick, tables and result: nobody who may run is left out while a slot is free and its bytes fit, every stored allocation, request, start and stop is as specified, and the tick is one turn of a run of ticks; an unhealthy one changes nothing |
| `PlannerLedger.LedgerBalances` | src/qbt_orchestrator/planner.py:550-593 | the ledger after the update, with what it gave back, equals the commitment with the bytes counted twice, to the byte |
| `PlannerLedger.TickBalances` | src/qbt_orchestrator/planner.py:114-166 | the same for the whole ledger after a tick, the soak queue's rows and exposure included |
| `PlannerLedger.LedgerWithinCommitmentIff` | src/qbt_orchestrator/planner.py:149-166 | the ledger ends within the commitment if and only if the bytes counted twice and the soak rows left out are at most those given back and the soak exposure, over the ledger as it was read |
| `PlannerLedger.LedgerUnderFloorIff` | src/qbt_orchestrator/planner.py:149-166 | for what the tick itself selects, the whole ledger ends within free bytes less the floor if and only if the commitment with the bytes counted twice and the soak rows left out does, less those given back and the soak exposure |
| `PlannerLedger.CountsTwiceIff` | src/qbt_orchestrator/planner.py:153-166 | bytes of a torrent are counted twice if and only if the ledger holds some for it beside downloads and batches and it needs more than either of those columns has |
| `PlannerLedger.NothingTwiceIff` | src/qbt_orchestrator/planner.py:153-166 | nothing is counted twice in a tick if and only if no selected torrent meets that guard |
| `PlannerLedger.LedgerStaysUnderFloor` | src/qbt_orchestrator/planner.py:114-166 | a normal tick that starts under the floor, and none of whose candidates meets the guard, ends with the whole ledger under the floor |
| `PlannerLedger.TwiceIsBeside` | src/qbt_orchestrator/planner.py:153-166 | what is counted twice for a torrent is part of what the ledger holds beside its downloads and batches |
| `PlannerLedger.PlannerStaysSolvent` | src/qbt_orchestrator/planner.py:114-166 | when what the tick reads and the soak exposure fit under the floor, a normal tick's commitment does too |
| `Daemon.SoakStaysSolvent` | src/qbt_orchestrator/soak_queue.py:263-312 | after the soak queue's run, others' bytes and the reported exposures fit under the floor together |
| `Daemon.TickStaysSolvent` | src/qbt_orchestrator/service.py:312-347 | soak queue, absent reconcile and planner together: selected downloads at their larger claim, all other reservations and the soak exposures stay within free bytes less the floor |
| `Daemon.TickAloneStaysSolvent` | src/qbt_orchestrator/service.py:312-347 | the same with the soak queue switched off |
| `PlannerLedger.LedgerMayExceedCommitment` | src/qbt_orchestrator/planner.py:149-166 | a normal tick, on the ledger a run from the empty database leaves, that starts with it within free bytes less the floor, keeps its commitment there, and ends with the ledger above by a whole download |
| `Daemon.TickKeepsBatches` | src/qbt_orchestrator/service.py:312-347 | a tick is three steps of the batch machine: it keeps the ledger in step with the batches, live batches disjoint if they were, and every soak row named |
| `Daemon.PlannerLeavesBatches` | src/qbt_orchestrator/planner.py:550-593 | the planner touches no batch or cleanup row |
| `Daemon.SoakLeavesBatches` | src/qbt_orchestrator/soak_queue.py:521-566 | the soak queue touches no batch or cleanup row |
| `Daemon.BatchesAreProtected` | src/qbt_orchestrator/service.py:312-347 | the torrents a tick leaves running for their batches are exactly those of a reserved or downloading batch with an unexpired reservation |
| `Daemon.ProtectedKeepRunning` | src/qbt_orchestrator/service.py:312-347 | no torrent of a reserved or downloading batch with an unexpired reservation is stopped by a tick |
| `Daemon.DaemonRuntime.PlannerTick` | src/qbt_orchestrator/service.py:312-347 | one tick of the daemon over the shared tables: solvent with the soak queue on or off, preemption included, balanced to the byte, with the whole ledger under the floor when no candidate's bytes can be counted twice, in step with the batches, stopping no torrent with a batch under way, and the next turn of the run of ticks |
| `BatchSelection.ScoreRearranged` | src/qbt_orchestrator/file_batch.py:635-658 | a selection's validity and score do not depend on the order of its files |
| `BatchSelection.ScoreMeans` | src/qbt_orchestrator/file_batch.py:635-658 | a higher score is more bytes, then a better share of what is claimed, more bytes already there, less spill, fewer files, smaller indices |
| `BatchSelection.ValidIsAdmissible` | src/qbt_orchestrator/file_batch.py:635-650 | a selection is scored exactly if it has bytes, at most `batch_max_bytes` of them, and its remaining bytes, spill and slack are within the budget and the live cap |
| `BatchSelection.RemainingMeans` | src/qbt_orchestrator/file_batch.py:689-697 | what a file still needs is its size less its progress, to the nearest byte, and at least one byte while it is unfinished |
| `BatchSelection.BestMeans` | src/qbt_orchestrator/file_batch.py:595-606 | no admissible subset has more bytes than the best one, and ties are broken as preferred |
| `BatchSelection.MaskIsSubset` | src/qbt_orchestrator/file_batch.py:598-599 | every mask picks a subset of the candidates |
| `BatchSelection.SubsetHasMask` | src/qbt_orchestrator/file_batch.py:598-599 | every non-empty subset is picked by a mask the loop visits |
| `BatchSelection.BestExact` | src/qbt_orchestrator/file_batch.py:595-606 | the mask loop returns an admissible subset with the most bytes, ties broken as preferred, and nothing only when no subset is admissible |
| `BatchKnapsack.TableIsMeaningful` | src/qbt_orchestrator/file_batch.py:608-633 | every state's key is the summed cost of distinct processed rows, and its selection is valid with the recorded score |
| `BatchKnapsack.NeverWorse` | src/qbt_orchestrator/file_batch.py:608-633 | a key once reached stays, and its score never falls |
| `BatchKnapsack.SingleEnters` | src/qbt_orchestrator/file_batch.py:608-633 | a valid single file with bytes left is in the table, matched or beaten, when spill and slack cover the rounding of one unit |
| `BatchKnapsack.GoodMeans` | src/qbt_orchestrator/file_batch.py:608-633 | the knapsack's answer has at least the bytes of every admissible unfinished ranked file and wins the ties against it |
| `BatchKnapsack.RankedAreLargest` | src/qbt_orchestrator/file_batch.py:613-613 | at most forty-eight files are ranked, and none left out is larger than one of those |
| `BatchKnapsack.ExactNeverLoses` | src/qbt_orchestrator/file_batch.py:588-633 | the knapsack never beats the exhaustive search on the same candidates |
| `BatchKnapsack.ExtendAll` | src/qbt_orchestrator/file_batch.py:617-629 | the update loop computes the next table and the order its keys are in |
| `BatchKnapsack.KeyOrderLists` | src/qbt_orchestrator/file_batch.py:614-629 | the insertion order lists exactly the table's keys, once each |
| `BatchKnapsack.AnswerIsDetermined` | src/qbt_orchestrator/file_batch.py:630-633 | the first best-scored state in insertion order is unique, so the answer is determined |
| `BatchKnapsack.BestEntry` | src/qbt_orchestrator/file_batch.py:630-631 | the first, in insertion order, of the best-scored states that select something |
| `BatchKnapsack.BestKnapsack` | src/qbt_orchestrator/file_batch.py:608-633 | the returned batch is that state's selection by index: admissible, made of candidates, and with at least the bytes of every admissible unfinished ranked file |
| `BatchTurn.SelectBatchFiles` | src/qbt_orchestrator/file_batch.py:568-593 | up to eighteen files that may be taken the answer is the best of all admissible collections of them, beyond that one no admissible ranked file beats, and no file of a batch in flight is taken |
| `BatchTurn.CreationRaisesBy` | src/qbt_orchestrator/file_batch.py:803-833 | a new batch row raises the deduplicated total by at most its own bytes |
| `BatchTurn.RefusalRaisesNothing` | src/qbt_orchestrator/file_batch.py:845-857 | a refused batch, its row released again, leaves the total no larger than it was |
| `FileBatch.FileBatchService.SafeBudget` | src/qbt_orchestrator/file_batch.py:734-757 | the budget is free bytes less the floor and the deduplicated total, never negative |
| `FileBatch.FileBatchService.QueueDownloaded` | src/qbt_orchestrator/file_batch.py:427-469 | exactly the finished, uploadable, parked batches without a job are queued, each a step of the batch machine |
| `FileBatch.FileBatchService.ReconcileState` | src/qbt_orchestrator/file_batch.py:319-348 | a stopped torrent's batches are given back exactly when the planner stopped it |
| `FileBatch.FileBatchService.CreateBatch` | src/qbt_orchestrator/file_batch.py:803-857 | a created batch leaves the deduplicated total under the floor; a refused one is failed, has no active row, and raises no total |
| `FileBatch.FileBatchService.Prefetch` | src/qbt_orchestrator/file_batch.py:250-317 | a batch is created only of valid files within the budget and every cap, and leaves the total under the floor |
| `FileBatch.FileBatchService.MaybeCreate` | src/qbt_orchestrator/file_batch.py:193-317 | whatever is listed, one torrent's turn is a run of the batch machine and comes to exactly the specified state: what is due is queued, what was stopped given back, and a batch created, below the in-flight cap and within the budget, if and only if every gate is open |
| `FileBatch.FileBatchService.Look` | src/qbt_orchestrator/file_batch.py:223-317 | the same from the listing on |
| `FileBatch.FileBatchService.SyncCompleted` | src/qbt_orchestrator/file_batch.py:144-164 | whatever is listed, a pass gives every managed unfinished torrent its turn, queues what is due, creates at most `batch_max_new_per_tick` batches and withholds none below that cap for no reason, leaves the total under the floor right after each of them, and keeps the ledger in step with them; live batches stay disjoint when no listing goes back |
| `BatchTurn.CreatedIff` | src/qbt_orchestrator/file_batch.py:193-317 | a turn creates a batch if and only if every named gate is open and the choice at the free bytes nothing has reserved is not empty, efficient enough, let through and accepted |
| `BatchTurn.TurnBatches` | src/qbt_orchestrator/file_batch.py:427-469 | a turn queues exactly its torrent's batches that are due and leaves other torrents' batches and jobs alone |
| `BatchTurn.PassIs` | src/qbt_orchestrator/file_batch.py:144-164 | a pass leaves batches of unmanaged and completed torrents as they were, queues every due batch of the others, and below its cap nobody goes without a batch for no reason |
| `BatchTurn.BelowTheCap` | src/qbt_orchestrator/file_batch.py:199-317 | a pass that created fewer batches than its cap created one in every turn that no other gate or an empty choice stopped |
| `BatchTurn.DueIs` | src/qbt_orchestrator/file_batch.py:427-460 | due are batches of the torrent under way without a job, each of whose files is listed with all its bytes, that are found on disk and parked |
| `BatchTurn.GivesBackMeans` | src/qbt_orchestrator/file_batch.py:319-376 | a batch is given back, or held up, only while its torrent is stopped, and because the planner stopped it or an active batch row has not expired |
| `BatchTurn.CanaryMeans` | src/qbt_orchestrator/file_batch.py:416-425 | in live verification with a list exactly the torrents on it, by hash or tag, get batches |
| `BatchTurn.TakenMeans` | src/qbt_orchestrator/file_batch.py:769-788 | a file is taken exactly while it is in a batch of its torrent in flight |
| `BatchTurn.PieceSizeMeans` | src/qbt_orchestrator/file_batch.py:559-566 | the piece size is the torrent's, and at least one |
| `BatchTurn.InFlightCountIs` | src/qbt_orchestrator/file_batch.py:759-767 | the batches counted are those in flight |
| `BatchInvariant.LedgerStep` | src/qbt_orchestrator/file_batch.py:528-557 | every step, any listing included, keeps: active batch rows belong to reserved or downloading batches, each queued batch has exactly one cleanup row of its pinned bytes, every soak row names a torrent |
| `BatchInvariant.LedgerRun` | src/qbt_orchestrator/file_batch.py:378-404 | that holds after every run of creations, failures, pauses, uploads, cleanups, expiries, reconciles and listings |
| `BatchInvariant.InvStep` | src/qbt_orchestrator/file_batch.py:427-468 | a step that reports no file further back also keeps queued files complete and live batches disjoint |
| `BatchInvariant.InvRun` | src/qbt_orchestrator/file_batch.py:427-468 | live batches of a torrent stay disjoint on every run in which progress never goes back, retries included |
| `BatchInvariant.InvStart` | src/qbt_orchestrator/db.py:256-266 | the empty database satisfies both invariants |
| `BatchInvariant.QueuedBatchStaysPinned` | src/qbt_orchestrator/runtime.py:174-220 | once queued, on every continuation, rechecks included, a batch has exactly one cleanup row, of exactly its pinned bytes, and no active batch row |
| `BatchInvariant.QueueingPins` | src/qbt_orchestrator/file_batch.py:528-557 | queueing a batch leaves one cleanup row for it, of its torrent and pinned bytes, active and without an expiry |
| `BatchInvariant.QueuedBytesStayCounted` | src/qbt_orchestrator/planner.py:354-381 | from then on, on every run that does not reconcile its torrent away, a batch's pinned bytes are in its torrent's need and in the total, for every reader at any time |
| `BatchInvariant.PinGivesOne` | src/qbt_orchestrator/file_batch.py:543-556 | pinning leaves exactly one cleanup row if there was at most one |
| `BatchInvariant.CreationDisjointIff` | src/qbt_orchestrator/file_batch.py:769-788 | a creation keeps live batches disjoint if and only if it takes no file of a live batch missing from the in-flight states |
| `BatchInvariant.UncountedAreDone` | src/qbt_orchestrator/file_batch.py:427-440 | batches outside the in-flight states consist of finished files, which creations never take while progress is monotone |
| `BatchInvariant.BackwardsProgressOverlaps` | src/qbt_orchestrator/file_batch.py:769-788 | a run from the empty database in which a recheck lets a new batch take the file of one waiting for a retry |
| `BatchInvariant.UploadedFromEmpty` | src/qbt_orchestrator/runtime.py:174-220 | a run from the empty database after which all that is left of a batch is its cleanup row |
| `BatchInvariant.NoNewLife` | src/qbt_orchestrator/runtime.py:174-220 | only a creation adds a batch; no step revives one or changes its files |
| `BatchInvariant.RetryWaits` | src/qbt_orchestrator/runtime.py:82-121 | after a failed copy a batch upload is not attempted again before its retry is due, whatever happens in between |
| `BatchInvariant.LiveButUncounted` | src/qbt_orchestrator/file_batch.py:759-788 | live batches not counted as in flight are waiting for a retry or a cleanup, or done |
| `BatchWorkers.UploadJobRunner.NextDue` | src/qbt_orchestrator/runtime.py:82-98 | the oldest batch upload that is due, or none |
| `BatchWorkers.UploadJobRunner.RunBatchUpload` | src/qbt_orchestrator/runtime.py:131-220 | a batch reaches deferred cleanup only if everything was copied and verified, deletes nothing local, counts the attempt, schedules a retry by it, and takes one step of the batch machine |
| `BatchWorkers.CleanupRequestRunner.RunNext` | src/qbt_orchestrator/runtime.py:447-528 | exactly the requested batches in deferred cleanup are marked, their bytes stay pinned, and nothing changes when none match |
| `BatchWorkers.MaintenanceService.ExpireReservations` | src/qbt_orchestrator/maintenance.py:79-93 | expiring rows is a step of the batch machine and changes no total any reader sees |
| `BatchWorkers.ExpiryChangesNoTotal` | src/qbt_orchestrator/maintenance.py:79-93 | for every ledger, expiry only records what the readers already left out |
| `Upload.SizesAreListed` | src/qbt_orchestrator/upload.py:65-73 | the recorded sizes are listed ones, and all of them when no path repeats |
| `Upload.RelMeans` | src/qbt_orchestrator/upload.py:65-73 | paths are compared without leading slashes and with all slashes one way round |
| `Upload.VerifiedMeansListed` | src/qbt_orchestrator/upload.py:65-81 | against a listing in which no path repeats, a manifest is verified if and only if each of its files is listed with its size and the sizes add up to the job's |
| `Upload.NothingMissingIsVerified` | src/qbt_orchestrator/upload.py:75-80 | a missing or resized file is never verified, whatever the listing |
| `Upload.RcloneUploadWorker.CopyEachFile` | src/qbt_orchestrator/upload.py:50-63 | files are copied one by one up to the first that fails or has no endpoint |
| `Upload.RcloneUploadWorker.VerifyManifest` | src/qbt_orchestrator/upload.py:65-81 | the two loops with their early return decide exactly manifest verification |
| `Upload.RcloneUploadWorker.RunOnce` | src/qbt_orchestrator/upload.py:31-48 | local data is deleted only for a whole torrent that was copied and verified; a batch job is never done, only deferred |
| `SidecarUploads.StepInv` | src/qbt_orchestrator/runtime.py:131-172 | every attempt keeps attempts within their maximum and manifest, pipeline and jobs in step |
| `SidecarUploads.ClaimsWithinMaximum` | src/qbt_orchestrator/runtime.py:421-425 | no run claims a job more often than its maximum |
| `SidecarUploads.EveryRunEnds` | src/qbt_orchestrator/runtime.py:82-121 | runs are no longer than all allowances together, and an unfinished job can always be attempted |
| `SidecarUploads.CompleteRunsSettle` | src/qbt_orchestrator/runtime.py:234-357 | every complete run ends verified if and only if all jobs are done, and failed otherwise, the pipeline then passed through or to be reviewed as a failed job's payload says |
| `SidecarUploads.FirstFailureDecides` | src/qbt_orchestrator/runtime.py:327-357 | the first job to fail for good decides, by its own payload, whether the pipeline may pass through, and nothing later changes that |
| `SidecarUploads.RetryWaits` | src/qbt_orchestrator/runtime.py:427-431 | after a failed copy a job waits at least the schedule's entry for its failures so far, the last one from then on |
| `SidecarUploads.MaximumMeans` | src/qbt_orchestrator/runtime.py:421-425 | a job's maximum is its column, and one when that is zero |
| `SidecarUploads.Confluent` | src/qbt_orchestrator/runtime.py:234-357 | runs in which each job meets the same fate settle the manifest the same way, whatever the interleaving |
| `SidecarUploads.FailureIsForgottenIff` | src/qbt_orchestrator/runtime.py:252-287 | in between, a failed manifest goes back to uploading exactly when an unfinished job precedes the first failed one |
| `SidecarUploads.FailureForgotten` | src/qbt_orchestrator/runtime.py:252-287 | a run of the runner on a fresh manifest, in claim order, after which the failed manifest is uploading again |
| `SidecarUploads.ScanStopsBefore` | src/qbt_orchestrator/runtime.py:252-270 | what the early-break scan reports in the presence of a failed job |
| `SidecarUploads.SidecarUploadRunner.NextDue` | src/qbt_orchestrator/runtime.py:82-98 | the due job of lowest priority number, the oldest of those, or none |
| `SidecarUploads.SidecarUploadRunner.ScanJobs` | src/qbt_orchestrator/runtime.py:249-270 | the scan loop with its flags computes the scan's result |
| `SidecarUploads.SidecarUploadRunner.MarkFailed` | src/qbt_orchestrator/runtime.py:327-357 | a failure settles the manifest and only a pipeline run still waiting for it |
| `SidecarUploads.SidecarUploadRunner.RunNext` | src/qbt_orchestrator/runtime.py:131-172 | one claim and its outcome is one step of the runs |
| `Carousel.BackoffBound` | src/qbt_orchestrator/carousel.py:95-161 | on every run and for every clock, the (k+1)-th start of a torrent is at least its first start plus k probe durations and the first k entries of the schedule, the last one over and over, half an hour each without one |
| `Carousel.NeverTooManyProbes` | src/qbt_orchestrator/carousel.py:72-76 | on every run the probing rows never exceed the concurrency, nor one in live verification |
| `Carousel.NobodyWaitsInVain` | src/qbt_orchestrator/carousel.py:72-76 | a dead torrent that may be probed is left out only when as many probes run as are allowed, and those started were allocated no later |
| `Carousel.ProbesStayWithinLimit` | src/qbt_orchestrator/carousel.py:72-76 | from any table a tick never raises the number of probes above the limit |
| `Carousel.StartedAreNeitherPromotedNorStopped` | src/qbt_orchestrator/carousel.py:95-161 | no torrent is started and promoted in one tick, nor started and stopped unless its backoff is not positive |
| `Carousel.StoppedMayStartIff` | src/qbt_orchestrator/carousel.py:111-161 | a torrent whose probe is stopped is in line again in the same tick if and only if it is still wanted and its backoff is not positive |
| `Carousel.StoppedAndStartedAtOnce` | src/qbt_orchestrator/carousel.py:113-115 | with a zero backoff a torrent is stopped and started in one tick |
| `Carousel.PromotionIsForGood` | src/qbt_orchestrator/carousel.py:153-160 | a promoted torrent is never probed again, even if it is allocated as dead later |
| `Carousel.RunRemembers` | src/qbt_orchestrator/carousel.py:191-220 | on every run a row's level, start time and backoff record the torrent's past starts |
| `Carousel.CarouselService.ReconcileActiveProbes` | src/qbt_orchestrator/carousel.py:95-120 | exactly the probes with a swarm are promoted and exactly the overdue ones stopped and put off by the schedule's entry for their level, each list in the order of their starts, with their rows and allocations; no probe is left running past its time or with a swarm |
| `Carousel.CarouselService.DeadCandidates` | src/qbt_orchestrator/carousel.py:137-161 | exactly the eligible dead torrents, longest allocated first |
| `Carousel.CarouselService.StartNewProbes` | src/qbt_orchestrator/carousel.py:122-135 | the first candidates in line are started, as many as there is room for, and nobody is passed over |
| `Carousel.CarouselService.RunOnce` | src/qbt_orchestrator/carousel.py:57-88 | a tick is one step of the runs and makes no allocation active; suspended it changes nothing |
| `TokenBucket.StaysInRange` | src/qbt_orchestrator/integrations/qbt.py:34-47 | tokens stay between zero and the capacity, whatever the clock does |
| `TokenBucket.RateBound` | src/qbt_orchestrator/integrations/qbt.py:34-47 | of any call sequence, j - i + 1 <= max(1, rate) + rate * (t_j - t_i) |
| `TokenBucket.BurstGoesThrough` | src/qbt_orchestrator/integrations/qbt.py:34-47 | as many calls as there are tokens go through without sleeping |
| `TokenBucket.OneCallCostsOne` | src/qbt_orchestrator/integrations/qbt.py:34-47 | a call, slept or not, leaves at most what time has earned less one token |
| `TokenBucket.SleepIsNoLongerThanNeeded` | src/qbt_orchestrator/integrations/qbt.py:44-45 | a caller that wakes when asked finds exactly one token earned |
| `TokenBucket.Limiter.Acquire` | src/qbt_orchestrator/integrations/qbt.py:34-47 | the two readings of the clock and the sleep asked for, as specified |
| `SeedingPreemption.HourlyLimit` | src/qbt_orchestrator/seeding_preemption.py:363-367 | on every run each closed 3600 s window holds at most `max_preemptions_per_hour` preemptions |
| `SeedingPreemption.DailyLimit` | src/qbt_orchestrator/seeding_preemption.py:353-354 | each closed 86400 s window holds at most the per-torrent daily limit |
| `SeedingPreemption.CooldownApart` | src/qbt_orchestrator/seeding_preemption.py:348-350 | two preemptions of one torrent are more than the cooldown apart |
| `SeedingPreemption.DecisionIsDetermined` | src/qbt_orchestrator/seeding_preemption.py:113-162 | the ledger of preemptions and the inputs determine the decision |
| `SeedingPreemption.PreemptsIff` | src/qbt_orchestrator/seeding_preemption.py:91-162 | a seed is stopped if and only if the gates are open and some waiting download of the minimum score and some available seed together score 100 plus the margin, and the pair taken is one |
| `SeedingPreemption.PreemptedWasFree` | src/qbt_orchestrator/seeding_preemption.py:325-361 | a preempted torrent had passed every guard, and the hourly gate was open |
| `SeedingPreemption.SeedingPreemptionService.CountSince` | src/qbt_orchestrator/seeding_preemption.py:374-386 | counts the rows from a cutoff on |
| `SeedingPreemption.SeedingPreemptionService.Guards` | src/qbt_orchestrator/seeding_preemption.py:325-361 | a seed is blocked exactly when one of the seven guards holds |
| `SeedingPreemption.SeedingPreemptionService.FindTarget` | src/qbt_orchestrator/seeding_preemption.py:114-122 | the first waiting download of the highest score |
| `SeedingPreemption.SeedingPreemptionService.FindSeed` | src/qbt_orchestrator/seeding_preemption.py:127-139 | the first unguarded seed of the highest score above the threshold |
| `SeedingPreemption.SeedingPreemptionService.EvaluateAndApply` | src/qbt_orchestrator/seeding_preemption.py:91-162 | preempts the best seed for the best download when every gate is open and the margin is met, records exactly that, and otherwise nothing |
| `Order.SortIsSorted` | src/qbt_orchestrator/soak_queue.py:255-261 | sorting by a tuple key keeps the elements and orders them |
| `Order.LexAntisymmetric` | src/qbt_orchestrator/file_batch.py:643-658 | the comparison of score tuples is an order: equal only when both ways |

## Left out

- Dry-run branches: the model is the live mode, in which every service applies what it decides.
- Concurrency: the background event workers are off, so transactions of different services interleave only between the steps modelled; enqueueing a batch upload and marking the batch are one step.
- SQLite itself: ids are positions, rows are never deleted, and unordered queries may return rows in any order where the result could depend on it; where a scan picks the row to keep among duplicates it is the lowest id.
- Floating point: speeds, progress, scores and the token bucket are exact integers and reals, and Python's `round` to a whole number of bytes is written out.
- A clock that goes back between two planner ticks: the runs of ticks are over one that does not. The other machines say so where they allow any clock.
- Columns nothing reads back: reasons, slot kinds, `released_at`, `applied_at`, `last_probe_at`, batch numbers, decision and action logs, events and metrics.
- Free bytes, sync health, snapshots and every answer of qBittorrent, rclone and the backpressure policy are inputs.
- A daemon configured without a soak queue service: it ticks like one whose soak queue is disabled, and samples nothing.
- The soak queue's download limits for low capacity, which change no table of the ledger.
- The completed-torrent half of the file-batch pass, which enqueues whole-torrent uploads and creates no batch.
- Media names: whether a file name is a wanted one is a boolean of the file.
- File-system work: which batch files are found on disk, and their bytes, are inputs, as is whether a seeding torrent has a local payload; the resolution of local and remote copy endpoints is done before `Upload` begins.
- Cancelled sidecar jobs, which nothing in the daemon makes; jobs of other manifests, the media pipeline after a verified upload, and Emby refresh tasks.
- Scores of seeding preemption and the naming of blocked guards: a torrent's two scores are inputs, and a guard only says whether it blocks.
- Operator commands that bypass the invariants: `reconcile_jobs`, `force_preempt_hash`, and commands that enqueue arbitrary jobs.
- Lower-casing of configured canary hashes, and ledger keys of the form `kind:id` colliding with a torrent hash.
- The junk and orphan janitors, path reconciliation, preferences guard, alerts, Telegram and the command line.
