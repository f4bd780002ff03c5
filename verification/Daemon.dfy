/**
 One planner tick of the daemon: the soak queue runs first, then the download planner over what is
 left, both over the same ledger. The disk stays solvent across the two.
 */
module Daemon {
  import opened Options
  import opened Sums
  import opened Ledger
  import opened LedgerUpdates
  import opened Torrents
  import opened StateDbTables
  import Tables
  import SoakVictims
  import SoakTrim
  import SoakQueue
  import PlannerChoice
  import PlannerEffects
  import PlannerRuns
  import PlannerReport
  import PlannerSelection
  import Planner
  import BatchLifecycle
  import BatchWorkers
  import opened PlannerLedger
  import SoakSamples

  // ---------------------------------------------------------------------------------------------
  // Both schedulers leave the batches alone
  // ---------------------------------------------------------------------------------------------

  lemma SoakLeavesBatches(rows: Table, preempted: set<string>, kept: seq<Torrent>, exposures: map<string, nat>,
                          now: int)
    requires exposures.Keys == HashSet(kept)
    ensures BatchLifecycle.LeavesOursAlone(rows,
                                           SoakQueue.SoakLedger(ReleaseKind(rows, ActiveDownload, preempted), kept,
                                                                exposures, now))
  {
    hide Missing, HasHolder, FirstHolder;
    var a := ReleaseKind(rows, ActiveDownload, preempted);
    var b := ReleaseSoakExcept(a, HashSet(kept));
    var c := SoakQueue.SoakLedger(a, kept, exposures, now);
    SyncLeavesBatches(b, SoakProbe, HashSeq(kept), exposures, now + SoakQueue.PROBE_TTL);
  }

  lemma SyncLeavesBatches(rows: Table, kind: Kind, order: seq<string>, want: map<string, nat>, expires: int)
    requires forall h :: h in order ==> h in want
    requires !BatchLifecycle.Ours(kind)
    ensures BatchLifecycle.LeavesOursAlone(rows, Synced(rows, kind, order, want, expires))
  {
    hide Synced, Missing, FirstHolder;
    var rows' := Synced(rows, kind, order, want, expires);
    SyncedAt(rows, kind, order, want, expires, 0);
    forall i | 0 <= i < |rows'|
      ensures i < |rows| ==>
        if BatchLifecycle.Ours(rows[i].kind) then rows'[i] == rows[i] else !BatchLifecycle.Ours(rows'[i].kind)
      ensures i < |rows| ==> rows'[i].kind == rows[i].kind && rows'[i].hash == rows[i].hash
      ensures |rows| <= i ==> !BatchLifecycle.Ours(rows'[i].kind) && rows'[i].hash.Some?
    {
      SyncedAt(rows, kind, order, want, expires, i);
    }
  }

  lemma PlannerLeavesBatches(rows: Table, managed: set<string>, selected: seq<Torrent>, now: int)
    requires DistinctHashes(selected)
    ensures BatchLifecycle.LeavesOursAlone(rows, PlannerEffects.PlannerRows(rows, managed, selected, now))
  {
    hide Missing, HasHolder, FirstHolder, PlannerEffects.Wanted;
    PlannerEffects.SelectionLists(selected);
    SyncLeavesBatches(ReleaseKind(rows, ActiveDownload, managed - HashSet(selected)), ActiveDownload,
                      HashSeq(selected), PlannerEffects.Wanted(selected), now + PlannerEffects.ROW_TTL);
  }

  /** The torrent of a batch under way, with an active reservation that has not expired. */
  ghost predicate HasBatch(rows: Table, batches: seq<BatchLifecycle.BatchRow>, now: int, h: string) {
    exists i, b :: 0 <= i < |rows| && 0 <= b < |batches|
      && rows[i].kind.Batch? && rows[i].batchId == Some(b)
      && rows[i].state.Active? && (rows[i].expiresAt.None? || rows[i].expiresAt.value > now)
      && (batches[b].state.Reserved? || batches[b].state.AppliedToQbt? || batches[b].state.Downloading?)
      && batches[b].hash == h
  }

  lemma BatchesAreProtected(rows: Table, rows1: Table, batches: seq<BatchLifecycle.BatchRow>, now: int)
    requires BatchLifecycle.LeavesOursAlone(rows, rows1)
    ensures forall h :: h in BatchLifecycle.ProtectedHashes(batches, rows1, now) <==>
      h != "" && HasBatch(rows, batches, now, h)
  {
    forall h | h in BatchLifecycle.ProtectedHashes(batches, rows1, now)
      ensures h != "" && HasBatch(rows, batches, now, h)
    {
      var i :| 0 <= i < |rows1| && rows1[i].kind.Batch? && Live(rows1[i], now) && rows1[i].batchId.Some?
        && rows1[i].batchId.value < |batches| && BatchLifecycle.Pipeline(batches[rows1[i].batchId.value].state)
        && batches[rows1[i].batchId.value].hash == h;
      assert i < |rows| && rows1[i] == rows[i];
    }
    forall h | h != "" && HasBatch(rows, batches, now, h)
      ensures h in BatchLifecycle.ProtectedHashes(batches, rows1, now)
    {
      var i, b :| 0 <= i < |rows| && 0 <= b < |batches| && rows[i].kind.Batch? && rows[i].batchId == Some(b)
        && rows[i].state.Active? && (rows[i].expiresAt.None? || rows[i].expiresAt.value > now)
        && (batches[b].state.Reserved? || batches[b].state.AppliedToQbt? || batches[b].state.Downloading?)
        && batches[b].hash == h;
      assert rows1[i] == rows[i];
    }
  }

  /** No torrent with a batch under way is stopped. */
  ghost predicate BatchesKeepRunning(rows: Table, batches: seq<BatchLifecycle.BatchRow>, now: int,
                                     paused: seq<string>) {
    forall h :: h in paused ==> !HasBatch(rows, batches, now, h)
  }

  lemma NobodyStopped(rows: Table, batches: seq<BatchLifecycle.BatchRow>, now: int)
    ensures BatchesKeepRunning(rows, batches, now, [])
  {
  }

  lemma ProtectedKeepRunning(rows: Table, rows1: Table, batches: seq<BatchLifecycle.BatchRow>, now: int,
                             tick: PlannerChoice.Tick, selected: seq<Torrent>, r: Planner.PlannerResult)
    requires BatchLifecycle.LeavesOursAlone(rows, rows1) && DistinctHashes(tick.snapshots)
    requires BatchLifecycle.ProtectedHashes(batches, rows1, now) <= tick.protectedRunning
    requires PlannerReport.Reports(tick, selected, r.started, r.paused, r.requests)
    ensures BatchesKeepRunning(rows, batches, now, r.paused)
  {
    hide BatchLifecycle.LeavesOursAlone, BatchLifecycle.ProtectedHashes, HasBatch;
    BatchesAreProtected(rows, rows1, batches, now);
    forall h | h in r.paused ensures !HasBatch(rows, batches, now, h) {
      var t :| t in tick.snapshots && t.hash == h && PlannerReport.Stops(tick, selected, t);
    }
  }

  lemma LeavingAlone(rows: Table)
    ensures BatchLifecycle.LeavesOursAlone(rows, rows)
  {
  }

  /** Soak queue, forgetting absent torrents, planner: three steps of the batch machine. */
  lemma TickKeepsBatches(w: BatchLifecycle.World, rows1: Table, absent: set<string>, rows3: Table)
    requires BatchLifecycle.LeavesOursAlone(w.rows, rows1)
    requires BatchLifecycle.LeavesOursAlone(ReleaseHashes(rows1, absent), rows3)
    ensures NoStrays(w.rows) ==> NoStrays(rows3)
    ensures BatchLifecycle.LedgerInv(w) ==> BatchLifecycle.LedgerInv(w.(rows := rows3))
    ensures BatchLifecycle.Inv(w) ==> BatchLifecycle.Inv(w.(rows := rows3))
  {
    hide BatchLifecycle.Inv, BatchLifecycle.LedgerInv, ReleaseHashes, NoStrays;
    var soaked := BatchLifecycle.OtherSchedulers(rows1);
    var gone := BatchLifecycle.AbsentReconcile(absent);
    var planned := BatchLifecycle.OtherSchedulers(rows3);
    NamedAfterRelease(rows1, absent);
    assert NoStrays(w.rows) ==> NoStrays(rows3);
    hide BatchLifecycle.LeavesOursAlone;
    BatchWorkers.StepKeeps(w, soaked);
    BatchWorkers.StepKeeps(w.(rows := rows1), gone);
    BatchWorkers.StepKeeps(w.(rows := ReleaseHashes(rows1, absent)), planned);
  }

  lemma NamedAfterRelease(rows: Table, hs: set<string>)
    ensures NoStrays(rows) ==> NoStrays(ReleaseHashes(rows, hs))
  {
  }

  // ---------------------------------------------------------------------------------------------
  // Solvency
  // ---------------------------------------------------------------------------------------------

  /** After the soak queue's run, others' bytes and the reported exposure fit under the floor together. */
  lemma SoakStaysSolvent(run: SoakTrim.Run, rows: Table, alloc: SoakVictims.Allocations, soak: SoakTrim.SoakRows)
    requires DistinctHashes(run.snapshots)
    requires Total(rows, run.now, true) + run.cfg.diskFloor <= run.freeBytes
    requires forall h :: h in SoakTrim.Members(SoakTrim.Trimmed(run, rows, alloc, soak).preempted) ==>
      SoakVictims.CreditIsHonest(rows, run.now, h)
    ensures
      var end := SoakTrim.Trimmed(run, rows, alloc, soak);
      && SoakTrim.KeptFrom(end, SoakTrim.Selected(run))
      && var after := SoakQueue.SoakLedger(end.rows, end.kept, end.exposures, run.now);
         && Total(after, run.now, true) + end.used + run.cfg.diskFloor <= run.freeBytes
         && end.used == Sum(end.exposures)
         && (Sum(SoakQueue.StrayNeeds(end.rows, run.now)) == 0 ==> SoakTotal(after, run.now) == end.used)
  {
    hide Total, SoakTotal, SoakTrim.Trim, SoakTrim.Selected, SoakQueue.SoakLedger, SoakVictims.CreditIsHonest;
    var start := SoakTrim.TrimStart(run, rows, alloc, soak);
    SoakTrim.SelectedDistinct(run);
    SoakTrim.TrimKeepsSelected(run, start, SoakTrim.Selected(run));
    SoakTrim.TrimWithinCap(run, start, SoakTrim.Selected(run));
    SoakTrim.SoakLeavesRoom(run, rows, alloc, soak);
    var end := SoakTrim.Trimmed(run, rows, alloc, soak);
    SoakQueue.SoakLedgerElsewhere(end.rows, end.kept, end.exposures, run.now);
    SoakQueue.SoakLedgerTotal(end.rows, end.kept, end.exposures, run.now);
  }

  lemma ManagedNamed(tick: PlannerChoice.Tick)
    requires DistinctHashes(tick.snapshots)
    ensures "" !in HashSet(PlannerChoice.Managed(tick))
  {
    FilterDistinct(tick.snapshots, PlannerChoice.MANAGED);
  }

  /**
   The solvency argument of a whole tick, on values: with the soak queue enabled, everybody else's bytes
   under the floor, and honest credit for whoever is preempted.
   */
  lemma TickStaysSolvent(run: SoakTrim.Run, rows: Table, alloc: SoakVictims.Allocations, soak: SoakTrim.SoakRows,
                         tick: PlannerChoice.Tick, absent: set<string>, reserved: map<Key, nat>)
    requires DistinctHashes(run.snapshots) && tick.snapshots == run.snapshots && tick.now == run.now
      && tick.freeBytes == run.freeBytes
    requires run.cfg.diskFloor == tick.cfg.diskFloor
    requires PlannerChoice.TickMode(tick) == PlannerChoice.Normal
    requires Total(rows, run.now, true) + run.cfg.diskFloor <= run.freeBytes && NoStrays(rows)
    requires forall h :: h in SoakTrim.Members(SoakTrim.Trimmed(run, rows, alloc, soak).preempted) ==>
      SoakVictims.CreditIsHonest(rows, run.now, h)
    requires tick.external == SoakTrim.Trimmed(run, rows, alloc, soak).used
    requires SoakTrim.KeptFrom(SoakTrim.Trimmed(run, rows, alloc, soak), SoakTrim.Selected(run))
    requires forall k ::
      At(reserved, k) == Need(ReadAfter(run, rows, alloc, soak, absent), tick.now, PlannerChoice.IgnoreSoak(tick), k)
    ensures
      var read := ReadAfter(run, rows, alloc, soak, absent);
      var selected := PlannerEffects.Selection(tick, reserved, Sum(reserved)).selected;
      && DistinctHashes(selected)
      && TickCommitment(reserved, selected, tick.external) + tick.cfg.diskFloor <= tick.freeBytes
      && var after := PlannerEffects.PlannerRows(read, HashSet(PlannerChoice.Managed(tick)), selected, tick.now);
         && Total(after, tick.now, false) + tick.cfg.diskFloor
              <= tick.freeBytes + Beside(read, tick.now, PlannerChoice.IgnoreSoak(tick), selected)
         && (NoneCountsTwice(tick, read) ==> Total(after, tick.now, false) + tick.cfg.diskFloor <= tick.freeBytes)
  {
    hide Total, SoakTotal, Need, SoakTrim.Trim, SoakTrim.Selected, SoakTrim.TrimStart, SoakQueue.SoakLedger,
         SoakVictims.CreditIsHonest, NoStrays,
         ReleaseHashes, PlannerEffects.PlannerRows, PlannerEffects.Selection, SoakQueue.StrayNeeds, Beside,
         NoneCountsTwice, TickCommitment, PlannerChoice.Managed;
    var end := SoakTrim.Trimmed(run, rows, alloc, soak);
    var after := SoakQueue.SoakLedger(end.rows, end.kept, end.exposures, run.now);
    SoakStaysSolvent(run, rows, alloc, soak);
    PreemptedRows(run, rows, alloc, soak);
    SoakQueue.NoStraysNoBytes(rows, SoakTrim.Members(end.preempted), run.now);
    TotalSplitsOffSoak(after, run.now);
    ReleaseHashesShrinks(after, absent, run.now);
    ManagedNamed(tick);
    var read := ReadAfter(run, rows, alloc, soak, absent);
    PlannerStaysSolvent(tick, read, reserved, HashSet(PlannerChoice.Managed(tick)));
    if NoneCountsTwice(tick, read) {
      LedgerStaysUnderFloor(tick, read, reserved, HashSet(PlannerChoice.Managed(tick)));
    }
  }

  /** The same with the soak queue switched off: whatever rows it left behind count like everybody's. */
  lemma TickAloneStaysSolvent(tick: PlannerChoice.Tick, rows: Table, absent: set<string>, reserved: map<Key, nat>)
    requires DistinctHashes(tick.snapshots) && tick.external == 0
    requires PlannerChoice.TickMode(tick) == PlannerChoice.Normal
    requires Total(rows, tick.now, false) + tick.cfg.diskFloor <= tick.freeBytes
    requires forall k :: At(reserved, k) == Need(ReleaseHashes(rows, absent), tick.now, false, k)
    ensures
      var read := ReleaseHashes(rows, absent);
      var selected := PlannerEffects.Selection(tick, reserved, Sum(reserved)).selected;
      && DistinctHashes(selected)
      && TickCommitment(reserved, selected, 0) + tick.cfg.diskFloor <= tick.freeBytes
      && var after := PlannerEffects.PlannerRows(read, HashSet(PlannerChoice.Managed(tick)), selected, tick.now);
         && Total(after, tick.now, false) + tick.cfg.diskFloor
              <= tick.freeBytes + Beside(read, tick.now, false, selected)
         && (NoneCountsTwice(tick, read) ==> Total(after, tick.now, false) + tick.cfg.diskFloor <= tick.freeBytes)
  {
    hide Total, SoakTotal, Need, ReleaseHashes, PlannerEffects.PlannerRows, PlannerEffects.Selection, Beside,
         NoneCountsTwice, TickCommitment, PlannerChoice.Managed;
    ReleaseHashesShrinks(rows, absent, tick.now);
    ManagedNamed(tick);
    var read := ReleaseHashes(rows, absent);
    PlannerStaysSolvent(tick, read, reserved, HashSet(PlannerChoice.Managed(tick)));
    if NoneCountsTwice(tick, read) {
      LedgerStaysUnderFloor(tick, read, reserved, HashSet(PlannerChoice.Managed(tick)));
    }
  }

  lemma PreemptedRows(run: SoakTrim.Run, rows: Table, alloc: SoakVictims.Allocations, soak: SoakTrim.SoakRows)
    ensures
      var end := SoakTrim.Trimmed(run, rows, alloc, soak);
      end.rows == ReleaseKind(rows, ActiveDownload, SoakTrim.Members(end.preempted))
  {
    hide SoakTrim.Trim, SoakTrim.Selected, Total;
    SoakTrim.TrimLedger(run, SoakTrim.TrimStart(run, rows, alloc, soak), SoakTrim.Selected(run));
  }

  /** The ledger the planner reads: after the soak queue's update, without the absent torrents. */
  ghost function ReadAfter(run: SoakTrim.Run, rows: Table, alloc: SoakVictims.Allocations, soak: SoakTrim.SoakRows,
                           absent: set<string>): Table
    requires SoakTrim.KeptFrom(SoakTrim.Trimmed(run, rows, alloc, soak), SoakTrim.Selected(run))
  {
    var end := SoakTrim.Trimmed(run, rows, alloc, soak);
    ReleaseHashes(SoakQueue.SoakLedger(end.rows, end.kept, end.exposures, run.now), absent)
  }

  /** What the planner relies on after a run of the soak queue. */
  lemma AfterSoak(run: SoakTrim.Run, rows: Table, alloc: SoakVictims.Allocations, soak: SoakTrim.SoakRows, rows1: Table,
                  alloc1: SoakVictims.Allocations, soak1: SoakTrim.SoakRows, soaked: SoakQueue.SoakResult)
    requires SoakQueue.RanAs(run, rows, alloc, soak, rows1, alloc1, soak1, soaked)
    ensures
      var end := SoakTrim.Trimmed(run, rows, alloc, soak);
      && SoakTrim.KeptFrom(end, SoakTrim.Selected(run))
      && rows1 == SoakQueue.SoakLedger(end.rows, end.kept, end.exposures, run.now)
      && soaked.reserved == end.used
      && BatchLifecycle.LeavesOursAlone(rows, rows1)
  {
    hide SoakTrim.Trim, SoakTrim.Selected, SoakQueue.SoakLedger, BatchLifecycle.LeavesOursAlone, SoakTrim.TrimStart,
         SoakQueue.Stale, SoakQueue.MarkSoak, SoakQueue.MarkAllocations, SoakTrim.CoolSoak, SoakTrim.CoolAllocations;
    var end := SoakTrim.Trimmed(run, rows, alloc, soak);
    PreemptedRows(run, rows, alloc, soak);
    SoakLeavesBatches(rows, SoakTrim.Members(end.preempted), end.kept, end.exposures, run.now);
  }

  class DaemonRuntime {
    const db: StateDb
    const soak: SoakQueue.SoakQueueService
    const planner: Planner.DownloadPlanner

    constructor (db: StateDb, soak: SoakQueue.SoakQueueService, planner: Planner.DownloadPlanner)
      ensures this.db == db && this.soak == soak && this.planner == planner
    {
      this.db := db;
      this.soak := soak;
      this.planner := planner;
    }

    /** The soak queue's run on the tick's inputs, and how it ends. */
    ghost function SoakRun(snapshots: seq<Torrent>, freeBytes: nat, now: int): SoakTrim.Run
      reads db
    {
      SoakQueue.RunOn(soak.cfg, snapshots, {}, db.soak, freeBytes, now)
    }

    ghost function SoakEnd(snapshots: seq<Torrent>, freeBytes: nat, now: int): SoakTrim.TrimState
      reads db
    {
      var run := SoakRun(snapshots, freeBytes, now);
      SoakTrim.Trimmed(run, db.reservations, db.allocations, SoakSamples.Sampled(db.soak, run.ema, now))
    }

    /**
     What the tick relies on: a healthy, normal-mode tick and, under the floor, everybody's bytes but the
     soak queue's own. While the soak queue is enabled, the two schedulers share the floor and whoever it
     preempts has honest credit; while it is not, the rows it left behind count as well.
     */
    ghost predicate SolventBefore(snapshots: seq<Torrent>, freeBytes: nat, syncHealthy: bool, now: int)
      reads db
    {
      && syncHealthy
      && PlannerChoice.ModeFor(planner.cfg, freeBytes) == PlannerChoice.Normal
      && Total(db.reservations, now, soak.cfg.enabled) + planner.cfg.diskFloor <= freeBytes
      && (soak.cfg.enabled ==>
            && soak.cfg.diskFloor == planner.cfg.diskFloor
            && forall h :: h in SoakTrim.Members(SoakEnd(snapshots, freeBytes, now).preempted) ==>
                 SoakVictims.CreditIsHonest(db.reservations, now, h))
    }

    /** The health table and the allocations are as this run of planner ticks leaves them. */
    ghost predicate Continues(turns: seq<PlannerRuns.Turn>)
      reads db
    {
      PlannerRuns.Continues(turns, planner.cfg.slowDemoteSec, db.allocations, db.health)
    }

    ghost function BatchWorld(progress: BatchLifecycle.Progress): BatchLifecycle.World
      reads db
    {
      BatchLifecycle.World(db.reservations, db.batches, db.jobs, progress)
    }

    /**
     The soak queue, then the planner. If the disk was solvent before, the tick's commitment is within
     the free space above the floor, hot residents and preempted downloads included. The ledger ends at
     the commitment, to the byte, with what was counted twice and without what was given back; if no
     candidate's bytes can be counted twice, it ends under the floor. The batches stay in step with the
     ledger, and disjoint if they were, and no torrent with a batch under way is stopped. The tick is the
     next turn of the run of planner ticks so far.
     */
    method PlannerTick(snapshots: seq<Torrent>, freeBytes: nat, syncHealthy: bool, now: int,
                       ghost progress: BatchLifecycle.Progress, ghost turns: seq<PlannerRuns.Turn>)
      returns (soaked: SoakQueue.SoakResult, planned: Planner.PlannerResult,
               ghost tick: PlannerChoice.Tick, ghost selected: seq<Torrent>, ghost reserved: map<Key, nat>,
               ghost read: Table)
      requires soak.db == db && planner.db == db
      requires DistinctHashes(snapshots)
      modifies db`reservations, db`allocations, db`soak, db`health
      ensures !syncHealthy ==>
        && planned.selected == [] && planned.paused == []
        && db.reservations == old(db.reservations) && db.allocations == old(db.allocations)
      ensures syncHealthy ==>
        && planned.selected == HashSeq(selected) && DistinctHashes(selected)
        && tick.snapshots == snapshots && tick.freeBytes == freeBytes && tick.now == now
             && tick.external == soaked.reserved
        && selected == PlannerEffects.Selection(tick, reserved, Sum(reserved)).selected
        && forall k :: At(reserved, k) == Need(read, now, soaked.reserved > 0, k)
      ensures syncHealthy ==>
        Total(db.reservations, now, false)
          + GivenBack(read, now, soaked.reserved > 0, HashSet(PlannerChoice.Managed(tick)), selected) + soaked.reserved
          == TickCommitment(reserved, selected, soaked.reserved) + Twice(read, now, soaked.reserved > 0, selected)
            + SoakLeftOut(read, tick)
      ensures old(NoStrays(db.reservations) && SolventBefore(snapshots, freeBytes, syncHealthy, now)) ==>
        && TickCommitment(reserved, selected, soaked.reserved) + planner.cfg.diskFloor <= freeBytes
        && Total(db.reservations, now, false) + planner.cfg.diskFloor
             <= freeBytes + Beside(read, now, soaked.reserved > 0, selected)
        && (NoneCountsTwice(tick, read) ==> Total(db.reservations, now, false) + planner.cfg.diskFloor <= freeBytes)
      ensures old(Continues(turns)) && (turns != [] ==> turns[|turns| - 1].tick.now <= now) ==>
        Continues(if syncHealthy then turns + [PlannerRuns.Turn(tick, selected)] else turns)
      ensures old(NoStrays(db.reservations)) ==> NoStrays(db.reservations)
      ensures BatchesKeepRunning(old(db.reservations), db.batches, now, planned.paused)
      ensures old(BatchLifecycle.LedgerInv(BatchWorld(progress))) ==> BatchLifecycle.LedgerInv(BatchWorld(progress))
      ensures old(BatchLifecycle.Inv(BatchWorld(progress))) ==> BatchLifecycle.Inv(BatchWorld(progress))
    {
      hide Total, SoakTotal, Need, SoakTrim.Trim, SoakTrim.TrimStart, SoakTrim.Selected, SoakQueue.SoakLedger,
           PlannerEffects.Selection,
           PlannerChoice.Managed, BatchLifecycle.Inv, BatchLifecycle.LedgerInv, BatchLifecycle.LeavesOursAlone,
           SoakVictims.CreditIsHonest,
           NoStrays, DistinctHashes, PlannerEffects.PlannerRows, BatchLifecycle.ProtectedHashes, ReleaseHashes, HashSet,
           HashSeq, Beside,
           TickCommitment, GivenBack, Twice, SoakLeftOut, NoneCountsTwice,
           PlannerEffects.Overlay, PlannerEffects.HealthAfter, Planner.SoakAfter, Planner.Noted, Planner.Decided,
           PlannerEffects.Written,
           SoakQueue.MarkSoak, SoakQueue.MarkAllocations, SoakTrim.CoolSoak, SoakTrim.CoolAllocations, SoakQueue.Stale,
           SoakSamples.Sampled,
           Tables.NobodyActivated, PlannerRuns.Continues, PlannerRuns.IsTurn, PlannerRuns.StoredAlloc,
           PlannerRuns.StoredHealth, SoakQueue.AllExposed, PlannerSelection.Served, PlannerSelection.FullUp,
           HasBatch, BatchesKeepRunning, SoakQueue.RanAs, SoakQueue.Reports, SoakTrim.KeptFrom,
           PlannerReport.Forgets, PlannerReport.StoresAll, PlannerReport.Reports, PlannerReport.SlowOnes;
      ghost var rows0, alloc0 := db.reservations, db.allocations;
      ghost var run := SoakRun(snapshots, freeBytes, now);
      ghost var soak0 := SoakSamples.Sampled(db.soak, run.ema, now);
      ghost var end := SoakEnd(snapshots, freeBytes, now);
      soaked := soak.RunOnce(snapshots, freeBytes, syncHealthy, {}, now);
      ghost var rows1, alloc1, soak1 := db.reservations, db.allocations, db.soak;
      var batchProtected := BatchLifecycle.ProtectedHashes(db.batches, db.reservations, now);
      planned, tick, selected, reserved, read := planner.PlanAndApply(
        snapshots, freeBytes, syncHealthy, SoakQueue.Protected(soaked) + batchProtected, soaked.hot, soaked.cooldown,
        soaked.reserved, now);
      if syncHealthy {
        if old(Continues(turns)) && (turns != [] ==> turns[|turns| - 1].tick.now <= now) {
          PlannerRuns.TickContinues(turns, planner.cfg.slowDemoteSec, alloc0, alloc1, old(db.health),
                                    PlannerRuns.Turn(tick, selected));
        }
        ghost var absent := Planner.Absent(alloc1, HashSet(snapshots));
        if soak.cfg.enabled {
          AfterSoak(run, rows0, alloc0, soak0, rows1, alloc1, soak1, soaked);
        } else {
          LeavingAlone(rows0);
        }
        PlannerLeavesBatches(read, HashSet(PlannerChoice.Managed(tick)), selected, now);
        ManagedNamed(tick);
        ProtectedKeepRunning(rows0, rows1, db.batches, now, tick, selected, planned);
        TickBalances(tick, read, reserved, HashSet(PlannerChoice.Managed(tick)), selected);
        if old(NoStrays(db.reservations) && SolventBefore(snapshots, freeBytes, syncHealthy, now)) {
          if soak.cfg.enabled {
            TickStaysSolvent(run, rows0, alloc0, soak0, tick, absent, reserved);
          } else {
            TickAloneStaysSolvent(tick, rows0, absent, reserved);
          }
        }
        TickKeepsBatches(BatchLifecycle.World(rows0, db.batches, db.jobs, progress), rows1, absent, db.reservations);
      } else {
        NobodyStopped(rows0, db.batches, now);
      }
    }
  }
}
