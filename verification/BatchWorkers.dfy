/**
 The workers that move a batch on after its download: the upload job runner, the cleanup request
 runner and the maintenance pass. Each is one step of the batch state machine.
 */
module BatchWorkers {
  import opened Options
  import opened Ledger
  import opened BatchLifecycle
  import opened StateDbTables
  import BatchInvariant
  import Upload
  import Sidecars = SidecarUploads

  /** The batch state machine's view of the database. */
  ghost function State(db: StateDb, progress: Progress): World
    reads db
  {
    World(db.reservations, db.batches, db.jobs, progress)
  }

  class UploadJobRunner {
    const db: StateDb
    const worker: Upload.RcloneUploadWorker
    const schedule: seq<nat>

    constructor (db: StateDb, worker: Upload.RcloneUploadWorker, schedule: seq<nat>)
      ensures this.db == db && this.worker == worker && this.schedule == schedule
    {
      this.db, this.worker, this.schedule := db, worker, schedule;
    }

    /** Batch uploads all have one priority, so the oldest that is due is next. */
    method NextDue(now: int) returns (next: Option<nat>)
      ensures next.None? ==> forall j :: 0 <= j < |db.jobs| ==> !Claimable(db.jobs[j], now)
      ensures next.Some? ==>
        && next.value < |db.jobs| && Claimable(db.jobs[next.value], now)
        && forall j :: 0 <= j < next.value ==> !Claimable(db.jobs[j], now)
    {
      for j := 0 to |db.jobs|
        invariant forall k :: 0 <= k < j ==> !Claimable(db.jobs[k], now)
      {
        if Claimable(db.jobs[j], now) {
          return Some(j);
        }
      }
      next := None;
    }

    /**
     Run a claimed batch upload, `rclone` being none when the worker raises. The batch moves on to
     deferred cleanup only if everything was copied and verified, and nothing local is deleted; what
     has to be retried is due again after the delay its number of attempts calls for.
     */
    method RunBatchUpload(id: nat, job: Upload.Job, rclone: Option<Upload.Rclone>, now: int, ghost progress: Progress)
      returns (ghost e: Event)
      requires id < |db.jobs| && Claimable(db.jobs[id], now) && db.jobs[id].batchId < |db.batches|
      requires !job.fullTorrent && job.size == db.jobs[id].size
      modifies db`reservations, db`batches, db`jobs, worker
      ensures e.Upload? && e.job == id && e.now == now
        && e.retryAt == now + Sidecars.Delay(schedule, old(db.jobs[id].attempts) + 1)
      ensures
        var k := old(db.jobs[id].attempts);
        e.retryAt == now
          + if schedule == [] then 60 else if k < |schedule| then schedule[k] else schedule[|schedule| - 1]
      ensures Enabled(old(State(db, progress)), e)
      ensures State(db, progress) == Apply(old(State(db, progress)), e)
      ensures e.result.Raised? <==> rclone.None?
      ensures e.result.Verified? <==>
        rclone.Some? && Upload.CopySucceeds(job, rclone.value) && Upload.Verifies(job, rclone.value)
      ensures worker.deleted == old(worker.deleted)
      ensures LedgerInv(old(State(db, progress))) ==> LedgerInv(State(db, progress))
      ensures Inv(old(State(db, progress))) ==> Inv(State(db, progress))
    {
      hide Upload.CopySucceeds, Upload.Verifies, PinCleanup, LedgerInv, Inv;
      ghost var start := State(db, progress);
      var row := db.jobs[id].(attempts := db.jobs[id].attempts + 1);
      var retryAt := now + Sidecars.Delay(schedule, row.attempts);
      ghost var result := BatchLifecycle.Raised;
      if rclone.None? {
        db.jobs := db.jobs[id := row.(state := JobRetryWait, nextRunAt := Some(retryAt))];
      } else {
        var r := worker.RunOnce(job, rclone.value);
        result := Upload.ForBatch(r.state);
        var batch := db.batches[row.batchId];
        var pinned := if job.size > 0 then job.size else batch.pinned;
        if r.state.VerifyPending? {
          db.jobs := db.jobs[id := row.(state := JobVerifyPending)];
          db.batches := db.batches[row.batchId := batch.(state := BatchState.VerifyPending, pinned := pinned)];
        } else if r.state.RetryWait? {
          db.jobs := db.jobs[id := row.(state := JobRetryWait, nextRunAt := Some(retryAt))];
          db.batches := db.batches[row.batchId := batch.(state := BatchState.RetryWait, pinned := pinned)];
        } else {
          db.jobs := db.jobs[id := row.(state := JobFinished)];
          db.batches := db.batches[row.batchId := batch.(state := BatchState.CleanupDeferred, pinned := pinned)];
          db.reservations := PinCleanup(db.reservations, row.batchId, batch.hash, job.size);
        }
      }
      e := Event.Upload(id, result, now, retryAt);
      StepKeeps(start, e);
    }
  }

  /** A worker's step keeps whichever invariant held; none of them is a file listing. */
  lemma StepKeeps(w: World, e: Event)
    requires Enabled(w, e) && !e.Listing?
    ensures LedgerInv(w) ==> LedgerInv(Apply(w, e))
    ensures Inv(w) ==> Inv(Apply(w, e))
  {
    hide LedgerInv, Inv, Enabled, Apply;
    if LedgerInv(w) {
      BatchInvariant.LedgerStep(w, e);
    }
    if Inv(w) {
      BatchInvariant.InvStep(w, e);
    }
  }

  class CleanupRequestRunner {
    const db: StateDb

    constructor (db: StateDb)
      ensures this.db == db
    {
      this.db := db;
    }

    /** Batches named by the request, or else the target torrent's, that are waiting for cleanup. */
    predicate Matches(ids: seq<nat>, target: string, b: nat)
      reads db
    {
      && b < |db.batches| && db.batches[b].state.CleanupDeferred?
      && if ids != [] then b in ids else target != "" && db.batches[b].hash == target
    }

    /**
     Approve the cleanup of the matching batches. It is a note and no more: their bytes stay pinned,
     one cleanup row each, exactly as the ledger had them.
     */
    method RunNext(ids: seq<nat>, target: string, ghost progress: Progress) returns (matched: set<nat>)
      modifies db`reservations, db`batches
      ensures forall b: nat :: b in matched <==> old(Matches(ids, target, b))
      ensures Enabled(old(State(db, progress)), Event.RequestCleanup(matched))
      ensures State(db, progress) == Apply(old(State(db, progress)), Event.RequestCleanup(matched))
      ensures LedgerInv(old(State(db, progress))) ==> LedgerInv(State(db, progress))
      ensures Inv(old(State(db, progress))) ==> Inv(State(db, progress))
    {
      hide LedgerInv, Inv;
      ghost var start := State(db, progress);
      matched := set b | 0 <= b < |db.batches| && Matches(ids, target, b);
      assert Enabled(start, Event.RequestCleanup(matched));
      if matched == {} {
        assert SetStates(db.batches, {}, CleanupRequested) == db.batches;
        assert Reactivate(db.reservations, {}) == db.reservations;
        return;
      }
      db.batches := SetStates(db.batches, matched, CleanupRequested);
      db.reservations := Reactivate(db.reservations, matched);
      StepKeeps(start, Event.RequestCleanup(matched));
    }
  }

  class MaintenanceService {
    const db: StateDb

    constructor (db: StateDb)
      ensures this.db == db
    {
      this.db := db;
    }

    /** Mark the active rows whose time has come; readers had stopped counting them already. */
    method ExpireReservations(now: int, ghost progress: Progress)
      modifies db`reservations
      ensures State(db, progress) == Apply(old(State(db, progress)), Event.ExpireRows(now))
      ensures forall ignoreSoak ::
        Total(db.reservations, now, ignoreSoak) == Total(old(db.reservations), now, ignoreSoak)
      ensures LedgerInv(old(State(db, progress))) ==> LedgerInv(State(db, progress))
      ensures Inv(old(State(db, progress))) ==> Inv(State(db, progress))
    {
      hide LedgerInv, Inv, Total;
      ghost var start := State(db, progress);
      var n := |db.reservations|;
      for i := 0 to n
        invariant |db.reservations| == n
        invariant forall j :: 0 <= j < i ==> db.reservations[j] == Expire(start.rows, now)[j]
        invariant forall j :: i <= j < n ==> db.reservations[j] == start.rows[j]
      {
        var r := db.reservations[i];
        if r.state.Active? && r.expiresAt.Some? && r.expiresAt.value <= now {
          db.reservations := db.reservations[i := r.(state := RowState.Expired)];
        }
      }
      assert db.reservations == Expire(start.rows, now);
      forall ignoreSoak ensures Total(Expire(start.rows, now), now, ignoreSoak) == Total(start.rows, now, ignoreSoak) {
        ExpiryChangesNoTotal(start.rows, now, ignoreSoak);
      }
      StepKeeps(start, Event.ExpireRows(now));
    }
  }

  /** Expiry only writes down what every reader already saw. */
  lemma ExpiryChangesNoTotal(rows: Table, now: int, ignoreSoak: bool)
    ensures Total(Expire(rows, now), now, ignoreSoak) == Total(rows, now, ignoreSoak)
  {
    var rows' := Expire(rows, now);
    assert LiveKeys(rows', now) == LiveKeys(rows, now) by {
      forall i | 0 <= i < |rows|
        ensures Live(rows'[i], now) == Live(rows[i], now) && KeyOf(rows'[i], i) == KeyOf(rows[i], i) {
      }
    }
    forall k ensures Need(rows', now, ignoreSoak, k) == Need(rows, now, ignoreSoak, k) {
      forall c ensures Col(rows', now, k, c) == Col(rows, now, k, c) {
        ColSame(rows, rows', now, k, c);
      }
    }
    assert Needs(rows', now, ignoreSoak) == Needs(rows, now, ignoreSoak);
  }
}
