/**
 The life of a pipeline batch: the rows of torrent_batches, their reservations in the shared ledger,
 and their upload jobs, as one state machine over every step the daemon takes.
 */
module BatchLifecycle {
  import opened Options
  import opened Ledger
  import opened LedgerUpdates

  datatype BatchState =
    | Reserved | AppliedToQbt | Downloading | Downloaded
    | UploadQueued | Uploading | VerifyPending | RetryWait | VerifiedLocalPinned
    | CleanupDeferred | CleanupRequested | Done
    | Failed | PausedByPlanner

  datatype BatchRow = BatchRow(hash: string, state: BatchState, indices: seq<nat>, pinned: nat)

  datatype JobState = JobQueued | JobVerifyPending | JobRetryWait | JobFinished

  datatype UploadJob = UploadJob(batchId: nat, size: nat, state: JobState, attempts: nat, nextRunAt: Option<int>)

  /** What the upload worker reports for a batch's job, or that it raised. */
  datatype UploadResult = Verified | Mismatch | CopyFailed | Raised

  type FileId = (string, nat)
  type Progress = map<FileId, real>

  /** The tables, and the last file progress qBittorrent reported. */
  datatype World = World(rows: Table, batches: seq<BatchRow>, jobs: seq<UploadJob>, progress: Progress)

  predicate Complete(p: Progress, h: string, i: nat) {
    (h, i) in p && p[(h, i)] >= 1.0
  }

  predicate Pipeline(s: BatchState) {
    s.Reserved? || s.AppliedToQbt? || s.Downloading?
  }

  /** The states the batch service counts as in flight; waiting for a retry is not among them. */
  predicate InFlight(s: BatchState) {
    || Pipeline(s) || s.Downloaded? || s.UploadQueued? || s.Uploading? || s.VerifyPending?
    || s.VerifiedLocalPinned? || s.CleanupDeferred?
  }

  /** Everything but a batch that failed to start or was given back. */
  predicate IsLive(s: BatchState) {
    !s.Failed? && !s.PausedByPlanner?
  }

  /** The states a batch can only be in once its upload was queued. */
  predicate AfterUpload(s: BatchState) {
    s.UploadQueued? || s.VerifyPending? || s.RetryWait? || s.CleanupDeferred? || s.CleanupRequested?
  }

  function InFlightIndices(batches: seq<BatchRow>, h: string): set<nat> {
    set b, i | 0 <= b < |batches| && batches[b].hash == h && InFlight(batches[b].state) && i in batches[b].indices :: i
  }

  /** Torrents with a live batch reservation, which the planner must leave running. */
  function ProtectedHashes(batches: seq<BatchRow>, rows: Table, now: int): set<string> {
    set i | 0 <= i < |rows|
      && rows[i].kind.Batch? && Live(rows[i], now) && rows[i].batchId.Some? && rows[i].batchId.value < |batches|
      && Pipeline(batches[rows[i].batchId.value].state) && batches[rows[i].batchId.value].hash != ""
      :: batches[rows[i].batchId.value].hash
  }

  // ---------------------------------------------------------------------------------------------
  // Updates of the ledger
  // ---------------------------------------------------------------------------------------------

  predicate OfBatch(r: Row, ids: set<nat>) {
    r.batchId.Some? && r.batchId.value in ids
  }

  function ReleaseBatches(rows: Table, ids: set<nat>): Table {
    seq(|rows|, i requires 0 <= i < |rows| =>
      if rows[i].kind.Batch? && rows[i].state.Active? && OfBatch(rows[i], ids) then Release(rows[i]) else rows[i])
  }

  function ReleaseAllOf(rows: Table, id: nat): Table {
    seq(|rows|, i requires 0 <= i < |rows| =>
      if rows[i].state.Active? && OfBatch(rows[i], {id}) then Release(rows[i]) else rows[i])
  }

  predicate IsCleanup(r: Row, id: nat) {
    r.kind.CleanupPending? && r.batchId == Some(id)
  }

  function FirstCleanup(rows: Table, id: nat): Option<nat> {
    if rows == [] then None
    else
      var n := |rows| - 1;
      var before := FirstCleanup(rows[..n], id);
      if before.Some? then before
      else if IsCleanup(rows[n], id) then Some(n)
      else None
  }

  lemma {:induction false} FirstCleanupIs(rows: Table, id: nat)
    ensures
      var first := FirstCleanup(rows, id);
      && (first.Some? ==> first.value < |rows| && IsCleanup(rows[first.value], id))
      && (first.None? ==> forall i :: 0 <= i < |rows| ==> !IsCleanup(rows[i], id))
  {
    if rows != [] {
      FirstCleanupIs(rows[..|rows| - 1], id);
    }
  }

  /** Pin the uploaded bytes: rewrite the batch's first cleanup row, or insert one. */
  function PinCleanup(rows: Table, id: nat, h: string, bytes: nat): Table {
    FirstCleanupIs(rows, id);
    var first := FirstCleanup(rows, id);
    if first.Some? then
      rows[first.value := rows[first.value].(hash := Some(h), bytes := bytes, state := RowState.Active)]
    else rows + [Row(Some(h), Some(id), CleanupPending, bytes, RowState.Active, None)]
  }

  function Reactivate(rows: Table, ids: set<nat>): Table {
    seq(|rows|, i requires 0 <= i < |rows| =>
      if rows[i].kind.CleanupPending? && OfBatch(rows[i], ids) then rows[i].(state := RowState.Active) else rows[i])
  }

  /** The maintenance loop: active rows whose time has come are marked expired. */
  function Expire(rows: Table, now: int): Table {
    seq(|rows|, i requires 0 <= i < |rows| =>
      if rows[i].state.Active? && rows[i].expiresAt.Some? && rows[i].expiresAt.value <= now
      then rows[i].(state := RowState.Expired) else rows[i])
  }

  // ---------------------------------------------------------------------------------------------
  // Steps
  // ---------------------------------------------------------------------------------------------

  datatype Event =
    | Create(hash: string, indices: seq<nat>, reserved: nat, expires: int)
    | Applied(id: nat)
    | ApplyFailed(id: nat)
    | Pause(ids: set<nat>)
    | QueueUpload(id: nat, size: nat)
    | Upload(job: nat, result: UploadResult, now: int, retryAt: int)
    | RequestCleanup(ids: set<nat>)
    | ExpireRows(now: int)
    | AbsentReconcile(hashes: set<string>)
    | Listing(progress: Progress)
    | OtherSchedulers(rows: Table)

  predicate MonotoneProgress(p: Progress, q: Progress) {
    forall f :: f in p ==> f in q && q[f] >= p[f]
  }

  predicate Ours(k: Kind) {
    k.Batch? || k.CleanupPending?
  }

  /**
   What the planner and the soak queue may do to the ledger: anything but touch batch rows, or insert a
   soak row that names no torrent.
   */
  predicate LeavesOursAlone(rows: Table, rows': Table) {
    && |rows| <= |rows'|
    && (NoStrays(rows) ==> NoStrays(rows'))
    && (forall i :: 0 <= i < |rows| ==> if Ours(rows[i].kind) then rows'[i] == rows[i] else !Ours(rows'[i].kind))
    && (forall i :: |rows| <= i < |rows'| ==> !Ours(rows'[i].kind))
  }

  predicate HasJob(jobs: seq<UploadJob>, id: nat) {
    exists j :: 0 <= j < |jobs| && jobs[j].batchId == id
  }

  predicate Claimable(j: UploadJob, now: int) {
    !j.state.JobFinished? && (j.state.JobRetryWait? && j.nextRunAt.Some? ==> j.nextRunAt.value <= now)
  }

  /** When the daemon takes a step: the checks its code makes before it. */
  predicate Enabled(w: World, e: Event) {
    match e
    case Create(h, indices, _, _) =>
      && indices != []
      && (forall i :: i in indices ==> i !in InFlightIndices(w.batches, h) && !Complete(w.progress, h, i))
    case Applied(id) => id < |w.batches| && w.batches[id].state.Reserved?
    case ApplyFailed(id) => id < |w.batches| && w.batches[id].state.Reserved?
    case Pause(ids) => forall id :: id in ids ==> id < |w.batches| && Pipeline(w.batches[id].state)
    case QueueUpload(id, size) =>
      && id < |w.batches| && size > 0
      && (w.batches[id].state.Downloading? || w.batches[id].state.AppliedToQbt? || w.batches[id].state.Downloaded?)
      && !HasJob(w.jobs, id)
      && forall i :: i in w.batches[id].indices ==> Complete(w.progress, w.batches[id].hash, i)
    case Upload(job, _, now, _) => job < |w.jobs| && Claimable(w.jobs[job], now) && w.jobs[job].batchId < |w.batches|
    case RequestCleanup(ids) => forall id :: id in ids ==> id < |w.batches| && w.batches[id].state.CleanupDeferred?
    case ExpireRows(_) => true
    case AbsentReconcile(_) => true
    case Listing(_) => true
    case OtherSchedulers(rows) => LeavesOursAlone(w.rows, rows)
  }

  function SetStates(batches: seq<BatchRow>, ids: set<nat>, s: BatchState): seq<BatchRow> {
    seq(|batches|, b requires 0 <= b < |batches| => if b in ids then batches[b].(state := s) else batches[b])
  }

  function AfterResult(r: UploadResult): (BatchState, JobState) {
    match r
    case Verified => (CleanupDeferred, JobFinished)
    case Mismatch => (VerifyPending, JobVerifyPending)
    case CopyFailed => (RetryWait, JobRetryWait)
    case Raised => (RetryWait, JobRetryWait)  // the batch part is not used
  }

  function AfterAttempt(j: UploadJob, result: UploadResult, retryAt: int): UploadJob {
    var state := AfterResult(result).1;
    j.(state := state, attempts := j.attempts + 1,
       nextRunAt := if state.JobRetryWait? then Some(retryAt) else j.nextRunAt)
  }

  function Apply(w: World, e: Event): World
    requires Enabled(w, e)
  {
    match e
    case Create(h, indices, reserved, expires) =>
      w.(batches := w.batches + [BatchRow(h, Reserved, indices, 0)],
         rows := w.rows + [Row(Some(h), Some(|w.batches|), Batch, reserved, RowState.Active, Some(expires))])
    case Applied(id) => w.(batches := w.batches[id := w.batches[id].(state := Downloading)])
    case ApplyFailed(id) =>
      w.(batches := w.batches[id := w.batches[id].(state := Failed)], rows := ReleaseAllOf(w.rows, id))
    case Pause(ids) =>
      w.(batches := SetStates(w.batches, ids, PausedByPlanner), rows := ReleaseBatches(w.rows, ids))
    case QueueUpload(id, size) =>
      w.(jobs := w.jobs + [UploadJob(id, size, JobQueued, 0, None)],
         batches := w.batches[id := w.batches[id].(state := UploadQueued, pinned := size)],
         rows := PinCleanup(ReleaseBatches(w.rows, {id}), id, w.batches[id].hash, size))
    case Upload(job, result, _, retryAt) =>
      var j := w.jobs[job];
      var b := w.batches[j.batchId];
      var jobs := w.jobs[job := AfterAttempt(j, result, retryAt)];
      if result.Raised? then w.(jobs := jobs)
      else
        w.(jobs := jobs,
           batches := w.batches[j.batchId := b.(state := AfterResult(result).0,
                                                pinned := if j.size > 0 then j.size else b.pinned)],
           rows := if result.Verified? then PinCleanup(w.rows, j.batchId, b.hash, j.size) else w.rows)
    case RequestCleanup(ids) =>
      w.(batches := SetStates(w.batches, ids, CleanupRequested), rows := Reactivate(w.rows, ids))
    case ExpireRows(now) => w.(rows := Expire(w.rows, now))
    case AbsentReconcile(hs) => w.(rows := ReleaseHashes(w.rows, hs))
    case Listing(p) => w.(progress := p)
    case OtherSchedulers(rows) => w.(rows := rows)
  }

  // ---------------------------------------------------------------------------------------------
  // The invariant
  // ---------------------------------------------------------------------------------------------

  /** Batch and cleanup rows name a batch, and an active batch row one that is still downloading. */
  predicate RowsInStep(w: World) {
    forall i :: 0 <= i < |w.rows| && Ours(w.rows[i].kind) ==>
      && w.rows[i].batchId.Some? && w.rows[i].batchId.value < |w.batches|
      && (w.rows[i].kind.Batch? && w.rows[i].state.Active? ==>
            var s := w.batches[w.rows[i].batchId.value].state; s.Reserved? || s.Downloading?)
  }

  ghost predicate OneCleanup(rows: Table, id: nat, bytes: nat) {
    exists i :: 0 <= i < |rows| && IsCleanup(rows[i], id) && rows[i].bytes == bytes
      && forall j :: 0 <= j < |rows| && IsCleanup(rows[j], id) ==> j == i
  }

  predicate NoCleanup(rows: Table, id: nat) {
    forall i :: 0 <= i < |rows| ==> !IsCleanup(rows[i], id)
  }

  /** A batch has exactly one cleanup row, of its pinned bytes, once its upload was queued, and none before. */
  ghost predicate Pinned(w: World) {
    forall b :: 0 <= b < |w.batches| ==>
      if AfterUpload(w.batches[b].state) then OneCleanup(w.rows, b, w.batches[b].pinned) else NoCleanup(w.rows, b)
  }

  predicate JobsInStep(w: World) {
    && (forall j :: 0 <= j < |w.jobs| ==>
          && w.jobs[j].batchId < |w.batches|
          && AfterUpload(w.batches[w.jobs[j].batchId].state)
          && w.jobs[j].size == w.batches[w.jobs[j].batchId].pinned > 0)
    && (forall j, k :: 0 <= j < k < |w.jobs| ==> w.jobs[j].batchId != w.jobs[k].batchId)
  }

  /** Every batch is in one of the states something sets. */
  predicate StatesInStep(batches: seq<BatchRow>) {
    forall b :: 0 <= b < |batches| ==>
      var s := batches[b].state;
      AfterUpload(s) || s.Reserved? || s.Downloading? || !IsLive(s)
  }

  /** The files of a batch are done once its upload was queued. */
  predicate FilesDone(w: World) {
    forall b :: 0 <= b < |w.batches| && AfterUpload(w.batches[b].state) ==>
      forall i :: i in w.batches[b].indices ==> Complete(w.progress, w.batches[b].hash, i)
  }

  predicate Overlap(a: BatchRow, b: BatchRow) {
    a.hash == b.hash && exists i :: i in a.indices && i in b.indices
  }

  /** Live batches of one torrent never share a file. */
  predicate Disjoint(batches: seq<BatchRow>) {
    forall a, b :: 0 <= a < b < |batches| && IsLive(batches[a].state) && IsLive(batches[b].state) ==>
      !Overlap(batches[a], batches[b])
  }

  /** What holds of the ledger, the batches and the jobs whatever qBittorrent reports. */
  ghost predicate LedgerInv(w: World) {
    NoStrays(w.rows) && RowsInStep(w) && Pinned(w) && JobsInStep(w) && StatesInStep(w.batches)
  }

  /** What holds besides while no file is reported further back than before. */
  ghost predicate Inv(w: World) {
    LedgerInv(w) && FilesDone(w) && Disjoint(w.batches)
  }
}
