/** Every step of a batch's life keeps the ledger in step with the batches, on every run. */
module BatchInvariant {
  import opened Options
  import opened Ledger
  import opened Sums
  import opened BatchLifecycle

  // ---------------------------------------------------------------------------------------------
  // Cleanup rows
  // ---------------------------------------------------------------------------------------------

  predicate SameCleanup(rows: Table, rows': Table, id: nat) {
    && |rows| <= |rows'|
    && (forall i :: 0 <= i < |rows| ==> (IsCleanup(rows[i], id) <==> IsCleanup(rows'[i], id)))
    && (forall i :: 0 <= i < |rows| && IsCleanup(rows[i], id) ==> rows'[i].bytes == rows[i].bytes)
    && (forall i :: |rows| <= i < |rows'| ==> !IsCleanup(rows'[i], id))
  }

  lemma SameCleanupKeeps(rows: Table, rows': Table, id: nat, bytes: nat)
    requires SameCleanup(rows, rows', id)
    ensures OneCleanup(rows, id, bytes) ==> OneCleanup(rows', id, bytes)
    ensures NoCleanup(rows, id) ==> NoCleanup(rows', id)
  {
  }

  /** Pinning leaves one cleanup row of the pinned bytes, if there was at most one before. */
  lemma PinGivesOne(rows: Table, id: nat, h: string, bytes: nat, before: nat)
    requires OneCleanup(rows, id, before) || NoCleanup(rows, id)
    ensures OneCleanup(PinCleanup(rows, id, h, bytes), id, bytes)
  {
    FirstCleanupIs(rows, id);
    var rows' := PinCleanup(rows, id, h, bytes);
    var p := if FirstCleanup(rows, id).Some? then FirstCleanup(rows, id).value else |rows|;
    assert IsCleanup(rows'[p], id) && rows'[p].bytes == bytes;
    forall j | 0 <= j < |rows'| && IsCleanup(rows'[j], id) ensures j == p {
      if j < |rows| {
        assert IsCleanup(rows[j], id);
      }
    }
  }

  lemma PinElsewhere(rows: Table, id: nat, h: string, bytes: nat, other: nat)
    requires other != id
    ensures SameCleanup(rows, PinCleanup(rows, id, h, bytes), other)
  {
    FirstCleanupIs(rows, id);
  }

  // ---------------------------------------------------------------------------------------------
  // One step
  // ---------------------------------------------------------------------------------------------

  lemma RowsStep(w: World, e: Event)
    requires LedgerInv(w) && Enabled(w, e)
    ensures RowsInStep(Apply(w, e))
  {
    hide NoStrays, Pinned, Complete, PinCleanup, StatesInStep;
    var w' := Apply(w, e);
    match e {
      case QueueUpload(id, size) =>
        PinRows(w, ReleaseBatches(w.rows, {id}), id, w.batches[id].hash, size);
      case Upload(job, result, _, _) =>
        PinRows(w, w.rows, w.jobs[job].batchId, w.batches[w.jobs[job].batchId].hash, w.jobs[job].size);
      case _ =>
    }
  }

  lemma PinRows(w: World, rows: Table, id: nat, h: string, bytes: nat)
    ensures
      var rows' := PinCleanup(rows, id, h, bytes);
      && |rows| <= |rows'| <= |rows| + 1
      && (forall i :: 0 <= i < |rows| ==>
            && rows'[i].kind == rows[i].kind && rows'[i].batchId == rows[i].batchId
            && (rows[i].kind.Batch? ==> rows'[i] == rows[i]))
      && (|rows'| > |rows| ==> rows'[|rows|].kind.CleanupPending? && rows'[|rows|].batchId == Some(id))
  {
    FirstCleanupIs(rows, id);
  }

  ghost predicate PinnedAt(w: World, b: nat)
    requires b < |w.batches|
  {
    AtMostPinned(w.rows, b, AfterUpload(w.batches[b].state), w.batches[b].pinned)
  }

  ghost predicate AtMostPinned(rows: Table, b: nat, after: bool, bytes: nat) {
    if after then OneCleanup(rows, b, bytes) else NoCleanup(rows, b)
  }

  lemma PinnedIsAtAll(w: World)
    ensures Pinned(w) <==> forall b: nat :: b < |w.batches| ==> PinnedAt(w, b)
  {
    hide OneCleanup, NoCleanup;
    forall b: nat | b < |w.batches|
      ensures PinnedAt(w, b) <==>
        if AfterUpload(w.batches[b].state) then OneCleanup(w.rows, b, w.batches[b].pinned) else NoCleanup(w.rows, b)
    {
    }
  }

  lemma QueuePins(w: World, id: nat, size: nat, b: nat)
    requires LedgerInv(w) && Enabled(w, QueueUpload(id, size)) && b < |w.batches|
    ensures PinnedAt(Apply(w, QueueUpload(id, size)), b)
  {
    hide NoStrays, Complete, OneCleanup, StatesInStep, RowsInStep, PinCleanup, FirstCleanup;
    PinnedIsAtAll(w);
    assert PinnedAt(w, b);
    var released := ReleaseBatches(w.rows, {id});
    SameCleanupKeeps(w.rows, released, b, w.batches[b].pinned);
    if b == id {
      PinGivesOne(released, id, w.batches[id].hash, size, w.batches[b].pinned);
    } else {
      PinElsewhere(released, id, w.batches[id].hash, size, b);
      SameCleanupKeeps(released, Apply(w, QueueUpload(id, size)).rows, b, w.batches[b].pinned);
    }
  }

  lemma UploadPins(w: World, e: Event, b: nat)
    requires LedgerInv(w) && Enabled(w, e) && e.Upload? && b < |w.batches|
    ensures PinnedAt(Apply(w, e), b)
  {
    hide NoStrays, Complete, OneCleanup, StatesInStep, RowsInStep, PinCleanup, FirstCleanup;
    PinnedIsAtAll(w);
    assert PinnedAt(w, b);
    var j := w.jobs[e.job];
    if b == j.batchId {
      PinGivesOne(w.rows, b, w.batches[b].hash, j.size, w.batches[b].pinned);
    } else {
      PinElsewhere(w.rows, j.batchId, w.batches[j.batchId].hash, j.size, b);
      SameCleanupKeeps(w.rows, PinCleanup(w.rows, j.batchId, w.batches[j.batchId].hash, j.size), b,
                       w.batches[b].pinned);
    }
  }

  lemma PinnedStep(w: World, e: Event, b: nat)
    requires LedgerInv(w) && Enabled(w, e) && b < |Apply(w, e).batches|
    ensures PinnedAt(Apply(w, e), b)
  {
    hide NoStrays, Complete, OneCleanup, StatesInStep, PinCleanup, FirstCleanup;
    if e.QueueUpload? {
      QueuePins(w, e.id, e.size, b);
    } else if e.Upload? {
      UploadPins(w, e, b);
    } else if b == |w.batches| {
      assert NoCleanup(Apply(w, e).rows, b);
    } else {
      PinnedIsAtAll(w);
      assert PinnedAt(w, b);
      assert SameCleanup(w.rows, Apply(w, e).rows, b);
      SameCleanupKeeps(w.rows, Apply(w, e).rows, b, w.batches[b].pinned);
    }
  }

  lemma JobsStep(w: World, e: Event)
    requires LedgerInv(w) && Enabled(w, e)
    ensures JobsInStep(Apply(w, e))
  {
    hide NoStrays, Complete, OneCleanup, RowsInStep, Pinned, StatesInStep, PinCleanup;
  }

  lemma StatesStep(w: World, e: Event)
    requires LedgerInv(w) && Enabled(w, e)
    ensures StatesInStep(Apply(w, e).batches)
  {
    hide NoStrays, OneCleanup, RowsInStep, Pinned, PinCleanup;
  }

  /** No step inserts a soak row without a torrent, or takes the torrent out of one. */
  lemma NoStraysStep(w: World, e: Event)
    requires NoStrays(w.rows) && Enabled(w, e)
    ensures NoStrays(Apply(w, e).rows)
  {
    hide PinCleanup, Complete;
    match e {
      case QueueUpload(id, size) =>
        PinRows(w, ReleaseBatches(w.rows, {id}), id, w.batches[id].hash, size);
        PinnedAreNamed(ReleaseBatches(w.rows, {id}), id, w.batches[id].hash, size);
      case Upload(job, result, _, _) =>
        PinnedAreNamed(w.rows, w.jobs[job].batchId, w.batches[w.jobs[job].batchId].hash, w.jobs[job].size);
      case _ =>
    }
  }

  lemma PinnedAreNamed(rows: Table, id: nat, h: string, bytes: nat)
    requires NoStrays(rows)
    ensures NoStrays(PinCleanup(rows, id, h, bytes))
  {
    FirstCleanupIs(rows, id);
  }

  /** While no file is reported further back, the files of queued batches stay done. */
  lemma FilesStep(w: World, e: Event)
    requires LedgerInv(w) && FilesDone(w) && Enabled(w, e) && Forward(w, e)
    ensures FilesDone(Apply(w, e))
  {
    hide NoStrays, OneCleanup, RowsInStep, Pinned, PinCleanup;
    if e.Listing? {
      assert forall f :: f in w.progress ==> f in e.progress && e.progress[f] >= w.progress[f];
    }
  }

  /** A listing, if that is what the step is, reports no file further back than before. */
  predicate Forward(w: World, e: Event) {
    e.Listing? ==> MonotoneProgress(w.progress, e.progress)
  }

  /** The torrent's live batches that are not counted as in flight. */
  function Uncounted(batches: seq<BatchRow>, h: string): set<nat> {
    set b, i | 0 <= b < |batches| && batches[b].hash == h && IsLive(batches[b].state) && !InFlight(batches[b].state)
               && i in batches[b].indices :: i
  }

  /**
   A creation the batch service would make keeps the live batches disjoint exactly when it takes no
   file of a live batch it does not count as in flight: one waiting for a retry, or whose cleanup was
   requested.
   */
  lemma CreationDisjointIff(w: World, h: string, indices: seq<nat>, reserved: nat, expires: int)
    requires Disjoint(w.batches)
    requires indices != [] && forall i :: i in indices ==> i !in InFlightIndices(w.batches, h)
    ensures Disjoint(w.batches + [BatchRow(h, Reserved, indices, 0)])
       <==> forall i :: i in indices ==> i !in Uncounted(w.batches, h)
  {
    var created := BatchRow(h, Reserved, indices, 0);
    var after := w.batches + [created];
    if forall i :: i in indices ==> i !in Uncounted(w.batches, h) {
      forall a, b | 0 <= a < b < |after| && IsLive(after[a].state) && IsLive(after[b].state)
        ensures !Overlap(after[a], after[b]) {
        if b == |w.batches| && after[a].hash == h {
          forall i | i in after[a].indices ensures i !in indices {
            if InFlight(after[a].state) {
              assert i in InFlightIndices(w.batches, h);
            } else {
              assert i in Uncounted(w.batches, h);
            }
          }
        } else if b < |w.batches| {
          assert !Overlap(w.batches[a], w.batches[b]);
        }
      }
    } else {
      var i :| i in indices && i in Uncounted(w.batches, h);
      var b :| 0 <= b < |w.batches| && w.batches[b].hash == h && IsLive(w.batches[b].state)
        && i in w.batches[b].indices;
      assert Overlap(after[b], after[|w.batches|]);
    }
  }

  lemma UncountedAreDone(w: World, h: string)
    requires StatesInStep(w.batches) && FilesDone(w)
    ensures forall i :: i in Uncounted(w.batches, h) ==> Complete(w.progress, h, i)
  {
  }

  lemma DisjointStep(w: World, e: Event)
    requires Inv(w) && Enabled(w, e)
    ensures Disjoint(Apply(w, e).batches)
  {
    hide NoStrays, OneCleanup, RowsInStep, Pinned, PinCleanup;
    if e.Create? {
      UncountedAreDone(w, e.hash);
      CreationDisjointIff(w, e.hash, e.indices, e.reserved, e.expires);
    } else {
      NoNewLife(w, e);
      var w' := Apply(w, e);
      forall a, b | 0 <= a < b < |w'.batches| && IsLive(w'.batches[a].state) && IsLive(w'.batches[b].state)
        ensures !Overlap(w'.batches[a], w'.batches[b])
      {
        assert !Overlap(w.batches[a], w.batches[b]);
      }
    }
  }

  /** Only a creation adds a batch; no step brings one back or changes its files. */
  lemma NoNewLife(w: World, e: Event)
    requires StatesInStep(w.batches) && JobsInStep(w) && Enabled(w, e) && !e.Create?
    ensures
      var w' := Apply(w, e);
      && |w'.batches| == |w.batches|
      && forall b :: 0 <= b < |w.batches| ==>
           && w'.batches[b].hash == w.batches[b].hash && w'.batches[b].indices == w.batches[b].indices
           && (IsLive(w'.batches[b].state) ==> IsLive(w.batches[b].state))
  {
  }

  /** Every step keeps the ledger in step with the batches, whatever a listing reports. */
  lemma LedgerStep(w: World, e: Event)
    requires LedgerInv(w) && Enabled(w, e)
    ensures LedgerInv(Apply(w, e))
  {
    hide NoStrays, OneCleanup, NoCleanup, RowsInStep, JobsInStep, StatesInStep, Apply, Enabled;
    NoStraysStep(w, e);
    RowsStep(w, e);
    JobsStep(w, e);
    StatesStep(w, e);
    forall b: nat | b < |Apply(w, e).batches| ensures PinnedAt(Apply(w, e), b) {
      PinnedStep(w, e, b);
    }
    PinnedIsAtAll(Apply(w, e));
  }

  /** Every step that reports no file further back keeps the live batches disjoint as well. */
  lemma InvStep(w: World, e: Event)
    requires Inv(w) && Enabled(w, e) && Forward(w, e)
    ensures Inv(Apply(w, e))
  {
    hide LedgerInv, FilesDone, Disjoint, Apply, Enabled, Forward;
    LedgerStep(w, e);
    FilesStep(w, e);
    DisjointStep(w, e);
  }

  // ---------------------------------------------------------------------------------------------
  // Whole runs
  // ---------------------------------------------------------------------------------------------

  predicate Possible(w: World, run: seq<Event>)
    decreases |run|
  {
    run == [] || (Enabled(w, run[0]) && Possible(Apply(w, run[0]), run[1..]))
  }

  function After(w: World, run: seq<Event>): World
    requires Possible(w, run)
    decreases |run|
  {
    if run == [] then w else After(Apply(w, run[0]), run[1..])
  }

  /** No listing of the run reports a file further back than it was. */
  predicate NeverBack(w: World, run: seq<Event>)
    requires Possible(w, run)
    decreases |run|
  {
    run == [] || (Forward(w, run[0]) && NeverBack(Apply(w, run[0]), run[1..]))
  }

  /** The ledger stays in step with the batches on every run. */
  lemma {:induction false} LedgerRun(w: World, run: seq<Event>)
    requires LedgerInv(w) && Possible(w, run)
    ensures LedgerInv(After(w, run))
    decreases |run|
  {
    hide LedgerInv, Apply, Enabled;
    if run != [] {
      LedgerStep(w, run[0]);
      LedgerRun(Apply(w, run[0]), run[1..]);
    }
  }

  /** The live batches stay disjoint on every run in which progress never goes back. */
  lemma {:induction false} InvRun(w: World, run: seq<Event>)
    requires Inv(w) && Possible(w, run) && NeverBack(w, run)
    ensures Inv(After(w, run))
    decreases |run|
  {
    hide Inv, Apply, Enabled, Forward;
    if run != [] {
      InvStep(w, run[0]);
      InvRun(Apply(w, run[0]), run[1..]);
    }
  }

  /** The empty database satisfies both. */
  lemma InvStart()
    ensures Inv(EMPTY)
  {
  }

  lemma UploadIsForGood(w: World, e: Event, b: nat)
    requires LedgerInv(w) && Enabled(w, e) && b < |w.batches| && AfterUpload(w.batches[b].state)
    ensures b < |Apply(w, e).batches| && AfterUpload(Apply(w, e).batches[b].state)
  {
    hide NoStrays, PinCleanup, Complete, OneCleanup;
  }

  /**
   Once a batch's upload has been queued, after every continuation of the run it still has exactly one
   cleanup row, of exactly its pinned bytes, and no active batch row.
   */
  lemma {:induction false} QueuedBatchStaysPinned(w: World, run: seq<Event>, b: nat)
    requires LedgerInv(w) && Possible(w, run) && b < |w.batches| && AfterUpload(w.batches[b].state)
    ensures
      var end := After(w, run);
      && b < |end.batches| && AfterUpload(end.batches[b].state)
      && OneCleanup(end.rows, b, end.batches[b].pinned)
      && forall i :: 0 <= i < |end.rows| && end.rows[i].kind.Batch? && end.rows[i].batchId == Some(b) ==>
           !end.rows[i].state.Active?
    decreases |run|
  {
    if run == [] {
      PinnedNow(w, b);
    } else {
      hide LedgerInv, Apply, Enabled, OneCleanup;
      LedgerStep(w, run[0]);
      UploadIsForGood(w, run[0], b);
      QueuedBatchStaysPinned(Apply(w, run[0]), run[1..], b);
    }
  }

  lemma PinnedNow(w: World, b: nat)
    requires LedgerInv(w) && b < |w.batches| && AfterUpload(w.batches[b].state)
    ensures OneCleanup(w.rows, b, w.batches[b].pinned)
    ensures forall i :: 0 <= i < |w.rows| && w.rows[i].kind.Batch? && w.rows[i].batchId == Some(b) ==>
      !w.rows[i].state.Active?
  {
  }

  // ---------------------------------------------------------------------------------------------
  // A queued batch's bytes are counted until its torrent is reconciled away
  // ---------------------------------------------------------------------------------------------

  /** The batch's one cleanup row names its torrent, has its pinned bytes, is active and never expires. */
  ghost predicate KeptPinned(w: World, b: nat)
    requires b < |w.batches|
  {
    exists i :: 0 <= i < |w.rows| && PinRow(w.rows[i], b, w.batches[b])
      && forall j :: 0 <= j < |w.rows| && IsCleanup(w.rows[j], b) ==> j == i
  }

  predicate PinRow(r: Row, b: nat, batch: BatchRow) {
    && IsCleanup(r, b) && r.hash == Some(batch.hash) && r.bytes == batch.pinned
    && r.state.Active? && r.expiresAt.None?
  }

  /** The step does not forget the torrent. */
  predicate Remembers(e: Event, h: string) {
    e.AbsentReconcile? ==> h !in e.hashes
  }

  lemma PinKeeps(rows: Table, b: nat, batch: BatchRow, i: nat)
    requires i < |rows| && PinRow(rows[i], b, batch)
    requires forall j :: 0 <= j < |rows| && IsCleanup(rows[j], b) ==> j == i
    ensures PinCleanup(rows, b, batch.hash, batch.pinned) == rows
  {
    FirstCleanupIs(rows, b);
  }

  /** Queueing a batch's upload pins its bytes. */
  lemma QueueingPins(w: World, b: nat, size: nat)
    requires LedgerInv(w) && Enabled(w, QueueUpload(b, size))
    ensures KeptPinned(Apply(w, QueueUpload(b, size)), b)
  {
    hide NoStrays, OneCleanup, RowsInStep, JobsInStep, StatesInStep, Complete;
    var released := ReleaseBatches(w.rows, {b});
    assert NoCleanup(w.rows, b);
    assert forall i :: 0 <= i < |released| ==> !IsCleanup(released[i], b);
    FirstCleanupIs(released, b);
    var w' := Apply(w, QueueUpload(b, size));
    assert PinRow(w'.rows[|released|], b, w'.batches[b]);
  }

  /** Pinning another batch adds a row of its own or rewrites one, and leaves this batch's alone. */
  lemma PinOther(rows: Table, id: nat, h: string, bytes: nat, b: nat)
    requires id != b
    ensures
      var rows' := PinCleanup(rows, id, h, bytes);
      && |rows| <= |rows'|
      && (forall j :: 0 <= j < |rows| && IsCleanup(rows[j], b) ==> rows'[j] == rows[j])
      && (forall j :: 0 <= j < |rows'| && IsCleanup(rows'[j], b) ==> j < |rows| && IsCleanup(rows[j], b))
  {
    FirstCleanupIs(rows, id);
  }

  /** Every step keeps a queued batch pinned, unless it forgets the torrent. */
  lemma PinnedStays(w: World, e: Event, b: nat)
    requires LedgerInv(w) && Enabled(w, e) && b < |w.batches| && AfterUpload(w.batches[b].state)
    requires KeptPinned(w, b) && Remembers(e, w.batches[b].hash)
    ensures b < |Apply(w, e).batches| && KeptPinned(Apply(w, e), b)
    ensures Apply(w, e).batches[b].hash == w.batches[b].hash
  {
    hide NoStrays, OneCleanup, RowsInStep, StatesInStep, Complete, PinCleanup, Pinned;
    var i :| 0 <= i < |w.rows| && PinRow(w.rows[i], b, w.batches[b])
             && forall j :: 0 <= j < |w.rows| && IsCleanup(w.rows[j], b) ==> j == i;
    var w' := Apply(w, e);
    match e {
      case QueueUpload(id, size) =>
        var released := ReleaseBatches(w.rows, {id});
        assert released[i] == w.rows[i];
        assert forall j :: 0 <= j < |released| ==> (IsCleanup(released[j], b) <==> IsCleanup(w.rows[j], b));
        PinOther(released, id, w.batches[id].hash, size, b);
      case Upload(job, result, _, _) =>
        if w.jobs[job].batchId == b {
          PinKeeps(w.rows, b, w.batches[b], i);
        } else {
          PinOther(w.rows, w.jobs[job].batchId, w.batches[w.jobs[job].batchId].hash, w.jobs[job].size, b);
        }
      case _ =>
    }
    assert PinRow(w'.rows[i], b, w'.batches[b]);
  }

  /** A row adds its bytes to its column. */
  lemma {:induction false} ColAtLeast(rows: Table, i: nat, now: int, k: Key, c: Column)
    requires i < |rows|
    ensures Col(rows, now, k, c) >= Part(rows[i], i, now, k, c)
  {
    var n := |rows| - 1;
    if i < n {
      ColAtLeast(rows[..n], i, now, k, c);
    }
  }

  /** What a pinned batch holds is in the need of its torrent, at any time and for every reader. */
  lemma PinnedIsCounted(w: World, b: nat, now: int, ignoreSoak: bool)
    requires b < |w.batches| && w.batches[b].hash != "" && KeptPinned(w, b)
    ensures Need(w.rows, now, ignoreSoak, ByHash(w.batches[b].hash)) >= w.batches[b].pinned
    ensures Total(w.rows, now, ignoreSoak) >= w.batches[b].pinned
  {
    var k := ByHash(w.batches[b].hash);
    var i: nat :| i < |w.rows| && PinRow(w.rows[i], b, w.batches[b]);
    ColAtLeast(w.rows, i, now, k, RestColumn);
    hide Col;
    AtNeeds(w.rows, now, ignoreSoak, k);
    SumPick(Needs(w.rows, now, ignoreSoak), k);
  }

  lemma {:induction false} PinnedBytesStayCounted(w: World, run: seq<Event>, b: nat, now: int, ignoreSoak: bool)
    requires LedgerInv(w) && Possible(w, run) && b < |w.batches| && AfterUpload(w.batches[b].state)
    requires w.batches[b].hash != "" && KeptPinned(w, b)
    requires forall i :: 0 <= i < |run| ==> Remembers(run[i], w.batches[b].hash)
    ensures
      var end := After(w, run);
      && b < |end.batches| && end.batches[b].hash == w.batches[b].hash && KeptPinned(end, b)
      && Need(end.rows, now, ignoreSoak, ByHash(end.batches[b].hash)) >= end.batches[b].pinned
      && Total(end.rows, now, ignoreSoak) >= end.batches[b].pinned
    decreases |run|
  {
    hide LedgerInv, Apply, Enabled, KeptPinned, Remembers, Need, Total;
    if run == [] {
      PinnedIsCounted(w, b, now, ignoreSoak);
    } else {
      LedgerStep(w, run[0]);
      UploadIsForGood(w, run[0], b);
      PinnedStays(w, run[0], b);
      PinnedBytesStayCounted(Apply(w, run[0]), run[1..], b, now, ignoreSoak);
    }
  }

  /**
   Once a batch's upload has been queued its bytes stay in every reader's total, at whatever time it
   reads, on every continuation of the run that does not reconcile its torrent away.
   */
  lemma QueuedBytesStayCounted(w: World, b: nat, size: nat, run: seq<Event>, now: int, ignoreSoak: bool)
    requires LedgerInv(w) && Enabled(w, QueueUpload(b, size)) && w.batches[b].hash != ""
    requires Possible(Apply(w, QueueUpload(b, size)), run)
    requires forall i :: 0 <= i < |run| ==> Remembers(run[i], w.batches[b].hash)
    ensures
      var end, h := After(Apply(w, QueueUpload(b, size)), run), w.batches[b].hash;
      && b < |end.batches| && end.batches[b].hash == h && KeptPinned(end, b)
      && Need(end.rows, now, ignoreSoak, ByHash(h)) >= end.batches[b].pinned
      && Total(end.rows, now, ignoreSoak) >= end.batches[b].pinned
  {
    var queue := QueueUpload(b, size);
    LedgerStep(w, queue);
    QueueingPins(w, b, size);
    Queueing(w, b, size);
    hide *;
    PinnedBytesStayCounted(Apply(w, queue), run, b, now, ignoreSoak);
  }

  lemma Queueing(w: World, b: nat, size: nat)
    requires Enabled(w, QueueUpload(b, size))
    ensures
      var w' := Apply(w, QueueUpload(b, size));
      b < |w.batches| && b < |w'.batches| && w'.batches[b].hash == w.batches[b].hash && AfterUpload(w'.batches[b].state)
  {
  }

  // ---------------------------------------------------------------------------------------------
  // Retries wait
  // ---------------------------------------------------------------------------------------------

  /** A live batch that is not counted as in flight waits for a retry or a cleanup, or is done. */
  lemma LiveButUncounted(s: BatchState)
    ensures IsLive(s) && !InFlight(s) <==> s.RetryWait? || s.CleanupRequested? || s.Done?
  {
  }

  predicate Attempts(e: Event, job: nat) {
    e.Upload? && e.job == job
  }

  /** Only its own attempts change a job. */
  lemma {:induction false} JobStays(w: World, run: seq<Event>, job: nat)
    requires Possible(w, run) && job < |w.jobs| && forall i :: 0 <= i < |run| ==> !Attempts(run[i], job)
    ensures job < |After(w, run).jobs| && After(w, run).jobs[job] == w.jobs[job]
    decreases |run|
  {
    hide PinCleanup, ReleaseBatches, ReleaseAllOf, Expire, Reactivate, SetStates, Complete, LeavesOursAlone;
    if run != [] {
      var next := Apply(w, run[0]);
      JobStays(next, run[1..], job);
    }
  }

  /** After a failed copy, or an attempt that raised, the job is not attempted before its retry is due. */
  lemma RetryWaits(w: World, failed: Event, between: seq<Event>, again: Event)
    requires failed.Upload? && Enabled(w, failed) && (failed.result.CopyFailed? || failed.result.Raised?)
    requires Possible(Apply(w, failed), between)
    requires forall i :: 0 <= i < |between| ==> !Attempts(between[i], failed.job)
    requires Attempts(again, failed.job) && Enabled(After(Apply(w, failed), between), again)
    ensures again.now >= failed.retryAt
  {
    hide PinCleanup, After, Possible;
    JobStays(Apply(w, failed), between, failed.job);
  }

  // ---------------------------------------------------------------------------------------------
  // A batch from the empty database to its upload
  // ---------------------------------------------------------------------------------------------

  const EMPTY := World([], [], [], map[])

  function Reported(h: string, progress: real): Event {
    Listing(map[(h, 0) := progress])
  }

  /** One file is listed, reserved, started, finished, and queued for upload. */
  function DownloadRun(h: string, bytes: nat): (run: seq<Event>)
    ensures |run| == 5
  {
    [Reported(h, 0.0), Create(h, [0], bytes, 100), Applied(0), Reported(h, 1.0), QueueUpload(0, bytes)]
  }

  /** The ledger from then on: the batch's row is released, its bytes await cleanup. */
  function AwaitingCleanup(h: string, bytes: nat): Table {
    [ Row(Some(h), Some(0), Batch, bytes, RowState.Released, Some(100)),
      Row(Some(h), Some(0), CleanupPending, bytes, RowState.Active, None) ]
  }

  function Downloaded(h: string, bytes: nat): World {
    World(AwaitingCleanup(h, bytes), [BatchRow(h, UploadQueued, [0], bytes)], [UploadJob(0, bytes, JobQueued, 0, None)],
          map[(h, 0) := 1.0])
  }

  lemma StepFirst(w: World, e: Event, rest: seq<Event>)
    requires Enabled(w, e) && Possible(Apply(w, e), rest)
    ensures Possible(w, [e] + rest) && After(w, [e] + rest) == After(Apply(w, e), rest)
  {
    assert ([e] + rest)[1..] == rest;
  }

  lemma QueueingDownloaded(w: World, h: string, bytes: nat)
    requires bytes > 0
    requires w == World([Row(Some(h), Some(0), Batch, bytes, RowState.Active, Some(100))],
                        [BatchRow(h, Downloading, [0], 0)], [], map[(h, 0) := 1.0])
    ensures Enabled(w, QueueUpload(0, bytes)) && Apply(w, QueueUpload(0, bytes)) == Downloaded(h, bytes)
  {
    assert Complete(w.progress, h, 0);
    var released := ReleaseBatches(w.rows, {0});
    FirstCleanupIs(released, 0);
    assert released == [Row(Some(h), Some(0), Batch, bytes, RowState.Released, Some(100))];
    assert PinCleanup(released, 0, h, bytes) == AwaitingCleanup(h, bytes);
  }

  lemma Downloads(h: string, bytes: nat)
    requires bytes > 0
    ensures Possible(EMPTY, DownloadRun(h, bytes)) && After(EMPTY, DownloadRun(h, bytes)) == Downloaded(h, bytes)
  {
    var run := DownloadRun(h, bytes);
    var w1 := Apply(EMPTY, run[0]);
    assert Enabled(w1, run[1]);
    var w2 := Apply(w1, run[1]);
    var w3 := Apply(w2, run[2]);
    var w4 := Apply(w3, run[3]);
    assert Enabled(w2, run[2]) && Enabled(w3, run[3]);
    QueueingDownloaded(w4, h, bytes);
    hide Apply, Enabled, Downloaded;
    StepFirst(w4, run[4], []);
    StepFirst(w3, run[3], [run[4]]);
    StepFirst(w2, run[2], [run[3]] + [run[4]]);
    StepFirst(w1, run[1], [run[2]] + ([run[3]] + [run[4]]));
    StepFirst(EMPTY, run[0], [run[1]] + ([run[2]] + ([run[3]] + [run[4]])));
    assert run == [run[0]] + ([run[1]] + ([run[2]] + ([run[3]] + [run[4]])));
  }

  /** Verified, the batch waits for its cleanup with the ledger as it was. */
  function UploadedRun(h: string, bytes: nat): seq<Event> {
    DownloadRun(h, bytes) + [Upload(0, Verified, 0, 60)]
  }

  lemma UploadVerifies(h: string, bytes: nat)
    requires bytes > 0
    ensures
      var upload := Upload(0, Verified, 0, 60);
      && Enabled(Downloaded(h, bytes), upload)
      && Apply(Downloaded(h, bytes), upload).rows == AwaitingCleanup(h, bytes)
      && Apply(Downloaded(h, bytes), upload).batches == [BatchRow(h, CleanupDeferred, [0], bytes)]
  {
    hide PinCleanup;
    PinKeeps(AwaitingCleanup(h, bytes), 0, BatchRow(h, CleanupDeferred, [0], bytes), 1);
  }

  /** A run from the empty database after which an uploaded batch awaits its cleanup. */
  lemma UploadedFromEmpty(h: string, bytes: nat)
    requires bytes > 0
    ensures Possible(EMPTY, UploadedRun(h, bytes))
    ensures
      var end := After(EMPTY, UploadedRun(h, bytes));
      && LedgerInv(end) && end.rows == AwaitingCleanup(h, bytes)
      && end.batches == [BatchRow(h, CleanupDeferred, [0], bytes)]
  {
    hide Apply, Enabled, LedgerInv, Downloaded, DownloadRun, AwaitingCleanup;
    Downloads(h, bytes);
    UploadVerifies(h, bytes);
    StepFirst(Downloaded(h, bytes), Upload(0, Verified, 0, 60), []);
    RunsJoin(EMPTY, DownloadRun(h, bytes), [Upload(0, Verified, 0, 60)] + []);
    assert [Upload(0, Verified, 0, 60)] + [] == [Upload(0, Verified, 0, 60)];
    InvStart();
    EmptyInStep(EMPTY);
    LedgerRun(EMPTY, UploadedRun(h, bytes));
  }

  lemma EmptyInStep(w: World)
    requires Inv(w)
    ensures LedgerInv(w)
  {
    hide LedgerInv;
  }

  // ---------------------------------------------------------------------------------------------
  // When progress goes backwards
  // ---------------------------------------------------------------------------------------------

  /** The upload has to be retried, a recheck loses the file, and a creation takes it again. */
  function RecheckRun(): seq<Event> {
    [Upload(0, CopyFailed, 0, 60), Reported("h", 0.0), Create("h", [0], 1, 200)]
  }

  /** The batch waiting for its retry, with its file reported unfinished. */
  function Rechecked(): World {
    World(AwaitingCleanup("h", 1), [BatchRow("h", RetryWait, [0], 1)], [UploadJob(0, 1, JobRetryWait, 1, Some(60))],
          map[("h", 0) := 0.0])
  }

  lemma Retried()
    ensures
      var queued, retry := Downloaded("h", 1), Rechecked().(progress := map[("h", 0) := 1.0]);
      Enabled(queued, RecheckRun()[0]) && Apply(queued, RecheckRun()[0]) == retry
  {
  }

  /** The recheck lets a creation take its file. */
  lemma TakenAgain()
    ensures
      var again := RecheckRun()[2];
      Enabled(Rechecked(), again) && !Disjoint(Apply(Rechecked(), again).batches)
  {
    assert InFlightIndices(Rechecked().batches, "h") == {};
    var end := Apply(Rechecked(), RecheckRun()[2]);
    assert 0 in end.batches[0].indices && 0 in end.batches[1].indices;
    assert Overlap(end.batches[0], end.batches[1]);
  }

  lemma Recheck()
    ensures Possible(Downloaded("h", 1), RecheckRun())
    ensures !Disjoint(After(Downloaded("h", 1), RecheckRun()).batches)
  {
    var run := RecheckRun();
    var queued := Downloaded("h", 1);
    Retried();
    TakenAgain();
    var retry := Apply(queued, run[0]);
    assert Enabled(retry, run[1]) && Apply(retry, run[1]) == Rechecked();
    hide Apply, Enabled, Disjoint, Downloaded, Rechecked;
    StepFirst(Rechecked(), run[2], []);
    StepFirst(retry, run[1], [run[2]]);
    StepFirst(queued, run[0], [run[1]] + [run[2]]);
    assert run == [run[0]] + ([run[1]] + [run[2]]);
  }

  /**
   Without monotone progress the claim fails: a run from the empty database in which a batch waits for
   a retry, its file is reported unfinished again, and a second live batch takes the same file.
   */
  lemma BackwardsProgressOverlaps()
    ensures
      var run := DownloadRun("h", 1) + RecheckRun();
      && Inv(EMPTY) && Possible(EMPTY, run)
      && LedgerInv(After(EMPTY, run)) && !Disjoint(After(EMPTY, run).batches)
  {
    hide *;
    InvStart();
    EmptyInStep(EMPTY);
    Downloads("h", 1);
    Recheck();
    RunsJoin(EMPTY, DownloadRun("h", 1), RecheckRun());
    LedgerRun(EMPTY, DownloadRun("h", 1) + RecheckRun());
  }

  /** Two runs, one after the other. */
  lemma {:induction false} RunsJoin(w: World, a: seq<Event>, b: seq<Event>)
    requires Possible(w, a) && Possible(After(w, a), b)
    ensures Possible(w, a + b) && After(w, a + b) == After(After(w, a), b)
    ensures NeverBack(w, a + b) <==> NeverBack(w, a) && NeverBack(After(w, a), b)
    decreases |a|
  {
    hide Apply, Enabled, Forward;
    if a == [] {
      assert a + b == b;
    } else {
      assert (a + b)[0] == a[0] && (a + b)[1..] == a[1..] + b;
      RunsJoin(Apply(w, a[0]), a[1..], b);
    }
  }
}
