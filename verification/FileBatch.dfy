/**
 The file-batch service: one pass over the torrents, creating batches, handing finished ones to the
 upload queue, and giving back those the planner stopped. Every pass is a run of the batch state
 machine.
 */
module FileBatch {
  import opened Options
  import opened Ledger
  import opened LedgerReaders
  import opened Torrents
  import opened BatchLifecycle
  import opened BatchInvariant
  import opened BatchSelection
  import opened BatchKnapsack
  import opened BatchTurn
  import opened StateDbTables

  // ---------------------------------------------------------------------------------------------
  // Runs in which batches are created
  // ---------------------------------------------------------------------------------------------

  lemma RunExtends(w: World, run: seq<Event>, e: Event)
    requires Possible(w, run) && Enabled(After(w, run), e)
    ensures Possible(w, run + [e]) && After(w, run + [e]) == Apply(After(w, run), e)
    ensures NeverBack(w, run + [e]) <==> NeverBack(w, run) && Forward(After(w, run), e)
  {
    hide Apply, Enabled, Forward;
    assert [e][1..] == [];
    RunsJoin(w, run, [e]);
  }

  /** No batch is created in this run. */
  predicate CreatesNothing(run: seq<Event>) {
    forall n :: 0 <= n < |run| ==> !run[n].Applied?
  }

  /** One batch is created in this run, by its last event. */
  predicate CreatesLast(run: seq<Event>) {
    && run != [] && run[|run| - 1].Applied?
    && forall n :: 0 <= n < |run| - 1 ==> !run[n].Applied?
  }

  function Creations(run: seq<Event>): nat {
    if run == [] then 0
    else
      var n := |run| - 1;
      Creations(run[..n]) + if run[n].Applied? then 1 else 0
  }

  lemma {:induction false} NoCreations(run: seq<Event>)
    requires CreatesNothing(run)
    ensures Creations(run) == 0
  {
    if run != [] {
      NoCreations(run[..|run| - 1]);
    }
  }

  lemma {:induction false} CreationsAdd(a: seq<Event>, b: seq<Event>)
    ensures Creations(a + b) == Creations(a) + Creations(b)
  {
    if b == [] {
      assert a + b == a;
    } else {
      var n := |b| - 1;
      CreationsAdd(a, b[..n]);
      assert (a + b)[..|a| + n] == a + b[..n];
    }
  }

  lemma CreationsOf(run: seq<Event>)
    ensures CreatesNothing(run) ==> Creations(run) == 0 && !CreatesLast(run)
    ensures CreatesLast(run) ==> Creations(run) == 1
  {
    if CreatesNothing(run) {
      NoCreations(run);
    } else if CreatesLast(run) {
      NoCreations(run[..|run| - 1]);
    }
  }

  /** After these steps the deduplicated ledger is under the floor. */
  ghost predicate FitsAfter(start: World, run: seq<Event>, floor: nat, freeBytes: Option<nat>, now: int) {
    && Possible(start, run)
    && freeBytes.Some? && Total(After(start, run).rows, now, false) + floor <= freeBytes.value
  }

  /** Right after each creation of a run, it is. */
  ghost predicate CreationsFit(start: World, run: seq<Event>, floor: nat, freeBytes: Option<nat>, now: int) {
    forall n :: 0 < n <= |run| && run[n - 1].Applied? ==> FitsAfter(start, run[..n], floor, freeBytes, now)
  }

  /** A stretch that creates nothing, or one batch at its end that fits, keeps the creations fitting. */
  lemma CreationsStillFit(start: World, run: seq<Event>, more: seq<Event>, floor: nat, freeBytes: Option<nat>, now: int)
    requires CreationsFit(start, run, floor, freeBytes, now)
    requires CreatesNothing(more) || CreatesLast(more)
    requires CreatesLast(more) ==> FitsAfter(start, run + more, floor, freeBytes, now)
    ensures CreationsFit(start, run + more, floor, freeBytes, now)
  {
    hide FitsAfter, CreatesNothing, CreatesLast;
    var all := run + more;
    forall n | 0 < n <= |all| && all[n - 1].Applied? ensures FitsAfter(start, all[..n], floor, freeBytes, now) {
      CreationWhere(run, more, n);
      if n <= |run| {
        assert FitsAfter(start, run[..n], floor, freeBytes, now);
      }
    }
  }

  lemma CreationsCount(run: seq<Event>, more: seq<Event>)
    requires CreatesNothing(more) || CreatesLast(more)
    ensures Creations(run + more) == Creations(run) + if CreatesLast(more) then 1 else 0
  {
    CreationsAdd(run, more);
    CreationsOf(more);
  }

  /** A creation is in the earlier stretch, or is the last event of all. */
  lemma CreationWhere(run: seq<Event>, more: seq<Event>, n: nat)
    requires CreatesNothing(more) || CreatesLast(more)
    requires 0 < n <= |run + more| && (run + more)[n - 1].Applied?
    ensures
      if n <= |run| then (run + more)[..n] == run[..n] && run[n - 1].Applied?
      else (run + more)[..n] == run + more && CreatesLast(more)
  {
    if n > |run| {
      assert more[n - 1 - |run|].Applied?;
    }
  }

  lemma StillNothing(run: seq<Event>, e: Event)
    requires !e.Applied?
    ensures CreatesNothing(run) ==> CreatesNothing(run + [e])
  {
  }

  lemma NothingCreated(start: World, floor: nat, freeBytes: Option<nat>, now: int)
    ensures CreatesNothing([]) && Creations([]) == 0 && CreationsFit(start, [], floor, freeBytes, now)
  {
  }

  lemma MayQueue(w: World, b: nat, size: nat)
    requires b < |w.batches| && size > 0 && !HasJob(w.jobs, b)
    requires w.batches[b].state.Downloading? || w.batches[b].state.AppliedToQbt? || w.batches[b].state.Downloaded?
    requires forall i :: i in w.batches[b].indices ==> Complete(w.progress, w.batches[b].hash, i)
    ensures Enabled(w, QueueUpload(b, size))
    ensures Apply(w, QueueUpload(b, size)) ==
      World(PinCleanup(ReleaseBatches(w.rows, {b}), b, w.batches[b].hash, size),
            w.batches[b := w.batches[b].(state := UploadQueued, pinned := size)],
            w.jobs + [UploadJob(b, size, JobQueued, 0, None)], w.progress)
  {
    hide PinCleanup, ReleaseBatches;
  }

  class FileBatchService {
    const cfg: Config
    const db: StateDb
    var createdThisTick: nat
    ghost var progress: Progress

    constructor (cfg: Config, db: StateDb)
      ensures this.cfg == cfg && this.db == db && createdThisTick == 0
    {
      this.cfg := cfg;
      this.db := db;
      createdThisTick := 0;
      progress := map[];
    }

    ghost function State(): World
      reads this, db
    {
      World(db.reservations, db.batches, db.jobs, progress)
    }

    method SafeBudget(freeBytes: nat, now: int) returns (budget: nat)
      ensures budget == if freeBytes < cfg.diskFloor + Total(db.reservations, now, false) then 0
                        else freeBytes - cfg.diskFloor - Total(db.reservations, now, false)
    {
      var ids := db.Scan();
      var total := AllBytes(db.reservations, ids, now);
      budget := if freeBytes < cfg.diskFloor + total then 0 else freeBytes - cfg.diskFloor - total;
    }

    /** Hand every finished batch of a torrent to the upload queue. */
    method QueueDownloaded(h: string, files: seq<FileRow>, view: View, ghost start: World, ghost before: seq<Event>)
      returns (queued: nat, ghost run: seq<Event>)
      requires Possible(start, before) && After(start, before) == State()
      requires forall index: nat :: FindFile(files, index).Some? ==>
        (h, index) in progress && progress[(h, index)] == FindFile(files, index).value.progress
      modifies db`reservations, db`batches, db`jobs
      ensures Possible(start, run) && After(start, run) == State()
      ensures NeverBack(start, before) ==> NeverBack(start, run)
      ensures CreatesNothing(before) ==> CreatesNothing(run)
      ensures |db.batches| == |old(db.batches)| && |db.jobs| == |old(db.jobs)| + queued
      ensures State() == QueueUpTo(old(State()), h, files, view, |old(db.batches)|)
      ensures forall b: nat :: b < |db.batches| ==>
        db.batches[b] == Handed(old(db.batches), old(db.jobs), b, h, files, view)
    {
      hide Possible, After, NeverBack, Enabled, Apply, PinCleanup, ReleaseBatches, AllFinished, HasJob,
           CreatesNothing, Handed, QueueUpTo;
      queued, run := 0, before;
      var n := |db.batches|;
      var pending := set b | 0 <= b < n && db.batches[b].hash == h
                       && (db.batches[b].state.Downloading? || db.batches[b].state.AppliedToQbt?
                            || db.batches[b].state.Downloaded?);
      ghost var found, jobs, from := db.batches, db.jobs, State();
      QueuedNone(from, h, files, view);
      for b := 0 to n
        invariant Possible(start, run) && After(start, run) == State()
        invariant NeverBack(start, before) ==> NeverBack(start, run)
        invariant CreatesNothing(before) ==> CreatesNothing(run)
        invariant |db.batches| == n && |db.jobs| == |jobs| + queued
        invariant State() == QueueUpTo(from, h, files, view, b)
      {
        QueueUpToAt(from, h, files, view, b, b);
        QueuedNext(from, h, files, view, b);
        if b !in pending || HasJob(db.jobs, b) || !AllFinished(db.batches[b].indices, files) {
          continue;
        }
        if b !in view.uploadable || view.uploadable[b] == 0 || b !in view.parked {
          continue;
        }
        var size := view.uploadable[b];
        ghost var e := Event.QueueUpload(b, size);
        FinishedIsComplete(db.batches[b].indices, files, progress, h);
        NewJobElsewhere(db.jobs, UploadJob(b, size, JobQueued, 0, None));
        MayQueue(State(), b, size);
        RunExtends(start, run, e);
        StillNothing(run, e);
        run := run + [e];
        db.jobs := db.jobs + [UploadJob(b, size, JobQueued, 0, None)];
        db.reservations := PinCleanup(ReleaseBatches(db.reservations, {b}), b, h, size);
        db.batches := db.batches[b := db.batches[b].(state := UploadQueued, pinned := size)];
        queued := queued + 1;
      }
      forall b: nat | b < n ensures db.batches[b] == Handed(found, jobs, b, h, files, view) {
        QueueUpToAt(from, h, files, view, n, b);
      }
    }

    /** When the torrent stands still, give back batches the planner stopped, or restart it for the rest. */
    method ReconcileState(torrent: Torrent, now: int, ghost round: Round, ghost start: World,
                          ghost before: seq<Event>)
      returns (handled: bool, ghost run: seq<Event>)
      requires Possible(start, before) && After(start, before) == State()
      requires round.alloc == db.allocations && round.now == now
      modifies db`reservations, db`batches
      ensures Possible(start, run) && After(start, run) == State()
      ensures NeverBack(start, before) ==> NeverBack(start, run)
      ensures CreatesNothing(before) ==> CreatesNothing(run)
      ensures handled == GivesBack(round, old(State()), torrent)
      ensures State() == Reconciled(round, old(State()), torrent)
      ensures
        var ids := PipelineIds(old(db.batches), torrent.hash);
        if ids == {} || !torrent.stopped then
          !handled && run == before && db.reservations == old(db.reservations) && db.batches == old(db.batches)
        else if PlannerStopped(db.allocations, torrent.hash) then
          handled && db.batches == SetStates(old(db.batches), ids, PausedByPlanner)
            && db.reservations == ReleaseBatches(old(db.reservations), ids)
        else
          handled == HasLiveRow(old(db.reservations), ids, now) && run == before
          && db.reservations == old(db.reservations) && db.batches == old(db.batches)
    {
      hide Possible, After, NeverBack;
      run := before;
      var h := torrent.hash;
      var ids := PipelineIds(db.batches, h);
      if ids == {} || !torrent.stopped {
        return false, run;
      }
      if PlannerStopped(db.allocations, h) {
        ghost var e := Event.Pause(ids);
        assert Enabled(State(), e);
        RunExtends(start, run, e);
        run := run + [e];
        db.batches := SetStates(db.batches, ids, PausedByPlanner);
        db.reservations := ReleaseBatches(db.reservations, ids);
        return true, run;
      }
      return HasLiveRow(db.reservations, ids, now), run;
    }

    /** Reserve the selected files and try to apply them; a refusal gives the reservation back. */
    method CreateBatch(h: string, selected: seq<FileRow>, reserved: nat, applyWorks: bool, freeBytes: nat, now: int,
                       ghost start: World, ghost before: seq<Event>)
      returns (ok: bool, ghost run: seq<Event>)
      requires Possible(start, before) && After(start, before) == State()
      requires selected != []
      requires forall f :: f in selected ==>
        f.index !in InFlightIndices(db.batches, h) && !Complete(progress, h, f.index)
      requires Total(db.reservations, now, false) + cfg.diskFloor + reserved <= freeBytes
      modifies db`reservations, db`batches
      ensures ok == applyWorks
      ensures Possible(start, run) && After(start, run) == State()
      ensures NeverBack(start, before) ==> NeverBack(start, run)
      ensures CreatesNothing(before) ==> if ok then CreatesLast(run) else CreatesNothing(run)
      ensures Total(db.reservations, now, false) + cfg.diskFloor <= freeBytes
      ensures !ok ==> db.batches == old(db.batches) + [BatchRow(h, BatchState.Failed, IndicesOf(selected), 0)]
      ensures !ok ==>
        && Total(db.reservations, now, false) <= Total(old(db.reservations), now, false)
        && db.reservations == ReleaseAllOf(
             old(db.reservations)
               + [Row(Some(h), Some(|old(db.batches)|), Batch, reserved, RowState.Active,
                      Some(now + cfg.reservationTtl))],
             |old(db.batches)|)
        && forall i :: 0 <= i < |db.reservations| && OfBatch(db.reservations[i], {|old(db.batches)|}) ==>
             !db.reservations[i].state.Active?
      ensures ok ==> db.batches == old(db.batches) + [BatchRow(h, Downloading, IndicesOf(selected), 0)]
      ensures ok ==>
        db.reservations == old(db.reservations)
          + [Row(Some(h), Some(|old(db.batches)|), Batch, reserved, RowState.Active, Some(now + cfg.reservationTtl))]
    {
      hide Possible, After, NeverBack, Total;
      var id := |db.batches|;
      var expires := now + cfg.reservationTtl;
      ghost var create := Event.Create(h, IndicesOf(selected), reserved, expires);
      CreationRaisesBy(db.reservations, h, id, reserved, expires, now);
      forall i | i in IndicesOf(selected) ensures i !in InFlightIndices(db.batches, h) && !Complete(progress, h, i) {
        var j :| 0 <= j < |selected| && IndicesOf(selected)[j] == i;
        assert selected[j] in selected;
      }
      assert Enabled(State(), create);
      RunExtends(start, before, create);
      run := before + [create];
      db.batches := db.batches + [BatchRow(h, Reserved, IndicesOf(selected), 0)];
      db.reservations := db.reservations + [Row(Some(h), Some(id), Batch, reserved, RowState.Active, Some(expires))];
      assert After(start, run) == State();
      if !applyWorks {
        ghost var failed := Event.ApplyFailed(id);
        RunExtends(start, run, failed);
        run := run + [failed];
        RefusalRaisesNothing(old(db.reservations), db.reservations[|db.reservations| - 1], id, now);
        db.batches := db.batches[id := db.batches[id].(state := Failed)];
        db.reservations := ReleaseAllOf(db.reservations, id);
        return false, run;
      }
      ghost var applied := Event.Applied(id);
      RunExtends(start, run, applied);
      run := run + [applied];
      db.batches := db.batches[id := db.batches[id].(state := Downloading)];
      return true, run;
    }

    /** Select files within the budget, and create a batch of them if every check allows it. */
    method Prefetch(view: View, files: seq<FileRow>, freeBytes: nat, now: int, ghost round: Round,
                    ghost start: World, ghost before: seq<Event>)
      returns (ok: bool, ghost run: seq<Event>, ghost chosen: seq<FileRow>)
      requires Possible(start, before) && After(start, before) == State()
      requires round.cfg == cfg && round.freeBytes == Some(freeBytes) && round.now == now
      requires ListedOnce(files)
      requires forall index: nat :: FindFile(files, index).Some? ==>
        (view.torrent.hash, index) in progress
          && progress[(view.torrent.hash, index)] == FindFile(files, index).value.progress
      modifies db`reservations, db`batches
      ensures Possible(start, run) && After(start, run) == State()
      ensures NeverBack(start, before) ==> NeverBack(start, run)
      ensures CreatesNothing(before) ==> if ok then CreatesLast(run) else CreatesNothing(run)
      ensures
        var w := old(State());
        if view.pieceSize.None? then !ok && chosen == [] && State() == w
        else
          && IsChoice(cfg, files, PieceSize(view), Unreserved(round, w.rows),
                      InFlightIndices(w.batches, view.torrent.hash), chosen)
          && (ok <==> Worth(round, view, chosen) && view.applyWorks)
          && State() == if !Worth(round, view, chosen) then w
                        else if view.applyWorks then Created(round, w, view, chosen)
                        else Refused(round, w, view, chosen)
      ensures ok ==> Total(db.reservations, now, false) + cfg.diskFloor <= freeBytes
    {
      hide Possible, After, NeverBack, Total, Valid, Score, IsBest, GoodBatch, Keep, IsChoice, ReservationFor, Claim,
           Share, ReleaseAllOf, Wanted;
      run, chosen := before, [];
      var h := view.torrent.hash;
      if view.pieceSize.None? {
        return false, run, chosen;
      }
      var limits := LimitsFor(cfg, PieceSize(view));
      var budget := SafeBudget(freeBytes, now);
      var selected := SelectBatchFiles(cfg, files, PieceSize(view), budget, InFlightIndices(db.batches, h));
      chosen := selected;
      if selected == [] {
        return false, run, chosen;
      }
      var reservation := ReservationFor(selected, limits);
      ReservationIsClaim(selected, limits);
      ValidIsAdmissible(selected, limits, budget);
      if OverLiveCap(limits, reservation.reserved) || reservation.efficiency < cfg.minEfficiency
        || !view.backpressureAllows {
        return false, run, chosen;
      }
      ChoiceMayBeTaken(cfg, files, PieceSize(view), budget, InFlightIndices(db.batches, h), selected);
      forall f | f in selected ensures f.index !in InFlightIndices(db.batches, h) && !Complete(progress, h, f.index) {
        var i :| 0 <= i < |files| && files[i] == f;
        ListedIs(files, i);
      }
      ok, run := CreateBatch(h, selected, reservation.reserved, view.applyWorks, freeBytes, now, start, run);
    }

    /** The listing is known: queue what is finished, give back what was stopped, and create what fits. */
    method Look(view: View, files: seq<FileRow>, freeBytes: nat, now: int, ghost round: Round)
      returns (r: Outcome, ghost run: seq<Event>, ghost chosen: seq<FileRow>)
      requires view.files == Some(files) && ListedOnce(files)
      requires round == Round(cfg, db.allocations, Some(freeBytes), true, now)
      requires Looks(round, State(), createdThisTick, view)
      modifies this`createdThisTick, this`progress, db`reservations, db`batches, db`jobs
      ensures Possible(old(State()), run) && After(old(State()), run) == State()
      ensures FilesForward(old(progress), view.torrent.hash, files) ==> NeverBack(old(State()), run)
      ensures IsTurn(round, Turn(view, old(State()), old(createdThisTick), State(), r, chosen))
      ensures if r.created == 0 then CreatesNothing(run) && !CreatesLast(run) else CreatesLast(run)
      ensures r.created <= 1 && createdThisTick == old(createdThisTick) + r.created
      ensures r.created == 1 ==> Total(db.reservations, now, false) + cfg.diskFloor <= freeBytes
      ensures forall k :: k in progress && k.0 != view.torrent.hash ==>
        k in old(progress) && progress[k] == old(progress)[k]
    {
      hide Possible, After, NeverBack, Total, InFlightCount, CanaryAllowed, CreatesLast, CreatesNothing, IsChoice,
           Unreserved, GivesBack, Worth, Created, Refused, Reconciled, QueueUpTo, Listed, Handed, FilesForward, Looks,
           PlannerStopped, HasLiveRow, PipelineIds, SetStates, ReleaseBatches;
      ghost var start := State();
      NoRun(start);
      NothingCreated(start, 0, None, 0);
      run, chosen := [], [];
      var h := view.torrent.hash;
      run := SeeListing(h, files, start, run);
      var queued;
      queued, run := QueueDownloaded(h, files, view, start, run);
      var handled;
      handled, run := ReconcileState(view.torrent, now, round, start, run);
      CreationsOf(run);
      var allowed := createdThisTick < cfg.maxNewPerTick && CanaryAllowed(cfg, h, view.torrent.tags);
      if handled || !allowed || InFlightCount(db.batches, h) >= cfg.maxInflight {
        return Outcome(0, 1, queued), run, chosen;
      }
      var ok;
      ok, run, chosen := Prefetch(view, files, freeBytes, now, round, start, run);
      if !ok {
        CreationsOf(run);
        return Outcome(0, 1, queued), run, chosen;
      }
      createdThisTick := createdThisTick + 1;
      return Outcome(1, 0, queued), run, chosen;
    }

    /**
     One torrent's turn. Whatever happens is a run of the batch state machine, and a batch created
     here leaves the deduplicated ledger total within the free space above the floor.
     */
    method MaybeCreate(view: View, freeBytes: Option<nat>, syncHealthy: bool, now: int)
      returns (r: Outcome, ghost run: seq<Event>, ghost chosen: seq<FileRow>)
      requires view.files.Some? ==> ListedOnce(view.files.value)
      modifies this`createdThisTick, this`progress, db`reservations, db`batches, db`jobs
      ensures Possible(old(State()), run) && After(old(State()), run) == State()
      ensures (view.files.Some? ==> FilesForward(old(progress), view.torrent.hash, view.files.value)) ==>
        NeverBack(old(State()), run)
      ensures
        var round := Round(cfg, db.allocations, freeBytes, syncHealthy, now);
        IsTurn(round, Turn(view, old(State()), old(createdThisTick), State(), r, chosen))
      ensures if r.created == 0 then CreatesNothing(run) && !CreatesLast(run) else CreatesLast(run)
      ensures r.created <= 1 && createdThisTick == old(createdThisTick) + r.created
      ensures r.created == 1 ==>
        && old(createdThisTick) < cfg.maxNewPerTick && CanaryAllowed(cfg, view.torrent.hash, view.torrent.tags)
        && freeBytes.Some? && Total(db.reservations, now, false) + cfg.diskFloor <= freeBytes.value
        && JustCreated(cfg, State(), view, chosen, freeBytes.value, now) && |db.batches| == |old(db.batches)| + 1
        && InFlightCount(db.batches[..|db.batches| - 1], view.torrent.hash) < cfg.maxInflight
      ensures forall k :: k in progress && k.0 != view.torrent.hash ==>
        k in old(progress) && progress[k] == old(progress)[k]
      ensures !syncHealthy ==>
        db.reservations == old(db.reservations) && db.batches == old(db.batches) && db.jobs == old(db.jobs)
    {
      hide Possible, After, NeverBack, Total, InFlightCount, CanaryAllowed, CreatesLast, CreatesNothing, IsChoice,
           JustCreated, IsTurn, FilesForward, ListedOnce;
      ghost var round := Round(cfg, db.allocations, freeBytes, syncHealthy, now);
      ghost var start := State();
      NoRun(start);
      NothingCreated(start, 0, None, 0);
      CreationsOf([]);
      run, chosen := [], [];
      var h := view.torrent.hash;
      var tags := view.torrent.tags;
      if !cfg.enabled || h == "" || "no-batch" in tags || freeBytes.None? {
        NotLookedAt(round, view, start, createdThisTick, Outcome(0, 0, 0));
        return Outcome(0, 0, 0), run, chosen;
      }
      if !syncHealthy {
        NotLookedAt(round, view, start, createdThisTick, Outcome(0, 1, 0));
        return Outcome(0, 1, 0), run, chosen;
      }
      var liveAllowed := CanaryAllowed(cfg, h, tags);
      var inflight := InFlightCount(db.batches, h);
      var tickCapReached := createdThisTick >= cfg.maxNewPerTick;
      if (!liveAllowed && inflight == 0) || (tickCapReached && inflight == 0) || view.files.None? {
        NotLookedAt(round, view, start, createdThisTick, Outcome(0, 1, 0));
        return Outcome(0, 1, 0), run, chosen;
      }
      ghost var made := createdThisTick;
      r, run, chosen := Look(view, view.files.value, freeBytes.value, now, round);
      if r.created == 1 {
        CreatedMeans(round, Turn(view, start, made, State(), r, chosen));
      }
    }

    /** Take note of a file listing; only the proof keeps the progress. */
    ghost method SeeListing(h: string, files: seq<FileRow>, start: World, before: seq<Event>) returns (run: seq<Event>)
      requires Possible(start, before) && After(start, before) == State()
      requires ListedOnce(files)
      modifies this`progress
      ensures Possible(start, run) && After(start, run) == State()
      ensures NeverBack(start, before) && FilesForward(old(progress), h, files) ==> NeverBack(start, run)
      ensures CreatesNothing(before) ==> CreatesNothing(run)
      ensures forall index: nat :: FindFile(files, index).Some? ==>
        (h, index) in progress && progress[(h, index)] == FindFile(files, index).value.progress
      ensures forall k :: k in progress && k.0 != h ==> k in old(progress) && progress[k] == old(progress)[k]
      ensures progress == Listed(old(progress), h, files)
    {
      hide Possible, After, NeverBack, MonotoneProgress, FilesForward;
      var listed := Listed(progress, h, files);
      ListedMoves(progress, h, files);
      forall index: nat | FindFile(files, index).Some?
        ensures (h, index) in listed && listed[(h, index)] == FindFile(files, index).value.progress
      {
        FindFileListed(progress, h, files, index);
      }
      var e := Event.Listing(listed);
      RunExtends(start, before, e);
      run := before + [e];
      progress := listed;
    }

    /** None of the listings of a pass reports a file further back than it was. */
    ghost predicate AllForward(views: seq<View>, p: Progress) {
      forall i :: 0 <= i < |views| && views[i].files.Some? ==>
        FilesForward(p, views[i].torrent.hash, views[i].files.value)
    }

    /**
     One pass over the managed, unfinished torrents. It creates at most the configured number of
     batches, and the whole pass is a run of the batch state machine: it keeps the ledger in step with
     the batches, and live batches disjoint when no listing goes back. Right after each creation the
     deduplicated ledger total is within the free space above the floor. Each of those torrents has
     its turn: what is due is queued, and below the cap nobody goes without a batch for no reason.
     */
    method SyncCompleted(views: seq<View>, freeBytes: Option<nat>, syncHealthy: bool, now: int)
      returns (created: nat, blocked: nat, queued: nat, ghost run: seq<Event>, ghost turns: seq<Turn>)
      requires DistinctViews(views)
      requires forall i :: 0 <= i < |views| && views[i].files.Some? ==> ListedOnce(views[i].files.value)
      modifies this`createdThisTick, this`progress, db`reservations, db`batches, db`jobs
      ensures created == createdThisTick <= cfg.maxNewPerTick
      ensures
        var round := Round(cfg, db.allocations, freeBytes, syncHealthy, now);
        && IsPass(round, old(State()), TurnsOf(views), turns, State(), created)
        && PassMeans(round, views, old(State()), turns, State(), created)
      ensures Possible(old(State()), run) && After(old(State()), run) == State()
      ensures Creations(run) == created && CreationsFit(old(State()), run, cfg.diskFloor, freeBytes, now)
      ensures LedgerInv(old(State())) ==> LedgerInv(State())
      ensures AllForward(views, old(progress)) && Inv(old(State())) ==> Inv(State())
    {
      hide Possible, After, NeverBack, Inv, LedgerInv, FilesForward, ListedOnce, Total, CreationsFit, CreatesNothing,
           CreatesLast, Creations, IsPass, IsTurn, TurnsOf, PassMeans, JustCreated,
           CanaryAllowed, InFlightCount;
      ghost var start := State();
      ghost var round := Round(cfg, db.allocations, freeBytes, syncHealthy, now);
      NoTurnsYet(round, start);
      NoRun(start);
      NothingCreated(start, cfg.diskFloor, freeBytes, now);
      ghost var forward := AllForward(views, progress);
      createdThisTick, created, blocked, queued, run, turns := 0, 0, 0, 0, [], [];
      for i := 0 to |views|
        invariant created == createdThisTick <= cfg.maxNewPerTick
        invariant Possible(start, run) && After(start, run) == State()
        invariant Creations(run) == created && CreationsFit(start, run, cfg.diskFloor, freeBytes, now)
        invariant IsPass(round, start, TurnsOf(views[..i]), turns, State(), created)
        invariant forward ==> NeverBack(start, run)
        invariant forward ==> forall k :: i <= k < |views| && views[k].files.Some? ==>
          FilesForward(progress, views[k].torrent.hash, views[k].files.value)
      {
        var view := views[i];
        TurnsNext(views, i);
        if !(IsManaged(view.torrent) && !IsCompleted(view.torrent)) {
          continue;
        }
        ghost var before, found, made := progress, State(), createdThisTick;
        var r; ghost var more; ghost var chosen;
        r, more, chosen := MaybeCreate(view, freeBytes, syncHealthy, now);
        RunsJoin(start, run, more);
        CreationsStillFit(start, run, more, cfg.diskFloor, freeBytes, now);
        CreationsCount(run, more);
        run := run + more;
        forall k | forward && i < k < |views| && views[k].files.Some?
          ensures FilesForward(progress, views[k].torrent.hash, views[k].files.value)
        {
          assert views[i].torrent.hash != views[k].torrent.hash;
          ForwardElsewhere(before, progress, view.torrent.hash, views[k].torrent.hash, views[k].files.value);
        }
        ghost var turn := Turn(view, found, made, State(), r, chosen);
        PassGoesOn(round, start, TurnsOf(views[..i]), turns, found, made, turn);
        turns := turns + [turn];
        created := created + r.created;
        blocked := blocked + r.blocked;
        queued := queued + r.queued;
      }
      assert views[..|views|] == views;
      PassIs(round, views, start, turns, State(), created);
      if LedgerInv(start) {
        LedgerRun(start, run);
      }
      if forward && Inv(start) {
        InvRun(start, run);
      }
    }
  }

  predicate IsCompleted(t: Torrent) {
    t.size > 0 && (t.amountLeft == 0 || t.progress >= 1.0)
  }

  lemma NoRun(w: World)
    ensures Possible(w, []) && After(w, []) == w && NeverBack(w, [])
  {
  }

  lemma {:induction false} ListedIs(files: seq<FileRow>, i: nat)
    requires ListedOnce(files) && i < |files|
    ensures FindFile(files, files[i].index) == Some(files[i])
  {
    var n := |files| - 1;
    if i < n {
      ListedIs(files[..n], i);
      assert files[..n][i] == files[i];
    }
  }

  lemma ForwardElsewhere(before: Progress, after: Progress, touched: string, h: string, files: seq<FileRow>)
    requires FilesForward(before, h, files) && h != touched
    requires forall k :: k in after && k.0 != touched ==> k in before && after[k] == before[k]
    ensures FilesForward(after, h, files)
  {
  }
}
