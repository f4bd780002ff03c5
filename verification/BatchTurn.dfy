/**
 One torrent's turn in the file-batch pass, on values: what is listed, which finished batches are handed
 to the upload queue, which files the next batch takes, and whether it is created at all.
 */
module BatchTurn {
  import opened Options
  import opened Ledger
  import opened LedgerUpdates
  import opened Torrents
  import opened BatchLifecycle
  import opened BatchSelection
  import opened BatchKnapsack
  import Tables
  import Sums
  import Order

  datatype Config = Config(
    enabled: bool,
    diskFloor: nat,
    slack: nat,
    maxBatchBytes: nat,
    maxInflight: int,
    minEfficiency: real,
    reservationTtl: nat,
    liveVerify: bool,
    allowHashes: set<string>,
    allowTag: string,
    maxNewPerTick: nat,
    maxLiveBatchBytes: Option<nat>)

  /** A torrent and what the outside world answers about it this tick. */
  datatype View = View(
    torrent: Torrent,
    files: Option<seq<FileRow>>,   // the file listing, unless asking for it failed
    pieceSize: Option<nat>,
    uploadable: map<nat, nat>,     // batches whose files are all found on disk, and their bytes
    parked: set<nat>,              // batches whose files qBittorrent agrees to stop downloading
    backpressureAllows: bool,
    applyWorks: bool)

  function PieceSize(view: View): nat {
    if view.pieceSize.None? || view.pieceSize.value < 1 then 1 else view.pieceSize.value
  }

  datatype Outcome = Outcome(created: nat, blocked: nat, queued: nat)

  // ---------------------------------------------------------------------------------------------
  // Listings and progress
  // ---------------------------------------------------------------------------------------------

  predicate ListedOnce(files: seq<FileRow>) {
    forall i, j :: 0 <= i < j < |files| ==> files[i].index != files[j].index
  }

  function Listed(p: Progress, h: string, files: seq<FileRow>): Progress {
    if files == [] then p
    else
      var n := |files| - 1;
      Listed(p, h, files[..n])[(h, files[n].index) := files[n].progress]
  }

  /** No file of this torrent is reported further back than before. */
  predicate FilesForward(p: Progress, h: string, files: seq<FileRow>) {
    forall i :: 0 <= i < |files| && (h, files[i].index) in p ==> files[i].progress >= p[(h, files[i].index)]
  }

  /** A listing moves only the files it lists, and forward if each of them moved forward. */
  lemma {:induction false} ListedMoves(p: Progress, h: string, files: seq<FileRow>)
    requires ListedOnce(files)
    ensures forall k: FileId :: k.0 != h || (forall i :: 0 <= i < |files| ==> files[i].index != k.1) ==>
      (k in Listed(p, h, files) <==> k in p) && (k in p ==> Listed(p, h, files)[k] == p[k])
    ensures FilesForward(p, h, files) ==> MonotoneProgress(p, Listed(p, h, files))
  {
    if files != [] {
      var n := |files| - 1;
      ListedMoves(p, h, files[..n]);
      assert forall i :: 0 <= i < n ==> files[..n][i] == files[i];
      var before := Listed(p, h, files[..n]);
      var k := (h, files[n].index);
      assert k in before <==> k in p;
      assert k in p ==> before[k] == p[k];
    }
  }

  lemma {:induction false} ListedAt(p: Progress, h: string, files: seq<FileRow>, i: nat)
    requires ListedOnce(files) && i < |files|
    ensures (h, files[i].index) in Listed(p, h, files) && Listed(p, h, files)[(h, files[i].index)] == files[i].progress
  {
    var n := |files| - 1;
    if i < n {
      ListedAt(p, h, files[..n], i);
      assert files[..n][i] == files[i];
    }
  }

  function FindFile(files: seq<FileRow>, index: nat): Option<FileRow> {
    if files == [] then None
    else if files[|files| - 1].index == index then Some(files[|files| - 1])
    else FindFile(files[..|files| - 1], index)
  }

  lemma {:induction false} FindFileListed(p: Progress, h: string, files: seq<FileRow>, index: nat)
    requires FindFile(files, index).Some?
    ensures (h, index) in Listed(p, h, files)
      && Listed(p, h, files)[(h, index)] == FindFile(files, index).value.progress
  {
    var n := |files| - 1;
    if files[n].index != index {
      FindFileListed(p, h, files[..n], index);
    }
  }

  lemma FinishedIsComplete(indices: seq<nat>, files: seq<FileRow>, p: Progress, h: string)
    requires AllFinished(indices, files)
    requires forall index: nat :: FindFile(files, index).Some? ==>
      (h, index) in p && p[(h, index)] == FindFile(files, index).value.progress
    ensures forall i :: i in indices ==> Complete(p, h, i)
  {
  }

  lemma NewJobElsewhere(jobs: seq<UploadJob>, j: UploadJob)
    ensures forall b: nat :: b != j.batchId ==> (HasJob(jobs + [j], b) <==> HasJob(jobs, b))
  {
    forall b: nat | b != j.batchId ensures HasJob(jobs + [j], b) <==> HasJob(jobs, b) {
      if HasJob(jobs, b) {
        var i :| 0 <= i < |jobs| && jobs[i].batchId == b;
        assert (jobs + [j])[i].batchId == b;
      }
      if HasJob(jobs + [j], b) {
        var i :| 0 <= i < |jobs + [j]| && (jobs + [j])[i].batchId == b;
        assert jobs[i].batchId == b;
      }
    }
  }

  /** Every file of the batch is listed and finished. */
  predicate AllFinished(indices: seq<nat>, files: seq<FileRow>) {
    && indices != []
    && forall i :: 0 <= i < |indices| ==>
         FindFile(files, indices[i]).Some? && FindFile(files, indices[i]).value.progress >= 1.0
  }

  /** The batch is this torrent's, downloaded, finished, found on disk, parked, and not yet queued. */
  predicate Due(batches: seq<BatchRow>, jobs: seq<UploadJob>, b: nat, h: string, files: seq<FileRow>, view: View)
    requires b < |batches|
  {
    && batches[b].hash == h
    && (batches[b].state.Downloading? || batches[b].state.AppliedToQbt? || batches[b].state.Downloaded?)
    && !HasJob(jobs, b) && AllFinished(batches[b].indices, files)
    && b in view.uploadable && view.uploadable[b] > 0 && b in view.parked
  }

  /** The same said of the tables: no job, and each file in the listing with all its bytes. */
  ghost predicate IsDue(batches: seq<BatchRow>, jobs: seq<UploadJob>, b: nat, view: View)
    requires b < |batches|
  {
    && batches[b].hash == view.torrent.hash
    && (batches[b].state.Downloading? || batches[b].state.AppliedToQbt? || batches[b].state.Downloaded?)
    && (forall j :: 0 <= j < |jobs| ==> jobs[j].batchId != b)
    && batches[b].indices != [] && view.files.Some?
    && (forall i :: i in batches[b].indices ==>
          exists f :: f in view.files.value && f.index == i && f.progress >= 1.0)
    && b in view.uploadable && view.uploadable[b] > 0 && b in view.parked
  }

  lemma {:induction false} FindsListed(files: seq<FileRow>, i: nat)
    requires ListedOnce(files)
    ensures FindFile(files, i).Some? && FindFile(files, i).value.progress >= 1.0
       <==> exists f :: f in files && f.index == i && f.progress >= 1.0
  {
    if files != [] {
      var n := |files| - 1;
      FindsListed(files[..n], i);
      assert files == files[..n] + [files[n]];
      if files[n].index == i {
        forall f | f in files && f.index == i ensures f == files[n] {
          var k :| 0 <= k < |files| && files[k] == f;
        }
      }
    }
  }

  lemma DueIs(batches: seq<BatchRow>, jobs: seq<UploadJob>, b: nat, view: View)
    requires b < |batches| && view.files.Some? && ListedOnce(view.files.value)
    ensures Due(batches, jobs, b, view.torrent.hash, view.files.value, view) <==> IsDue(batches, jobs, b, view)
  {
    var indices, files := batches[b].indices, view.files.value;
    forall i ensures FindFile(files, i).Some? && FindFile(files, i).value.progress >= 1.0
       <==> exists f :: f in files && f.index == i && f.progress >= 1.0
    {
      FindsListed(files, i);
    }
    hide FindFile, ListedOnce;
    FinishedByIndex(indices, files);
    hide AllFinished;
  }

  lemma FinishedByIndex(indices: seq<nat>, files: seq<FileRow>)
    ensures AllFinished(indices, files) <==>
      && indices != []
      && forall i :: i in indices ==> FindFile(files, i).Some? && FindFile(files, i).value.progress >= 1.0
  {
    hide FindFile;
    if forall i :: i in indices ==> FindFile(files, i).Some? && FindFile(files, i).value.progress >= 1.0 {
      forall k | 0 <= k < |indices|
        ensures FindFile(files, indices[k]).Some? && FindFile(files, indices[k]).value.progress >= 1.0
      {
        assert indices[k] in indices;
      }
    }
  }

  /** A state in which the planner has stopped the torrent. */
  predicate PlannerStopped(alloc: map<string, Tables.Allocation>, h: string) {
    h in alloc && (var d := alloc[h].desired; d.Soak? || d.SoakCooldown? || d.Dead? || d.CarouselProbe?)
  }

  function PipelineIds(batches: seq<BatchRow>, h: string): set<nat> {
    set b | 0 <= b < |batches| && batches[b].hash == h && Pipeline(batches[b].state)
  }

  predicate HasLiveRow(rows: Table, ids: set<nat>, now: int) {
    exists i :: 0 <= i < |rows| && rows[i].kind.Batch? && Live(rows[i], now) && OfBatch(rows[i], ids)
  }

  // ---------------------------------------------------------------------------------------------
  // Selection
  // ---------------------------------------------------------------------------------------------

  function Keep(files: seq<FileRow>, keep: FileRow -> bool): seq<FileRow> {
    if files == [] then []
    else (if keep(files[0]) then [files[0]] else []) + Keep(files[1..], keep)
  }

  function Wanted(taken: set<nat>): FileRow -> bool {
    (f: FileRow) => f.index !in taken && f.progress < 1.0 && f.size > 0 && Selectable(f)
  }

  function IndicesOf(fs: seq<FileRow>): seq<nat> {
    seq(|fs|, i requires 0 <= i < |fs| => fs[i].index)
  }

  const EXACT_LIMIT := 18

  function LimitsFor(cfg: Config, pieceSize: nat): Limits {
    Limits(pieceSize, cfg.slack, cfg.maxBatchBytes,
           if cfg.liveVerify then cfg.maxLiveBatchBytes else None)
  }

  /** An unfinished file of some size, wanted by its name, and in no batch in flight. */
  predicate Takeable(f: FileRow, taken: set<nat>) {
    f.index !in taken && f.progress < 1.0 && f.mediaName && f.size >= 50 * 1024 * 1024
  }

  /** No admissible collection of files that may be taken is better. */
  ghost predicate BestOfAll(files: seq<FileRow>, taken: set<nat>, limits: Limits, budget: nat, best: seq<FileRow>) {
    forall s: seq<FileRow> ::
      multiset(s) <= multiset(files) && (forall f :: f in s ==> Takeable(f, taken)) && Admissible(s, limits, budget) ==>
        best != [] && NoBetter(s, best, limits)
  }

  /**
   What the search over a listing comes back with: files that may be taken, within the budget and every
   limit; the best such collection of all while there are at most eighteen to choose from, and beyond
   that one no better than which is any single one of the largest.
   */
  ghost predicate IsChoice(cfg: Config, files: seq<FileRow>, pieceSize: nat, budget: nat, taken: set<nat>,
                           best: seq<FileRow>) {
    var limits :=
      Limits(pieceSize, cfg.slack, cfg.maxBatchBytes, if cfg.liveVerify then cfg.maxLiveBatchBytes else None);
    var wanted := Keep(Order.Sort(files, BY_INDEX), Wanted(taken));
    && (budget == 0 ==> best == [])
    && (best != [] ==> Admissible(best, limits, budget))
    && multiset(best) <= multiset(files)
    && (forall f :: f in best ==> Takeable(f, taken))
    && (budget > 0 && |wanted| <= 18 ==> BestOfAll(files, taken, limits, budget, best))
    && (budget > 0 && |wanted| > 18 && SlackCoversRounding(limits) ==> BeatsEachRanked(wanted, limits, budget, best))
  }

  lemma ChoiceMayBeTaken(cfg: Config, files: seq<FileRow>, pieceSize: nat, budget: nat, taken: set<nat>,
                         best: seq<FileRow>)
    requires IsChoice(cfg, files, pieceSize, budget, taken, best)
    ensures forall f :: f in best ==> f in files && f.index !in taken && f.progress < 1.0
  {
    hide Keep, Wanted, Admissible, BestOfAll, BeatsEachRanked, Order.Sort;
    forall f | f in best ensures f in files {
      assert f in multiset(best);
      assert f in multiset(files);
    }
  }

  lemma WantedMeans(f: FileRow, taken: set<nat>)
    ensures Wanted(taken)(f) <==> Takeable(f, taken)
  {
  }

  lemma {:induction false} KeepCounts(files: seq<FileRow>, keep: FileRow -> bool, f: FileRow)
    ensures multiset(Keep(files, keep))[f] == if keep(f) then multiset(files)[f] else 0
  {
    if files != [] {
      KeepCounts(files[1..], keep, f);
      assert files == [files[0]] + files[1..];
    }
  }

  /** What is wanted of a listing, with its repetitions. */
  lemma WantedContents(files: seq<FileRow>, taken: set<nat>)
    ensures
      var wanted := Keep(Order.Sort(files, BY_INDEX), Wanted(taken));
      && multiset(wanted) <= multiset(files)
      && (forall f :: f in wanted <==> f in files && Takeable(f, taken))
      && forall s: seq<FileRow> :: multiset(s) <= multiset(files) && (forall f :: f in s ==> Takeable(f, taken)) ==>
           multiset(s) <= multiset(wanted)
  {
    hide Keep, Wanted, Takeable;
    var sorted := Order.Sort(files, BY_INDEX);
    var wanted := Keep(sorted, Wanted(taken));
    Order.SortIsSorted(files, BY_INDEX);
    forall f
      ensures multiset(wanted)[f] == if Takeable(f, taken) then multiset(files)[f] else 0
      ensures f in wanted <==> f in files && Takeable(f, taken)
    {
      KeepCounts(sorted, Wanted(taken), f);
      WantedMeans(f, taken);
      assert f in wanted <==> multiset(wanted)[f] > 0;
      assert f in files <==> multiset(files)[f] > 0;
    }
    forall s: seq<FileRow> | multiset(s) <= multiset(files) && (forall f :: f in s ==> Takeable(f, taken))
      ensures multiset(s) <= multiset(wanted)
    {
      forall f ensures multiset(s)[f] <= multiset(wanted)[f] {
        assert f in s <==> multiset(s)[f] > 0;
        assert multiset(s)[f] <= multiset(files)[f];
      }
    }
  }

  /** The best of the marked subsets is the best of all collections. */
  lemma BestIsOfAll(files: seq<FileRow>, taken: set<nat>, limits: Limits, budget: nat, best: seq<FileRow>)
    requires IsBest(Keep(Order.Sort(files, BY_INDEX), Wanted(taken)), limits, budget, best)
    ensures BestOfAll(files, taken, limits, budget, best)
  {
    hide Keep, Wanted, Takeable, Admissible, NoBetter, IsBest, Choose, Order.Sort;
    var wanted := Keep(Order.Sort(files, BY_INDEX), Wanted(taken));
    WantedContents(files, taken);
    forall s: seq<FileRow> |
      multiset(s) <= multiset(files) && (forall f :: f in s ==> Takeable(f, taken)) && Admissible(s, limits, budget)
      ensures best != [] && NoBetter(s, best, limits)
    {
      var marks := ContentsAreChosen(wanted, multiset(s));
      BestMeans(wanted, limits, budget, best, marks);
      SameContents(s, Choose(wanted, marks), limits, budget, best);
    }
  }

  lemma SameContents(a: seq<FileRow>, b: seq<FileRow>, limits: Limits, budget: nat, best: seq<FileRow>)
    requires multiset(a) == multiset(b)
    ensures Admissible(a, limits, budget) <==> Admissible(b, limits, budget)
    ensures NoBetter(a, best, limits) <==> NoBetter(b, best, limits)
  {
    hide Admissible, NoBetter, Valid, Score, Order.LexLe;
    ScoreRearranged(a, b, limits, budget);
    ValidIsAdmissible(a, limits, budget);
    ValidIsAdmissible(b, limits, budget);
    ScoreMeans(a, best, limits);
    ScoreMeans(b, best, limits);
  }

  /** The unfinished, wanted files of no batch in flight, searched for the best batch that fits. */
  method SelectBatchFiles(cfg: Config, files: seq<FileRow>, pieceSize: nat, budget: nat, taken: set<nat>)
    returns (best: seq<FileRow>)
    ensures best != [] ==> budget > 0 && Valid(best, LimitsFor(cfg, pieceSize), budget)
    ensures IsChoice(cfg, files, pieceSize, budget, taken, best)
    ensures budget > 0 && |Keep(Order.Sort(files, BY_INDEX), Wanted(taken))| <= EXACT_LIMIT ==>
      IsBest(Keep(Order.Sort(files, BY_INDEX), Wanted(taken)), LimitsFor(cfg, pieceSize), budget, best)
    ensures budget > 0 && |Keep(Order.Sort(files, BY_INDEX), Wanted(taken))| > EXACT_LIMIT ==>
      GoodBatch(Keep(Order.Sort(files, BY_INDEX), Wanted(taken)), LimitsFor(cfg, pieceSize), budget, best)
  {
    hide Valid, IsBest, GoodBatch, Keep, Choose, Score, Order.LexLe, Ranked, Order.Sort, Wanted, Admissible, Takeable,
         NoBetter, BestOfAll, BeatsEachRanked, IsAnswer, SlackCoversRounding;
    var sorted := Order.Sort(files, BY_INDEX);
    var candidates := Keep(sorted, Wanted(taken));
    var limits := LimitsFor(cfg, pieceSize);
    WantedContents(files, taken);
    if budget == 0 {
      return [];
    }
    if |candidates| <= EXACT_LIMIT {
      best := BestExact(candidates, limits, budget);
      BestIsValid(candidates, limits, budget, best);
      BestIsOfAll(files, taken, limits, budget, best);
    } else {
      best := BestKnapsack(candidates, limits, budget);
      GoodIsValid(candidates, limits, budget, best);
    }
    forall f | f in best ensures Takeable(f, taken) {
      assert f in multiset(best);
      assert f in multiset(candidates);
    }
  }

  lemma {:induction false} ChoiceContents(cands: seq<FileRow>, marks: seq<bool>)
    requires |marks| == |cands|
    ensures multiset(Choose(cands, marks)) <= multiset(cands)
  {
    if cands != [] {
      ChoiceContents(cands[1..], marks[1..]);
      assert cands == [cands[0]] + cands[1..];
    }
  }

  lemma BestIsValid(cands: seq<FileRow>, limits: Limits, budget: nat, best: seq<FileRow>)
    requires IsBest(cands, limits, budget, best)
    ensures best != [] ==> Valid(best, limits, budget)
    ensures multiset(best) <= multiset(cands)
  {
    hide Valid, Choose, Score;
    if best != [] {
      var marks: seq<bool> :| |marks| == |cands| && multiset(best) == multiset(Choose(cands, marks));
      ChoiceContents(cands, marks);
    }
  }

  lemma GoodIsValid(cands: seq<FileRow>, limits: Limits, budget: nat, best: seq<FileRow>)
    requires GoodBatch(cands, limits, budget, best)
    ensures best != [] ==> Valid(best, limits, budget)
    ensures multiset(best) <= multiset(cands)
  {
    hide Valid, Score, Ranked;
  }

  // ---------------------------------------------------------------------------------------------
  // Creating a batch within the budget
  // ---------------------------------------------------------------------------------------------

  /** A new batch row raises the ledger by at most its own bytes. */
  lemma CreationRaisesBy(rows: Table, h: string, id: nat, bytes: nat, expires: int, now: int)
    ensures Total(rows + [Row(Some(h), Some(id), Batch, bytes, RowState.Active, Some(expires))], now, false)
         <= Total(rows, now, false) + bytes
  {
    var r := Row(Some(h), Some(id), Batch, bytes, RowState.Active, Some(expires));
    var rows' := rows + [r];
    var key := KeyOf(r, |rows|);
    forall k ensures Sums.At(Needs(rows', now, false), k)
      <= Sums.At(Needs(rows, now, false), k) + Sums.At(map[key := bytes], k) {
      AtNeeds(rows, now, false, k);
      AtNeeds(rows', now, false, k);
      ColAppend(rows, r, now, k, ActiveColumn);
      ColAppend(rows, r, now, k, BatchColumn);
      ColAppend(rows, r, now, k, SoakColumn);
      ColAppend(rows, r, now, k, RestColumn);
    }
    Sums.SumAtMost(Needs(rows', now, false), Needs(rows, now, false), map[key := bytes]);
    Sums.SumSingle(key, bytes);
  }

  function InFlightCount(batches: seq<BatchRow>, h: string): nat {
    if batches == [] then 0
    else
      var n := |batches| - 1;
      InFlightCount(batches[..n], h) + if batches[n].hash == h && InFlight(batches[n].state) then 1 else 0
  }

  function InFlightIds(batches: seq<BatchRow>, h: string): set<nat> {
    set b | 0 <= b < |batches| && batches[b].hash == h && InFlight(batches[b].state)
  }

  lemma OneMoreInFlight(batches: seq<BatchRow>, h: string)
    requires batches != []
    ensures
      var n := |batches| - 1;
      && n !in InFlightIds(batches[..n], h)
      && InFlightIds(batches, h)
           == InFlightIds(batches[..n], h) + if batches[n].hash == h && InFlight(batches[n].state) then {n} else {}
  {
    hide InFlight;
    var n := |batches| - 1;
    forall b: nat ensures b in InFlightIds(batches, h) <==>
      b in InFlightIds(batches[..n], h) || (b == n && batches[n].hash == h && InFlight(batches[n].state))
    {
      if b < n {
        assert batches[..n][b] == batches[b];
      }
    }
  }

  /** A file is taken while it is in a batch of its torrent in flight. */
  lemma TakenMeans(batches: seq<BatchRow>, h: string, i: nat)
    ensures i in InFlightIndices(batches, h) <==> exists b :: b in InFlightIds(batches, h) && i in batches[b].indices
  {
    if b :| b in InFlightIds(batches, h) && i in batches[b].indices {
      assert batches[b].hash == h && InFlight(batches[b].state);
    }
  }

  /** A known piece size counts as it is, but for zero. */
  lemma PieceSizeMeans(view: View)
    ensures view.pieceSize.Some? && view.pieceSize.value > 0 ==> PieceSize(view) == view.pieceSize.value
    ensures PieceSize(view) >= 1 && (view.pieceSize == Some(0) ==> PieceSize(view) == 1)
  {
  }

  /** What is counted are the batches in flight. */
  lemma {:induction false} InFlightCountIs(batches: seq<BatchRow>, h: string)
    ensures InFlightCount(batches, h) == |InFlightIds(batches, h)|
  {
    if batches == [] {
      assert InFlightIds(batches, h) == {};
    } else {
      OneMoreInFlight(batches, h);
      InFlightCountIs(batches[..|batches| - 1], h);
      hide InFlightIds, InFlight;
    }
  }

  /** A refused batch's row, released again, leaves the ledger no larger than it was. */
  lemma RefusalRaisesNothing(rows: Table, r: Row, id: nat, now: int)
    requires r.batchId == Some(id)
    ensures Total(ReleaseAllOf(rows + [r], id), now, false) <= Total(rows, now, false)
  {
    var released, refused := rows + [Release(r)], ReleaseAllOf(rows + [r], id);
    forall i, k, c | 0 <= i < |refused| ensures Part(refused[i], i, now, k, c) <= Part(released[i], i, now, k, c) {
      assert i < |rows| ==> (rows + [r])[i] == rows[i];
    }
    PartsShrink(released, refused, now);
    forall k ensures Sums.At(Needs(released, now, false), k) == Sums.At(Needs(rows, now, false), k) {
      AtNeeds(rows, now, false, k);
      AtNeeds(released, now, false, k);
      forall c ensures Col(released, now, k, c) == Col(rows, now, k, c) {
        ColAppend(rows, Release(r), now, k, c);
      }
    }
    Sums.SumSame(Needs(released, now, false), Needs(rows, now, false));
  }

  /** What a batch of the torrent becomes: handed to the upload queue, pinned at its bytes, when it is due. */
  function Handed(batches: seq<BatchRow>, jobs: seq<UploadJob>, b: nat, h: string, files: seq<FileRow>, view: View)
    : BatchRow
    requires b < |batches|
  {
    if Due(batches, jobs, b, h, files, view) then batches[b].(state := UploadQueued, pinned := view.uploadable[b])
    else batches[b]
  }

  // ---------------------------------------------------------------------------------------------
  // One turn
  // ---------------------------------------------------------------------------------------------

  /** What every turn of a pass is given. */
  datatype Round = Round(
    cfg: Config,
    alloc: map<string, Tables.Allocation>,
    freeBytes: Option<nat>,
    healthy: bool,
    now: int)

  /** One torrent's turn: the state before, how many batches the pass had created, and what came of it. */
  datatype Turn = Turn(view: View, before: World, made: nat, after: World, outcome: Outcome, chosen: seq<FileRow>)

  /** Outside live verification every torrent may get batches, and in it those on a list, if there is one. */
  predicate CanaryAllowed(cfg: Config, h: string, tags: set<string>) {
    || !cfg.liveVerify
    || (cfg.allowHashes == {} && cfg.allowTag == "")
    || h in cfg.allowHashes
    || (cfg.allowTag != "" && cfg.allowTag in tags)
  }

  /** The pipeline is on for the torrent, the free space is known and the sync healthy. */
  predicate Open(round: Round, view: View) {
    && round.cfg.enabled && view.torrent.hash != "" && "no-batch" !in view.torrent.tags
    && round.freeBytes.Some? && round.healthy
  }

  /** The listing is looked at: there are batches in flight, or a new one may be created. */
  predicate Looks(round: Round, w: World, made: nat, view: View) {
    && Open(round, view) && view.files.Some?
    && (|| InFlightCount(w.batches, view.torrent.hash) > 0
        || (CanaryAllowed(round.cfg, view.torrent.hash, view.torrent.tags) && made < round.cfg.maxNewPerTick))
  }

  /** The first of these batches handed to the upload queue, as far as they are due. */
  function QueueUpTo(w: World, h: string, files: seq<FileRow>, view: View, upTo: nat): (q: World)
    requires upTo <= |w.batches|
    ensures |q.batches| == |w.batches| && q.progress == w.progress
  {
    if upTo == 0 then w
    else
      var b := upTo - 1;
      var q := QueueUpTo(w, h, files, view, b);
      if Due(w.batches, w.jobs, b, h, files, view) then
        var size := view.uploadable[b];
        World(PinCleanup(ReleaseBatches(q.rows, {b}), b, h, size),
              q.batches[b := q.batches[b].(state := UploadQueued, pinned := size)],
              q.jobs + [UploadJob(b, size, JobQueued, 0, None)],
              q.progress)
      else q
  }

  lemma QueuedNone(w: World, h: string, files: seq<FileRow>, view: View)
    ensures QueueUpTo(w, h, files, view, 0) == w
  {
  }

  lemma QueuedNext(w: World, h: string, files: seq<FileRow>, view: View, b: nat)
    requires b < |w.batches|
    ensures
      var q, q' := QueueUpTo(w, h, files, view, b), QueueUpTo(w, h, files, view, b + 1);
      if && w.batches[b].hash == h
         && (w.batches[b].state.Downloading? || w.batches[b].state.AppliedToQbt? || w.batches[b].state.Downloaded?)
         && !HasJob(w.jobs, b) && AllFinished(w.batches[b].indices, files)
         && b in view.uploadable && view.uploadable[b] > 0 && b in view.parked
      then
        q' == World(PinCleanup(ReleaseBatches(q.rows, {b}), b, h, view.uploadable[b]),
                    q.batches[b := q.batches[b].(state := UploadQueued, pinned := view.uploadable[b])],
                    q.jobs + [UploadJob(b, view.uploadable[b], JobQueued, 0, None)], q.progress)
      else q' == q
  {
    hide PinCleanup, ReleaseBatches, HasJob, AllFinished;
  }

  /** The listing noted, and every finished batch of the torrent handed to the upload queue. */
  function Queued(w: World, view: View): World
    requires view.files.Some?
  {
    var h, files := view.torrent.hash, view.files.value;
    QueueUpTo(w.(progress := Listed(w.progress, h, files)), h, files, view, |w.batches|)
  }

  /** The torrent stands still with batches under way, and the planner stopped it or they are reserved. */
  predicate GivesBack(round: Round, w: World, torrent: Torrent) {
    var ids := PipelineIds(w.batches, torrent.hash);
    && ids != {} && torrent.stopped
    && (PlannerStopped(round.alloc, torrent.hash) || HasLiveRow(w.rows, ids, round.now))
  }

  /** That is: the torrent is stopped with a batch reserved or under way, and for one of two reasons. */
  lemma GivesBackMeans(round: Round, w: World, torrent: Torrent)
    ensures GivesBack(round, w, torrent) <==>
      && torrent.stopped
      && (exists b :: 0 <= b < |w.batches| && w.batches[b].hash == torrent.hash && UnderWay(w.batches[b].state))
      && (|| (torrent.hash in round.alloc
              && var d := round.alloc[torrent.hash].desired;
                 d.Soak? || d.SoakCooldown? || d.Dead? || d.CarouselProbe?)
          || exists i, b :: 0 <= i < |w.rows| && 0 <= b < |w.batches|
               && w.batches[b].hash == torrent.hash && UnderWay(w.batches[b].state)
               && w.rows[i].kind.Batch? && w.rows[i].batchId == Some(b) && w.rows[i].state.Active?
               && (w.rows[i].expiresAt.None? || w.rows[i].expiresAt.value > round.now))
  {
    var ids := PipelineIds(w.batches, torrent.hash);
    forall b: nat ensures b in ids <==>
      b < |w.batches| && w.batches[b].hash == torrent.hash && UnderWay(w.batches[b].state)
    {
    }
    hide PipelineIds, Pipeline, UnderWay;
  }

  predicate UnderWay(s: BatchState) {
    s.Reserved? || s.AppliedToQbt? || s.Downloading?
  }

  /** In live verification with a list, exactly the torrents on it by hash or tag are let through. */
  lemma CanaryMeans(cfg: Config, h: string, tags: set<string>)
    requires cfg.liveVerify && (cfg.allowHashes != {} || cfg.allowTag != "")
    ensures CanaryAllowed(cfg, h, tags) <==> h in cfg.allowHashes || (cfg.allowTag != "" && cfg.allowTag in tags)
  {
  }

  function Reconciled(round: Round, w: World, torrent: Torrent): World {
    var ids := PipelineIds(w.batches, torrent.hash);
    if ids != {} && torrent.stopped && PlannerStopped(round.alloc, torrent.hash) then
      w.(batches := SetStates(w.batches, ids, PausedByPlanner), rows := ReleaseBatches(w.rows, ids))
    else w
  }

  /** Every gate before the search is open. */
  predicate Searches(round: Round, w: World, made: nat, view: View) {
    && !GivesBack(round, w, view.torrent)
    && made < round.cfg.maxNewPerTick && CanaryAllowed(round.cfg, view.torrent.hash, view.torrent.tags)
    && InFlightCount(w.batches, view.torrent.hash) < round.cfg.maxInflight
    && view.pieceSize.Some?
  }

  /** The free bytes above the floor that nothing has reserved. */
  ghost function Unreserved(round: Round, rows: Table): nat
    requires round.freeBytes.Some?
  {
    var taken := round.cfg.diskFloor + Total(rows, round.now, false);
    if round.freeBytes.value < taken then 0 else round.freeBytes.value - taken
  }

  function ClaimFor(round: Round, view: View, chosen: seq<FileRow>): nat {
    Claim(chosen, LimitsFor(round.cfg, PieceSize(view)))
  }

  /** The choice wastes little enough, and upload has room for it. */
  predicate Worth(round: Round, view: View, chosen: seq<FileRow>) {
    && chosen != []
    && Share(chosen, LimitsFor(round.cfg, PieceSize(view))) >= round.cfg.minEfficiency
    && view.backpressureAllows
  }

  function BatchClaim(round: Round, w: World, view: View, chosen: seq<FileRow>): Row {
    Row(Some(view.torrent.hash), Some(|w.batches|), Batch, ClaimFor(round, view, chosen), RowState.Active,
        Some(round.now + round.cfg.reservationTtl))
  }

  function Created(round: Round, w: World, view: View, chosen: seq<FileRow>): World {
    w.(batches := w.batches + [BatchRow(view.torrent.hash, Downloading, IndicesOf(chosen), 0)],
       rows := w.rows + [BatchClaim(round, w, view, chosen)])
  }

  /** qBittorrent refused: the batch is failed and its reservation released again. */
  function Refused(round: Round, w: World, view: View, chosen: seq<FileRow>): World {
    w.(batches := w.batches + [BatchRow(view.torrent.hash, BatchState.Failed, IndicesOf(chosen), 0)],
       rows := ReleaseAllOf(w.rows + [BatchClaim(round, w, view, chosen)], |w.batches|))
  }

  /** The batch created last is this one, for this torrent, of exactly what the selection reserves. */
  predicate JustCreated(cfg: Config, w: World, view: View, chosen: seq<FileRow>, freeBytes: nat, now: int) {
    var limits := LimitsFor(cfg, PieceSize(view));
    var reservation := ReservationFor(chosen, limits);
    && view.pieceSize.Some? && view.backpressureAllows && view.applyWorks
    && Valid(chosen, limits, freeBytes) && reservation.efficiency >= cfg.minEfficiency
    && |w.batches| > 0
    && w.batches[|w.batches| - 1] == BatchRow(view.torrent.hash, Downloading, IndicesOf(chosen), 0)
    && |w.rows| > 0
    && w.rows[|w.rows| - 1] == Row(Some(view.torrent.hash), Some(|w.batches| - 1), Batch, reservation.reserved,
                                   RowState.Active, Some(now + cfg.reservationTtl))
  }

  lemma CreatedIsJust(round: Round, w: World, view: View, files: seq<FileRow>, chosen: seq<FileRow>)
    requires round.freeBytes.Some? && view.pieceSize.Some? && Worth(round, view, chosen) && view.applyWorks
    requires IsChoice(round.cfg, files, PieceSize(view), Unreserved(round, w.rows),
                      InFlightIndices(w.batches, view.torrent.hash), chosen)
    ensures JustCreated(round.cfg, Created(round, w, view, chosen), view, chosen, round.freeBytes.value, round.now)
    ensures |Created(round, w, view, chosen).batches| == |w.batches| + 1
    ensures Created(round, w, view, chosen).batches[..|w.batches|] == w.batches
  {
    hide Keep, Wanted, BestOfAll, BeatsEachRanked, Order.Sort, Takeable, Total, SumNat, Share, Spill, ReservationFor,
         IndicesOf, InFlightIndices;
    var limits := LimitsFor(round.cfg, PieceSize(view));
    ReservationIsClaim(chosen, limits);
    ValidIsAdmissible(chosen, limits, round.freeBytes.value);
  }

  /**
   What one turn comes to. Finished batches are queued and stopped ones given back; a batch is created
   if and only if every gate is open, the search comes back with something worth it, and qBittorrent
   goes along.
   */
  ghost predicate IsTurn(round: Round, t: Turn) {
    var view, cfg := t.view, round.cfg;
    if !Looks(round, t.before, t.made, view) then
      t.after == t.before && t.outcome.created == 0 && t.outcome.queued == 0 && t.chosen == []
    else
      var w := Queued(t.before, view);
      && |w.jobs| == |t.before.jobs| + t.outcome.queued
      && if !Searches(round, w, t.made, view) then
           t.after == Reconciled(round, w, view.torrent) && t.outcome.created == 0 && t.chosen == []
         else
           && IsChoice(cfg, view.files.value, PieceSize(view), Unreserved(round, w.rows),
                       InFlightIndices(w.batches, view.torrent.hash), t.chosen)
           && t.outcome.created == (if Worth(round, view, t.chosen) && view.applyWorks then 1 else 0)
           && t.after == if !Worth(round, view, t.chosen) then w
                         else if view.applyWorks then Created(round, w, view, t.chosen)
                         else Refused(round, w, view, t.chosen)
  }

  lemma NotLookedAt(round: Round, view: View, w: World, made: nat, r: Outcome)
    requires !Looks(round, w, made, view) && r.created == 0 && r.queued == 0
    ensures IsTurn(round, Turn(view, w, made, w, r, []))
  {
  }

  /** What a turn that creates a batch leaves behind. */
  lemma CreatedMeans(round: Round, t: Turn)
    requires IsTurn(round, t) && t.outcome.created == 1
    ensures t.made < round.cfg.maxNewPerTick && CanaryAllowed(round.cfg, t.view.torrent.hash, t.view.torrent.tags)
    ensures round.freeBytes.Some?
    ensures JustCreated(round.cfg, t.after, t.view, t.chosen, round.freeBytes.value, round.now)
    ensures |t.after.batches| == |t.before.batches| + 1
    ensures InFlightCount(t.after.batches[..|t.after.batches| - 1], t.view.torrent.hash) < round.cfg.maxInflight
  {
    var w := Queued(t.before, t.view);
    CreatedIff(round, t);
    CreatedIsJust(round, w, t.view, t.view.files.value, t.chosen);
    hide InFlightCount, CanaryAllowed, JustCreated, IsChoice, GivesBack, QueueUpTo, Share, Listed, Total;
    assert |w.batches| == |t.before.batches|;
  }

  /**
   A batch is created exactly when the pipeline is on, the listing known, the canary and both caps
   allow it, nothing is given back, the piece size is known, and the choice is not empty, efficient
   enough, let through by the upload queue and accepted by qBittorrent.
   */
  lemma CreatedIff(round: Round, t: Turn)
    requires IsTurn(round, t)
    ensures t.outcome.created == 1 <==>
      var h, cfg := t.view.torrent.hash, round.cfg;
      && cfg.enabled && h != "" && "no-batch" !in t.view.torrent.tags && round.freeBytes.Some? && round.healthy
      && CanaryAllowed(cfg, h, t.view.torrent.tags) && t.made < cfg.maxNewPerTick && t.view.files.Some?
      && var w := Queued(t.before, t.view);
         && !GivesBack(round, w, t.view.torrent) && InFlightCount(w.batches, h) < cfg.maxInflight
         && t.view.pieceSize.Some? && t.chosen != []
         && Share(t.chosen, LimitsFor(cfg, PieceSize(t.view))) >= cfg.minEfficiency
         && t.view.backpressureAllows && t.view.applyWorks
  {
    hide Queued, IsChoice, GivesBack, CanaryAllowed, InFlightCount, Share, Created, Refused, Reconciled;
  }

  // ---------------------------------------------------------------------------------------------
  // What a turn does to the batches
  // ---------------------------------------------------------------------------------------------

  lemma {:induction false} QueueUpToAt(w: World, h: string, files: seq<FileRow>, view: View, upTo: nat, b: nat)
    requires upTo <= |w.batches| && b < |w.batches|
    ensures
      var q := QueueUpTo(w, h, files, view, upTo);
      && q.batches[b] == (if b < upTo then Handed(w.batches, w.jobs, b, h, files, view) else w.batches[b])
      && (HasJob(q.jobs, b) <==> HasJob(w.jobs, b) || (b < upTo && Due(w.batches, w.jobs, b, h, files, view)))
  {
    hide AllFinished, HasJob, PinCleanup, ReleaseBatches;
    if upTo > 0 {
      QueueUpToAt(w, h, files, view, upTo - 1, b);
      QueueUpToAt(w, h, files, view, upTo - 1, upTo - 1);
      var q := QueueUpTo(w, h, files, view, upTo - 1);
      if Due(w.batches, w.jobs, upTo - 1, h, files, view) {
        JobAdded(q.jobs, UploadJob(upTo - 1, view.uploadable[upTo - 1], JobQueued, 0, None), b);
      }
    }
  }

  lemma JobAdded(jobs: seq<UploadJob>, j: UploadJob, b: nat)
    ensures HasJob(jobs + [j], b) <==> HasJob(jobs, b) || j.batchId == b
  {
    NewJobElsewhere(jobs, j);
    assert (jobs + [j])[|jobs|] == j;
  }

  /** A finished batch the torrent's turn hands to the upload queue: its torrent is looked at, whoever it is. */
  lemma {:induction false} InFlightIsCounted(batches: seq<BatchRow>, h: string, b: nat)
    requires b < |batches| && batches[b].hash == h && InFlight(batches[b].state)
    ensures InFlightCount(batches, h) > 0
  {
    var n := |batches| - 1;
    if b < n {
      InFlightIsCounted(batches[..n], h, b);
    }
  }

  /** What a turn does to the batches there were: those of its torrent that are due are queued. */
  lemma TurnBatches(round: Round, t: Turn, b: nat)
    requires IsTurn(round, t) && b < |t.before.batches|
    ensures |t.before.batches| <= |t.after.batches| && t.after.batches[b].hash == t.before.batches[b].hash
    ensures t.before.batches[b].hash != t.view.torrent.hash ==>
      && t.after.batches[b] == t.before.batches[b]
      && (HasJob(t.after.jobs, b) <==> HasJob(t.before.jobs, b))
    ensures
      && Open(round, t.view) && t.view.files.Some?
      && Due(t.before.batches, t.before.jobs, b, t.view.torrent.hash, t.view.files.value, t.view)
      ==> t.after.batches[b] == t.before.batches[b].(state := UploadQueued, pinned := t.view.uploadable[b])
  {
    hide IsChoice, Worth, GivesBack, HasJob, AllFinished, Open, CanaryAllowed, InFlightCount, QueueUpTo, Listed,
         HasLiveRow, PlannerStopped, Unreserved, ReleaseBatches, ReleaseAllOf, IndicesOf, BatchClaim;
    var h := t.view.torrent.hash;
    if t.before.batches[b].hash == h && InFlight(t.before.batches[b].state) {
      InFlightIsCounted(t.before.batches, h, b);
    }
    if Looks(round, t.before, t.made, t.view) {
      var w := t.before.(progress := Listed(t.before.progress, h, t.view.files.value));
      QueueUpToAt(w, h, t.view.files.value, t.view, |w.batches|, b);
    }
  }

  lemma TurnAdds(round: Round, t: Turn, b: nat)
    requires IsTurn(round, t) && |t.before.batches| <= b < |t.after.batches|
    ensures t.after.batches[b].hash == t.view.torrent.hash
  {
    hide IsChoice, Worth, GivesBack, Open, CanaryAllowed, InFlightCount, QueueUpTo, Listed,
         HasLiveRow, PlannerStopped, Unreserved, ReleaseBatches, ReleaseAllOf, IndicesOf, BatchClaim;
  }

  // ---------------------------------------------------------------------------------------------
  // A pass
  // ---------------------------------------------------------------------------------------------

  /** A managed torrent that is not done yet: it has no size, or needs bytes and is below full progress. */
  predicate GetsTurn(t: Torrent) {
    IsManaged(t) && (t.size == 0 || (t.amountLeft > 0 && t.progress < 1.0))
  }

  function TurnsOf(views: seq<View>): seq<View> {
    if views == [] then []
    else
      var n := |views| - 1;
      TurnsOf(views[..n]) + if GetsTurn(views[n].torrent) then [views[n]] else []
  }

  /** The turns of a pass so far: one after the other, from a state and a count of zero. */
  ghost predicate IsPass(round: Round, start: World, todo: seq<View>, turns: seq<Turn>, end: World, made: nat) {
    && |turns| == |todo|
    && (forall k :: 0 <= k < |turns| ==> IsTurn(round, turns[k]) && turns[k].view == todo[k])
    && (forall k :: 0 < k < |turns| ==>
          turns[k].before == turns[k - 1].after && turns[k].made == turns[k - 1].made + turns[k - 1].outcome.created)
    && if turns == [] then end == start && made == 0
       else
         var last := turns[|turns| - 1];
         && turns[0].before == start && turns[0].made == 0
         && end == last.after && made == last.made + last.outcome.created
  }

  lemma TurnsNext(views: seq<View>, i: nat)
    requires i < |views|
    ensures TurnsOf(views[..i + 1])
         == if GetsTurn(views[i].torrent) then TurnsOf(views[..i]) + [views[i]] else TurnsOf(views[..i])
  {
    assert views[..i + 1][..i] == views[..i];
  }

  lemma NoTurnsYet(round: Round, start: World)
    ensures IsPass(round, start, [], [], start, 0) && TurnsOf([]) == []
  {
  }

  lemma PassGoesOn(round: Round, start: World, todo: seq<View>, turns: seq<Turn>, w: World, made: nat, t: Turn)
    requires IsPass(round, start, todo, turns, w, made)
    requires IsTurn(round, t) && t.before == w && t.made == made
    ensures IsPass(round, start, todo + [t.view], turns + [t], t.after, made + t.outcome.created)
  {
    hide IsTurn;
  }

  lemma PassPrefix(round: Round, start: World, todo: seq<View>, turns: seq<Turn>, end: World, made: nat)
    requires IsPass(round, start, todo, turns, end, made) && turns != []
    ensures
      var n := |turns| - 1;
      IsPass(round, start, todo[..n], turns[..n], turns[n].before, turns[n].made)
  {
    hide IsTurn;
  }

  /** Turns of other torrents leave a batch, and whether it has a job, as they were. */
  lemma {:induction false} PassElsewhere(round: Round, start: World, todo: seq<View>, turns: seq<Turn>, end: World,
                                         made: nat, b: nat)
    requires IsPass(round, start, todo, turns, end, made) && b < |start.batches|
    ensures |start.batches| <= |end.batches| && end.batches[b].hash == start.batches[b].hash
    ensures (forall k :: 0 <= k < |todo| ==> todo[k].torrent.hash != start.batches[b].hash) ==>
      end.batches[b] == start.batches[b] && (HasJob(end.jobs, b) <==> HasJob(start.jobs, b))
  {
    hide IsTurn, HasJob;
    if turns != [] {
      var n := |turns| - 1;
      PassPrefix(round, start, todo, turns, end, made);
      PassElsewhere(round, start, todo[..n], turns[..n], turns[n].before, turns[n].made, b);
      TurnBatches(round, turns[n], b);
      if forall k :: 0 <= k < |todo| ==> todo[k].torrent.hash != start.batches[b].hash {
        assert forall k :: 0 <= k < n ==> todo[..n][k] == todo[k];
      }
    }
  }

  /** A batch that is new belongs to a torrent that had its turn. */
  lemma {:induction false} PassAdds(round: Round, start: World, todo: seq<View>, turns: seq<Turn>, end: World,
                                    made: nat, b: nat)
    requires IsPass(round, start, todo, turns, end, made) && |start.batches| <= b < |end.batches|
    ensures exists k :: 0 <= k < |todo| && todo[k].torrent.hash == end.batches[b].hash
  {
    hide IsTurn;
    var n := |turns| - 1;
    PassPrefix(round, start, todo, turns, end, made);
    if b < |turns[n].before.batches| {
      TurnBatches(round, turns[n], b);
      PassAdds(round, start, todo[..n], turns[..n], turns[n].before, turns[n].made, b);
      var k :| 0 <= k < n && todo[..n][k].torrent.hash == turns[n].before.batches[b].hash;
      assert todo[k].torrent.hash == end.batches[b].hash;
    } else {
      TurnAdds(round, turns[n], b);
      assert todo[n].torrent.hash == end.batches[b].hash;
    }
  }

  ghost predicate DistinctViews(views: seq<View>) {
    forall i, j :: 0 <= i < j < |views| ==> views[i].torrent.hash != views[j].torrent.hash
  }

  /** A batch that is due at the start of the pass is queued by its torrent's turn, and stays so. */
  lemma {:induction false} PassQueues(round: Round, start: World, todo: seq<View>, turns: seq<Turn>, end: World,
                                      made: nat, k: nat, b: nat)
    requires IsPass(round, start, todo, turns, end, made) && DistinctViews(todo)
    requires k < |todo| && b < |start.batches| && Open(round, todo[k]) && todo[k].files.Some?
    requires Due(start.batches, start.jobs, b, todo[k].torrent.hash, todo[k].files.value, todo[k])
    ensures b < |end.batches|
    ensures end.batches[b] == start.batches[b].(state := UploadQueued, pinned := todo[k].uploadable[b])
  {
    hide IsTurn, HasJob, AllFinished, Open;
    var n := |turns| - 1;
    PassPrefix(round, start, todo, turns, end, made);
    PassElsewhere(round, start, todo[..n], turns[..n], turns[n].before, turns[n].made, b);
    TurnBatches(round, turns[n], b);
    if k < n {
      assert todo[..n][k] == todo[k] && todo[n].torrent.hash != todo[k].torrent.hash;
      PassQueues(round, start, todo[..n], turns[..n], turns[n].before, turns[n].made, k, b);
    } else {
      assert forall i :: 0 <= i < n ==> todo[..n][i].torrent.hash != todo[n].torrent.hash;
    }
  }

  /** The pass never counts fewer batches than it has created so far. */
  lemma {:induction false} MadeGrows(round: Round, start: World, todo: seq<View>, turns: seq<Turn>, end: World,
                                     made: nat, k: nat)
    requires IsPass(round, start, todo, turns, end, made) && k < |turns|
    ensures turns[k].made + turns[k].outcome.created <= made
  {
    hide IsTurn;
    var n := |turns| - 1;
    if k < n {
      PassPrefix(round, start, todo, turns, end, made);
      MadeGrows(round, start, todo[..n], turns[..n], turns[n].before, turns[n].made, k);
    }
  }

  /** Why a turn created nothing, the cap on the pass apart. */
  ghost predicate HadNoBatch(round: Round, t: Turn) {
    var h, cfg := t.view.torrent.hash, round.cfg;
    || !cfg.enabled || h == "" || "no-batch" in t.view.torrent.tags || round.freeBytes.None? || !round.healthy
    || !CanaryAllowed(cfg, h, t.view.torrent.tags) || t.view.files.None? || t.view.pieceSize.None?
    || var w := Queued(t.before, t.view);
       || GivesBack(round, w, t.view.torrent) || InFlightCount(w.batches, h) >= cfg.maxInflight
       || (IsChoice(cfg, t.view.files.value, PieceSize(t.view), Unreserved(round, w.rows),
                    InFlightIndices(w.batches, h), t.chosen)
           && (|| t.chosen == []
               || Share(t.chosen, LimitsFor(cfg, PieceSize(t.view))) < cfg.minEfficiency
               || !t.view.backpressureAllows || !t.view.applyWorks))
  }

  /** A pass that stayed below its cap created a batch in every turn that had no other reason not to. */
  lemma BelowTheCap(round: Round, start: World, todo: seq<View>, turns: seq<Turn>, end: World, made: nat, k: nat)
    requires IsPass(round, start, todo, turns, end, made) && made < round.cfg.maxNewPerTick
    requires k < |turns| && turns[k].outcome.created == 0
    ensures HadNoBatch(round, turns[k])
  {
    MadeGrows(round, start, todo, turns, end, made, k);
    hide Queued, IsChoice, GivesBack, CanaryAllowed, InFlightCount, Share, Created, Refused, Reconciled;
  }

  /** A torrent of the pass that had its turn. */
  ghost predicate HadTurn(views: seq<View>, h: string) {
    exists i :: 0 <= i < |views| && GetsTurn(views[i].torrent) && views[i].torrent.hash == h
  }

  ghost predicate LeavesOthers(views: seq<View>, start: World, end: World) {
    && |start.batches| <= |end.batches|
    && (forall b :: 0 <= b < |start.batches| && !HadTurn(views, start.batches[b].hash) ==>
          end.batches[b] == start.batches[b])
    && (forall b :: |start.batches| <= b < |end.batches| ==> HadTurn(views, end.batches[b].hash))
  }

  ghost predicate QueuesDue(round: Round, views: seq<View>, start: World, end: World) {
    && |start.batches| <= |end.batches|
    && forall i, b: nat :: 0 <= i < |views| && GetsTurn(views[i].torrent) && b < |start.batches|
         && Open(round, views[i]) && IsDue(start.batches, start.jobs, b, views[i])
         ==> end.batches[b] == start.batches[b].(state := UploadQueued, pinned := views[i].uploadable[b])
  }

  ghost predicate Serves(round: Round, views: seq<View>, turns: seq<Turn>, made: nat) {
    forall i :: 0 <= i < |views| && GetsTurn(views[i].torrent) ==>
      exists k :: 0 <= k < |turns| && turns[k].view == views[i]
        && (turns[k].outcome.created == 1 || made >= round.cfg.maxNewPerTick || HadNoBatch(round, turns[k]))
  }

  /**
   What a pass does to the batches: those of torrents without a turn are as they were, those that were
   due are queued, new ones belong to torrents with a turn, and below the cap nobody went without a
   batch for no reason.
   */
  ghost predicate PassMeans(round: Round, views: seq<View>, start: World, turns: seq<Turn>, end: World, made: nat) {
    LeavesOthers(views, start, end) && QueuesDue(round, views, start, end) && Serves(round, views, turns, made)
  }

  lemma {:induction false} TurnsAre(views: seq<View>)
    ensures forall v :: v in TurnsOf(views) <==> v in views && GetsTurn(v.torrent)
    ensures DistinctViews(views) ==> DistinctViews(TurnsOf(views))
  {
    if views != [] {
      var n := |views| - 1;
      TurnsAre(views[..n]);
      assert views == views[..n] + [views[n]];
      if DistinctViews(views) {
        var before := TurnsOf(views[..n]);
        forall i | 0 <= i < |before| ensures before[i].torrent.hash != views[n].torrent.hash {
          assert before[i] in views[..n];
        }
      }
    }
  }

  lemma TodoHadTurn(views: seq<View>, k: nat)
    requires k < |TurnsOf(views)|
    ensures HadTurn(views, TurnsOf(views)[k].torrent.hash)
  {
    hide TurnsOf, GetsTurn;
    TurnsAre(views);
    var view := TurnsOf(views)[k];
    assert view in TurnsOf(views);
    var i :| 0 <= i < |views| && views[i] == view;
  }

  lemma PassLeavesOthers(round: Round, views: seq<View>, start: World, turns: seq<Turn>, end: World, made: nat)
    requires IsPass(round, start, TurnsOf(views), turns, end, made)
    ensures LeavesOthers(views, start, end)
  {
    hide IsPass, TurnsOf, HadTurn;
    var todo := TurnsOf(views);
    PassLength(round, start, todo, turns, end, made);
    forall b | 0 <= b < |start.batches| && !HadTurn(views, start.batches[b].hash)
      ensures end.batches[b] == start.batches[b]
    {
      forall k: nat | k < |todo| ensures todo[k].torrent.hash != start.batches[b].hash {
        TodoHadTurn(views, k);
      }
      PassElsewhere(round, start, todo, turns, end, made, b);
    }
    forall b | |start.batches| <= b < |end.batches| ensures HadTurn(views, end.batches[b].hash) {
      PassAdds(round, start, todo, turns, end, made, b);
      var k: nat :| k < |todo| && todo[k].torrent.hash == end.batches[b].hash;
      TodoHadTurn(views, k);
    }
  }

  lemma PassQueuesDue(round: Round, views: seq<View>, start: World, turns: seq<Turn>, end: World, made: nat)
    requires DistinctViews(views) && IsPass(round, start, TurnsOf(views), turns, end, made)
    requires forall i :: 0 <= i < |views| && views[i].files.Some? ==> ListedOnce(views[i].files.value)
    ensures QueuesDue(round, views, start, end)
  {
    hide IsPass, TurnsOf, GetsTurn, Open, AllFinished, HasJob, ListedOnce;
    var todo := TurnsOf(views);
    TurnsAre(views);
    PassLength(round, start, todo, turns, end, made);
    forall i, b: nat | 0 <= i < |views| && GetsTurn(views[i].torrent) && b < |start.batches|
      && Open(round, views[i]) && IsDue(start.batches, start.jobs, b, views[i])
      ensures end.batches[b] == start.batches[b].(state := UploadQueued, pinned := views[i].uploadable[b])
    {
      DueIs(start.batches, start.jobs, b, views[i]);
      assert views[i] in todo;
      var k: nat :| k < |todo| && todo[k] == views[i];
      PassQueues(round, start, todo, turns, end, made, k, b);
    }
  }

  lemma PassServes(round: Round, views: seq<View>, start: World, turns: seq<Turn>, end: World, made: nat)
    requires IsPass(round, start, TurnsOf(views), turns, end, made)
    ensures Serves(round, views, turns, made)
  {
    hide IsPass, TurnsOf, GetsTurn, HadNoBatch;
    var todo := TurnsOf(views);
    TurnsAre(views);
    forall i | 0 <= i < |views| && GetsTurn(views[i].torrent)
      ensures exists k ::
        && 0 <= k < |turns| && turns[k].view == views[i]
        && (turns[k].outcome.created == 1 || made >= round.cfg.maxNewPerTick || HadNoBatch(round, turns[k]))
    {
      assert views[i] in todo;
      var k: nat :| k < |todo| && todo[k] == views[i];
      TurnAt(round, start, todo, turns, end, made, k);
      if made < round.cfg.maxNewPerTick && turns[k].outcome.created == 0 {
        BelowTheCap(round, start, todo, turns, end, made, k);
      }
    }
  }

  lemma PassIs(round: Round, views: seq<View>, start: World, turns: seq<Turn>, end: World, made: nat)
    requires DistinctViews(views) && IsPass(round, start, TurnsOf(views), turns, end, made)
    requires forall i :: 0 <= i < |views| && views[i].files.Some? ==> ListedOnce(views[i].files.value)
    ensures PassMeans(round, views, start, turns, end, made)
  {
    hide IsPass, LeavesOthers, QueuesDue, Serves, ListedOnce;
    PassLeavesOthers(round, views, start, turns, end, made);
    PassQueuesDue(round, views, start, turns, end, made);
    PassServes(round, views, start, turns, end, made);
  }

  lemma PassLength(round: Round, start: World, todo: seq<View>, turns: seq<Turn>, end: World, made: nat)
    requires IsPass(round, start, todo, turns, end, made)
    ensures |turns| == |todo| && |start.batches| <= |end.batches|
  {
    hide IsTurn;
    if start.batches != [] {
      PassElsewhere(round, start, todo, turns, end, made, 0);
    }
  }

  lemma TurnAt(round: Round, start: World, todo: seq<View>, turns: seq<Turn>, end: World, made: nat, k: nat)
    requires IsPass(round, start, todo, turns, end, made) && k < |todo|
    ensures k < |turns| && turns[k].view == todo[k] && turns[k].outcome.created <= 1
  {
    hide Queued, IsChoice, GivesBack, CanaryAllowed, InFlightCount, Worth, Created, Refused, Reconciled;
  }
}
