/**
 The soak queue's decision for one tick, on values: who is selected, how the selection is trimmed to
 the disk budget, and what preempting downloads for hot residents does to the ledger.
 */
module SoakTrim {
  import opened Options
  import opened Sums
  import opened Order
  import opened Ledger
  import opened LedgerUpdates
  import opened Torrents
  import opened SoakVictims
  import Tables

  datatype Config = Config(
    enabled: bool,
    residentSlots: int,
    diskFloor: nat,
    emergencyFloor: nat,
    maxTotalExposure: nat,
    minExposure: nat,
    maxPerTorrentExposure: nat,
    exposureHorizon: nat,
    hotBps: nat,
    lowBps: nat,
    hotConfirmSec: nat,
    cooldownSec: nat,
    maxActiveDownloads: int)

  type SoakRows = map<string, Tables.SoakRow>

  /** Everything one run reads once, at its start. */
  datatype Run = Run(
    cfg: Config,
    snapshots: seq<Torrent>,
    activeHashes: set<string>,
    soakRows: SoakRows,
    ema: map<string, nat>,
    freeBytes: nat,
    now: int)

  function Ema(run: Run, h: string): nat {
    At(run.ema, h)
  }

  const PIECE_SPILL_FLOOR: nat := 32 * 1024 * 1024

  /** The bytes a resident is expected to write before the next tick can stop it. */
  function Exposure(cfg: Config, t: Torrent, ema: nat): nat {
    if t.amountLeft == 0 then 0
    else
      var spill := Max(t.pieceSize * 2, PIECE_SPILL_FLOOR);
      var raw := Max(Max(cfg.minExposure, spill), ema * cfg.exposureHorizon + spill);
      Min(t.amountLeft, Min(cfg.maxPerTorrentExposure, raw))
  }

  function Min(a: nat, b: nat): nat {
    if a < b then a else b
  }

  function ExposureOf(run: Run, t: Torrent): nat {
    Exposure(run.cfg, t, Ema(run, t.hash))
  }

  /**
   An exposure that covers the configured minimum, and what the speed projects over the horizon with two
   pieces of spill, 32 MiB of it at least, as far as the torrent still needs bytes and the cap allows.
   */
  predicate Covers(cfg: Config, t: Torrent, ema: nat, x: nat) {
    && x >= Min(t.amountLeft, Min(cfg.maxPerTorrentExposure, cfg.minExposure))
    && x >= Min(t.amountLeft, Min(cfg.maxPerTorrentExposure, ema * cfg.exposureHorizon + 2 * t.pieceSize))
    && x >= Min(t.amountLeft, Min(cfg.maxPerTorrentExposure, ema * cfg.exposureHorizon + 32 * 1024 * 1024))
  }

  ghost predicate IsExposure(cfg: Config, t: Torrent, ema: nat, x: nat) {
    && Covers(cfg, t, ema, x) && x <= t.amountLeft && x <= cfg.maxPerTorrentExposure
    && forall y: nat :: Covers(cfg, t, ema, y) ==> x <= y
  }

  /** What a resident is held for is the least that covers it. */
  lemma ExposureIsLeast(cfg: Config, t: Torrent, ema: nat)
    ensures IsExposure(cfg, t, ema, Exposure(cfg, t, ema))
  {
    forall y: nat | Covers(cfg, t, ema, y) ensures Exposure(cfg, t, ema) <= y {
    }
  }

  // ---------------------------------------------------------------------------------------------
  // Selection
  // ---------------------------------------------------------------------------------------------

  const NEEDS_BYTES: Torrent -> bool := (t: Torrent) => IsManaged(t) && t.amountLeft > 0
  const RUNS: Torrent -> bool := (t: Torrent) => IsRunning(t)

  function Managed(run: Run): seq<Torrent> {
    Filter(run.snapshots, NEEDS_BYTES)
  }

  function ActiveLike(run: Run): set<string> {
    HashSet(Filter(Managed(run), RUNS)) + run.activeHashes
  }

  predicate InSoak(rows: SoakRows, h: string) {
    h in rows && (rows[h].phase.Resident? || rows[h].phase.Hot?)
  }

  predicate Cooling(rows: SoakRows, now: int, h: string) {
    && h in rows && rows[h].phase.Cooldown?
    && rows[h].cooldownUntil.Some? && rows[h].cooldownUntil.value > now
  }

  function ResidentTest(run: Run): Torrent -> bool {
    (t: Torrent) => t.hash in ActiveLike(run) && InSoak(run.soakRows, t.hash) && !Cooling(run.soakRows, run.now, t.hash)
  }

  function CandidateTest(run: Run): Torrent -> bool {
    (t: Torrent) => t.hash !in ActiveLike(run) && !Cooling(run.soakRows, run.now, t.hash) && t.stopped
  }

  function CandidateKey(run: Run): Torrent -> seq<real> {
    (t: Torrent) =>
      [-t.progress, ExposureOf(run, t) as real, t.amountLeft as real, -(t.seeds as real), -(t.peers as real)]
        + Code(t.hash)
  }

  function Residents(run: Run): seq<Torrent> {
    Filter(Managed(run), ResidentTest(run))
  }

  function Candidates(run: Run): seq<Torrent> {
    Sort(Filter(Managed(run), CandidateTest(run)), CandidateKey(run))
  }

  function Startable(run: Run): nat {
    Min(
      Clamp(run.cfg.residentSlots - |Residents(run)|),
      Clamp(run.cfg.maxActiveDownloads - |ActiveLike(run)|))
  }

  function Clamp(n: int): nat {
    if n < 0 then 0 else n
  }

  function Selected(run: Run): seq<Torrent> {
    Residents(run) + Candidates(run)[..Min(Startable(run), |Candidates(run)|)]
  }

  // ---------------------------------------------------------------------------------------------
  // Trimming
  // ---------------------------------------------------------------------------------------------

  datatype TrimState = TrimState(
    rows: Table,
    alloc: Allocations,
    soak: SoakRows,
    kept: seq<Torrent>,
    exposures: map<string, nat>,
    used: nat,
    cap: nat,
    preempted: seq<string>)

  predicate Recovery(run: Run) {
    run.cfg.emergencyFloor <= run.freeBytes < run.cfg.diskFloor
  }

  predicate HotReady(run: Run, h: string) {
    && Ema(run, h) >= run.cfg.hotBps
    && h in run.soakRows && run.soakRows[h].hotSince.Some?
    && run.now - run.soakRows[h].hotSince.value >= run.cfg.hotConfirmSec
  }

  function SafeBudget(run: Run, others: nat): nat {
    Clamp(run.freeBytes - run.cfg.diskFloor - others)
  }

  function Members(hs: seq<string>): set<string> {
    set i | 0 <= i < |hs| :: hs[i]
  }

  function CoolAllocations(alloc: Allocations, hs: set<string>, now: int): Allocations {
    map h | h in alloc.Keys + hs ::
      if h in hs then Tables.Allocation(Tables.Desired.SoakCooldown, 0, Some(false), now) else alloc[h]
  }

  /** Put these torrents into cooldown; what else a row recorded stays. */
  function CoolSoak(soak: SoakRows, hs: set<string>, now: int, until: int): SoakRows {
    map h | h in soak.Keys + hs ::
      if h !in hs then soak[h]
      else if h in soak then soak[h].(phase := Tables.Cooldown, cooldownUntil := Some(until), exposure := 0)
      else Tables.SoakRow(Tables.Cooldown, None, None, Some(until), 0, 0, Some(now))
  }

  function Keep(st: TrimState, t: Torrent, exposure: nat): TrimState {
    st.(kept := st.kept + [t], exposures := st.exposures[t.hash := exposure], used := st.used + exposure)
  }

  function Preempt(run: Run, st: TrimState, victims: seq<Scored>): TrimState {
    st.(rows := ReleaseKind(st.rows, ActiveDownload, HashesOf(victims)),
        alloc := CoolAllocations(st.alloc, HashesOf(victims), run.now),
        soak := CoolSoak(st.soak, HashesOf(victims), run.now, run.now + run.cfg.cooldownSec),
        cap := st.cap + Bytes(victims),
        preempted := st.preempted + VictimHashes(victims))
  }

  /** The victims a resident that does not fit would push out. */
  function VictimsFor(run: Run, st: TrimState, t: Torrent): seq<Scored> {
    Victims(st.rows, st.alloc, run.snapshots, {t.hash} + Members(st.preempted), st.used + ExposureOf(run, t) - st.cap)
  }

  function TrimStep(run: Run, st: TrimState, t: Torrent): TrimState {
    var exposure := ExposureOf(run, t);
    if Recovery(run) && InSoak(run.soakRows, t.hash) && IsRunning(t) then Keep(st, t, 0)
    else if st.used + exposure <= st.cap then Keep(st, t, exposure)
    else if HotReady(run, t.hash) && VictimsFor(run, st, t) != [] then
      Keep(Preempt(run, st, VictimsFor(run, st, t)), t, exposure)
    else st
  }

  function Trim(run: Run, st: TrimState, ts: seq<Torrent>): TrimState {
    if ts == [] then st
    else TrimStep(run, Trim(run, st, ts[..|ts| - 1]), ts[|ts| - 1])
  }

  ghost function TrimStart(run: Run, rows: Table, alloc: Allocations, soak: SoakRows): TrimState {
    TrimState(rows, alloc, soak, [], map[], 0,
              Min(run.cfg.maxTotalExposure, SafeBudget(run, Total(rows, run.now, true))), [])
  }

  ghost function Trimmed(run: Run, rows: Table, alloc: Allocations, soak: SoakRows): TrimState {
    Trim(run, TrimStart(run, rows, alloc, soak), Selected(run))
  }

  /** Trimming stops downloads and makes none active. */
  lemma {:induction false} TrimActivatesNobody(run: Run, st: TrimState, ts: seq<Torrent>)
    ensures Tables.NobodyActivated(st.alloc, Trim(run, st, ts).alloc)
  {
    hide Recovery, ExposureOf, HotReady, VictimsFor, InSoak, IsRunning, ReleaseKind, CoolSoak, Bytes, VictimHashes,
         HashesOf;
    if ts != [] {
      TrimActivatesNobody(run, st, ts[..|ts| - 1]);
    }
  }

  // ---------------------------------------------------------------------------------------------
  // What trimming guarantees
  // ---------------------------------------------------------------------------------------------

  lemma ResidentsAreActive(run: Run, t: Torrent)
    requires t in Residents(run)
    ensures t.hash in ActiveLike(run)
  {
    FilterElements(Managed(run), ResidentTest(run));
  }

  lemma CandidatesAreIdle(run: Run, t: Torrent)
    requires t in Filter(Managed(run), CandidateTest(run))
    ensures t.hash !in ActiveLike(run)
  {
    FilterElements(Managed(run), CandidateTest(run));
  }

  lemma SelectedDistinct(run: Run)
    requires DistinctHashes(run.snapshots)
    ensures DistinctHashes(Selected(run))
  {
    hide Filter, Sort, ActiveLike, Startable;
    var residents, candidates := Residents(run), Candidates(run);
    var stoppedOnes := Filter(Managed(run), CandidateTest(run));
    FilterDistinct(run.snapshots, NEEDS_BYTES);
    FilterDistinct(Managed(run), ResidentTest(run));
    FilterDistinct(Managed(run), CandidateTest(run));
    SortIsSorted(stoppedOnes, CandidateKey(run));
    DistinctPermutation(stoppedOnes, candidates);
    forall i | 0 <= i < |residents| ensures residents[i].hash in ActiveLike(run) {
      ResidentsAreActive(run, residents[i]);
    }
    forall i | 0 <= i < |candidates| ensures candidates[i].hash !in ActiveLike(run) {
      assert candidates[i] in multiset(stoppedOnes);
      CandidatesAreIdle(run, candidates[i]);
    }
    var started := candidates[..Min(Startable(run), |candidates|)];
    assert Selected(run) == residents + started;
  }

  lemma SelectedIsManaged(run: Run, t: Torrent)
    requires t in Selected(run)
    ensures t in Managed(run)
  {
    hide ActiveLike, Startable, NEEDS_BYTES, LexLe;
    FilterElements(Managed(run), ResidentTest(run));
    FilterElements(Managed(run), CandidateTest(run));
    var stoppedOnes := Filter(Managed(run), CandidateTest(run));
    SortIsSorted(stoppedOnes, CandidateKey(run));
    if t in Candidates(run) {
      assert t in multiset(Candidates(run));
    }
  }

  ghost predicate KeptFrom(st: TrimState, ts: seq<Torrent>) {
    && st.exposures.Keys == HashSet(st.kept)
    && (forall t :: t in st.kept ==> t in ts)
    && DistinctHashes(st.kept)
  }

  /** One step keeps its torrent, with an exposure of its own, or leaves the lists as they are. */
  lemma StepKeeps(run: Run, mid: TrimState, t: Torrent)
    ensures
      var end := TrimStep(run, mid, t);
      || (end.kept == mid.kept && end.exposures == mid.exposures)
      || (end.kept == mid.kept + [t] && end.exposures.Keys == mid.exposures.Keys + {t.hash})
  {
  }

  lemma KeptOneMore(mid: TrimState, end: TrimState, ts: seq<Torrent>)
    requires ts != [] && DistinctHashes(ts) && KeptFrom(mid, ts[..|ts| - 1])
    requires
      var t := ts[|ts| - 1];
      || (end.kept == mid.kept && end.exposures == mid.exposures)
      || (end.kept == mid.kept + [t] && end.exposures.Keys == mid.exposures.Keys + {t.hash})
    ensures KeptFrom(end, ts)
  {
    var n := |ts| - 1;
    hide HashSet;
    HashSetAppend(mid.kept, ts[n]);
    assert forall t :: t in ts[..n] ==> t in ts;
    if end.kept != mid.kept {
      forall i | 0 <= i < |mid.kept| ensures mid.kept[i].hash != ts[n].hash {
        assert mid.kept[i] in ts[..n];
      }
    }
  }

  /** One entry of the exposure table per kept resident, and only kept residents. */
  lemma {:induction false} TrimKeepsSelected(run: Run, st: TrimState, ts: seq<Torrent>)
    requires DistinctHashes(ts)
    requires st.kept == [] && st.exposures == map[]
    ensures KeptFrom(Trim(run, st, ts), ts)
  {
    if ts != [] {
      hide TrimStep, KeptFrom;
      var mid := Trim(run, st, ts[..|ts| - 1]);
      TrimKeepsSelected(run, st, ts[..|ts| - 1]);
      StepKeeps(run, mid, ts[|ts| - 1]);
      KeptOneMore(mid, Trim(run, st, ts), ts);
    }
  }

  /** Each kept resident is held for its exposure, but for those that just keep running in recovery. */
  ghost predicate HeldFor(run: Run, st: TrimState) {
    forall i :: 0 <= i < |st.kept| ==>
      && st.kept[i].hash in st.exposures
      && st.exposures[st.kept[i].hash]
           == if Recovery(run) && InSoak(run.soakRows, st.kept[i].hash) && IsRunning(st.kept[i]) then 0
              else ExposureOf(run, st.kept[i])
  }

  lemma StepHolds(run: Run, mid: TrimState, t: Torrent)
    requires HeldFor(run, mid) && forall i :: 0 <= i < |mid.kept| ==> mid.kept[i].hash != t.hash
    ensures HeldFor(run, TrimStep(run, mid, t))
  {
    hide ExposureOf, Recovery, InSoak, IsRunning, HotReady, VictimsFor, ReleaseKind, CoolAllocations, CoolSoak, Bytes;
  }

  lemma {:induction false} TrimHolds(run: Run, st: TrimState, ts: seq<Torrent>)
    requires DistinctHashes(ts) && st.kept == [] && st.exposures == map[]
    ensures HeldFor(run, Trim(run, st, ts))
  {
    hide HeldFor, TrimStep;
    if ts == [] {
      NothingHeld(run, st);
    } else {
      var n := |ts| - 1;
      var mid := Trim(run, st, ts[..n]);
      TrimHolds(run, st, ts[..n]);
      TrimKeepsSelected(run, st, ts[..n]);
      forall i | 0 <= i < |mid.kept| ensures mid.kept[i].hash != ts[n].hash {
        assert mid.kept[i] in ts[..n];
      }
      StepHolds(run, mid, ts[n]);
    }
  }

  lemma NothingHeld(run: Run, st: TrimState)
    requires st.kept == []
    ensures HeldFor(run, st)
  {
  }

  lemma KeepCounts(st: TrimState, t: Torrent, exposure: nat)
    requires st.used == Sum(st.exposures) && t.hash !in st.exposures
    ensures Keep(st, t, exposure).used == Sum(Keep(st, t, exposure).exposures)
  {
    var exposures := st.exposures[t.hash := exposure];
    SumPick(exposures, t.hash);
    assert exposures - {t.hash} == st.exposures;
  }

  lemma StepWithinCap(run: Run, mid: TrimState, t: Torrent)
    requires mid.used <= mid.cap && mid.used == Sum(mid.exposures)
    requires t.hash !in mid.exposures
    ensures
      var end := TrimStep(run, mid, t);
      end.used <= end.cap && end.used == Sum(end.exposures) && mid.cap <= end.cap
  {
    hide ExposureOf, Victims, HotReady, InSoak, ReleaseKind, CoolAllocations, CoolSoak;
    var exposure := ExposureOf(run, t);
    KeepCounts(mid, t, 0);
    KeepCounts(mid, t, exposure);
    if mid.used + exposure > mid.cap {
      var victims := VictimsFor(run, mid, t);
      VictimsCoverBarely(mid.rows, mid.alloc, run.snapshots, {t.hash} + Members(mid.preempted),
                         mid.used + exposure - mid.cap);
      KeepCounts(Preempt(run, mid, victims), t, exposure);
    }
  }

  /** What is kept fits under the cap at every step, and `used` is what the kept residents expose. */
  lemma {:induction false} TrimWithinCap(run: Run, st: TrimState, ts: seq<Torrent>)
    requires DistinctHashes(ts)
    requires st.kept == [] && st.exposures == map[] && st.used == 0
    ensures
      var end := Trim(run, st, ts);
      end.used <= end.cap && end.used == Sum(end.exposures) && st.cap <= end.cap
  {
    if ts != [] {
      var n := |ts| - 1;
      var mid := Trim(run, st, ts[..n]);
      TrimWithinCap(run, st, ts[..n]);
      TrimKeepsSelected(run, st, ts[..n]);
      forall i | 0 <= i < |mid.kept| ensures mid.kept[i].hash != ts[n].hash {
        assert mid.kept[i] in ts[..n];
      }
      StepWithinCap(run, mid, ts[n]);
    }
  }

  /** No torrent is preempted in two victim lists, and preempted torrents are named. */
  lemma {:induction false} VictimListsDisjoint(run: Run, st: TrimState, ts: seq<Torrent>, t: Torrent)
    ensures
      var mid := Trim(run, st, ts);
      var victims := VictimsFor(run, mid, t);
      mid.used + ExposureOf(run, t) > mid.cap ==>
        Members(mid.preempted) !! HashesOf(victims) && t.hash !in HashesOf(victims) && "" !in HashesOf(victims)
  {
    var mid := Trim(run, st, ts);
    if mid.used + ExposureOf(run, t) > mid.cap {
      VictimsAreEligible(mid.rows, mid.alloc, run.snapshots, {t.hash} + Members(mid.preempted),
                         mid.used + ExposureOf(run, t) - mid.cap);
    }
  }

  lemma PreemptedAfter(run: Run, st: TrimState, victims: seq<Scored>)
    ensures Members(Preempt(run, st, victims).preempted) == Members(st.preempted) + HashesOf(victims)
  {
    var hs := VictimHashes(victims);
    forall h | h in Members(st.preempted) + HashesOf(victims) ensures h in Members(st.preempted + hs) {
      if h in Members(st.preempted) {
        var i :| 0 <= i < |st.preempted| && st.preempted[i] == h;
        assert (st.preempted + hs)[i] == h;
      } else {
        var i :| 0 <= i < |victims| && victims[i].hash == h;
        assert (st.preempted + hs)[|st.preempted| + i] == h;
      }
    }
    forall h | h in Members(st.preempted + hs) ensures h in Members(st.preempted) + HashesOf(victims) {
      var i :| 0 <= i < |st.preempted + hs| && (st.preempted + hs)[i] == h;
      if i >= |st.preempted| {
        assert victims[i - |st.preempted|].hash == h;
      }
    }
  }

  /** The ledger after trimming is the ledger before with the preempted downloads released. */
  lemma {:induction false} TrimLedger(run: Run, st: TrimState, ts: seq<Torrent>)
    requires st.preempted == []
    ensures
      var end := Trim(run, st, ts);
      end.rows == ReleaseKind(st.rows, ActiveDownload, Members(end.preempted)) && "" !in Members(end.preempted)
  {
    hide VictimsFor, ReleaseKind, Members, CoolAllocations, CoolSoak, HotReady, Recovery, ExposureOf, InSoak;
    if ts == [] {
      ReleaseNobody(st.rows);
    } else {
      var n := |ts| - 1;
      var mid := Trim(run, st, ts[..n]);
      TrimLedger(run, st, ts[..n]);
      VictimListsDisjoint(run, st, ts[..n], ts[n]);
      PreemptedAfter(run, mid, VictimsFor(run, mid, ts[n]));
      ReleaseTwice(st.rows, Members(mid.preempted), HashesOf(VictimsFor(run, mid, ts[n])));
    }
  }

  lemma ReleaseNobody(rows: Table)
    ensures ReleaseKind(rows, ActiveDownload, Members([])) == rows && "" !in Members([])
  {
  }

  lemma ReleaseTwice(rows: Table, a: set<string>, b: set<string>)
    ensures ReleaseKind(ReleaseKind(rows, ActiveDownload, a), ActiveDownload, b)
      == ReleaseKind(rows, ActiveDownload, a + b)
  {
  }

  /** Releasing other torrents does not change what a torrent's release is worth. */
  lemma HonestyUnaffected(rows: Table, now: int, hs: set<string>, h: string)
    requires h !in hs && "" !in hs && CreditIsHonest(rows, now, h)
    ensures CreditIsHonest(ReleaseKind(rows, ActiveDownload, hs), now, h)
  {
    var rows' := ReleaseKind(rows, ActiveDownload, hs);
    ReleaseKindColumns(rows, ActiveDownload, hs, now, ByHash(h), ActiveColumn);
    ReleaseKindColumns(rows, ActiveDownload, hs, now, ByHash(h), BatchColumn);
    HeldSame(rows, rows', h);
  }

  lemma {:induction false} HeldSame(rows: Table, rows': Table, h: string)
    requires |rows| == |rows'|
    requires forall i :: 0 <= i < |rows| ==>
      rows'[i] == rows[i] || !(Holds(rows[i], ActiveDownload, h) || Holds(rows'[i], ActiveDownload, h))
    ensures Held(rows, h) == Held(rows', h)
  {
    if rows != [] {
      HeldSame(rows[..|rows| - 1], rows'[..|rows| - 1], h);
    }
  }

  lemma StepReleasesWhatItCredits(run: Run, rows: Table, mid: TrimState, t: Torrent)
    requires "" !in Members(mid.preempted)
    requires mid.rows == ReleaseKind(rows, ActiveDownload, Members(mid.preempted))
    requires mid.used + ExposureOf(run, t) > mid.cap
    requires
      var victims := VictimsFor(run, mid, t);
      Members(mid.preempted) !! HashesOf(victims) && "" !in HashesOf(victims)
    requires forall h :: h in HashesOf(VictimsFor(run, mid, t)) ==> CreditIsHonest(rows, run.now, h)
    ensures
      var end := Preempt(run, mid, VictimsFor(run, mid, t));
      Total(end.rows, run.now, true) + (end.cap - mid.cap) <= Total(mid.rows, run.now, true)
  {
    forall h | h in HashesOf(VictimsFor(run, mid, t)) ensures CreditIsHonest(mid.rows, run.now, h) {
      HonestyUnaffected(rows, run.now, Members(mid.preempted), h);
    }
    HonestVictimsFree(mid.rows, mid.alloc, run.snapshots, {t.hash} + Members(mid.preempted),
                      mid.used + ExposureOf(run, t) - mid.cap, run.now);
  }

  /** A step either preempts nobody or is a preemption followed by keeping the resident. */
  lemma StepShape(run: Run, mid: TrimState, t: Torrent)
    ensures
      var end := TrimStep(run, mid, t);
      var pushed := Preempt(run, mid, VictimsFor(run, mid, t));
      || (end.rows == mid.rows && end.cap == mid.cap && end.preempted == mid.preempted)
      || (mid.used + ExposureOf(run, t) > mid.cap
          && end.rows == pushed.rows && end.cap == pushed.cap && end.preempted == pushed.preempted)
  {
  }

  /**
   Everybody else's bytes shrink by at least what the cap grew, provided every preempted torrent's
   credit was honest when the run began.
   */
  lemma {:induction false} TrimReleasesWhatItCredits(run: Run, st: TrimState, ts: seq<Torrent>)
    requires st.preempted == []
    requires forall h :: h in Members(Trim(run, st, ts).preempted) ==> CreditIsHonest(st.rows, run.now, h)
    ensures
      var end := Trim(run, st, ts);
      Total(end.rows, run.now, true) + (end.cap - st.cap) <= Total(st.rows, run.now, true)
  {
    if ts != [] {
      var n := |ts| - 1;
      var mid := Trim(run, st, ts[..n]);
      PreemptedAfter(run, mid, VictimsFor(run, mid, ts[n]));
      StepShape(run, mid, ts[n]);
      TrimReleasesWhatItCredits(run, st, ts[..n]);
      if Trim(run, st, ts).rows != mid.rows || Trim(run, st, ts).cap != mid.cap {
        TrimLedger(run, st, ts[..n]);
        VictimListsDisjoint(run, st, ts[..n], ts[n]);
        StepReleasesWhatItCredits(run, st.rows, mid, ts[n]);
      }
    }
  }

  /**
   The soak queue leaves room for everybody: if the other reservations fitted under the floor, then
   after trimming they still do together with everything the kept residents may write.
   */
  lemma SoakLeavesRoom(run: Run, rows: Table, alloc: Allocations, soak: SoakRows)
    requires DistinctHashes(run.snapshots)
    requires Total(rows, run.now, true) + run.cfg.diskFloor <= run.freeBytes
    requires forall h :: h in Members(Trimmed(run, rows, alloc, soak).preempted) ==> CreditIsHonest(rows, run.now, h)
    ensures
      var end := Trimmed(run, rows, alloc, soak);
      Total(end.rows, run.now, true) + Sum(end.exposures) + run.cfg.diskFloor <= run.freeBytes
  {
    SelectedDistinct(run);
    TrimWithinCap(run, TrimStart(run, rows, alloc, soak), Selected(run));
    TrimReleasesWhatItCredits(run, TrimStart(run, rows, alloc, soak), Selected(run));
  }
}
