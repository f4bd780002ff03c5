/** Whom the soak queue keeps running and whom it starts, said outright, and why a resident is dropped. */
module SoakSelection {
  import opened Options
  import opened Sums
  import opened Order
  import opened Ledger
  import opened LedgerUpdates
  import opened Torrents
  import opened SoakVictims
  import opened SoakTrim

  /** Torrents that run, or that others count as running. */
  function ActiveNow(run: Run): set<string> {
    (set t | t in run.snapshots && IsManaged(t) && !t.stopped && t.progress < 1.0 && t.amountLeft > 0 :: t.hash)
    + run.activeHashes
  }

  /** A managed torrent that needs bytes, is active and is in soak. */
  predicate Residing(run: Run, t: Torrent) {
    && t in run.snapshots && IsManaged(t) && t.amountLeft > 0 && t.hash in ActiveNow(run)
    && t.hash in run.soakRows && (run.soakRows[t.hash].phase.Resident? || run.soakRows[t.hash].phase.Hot?)
  }

  /** A managed torrent that needs bytes, is stopped, and is not cooling down. */
  predicate Idle(run: Run, t: Torrent) {
    && t in run.snapshots && IsManaged(t) && t.amountLeft > 0 && t.stopped && t.hash !in ActiveNow(run)
    && !(t.hash in run.soakRows && run.soakRows[t.hash].phase.Cooldown?
         && run.soakRows[t.hash].cooldownUntil.Some? && run.soakRows[t.hash].cooldownUntil.value > run.now)
  }

  /** Nearest to done first, then the one that risks fewer bytes, then the one that needs fewer. */
  predicate Nearer(run: Run, a: Torrent, b: Torrent) {
    var x, y := ExposureOf(run, a), ExposureOf(run, b);
    || a.progress > b.progress
    || (a.progress == b.progress && (x < y || (x == y && a.amountLeft <= b.amountLeft)))
  }

  /** Everyone in soak stays; the nearest of the idle are started, as many as there are slots for. */
  ghost predicate InTurn(run: Run, residents: seq<Torrent>, started: seq<Torrent>) {
    && DistinctHashes(residents + started)
    && (forall t :: t in residents <==> Residing(run, t))
    && (forall t :: t in started ==> Idle(run, t))
    && (forall i, j :: 0 <= i < j < |started| ==> Nearer(run, started[i], started[j]))
    && (started != [] ==>
          && |residents| + |started| <= run.cfg.residentSlots
          && |ActiveNow(run)| + |started| <= run.cfg.maxActiveDownloads)
    && (forall t :: Idle(run, t) && t !in started ==>
          && (forall s :: s in started ==> Nearer(run, s, t))
          && (|| |residents| + |started| >= run.cfg.residentSlots
              || |ActiveNow(run)| + |started| >= run.cfg.maxActiveDownloads))
  }

  lemma ActiveLikeIs(run: Run)
    ensures ActiveLike(run) == ActiveNow(run)
  {
    var running := Filter(Managed(run), RUNS);
    FilterElements(run.snapshots, NEEDS_BYTES);
    FilterElements(Managed(run), RUNS);
    forall h ensures h in HashSet(running) <==> exists t :: t in running && t.hash == h {
      if h in HashSet(running) {
        var i :| 0 <= i < |running| && running[i].hash == h;
        assert running[i] in running;
      }
      if t :| t in running && t.hash == h {
        var i :| 0 <= i < |running| && running[i] == t;
        assert running[i].hash == h;
      }
    }
  }

  lemma ResidentsAre(run: Run)
    ensures forall t :: t in Residents(run) <==> Residing(run, t)
  {
    ActiveLikeIs(run);
    FilterElements(run.snapshots, NEEDS_BYTES);
    FilterElements(Managed(run), ResidentTest(run));
    hide ActiveLike, ActiveNow;
  }

  lemma CandidatesAre(run: Run)
    ensures forall t :: t in Candidates(run) <==> Idle(run, t)
    ensures SortedBy(Candidates(run), CandidateKey(run))
  {
    var stopped := Filter(Managed(run), CandidateTest(run));
    ActiveLikeIs(run);
    FilterElements(run.snapshots, NEEDS_BYTES);
    FilterElements(Managed(run), CandidateTest(run));
    SortIsSorted(stopped, CandidateKey(run));
    hide ActiveLike, ActiveNow, LexLe, CandidateKey, Sort;
    forall t ensures t in Candidates(run) <==> t in stopped {
      assert t in multiset(Candidates(run)) <==> t in multiset(stopped);
    }
  }

  lemma KeysAreNearer(run: Run, a: Torrent, b: Torrent)
    requires LexLe(CandidateKey(run)(a), CandidateKey(run)(b))
    ensures Nearer(run, a, b)
  {
    hide ExposureOf;
    var p, q := CandidateKey(run)(a), CandidateKey(run)(b);
    LexHead(p, q);
    if p[0] == q[0] {
      LexHead(p[1..], q[1..]);
      if p[1] == q[1] {
        LexHead(p[1..][1..], q[1..][1..]);
      }
    }
  }

  lemma LexHead(a: seq<real>, b: seq<real>)
    requires LexLe(a, b) && a != [] && b != []
    ensures a[0] <= b[0] && (a[0] == b[0] ==> LexLe(a[1..], b[1..]))
  {
  }

  lemma CandidateNearer(run: Run, i: nat, j: nat)
    requires i < j < |Candidates(run)|
    ensures Nearer(run, Candidates(run)[i], Candidates(run)[j])
  {
    hide Candidates, LexLe, Nearer, CandidateKey;
    CandidatesAre(run);
    KeysAreNearer(run, Candidates(run)[i], Candidates(run)[j]);
  }

  /** What the soak queue selects. */
  lemma SelectedInTurn(run: Run)
    requires DistinctHashes(run.snapshots)
    ensures
      var residents := Residents(run);
      var started := Candidates(run)[..Min(Startable(run), |Candidates(run)|)];
      Selected(run) == residents + started && InTurn(run, residents, started)
  {
    SelectedDistinct(run);
    ActiveLikeIs(run);
    ResidentsAre(run);
    CandidatesAre(run);
    hide Residents, Candidates, Residing, Idle, Nearer, ActiveLike, ActiveNow;
    var all := Candidates(run);
    var n := Min(Startable(run), |all|);
    forall i, j | 0 <= i < j < |all| ensures Nearer(run, all[i], all[j]) {
      CandidateNearer(run, i, j);
    }
    forall t | Idle(run, t) && t !in all[..n]
      ensures n == Startable(run) && forall s :: s in all[..n] ==> Nearer(run, s, t)
    {
      LeftBehind(run, n, t);
    }
    forall t | t in all[..n] ensures Idle(run, t) {
      assert t in all;
    }
    SlotsLeft(run);
    hide Startable;
  }

  lemma InFront<T>(s: seq<T>, n: nat, k: nat)
    requires k < n <= |s|
    ensures s[k] in s[..n]
  {
    assert s[..n][k] == s[k];
  }

  lemma LeftBehind(run: Run, n: nat, t: Torrent)
    requires n <= |Candidates(run)| && t in Candidates(run) && t !in Candidates(run)[..n]
    ensures n < |Candidates(run)| && forall s :: s in Candidates(run)[..n] ==> Nearer(run, s, t)
  {
    hide Candidates, Nearer;
    var all := Candidates(run);
    var k: nat :| k < |all| && all[k] == t;
    if k < n {
      InFront(all, n, k);
    }
    forall s | s in all[..n] ensures Nearer(run, s, t) {
      var i: nat :| i < n && all[i] == s;
      CandidateNearer(run, i, k);
    }
  }

  /** The slots that are left, of the residents' and of all downloads. */
  lemma SlotsLeft(run: Run)
    ensures
      var n, r, a := Startable(run), |Residents(run)|, |ActiveLike(run)|;
      && (n > 0 ==> r + n <= run.cfg.residentSlots && a + n <= run.cfg.maxActiveDownloads)
      && (r + n >= run.cfg.residentSlots || a + n >= run.cfg.maxActiveDownloads)
  {
    hide Residents, ActiveLike;
  }

  // ---------------------------------------------------------------------------------------------
  // Who is dropped
  // ---------------------------------------------------------------------------------------------

  /** Fast on average, and for the confirmation time. */
  predicate Hot(run: Run, h: string) {
    && At(run.ema, h) >= run.cfg.hotBps
    && h in run.soakRows && run.soakRows[h].hotSince.Some?
    && run.now - run.soakRows[h].hotSince.value >= run.cfg.hotConfirmSec
  }

  /** What the soak queue may expose before anybody is preempted. */
  ghost function Allowance(run: Run, rows: Table): nat {
    var free := run.freeBytes - run.cfg.diskFloor - Total(rows, run.now, true);
    if free < 0 then 0 else if free < run.cfg.maxTotalExposure then free else run.cfg.maxTotalExposure
  }

  lemma {:induction false} StaysKept(run: Run, st: TrimState, ts: seq<Torrent>, n: nat)
    requires n <= |ts|
    ensures
      var mid, end := Trim(run, st, ts[..n]), Trim(run, st, ts);
      && (forall t :: t in mid.kept ==> t in end.kept)
      && mid.used <= end.used && mid.cap <= end.cap
  {
    hide Recovery, ExposureOf, HotReady, VictimsFor, InSoak, IsRunning, ReleaseKind, CoolSoak, CoolAllocations, Bytes,
         VictimHashes, HashesOf;
    if n < |ts| {
      var m := |ts| - 1;
      StaysKept(run, st, ts[..m], n);
      assert ts[..m][..n] == ts[..n];
    } else {
      assert ts[..n] == ts;
    }
  }

  lemma WhatFitsIsKept(run: Run, mid: TrimState, t: Torrent)
    requires mid.used + ExposureOf(run, t) <= mid.cap
    ensures t in TrimStep(run, mid, t).kept
  {
    hide ExposureOf, IsRunning, InSoak, VictimsFor;
  }

  lemma StepDrops(run: Run, mid: TrimState, t: Torrent)
    requires t !in TrimStep(run, mid, t).kept
    ensures mid.used + ExposureOf(run, t) > mid.cap
    ensures Hot(run, t.hash) ==>
      Bytes(Ranked(ScoreRows(mid.rows, mid.alloc, run.snapshots, {t.hash} + Members(mid.preempted))))
        < mid.used + ExposureOf(run, t) - mid.cap
  {
    hide ExposureOf, IsRunning, ReleaseKind, CoolSoak, CoolAllocations, ScoreRows, Ranked, InSoak;
    var excluded := {t.hash} + Members(mid.preempted);
    var needed := mid.used + ExposureOf(run, t) - mid.cap;
    if mid.used + ExposureOf(run, t) <= mid.cap {
      WhatFitsIsKept(run, mid, t);
    } else if Hot(run, t.hash) {
      NoVictims(mid.rows, mid.alloc, run.snapshots, excluded, needed);
    }
  }

  /** There are no victims exactly when all that may be preempted falls short. */
  lemma NoVictims(rows: Table, alloc: Allocations, snapshots: seq<Torrent>, excluded: set<string>, needed: int)
    requires needed > 0
    ensures Victims(rows, alloc, snapshots, excluded, needed) == []
       <==> Bytes(Ranked(ScoreRows(rows, alloc, snapshots, excluded))) < needed
  {
    hide ScoreRows, Ranked;
    CoverFallsShort(Ranked(ScoreRows(rows, alloc, snapshots, excluded)), needed);
  }

  lemma {:induction false} CoverFallsShort(ranked: seq<Scored>, needed: int)
    requires needed > 0
    ensures Bytes(Cover(ranked, needed)) < needed <==> Bytes(ranked) < needed
    ensures Bytes(Cover(ranked, needed)) >= needed ==> Cover(ranked, needed) != []
  {
    if ranked != [] {
      BytesFirst(ranked);
      if ranked[0].bytes >= needed {
        BytesFirst([ranked[0]]);
      } else {
        CoverFallsShort(ranked[1..], needed - ranked[0].bytes);
        BytesFirst(Cover(ranked, needed));
        assert Cover(ranked, needed)[1..] == Cover(ranked[1..], needed - ranked[0].bytes);
      }
    }
  }

  lemma {:induction false} BytesFirst(s: seq<Scored>)
    requires s != []
    ensures Bytes(s) == s[0].bytes + Bytes(s[1..])
  {
    var n := |s| - 1;
    if n > 0 {
      BytesFirst(s[..n]);
      assert s[..n][1..] == s[1..][..n - 1];
    } else {
      assert s[..0] == [] && s[1..] == [];
    }
  }

  /**
   A selected torrent is dropped only when what was kept before it leaves no room for its exposure under
   the allowance, which preemption can only have raised; and a hot one only when all downloads that may
   be preempted for it together would not have made that room.
   */
  lemma DroppedFor(run: Run, rows: Table, alloc: Allocations, soak: SoakRows, i: nat) returns (mid: TrimState)
    requires i < |Selected(run)| && Selected(run)[i] !in Trimmed(run, rows, alloc, soak).kept
    ensures
      var t := Selected(run)[i];
      && mid == Trim(run, TrimStart(run, rows, alloc, soak), Selected(run)[..i])
      && mid.used + ExposureOf(run, t) > mid.cap >= Allowance(run, rows)
      && (Hot(run, t.hash) ==>
            Bytes(Ranked(ScoreRows(mid.rows, mid.alloc, run.snapshots, {t.hash} + Members(mid.preempted))))
              < mid.used + ExposureOf(run, t) - mid.cap)
  {
    hide TrimStep, Selected, Total, ScoreRows, Ranked, ExposureOf, Hot;
    var start, ts := TrimStart(run, rows, alloc, soak), Selected(run);
    mid := Trim(run, start, ts[..i]);
    StaysKept(run, start, ts, i + 1);
    StaysKept(run, start, ts[..i], 0);
    assert ts[..i][..0] == [];
    assert ts[..i + 1][..i] == ts[..i] && ts[..i + 1][i] == ts[i];
    StepDrops(run, mid, ts[i]);
  }

  /** Nobody is preempted but for a hot resident whose exposure does not fit. */
  lemma PreemptsForHot(run: Run, mid: TrimState, t: Torrent)
    requires TrimStep(run, mid, t).preempted != mid.preempted
    ensures Hot(run, t.hash) && mid.used + ExposureOf(run, t) > mid.cap
  {
    hide ExposureOf, IsRunning, ReleaseKind, CoolSoak, CoolAllocations, VictimsFor, InSoak;
  }

  /** Further back in the ranking no score is higher. */
  lemma RankedDown(scored: seq<Scored>, i: nat, k: nat)
    requires i <= k < |Ranked(scored)|
    ensures Ranked(scored)[k].score <= Ranked(scored)[i].score
  {
    hide Rank, LexLe;
    var sorted, ranked := Sort(scored, Rank), Ranked(scored);
    SortIsSorted(scored, Rank);
    if i < k {
      assert ranked[i] == sorted[|sorted| - 1 - i] && ranked[k] == sorted[|sorted| - 1 - k];
      LexLeads(ranked[k], ranked[i]);
    }
  }

  lemma RankedHas(scored: seq<Scored>, s: Scored) returns (k: nat)
    requires s in scored
    ensures k < |Ranked(scored)| && Ranked(scored)[k] == s
  {
    hide Rank, LexLe;
    var sorted := Sort(scored, Rank);
    SortIsSorted(scored, Rank);
    assert s in multiset(sorted);
    var p: nat :| p < |sorted| && sorted[p] == s;
    k := |sorted| - 1 - p;
  }

  /** The victims are those of the highest scores. */
  lemma VictimsAreBest(rows: Table, alloc: Allocations, snapshots: seq<Torrent>, excluded: set<string>, needed: int,
                       v: Scored, s: Scored)
    requires v in Victims(rows, alloc, snapshots, excluded, needed)
    requires s in ScoreRows(rows, alloc, snapshots, excluded)
    ensures s in Victims(rows, alloc, snapshots, excluded, needed) || s.score <= v.score
  {
    hide ScoreRows, Ranked, Cover, Bytes;
    var scored := ScoreRows(rows, alloc, snapshots, excluded);
    var ranked := Ranked(scored);
    var cover := Cover(ranked, needed);
    CoverIsPrefix(ranked, needed);
    var k := RankedHas(scored, s);
    var i: nat :| i < |cover| && cover[i] == v;
    if k >= |cover| {
      RankedDown(scored, i, k);
    } else {
      assert cover[k] == s;
    }
  }

  lemma LexLeads(s: Scored, v: Scored)
    requires LexLe(Rank(s), Rank(v))
    ensures s.score <= v.score
  {
    LexHead(Rank(s), Rank(v));
  }

  lemma {:induction false} CoverIsPrefix(ranked: seq<Scored>, needed: int)
    ensures |Cover(ranked, needed)| <= |ranked| && Cover(ranked, needed) == ranked[..|Cover(ranked, needed)|]
  {
    if ranked != [] && ranked[0].bytes < needed {
      CoverIsPrefix(ranked[1..], needed - ranked[0].bytes);
    }
  }
}
