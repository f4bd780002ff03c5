/** The soak queue service: one run over the state database. */
module SoakQueue {
  import opened Options
  import opened Sums
  import opened Ledger
  import opened LedgerUpdates
  import opened LedgerReaders
  import opened Torrents
  import opened SoakVictims
  import opened SoakTrim
  import opened StateDbTables
  import opened SoakSamples
  import Tables

  datatype SoakResult = SoakResult(
    started: seq<string>,
    stopped: set<string>,
    residents: set<string>,
    hot: set<string>,
    cooldown: set<string>,
    preempted: seq<string>,
    reserved: nat)

  const NOTHING := SoakResult([], {}, {}, {}, {}, [], 0)

  function Protected(r: SoakResult): set<string> {
    r.residents + r.hot
  }

  // ---------------------------------------------------------------------------------------------
  // What a run stores
  // ---------------------------------------------------------------------------------------------

  function HotSince(run: Run, h: string): Option<int> {
    if h in run.soakRows then run.soakRows[h].hotSince else None
  }

  /** A kept resident turns hot once it has been fast for the confirmation time without a slow spell. */
  predicate TurnsHot(run: Run, h: string) {
    && Ema(run, h) >= run.cfg.hotBps
    && HotSince(run, h).Some? && run.now - HotSince(run, h).value >= run.cfg.hotConfirmSec
  }

  function NextHotSince(run: Run, h: string): Option<int> {
    if Ema(run, h) >= run.cfg.hotBps then
      if HotSince(run, h).None? then Some(run.now) else HotSince(run, h)
    else if Ema(run, h) < run.cfg.lowBps then None
    else HotSince(run, h)
  }

  function ResidentSince(run: Run, h: string): Option<int> {
    if h in run.soakRows && run.soakRows[h].residentSince.Some? && run.soakRows[h].residentSince.value != 0
    then run.soakRows[h].residentSince else Some(run.now)
  }

  function ResidentRow(run: Run, h: string, exposure: nat): Tables.SoakRow {
    Tables.SoakRow(if TurnsHot(run, h) then Tables.Hot else Tables.Resident,
                   NextHotSince(run, h), ResidentSince(run, h), None, exposure, Ema(run, h), Some(run.now))
  }

  function ResidentAllocation(run: Run, h: string, exposure: nat): Tables.Allocation {
    Tables.Allocation(if TurnsHot(run, h) then Tables.Desired.SoakHot else Tables.Desired.SoakResident,
                      exposure, Some(false), run.now)
  }

  function MarkSoak(soak: SoakRows, run: Run, exposures: map<string, nat>): SoakRows {
    map h | h in soak.Keys + exposures.Keys :: if h in exposures then ResidentRow(run, h, exposures[h]) else soak[h]
  }

  function MarkAllocations(alloc: Allocations, run: Run, exposures: map<string, nat>): Allocations {
    map h | h in alloc.Keys + exposures.Keys :: if h in exposures then ResidentAllocation(run, h, exposures[h])
      else alloc[h]
  }

  function HotOnes(run: Run, kept: set<string>): set<string> {
    set h | h in kept && TurnsHot(run, h)
  }

  /** Residents of an earlier run that still run and were not kept. */
  function Stale(run: Run, kept: set<string>): set<string> {
    set h | h in run.soakRows && InSoak(run.soakRows, h) && h !in kept && h in HashSet(Filter(Managed(run), RUNS))
  }

  const PROBE_TTL := 120

  function SoakLedger(rows: Table, kept: seq<Torrent>, exposures: map<string, nat>, now: int): Table
    requires exposures.Keys == HashSet(kept)
  {
    assert forall h :: h in HashSeq(kept) ==> h in exposures by {
      forall h | h in HashSeq(kept) ensures h in HashSet(kept) {
        var i :| 0 <= i < |kept| && HashSeq(kept)[i] == h;
        assert kept[i].hash == h;
      }
    }
    Synced(ReleaseSoakExcept(rows, HashSet(kept)), SoakProbe, HashSeq(kept), exposures, now + PROBE_TTL)
  }

  lemma SoakLedgerIs(rows: Table, kept: seq<Torrent>, exposures: map<string, nat>, now: int)
    requires exposures.Keys == HashSet(kept) && Lists(HashSeq(kept), exposures)
    ensures SoakLedger(rows, kept, exposures, now)
         == Synced(ReleaseSoakExcept(rows, HashSet(kept)), SoakProbe, HashSeq(kept), exposures, now + PROBE_TTL)
  {
  }

  lemma KeptLists(kept: seq<Torrent>, exposures: map<string, nat>)
    requires DistinctHashes(kept) && exposures.Keys == HashSet(kept)
    ensures Lists(HashSeq(kept), exposures)
    ensures "" !in HashSet(kept)
  {
    forall h ensures h in HashSeq(kept) <==> h in exposures {
      if h in HashSet(kept) {
        var i :| 0 <= i < |kept| && kept[i].hash == h;
        assert HashSeq(kept)[i] == h;
      }
      if h in HashSeq(kept) {
        var i :| 0 <= i < |kept| && HashSeq(kept)[i] == h;
        assert kept[i].hash == h;
      }
    }
  }

  predicate IsStray(rows: Table, k: Key) {
    k.Loose? && k.id < |rows| && rows[k.id].hash.None?
  }

  /** The soak queue's live bytes in rows whose torrent is null; its own inserts never make one. */
  function StrayNeeds(rows: Table, now: int): map<Key, nat> {
    map k | k in LiveKeys(rows, now) && IsStray(rows, k) :: Col(rows, now, k, SoakColumn)
  }

  /** The soak queue's updates leave everybody else's bytes exactly as they were. */
  lemma SoakLedgerElsewhere(rows: Table, kept: seq<Torrent>, exposures: map<string, nat>, now: int)
    requires DistinctHashes(kept) && exposures.Keys == HashSet(kept)
    ensures Total(SoakLedger(rows, kept, exposures, now), now, true) == Total(rows, now, true)
  {
    KeptLists(kept, exposures);
    var released := ReleaseSoakExcept(rows, HashSet(kept));
    var rows' := SoakLedger(rows, kept, exposures, now);
    forall k ensures At(Needs(rows', now, true), k) == At(Needs(rows, now, true), k) {
      AtNeeds(rows, now, true, k);
      AtNeeds(rows', now, true, k);
      forall c ensures c != SoakColumn ==> Col(rows', now, k, c) == Col(rows, now, k, c) {
        ReleaseSoakColumns(rows, HashSet(kept), now, k, c);
        if c != SoakColumn {
          SyncedElsewhere(released, SoakProbe, HashSeq(kept), exposures, now + PROBE_TTL, now, k, c);
        }
      }
    }
    SumSame(Needs(rows', now, true), Needs(rows, now, true));
  }

  function KeyedByHash(m: map<string, nat>): map<Key, nat> {
    map h | h in m :: ByHash(h) := m[h]
  }

  lemma {:induction false} KeyedSameSum(m: map<string, nat>)
    ensures Sum(KeyedByHash(m)) == Sum(m)
    decreases |m|
  {
    if m == map[] {
      assert KeyedByHash(m) == map[];
    } else {
      var h :| h in m;
      SumPick(m, h);
      SumPick(KeyedByHash(m), ByHash(h));
      assert KeyedByHash(m) - {ByHash(h)} == KeyedByHash(m - {h});
      SizeWithout(m, h);
      KeyedSameSum(m - {h});
    }
  }

  lemma StrayAt(rows: Table, now: int, k: Key)
    ensures At(StrayNeeds(rows, now), k) == if IsStray(rows, k) then Col(rows, now, k, SoakColumn) else 0
  {
    AtNeeds(rows, now, true, k);
  }

  lemma SoakLedgerColumn(rows: Table, kept: seq<Torrent>, exposures: map<string, nat>, now: int, k: Key)
    requires DistinctHashes(kept) && exposures.Keys == HashSet(kept)
    ensures Col(SoakLedger(rows, kept, exposures, now), now, k, SoakColumn)
         == if k.ByHash? then At(exposures, k.hash)
            else if kept != [] && IsStray(rows, k) then Col(rows, now, k, SoakColumn)
            else 0
  {
    KeptLists(kept, exposures);
    var released := ReleaseSoakExcept(rows, HashSet(kept));
    ReleaseSoakColumns(rows, HashSet(kept), now, k, SoakColumn);
    if k.ByHash? && k.hash in exposures {
      SyncedColumn(released, SoakProbe, HashSeq(kept), exposures, now + PROBE_TTL, now, k.hash);
    } else {
      SyncedElsewhere(released, SoakProbe, HashSeq(kept), exposures, now + PROBE_TTL, now, k, SoakColumn);
      if kept != [] && k.Loose? {
        StrayRowsStay(rows, kept, now, k);
      }
    }
  }

  lemma StrayRowsStay(rows: Table, kept: seq<Torrent>, now: int, k: Key)
    requires kept != [] && k.Loose?
    ensures Col(ReleaseSoakExcept(rows, HashSet(kept)), now, k, SoakColumn)
         == if IsStray(rows, k) then Col(rows, now, k, SoakColumn) else 0
    requires "" !in HashSet(kept)
  {
    assert kept[0].hash in HashSet(kept);
    var released := ReleaseSoakExcept(rows, HashSet(kept));
    if IsStray(rows, k) {
      forall i | 0 <= i < |rows|
        ensures Part(rows[i], i, now, k, SoakColumn) == Part(released[i], i, now, k, SoakColumn) {
        if i == k.id {
          assert released[i] == rows[i];
        }
      }
      ColSame(rows, released, now, k, SoakColumn);
    } else {
      forall i | 0 <= i < |rows| ensures Part(released[i], i, now, k, SoakColumn) == 0 {
        if i == k.id && KeyOf(rows[i], i) == k {
          assert rows[i].hash == Some("");
        }
      }
      ColZero(released, now, k, SoakColumn);
    }
  }

  /**
   After the update the soak queue's live rows add up to exactly what it reports as reserved, plus
   stray rows without a torrent when something was kept, since `not in` never releases those.
   */
  lemma SoakLedgerTotal(rows: Table, kept: seq<Torrent>, exposures: map<string, nat>, now: int)
    requires DistinctHashes(kept) && exposures.Keys == HashSet(kept)
    ensures SoakTotal(SoakLedger(rows, kept, exposures, now), now)
         == Sum(exposures) + if kept == [] then 0 else Sum(StrayNeeds(rows, now))
  {
    var rows' := SoakLedger(rows, kept, exposures, now);
    var stray := if kept == [] then map[] else StrayNeeds(rows, now);
    forall k ensures At(SoakNeeds(rows', now), k) == At(KeyedByHash(exposures), k) + At(stray, k) {
      AtNeeds(rows', now, true, k);
      SoakLedgerColumn(rows, kept, exposures, now, k);
      StrayAt(rows, now, k);
    }
    SumSplit(SoakNeeds(rows', now), KeyedByHash(exposures), stray);
    KeyedSameSum(exposures);
  }

  /**
   The active soak rows sum exactly to the reported bytes if and only if nothing was kept or the
   ledger held no live soak bytes without a torrent.
   */
  lemma ReservedIsExact(rows: Table, kept: seq<Torrent>, exposures: map<string, nat>, now: int)
    requires DistinctHashes(kept) && exposures.Keys == HashSet(kept)
    ensures SoakTotal(SoakLedger(rows, kept, exposures, now), now) == Sum(exposures)
       <==> kept == [] || Sum(StrayNeeds(rows, now)) == 0
  {
    SoakLedgerTotal(rows, kept, exposures, now);
  }

  /** A ledger without such rows, as every run leaves it, has none of their bytes. */
  lemma NoStraysNoBytes(rows: Table, released: set<string>, now: int)
    requires NoStrays(rows)
    ensures Sum(StrayNeeds(ReleaseKind(rows, ActiveDownload, released), now)) == 0
  {
    var rows' := ReleaseKind(rows, ActiveDownload, released);
    forall k ensures At(StrayNeeds(rows', now), k) == At<Key>(map[], k) {
      StrayAt(rows', now, k);
      if IsStray(rows', k) {
        ColZero(rows', now, k, SoakColumn);
      }
    }
    SumSame(StrayNeeds(rows', now), map[]);
  }

  /** A live soak row without a torrent outlasts the update, and nothing reports its bytes. */
  lemma StrayRowOutlasts(t: Torrent, bytes: nat, now: int)
    requires t.hash != ""
    ensures
      var rows := [Row(None, None, SoakProbe, bytes, RowState.Active, None)];
      DistinctHashes([t]) && map[t.hash := 0].Keys == HashSet([t])
      && SoakTotal(SoakLedger(rows, [t], map[t.hash := 0], now), now) == bytes
  {
    hide SoakLedger;
    var rows := [Row(None, None, SoakProbe, bytes, RowState.Active, None)];
    assert [t][0].hash in HashSet([t]);
    assert HashSet([t]) == {t.hash};
    SoakLedgerTotal(rows, [t], map[t.hash := 0], now);
    SumSingle(t.hash, 0);
    assert rows[..0] == [];
    forall k ensures At(StrayNeeds(rows, now), k) == At(map[Loose(SoakProbe, 0) := bytes], k) {
      StrayAt(rows, now, k);
    }
    SumSame(StrayNeeds(rows, now), map[Loose(SoakProbe, 0) := bytes]);
    SumSingle(Loose(SoakProbe, 0), bytes);
  }

  // ---------------------------------------------------------------------------------------------
  // The service
  // ---------------------------------------------------------------------------------------------

  lemma MembersOfVictims(victims: seq<Scored>)
    ensures Members(VictimHashes(victims)) == HashesOf(victims)
  {
    forall h ensures h in Members(VictimHashes(victims)) <==> h in HashesOf(victims) {
      if h in Members(VictimHashes(victims)) {
        var i :| 0 <= i < |victims| && VictimHashes(victims)[i] == h;
        assert victims[i].hash == h;
      }
      if h in HashesOf(victims) {
        var i :| 0 <= i < |victims| && victims[i].hash == h;
        assert VictimHashes(victims)[i] == h;
      }
    }
  }

  lemma MembersStep(hs: seq<string>, i: nat)
    requires i < |hs|
    ensures Members(hs[..i + 1]) == Members(hs[..i]) + {hs[i]}
  {
  }

  /** The victims taken so far, and that what remains of the ranking would complete the cover. */
  ghost predicate Covering(ranked: seq<Scored>, needed: int, i: nat, released: nat) {
    && i <= |ranked| && released == Bytes(ranked[..i])
    && Cover(ranked, needed)
         == if released >= needed then ranked[..i] else ranked[..i] + Cover(ranked[i..], needed - released)
  }

  lemma CoveringStep(ranked: seq<Scored>, needed: int, i: nat, released: nat)
    requires Covering(ranked, needed, i, released) && i < |ranked| && released < needed
    ensures Covering(ranked, needed, i + 1, released + ranked[i].bytes)
  {
    hide Cover, Bytes;
    CoverFrom(ranked, i, needed - released);
    BytesUpTo(ranked, i);
    TakeOneMore(ranked, i);
    Regroup(ranked[..i], ranked[i], Cover(ranked[i + 1..], needed - released - ranked[i].bytes));
  }

  lemma TakeOneMore<T>(s: seq<T>, i: nat)
    requires i < |s|
    ensures s[..i + 1] == s[..i] + [s[i]]
  {
  }

  lemma CoverFrom(ranked: seq<Scored>, i: nat, needed: int)
    requires i < |ranked|
    ensures Cover(ranked[i..], needed)
         == if ranked[i].bytes >= needed then [ranked[i]]
           else [ranked[i]] + Cover(ranked[i + 1..], needed - ranked[i].bytes)
  {
    assert ranked[i..][1..] == ranked[i + 1..];
  }

  lemma BytesUpTo(ranked: seq<Scored>, i: nat)
    requires i < |ranked|
    ensures Bytes(ranked[..i + 1]) == Bytes(ranked[..i]) + ranked[i].bytes
  {
    assert ranked[..i + 1][..i] == ranked[..i];
  }

  lemma Regroup<T>(a: seq<T>, x: T, rest: seq<T>)
    ensures a + ([x] + rest) == a + [x] + rest
  {
  }

  lemma ScoreStep(rows: Table, i: nat, alloc: Allocations, snapshots: seq<Torrent>, excluded: set<string>)
    requires i < |rows|
    ensures
      var r := rows[i];
      var before := ScoreRows(rows[..i], alloc, snapshots, excluded);
      var after := ScoreRows(rows[..i + 1], alloc, snapshots, excluded);
      if r.kind.ActiveDownload? && r.state.Active? && r.hash.Some?
        && MayPreempt(r.hash.value, alloc, snapshots, excluded)
      then
        && Find(snapshots, r.hash.value).Some?
        && after == before + [Scored(Score(Find(snapshots, r.hash.value).value, r.bytes), r.hash.value, r.bytes)]
      else after == before
  {
    hide Score;
    assert rows[..i + 1][..i] == rows[..i];
  }

  lemma VictimsAre(rows: Table, alloc: Allocations, snapshots: seq<Torrent>, excluded: set<string>, needed: int)
    ensures
      var cover := Cover(Ranked(ScoreRows(rows, alloc, snapshots, excluded)), needed);
      Victims(rows, alloc, snapshots, excluded, needed) == if Bytes(cover) < needed then [] else cover
  {
  }

  lemma NothingScored(alloc: Allocations, snapshots: seq<Torrent>, excluded: set<string>)
    ensures ScoreRows([], alloc, snapshots, excluded) == []
  {
  }

  lemma CoveringStart(ranked: seq<Scored>, needed: int)
    requires needed > 0
    ensures Covering(ranked, needed, 0, 0) && Bytes([]) == 0
  {
  }

  lemma CoveringEnd(ranked: seq<Scored>, needed: int, i: nat, released: nat)
    requires Covering(ranked, needed, i, released) && (i == |ranked| || released >= needed)
    ensures Cover(ranked, needed) == ranked[..i] && Bytes(ranked[..i]) == released
  {
  }

  /** The row a torrent's soak state becomes when its download is preempted. */
  function CooledRow(soak: SoakRows, h: string, now: int, until: int): Tables.SoakRow {
    if h in soak then soak[h].(phase := Tables.Cooldown, cooldownUntil := Some(until), exposure := 0)
    else Tables.SoakRow(Tables.Cooldown, None, None, Some(until), 0, 0, Some(now))
  }

  lemma CoolStep(alloc: Allocations, soak: SoakRows, hs: set<string>, h: string, now: int, until: int)
    ensures CoolAllocations(alloc, hs + {h}, now)
         == CoolAllocations(alloc, hs, now)[h := Tables.Allocation(Tables.Desired.SoakCooldown, 0, Some(false), now)]
    ensures CoolSoak(soak, hs + {h}, now, until)
      == CoolSoak(soak, hs, now, until)[h := CooledRow(CoolSoak(soak, hs, now, until), h, now, until)]
  {
  }

  lemma NobodyCools(rows: Table, alloc: Allocations, soak: SoakRows, hashes: seq<string>, now: int, until: int)
    ensures Members(hashes[..0]) == {} && Members(hashes[..|hashes|]) == Members(hashes)
    ensures ReleaseKind(rows, ActiveDownload, {}) == rows
    ensures CoolAllocations(alloc, {}, now) == alloc
    ensures CoolSoak(soak, {}, now, until) == soak
  {
  }

  lemma TrimAt(run: Run, st: TrimState, ts: seq<Torrent>, i: nat)
    requires i < |ts|
    ensures Trim(run, st, ts[..i + 1]) == TrimStep(run, Trim(run, st, ts[..i]), ts[i])
  {
    assert ts[..i + 1][..i] == ts[..i];
  }

  lemma TrimNone(run: Run, st: TrimState, ts: seq<Torrent>)
    ensures Trim(run, st, ts[..0]) == st && ts[..|ts|] == ts
  {
  }

  lemma MarkNone(soak: SoakRows, alloc: Allocations, run: Run, kept: seq<Torrent>, exposures: map<string, nat>)
    requires exposures.Keys == HashSet(kept)
    ensures HashSet(kept[..0]) == {} && kept[..|kept|] == kept
    ensures MarkSoak(soak, run, OnlyThese(exposures, {})) == soak
    ensures MarkAllocations(alloc, run, OnlyThese(exposures, {})) == alloc
    ensures OnlyThese(exposures, HashSet(kept)) == exposures
    ensures HotOnes(run, {}) == {}
  {
  }

  lemma HotStep(run: Run, hs: set<string>, h: string)
    ensures HotOnes(run, hs + {h}) == HotOnes(run, hs) + if TurnsHot(run, h) then {h} else {}
  {
  }

  lemma KeptStep(kept: seq<Torrent>, i: nat)
    requires i < |kept|
    ensures kept[i].hash in HashSet(kept)
    ensures HashSet(kept[..i + 1]) == HashSet(kept[..i]) + {kept[i].hash}
  {
  }

  lemma MarkStep(soak: SoakRows, alloc: Allocations, run: Run, exposures: map<string, nat>, hs: set<string>, h: string)
    requires h in exposures
    ensures MarkSoak(soak, run, OnlyThese(exposures, hs + {h}))
         == MarkSoak(soak, run, OnlyThese(exposures, hs))[h := ResidentRow(run, h, exposures[h])]
    ensures MarkAllocations(alloc, run, OnlyThese(exposures, hs + {h}))
         == MarkAllocations(alloc, run, OnlyThese(exposures, hs))[h := ResidentAllocation(run, h, exposures[h])]
  {
    hide ResidentRow, ResidentAllocation;
    var before, after := OnlyThese(exposures, hs), OnlyThese(exposures, hs + {h});
    assert after == before[h := exposures[h]];
    hide OnlyThese;
  }

  lemma MarkingActivatesNobody(alloc: Allocations, run: Run, exposures: map<string, nat>, cooled: set<string>)
    ensures Tables.NobodyActivated(alloc, CoolAllocations(MarkAllocations(alloc, run, exposures), cooled, run.now))
  {
    hide TurnsHot;
  }

  /** What a run writes to the allocations makes nobody's active. */
  lemma RunActivatesNobody(run: Run, rows: Table, alloc: Allocations, soak: SoakRows, cooled: set<string>)
    ensures
      var end := Trimmed(run, rows, alloc, soak);
      Tables.NobodyActivated(alloc, CoolAllocations(MarkAllocations(end.alloc, run, end.exposures), cooled, run.now))
  {
    hide Trim, Selected, CoolAllocations, MarkAllocations, Total, SafeBudget, Tables.NobodyActivated;
    var end := Trimmed(run, rows, alloc, soak);
    TrimActivatesNobody(run, TrimStart(run, rows, alloc, soak), Selected(run));
    MarkingActivatesNobody(end.alloc, run, end.exposures, cooled);
    Tables.ActivatesLess(alloc, end.alloc,
                         CoolAllocations(MarkAllocations(end.alloc, run, end.exposures), cooled, run.now));
  }

  /** After a run that starts without stray rows the soak rows hold exactly what is reported. */
  lemma ReportsWhatItHolds(run: Run, rows: Table, alloc: Allocations, soak: SoakRows)
    requires KeptFrom(Trimmed(run, rows, alloc, soak), Selected(run)) && NoStrays(rows)
    ensures
      var end := Trimmed(run, rows, alloc, soak);
      SoakTotal(SoakLedger(end.rows, end.kept, end.exposures, run.now), run.now) == Sum(end.exposures)
  {
    hide Trim, Selected, SoakLedger, SoakTotal, StrayNeeds, NoStrays, TrimStart;
    var end := Trimmed(run, rows, alloc, soak);
    TrimStartIs(run, rows, alloc, soak);
    TrimLedger(run, TrimStart(run, rows, alloc, soak), Selected(run));
    NoStraysNoBytes(rows, Members(end.preempted), run.now);
    SoakLedgerTotal(end.rows, end.kept, end.exposures, run.now);
  }

  lemma TrimStartIs(run: Run, rows: Table, alloc: Allocations, soak: SoakRows)
    ensures
      var start := TrimStart(run, rows, alloc, soak);
      start.rows == rows && start.alloc == alloc && start.preempted == []
  {
  }

  /**
   A kept resident is hot once its average speed has been high for the confirmation time. That time starts
   when the speed first is high and ends when it is low; the residency starts once.
   */
  predicate Marked(run: Run, h: string, ema: nat, row: Tables.SoakRow) {
    var before := if h in run.soakRows then Some(run.soakRows[h]) else None;
    var since := if before.Some? then before.value.hotSince else None;
    var resident := if before.Some? then before.value.residentSince else None;
    && (row.phase.Hot? <==>
          ema >= run.cfg.hotBps && since.Some? && run.now - since.value >= run.cfg.hotConfirmSec)
    && (row.phase.Hot? || row.phase.Resident?)
    && row.hotSince == (if ema >= run.cfg.hotBps then (if since.Some? then since else Some(run.now))
                        else if ema < run.cfg.lowBps then None
                        else since)
    && row.residentSince == (if resident.Some? && resident.value != 0 then resident else Some(run.now))
    && row.cooldownUntil.None?
  }

  /**
   What a run leaves for each resident it keeps: a soak row whose exposure is the least that covers it at
   its average speed, none if it just keeps running in recovery, and one active reservation of those bytes.
   */
  ghost predicate Exposed(run: Run, rows: Table, soak: SoakRows, t: Torrent) {
    && t.hash in soak && t.hash in run.ema && soak[t.hash].ema == run.ema[t.hash]
    && Marked(run, t.hash, run.ema[t.hash], soak[t.hash])
    && (var x := soak[t.hash].exposure;
        && (if run.cfg.emergencyFloor <= run.freeBytes < run.cfg.diskFloor && IsRunning(t)
               && t.hash in run.soakRows && (run.soakRows[t.hash].phase.Resident? || run.soakRows[t.hash].phase.Hot?)
            then x == 0
            else IsExposure(run.cfg, t, run.ema[t.hash], x))
        && exists p ::
             && 0 <= p < |rows| && Holds(rows[p], SoakProbe, t.hash)
             && rows[p].bytes == x && rows[p].expiresAt == Some(run.now + 120)
             && forall j :: 0 <= j < |rows| && Holds(rows[j], SoakProbe, t.hash) ==> j == p)
  }

  /** The exposure table has each kept resident's exposure. */
  lemma KeptExposure(run: Run, rows: Table, alloc: Allocations, soak: SoakRows, t: Torrent)
    requires DistinctHashes(run.snapshots) && t in Trimmed(run, rows, alloc, soak).kept
    ensures
      var end := Trimmed(run, rows, alloc, soak);
      && t.hash in end.exposures && t in Selected(run)
      && if run.cfg.emergencyFloor <= run.freeBytes < run.cfg.diskFloor && IsRunning(t)
            && t.hash in run.soakRows && (run.soakRows[t.hash].phase.Resident? || run.soakRows[t.hash].phase.Hot?)
         then end.exposures[t.hash] == 0
         else IsExposure(run.cfg, t, Ema(run, t.hash), end.exposures[t.hash])
  {
    hide Trim, Selected, Exposure, IsExposure, Total, SafeBudget, IsRunning, Ema;
    var start, end := TrimStart(run, rows, alloc, soak), Trimmed(run, rows, alloc, soak);
    SelectedDistinct(run);
    TrimKeepsSelected(run, start, Selected(run));
    TrimHolds(run, start, Selected(run));
    var i :| 0 <= i < |end.kept| && end.kept[i] == t;
    ExposureIsLeast(run.cfg, t, Ema(run, t.hash));
  }

  lemma KeptSoakRow(run: Run, soak: SoakRows, exposures: map<string, nat>, stale: set<string>, h: string)
    requires h in exposures && h !in stale
    ensures
      var soak' := CoolSoak(MarkSoak(soak, run, exposures), stale, run.now, run.now + run.cfg.cooldownSec);
      && h in soak' && soak'[h].exposure == exposures[h] && soak'[h].ema == Ema(run, h)
      && Marked(run, h, Ema(run, h), soak'[h])
  {
  }

  lemma KeptLedgerRow(rows: Table, kept: seq<Torrent>, exposures: map<string, nat>, now: int, h: string)
    returns (p: nat)
    requires DistinctHashes(kept) && exposures.Keys == HashSet(kept) && h in exposures
    ensures
      var rows' := SoakLedger(rows, kept, exposures, now);
      && p < |rows'| && Holds(rows'[p], SoakProbe, h) && rows'[p].bytes == exposures[h]
      && rows'[p].expiresAt == Some(now + 120)
      && forall j :: 0 <= j < |rows'| && Holds(rows'[j], SoakProbe, h) ==> j == p
  {
    hide Synced, SoakLedger, Lists, HashSeq;
    KeptLists(kept, exposures);
    SoakLedgerIs(rows, kept, exposures, now);
    var released := ReleaseSoakExcept(rows, HashSet(kept));
    p := SyncedHoldsOne(released, SoakProbe, HashSeq(kept), exposures, now + PROBE_TTL, h);
  }

  /**
   Whom a run reports: started are the kept ones that stand still, stopped the former residents that run
   and were not kept, and cooling down those whose time is not over and those preempted.
   */
  ghost predicate Reports(run: Run, r: SoakResult) {
    var kept := r.residents + r.hot;
    && (forall h :: h in r.started <==> h in kept && exists t :: t in run.snapshots && t.hash == h && t.stopped)
    && (forall h :: h in r.stopped <==>
          && h !in kept
          && h in run.soakRows && (run.soakRows[h].phase.Resident? || run.soakRows[h].phase.Hot?)
          && exists t :: t in run.snapshots && t.hash == h && IsManaged(t)
               && !t.stopped && t.progress < 1.0 && t.amountLeft > 0)
    && (forall h :: h in r.cooldown <==>
          || h in r.preempted
          || (h in run.soakRows && run.soakRows[h].phase.Cooldown?
              && run.soakRows[h].cooldownUntil.Some? && run.soakRows[h].cooldownUntil.value > run.now))
  }

  lemma RunReports(run: Run, rows: Table, alloc: Allocations, soak: SoakRows)
    requires DistinctHashes(run.snapshots)
    requires KeptFrom(Trimmed(run, rows, alloc, soak), Selected(run))
    ensures
      var end := Trimmed(run, rows, alloc, soak);
      var kept := HashSet(end.kept);
      Reports(run, SoakResult(
        HashSeq(Filter(end.kept, STOPPED)), Stale(run, kept), kept - HotOnes(run, kept), HotOnes(run, kept),
        (set h | h in run.soakRows && Cooling(run.soakRows, run.now, h)) + Members(end.preempted),
        end.preempted, end.used))
  {
    hide Trimmed, TurnsHot, Selected, Managed, IsManaged, DistinctHashes;
    var end := Trimmed(run, rows, alloc, soak);
    var kept := HashSet(end.kept);
    StartedAre(run, end.kept);
    StaleAre(run, kept);
    assert (kept - HotOnes(run, kept)) + HotOnes(run, kept) == kept;
    forall h ensures h in Members(end.preempted) <==> h in end.preempted {
    }
    hide HashSet, Stale, HotOnes, Members;
  }

  lemma StartedAre(run: Run, kept: seq<Torrent>)
    requires DistinctHashes(run.snapshots) && forall t :: t in kept ==> t in Selected(run)
    ensures forall h :: h in HashSeq(Filter(kept, STOPPED)) <==>
      h in HashSet(kept) && exists t :: t in run.snapshots && t.hash == h && t.stopped
  {
    hide Selected, Managed;
    FilterElements(kept, STOPPED);
    var started := Filter(kept, STOPPED);
    forall h ensures h in HashSeq(started) <==>
      h in HashSet(kept) && exists t :: t in run.snapshots && t.hash == h && t.stopped
    {
      if h in HashSeq(started) {
        var i :| 0 <= i < |started| && HashSeq(started)[i] == h;
        var t := started[i];
        assert t in started;
        SelectedIsManaged(run, t);
        ManagedAreListed(run, t);
        var k :| 0 <= k < |kept| && kept[k] == t;
        assert kept[k].hash == h;
      }
      if h in HashSet(kept) {
        if t :| t in run.snapshots && t.hash == h && t.stopped {
          var k :| 0 <= k < |kept| && kept[k].hash == h;
          assert kept[k] in kept;
          SelectedIsManaged(run, kept[k]);
          ManagedIsListed(run, kept[k], t);
          assert t in started;
          var i :| 0 <= i < |started| && started[i] == t;
          assert HashSeq(started)[i] == h;
        }
      }
    }
  }

  lemma ManagedAreListed(run: Run, t: Torrent)
    requires t in Managed(run)
    ensures t in run.snapshots
  {
    FilterElements(run.snapshots, NEEDS_BYTES);
  }

  lemma StaleAre(run: Run, kept: set<string>)
    ensures forall h :: h in Stale(run, kept) <==>
      && h !in kept
      && h in run.soakRows && (run.soakRows[h].phase.Resident? || run.soakRows[h].phase.Hot?)
      && exists t :: t in run.snapshots && t.hash == h && IsManaged(t)
           && !t.stopped && t.progress < 1.0 && t.amountLeft > 0
  {
    hide IsManaged;
    var running := Filter(Managed(run), RUNS);
    FilterElements(run.snapshots, NEEDS_BYTES);
    FilterElements(Managed(run), RUNS);
    forall h ensures h in HashSet(running) <==> exists t :: t in running && t.hash == h {
      if h in HashSet(running) {
        var i :| 0 <= i < |running| && running[i].hash == h;
        assert running[i] in running;
      }
      if t :| t in running && t.hash == h {
        var i :| 0 <= i < |running| && running[i] == t;
        assert running[i].hash == h;
      }
    }
  }

  ghost predicate AllExposed(run: Run, rows: Table, soak: SoakRows, kept: set<string>) {
    forall t :: t in run.snapshots && t.hash in kept ==> Exposed(run, rows, soak, t)
  }

  lemma AllKeptExposed(run: Run, rows: Table, alloc: Allocations, soak: SoakRows)
    requires DistinctHashes(run.snapshots) && run.ema == Speeds(Managed(run), run.soakRows)
    requires KeptFrom(Trimmed(run, rows, alloc, soak), Selected(run))
    ensures
      var end := Trimmed(run, rows, alloc, soak);
      var kept := HashSet(end.kept);
      var soak' := CoolSoak(MarkSoak(end.soak, run, end.exposures), Stale(run, kept), run.now,
                            run.now + run.cfg.cooldownSec);
      && (kept - HotOnes(run, kept)) + HotOnes(run, kept) == kept
      && AllExposed(run, SoakLedger(end.rows, end.kept, end.exposures, run.now), soak', kept)
  {
    hide Exposed, Trimmed, SoakLedger, CoolSoak, MarkSoak, Stale, TurnsHot, Selected;
    var end := Trimmed(run, rows, alloc, soak);
    forall t | t in run.snapshots && t.hash in HashSet(end.kept)
      ensures
        var soak' := CoolSoak(MarkSoak(end.soak, run, end.exposures), Stale(run, HashSet(end.kept)), run.now,
                              run.now + run.cfg.cooldownSec);
        Exposed(run, SoakLedger(end.rows, end.kept, end.exposures, run.now), soak', t)
    {
      KeptAreExposed(run, rows, alloc, soak, t);
    }
  }

  lemma KeptAreExposed(run: Run, rows: Table, alloc: Allocations, soak: SoakRows, t: Torrent)
    requires DistinctHashes(run.snapshots) && run.ema == Speeds(Managed(run), run.soakRows)
    requires KeptFrom(Trimmed(run, rows, alloc, soak), Selected(run))
    requires t in run.snapshots && t.hash in HashSet(Trimmed(run, rows, alloc, soak).kept)
    ensures
      var end := Trimmed(run, rows, alloc, soak);
      var soak' := CoolSoak(MarkSoak(end.soak, run, end.exposures), Stale(run, HashSet(end.kept)), run.now,
                            run.now + run.cfg.cooldownSec);
      Exposed(run, SoakLedger(end.rows, end.kept, end.exposures, run.now), soak', t)
  {
    hide Trimmed, Selected, IsExposure, SoakLedger, Speeds, Managed, CoolSoak, MarkSoak, IsRunning, Holds, Marked;
    var end := Trimmed(run, rows, alloc, soak);
    var i :| 0 <= i < |end.kept| && end.kept[i].hash == t.hash;
    var kept := end.kept[i];
    KeptExposure(run, rows, alloc, soak, kept);
    SelectedIsManaged(run, kept);
    ManagedIsListed(run, kept, t);
    SpeedsAre(Managed(run), run.soakRows, t);
    NotStale(run, end.kept, t.hash);
    KeptSoakRow(run, end.soak, end.exposures, Stale(run, HashSet(end.kept)), t.hash);
    var p := KeptLedgerRow(end.rows, end.kept, end.exposures, run.now, t.hash);
  }

  lemma NotStale(run: Run, kept: seq<Torrent>, h: string)
    requires h in HashSet(kept)
    ensures h !in Stale(run, HashSet(kept))
  {
  }

  lemma ManagedIsListed(run: Run, kept: Torrent, t: Torrent)
    requires DistinctHashes(run.snapshots) && kept in Managed(run) && t in run.snapshots && kept.hash == t.hash
    ensures kept == t
  {
    FilterElements(run.snapshots, NEEDS_BYTES);
  }

  /** The tables and the result are what selecting, trimming and storing come to. */
  ghost predicate RanAs(run: Run, rows: Table, alloc: Allocations, soak: SoakRows, rows': Table, alloc': Allocations,
                        soak': SoakRows, r: SoakResult) {
    var end := Trimmed(run, rows, alloc, soak);
    var kept := HashSet(end.kept);
    && KeptFrom(end, Selected(run))
    && rows' == SoakLedger(end.rows, end.kept, end.exposures, run.now)
    && alloc' == CoolAllocations(MarkAllocations(end.alloc, run, end.exposures), Stale(run, kept), run.now)
    && soak' == CoolSoak(MarkSoak(end.soak, run, end.exposures), Stale(run, kept), run.now,
                         run.now + run.cfg.cooldownSec)
    && r == SoakResult(
         HashSeq(Filter(end.kept, STOPPED)), Stale(run, kept), kept - HotOnes(run, kept), HotOnes(run, kept),
         (set h | h in run.soakRows && Cooling(run.soakRows, run.now, h)) + Members(end.preempted),
         end.preempted, end.used)
  }

  /** What that means for the residents, the report, the soak rows' total and the allocations. */
  lemma RunMeans(run: Run, rows: Table, alloc: Allocations, soak: SoakRows, rows': Table, alloc': Allocations,
                 soak': SoakRows, r: SoakResult)
    requires DistinctHashes(run.snapshots) && run.ema == Speeds(Managed(run), run.soakRows)
    requires RanAs(run, rows, alloc, soak, rows', alloc', soak', r)
    ensures AllExposed(run, rows', soak', r.residents + r.hot) && Reports(run, r)
    ensures NoStrays(rows) ==> SoakTotal(rows', run.now) == r.reserved
    ensures Tables.NobodyActivated(alloc, alloc')
  {
    hide Trim, Selected, CoolAllocations, CoolSoak, MarkSoak, MarkAllocations, Stale, HotOnes, Cooling, Filter, HashSeq,
         Speeds, NoStrays, SoakTotal, SoakLedger, Tables.NobodyActivated, AllExposed, Reports, Total, SafeBudget;
    var start := TrimStart(run, rows, alloc, soak);
    SelectedDistinct(run);
    TrimWithinCap(run, start, Selected(run));
    RunActivatesNobody(run, rows, alloc, soak, Stale(run, HashSet(Trim(run, start, Selected(run)).kept)));
    if NoStrays(rows) {
      ReportsWhatItHolds(run, rows, alloc, soak);
    }
    AllKeptExposed(run, rows, alloc, soak);
    RunReports(run, rows, alloc, soak);
  }

  /** Everything a run reads at its start, its speeds from the samples it takes first. */
  function RunOn(cfg: Config, snapshots: seq<Torrent>, activeHashes: set<string>, soak: SoakRows, freeBytes: nat,
                 now: int): Run {
    Run(cfg, snapshots, activeHashes, soak, Speeds(Filter(snapshots, NEEDS_BYTES), soak), freeBytes, now)
  }

  class SoakQueueService {
    const cfg: Config
    const db: StateDb

    constructor (cfg: Config, db: StateDb)
      ensures this.cfg == cfg && this.db == db
    {
      this.cfg := cfg;
      this.db := db;
    }

    /** Sample the speeds of these torrents into their rows. */
    method UpdateSamples(torrents: seq<Torrent>, now: int) returns (speeds: map<string, nat>)
      requires DistinctHashes(torrents)
      modifies db`soak
      ensures speeds == Speeds(torrents, old(db.soak))
      ensures db.soak == Sampled(old(db.soak), speeds, now)
    {
      hide NextEma, Speeds, Sampled;
      var rows := db.soak;
      speeds := map[];
      NothingSampled(torrents, rows, now);
      for i := 0 to |torrents|
        invariant speeds == Speeds(torrents[..i], rows)
        invariant db.soak == Sampled(rows, speeds, now)
      {
        var t := torrents[i];
        SampleNext(torrents, rows, i, now);
        var ema := NextEma(rows, t.hash, t.dlspeed);
        speeds := speeds[t.hash := ema];
        db.soak := db.soak[t.hash := SampledRow(rows, t.hash, ema, now)];
      }
    }

    /** Score the download rows, best first, and take them until the need is covered. */
    method SelectVictims(snapshots: seq<Torrent>, needed: int, excluded: set<string>)
      returns (victims: seq<Scored>, released: nat)
      requires needed > 0
      ensures victims == Victims(db.reservations, db.allocations, snapshots, excluded, needed)
      ensures released == Bytes(victims)
    {
      hide MayPreempt, Find, ScoreRows, Victims, Ranked, Cover, Bytes;
      var scored: seq<Scored> := [];
      NothingScored(db.allocations, snapshots, excluded);
      assert db.reservations[..0] == [];
      for i := 0 to |db.reservations|
        invariant scored == ScoreRows(db.reservations[..i], db.allocations, snapshots, excluded)
      {
        ScoreStep(db.reservations, i, db.allocations, snapshots, excluded);
        var r := db.reservations[i];
        if r.kind.ActiveDownload? && r.state.Active? && r.hash.Some?
          && MayPreempt(r.hash.value, db.allocations, snapshots, excluded) {
          var t := Find(snapshots, r.hash.value).value;
          var nearCompletionBonus := (t.progress * r.bytes as real).Floor;
          var score := t.dlspeed * 2 + r.bytes - nearCompletionBonus;
          assert score == Score(t, r.bytes);
          scored := scored + [Scored(score, r.hash.value, r.bytes)];
        }
      }
      assert db.reservations[..|db.reservations|] == db.reservations;
      victims, released := TakeCover(Ranked(scored), needed);
      VictimsAre(db.reservations, db.allocations, snapshots, excluded, needed);
    }

    /** Take victims from the front until the need is covered; take none when it cannot be. */
    method TakeCover(ranked: seq<Scored>, needed: int) returns (victims: seq<Scored>, released: nat)
      requires needed > 0
      ensures victims == if Bytes(Cover(ranked, needed)) < needed then [] else Cover(ranked, needed)
      ensures released == Bytes(victims)
    {
      hide Cover, Bytes, Covering;
      victims, released := [], 0;
      var i := 0;
      CoveringStart(ranked, needed);
      while i < |ranked| && released < needed
        invariant i <= |ranked| && victims == ranked[..i]
        invariant Covering(ranked, needed, i, released)
        decreases |ranked| - i
      {
        CoveringStep(ranked, needed, i, released);
        assert ranked[..i + 1] == ranked[..i] + [ranked[i]];
        victims := victims + [ranked[i]];
        released := released + ranked[i].bytes;
        i := i + 1;
      }
      CoveringEnd(ranked, needed, i, released);
      if released < needed {
        victims, released := [], 0;
      }
    }

    /** Stop these downloads: release their rows and put them into cooldown, one by one. */
    method PreemptActive(hashes: seq<string>, now: int)
      modifies db`reservations, db`allocations, db`soak
      ensures db.reservations == ReleaseKind(old(db.reservations), ActiveDownload, Members(hashes))
      ensures db.allocations == CoolAllocations(old(db.allocations), Members(hashes), now)
      ensures db.soak == CoolSoak(old(db.soak), Members(hashes), now, now + cfg.cooldownSec)
    {
      hide CoolAllocations, CoolSoak, ReleaseKind, Members, CooledRow;
      NobodyCools(db.reservations, db.allocations, db.soak, hashes, now, now + cfg.cooldownSec);
      for i := 0 to |hashes|
        invariant db.reservations == ReleaseKind(old(db.reservations), ActiveDownload, Members(hashes[..i]))
        invariant db.allocations == CoolAllocations(old(db.allocations), Members(hashes[..i]), now)
        invariant db.soak == CoolSoak(old(db.soak), Members(hashes[..i]), now, now + cfg.cooldownSec)
      {
        var h := hashes[i];
        MembersStep(hashes, i);
        ReleaseTwice(old(db.reservations), Members(hashes[..i]), {h});
        CoolStep(old(db.allocations), old(db.soak), Members(hashes[..i]), h, now, now + cfg.cooldownSec);
        db.reservations := ReleaseKind(db.reservations, ActiveDownload, {h});
        db.allocations := db.allocations[h := Tables.Allocation(Tables.Desired.SoakCooldown, 0, Some(false), now)];
        db.soak := db.soak[h := CooledRow(db.soak, h, now, now + cfg.cooldownSec)];
      }
    }

    /** Keep who fits, preempting downloads for a hot resident that does not. */
    method TrimToBudget(run: Run, selected: seq<Torrent>)
      returns (kept: seq<Torrent>, exposures: map<string, nat>, preempted: seq<string>)
      requires run.cfg == cfg
      modifies db`reservations, db`allocations, db`soak
      ensures
        var end := Trim(run, TrimStart(run, old(db.reservations), old(db.allocations), old(db.soak)), selected);
        && kept == end.kept && exposures == end.exposures && preempted == end.preempted
        && db.reservations == end.rows && db.allocations == end.alloc && db.soak == end.soak
    {
      hide Total, Trim, Victims, Bytes, Members, HashesOf, ReleaseKind, CoolAllocations, CoolSoak, ExposureOf, HotReady,
           InSoak;
      var recovery := cfg.emergencyFloor <= run.freeBytes < cfg.diskFloor;
      var ids := db.Scan();
      var others := NonSoakBytes(db.reservations, ids, run.now);
      var cap := Min(cfg.maxTotalExposure, SafeBudget(run, others));
      ghost var start := TrimStart(run, db.reservations, db.allocations, db.soak);
      var used := 0;
      kept, exposures, preempted := [], map[], [];
      TrimNone(run, start, selected);
      for i := 0 to |selected|
        invariant TrimState(db.reservations, db.allocations, db.soak, kept, exposures, used, cap, preempted)
               == Trim(run, start, selected[..i])
      {
        TrimAt(run, start, selected, i);
        var t := selected[i];
        var exposure := ExposureOf(run, t);
        if recovery && InSoak(run.soakRows, t.hash) && IsRunning(t) {
          kept := kept + [t];
          exposures := exposures[t.hash := 0];
          continue;
        }
        if used + exposure > cap {
          if !HotReady(run, t.hash) {
            continue;
          }
          var needed := used + exposure - cap;
          var victims, released := SelectVictims(run.snapshots, needed, {t.hash} + Members(preempted));
          if victims == [] || released < needed {
            VictimsCoverBarely(db.reservations, db.allocations, run.snapshots, {t.hash} + Members(preempted), needed);
            continue;
          }
          MembersOfVictims(victims);
          PreemptActive(VictimHashes(victims), run.now);
          preempted := preempted + VictimHashes(victims);
          cap := cap + released;
        }
        kept := kept + [t];
        exposures := exposures[t.hash := exposure];
        used := used + exposure;
      }
    }

    /** Store every kept resident's state, and say which of them are hot. */
    method UpdateResidentState(run: Run, kept: seq<Torrent>, exposures: map<string, nat>) returns (hot: set<string>)
      requires run.cfg == cfg && exposures.Keys == HashSet(kept)
      modifies db`allocations, db`soak
      ensures hot == HotOnes(run, HashSet(kept))
      ensures db.soak == MarkSoak(old(db.soak), run, exposures)
      ensures db.allocations == MarkAllocations(old(db.allocations), run, exposures)
    {
      hide HashSet, HotOnes, MarkSoak, MarkAllocations, OnlyThese;
      MarkNone(db.soak, db.allocations, run, kept, exposures);
      hot := {};
      for i := 0 to |kept|
        invariant hot == HotOnes(run, HashSet(kept[..i]))
        invariant db.soak == MarkSoak(old(db.soak), run, OnlyThese(exposures, HashSet(kept[..i])))
        invariant db.allocations == MarkAllocations(old(db.allocations), run, OnlyThese(exposures, HashSet(kept[..i])))
      {
        var h := kept[i].hash;
        KeptStep(kept, i);
        HotStep(run, HashSet(kept[..i]), h);
        MarkStep(old(db.soak), old(db.allocations), run, exposures, HashSet(kept[..i]), h);
        var ema := Ema(run, h);
        var hotSince := HotSince(run, h);
        var phase := Tables.Resident;
        if ema >= cfg.hotBps {
          if hotSince.None? {
            hotSince := Some(run.now);
          } else if run.now - hotSince.value >= cfg.hotConfirmSec {
            phase := Tables.Hot;
            hot := hot + {h};
          }
        } else if ema < cfg.lowBps {
          hotSince := None;
        }
        db.soak := db.soak[h :=
          Tables.SoakRow(phase, hotSince, ResidentSince(run, h), None, exposures[h], ema, Some(run.now))];
        var desired := if phase == Tables.Hot then Tables.Desired.SoakHot else Tables.Desired.SoakResident;
        db.allocations := db.allocations[h := Tables.Allocation(desired, exposures[h], Some(false), run.now)];
      }
    }

    /**
     One run. The speeds are sampled whatever follows. Without a healthy sync, or when disabled, nothing
     else changes. Otherwise the selection is trimmed, the residents' rows, allocations and reservations
     are brought in step with it, and residents that were not kept cool down. Nobody's allocation becomes
     active, and unless there were stray rows the soak rows end up holding exactly the bytes reported.
     */
    method RunOnce(snapshots: seq<Torrent>, freeBytes: nat, syncHealthy: bool, activeHashes: set<string>, now: int)
      returns (r: SoakResult)
      requires DistinctHashes(snapshots)
      modifies db`reservations, db`allocations, db`soak
      ensures
        var run := RunOn(cfg, snapshots, activeHashes, old(db.soak), freeBytes, now);
        var sampled := Sampled(old(db.soak), run.ema, now);
        if !cfg.enabled || !syncHealthy then
          r == NOTHING && db.reservations == old(db.reservations) && db.allocations == old(db.allocations)
            && db.soak == sampled
        else
          && RanAs(run, old(db.reservations), old(db.allocations), sampled, db.reservations, db.allocations, db.soak, r)
          && AllExposed(run, db.reservations, db.soak, r.residents + r.hot)
          && Reports(run, r)
          && (old(NoStrays(db.reservations)) ==> SoakTotal(db.reservations, now) == r.reserved)
      ensures Tables.NobodyActivated(old(db.allocations), db.allocations)
    {
      hide AllExposed, Reports, Trim, Selected, CoolAllocations, CoolSoak, MarkSoak, MarkAllocations, Stale, HotOnes,
           Cooling, Filter, HashSeq, Speeds, Sampled, NoStrays, SoakTotal, SoakLedger, Tables.NobodyActivated,
           HashSet, DistinctHashes;
      var rows := db.soak;
      FilterDistinct(snapshots, NEEDS_BYTES);
      var ema := UpdateSamples(Filter(snapshots, NEEDS_BYTES), now);
      if !cfg.enabled || !syncHealthy {
        Tables.NobodyNew(db.allocations);
        return NOTHING;
      }
      var run := Run(cfg, snapshots, activeHashes, rows, ema, freeBytes, now);
      ghost var start := TrimStart(run, db.reservations, db.allocations, db.soak);
      SelectedDistinct(run);
      TrimKeepsSelected(run, start, Selected(run));
      TrimWithinCap(run, start, Selected(run));
      ghost var rows0, alloc0, soak0 := db.reservations, db.allocations, db.soak;
      var cooling := set h | h in run.soakRows && Cooling(run.soakRows, now, h);
      var kept, exposures, preempted := TrimToBudget(run, Selected(run));
      var hot := UpdateResidentState(run, kept, exposures);
      var stale := Stale(run, HashSet(kept));
      db.allocations := CoolAllocations(db.allocations, stale, now);
      db.soak := CoolSoak(db.soak, stale, now, now + cfg.cooldownSec);
      KeptLists(kept, exposures);
      SoakLedgerIs(db.reservations, kept, exposures, now);
      db.reservations := ReleaseSoakExcept(db.reservations, HashSet(kept));
      db.SyncRows(SoakProbe, HashSeq(kept), exposures, now + PROBE_TTL);
      var reserved := SumExposures(exposures);
      r := SoakResult(HashSeq(Filter(kept, STOPPED)), stale, HashSet(kept) - hot, hot, cooling + Members(preempted),
                      preempted, reserved);
      RunMeans(run, rows0, alloc0, soak0, db.reservations, db.allocations, db.soak, r);
    }
  }

  const STOPPED: Torrent -> bool := (t: Torrent) => t.stopped

  function OnlyThese(m: map<string, nat>, hs: set<string>): map<string, nat> {
    map h | h in m && h in hs :: m[h]
  }

  method SumExposures(exposures: map<string, nat>) returns (total: nat)
    ensures total == Sum(exposures)
  {
    total := 0;
    var rest := exposures;
    while rest != map[]
      invariant total + Sum(rest) == Sum(exposures)
      decreases |rest|
    {
      var h :| h in rest;
      SumPick(rest, h);
      SizeWithout(rest, h);
      total := total + rest[h];
      rest := rest - {h};
    }
  }
}
