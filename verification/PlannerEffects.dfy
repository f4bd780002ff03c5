/**
 What a planner tick leaves behind, on values: the stored allocations, the start and stop lists, and
 the ledger once the planner has brought its own rows in step with its selection.
 */
module PlannerEffects {
  import opened Options
  import opened Sums
  import opened Ledger
  import opened LedgerUpdates
  import opened Torrents
  import opened Tables
  import opened PlannerChoice
  import Health

  // ---------------------------------------------------------------------------------------------
  // Allocations
  // ---------------------------------------------------------------------------------------------

  /** Sequential download is wanted only of a lively torrent. */
  predicate WantsSequential(t: Torrent) {
    t.stalledSeconds < 60 && t.seeds >= 3 && t.peers >= 5
  }

  /** What the tick stores for a managed torrent, if it stores anything. */
  function Outcome(tick: Tick, selected: set<string>, t: Torrent): Option<Allocation> {
    if AutoDead(tick, t) then Some(Allocation(Desired.Dead, 0, Some(false), tick.now))
    else if InCooldown(tick, t) then
      Some(Allocation(if ActiveSlow(tick, t) then Desired.Soak else Desired.SoakCooldown, 0, Some(false), tick.now))
    else if IsCandidate(tick, t) then
      if t.hash in selected then Some(Allocation(Desired.Active, t.amountLeft, Some(WantsSequential(t)), tick.now))
      else Some(Allocation(Desired.Soak, 0, Some(false), tick.now))
    else if Skipped(tick, t) then Some(Allocation(Desired.Soak, 0, Some(false), tick.now))
    else None
  }

  function OutcomeOf(tick: Tick, selected: set<string>, h: string): Option<Allocation> {
    var t := Find(Managed(tick), h);
    if t.None? then None else Outcome(tick, selected, t.value)
  }

  /** The allocations with the outcomes of these torrents written over them. */
  function Overlay(tick: Tick, selected: set<string>, written: set<string>): Allocations {
    map h | h in tick.alloc.Keys + written ::
      if h in written && OutcomeOf(tick, selected, h).Some? then OutcomeOf(tick, selected, h).value
      else if h in tick.alloc then tick.alloc[h]
      else Allocation(Desired.Soak, 0, None, 0)
  }

  /** The torrents that get an allocation written this tick. */
  function Written(tick: Tick, selected: set<string>): set<string> {
    set i | 0 <= i < |Managed(tick)| && Outcome(tick, selected, Managed(tick)[i]).Some? :: Managed(tick)[i].hash
  }

  /** A sequential-mode request is made only when the stored wish differs. */
  predicate NeedsSeq(tick: Tick, h: string, desired: bool) {
    h !in tick.alloc || tick.alloc[h].seqDl != Some(desired)
  }

  /** The request that goes with an outcome: off unless selected, and for a selected torrent only on. */
  function Request(tick: Tick, selected: set<string>, t: Torrent): Option<bool> {
    var outcome := Outcome(tick, selected, t);
    if outcome.None? then None
    else if outcome.value.desired == Desired.Active then
      if WantsSequential(t) && NeedsSeq(tick, t.hash, true) then Some(true) else None
    else if NeedsSeq(tick, t.hash, false) then Some(false)
    else None
  }

  function PauseTest(tick: Tick, selected: set<string>): Torrent -> bool {
    (t: Torrent) =>
      && t.hash !in selected && t.hash !in tick.protectedRunning
      && !(TickMode(tick) == Recovery && ActiveSlow(tick, t))
      && IsRunning(t)
  }

  const STOPPED: Torrent -> bool := (t: Torrent) => t.stopped

  function Started(selected: seq<Torrent>): seq<Torrent> {
    Filter(selected, STOPPED)
  }

  function Paused(tick: Tick, selected: set<string>): seq<Torrent> {
    Filter(Managed(tick), PauseTest(tick, selected))
  }

  lemma {:induction false} FindDistinct(ts: seq<Torrent>, i: nat)
    requires DistinctHashes(ts) && i < |ts|
    ensures Find(ts, ts[i].hash) == Some(ts[i])
  {
    if i > 0 {
      FindDistinct(ts[1..], i - 1);
    }
  }

  lemma {:induction false} FindInside(ts: seq<Torrent>, h: string)
    requires Find(ts, h).Some?
    ensures Find(ts, h).value in ts && Find(ts, h).value.hash == h
  {
    if ts[0].hash != h {
      FindInside(ts[1..], h);
    }
  }

  /**
   A tick sorts the managed torrents that still need bytes into those whose stored state is `active`,
   which are exactly the selected ones, and the rest; a torrent stored as dead and not cooling down
   stays dead.
   */
  lemma StoredStates(tick: Tick, selected: seq<Torrent>, t: Torrent)
    requires DistinctHashes(tick.snapshots)
    requires forall s :: s in selected ==> s in Candidates(tick)
    requires t in Managed(tick) && t.amountLeft > 0
    ensures
      var after := Overlay(tick, HashSet(selected), Written(tick, HashSet(selected)));
      && t.hash in after
      && (after[t.hash].desired == Desired.Active <==> t.hash in HashSet(selected))
      && (t.hash in tick.alloc && tick.alloc[t.hash].desired == Desired.Dead && t.hash !in tick.cooldown ==>
            after[t.hash].desired == Desired.Dead)
  {
    hide Overlay, Written, Filter, Candidates, Managed;
    var chosen := HashSet(selected);
    OutcomeIsStored(tick, chosen, t);
    if t.hash in chosen {
      var j :| 0 <= j < |selected| && selected[j].hash == t.hash;
      assert selected[j] in selected;
      CandidateIsManaged(tick, selected[j], t);
    }
  }

  /** What is stored for a managed torrent is its outcome, or what was there before. */
  lemma OutcomeIsStored(tick: Tick, chosen: set<string>, t: Torrent)
    requires DistinctHashes(tick.snapshots) && t in Managed(tick)
    ensures
      var after := Overlay(tick, chosen, Written(tick, chosen));
      var outcome := Outcome(tick, chosen, t);
      if outcome.Some? then t.hash in after && after[t.hash] == outcome.value
      else (t.hash in after <==> t.hash in tick.alloc) && (t.hash in tick.alloc ==> after[t.hash] == tick.alloc[t.hash])
  {
    hide Outcome, Filter, IsManaged;
    var i: nat :| i < |Managed(tick)| && Managed(tick)[i] == t;
    FilterDistinct(tick.snapshots, MANAGED);
    FindDistinct(Managed(tick), i);
    if Outcome(tick, chosen, t).None? {
      WrittenOnlyWithOutcome(tick, chosen, i);
    } else {
      assert t.hash in Written(tick, chosen);
    }
  }

  lemma CandidateIsManaged(tick: Tick, s: Torrent, t: Torrent)
    requires DistinctHashes(tick.snapshots) && s in Candidates(tick) && t in Managed(tick) && s.hash == t.hash
    ensures s == t && IsCandidate(tick, t)
  {
    hide IsCandidate, Filter;
    CandidateElements(tick);
    FilterElements(tick.snapshots, MANAGED);
    SameHashSameTorrent(tick.snapshots, t, s);
  }

  lemma SameHashSameTorrent(ts: seq<Torrent>, a: Torrent, b: Torrent)
    requires DistinctHashes(ts) && a in ts && b in ts && a.hash == b.hash
    ensures a == b
  {
  }

  /**
   Nothing is both started and stopped, and a managed download that is left running is selected,
   protected, or, in recovery only, one just demoted for being slow.
   */
  lemma RunningPartition(tick: Tick, selected: seq<Torrent>, t: Torrent)
    requires DistinctHashes(tick.snapshots)
    requires forall s :: s in selected ==> s in Candidates(tick)
    ensures HashSet(Started(selected)) !! HashSet(Paused(tick, HashSet(selected)))
    ensures t in Managed(tick) && IsRunning(t) && t !in Paused(tick, HashSet(selected)) ==>
      || t.hash in HashSet(selected)
      || t.hash in tick.protectedRunning
      || (TickMode(tick) == Recovery && ActiveSlow(tick, t))
  {
    FilterElements(selected, STOPPED);
    FilterElements(Managed(tick), PauseTest(tick, HashSet(selected)));
    forall h | h in HashSet(Started(selected)) ensures h !in HashSet(Paused(tick, HashSet(selected))) {
      var i :| 0 <= i < |Started(selected)| && Started(selected)[i].hash == h;
      assert Started(selected)[i] in selected;
      var k :| 0 <= k < |selected| && selected[k] == Started(selected)[i];
      assert h in HashSet(selected);
      forall j | 0 <= j < |Paused(tick, HashSet(selected))| ensures Paused(tick, HashSet(selected))[j].hash != h {
        assert Paused(tick, HashSet(selected))[j] in Paused(tick, HashSet(selected));
      }
    }
  }

  /** A selected torrent is never cooling down, dead, or protected without being forced. */
  lemma SelectedAreEligible(tick: Tick, selected: seq<Torrent>, t: Torrent)
    requires forall s :: s in selected ==> s in Candidates(tick)
    requires t in selected
    ensures t.amountLeft > 0 && t.hash !in tick.cooldown
    ensures t.hash in tick.protectedRunning ==> t.hash in tick.forcedActive
    ensures TickMode(tick) == Recovery ==> t.amountLeft <= tick.cfg.recoveryMaxRemaining
    ensures t.hash in tick.alloc ==> tick.alloc[t.hash].desired != Desired.Dead
  {
    CandidateElements(tick);
  }

  // ---------------------------------------------------------------------------------------------
  // The tick as one torrent's health record sees it
  // ---------------------------------------------------------------------------------------------

  function SampleOf(tick: Tick, selected: set<string>, t: Torrent): Health.Sample {
    Health.Sample(
      tick.now, t.hash in selected, AutoDead(tick, t),
      t.hash in tick.alloc && tick.alloc[t.hash].desired == Desired.Active,
      t.dlspeed, t.completed, t.progress, t.seeds, t.peers)
  }

  function HealthAfter(tick: Tick, selected: set<string>, upTo: nat): HealthRows
    requires upTo <= |Managed(tick)|
  {
    if upTo == 0 then tick.health
    else
      var t := Managed(tick)[upTo - 1];
      HealthAfter(tick, selected, upTo - 1)[t.hash :=
        Health.NextHealth(Lookup(tick.health, t.hash), SampleOf(tick, selected, t))]
  }

  function LifeOf(alloc: Allocations, health: HealthRows, h: string): Health.Life {
    Health.Life(Lookup(health, h), h in alloc && alloc[h].desired == Desired.Active)
  }

  function TickEvent(tick: Tick, selected: set<string>, t: Torrent): Health.Event {
    Health.Event.Tick(SampleOf(tick, selected, t), ActiveSlow(tick, t), Outcome(tick, selected, t).Some?)
  }

  lemma {:induction false} HealthAt(tick: Tick, selected: set<string>, upTo: nat, i: nat)
    requires DistinctHashes(Managed(tick)) && i < upTo <= |Managed(tick)|
    ensures
      var t := Managed(tick)[i];
      Lookup(HealthAfter(tick, selected, upTo), t.hash)
        == Some(Health.NextHealth(Lookup(tick.health, t.hash), SampleOf(tick, selected, t)))
  {
    if i < upTo - 1 {
      HealthAt(tick, selected, upTo - 1, i);
    }
  }

  /**
   What a tick does to one managed torrent's health row and stored state is one step of the
   health run, so whatever is proved of those runs holds of the planner.
   */
  lemma TickIsHealthStep(tick: Tick, selected: seq<Torrent>, i: nat)
    requires DistinctHashes(tick.snapshots)
    requires forall s :: s in selected ==> s in Candidates(tick)
    requires i < |Managed(tick)|
    ensures
      var t := Managed(tick)[i];
      var chosen := HashSet(selected);
      var before := LifeOf(tick.alloc, tick.health, t.hash);
      var after := LifeOf(Overlay(tick, chosen, Written(tick, chosen)), HealthAfter(tick, chosen, |Managed(tick)|),
                          t.hash);
      && Health.Allowed(before, TickEvent(tick, chosen, t), tick.cfg.slowDemoteSec)
      && after == Health.Step(before, TickEvent(tick, chosen, t))
  {
    var t := Managed(tick)[i];
    var chosen := HashSet(selected);
    hide Overlay, Written, Filter, Candidates, Managed, HealthAfter, Outcome, AutoDead, IsCandidate,
         Health.NextHealth, Health.ShouldDemote;
    FilterDistinct(tick.snapshots, MANAGED);
    ManagedAreFiltered(tick);
    HealthAt(tick, chosen, |Managed(tick)|, i);
    OutcomeIsStored(tick, chosen, t);
    if t.hash in chosen {
      var j :| 0 <= j < |selected| && selected[j].hash == t.hash;
      assert selected[j] in selected;
      CandidateIsManaged(tick, selected[j], t);
    }
    OutcomeMeans(tick, chosen, t);
  }

  /** A selected candidate is made active, nobody else is, and a slow one is stopped. */
  lemma OutcomeMeans(tick: Tick, chosen: set<string>, t: Torrent)
    requires t.hash in chosen ==> IsCandidate(tick, t)
    ensures
      var outcome := Outcome(tick, chosen, t);
      && (t.hash in chosen ==> outcome.Some?)
      && (outcome.Some? ==> (outcome.value.desired == Desired.Active <==> t.hash in chosen))
      && (ActiveSlow(tick, t) ==> t.hash !in chosen && outcome.Some?)
  {
    hide AutoDead, WantsSequential, Health.ShouldDemote, TickMode;
  }

  lemma ManagedAreFiltered(tick: Tick)
    ensures Managed(tick) == Filter(tick.snapshots, MANAGED)
  {
  }

  lemma WrittenOnlyWithOutcome(tick: Tick, chosen: set<string>, i: nat)
    requires DistinctHashes(Managed(tick)) && i < |Managed(tick)|
    requires Outcome(tick, chosen, Managed(tick)[i]).None?
    ensures Managed(tick)[i].hash !in Written(tick, chosen)
  {
  }

  // ---------------------------------------------------------------------------------------------
  // The ledger
  // ---------------------------------------------------------------------------------------------

  function Wanted(ts: seq<Torrent>): map<string, nat> {
    if ts == [] then map[] else Wanted(ts[..|ts| - 1])[ts[|ts| - 1].hash := ts[|ts| - 1].amountLeft]
  }

  lemma {:induction false} WantedKeys(ts: seq<Torrent>)
    ensures Wanted(ts).Keys == HashSet(ts)
  {
    if ts != [] {
      var n := |ts| - 1;
      WantedKeys(ts[..n]);
      assert forall h :: h in HashSet(ts) <==> h in HashSet(ts[..n]) || h == ts[n].hash by {
        forall h | h in HashSet(ts[..n]) ensures h in HashSet(ts) {
          var i :| 0 <= i < n && ts[..n][i].hash == h;
          assert ts[i].hash == h;
        }
        assert ts[n].hash in HashSet(ts);
        forall h | h in HashSet(ts) && h != ts[n].hash ensures h in HashSet(ts[..n]) {
          var i :| 0 <= i < |ts| && ts[i].hash == h;
          assert ts[..n][i].hash == h;
        }
      }
    }
  }

  lemma {:induction false} WantedAt(ts: seq<Torrent>, i: nat)
    requires DistinctHashes(ts) && i < |ts|
    ensures ts[i].hash in Wanted(ts) && Wanted(ts)[ts[i].hash] == ts[i].amountLeft
  {
    var n := |ts| - 1;
    if i < n {
      WantedAt(ts[..n], i);
      assert ts[..n][i] == ts[i];
    }
  }

  lemma SelectionLists(ts: seq<Torrent>)
    requires DistinctHashes(ts)
    ensures Lists(HashSeq(ts), Wanted(ts))
  {
    WantedKeys(ts);
    forall h ensures h in HashSeq(ts) <==> h in Wanted(ts) {
      if h in HashSet(ts) {
        var i :| 0 <= i < |ts| && ts[i].hash == h;
        assert HashSeq(ts)[i] == h;
      }
      if h in HashSeq(ts) {
        var i :| 0 <= i < |ts| && HashSeq(ts)[i] == h;
        assert ts[i].hash == h;
      }
    }
  }

  const ROW_TTL := 120

  /** The planner's rows after a tick: released for whoever was not selected, rewritten for the rest. */
  function PlannerRows(rows: Table, managed: set<string>, selected: seq<Torrent>, now: int): Table
    requires DistinctHashes(selected)
  {
    SelectionLists(selected);
    Synced(ReleaseKind(rows, ActiveDownload, managed - HashSet(selected)), ActiveDownload,
           HashSeq(selected), Wanted(selected), now + ROW_TTL)
  }

  /**
   From any ledger, duplicates and stale rows included: each selected torrent ends with exactly one
   unreleased download row, of the bytes it still needs; a managed torrent that was not selected ends
   with none; every row of another kind or of an unmanaged torrent is untouched.
   */
  lemma PlannerRowsExact(rows: Table, managed: set<string>, selected: seq<Torrent>, now: int, i: nat) returns (p: nat)
    requires DistinctHashes(selected) && i < |selected| && HashSet(selected) <= managed
    ensures
      var rows' := PlannerRows(rows, managed, selected, now);
      && p < |rows'| && Holds(rows'[p], ActiveDownload, selected[i].hash)
      && rows'[p].bytes == selected[i].amountLeft && rows'[p].expiresAt == Some(now + 120)
      && (forall j :: 0 <= j < |rows'| && j != p ==> !Holds(rows'[j], ActiveDownload, selected[i].hash))
  {
    SelectionLists(selected);
    WantedAt(selected, i);
    p := SyncedHoldsOne(ReleaseKind(rows, ActiveDownload, managed - HashSet(selected)), ActiveDownload,
                        HashSeq(selected), Wanted(selected), now + ROW_TTL, selected[i].hash);
  }

  lemma PlannerRowsElsewhere(rows: Table, managed: set<string>, selected: seq<Torrent>, now: int)
    requires DistinctHashes(selected) && HashSet(selected) <= managed
    ensures
      var rows' := PlannerRows(rows, managed, selected, now);
      && |rows| <= |rows'|
      && (forall h, j :: h in managed - HashSet(selected) && 0 <= j < |rows'| ==> !Holds(rows'[j], ActiveDownload, h))
      && (forall j :: 0 <= j < |rows|
                      && !(rows[j].hash.Some? && rows[j].hash.value in managed && rows[j].kind.ActiveDownload?)
                      ==> rows'[j] == rows[j])
  {
    hide FirstHolder, Wanted, Lists, Missing, Synced;
    SelectionLists(selected);
    WantedKeys(selected);
    var released := ReleaseKind(rows, ActiveDownload, managed - HashSet(selected));
    var rows' := PlannerRows(rows, managed, selected, now);
    ListedAreSelected(selected);
    SyncedAt(released, ActiveDownload, HashSeq(selected), Wanted(selected), now + ROW_TTL, 0);
    forall j | 0 <= j < |rows'|
      ensures forall h :: h in managed - HashSet(selected) ==> !Holds(rows'[j], ActiveDownload, h)
      ensures j < |rows| && !(rows[j].hash.Some? && rows[j].hash.value in managed && rows[j].kind.ActiveDownload?) ==>
        rows'[j] == rows[j]
    {
      SyncedAt(released, ActiveDownload, HashSeq(selected), Wanted(selected), now + ROW_TTL, j);
    }
  }

  lemma ListedAreSelected(ts: seq<Torrent>)
    ensures forall h :: h in HashSeq(ts) ==> h in HashSet(ts)
  {
    forall h | h in HashSeq(ts) ensures h in HashSet(ts) {
      var i :| 0 <= i < |ts| && HashSeq(ts)[i] == h;
      assert ts[i].hash == h;
    }
  }

  /** A torrent's bytes that are neither its download nor its batches. */
  function Other(rows: Table, now: int, ignoreSoak: bool, h: string): nat {
    (if ignoreSoak then 0 else Col(rows, now, ByHash(h), SoakColumn)) + Col(rows, now, ByHash(h), RestColumn)
  }

  function OtherOf(rows: Table, now: int, ignoreSoak: bool): Torrent -> nat {
    (t: Torrent) => Other(rows, now, ignoreSoak, t.hash)
  }

  lemma NeedAfterSync(rows: Table, managed: set<string>, selected: seq<Torrent>, now: int, ignoreSoak: bool, k: Key)
    requires DistinctHashes(selected) && "" !in managed
    ensures
      var rows' := PlannerRows(rows, managed, selected, now);
      && (k.Loose? || k.hash !in managed + HashSet(selected) ==>
           Need(rows', now, ignoreSoak, k) == Need(rows, now, ignoreSoak, k))
      && (k.ByHash? && k.hash in managed - HashSet(selected) ==>
            Need(rows', now, ignoreSoak, k) == Col(rows, now, k, BatchColumn) + Other(rows, now, ignoreSoak, k.hash))
      && (forall i :: 0 <= i < |selected| && k == ByHash(selected[i].hash) ==>
            Need(rows', now, ignoreSoak, k)
              == Max(selected[i].amountLeft, Col(rows, now, k, BatchColumn))
                + Other(rows, now, ignoreSoak, selected[i].hash))
  {
    SelectionLists(selected);
    WantedKeys(selected);
    var idle := managed - HashSet(selected);
    var released := ReleaseKind(rows, ActiveDownload, idle);
    forall c ensures c != ActiveColumn ==>
        Col(PlannerRows(rows, managed, selected, now), now, k, c) == Col(rows, now, k, c)
    {
      ReleaseKindColumns(rows, ActiveDownload, idle, now, k, c);
      if c != ActiveColumn {
        SyncedElsewhere(released, ActiveDownload, HashSeq(selected), Wanted(selected), now + ROW_TTL, now, k, c);
      }
    }
    ReleaseKindColumns(rows, ActiveDownload, idle, now, k, ActiveColumn);
    if k.Loose? || k.hash !in HashSet(selected) {
      SyncedElsewhere(released, ActiveDownload, HashSeq(selected), Wanted(selected), now + ROW_TTL, now, k,
                      ActiveColumn);
    }
    forall i | 0 <= i < |selected| && k == ByHash(selected[i].hash)
      ensures Col(PlannerRows(rows, managed, selected, now), now, k, ActiveColumn) == selected[i].amountLeft
    {
      WantedAt(selected, i);
      SyncedColumn(released, ActiveDownload, HashSeq(selected), Wanted(selected), now + ROW_TTL, now, selected[i].hash);
    }
  }

  /** Whether a key belongs to one of the torrents, and to which. */
  lemma WhichTorrent(ts: seq<Torrent>, k: Key) returns (i: nat)
    ensures i < |ts| ==> k == ByHash(ts[i].hash)
    ensures i >= |ts| ==> (k.Loose? || k.hash !in HashSet(ts)) && forall j :: 0 <= j < |ts| ==> k != ByHash(ts[j].hash)
  {
    if k.ByHash? && k.hash in HashSet(ts) {
      i :| i < |ts| && ts[i].hash == k.hash;
    } else {
      i := |ts|;
      forall j | 0 <= j < |ts| ensures k != ByHash(ts[j].hash) {
        assert ts[j].hash in HashSet(ts);
      }
    }
  }

  lemma KeyGrowsBy(rows: Table, managed: set<string>, selected: seq<Torrent>, now: int, ignoreSoak: bool,
                   reserved: map<Key, nat>, k: Key)
    requires DistinctHashes(selected) && "" !in managed && At(reserved, k) == Need(rows, now, ignoreSoak, k)
    ensures
      Need(PlannerRows(rows, managed, selected, now), now, ignoreSoak, k)
        <= Need(rows, now, ignoreSoak, k) + At(Keyed(selected, ExtraOf(reserved)), k)
          + At(Keyed(selected, OtherOf(rows, now, ignoreSoak)), k)
  {
    hide Col, PlannerRows, Keyed;
    NeedAfterSync(rows, managed, selected, now, ignoreSoak, k);
    var i := WhichTorrent(selected, k);
    if i < |selected| {
      KeyedAt(selected, ExtraOf(reserved), i);
      KeyedAt(selected, OtherOf(rows, now, ignoreSoak), i);
    }
  }

  /**
   The ledger total after the planner's update exceeds the total before by no more than the extra
   bytes the selection counted, plus whatever else the ledger holds for the selected torrents: the
   selection credits those bytes against the download, the ledger does not.
   */
  lemma SyncTotal(rows: Table, managed: set<string>, selected: seq<Torrent>, now: int, ignoreSoak: bool,
                  reserved: map<Key, nat>)
    requires DistinctHashes(selected) && "" !in managed
    requires forall k :: At(reserved, k) == Need(rows, now, ignoreSoak, k)
    ensures
      Total(PlannerRows(rows, managed, selected, now), now, ignoreSoak)
        <= Total(rows, now, ignoreSoak) + Sum(Keyed(selected, ExtraOf(reserved)))
          + Sum(Keyed(selected, OtherOf(rows, now, ignoreSoak)))
  {
    hide PlannerRows, Keyed, Need, OtherOf, ExtraOf;
    var rows' := PlannerRows(rows, managed, selected, now);
    var before, after := Needs(rows, now, ignoreSoak), Needs(rows', now, ignoreSoak);
    var extra, other := Keyed(selected, ExtraOf(reserved)), Keyed(selected, OtherOf(rows, now, ignoreSoak));
    var both := Plus(before, extra);
    forall k ensures At(after, k) <= At(both, k) + At(other, k) {
      AtNeeds(rows, now, ignoreSoak, k);
      AtNeeds(rows', now, ignoreSoak, k);
      KeyGrowsBy(rows, managed, selected, now, ignoreSoak, reserved, k);
    }
    SumAtMost(after, both, other);
    SumSplit(both, before, extra);
  }

  /** What the tick has promised away: each selected torrent's larger claim, and everybody else's. */
  function Committed(reserved: map<Key, nat>, ts: seq<Torrent>): map<Key, nat> {
    if ts == [] then reserved
    else
      var n := |ts| - 1;
      Committed(reserved, ts[..n])[ByHash(ts[n].hash) := Max(ts[n].amountLeft, At(reserved, ByHash(ts[n].hash)))]
  }

  lemma {:induction false} CommittedElsewhere(reserved: map<Key, nat>, ts: seq<Torrent>, k: Key)
    requires forall i :: 0 <= i < |ts| ==> k != ByHash(ts[i].hash)
    ensures At(Committed(reserved, ts), k) == At(reserved, k)
  {
    if ts != [] {
      CommittedElsewhere(reserved, ts[..|ts| - 1], k);
    }
  }

  lemma {:induction false} CommittedAt(reserved: map<Key, nat>, ts: seq<Torrent>, i: nat)
    requires DistinctHashes(ts) && i < |ts|
    ensures At(Committed(reserved, ts), ByHash(ts[i].hash)) == Max(ts[i].amountLeft, At(reserved, ByHash(ts[i].hash)))
  {
    var n := |ts| - 1;
    if i < n {
      CommittedAt(reserved, ts[..n], i);
      assert ts[..n][i] == ts[i];
    }
  }

  /** The commitment is the ledger as it was read plus exactly what the selection counted. */
  lemma CommittedTotal(reserved: map<Key, nat>, selected: seq<Torrent>)
    requires DistinctHashes(selected)
    ensures Sum(Committed(reserved, selected)) == Sum(reserved) + Sum(Keyed(selected, ExtraOf(reserved)))
  {
    var extra := Keyed(selected, ExtraOf(reserved));
    forall k ensures At(Committed(reserved, selected), k) == At(reserved, k) + At(extra, k) {
      var i := WhichTorrent(selected, k);
      if i < |selected| {
        KeyedAt(selected, ExtraOf(reserved), i);
        CommittedAt(reserved, selected, i);
      } else {
        KeyedElsewhere(selected, ExtraOf(reserved), k);
        CommittedElsewhere(reserved, selected, k);
      }
    }
    SumSplit(Committed(reserved, selected), reserved, extra);
  }

  function Selection(tick: Tick, reserved: map<Key, nat>, reservedTotal: nat): Picks {
    Pick(Queue(tick), reserved, Budget(tick, reservedTotal), Slots(tick))
  }

  /**
   In every mode a tick commits no more than the free space above the mode's floor, unless that was
   already overdrawn, and then it commits nothing new.
   */
  lemma TickWithinFloor(tick: Tick, reserved: map<Key, nat>)
    requires DistinctHashes(tick.snapshots)
    ensures
      var selected := Selection(tick, reserved, Sum(reserved)).selected;
      var committed := Sum(Committed(reserved, selected)) + tick.external;
      committed + KeptFree(tick) <= tick.freeBytes || committed == Sum(reserved) + tick.external
  {
    QueueDistinct(tick);
    var budget := Budget(tick, Sum(reserved));
    PicksFromQueue(Queue(tick), reserved, budget, Slots(tick));
    PicksWithinBudget(Queue(tick), reserved, budget, Slots(tick));
    CommittedTotal(reserved, Selection(tick, reserved, Sum(reserved)).selected);
  }
}
