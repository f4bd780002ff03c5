/** What a planner tick stores and asks for, said outright: allocations, requests, starts, stops and soak rows. */
module PlannerReport {
  import opened Options
  import opened Ledger
  import opened Torrents
  import opened Tables
  import opened PlannerChoice
  import opened PlannerEffects

  type SoakRows = map<string, SoakRow>

  predicate Lively(t: Torrent) {
    t.stalledSeconds < 60 && t.seeds >= 3 && t.peers >= 5
  }

  /** The tick rewrites the torrent's allocation: it is given up, cools down, or is still in the running. */
  predicate Rewritten(tick: Tick, t: Torrent) {
    || AutoDead(tick, t) || ActiveSlow(tick, t) || t.hash in tick.cooldown
    || (t.amountLeft > 0 && !(t.hash in tick.alloc && tick.alloc[t.hash].desired == Desired.Dead))
  }

  /** A selected torrent is active for what it needs, in sequence if it is lively; every other holds nothing. */
  function StoredFor(tick: Tick, selected: seq<Torrent>, t: Torrent): Allocation {
    if t in selected then Allocation(Desired.Active, t.amountLeft, Some(Lively(t)), tick.now)
    else
      var desired := if AutoDead(tick, t) then Desired.Dead
                     else if ActiveSlow(tick, t) then Desired.Soak
                     else if t.hash in tick.cooldown then Desired.SoakCooldown
                     else Desired.Soak;
      Allocation(desired, 0, Some(false), tick.now)
  }

  /** Every managed torrent's allocation, and nobody else's. */
  ghost predicate StoresAll(tick: Tick, selected: seq<Torrent>, alloc: Allocations) {
    && (forall t :: t in tick.snapshots && IsManaged(t) && Rewritten(tick, t) ==>
          t.hash in alloc && alloc[t.hash] == StoredFor(tick, selected, t))
    && (forall h :: (forall t :: t in tick.snapshots && IsManaged(t) && Rewritten(tick, t) ==> t.hash != h) ==>
          Lookup(alloc, h) == Lookup(tick.alloc, h))
  }

  /**
   Sequential download is asked for when a lively torrent is selected and did not have it, and asked to
   end for every torrent written that is not selected and was not known to be without.
   */
  predicate Asks(tick: Tick, selected: seq<Torrent>, t: Torrent, on: bool) {
    && IsManaged(t) && Rewritten(tick, t)
    && (if t in selected then on && Lively(t) else !on)
    && !(t.hash in tick.alloc && tick.alloc[t.hash].seqDl == Some(on))
  }

  /** A torrent is stopped when it runs and is neither selected, nor left to others, nor just slow in recovery. */
  predicate Stops(tick: Tick, selected: seq<Torrent>, t: Torrent) {
    && IsManaged(t) && !t.stopped && t.progress < 1.0 && t.amountLeft > 0
    && t !in selected && t.hash !in tick.protectedRunning
    && !(tick.freeBytes >= tick.cfg.emergencyFloor && tick.cfg.recoveryEnabled
         && tick.freeBytes < tick.cfg.recoveryEnter && ActiveSlow(tick, t))
  }

  ghost predicate Reports(tick: Tick, selected: seq<Torrent>, started: seq<string>, paused: seq<string>,
                          requests: seq<(string, bool)>) {
    && (forall h :: h in started <==> exists t :: t in selected && t.hash == h && t.stopped)
    && (forall h :: h in paused <==> exists t :: t in tick.snapshots && t.hash == h && Stops(tick, selected, t))
    && (forall h, on :: (h, on) in requests <==>
          exists t :: t in tick.snapshots && t.hash == h && Asks(tick, selected, t, on))
  }

  /** Torrents that have gone from the snapshots are forgotten, and their reservations released. */
  ghost predicate Forgets(alloc: Allocations, rows: Table, present: set<string>, alloc': Allocations, rows': Table) {
    && (forall h :: Lookup(alloc', h) == if h == "" || h in present then Lookup(alloc, h) else None)
    && |rows'| == |rows|
    && (forall i :: 0 <= i < |rows| ==>
          rows'[i] ==
            if && rows[i].state.Active? && rows[i].hash.Some? && rows[i].hash.value in alloc
               && rows[i].hash.value != "" && rows[i].hash.value !in present
            then rows[i].(state := RowState.Released)
            else rows[i])
  }

  /** The soak row of a torrent just demoted: kept a resident in recovery, in cooldown for half an hour otherwise. */
  ghost predicate SlowRow(tick: Tick, before: Option<SoakRow>, after: SoakRow) {
    if tick.freeBytes >= tick.cfg.emergencyFloor && tick.cfg.recoveryEnabled && tick.freeBytes < tick.cfg.recoveryEnter
    then
      && after.phase.Resident? && after.cooldownUntil.None? && after.exposure == 0 && after.sampledAt == Some(tick.now)
      && after.residentSince
           == if before.Some? && before.value.residentSince.Some? then before.value.residentSince else Some(tick.now)
    else after.phase.Cooldown? && after.cooldownUntil == Some(tick.now + 1800) && after.exposure == 0
  }

  /** Only the torrents just demoted have their soak rows written. */
  ghost predicate SlowOnes(tick: Tick, before: SoakRows, after: SoakRows) {
    && (forall t :: t in tick.snapshots && IsManaged(t) && ActiveSlow(tick, t) ==>
          t.hash in after && SlowRow(tick, Lookup(before, t.hash), after[t.hash]))
    && (forall h :: (forall t :: t in tick.snapshots && IsManaged(t) && ActiveSlow(tick, t) ==> t.hash != h) ==>
          Lookup(after, h) == Lookup(before, h))
  }

  // ---------------------------------------------------------------------------------------------
  // Why a tick does
  // ---------------------------------------------------------------------------------------------

  lemma ManagedIs(tick: Tick)
    ensures forall t :: t in Managed(tick) <==> t in tick.snapshots && IsManaged(t)
  {
    FilterElements(tick.snapshots, MANAGED);
  }

  lemma OneTorrent(tick: Tick, a: Torrent, b: Torrent)
    requires DistinctHashes(tick.snapshots) && a in tick.snapshots && b in tick.snapshots && a.hash == b.hash
    ensures a == b
  {
  }

  /** For a managed torrent, to be selected is to have its hash among the selected ones. */
  lemma SelectedByHash(tick: Tick, selected: seq<Torrent>, t: Torrent)
    requires DistinctHashes(tick.snapshots) && t in tick.snapshots
    requires forall s :: s in selected ==> s in Candidates(tick)
    ensures t in selected <==> t.hash in HashSet(selected)
    ensures t in selected ==> IsCandidate(tick, t)
  {
    hide Candidates, IsCandidate;
    CandidateElements(tick);
    if t in selected {
      var i :| 0 <= i < |selected| && selected[i] == t;
      assert selected[i].hash in HashSet(selected);
    }
    if t.hash in HashSet(selected) {
      var i :| 0 <= i < |selected| && selected[i].hash == t.hash;
      assert selected[i] in selected;
      OneTorrent(tick, t, selected[i]);
    }
  }

  /** The outcome of a managed torrent, as the tick works it out. */
  lemma OutcomeSaid(tick: Tick, selected: seq<Torrent>, t: Torrent)
    requires t in selected <==> t.hash in HashSet(selected)
    requires t in selected ==> IsCandidate(tick, t)
    ensures Outcome(tick, HashSet(selected), t)
         == if Rewritten(tick, t) then Some(StoredFor(tick, selected, t)) else None
  {
    hide AutoDead, ActiveSlow, TickMode, HashSet;
  }

  lemma RequestSaid(tick: Tick, selected: seq<Torrent>, t: Torrent, on: bool)
    requires t in selected <==> t.hash in HashSet(selected)
    requires t in selected ==> IsCandidate(tick, t)
    ensures Request(tick, HashSet(selected), t) == Some(on) && IsManaged(t) <==> Asks(tick, selected, t, on)
  {
    OutcomeSaid(tick, selected, t);
    hide Outcome, Rewritten, HashSet, IsCandidate, AutoDead, ActiveSlow;
  }

  lemma {:induction false} HashSeqHas(ts: seq<Torrent>, h: string)
    ensures h in HashSeq(ts) <==> exists t :: t in ts && t.hash == h
  {
    if h in HashSeq(ts) {
      var i :| 0 <= i < |ts| && HashSeq(ts)[i] == h;
      assert ts[i] in ts;
    }
    if t :| t in ts && t.hash == h {
      var i :| 0 <= i < |ts| && ts[i] == t;
      assert HashSeq(ts)[i] == h;
    }
  }

  lemma StoresAllIsOverlay(tick: Tick, selected: seq<Torrent>)
    requires DistinctHashes(tick.snapshots) && forall s :: s in selected ==> s in Candidates(tick)
    ensures StoresAll(tick, selected, Overlay(tick, HashSet(selected), Written(tick, HashSet(selected))))
  {
    hide Candidates, Overlay, Written, Outcome, Rewritten, StoredFor, IsCandidate, HashSet;
    var chosen := HashSet(selected);
    var alloc := Overlay(tick, chosen, Written(tick, chosen));
    ManagedIs(tick);
    forall t | t in tick.snapshots && IsManaged(t) && Rewritten(tick, t)
      ensures t.hash in alloc && alloc[t.hash] == StoredFor(tick, selected, t)
    {
      SelectedByHash(tick, selected, t);
      OutcomeSaid(tick, selected, t);
      OutcomeIsStored(tick, chosen, t);
    }
    forall h | forall t :: t in tick.snapshots && IsManaged(t) && Rewritten(tick, t) ==> t.hash != h
      ensures Lookup(alloc, h) == Lookup(tick.alloc, h)
    {
      if h in Written(tick, chosen) {
        var t := WrittenWho(tick, chosen, h);
        SelectedByHash(tick, selected, t);
        OutcomeSaid(tick, selected, t);
        assert false;
      } else {
        NotOverlaid(tick, chosen, h);
      }
    }
  }

  lemma WrittenWho(tick: Tick, chosen: set<string>, h: string) returns (t: Torrent)
    requires h in Written(tick, chosen)
    ensures t in tick.snapshots && IsManaged(t) && t.hash == h && Outcome(tick, chosen, t).Some?
  {
    hide Outcome;
    ManagedIs(tick);
    var i :| 0 <= i < |Managed(tick)| && Managed(tick)[i].hash == h && Outcome(tick, chosen, Managed(tick)[i]).Some?;
    t := Managed(tick)[i];
    assert t in Managed(tick);
  }

  lemma NotOverlaid(tick: Tick, chosen: set<string>, h: string)
    requires h !in Written(tick, chosen)
    ensures Lookup(Overlay(tick, chosen, Written(tick, chosen)), h) == Lookup(tick.alloc, h)
  {
    hide Written;
  }

  lemma StartsAndStops(tick: Tick, selected: seq<Torrent>)
    requires DistinctHashes(tick.snapshots) && forall s :: s in selected ==> s in Candidates(tick)
    ensures forall h :: h in HashSeq(Started(selected)) <==> exists t :: t in selected && t.hash == h && t.stopped
    ensures forall h :: h in HashSeq(Paused(tick, HashSet(selected))) <==>
      exists t :: t in tick.snapshots && t.hash == h && Stops(tick, selected, t)
  {
    hide Candidates, HashSet, HashSeq, ActiveSlow, Managed;
    ManagedIs(tick);
    FilterElements(selected, STOPPED);
    FilterElements(Managed(tick), PauseTest(tick, HashSet(selected)));
    forall h ensures h in HashSeq(Started(selected)) <==> exists t :: t in selected && t.hash == h && t.stopped {
      HashSeqHas(Started(selected), h);
    }
    forall h ensures h in HashSeq(Paused(tick, HashSet(selected))) <==>
      exists t :: t in tick.snapshots && t.hash == h && Stops(tick, selected, t)
    {
      HashSeqHas(Paused(tick, HashSet(selected)), h);
      forall t | t in tick.snapshots ensures t in Paused(tick, HashSet(selected)) <==> Stops(tick, selected, t) {
        SelectedByHash(tick, selected, t);
      }
      assert forall t :: t in Paused(tick, HashSet(selected)) ==> t in tick.snapshots;
    }
  }
}
