/** The download planner service: one tick over the state database. */
module Planner {
  import opened Options
  import opened Sums
  import opened Ledger
  import opened LedgerUpdates
  import opened LedgerReaders
  import opened Torrents
  import opened Tables
  import opened StateDbTables
  import opened PlannerChoice
  import opened PlannerEffects
  import opened PlannerRuns
  import opened PlannerSelection
  import opened PlannerReport
  import Health

  datatype PlannerResult = PlannerResult(
    selected: seq<string>,
    started: seq<string>,
    paused: seq<string>,
    decided: seq<string>,            // one decision-log entry goes with every allocation written
    requests: seq<(string, bool)>,   // sequential-mode requests
    conservative: bool,
    budget: nat,
    mode: Mode)

  function Absent(alloc: Allocations, present: set<string>): set<string> {
    set h | h in alloc && h != "" && h !in present
  }

  const SLOW_COOLDOWN_SEC := 1800

  /** The soak row of a torrent just demoted for being slow: it stays a resident in recovery, else it cools down. */
  function DemotedRow(tick: Tick, soak: SoakRows, h: string): SoakRow {
    if TickMode(tick) == Recovery then
      if h in soak then
        soak[h].(phase := Resident, cooldownUntil := None, exposure := 0, sampledAt := Some(tick.now),
                 residentSince := if soak[h].residentSince.Some? then soak[h].residentSince else Some(tick.now))
      else SoakRow(Resident, None, Some(tick.now), None, 0, 0, Some(tick.now))
    else if h in soak then
      soak[h].(phase := Cooldown, cooldownUntil := Some(tick.now + SLOW_COOLDOWN_SEC), exposure := 0)
    else SoakRow(Cooldown, None, None, Some(tick.now + SLOW_COOLDOWN_SEC), 0, 0, Some(tick.now))
  }

  /** The soak table after the first `upTo` managed torrents have been looked at. */
  function SoakAfter(tick: Tick, soak: SoakRows, upTo: nat): SoakRows
    requires upTo <= |Managed(tick)|
  {
    if upTo == 0 then soak
    else
      var t := Managed(tick)[upTo - 1];
      var before := SoakAfter(tick, soak, upTo - 1);
      if ActiveSlow(tick, t) then before[t.hash := DemotedRow(tick, before, t.hash)] else before
  }

  // ---------------------------------------------------------------------------------------------
  // Keeping track of what has been written
  // ---------------------------------------------------------------------------------------------

  function RequestOf(tick: Tick, selected: set<string>, h: string): Option<bool> {
    var t := Find(Managed(tick), h);
    if t.None? then None else Request(tick, selected, t.value)
  }

  function Names(requests: seq<(string, bool)>): seq<string> {
    seq(|requests|, i requires 0 <= i < |requests| => requests[i].0)
  }

  /** Every torrent decided so far was decided once, and the requests are exactly theirs. */
  ghost predicate Noted(tick: Tick, selected: set<string>, decided: seq<string>, requests: seq<(string, bool)>) {
    && Distinct(decided)
    && Distinct(Names(requests))
    && (forall h :: h in Names(requests) ==> h in decided)
    && (forall r :: r in requests ==> RequestOf(tick, selected, r.0) == Some(r.1))
    && (forall h :: h in decided && RequestOf(tick, selected, h).Some? ==>
          (h, RequestOf(tick, selected, h).value) in requests)
  }

  lemma NoteStep(tick: Tick, selected: set<string>, decided: seq<string>, requests: seq<(string, bool)>, h: string)
    requires Noted(tick, selected, decided, requests) && h !in decided
    ensures
      var more := if RequestOf(tick, selected, h).Some? then [(h, RequestOf(tick, selected, h).value)] else [];
      Noted(tick, selected, decided + [h], requests + more)
  {
    var more := if RequestOf(tick, selected, h).Some? then [(h, RequestOf(tick, selected, h).value)] else [];
    assert Names(requests + more) == Names(requests) + if more == [] then [] else [h];
    assert forall i :: 0 <= i < |decided| ==> decided[i] in decided;
    assert forall i :: 0 <= i < |Names(requests)| ==> Names(requests)[i] in Names(requests);
  }

  function Decided(hs: seq<string>): set<string> {
    set h | h in hs
  }

  lemma OverlayStep(tick: Tick, selected: set<string>, written: set<string>, h: string)
    requires OutcomeOf(tick, selected, h).Some?
    ensures Overlay(tick, selected, written + {h})
      == Overlay(tick, selected, written)[h := OutcomeOf(tick, selected, h).value]
  {
  }

  lemma DecidedStep(hs: seq<string>, h: string)
    ensures Decided(hs + [h]) == Decided(hs) + {h}
  {
  }

  lemma ManagedAt(tick: Tick, selected: set<string>, i: nat)
    requires DistinctHashes(tick.snapshots) && i < |Managed(tick)|
    ensures
      var t := Managed(tick)[i];
      && OutcomeOf(tick, selected, t.hash) == Outcome(tick, selected, t)
      && RequestOf(tick, selected, t.hash) == Request(tick, selected, t)
  {
    FilterDistinct(tick.snapshots, MANAGED);
    FindDistinct(Managed(tick), i);
  }

  lemma CandidateAt(tick: Tick, i: nat) returns (j: nat)
    requires DistinctHashes(tick.snapshots) && i < |Candidates(tick)|
    ensures j < |Managed(tick)| && Managed(tick)[j] == Candidates(tick)[i] && IsCandidate(tick, Candidates(tick)[i])
  {
    CandidateElements(tick);
    FilterElements(tick.snapshots, MANAGED);
    assert Candidates(tick)[i] in Candidates(tick);
    assert Candidates(tick)[i] in Managed(tick);
    j :| j < |Managed(tick)| && Managed(tick)[j] == Candidates(tick)[i];
  }

  /** The three groups the tick writes: given up or cooling down, candidates, skipped. */
  predicate FirstGroup(tick: Tick, t: Torrent) {
    AutoDead(tick, t) || InCooldown(tick, t)
  }

  ghost predicate DecidedAre(tick: Tick, decided: seq<string>, first: nat, candidates: nat, last: nat)
    requires first <= |Managed(tick)| && candidates <= |Candidates(tick)| && last <= |Managed(tick)|
  {
    forall h :: h in decided <==>
      || (exists i :: 0 <= i < first && Managed(tick)[i].hash == h && FirstGroup(tick, Managed(tick)[i]))
      || (exists i :: 0 <= i < candidates && Candidates(tick)[i].hash == h)
      || (exists i :: 0 <= i < last && Managed(tick)[i].hash == h && Skipped(tick, Managed(tick)[i]))
  }

  lemma DistinctManaged(tick: Tick)
    requires DistinctHashes(tick.snapshots)
    ensures DistinctHashes(Managed(tick))
  {
    FilterDistinct(tick.snapshots, MANAGED);
  }

  lemma DecideFirst(tick: Tick, decided: seq<string>, i: nat)
    requires DistinctHashes(tick.snapshots) && i < |Managed(tick)|
    requires DecidedAre(tick, decided, i, 0, 0)
    ensures
      var t := Managed(tick)[i];
      if FirstGroup(tick, t) then t.hash !in decided && DecidedAre(tick, decided + [t.hash], i + 1, 0, 0)
      else DecidedAre(tick, decided, i + 1, 0, 0)
  {
    FilterDistinct(tick.snapshots, MANAGED);
    var t := Managed(tick)[i];
    assert forall h :: h in decided + [t.hash] <==> h in decided || h == t.hash;
  }

  lemma DecideCandidate(tick: Tick, decided: seq<string>, i: nat)
    requires DistinctHashes(tick.snapshots) && i < |Candidates(tick)|
    requires DecidedAre(tick, decided, |Managed(tick)|, i, 0)
    ensures
      var t := Candidates(tick)[i];
      t.hash !in decided && DecidedAre(tick, decided + [t.hash], |Managed(tick)|, i + 1, 0)
  {
    QueueDistinct(tick);
    FilterDistinct(tick.snapshots, MANAGED);
    var t := Candidates(tick)[i];
    var j := CandidateAt(tick, i);
    assert forall h :: h in decided + [t.hash] <==> h in decided || h == t.hash;
  }

  lemma DecideSkipped(tick: Tick, decided: seq<string>, i: nat)
    requires DistinctHashes(tick.snapshots) && i < |Managed(tick)|
    requires DecidedAre(tick, decided, |Managed(tick)|, |Candidates(tick)|, i)
    ensures
      var t := Managed(tick)[i];
      if Skipped(tick, t)
        then t.hash !in decided && DecidedAre(tick, decided + [t.hash], |Managed(tick)|, |Candidates(tick)|, i + 1)
      else DecidedAre(tick, decided, |Managed(tick)|, |Candidates(tick)|, i + 1)
  {
    hide Filter, Candidates, AutoDead, ActiveSlow, IsManaged;
    DistinctManaged(tick);
    hide Managed;
    var t := Managed(tick)[i];
    assert forall h :: h in decided + [t.hash] <==> h in decided || h == t.hash;
    if Skipped(tick, t) && t.hash in decided {
      if c :| 0 <= c < |Candidates(tick)| && Candidates(tick)[c].hash == t.hash {
        var j := CandidateAt(tick, c);
      }
    }
  }

  lemma DecidedAreWritten(tick: Tick, selected: set<string>, decided: seq<string>)
    requires DistinctHashes(tick.snapshots)
    requires DecidedAre(tick, decided, |Managed(tick)|, |Candidates(tick)|, |Managed(tick)|)
    ensures Decided(decided) == Written(tick, selected)
  {
    CandidateElements(tick);
    FilterElements(tick.snapshots, MANAGED);
    forall h | h in Decided(decided) ensures h in Written(tick, selected) {
      if c :| 0 <= c < |Candidates(tick)| && Candidates(tick)[c].hash == h {
        var j := CandidateAt(tick, c);
        assert Outcome(tick, selected, Managed(tick)[j]).Some?;
      } else {
        var i :| 0 <= i < |Managed(tick)| && Managed(tick)[i].hash == h
                 && (FirstGroup(tick, Managed(tick)[i]) || Skipped(tick, Managed(tick)[i]));
        assert Outcome(tick, selected, Managed(tick)[i]).Some?;
      }
    }
    forall h | h in Written(tick, selected) ensures h in Decided(decided) {
      var i :| 0 <= i < |Managed(tick)| && Outcome(tick, selected, Managed(tick)[i]).Some?
        && Managed(tick)[i].hash == h;
      var t := Managed(tick)[i];
      if !FirstGroup(tick, t) && !Skipped(tick, t) {
        assert t in Managed(tick);
        assert t in Candidates(tick);
        var c :| 0 <= c < |Candidates(tick)| && Candidates(tick)[c] == t;
      }
    }
  }

  lemma PickStep(queue: seq<Torrent>, reserved: map<Key, nat>, budget: nat, slots: int, i: nat)
    requires i < |queue|
    ensures
      var p := Pick(queue[..i], reserved, budget, slots);
      Pick(queue[..i + 1], reserved, budget, slots)
        == if Fits(p, queue[i], reserved, budget, slots)
          then Picks(p.selected + [queue[i]], p.used + Extra(reserved, queue[i])) else p
  {
    assert queue[..i + 1][..i] == queue[..i];
  }

  lemma NothingPicked(queue: seq<Torrent>, reserved: map<Key, nat>, budget: nat, slots: int)
    ensures Pick(queue[..0], reserved, budget, slots) == Picks([], 0)
    ensures queue[..|queue|] == queue
  {
  }

  class DownloadPlanner {
    const cfg: Config
    const db: StateDb

    constructor (cfg: Config, db: StateDb)
      ensures this.cfg == cfg && this.db == db
    {
      this.cfg := cfg;
      this.db := db;
    }

    method ActiveReservationBytes(now: int, ignoreSoak: bool) returns (reserved: map<Key, nat>, total: nat)
      ensures forall k :: At(reserved, k) == Need(db.reservations, now, ignoreSoak, k)
      ensures total == Sum(reserved) == Total(db.reservations, now, ignoreSoak)
    {
      var ids := db.Scan();
      reserved := PlannerBytes(db.reservations, ids, now, ignoreSoak);
      total := SumValues(reserved);
    }

    /** Forget torrents that are gone from the snapshot and release everything reserved for them. */
    method ReconcileAbsent(present: set<string>)
      modifies db`reservations, db`allocations, db`soak
      ensures
        var absent := Absent(old(db.allocations), present);
        && db.allocations == old(db.allocations) - absent
        && db.reservations == ReleaseHashes(old(db.reservations), absent)
        && db.soak == old(db.soak) - absent
    {
      var absent := Absent(db.allocations, present);
      if absent == {} {
        assert ReleaseHashes(db.reservations, absent) == db.reservations;
        return;
      }
      db.allocations := db.allocations - absent;
      db.reservations := ReleaseHashes(db.reservations, absent);
      db.soak := db.soak - absent;
    }

    /** Forced candidates first, then the regular ones, each if it still fits. */
    method Select(tick: Tick, reserved: map<Key, nat>, budget: nat, slots: int)
      returns (selected: seq<Torrent>, used: nat)
      ensures Picks(selected, used) == Pick(Queue(tick), reserved, budget, slots)
    {
      hide Pick, Filter, Candidates, Extra;
      var forced := Filter(Candidates(tick), ForcedTest(tick));
      var regular := Filter(Candidates(tick), RegularTest(tick));
      var queue := Queue(tick);
      selected, used := [], 0;
      NothingPicked(queue, reserved, budget, slots);
      for i := 0 to |forced|
        invariant Picks(selected, used) == Pick(queue[..i], reserved, budget, slots)
      {
        PickStep(queue, reserved, budget, slots, i);
        var extra := Extra(reserved, forced[i]);
        if |selected| >= slots || used + extra > budget {
          continue;
        }
        selected := selected + [forced[i]];
        used := used + extra;
      }
      for i := 0 to |regular|
        invariant Picks(selected, used) == Pick(queue[..|forced| + i], reserved, budget, slots)
      {
        PickStep(queue, reserved, budget, slots, |forced| + i);
        var extra := Extra(reserved, regular[i]);
        if |selected| >= slots || used + extra > budget {
          continue;
        }
        selected := selected + [regular[i]];
        used := used + extra;
      }
    }

    /** Store every outcome once, in three passes. */
    method StoreOutcomes(tick: Tick, selected: set<string>)
      returns (decided: seq<string>, requests: seq<(string, bool)>)
      requires DistinctHashes(tick.snapshots) && tick.alloc == db.allocations
      modifies db`allocations, db`soak
      ensures db.allocations == Overlay(tick, selected, Written(tick, selected))
      ensures db.soak == SoakAfter(tick, old(db.soak), |Managed(tick)|)
      ensures Noted(tick, selected, decided, requests)
      ensures Decided(decided) == Written(tick, selected)
    {
      hide Overlay, Noted, DecidedAre, OutcomeOf, RequestOf, Decided, Candidates, Managed, Written, AutoDead,
           ActiveSlow, InCooldown,
           DemotedRow, DistinctHashes, NeedsSeq, Skipped, FirstGroup;
      var managed, candidates := Managed(tick), Candidates(tick);
      decided, requests := [], [];
      NothingStored(tick, selected);
      for i := 0 to |managed|
        invariant db.allocations == Overlay(tick, selected, Decided(decided))
        invariant db.soak == SoakAfter(tick, old(db.soak), i)
        invariant Noted(tick, selected, decided, requests) && DecidedAre(tick, decided, i, 0, 0)
      {
        var t := managed[i];
        ManagedAt(tick, selected, i);
        DecideFirst(tick, decided, i);
        FirstGroupMeans(tick, t);
        if AutoDead(tick, t) {
          NoteStep(tick, selected, decided, requests, t.hash);
          OverlayStep(tick, selected, Decided(decided), t.hash);
          DecidedStep(decided, t.hash);
          db.allocations := db.allocations[t.hash := Allocation(Desired.Dead, 0, Some(false), tick.now)];
          decided := decided + [t.hash];
          requests := requests + if NeedsSeq(tick, t.hash, false) then [(t.hash, false)] else [];
        } else if InCooldown(tick, t) {
          NoteStep(tick, selected, decided, requests, t.hash);
          OverlayStep(tick, selected, Decided(decided), t.hash);
          DecidedStep(decided, t.hash);
          var desired := if ActiveSlow(tick, t) then Desired.Soak else Desired.SoakCooldown;
          db.allocations := db.allocations[t.hash := Allocation(desired, 0, Some(false), tick.now)];
          if ActiveSlow(tick, t) {
            db.soak := db.soak[t.hash := DemotedRow(tick, db.soak, t.hash)];
          }
          decided := decided + [t.hash];
          requests := requests + if NeedsSeq(tick, t.hash, false) then [(t.hash, false)] else [];
        }
      }
      for i := 0 to |candidates|
        invariant db.allocations == Overlay(tick, selected, Decided(decided))
        invariant db.soak == SoakAfter(tick, old(db.soak), |managed|)
        invariant Noted(tick, selected, decided, requests) && DecidedAre(tick, decided, |managed|, i, 0)
      {
        var t := candidates[i];
        var j := CandidateAt(tick, i);
        ManagedAt(tick, selected, j);
        CandidateMeans(tick, t);
        DecideCandidate(tick, decided, i);
        NoteStep(tick, selected, decided, requests, t.hash);
        OverlayStep(tick, selected, Decided(decided), t.hash);
        DecidedStep(decided, t.hash);
        if t.hash in selected {
          var seqDl := WantsSequential(t);
          db.allocations := db.allocations[t.hash := Allocation(Desired.Active, t.amountLeft, Some(seqDl), tick.now)];
          requests := requests + if seqDl && NeedsSeq(tick, t.hash, true) then [(t.hash, true)] else [];
        } else {
          db.allocations := db.allocations[t.hash := Allocation(Desired.Soak, 0, Some(false), tick.now)];
          requests := requests + if NeedsSeq(tick, t.hash, false) then [(t.hash, false)] else [];
        }
        decided := decided + [t.hash];
      }
      for i := 0 to |managed|
        invariant db.allocations == Overlay(tick, selected, Decided(decided))
        invariant db.soak == SoakAfter(tick, old(db.soak), |managed|)
        invariant Noted(tick, selected, decided, requests) && DecidedAre(tick, decided, |managed|, |candidates|, i)
      {
        var t := managed[i];
        ManagedAt(tick, selected, i);
        DecideSkipped(tick, decided, i);
        SkippedMeans(tick, t);
        if Skipped(tick, t) {
          NoteStep(tick, selected, decided, requests, t.hash);
          OverlayStep(tick, selected, Decided(decided), t.hash);
          DecidedStep(decided, t.hash);
          db.allocations := db.allocations[t.hash := Allocation(Desired.Soak, 0, Some(false), tick.now)];
          decided := decided + [t.hash];
          requests := requests + if NeedsSeq(tick, t.hash, false) then [(t.hash, false)] else [];
        }
      }
      DecidedAreWritten(tick, selected, decided);
    }

    method UpdateHealth(tick: Tick, selected: set<string>)
      requires tick.health == db.health
      modifies db`health
      ensures db.health == HealthAfter(tick, selected, |Managed(tick)|)
    {
      hide SampleOf, Health.NextHealth;
      var managed := Managed(tick);
      for i := 0 to |managed|
        invariant db.health == HealthAfter(tick, selected, i)
      {
        var t := managed[i];
        db.health := db.health[t.hash := Health.NextHealth(Lookup(tick.health, t.hash), SampleOf(tick, selected, t))];
      }
    }

    /** Release the download rows of managed torrents left out, and bring the selected ones in step. */
    method SyncReservations(tick: Tick, selected: seq<Torrent>)
      requires DistinctHashes(selected)
      modifies db`reservations
      ensures db.reservations == PlannerRows(old(db.reservations), HashSet(Managed(tick)), selected, tick.now)
    {
      var managed := Managed(tick);
      var chosen := HashSet(selected);
      ghost var rows := db.reservations;
      NothingReleased(rows, managed, chosen);
      for i := 0 to |managed|
        invariant db.reservations == ReleaseKind(rows, ActiveDownload, HashSet(managed[..i]) - chosen)
      {
        ReleaseNext(rows, managed, chosen, i);
        if managed[i].hash !in chosen {
          db.reservations := ReleaseKind(db.reservations, ActiveDownload, {managed[i].hash});
        }
      }
      SelectionLists(selected);
      db.SyncRows(ActiveDownload, HashSeq(selected), Wanted(selected), tick.now + ROW_TTL);
    }

    /** One tick. An unhealthy sync changes nothing. */
    method PlanAndApply(
        snapshots: seq<Torrent>, freeBytes: nat, syncHealthy: bool, protectedRunning: set<string>,
        forcedActive: set<string>,
        cooldown: set<string>, external: nat, now: int)
      returns (r: PlannerResult, ghost tick: Tick, ghost selected: seq<Torrent>, ghost reserved: map<Key, nat>,
               ghost rows: Table)
      requires DistinctHashes(snapshots)
      modifies db`reservations, db`allocations, db`soak, db`health
      ensures r.mode == ModeFor(cfg, freeBytes) && r.conservative == !syncHealthy
      ensures !syncHealthy ==>
        && r.selected == [] && r.paused == [] && r.started == [] && r.decided == [] && r.requests == []
        && db.reservations == old(db.reservations) && db.allocations == old(db.allocations)
        && db.soak == old(db.soak) && db.health == old(db.health)
      ensures syncHealthy ==>
        var absent := Absent(old(db.allocations), HashSet(snapshots));
        var chosen := HashSet(selected);
        && tick == Tick(cfg, snapshots, freeBytes, protectedRunning, forcedActive, cooldown, external, now,
                        old(db.allocations) - absent, old(db.health))
        && rows == ReleaseHashes(old(db.reservations), absent)
        && (forall k :: At(reserved, k) == Need(rows, now, IgnoreSoak(tick), k))
        && r.budget == Budget(tick, Sum(reserved))
        && selected == Selection(tick, reserved, Sum(reserved)).selected && DistinctHashes(selected)
        && r.selected == HashSeq(selected) && r.started == HashSeq(Started(selected))
             && r.paused == HashSeq(Paused(tick, chosen))
        && Noted(tick, chosen, r.decided, r.requests) && Decided(r.decided) == Written(tick, chosen)
        && db.allocations == Overlay(tick, chosen, Written(tick, chosen))
        && db.soak == SoakAfter(tick, old(db.soak) - absent, |Managed(tick)|)
        && db.health == HealthAfter(tick, chosen, |Managed(tick)|)
        && db.reservations == PlannerRows(rows, HashSet(Managed(tick)), selected, now)
      ensures syncHealthy ==>
        && Forgets(old(db.allocations), old(db.reservations), HashSet(snapshots), tick.alloc, rows)
        && StoresAll(tick, selected, db.allocations)
        && Reports(tick, selected, r.started, r.paused, r.requests)
        && SlowOnes(tick, old(db.soak) - Absent(old(db.allocations), HashSet(snapshots)), db.soak)
      ensures syncHealthy ==> Served(tick, reserved, selected) && FullUp(tick, reserved, selected)
      ensures syncHealthy ==>
        var turn := Turn(tick, selected);
        && IsTurn(turn, cfg.slowDemoteSec)
        && turn.tick.health == old(db.health) && NobodyActivated(old(db.allocations), turn.tick.alloc)
        && db.health == StoredHealth(turn) && db.allocations == StoredAlloc(turn)
    {
      hide Total, Need, Overlay, Written, Noted, Decided, Served, FullUp, Forgets, StoresAll, Reports, SlowOnes,
           SoakAfter, HealthAfter, PlannerRows, Pick, Queue, Candidates, Managed, ReleaseHashes, Absent,
           DistinctHashes, HashSet, HashSeq, Paused, Started;
      var ignoreSoak := external > 0;
      var t := Tick(cfg, snapshots, freeBytes, protectedRunning, forcedActive, cooldown, external, now, db.allocations,
                    db.health);
      var held, heldTotal := ActiveReservationBytes(now, ignoreSoak);
      tick, selected, reserved, rows := t, [], held, db.reservations;
      if !syncHealthy {
        r := PlannerResult([], [], [], [], [], true, Budget(t, heldTotal), TickMode(t));
        return;
      }
      ReconcileAbsent(HashSet(snapshots));
      t := Tick(cfg, snapshots, freeBytes, protectedRunning, forcedActive, cooldown, external, now, db.allocations,
                db.health);
      tick, rows := t, db.reservations;
      held, heldTotal := ActiveReservationBytes(now, ignoreSoak);
      reserved := held;
      var budget := Budget(t, heldTotal);
      var picked, used := Select(t, held, budget, Slots(t));
      selected := picked;
      QueueDistinct(t);
      PicksFromQueue(Queue(t), held, budget, Slots(t));
      var chosen := HashSet(picked);
      var decided, requests := StoreOutcomes(t, chosen);
      UpdateHealth(t, chosen);
      SyncReservations(t, picked);
      SelectionIsTurn(t, held);
      AbsentIsForgotten(old(db.allocations), old(db.reservations), HashSet(snapshots));
      StoresAllIsOverlay(t, picked);
      StartsAndStops(t, picked);
      RequestsSaid(t, picked, decided, requests);
      SlowOnesAre(t, old(db.soak) - Absent(old(db.allocations), HashSet(snapshots)));
      SelectionIsServed(t, held);
      ServedIsFullUp(t, held, picked);
      r := PlannerResult(HashSeq(picked), HashSeq(Started(picked)), HashSeq(Paused(t, chosen)), decided, requests,
                         false, budget, TickMode(t));
    }
  }

  /** Those absent are forgotten. */
  lemma AbsentIsForgotten(alloc: Allocations, rows: Table, present: set<string>)
    ensures
      var absent := Absent(alloc, present);
      Forgets(alloc, rows, present, alloc - absent, ReleaseHashes(rows, absent))
  {
  }

  lemma RequestsSaid(tick: Tick, selected: seq<Torrent>, decided: seq<string>, requests: seq<(string, bool)>)
    requires DistinctHashes(tick.snapshots) && forall s :: s in selected ==> s in Candidates(tick)
    requires Noted(tick, HashSet(selected), decided, requests)
    requires Decided(decided) == Written(tick, HashSet(selected))
    ensures Reports(tick, selected, HashSeq(Started(selected)), HashSeq(Paused(tick, HashSet(selected))), requests)
  {
    hide Candidates, HashSet, HashSeq, Managed, Written, Request, Asks, Stops, Started, Paused;
    StartsAndStops(tick, selected);
    forall h, on ensures (h, on) in requests <==>
      exists t :: t in tick.snapshots && t.hash == h && Asks(tick, selected, t, on)
    {
      RequestsAsk(tick, selected, decided, requests, h, on);
    }
  }

  lemma RequestsAsk(tick: Tick, selected: seq<Torrent>, decided: seq<string>, requests: seq<(string, bool)>, h: string,
                    on: bool)
    requires DistinctHashes(tick.snapshots) && forall s :: s in selected ==> s in Candidates(tick)
    requires Noted(tick, HashSet(selected), decided, requests)
    requires Decided(decided) == Written(tick, HashSet(selected))
    ensures (h, on) in requests <==> exists t :: t in tick.snapshots && t.hash == h && Asks(tick, selected, t, on)
  {
    hide Candidates, HashSet, Managed, Written, Request, Asks;
    var chosen := HashSet(selected);
    ManagedIs(tick);
    if (h, on) in requests {
      assert RequestOf(tick, chosen, h) == Some(on);
      FindInside(Managed(tick), h);
      var t := Find(Managed(tick), h).value;
      SelectedByHash(tick, selected, t);
      RequestSaid(tick, selected, t, on);
    }
    if t :| t in tick.snapshots && t.hash == h && Asks(tick, selected, t, on) {
      SelectedByHash(tick, selected, t);
      RequestSaid(tick, selected, t, on);
      AskedIsWritten(tick, selected, t, on);
      assert h in Decided(decided);
    }
  }

  lemma AskedIsWritten(tick: Tick, selected: seq<Torrent>, t: Torrent, on: bool)
    requires DistinctHashes(tick.snapshots) && t in tick.snapshots && Asks(tick, selected, t, on)
    requires Request(tick, HashSet(selected), t) == Some(on)
    ensures RequestOf(tick, HashSet(selected), t.hash) == Some(on) && t.hash in Written(tick, HashSet(selected))
  {
    hide Outcome, HashSet, Rewritten;
    ManagedIs(tick);
    FilterDistinct(tick.snapshots, MANAGED);
    var i: nat :| i < |Managed(tick)| && Managed(tick)[i] == t;
    FindDistinct(Managed(tick), i);
  }

  lemma {:induction false} SoakAfterAt(tick: Tick, soak: SoakRows, upTo: nat, h: string)
    requires DistinctHashes(Managed(tick)) && upTo <= |Managed(tick)|
    ensures Lookup(SoakAfter(tick, soak, upTo), h)
         == if exists i :: 0 <= i < upTo && Managed(tick)[i].hash == h && ActiveSlow(tick, Managed(tick)[i])
            then Some(DemotedRow(tick, soak, h)) else Lookup(soak, h)
  {
    hide ActiveSlow, Managed, DistinctHashes;
    if upTo > 0 {
      SoakAfterAt(tick, soak, upTo - 1, h);
      DemotedAlike(tick, SoakAfter(tick, soak, upTo - 1), soak, h);
      OncePerTorrent(tick, upTo - 1);
    }
  }

  lemma OncePerTorrent(tick: Tick, n: nat)
    requires DistinctHashes(Managed(tick)) && n < |Managed(tick)|
    ensures forall i :: 0 <= i < n ==> Managed(tick)[i].hash != Managed(tick)[n].hash
  {
  }

  lemma DemotedAlike(tick: Tick, a: SoakRows, b: SoakRows, h: string)
    ensures Lookup(a, h) == Lookup(b, h) ==> DemotedRow(tick, a, h) == DemotedRow(tick, b, h)
  {
  }

  /** What the demoted torrents' soak rows become. */
  lemma SlowOnesAre(tick: Tick, soak: SoakRows)
    requires DistinctHashes(tick.snapshots)
    ensures SlowOnes(tick, soak, SoakAfter(tick, soak, |Managed(tick)|))
  {
    hide ActiveSlow, SoakAfter, DistinctHashes;
    var after := SoakAfter(tick, soak, |Managed(tick)|);
    ManagedIs(tick);
    FilterDistinct(tick.snapshots, MANAGED);
    hide Managed;
    forall t | t in tick.snapshots && IsManaged(t) && ActiveSlow(tick, t)
      ensures t.hash in after && SlowRow(tick, Lookup(soak, t.hash), after[t.hash])
    {
      var i :| 0 <= i < |Managed(tick)| && Managed(tick)[i] == t;
      SoakAfterAt(tick, soak, |Managed(tick)|, t.hash);
      assert Lookup(after, t.hash) == Some(DemotedRow(tick, soak, t.hash));
    }
    forall h | forall t :: t in tick.snapshots && IsManaged(t) && ActiveSlow(tick, t) ==> t.hash != h
      ensures Lookup(after, h) == Lookup(soak, h)
    {
      SoakAfterAt(tick, soak, |Managed(tick)|, h);
      forall i | 0 <= i < |Managed(tick)| && ActiveSlow(tick, Managed(tick)[i]) ensures Managed(tick)[i].hash != h {
        assert Managed(tick)[i] in Managed(tick);
      }
    }
  }

  lemma NothingStored(tick: Tick, selected: set<string>)
    ensures Overlay(tick, selected, Decided([])) == tick.alloc
    ensures Noted(tick, selected, [], []) && DecidedAre(tick, [], 0, 0, 0)
  {
  }

  lemma FirstGroupMeans(tick: Tick, t: Torrent)
    ensures FirstGroup(tick, t) <==> AutoDead(tick, t) || InCooldown(tick, t)
    ensures ActiveSlow(tick, t) ==> InCooldown(tick, t) && !AutoDead(tick, t)
  {
  }

  lemma CandidateMeans(tick: Tick, t: Torrent)
    requires IsCandidate(tick, t)
    ensures !AutoDead(tick, t) && !InCooldown(tick, t)
  {
  }

  lemma SkippedMeans(tick: Tick, t: Torrent)
    ensures Skipped(tick, t) ==> !AutoDead(tick, t) && !InCooldown(tick, t) && !IsCandidate(tick, t)
  {
  }

  lemma NothingReleased(rows: Table, managed: seq<Torrent>, chosen: set<string>)
    ensures ReleaseKind(rows, ActiveDownload, HashSet(managed[..0]) - chosen) == rows
    ensures managed[..|managed|] == managed
  {
  }

  lemma ReleaseNext(rows: Table, managed: seq<Torrent>, chosen: set<string>, i: nat)
    requires i < |managed|
    ensures
      var h := managed[i].hash;
      var before := ReleaseKind(rows, ActiveDownload, HashSet(managed[..i]) - chosen);
      ReleaseKind(rows, ActiveDownload, HashSet(managed[..i + 1]) - chosen)
        == if h in chosen then before else ReleaseKind(before, ActiveDownload, {h})
  {
  }
}
