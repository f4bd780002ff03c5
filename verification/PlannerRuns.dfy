/**
 Runs of planner ticks, with whatever other writers do to the allocations in between: for each torrent
 they are runs of its health record, so what the timers mean holds of the planner.
 */
module PlannerRuns {
  import opened Options
  import opened Sums
  import opened Ledger
  import opened Torrents
  import opened Tables
  import opened PlannerChoice
  import opened PlannerEffects
  import Health

  /** One tick and what it selected. */
  datatype Turn = Turn(tick: Tick, selected: seq<Torrent>)

  function StoredAlloc(turn: Turn): Allocations {
    Overlay(turn.tick, HashSet(turn.selected), Written(turn.tick, HashSet(turn.selected)))
  }

  function StoredHealth(turn: Turn): HealthRows {
    HealthAfter(turn.tick, HashSet(turn.selected), |Managed(turn.tick)|)
  }

  ghost predicate IsTurn(turn: Turn, slowSec: int) {
    && DistinctHashes(turn.tick.snapshots)
    && turn.tick.cfg.slowDemoteSec == slowSec
    && forall s :: s in turn.selected ==> s in Candidates(turn.tick)
  }

  /** What a tick selects makes it a turn. */
  lemma SelectionIsTurn(tick: Tick, reserved: map<Key, nat>)
    requires DistinctHashes(tick.snapshots)
    ensures IsTurn(Turn(tick, Selection(tick, reserved, Sum(reserved)).selected), tick.cfg.slowDemoteSec)
  {
    hide Candidates, Queue, Pick;
    QueueDistinct(tick);
    PicksFromQueue(Queue(tick), reserved, Budget(tick, Sum(reserved)), Slots(tick));
    CandidateElements(tick);
  }

  /** Only the planner writes the health table, and nobody else makes an allocation active. */
  ghost predicate Follows(a: Turn, b: Turn) {
    && b.tick.health == StoredHealth(a)
    && a.tick.now <= b.tick.now
    && NobodyActivated(StoredAlloc(a), b.tick.alloc)
  }

  /** A run that starts from an empty health table. */
  ghost predicate IsRun(turns: seq<Turn>, slowSec: int) {
    && (forall i :: 0 <= i < |turns| ==> IsTurn(turns[i], slowSec))
    && (turns != [] ==> turns[0].tick.health == map[])
    && (forall i :: 0 < i < |turns| ==> Follows(turns[i - 1], turns[i]))
  }

  /** The tables are as a run leaves them, but that others may have ended the activity of some torrents. */
  ghost predicate Continues(turns: seq<Turn>, slowSec: int, alloc: Allocations, health: HealthRows) {
    && IsRun(turns, slowSec)
    && (turns == [] ==> health == map[])
    && (turns != [] ==>
          var last := turns[|turns| - 1]; health == StoredHealth(last) && NobodyActivated(StoredAlloc(last), alloc))
  }

  /** The next tick on such tables is the run's next turn, if the clock has not gone back. */
  lemma NextTurn(turns: seq<Turn>, slowSec: int, alloc: Allocations, health: HealthRows, turn: Turn)
    requires Continues(turns, slowSec, alloc, health)
    requires IsTurn(turn, slowSec) && turn.tick.health == health && NobodyActivated(alloc, turn.tick.alloc)
    requires turns != [] ==> turns[|turns| - 1].tick.now <= turn.tick.now
    ensures Continues(turns + [turn], slowSec, StoredAlloc(turn), StoredHealth(turn))
  {
    hide IsTurn, StoredAlloc, StoredHealth, NobodyActivated;
    var n := |turns|;
    var more := turns + [turn];
    NobodyNew(StoredAlloc(turn));
    if n > 0 {
      ActivatesLess(StoredAlloc(turns[n - 1]), alloc, turn.tick.alloc);
    }
    assert n > 0 ==> Follows(turns[n - 1], turn);
    hide Follows;
    forall i | 0 < i <= n ensures Follows(more[i - 1], more[i]) {
      if i < n {
        assert more[i - 1] == turns[i - 1] && more[i] == turns[i];
      }
    }
  }

  /** Whoever activates nobody leaves the run as it is. */
  lemma OthersContinue(turns: seq<Turn>, slowSec: int, alloc: Allocations, alloc': Allocations, health: HealthRows)
    requires Continues(turns, slowSec, alloc, health) && NobodyActivated(alloc, alloc')
    ensures Continues(turns, slowSec, alloc', health)
  {
    hide IsRun, NobodyActivated, StoredAlloc, StoredHealth;
    if turns != [] {
      ActivatesLess(StoredAlloc(turns[|turns| - 1]), alloc, alloc');
    }
  }

  /** Others first, then a tick. */
  lemma TickContinues(turns: seq<Turn>, slowSec: int, alloc: Allocations, alloc': Allocations, health: HealthRows,
                      turn: Turn)
    requires Continues(turns, slowSec, alloc, health) && NobodyActivated(alloc, alloc')
    requires IsTurn(turn, slowSec) && turn.tick.health == health && NobodyActivated(alloc', turn.tick.alloc)
    requires turns != [] ==> turns[|turns| - 1].tick.now <= turn.tick.now
    ensures Continues(turns + [turn], slowSec, StoredAlloc(turn), StoredHealth(turn))
  {
    hide Continues, IsTurn, NobodyActivated, StoredAlloc, StoredHealth;
    OthersContinue(turns, slowSec, alloc, alloc', health);
    NextTurn(turns, slowSec, alloc', health, turn);
  }

  lemma RunPrefix(turns: seq<Turn>, slowSec: int, n: nat)
    requires IsRun(turns, slowSec) && n <= |turns|
    ensures IsRun(turns[..n], slowSec)
  {
    hide IsTurn, Follows;
  }

  // ---------------------------------------------------------------------------------------------
  // One torrent's view of a run
  // ---------------------------------------------------------------------------------------------

  predicate Manages(tick: Tick, h: string) {
    Find(Managed(tick), h).Some?
  }

  function Which(tick: Tick, h: string): Torrent
    requires Manages(tick, h)
  {
    Find(Managed(tick), h).value
  }

  function SampleIn(turn: Turn, h: string): Health.Sample
    requires Manages(turn.tick, h)
  {
    SampleOf(turn.tick, HashSet(turn.selected), Which(turn.tick, h))
  }

  /** The turns that sampled the torrent. */
  function Seen(turns: seq<Turn>, h: string): seq<nat> {
    if turns == [] then []
    else
      var n := |turns| - 1;
      Seen(turns[..n], h) + if Manages(turns[n].tick, h) then [n] else []
  }

  function Samples(turns: seq<Turn>, h: string): seq<Health.Sample> {
    if turns == [] then []
    else
      var n := |turns| - 1;
      Samples(turns[..n], h) + if Manages(turns[n].tick, h) then [SampleIn(turns[n], h)] else []
  }

  /** What happened to the torrent: before a tick another writer may have ended its activity. */
  function TurnEvents(turn: Turn, h: string): seq<Health.Event> {
    (if IsActive(turn.tick.alloc, h) then [] else [Health.Elsewhere])
    + if Manages(turn.tick, h) then [TickEvent(turn.tick, HashSet(turn.selected), Which(turn.tick, h))] else []
  }

  function Events(turns: seq<Turn>, h: string): seq<Health.Event> {
    if turns == [] then []
    else Events(turns[..|turns| - 1], h) + TurnEvents(turns[|turns| - 1], h)
  }

  lemma {:induction false} SeenAre(turns: seq<Turn>, h: string)
    ensures |Seen(turns, h)| == |Samples(turns, h)|
    ensures forall x :: 0 <= x < |Seen(turns, h)| ==>
      var i := Seen(turns, h)[x];
      i < |turns| && Manages(turns[i].tick, h) && Samples(turns, h)[x] == SampleIn(turns[i], h)
    ensures forall x, y :: 0 <= x < y < |Seen(turns, h)| ==> Seen(turns, h)[x] < Seen(turns, h)[y]
    ensures forall i :: 0 <= i < |turns| && Manages(turns[i].tick, h) ==> i in Seen(turns, h)
  {
    hide Manages, SampleIn;
    if turns != [] {
      var n := |turns| - 1;
      SeenAre(turns[..n], h);
      forall i | 0 <= i < |turns| && Manages(turns[i].tick, h) ensures i in Seen(turns, h) {
        assert i < n ==> turns[..n][i] == turns[i];
      }
    }
  }

  /** The position of a turn's sample, counted from an earlier one's. */
  lemma SeenLater(turns: seq<Turn>, h: string, from: nat, i: nat) returns (x: nat)
    requires from < |Seen(turns, h)| && Seen(turns, h)[from] <= i < |turns| && Manages(turns[i].tick, h)
    ensures from <= x < |Samples(turns, h)| == |Seen(turns, h)| && Seen(turns, h)[x] == i
    ensures Samples(turns, h)[x] == SampleIn(turns[i], h)
  {
    hide Manages, SampleIn;
    SeenAre(turns, h);
    x :| x < |Seen(turns, h)| && Seen(turns, h)[x] == i;
  }

  // ---------------------------------------------------------------------------------------------
  // A run of ticks is a run of the health record
  // ---------------------------------------------------------------------------------------------

  lemma {:induction false} FindIndex(ts: seq<Torrent>, h: string) returns (i: nat)
    requires Find(ts, h).Some?
    ensures i < |ts| && ts[i] == Find(ts, h).value && ts[i].hash == h
  {
    if ts[0].hash == h {
      i := 0;
    } else {
      var j := FindIndex(ts[1..], h);
      i := j + 1;
    }
  }

  lemma {:induction false} NotFound(ts: seq<Torrent>, h: string)
    requires Find(ts, h).None?
    ensures forall i :: 0 <= i < |ts| ==> ts[i].hash != h
  {
    if ts != [] {
      NotFound(ts[1..], h);
      assert forall i :: 0 < i < |ts| ==> ts[i] == ts[1..][i - 1];
    }
  }

  lemma {:induction false} HealthElsewhere(tick: Tick, chosen: set<string>, upTo: nat, h: string)
    requires upTo <= |Managed(tick)| && forall i :: 0 <= i < |Managed(tick)| ==> Managed(tick)[i].hash != h
    ensures Lookup(HealthAfter(tick, chosen, upTo), h) == Lookup(tick.health, h)
  {
    if upTo > 0 {
      HealthElsewhere(tick, chosen, upTo - 1, h);
    }
  }

  /** A torrent the tick does not manage keeps its row and its allocation. */
  lemma UnmanagedIsUntouched(turn: Turn, h: string)
    requires !Manages(turn.tick, h)
    ensures LifeOf(StoredAlloc(turn), StoredHealth(turn), h) == LifeOf(turn.tick.alloc, turn.tick.health, h)
  {
    hide Managed;
    NotFound(Managed(turn.tick), h);
    HealthElsewhere(turn.tick, HashSet(turn.selected), |Managed(turn.tick)|, h);
  }

  lemma ManagedStepsOnce(turn: Turn, slowSec: int, h: string)
    requires IsTurn(turn, slowSec) && Manages(turn.tick, h)
    ensures
      var before := LifeOf(turn.tick.alloc, turn.tick.health, h);
      var e := TickEvent(turn.tick, HashSet(turn.selected), Which(turn.tick, h));
      && Health.Allowed(before, e, slowSec)
      && LifeOf(StoredAlloc(turn), StoredHealth(turn), h) == Health.Step(before, e)
  {
    hide Managed, Candidates, TickEvent, Overlay, HealthAfter, Health.Allowed, Health.Step;
    var i := FindIndex(Managed(turn.tick), h);
    TickIsHealthStep(turn.tick, turn.selected, i);
  }

  const UNKNOWN := Health.Life(None, true)

  /** The torrent's record as the next tick finds it, when its allocation is not made active by anybody else. */
  ghost predicate Tracks(turns: seq<Turn>, h: string) {
    var life := Health.Live(UNKNOWN, Events(turns, h));
    turns != [] ==>
      var last := turns[|turns| - 1];
      life == LifeOf(StoredAlloc(last), StoredHealth(last), h)
  }

  lemma LiveAppend(life: Health.Life, run: seq<Health.Event>, e: Health.Event)
    ensures Health.Live(life, run + [e]) == Health.Step(Health.Live(life, run), e)
  {
    assert (run + [e])[..|run|] == run;
  }

  /** Every prefix of the events is allowed. */
  ghost predicate AllAllowed(events: seq<Health.Event>, slowSec: int) {
    forall i :: 0 <= i < |events| ==> Health.Allowed(Health.Live(UNKNOWN, events[..i]), events[i], slowSec)
  }

  lemma AllowedAppend(events: seq<Health.Event>, e: Health.Event, slowSec: int)
    requires AllAllowed(events, slowSec) && Health.Allowed(Health.Live(UNKNOWN, events), e, slowSec)
    ensures AllAllowed(events + [e], slowSec)
  {
    hide Health.Allowed, Health.Live;
    forall i | 0 <= i < |events + [e]|
      ensures Health.Allowed(Health.Live(UNKNOWN, (events + [e])[..i]), (events + [e])[i], slowSec)
    {
      assert (events + [e])[..i] == events[..i];
      assert i == |events| ==> events[..i] == events;
    }
  }

  /** One turn, from a record that agrees with what the tick reads except that it may still be active. */
  lemma TurnTracks(before: seq<Health.Event>, turn: Turn, slowSec: int, h: string)
    requires IsTurn(turn, slowSec) && AllAllowed(before, slowSec)
    requires
      var life := Health.Live(UNKNOWN, before);
      life.row == Lookup(turn.tick.health, h) && (IsActive(turn.tick.alloc, h) ==> life.active)
    ensures
      var events := before + TurnEvents(turn, h);
      && AllAllowed(events, slowSec)
      && Health.Live(UNKNOWN, events) == LifeOf(StoredAlloc(turn), StoredHealth(turn), h)
  {
    hide AllAllowed, Health.Live, IsTurn, StoredAlloc, StoredHealth, TickEvent, Which, Manages;
    var found := LifeOf(turn.tick.alloc, turn.tick.health, h);
    var events := before;
    if !IsActive(turn.tick.alloc, h) {
      events := before + [Health.Elsewhere];
      LiveAppend(UNKNOWN, before, Health.Elsewhere);
      AllowedAppend(before, Health.Elsewhere, slowSec);
    }
    assert Health.Live(UNKNOWN, events) == found;
    if Manages(turn.tick, h) {
      var e := TickEvent(turn.tick, HashSet(turn.selected), Which(turn.tick, h));
      ManagedStepsOnce(turn, slowSec, h);
      hide Health.Allowed, Health.Step;
      AllowedAppend(events, e, slowSec);
      LiveAppend(UNKNOWN, events, e);
      assert events + [e] == before + TurnEvents(turn, h);
    } else {
      UnmanagedIsUntouched(turn, h);
      assert events == before + TurnEvents(turn, h);
    }
  }

  lemma {:induction false} RunTracks(turns: seq<Turn>, slowSec: int, h: string)
    requires IsRun(turns, slowSec)
    ensures Tracks(turns, h) && AllAllowed(Events(turns, h), slowSec)
  {
    if turns != [] {
      hide IsTurn, StoredAlloc, StoredHealth, TurnEvents, AllAllowed, Health.Live;
      var n := |turns| - 1;
      RunPrefix(turns, slowSec, n);
      RunTracks(turns[..n], slowSec, h);
      if n == 0 {
        NothingYet(h);
      } else {
        assert turns[..n][n - 1] == turns[n - 1];
        assert Follows(turns[n - 1], turns[n]);
      }
      TurnTracks(Events(turns[..n], h), turns[n], slowSec, h);
    }
  }

  lemma NothingYet(h: string)
    ensures Health.Live(UNKNOWN, Events([], h)) == UNKNOWN && Lookup<HealthRow>(map[], h) == None
  {
  }

  // ---------------------------------------------------------------------------------------------
  // What the timers mean
  // ---------------------------------------------------------------------------------------------

  /** The health row a tick finds is the one its samples so far add up to. */
  lemma {:induction false} RowIsHistory(turns: seq<Turn>, slowSec: int, h: string)
    requires IsRun(turns, slowSec)
    ensures turns != [] ==> Lookup(StoredHealth(turns[|turns| - 1]), h) == Health.After(Samples(turns, h))
  {
    if turns != [] {
      hide IsTurn, Overlay, Written, Health.NextHealth, SampleOf, Candidates;
      var n := |turns| - 1;
      RunPrefix(turns, slowSec, n);
      RowIsHistory(turns[..n], slowSec, h);
      var found := Lookup(turns[n].tick.health, h);
      assert found == Health.After(Samples(turns[..n], h)) by {
        if n > 0 {
          assert turns[..n][n - 1] == turns[n - 1];
          assert Follows(turns[n - 1], turns[n]);
        } else {
          assert Samples(turns[..n], h) == [];
        }
      }
      RowAfterTurn(turns[n], slowSec, h);
      var samples := Samples(turns[..n], h);
      if Manages(turns[n].tick, h) {
        assert Samples(turns, h)[..|samples|] == samples;
      } else {
        assert Samples(turns, h) == samples;
      }
    }
  }

  lemma RowAfterTurn(turn: Turn, slowSec: int, h: string)
    requires IsTurn(turn, slowSec)
    ensures Lookup(StoredHealth(turn), h)
         == if Manages(turn.tick, h) then Some(Health.NextHealth(Lookup(turn.tick.health, h), SampleIn(turn, h)))
            else Lookup(turn.tick.health, h)
  {
    hide Managed, Candidates, Overlay, HealthAfter, Health.NextHealth, SampleOf, Health.Allowed;
    if Manages(turn.tick, h) {
      ManagedStepsOnce(turn, slowSec, h);
    } else {
      UnmanagedIsUntouched(turn, h);
    }
  }

  /** The last tick of a run finds the row its predecessors' samples add up to. */
  lemma RowFound(turns: seq<Turn>, slowSec: int, h: string)
    requires IsRun(turns, slowSec) && turns != []
    ensures Lookup(turns[|turns| - 1].tick.health, h) == Health.After(Samples(turns[..|turns| - 1], h))
  {
    hide IsTurn, StoredHealth, StoredAlloc, SampleIn, Manages;
    var n := |turns| - 1;
    RunPrefix(turns, slowSec, n);
    RowIsHistory(turns[..n], slowSec, h);
    if n > 0 {
      assert turns[..n][n - 1] == turns[n - 1];
      assert Follows(turns[n - 1], turns[n]);
    } else {
      assert Samples(turns[..n], h) == [];
    }
  }

  /** At every turn in this stretch that sampled the torrent, this held. */
  ghost predicate SelectedFrom(turns: seq<Turn>, h: string, from: nat) {
    forall i :: from <= i < |turns| && Manages(turns[i].tick, h) ==> h in HashSet(turns[i].selected)
  }

  ghost predicate SlowFrom(turns: seq<Turn>, h: string, from: nat) {
    forall i :: from <= i < |turns| && Manages(turns[i].tick, h) ==> Which(turns[i].tick, h).dlspeed < 100 * 1024
  }

  ghost predicate AloneAfter(turns: seq<Turn>, h: string, from: nat) {
    forall i :: from < i < |turns| && Manages(turns[i].tick, h) ==>
      Which(turns[i].tick, h).seeds == 0 && Which(turns[i].tick, h).peers == 0
  }

  /** Two turns that sampled the torrent with none in between. */
  ghost predicate NextSeen(turns: seq<Turn>, h: string, p: nat, i: nat) {
    && p < i < |turns| && Manages(turns[p].tick, h) && Manages(turns[i].tick, h)
    && forall k :: p < k < i ==> !Manages(turns[k].tick, h)
  }

  ghost predicate StuckFrom(turns: seq<Turn>, h: string, from: nat) {
    forall p: nat, i: nat :: NextSeen(turns, h, p, i) && from <= i ==>
      var was, now := Which(turns[p].tick, h), Which(turns[i].tick, h);
      now.completed <= was.completed && now.progress <= was.progress
  }

  lemma StuckSamples(turns: seq<Turn>, h: string, from: nat)
    requires from < |Seen(turns, h)| == |Samples(turns, h)| && Health.StuckSince(Samples(turns, h), from)
    ensures StuckFrom(turns, h, Seen(turns, h)[from])
  {
    hide Manages, Which, SampleIn, Seen, Samples, Health.StuckSince;
    forall p: nat, i: nat | NextSeen(turns, h, p, i) && Seen(turns, h)[from] <= i
      ensures Which(turns[i].tick, h).completed <= Which(turns[p].tick, h).completed
      ensures Which(turns[i].tick, h).progress <= Which(turns[p].tick, h).progress
    {
      StuckPair(turns, h, from, p, i);
    }
  }

  lemma StuckPair(turns: seq<Turn>, h: string, from: nat, p: nat, i: nat)
    requires from < |Seen(turns, h)| == |Samples(turns, h)| && Health.StuckSince(Samples(turns, h), from)
    requires NextSeen(turns, h, p, i) && Seen(turns, h)[from] <= i
    ensures Which(turns[i].tick, h).completed <= Which(turns[p].tick, h).completed
    ensures Which(turns[i].tick, h).progress <= Which(turns[p].tick, h).progress
  {
    hide Manages, Which, SampleIn, Seen, Samples;
    var seen, hist := Seen(turns, h), Samples(turns, h);
    SeenAre(turns, h);
    var x: nat :| x < |seen| && seen[x] == i;
    var y: nat :| y < |seen| && seen[y] == p;
    assert x >= from && Health.StuckAt(hist, x);
    assert seen[y] <= seen[x - 1] < seen[x];
    assert y == x - 1;
    SampleIs(turns[p], h);
    SampleIs(turns[i], h);
  }

  lemma AloneSamples(turns: seq<Turn>, h: string, from: nat)
    requires from < |Seen(turns, h)| == |Samples(turns, h)| && Health.NoSwarmAfter(Samples(turns, h), from)
    ensures AloneAfter(turns, h, Seen(turns, h)[from])
  {
    hide Manages, Which, SampleIn;
    forall i | Seen(turns, h)[from] < i < |turns| && Manages(turns[i].tick, h)
      ensures Which(turns[i].tick, h).seeds == 0 && Which(turns[i].tick, h).peers == 0
    {
      var x := SeenLater(turns, h, from, i);
      SeenAre(turns, h);
      assert x != from;
      assert !Health.Swarm(Samples(turns, h)[x]);
      SampleIs(turns[i], h);
    }
  }

  lemma SampleIs(turn: Turn, h: string)
    requires Manages(turn.tick, h)
    ensures
      var s, t := SampleIn(turn, h), Which(turn.tick, h);
      && t.hash == h && s.now == turn.tick.now && s.selected == (h in HashSet(turn.selected))
      && s.dlspeed == t.dlspeed && s.seeds == t.seeds && s.peers == t.peers
      && s.completed == t.completed && s.progress == t.progress && s.wasActive == IsActive(turn.tick.alloc, h)
  {
    hide Managed;
    var i := FindIndex(Managed(turn.tick), h);
  }

  /**
   On every run of ticks, a torrent demoted for being slow was selected at every tick that sampled it
   since one at least ninety seconds ago, and slow at every such tick since one at least the demotion
   time ago.
   */
  lemma SlowDemotionOnRuns(turns: seq<Turn>, slowSec: int, h: string) returns (activeFrom: nat, slowFrom: nat)
    requires IsRun(turns, slowSec) && turns != []
    requires Manages(turns[|turns| - 1].tick, h)
      && ActiveSlow(turns[|turns| - 1].tick, Which(turns[|turns| - 1].tick, h))
    ensures
      var before, now := turns[..|turns| - 1], turns[|turns| - 1].tick.now;
      && activeFrom < |before| && now - turns[activeFrom].tick.now >= 90
           && SelectedFrom(before, h, activeFrom)
      && slowFrom < |before| && now - turns[slowFrom].tick.now >= slowSec && SlowFrom(before, h, slowFrom)
      && Which(turns[|turns| - 1].tick, h).dlspeed < 100 * 1024
  {
    hide Manages, Which, SampleIn, Health.After, AutoDead, Follows;
    var n := |turns| - 1;
    var before, last := turns[..n], turns[n];
    var hist := Samples(before, h);
    RowFound(turns, slowSec, h);
    SampleIs(last, h);
    var a, s := Health.DemotionMeansSlow(hist, Which(last.tick, h).dlspeed, last.tick.now, slowSec);
    SeenAre(before, h);
    activeFrom, slowFrom := Seen(before, h)[a], Seen(before, h)[s];
    SampleIs(before[activeFrom], h);
    SampleIs(before[slowFrom], h);
    forall i | activeFrom <= i < n && Manages(before[i].tick, h) ensures h in HashSet(before[i].selected) {
      var x := SeenLater(before, h, a, i);
      SampleIs(before[i], h);
    }
    forall i | slowFrom <= i < n && Manages(before[i].tick, h)
      ensures Which(before[i].tick, h).dlspeed < 100 * 1024 {
      var x := SeenLater(before, h, s, i);
      SampleIs(before[i], h);
    }
  }

  /** At every turn from this one on that sampled the torrent it was selected and slow, and active before. */
  ghost predicate SlowAndActiveFrom(turns: seq<Turn>, h: string, from: nat) {
    && (forall i :: from <= i < |turns| && Manages(turns[i].tick, h) ==>
          h in HashSet(turns[i].selected) && Which(turns[i].tick, h).dlspeed < 100 * 1024)
    && (forall i :: from < i < |turns| && Manages(turns[i].tick, h) ==> IsActive(turns[i].tick.alloc, h))
  }

  lemma {:induction false} SamplesInTime(turns: seq<Turn>, h: string)
    requires InTime(turns) && forall i :: 0 <= i < |turns| ==> turns[i].tick.now > 0
    ensures Health.SaneClock(Samples(turns, h))
  {
    hide Manages, Which, SampleIn, Seen, Samples;
    SeenAre(turns, h);
    forall x | 0 <= x < |Samples(turns, h)| ensures Samples(turns, h)[x].now == turns[Seen(turns, h)[x]].tick.now {
      SampleIs(turns[Seen(turns, h)[x]], h);
    }
  }

  /**
   The converse: on every run of ticks a torrent that was selected and slow at every tick that sampled it
   since one at least ninety seconds and the demotion time ago, and that is still active and slow, is
   demoted.
   */
  lemma LongSlowIsDemotedOnRuns(turns: seq<Turn>, slowSec: int, h: string, from: nat)
    requires IsRun(turns, slowSec) && from < |turns| - 1 && forall i :: 0 <= i < |turns| ==> turns[i].tick.now > 0
    requires Manages(turns[from].tick, h) && SlowAndActiveFrom(turns, h, from)
    requires
      var last := turns[|turns| - 1];
      && Manages(last.tick, h) && last.tick.now - turns[from].tick.now >= 90
      && last.tick.now - turns[from].tick.now >= slowSec
    ensures ActiveSlow(turns[|turns| - 1].tick, Which(turns[|turns| - 1].tick, h))
  {
    hide Manages, Which, SampleIn, Health.After, Follows, IsTurn, Seen, Samples, Health.ShouldDemote;
    var n := |turns| - 1;
    var before, last := turns[..n], turns[n];
    RowFound(turns, slowSec, h);
    RunInTime(turns, slowSec);
    BeforeInTime(turns, n);
    SamplesInTime(before, h);
    SeenAre(before, h);
    assert before[from] == turns[from];
    var x: nat :| x < |Seen(before, h)| && Seen(before, h)[x] == from;
    SamplesAreSlow(before, h, from, x);
    SampleIs(before[from], h);
    SampleIs(last, h);
    TurnKnowsSlowness(turns, slowSec, n);
    assert IsActive(turns[n].tick.alloc, h);
    Health.LongSlowIsDemoted(Samples(before, h), x, Which(last.tick, h).dlspeed, last.tick.now, slowSec);
  }

  lemma TurnKnowsSlowness(turns: seq<Turn>, slowSec: int, i: nat)
    requires IsRun(turns, slowSec) && i < |turns|
    ensures turns[i].tick.cfg.slowDemoteSec == slowSec
  {
  }

  lemma BeforeInTime(turns: seq<Turn>, n: nat)
    requires InTime(turns) && n <= |turns|
    ensures InTime(turns[..n])
  {
  }

  lemma SamplesAreSlow(turns: seq<Turn>, h: string, from: nat, x: nat)
    requires x < |Seen(turns, h)| && Seen(turns, h)[x] == from && SlowAndActiveFrom(turns, h, from)
    ensures |Samples(turns, h)| == |Seen(turns, h)| && Health.SlowAndActive(Samples(turns, h), x)
  {
    hide Manages, Which, Seen, Samples;
    SeenAre(turns, h);
    forall y | x <= y < |Samples(turns, h)|
      ensures Samples(turns, h)[y].selected && Samples(turns, h)[y].dlspeed < 100 * 1024
      ensures y > x ==> Samples(turns, h)[y].wasActive
    {
      var i := Seen(turns, h)[y];
      assert Seen(turns, h)[x] <= i && (y > x ==> Seen(turns, h)[x] < i);
      SampleIs(turns[i], h);
    }
  }

  /**
   On every run of ticks, a torrent given up for dead has had no seed and no peer at any tick that
   sampled it for an hour, and for an hour none of those showed more downloaded than the one before.
   */
  lemma DeathOnRuns(turns: seq<Turn>, slowSec: int, h: string) returns (swarmAt: nat, stuckFrom: nat)
    requires IsRun(turns, slowSec) && turns != []
    requires Manages(turns[|turns| - 1].tick, h) && AutoDead(turns[|turns| - 1].tick, Which(turns[|turns| - 1].tick, h))
    ensures
      var before, last := turns[..|turns| - 1], turns[|turns| - 1];
      && swarmAt < |before| && last.tick.now - turns[swarmAt].tick.now >= 3600
           && AloneAfter(before, h, swarmAt)
      && stuckFrom < |before| && last.tick.now - turns[stuckFrom].tick.now >= 3600
           && StuckFrom(before, h, stuckFrom)
      && Which(last.tick, h).seeds == 0 && Which(last.tick, h).peers == 0
  {
    hide Manages, Which, SampleIn, Health.After, Follows, IsTurn, IsRun, StuckFrom, AloneAfter, Seen, Samples,
         Health.StuckSince, Health.NoSwarmAfter;
    var n := |turns| - 1;
    var before, last := turns[..n], turns[n];
    var hist := Samples(before, h);
    RowFound(turns, slowSec, h);
    SampleIs(last, h);
    var t := Which(last.tick, h);
    var w, stuck :=
      Health.DeathMeansAnHour(hist, Lookup(last.tick.alloc, h), t.amountLeft, t.seeds, t.peers, last.tick.now);
    SeenAre(before, h);
    swarmAt, stuckFrom := Seen(before, h)[w], Seen(before, h)[stuck];
    SampleIs(before[swarmAt], h);
    SampleIs(before[stuckFrom], h);
    StuckSamples(before, h, stuck);
    AloneSamples(before, h, w);
  }

  // ---------------------------------------------------------------------------------------------
  // Two demotions
  // ---------------------------------------------------------------------------------------------

  /** The events of a shorter run come first. */
  lemma {:induction false} EventsPrefix(turns: seq<Turn>, h: string, n: nat)
    requires n <= |turns|
    ensures |Events(turns[..n], h)| <= |Events(turns, h)|
    ensures Events(turns[..n], h) == Events(turns, h)[..|Events(turns[..n], h)|]
  {
    hide TurnEvents;
    if n < |turns| {
      var m := |turns| - 1;
      EventsPrefix(turns[..m], h, n);
      assert turns[..m][..n] == turns[..n];
    } else {
      assert turns[..n] == turns;
    }
  }

  /** Where the event of one turn is among those of the run. */
  lemma EventOf(turns: seq<Turn>, h: string, i: nat) returns (p: nat)
    requires i < |turns| && Manages(turns[i].tick, h)
    ensures |Events(turns[..i], h)| <= p < |Events(turns[..i + 1], h)| <= |Events(turns, h)|
    ensures Events(turns, h)[p] == TickEvent(turns[i].tick, HashSet(turns[i].selected), Which(turns[i].tick, h))
  {
    hide Manages, Which, TickEvent, Managed;
    var upTo := turns[..i + 1];
    assert upTo[..i] == turns[..i] && upTo[i] == turns[i];
    p := |Events(upTo, h)| - 1;
    EventsPrefix(turns, h, i + 1);
    assert Events(upTo, h)[p] == Events(turns, h)[p];
  }

  ghost predicate InTime(turns: seq<Turn>) {
    forall i, j :: 0 <= i < j < |turns| ==> turns[i].tick.now <= turns[j].tick.now
  }

  lemma OneMoreInTime(turns: seq<Turn>, n: nat)
    requires 0 < n == |turns| - 1 && InTime(turns[..n]) && turns[n - 1].tick.now <= turns[n].tick.now
    ensures InTime(turns)
  {
    var before := turns[..n];
    assert forall i :: 0 <= i < n ==> before[i] == turns[i];
    assert forall i :: 0 <= i < n - 1 ==> before[i].tick.now <= before[n - 1].tick.now;
  }

  lemma {:induction false} RunInTime(turns: seq<Turn>, slowSec: int)
    requires IsRun(turns, slowSec)
    ensures InTime(turns)
  {
    hide IsTurn, StoredAlloc, StoredHealth, NobodyActivated;
    if |turns| > 1 {
      var n := |turns| - 1;
      RunPrefix(turns, slowSec, n);
      RunInTime(turns[..n], slowSec);
      assert Follows(turns[n - 1], turns[n]);
      assert turns[n - 1].tick.now <= turns[n].tick.now;
      hide IsRun, Follows;
      OneMoreInTime(turns, n);
    }
  }

  /** A tick's event carries its time, so the events of a run come in time too. */
  lemma {:induction false} EventsInTime(turns: seq<Turn>, h: string)
    requires InTime(turns)
    ensures forall i :: 0 <= i < |Events(turns, h)| && Events(turns, h)[i].Tick? ==>
      turns != [] && Events(turns, h)[i].sample.now <= turns[|turns| - 1].tick.now
    ensures forall i, j :: 0 <= i < j < |Events(turns, h)| && Events(turns, h)[i].Tick? && Events(turns, h)[j].Tick? ==>
      Events(turns, h)[i].sample.now <= Events(turns, h)[j].sample.now
  {
    if turns != [] {
      hide Manages, Which, AutoDead, ActiveSlow, Outcome;
      var n := |turns| - 1;
      EventsInTime(turns[..n], h);
      if n > 0 {
        assert turns[..n][n - 1] == turns[n - 1];
        assert turns[n - 1].tick.now <= turns[n].tick.now;
      }
      var before, more := Events(turns[..n], h), TurnEvents(turns[n], h);
      assert forall i :: 0 <= i < |more| && more[i].Tick? ==> more[i].sample.now == turns[n].tick.now;
      assert Events(turns, h) == before + more;
    }
  }

  /**
   On every run of ticks, two slow demotions of one torrent are at least the demotion time apart,
   whatever other writers do to its allocation in between.
   */
  lemma DemotionsApartOnRuns(turns: seq<Turn>, slowSec: int, h: string, i: nat, j: nat)
    requires IsRun(turns, slowSec) && i < j < |turns|
    requires Manages(turns[i].tick, h) && ActiveSlow(turns[i].tick, Which(turns[i].tick, h))
    requires Manages(turns[j].tick, h) && ActiveSlow(turns[j].tick, Which(turns[j].tick, h))
    ensures turns[j].tick.now - turns[i].tick.now >= slowSec
  {
    hide Manages, Which, ActiveSlow, Outcome, AutoDead, Events, Health.Possible, IsRun, AllAllowed, Health.Allowed,
         Health.Live;
    RunTracks(turns, slowSec, h);
    RunInTime(turns, slowSec);
    EventsInTime(turns, h);
    var p := EventOf(turns, h, i);
    var q := EventOf(turns, h, j);
    EventsPrefix(turns[..j], h, i + 1);
    assert turns[..j][..i + 1] == turns[..i + 1];
    PossibleEvents(Events(turns, h), slowSec);
    Health.DemotionsApart(UNKNOWN, Events(turns, h), slowSec, p, q);
  }

  lemma PossibleEvents(events: seq<Health.Event>, slowSec: int)
    requires AllAllowed(events, slowSec)
    requires forall i, j :: 0 <= i < j < |events| && events[i].Tick? && events[j].Tick? ==>
      events[i].sample.now <= events[j].sample.now
    ensures Health.Possible(UNKNOWN, events, slowSec)
  {
    hide Health.Allowed, Health.Live;
  }
}
