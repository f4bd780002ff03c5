/**
 The planner's health timers: what one tick writes for one torrent, when a slow download is demoted
 and when a torrent is given up, and what those timers say about every run of ticks.
 */
module Health {
  import opened Options
  import opened Tables

  const SLOW_BPS: nat := 100 * 1024
  const MIN_ACTIVE_SEC := 90
  const DEAD_SEC := 3600

  /** One tick's view of one torrent. */
  datatype Sample = Sample(
    now: int,
    selected: bool,
    autoDead: bool,
    wasActive: bool,     // its allocation was `active` when the tick began
    dlspeed: nat,
    completed: nat,
    progress: real,
    seeds: nat,
    peers: nat)

  /** Python's `x or y` on a nullable column: null and zero both fall through. */
  function Or(x: Option<int>, y: int): Option<int> {
    if x.Some? && x.value != 0 then x else Some(y)
  }

  /** A timer that runs keeps its start; one at zero counts as none and starts now. */
  lemma OrMeans(x: Option<int>, y: int)
    ensures Or(x, y).Some?
    ensures x.Some? && x.value != 0 ==> Or(x, y) == x
    ensures x.None? || x.value == 0 ==> Or(x, y) == Some(y)
  {
  }

  predicate NoProgress(prev: HealthRow, s: Sample) {
    s.completed <= prev.completed && s.progress <= prev.progress
  }

  predicate Swarm(s: Sample) {
    s.seeds > 0 || s.peers > 0
  }

  /** What a torrent without a row is compared with. */
  const BLANK := HealthRow(0, 0, 0.0, None, None, None, None, None, None)

  function NextHealth(row: Option<HealthRow>, s: Sample): HealthRow {
    var prev := if row.Some? then row.value else BLANK;
    HealthRow(
      s.dlspeed, s.completed, s.progress,
      if Swarm(s) then Some(s.now) else prev.lastSwarmSeenAt,
      if s.dlspeed >= SLOW_BPS then None
      else if s.selected && !s.wasActive then Some(s.now)
      else Or(prev.lowSpeedSince, s.now),
      if row.None? || !NoProgress(prev, s) then None
      else if prev.noProgressSince.Some? then prev.noProgressSince
      else Some(s.now),
      if !s.selected then None
      else if s.wasActive && prev.activeSince.Some? then prev.activeSince
      else Some(s.now),
      if s.selected || s.autoDead then None else Or(prev.soakSince, s.now),
      if s.selected then None else if s.autoDead then Or(prev.deadSince, s.now) else prev.deadSince)
  }

  /** The speed the demotion test looks at: a reported zero falls back to the last sample. */
  function ReportedSpeed(dlspeed: nat, row: HealthRow): nat {
    if dlspeed > 0 then dlspeed else row.dlspeed
  }

  predicate ShouldDemote(row: Option<HealthRow>, dlspeed: nat, now: int, slowSec: int) {
    && row.Some?
    && row.value.activeSince.Some? && row.value.lowSpeedSince.Some?
    && now - row.value.activeSince.value >= MIN_ACTIVE_SEC
    && now - row.value.lowSpeedSince.value >= slowSec
    && ReportedSpeed(dlspeed, row.value) < SLOW_BPS
  }

  predicate ShouldMarkDead(row: Option<HealthRow>, alloc: Option<Allocation>, amountLeft: nat, seeds: nat, peers: nat,
                           now: int) {
    && row.Some? && alloc.Some?
    && (alloc.value.desired.Soak? || alloc.value.desired.Dead?)
    && amountLeft > 0 && seeds == 0 && peers == 0
    && row.value.lastSwarmSeenAt.Some? && row.value.noProgressSince.Some?
    && now - row.value.lastSwarmSeenAt.value >= DEAD_SEC
    && now - row.value.noProgressSince.value >= DEAD_SEC
  }

  // ---------------------------------------------------------------------------------------------
  // Whole runs
  // ---------------------------------------------------------------------------------------------

  /** The row after a run of sampled ticks, starting without one. */
  function After(hist: seq<Sample>): Option<HealthRow> {
    if hist == [] then None
    else Some(NextHealth(After(hist[..|hist| - 1]), hist[|hist| - 1]))
  }

  /** From position `from` on, the torrent was selected at every tick. */
  ghost predicate SelectedSince(hist: seq<Sample>, from: nat) {
    forall i :: from <= i < |hist| ==> hist[i].selected
  }

  ghost predicate SlowSince(hist: seq<Sample>, from: nat) {
    forall i :: from <= i < |hist| ==> hist[i].dlspeed < 100 * 1024
  }

  ghost predicate NoSwarmAfter(hist: seq<Sample>, from: nat) {
    forall i :: from < i < |hist| ==> !Swarm(hist[i])
  }

  ghost predicate StuckAt(hist: seq<Sample>, i: nat) {
    0 < i < |hist| && hist[i].completed <= hist[i - 1].completed && hist[i].progress <= hist[i - 1].progress
  }

  /** From position `from` on, no tick showed more downloaded than the tick before it. */
  ghost predicate StuckSince(hist: seq<Sample>, from: nat) {
    forall i: nat :: from <= i < |hist| ==> StuckAt(hist, i)
  }

  /** The tick at which the torrent's current stretch as a selected download began. */
  lemma {:induction false} ActiveSinceMeans(hist: seq<Sample>) returns (from: nat)
    requires hist != [] && After(hist).value.activeSince.Some?
    ensures from < |hist| && hist[from].now == After(hist).value.activeSince.value
    ensures SelectedSince(hist, from)
  {
    var n := |hist| - 1;
    var prev := After(hist[..n]);
    if hist[n].wasActive && prev.Some? && prev.value.activeSince.Some? {
      from := ActiveSinceMeans(hist[..n]);
      assert hist[from] == hist[..n][from];
      forall i | from <= i < n ensures hist[i].selected {
        assert hist[..n][i].selected;
      }
    } else {
      from := n;
    }
  }

  lemma {:induction false} LowSpeedSinceMeans(hist: seq<Sample>) returns (from: nat)
    requires hist != [] && After(hist).value.lowSpeedSince.Some?
    ensures from < |hist| && hist[from].now == After(hist).value.lowSpeedSince.value
    ensures SlowSince(hist, from)
  {
    var n := |hist| - 1;
    var prev := After(hist[..n]);
    if !(hist[n].selected && !hist[n].wasActive) && prev.Some? && prev.value.lowSpeedSince.Some?
      && prev.value.lowSpeedSince.value != 0 {
      from := LowSpeedSinceMeans(hist[..n]);
      assert hist[from] == hist[..n][from];
      forall i | from <= i < n ensures hist[i].dlspeed < 100 * 1024 {
        assert hist[..n][i].dlspeed < 100 * 1024;
      }
    } else {
      from := n;
    }
  }

  lemma {:induction false} LastSwarmMeans(hist: seq<Sample>) returns (from: nat)
    requires hist != [] && After(hist).value.lastSwarmSeenAt.Some?
    ensures from < |hist| && hist[from].now == After(hist).value.lastSwarmSeenAt.value
    ensures Swarm(hist[from]) && NoSwarmAfter(hist, from)
  {
    var n := |hist| - 1;
    if Swarm(hist[n]) {
      from := n;
    } else {
      from := LastSwarmMeans(hist[..n]);
      assert hist[from] == hist[..n][from];
      forall i | from < i < n ensures !Swarm(hist[i]) {
        assert !Swarm(hist[..n][i]);
      }
    }
  }

  lemma {:induction false} LastSample(hist: seq<Sample>)
    requires hist != []
    ensures
      var row := After(hist).value;
      var s := hist[|hist| - 1];
      row.dlspeed == s.dlspeed && row.completed == s.completed && row.progress == s.progress
  {
  }

  lemma {:induction false} NoProgressSinceMeans(hist: seq<Sample>) returns (from: nat)
    requires hist != [] && After(hist).value.noProgressSince.Some?
    ensures from < |hist| && hist[from].now == After(hist).value.noProgressSince.value
    ensures StuckSince(hist, from)
  {
    var n := |hist| - 1;
    var prev := After(hist[..n]);
    LastSample(hist[..n]);
    assert n > 0 && hist[..n][n - 1] == hist[n - 1];
    if prev.value.noProgressSince.Some? {
      from := NoProgressSinceMeans(hist[..n]);
      assert hist[from] == hist[..n][from];
      forall i: nat | from <= i < n ensures StuckAt(hist, i) {
        assert StuckAt(hist[..n], i);
      }
    } else {
      from := n;
    }
  }

  /**
   A torrent demoted for being slow was selected at every sampled tick since a tick at least ninety
   seconds ago, and slow at every sampled tick, this one included, since one at least `slowSec` ago.
   */
  lemma DemotionMeansSlow(hist: seq<Sample>, dlspeed: nat, now: int, slowSec: int)
    returns (activeFrom: nat, slowFrom: nat)
    requires ShouldDemote(After(hist), dlspeed, now, slowSec)
    ensures activeFrom < |hist| && now - hist[activeFrom].now >= 90 && SelectedSince(hist, activeFrom)
    ensures slowFrom < |hist| && now - hist[slowFrom].now >= slowSec && SlowSince(hist, slowFrom)
    ensures dlspeed < 100 * 1024
  {
    activeFrom := ActiveSinceMeans(hist);
    slowFrom := LowSpeedSinceMeans(hist);
  }

  /**
   A torrent is given up only after an hour of samples without progress, and an hour in which no
   sample, this one included, saw a seed or a peer.
   */
  lemma DeathMeansAnHour(hist: seq<Sample>, alloc: Option<Allocation>, amountLeft: nat, seeds: nat, peers: nat,
                         now: int)
    returns (swarmAt: nat, stuckFrom: nat)
    requires ShouldMarkDead(After(hist), alloc, amountLeft, seeds, peers, now)
    ensures swarmAt < |hist| && now - hist[swarmAt].now >= 3600 && NoSwarmAfter(hist, swarmAt)
    ensures seeds == 0 && peers == 0
    ensures stuckFrom < |hist| && now - hist[stuckFrom].now >= 3600 && StuckSince(hist, stuckFrom)
  {
    swarmAt := LastSwarmMeans(hist);
    stuckFrom := NoProgressSinceMeans(hist);
  }

  /** The clock does not go back and is past the epoch; a timer of zero would count as none. */
  ghost predicate SaneClock(hist: seq<Sample>) {
    && (forall i :: 0 <= i < |hist| ==> hist[i].now > 0)
    && (forall i, j :: 0 <= i < j < |hist| ==> hist[i].now <= hist[j].now)
  }

  /** Timers never run ahead of the clock. */
  lemma {:induction false} TimersHavePassed(hist: seq<Sample>)
    requires hist != [] && SaneClock(hist)
    ensures
      var row, now := After(hist).value, hist[|hist| - 1].now;
      && (row.activeSince.Some? ==> row.activeSince.value <= now)
      && (row.lowSpeedSince.Some? ==> 0 < row.lowSpeedSince.value <= now)
      && (row.noProgressSince.Some? ==> row.noProgressSince.value <= now)
  {
    var n := |hist| - 1;
    if n > 0 {
      TimersHavePassed(hist[..n]);
      assert hist[..n][n - 1] == hist[n - 1];
    }
  }

  lemma SanePrefix(hist: seq<Sample>, n: nat)
    requires SaneClock(hist) && n <= |hist|
    ensures SaneClock(hist[..n])
  {
  }

  /** The download was selected and slow at each of these ticks, and still active when the later ones began. */
  ghost predicate SlowAndActive(hist: seq<Sample>, from: nat) {
    && (forall i :: from <= i < |hist| ==> hist[i].selected && hist[i].dlspeed < 100 * 1024)
    && (forall i :: from < i < |hist| ==> hist[i].wasActive)
  }

  lemma {:induction false} TimersKeepRunning(hist: seq<Sample>, from: nat)
    requires from < |hist| && SaneClock(hist) && SlowAndActive(hist, from)
    ensures
      var row := After(hist).value;
      && row.activeSince.Some? && row.activeSince.value <= hist[from].now
      && row.lowSpeedSince.Some? && 0 < row.lowSpeedSince.value <= hist[from].now
      && row.dlspeed < 100 * 1024
  {
    var n := |hist| - 1;
    if from < n {
      SanePrefix(hist, n);
      assert SlowAndActive(hist[..n], from);
      TimersKeepRunning(hist[..n], from);
    } else {
      TimersHavePassed(hist);
    }
  }

  /**
   The converse: a download that has been selected and slow at every sampled tick since one at least
   ninety seconds and `slowSec` ago is demoted, unless it speeds up now.
   */
  lemma LongSlowIsDemoted(hist: seq<Sample>, from: nat, dlspeed: nat, now: int, slowSec: int)
    requires from < |hist| && SaneClock(hist) && SlowAndActive(hist, from)
    requires now - hist[from].now >= 90 && now - hist[from].now >= slowSec && dlspeed < 100 * 1024
    ensures ShouldDemote(After(hist), dlspeed, now, slowSec)
  {
    TimersKeepRunning(hist, from);
  }

  lemma {:induction false} SwarmIsRemembered(hist: seq<Sample>, at: nat)
    requires at < |hist| && Swarm(hist[at]) && NoSwarmAfter(hist, at)
    ensures After(hist).value.lastSwarmSeenAt == Some(hist[at].now)
  {
    var n := |hist| - 1;
    if at < n {
      assert NoSwarmAfter(hist[..n], at);
      SwarmIsRemembered(hist[..n], at);
    }
  }

  lemma {:induction false} StuckIsRemembered(hist: seq<Sample>, from: nat)
    requires 0 < from < |hist| && SaneClock(hist) && StuckSince(hist, from)
    ensures
      var row := After(hist).value;
      row.noProgressSince.Some? && row.noProgressSince.value <= hist[from].now
  {
    var n := |hist| - 1;
    LastSample(hist[..n]);
    assert StuckAt(hist, n) && hist[..n][n - 1] == hist[n - 1];
    if from < n {
      SanePrefix(hist, n);
      forall i: nat | from <= i < n ensures StuckAt(hist[..n], i) {
        assert StuckAt(hist, i);
      }
      StuckIsRemembered(hist[..n], from);
    } else {
      TimersHavePassed(hist);
    }
  }

  /**
   And a torrent soaking or dead that still needs bytes is given up once an hour has passed since it
   last had a swarm, and an hour since a tick from which on none showed progress.
   */
  lemma HourAloneIsDeath(hist: seq<Sample>, swarmAt: nat, stuckFrom: nat, alloc: Allocation, amountLeft: nat, now: int)
    requires SaneClock(hist) && (alloc.desired.Soak? || alloc.desired.Dead?) && amountLeft > 0
    requires swarmAt < |hist| && Swarm(hist[swarmAt]) && NoSwarmAfter(hist, swarmAt)
    requires now - hist[swarmAt].now >= 3600
    requires 0 < stuckFrom < |hist| && StuckSince(hist, stuckFrom) && now - hist[stuckFrom].now >= 3600
    ensures ShouldMarkDead(After(hist), Some(alloc), amountLeft, 0, 0, now)
  {
    SwarmIsRemembered(hist, swarmAt);
    StuckIsRemembered(hist, stuckFrom);
  }

  // ---------------------------------------------------------------------------------------------
  // Two demotions of one torrent
  // ---------------------------------------------------------------------------------------------

  /** What can happen to one torrent: a sampled tick, or another writer touching its allocation. */
  datatype Event =
    | Tick(sample: Sample, demoted: bool, touched: bool)  // `touched`: the tick rewrote its allocation
    | Elsewhere                                           // another writer changed or deleted the allocation

  datatype Life = Life(row: Option<HealthRow>, active: bool)

  /**
   Only being selected makes an allocation `active`; a demotion is never a selection, and it always
   rewrites the allocation. A tick that touches nothing leaves the allocation as it was.
   */
  ghost predicate Allowed(life: Life, e: Event, slowSec: int) {
    e.Tick? ==>
      && e.sample.wasActive == life.active
      && (e.demoted ==> life.active && ShouldDemote(life.row, e.sample.dlspeed, e.sample.now, slowSec)
                        && !e.sample.selected && e.touched)
      && (e.sample.selected ==> e.touched)
  }

  function Step(life: Life, e: Event): Life {
    match e
    case Tick(s, _, touched) => Life(Some(NextHealth(life.row, s)), if touched then s.selected else life.active)
    case Elsewhere => life.(active := false)
  }

  function Live(life: Life, run: seq<Event>): Life {
    if run == [] then life else Step(Live(life, run[..|run| - 1]), run[|run| - 1])
  }

  ghost predicate Possible(life: Life, run: seq<Event>, slowSec: int) {
    && (forall i :: 0 <= i < |run| ==> Allowed(Live(life, run[..i]), run[i], slowSec))
    && (forall i, j :: 0 <= i < j < |run| && run[i].Tick? && run[j].Tick? ==> run[i].sample.now <= run[j].sample.now)
  }

  /** While the allocation is active, the low-speed timer started no earlier than `t`. */
  ghost predicate TimerAfter(life: Life, t: int) {
    life.active && life.row.Some? && life.row.value.lowSpeedSince.Some? ==> life.row.value.lowSpeedSince.value >= t
  }

  lemma TimerStep(life: Life, e: Event, slowSec: int, t: int)
    requires TimerAfter(life, t) && Allowed(life, e, slowSec)
    requires e.Tick? ==> t <= e.sample.now
    ensures TimerAfter(Step(life, e), t)
  {
  }

  lemma PossiblePrefix(life: Life, run: seq<Event>, slowSec: int, n: nat)
    requires Possible(life, run, slowSec) && n <= |run|
    ensures Possible(life, run[..n], slowSec)
    ensures forall i :: 0 <= i < n ==> run[..n][..i] == run[..i]
  {
    forall i | 0 <= i < n ensures Allowed(Live(life, run[..n][..i]), run[..n][i], slowSec) {
      assert run[..n][..i] == run[..i];
    }
  }

  lemma {:induction false} TimerRestarts(life: Life, run: seq<Event>, slowSec: int, i: nat)
    requires Possible(life, run, slowSec)
    requires i < |run| && run[i].Tick? && run[i].demoted
    ensures TimerAfter(Live(life, run), run[i].sample.now)
  {
    hide Possible, Allowed, TimerAfter, Step;
    var n := |run| - 1;
    LastStep(life, run, slowSec, i);
    if i < n {
      assert run[..n][i] == run[i];
      PossiblePrefix(life, run, slowSec, n);
      TimerRestarts(life, run[..n], slowSec, i);
      TimerStep(Live(life, run[..n]), run[n], slowSec, run[i].sample.now);
    } else {
      DemotionEnds(Live(life, run[..n]), run[n], slowSec);
    }
  }

  lemma LastStep(life: Life, run: seq<Event>, slowSec: int, i: nat)
    requires Possible(life, run, slowSec) && i < |run| && run[i].Tick?
    ensures
      var n := |run| - 1;
      && Allowed(Live(life, run[..n]), run[n], slowSec)
      && Live(life, run) == Step(Live(life, run[..n]), run[n])
      && (run[n].Tick? ==> run[i].sample.now <= run[n].sample.now)
  {
    hide Allowed, Step;
  }

  lemma DemotionEnds(life: Life, e: Event, slowSec: int)
    requires Allowed(life, e, slowSec) && e.Tick? && e.demoted
    ensures TimerAfter(Step(life, e), e.sample.now)
  {
  }

  /** Two slow demotions of one torrent are at least `slowSec` apart, whatever happens in between. */
  lemma DemotionsApart(life: Life, run: seq<Event>, slowSec: int, i: nat, j: nat)
    requires Possible(life, run, slowSec)
    requires i < j < |run|
    requires run[i].Tick? && run[i].demoted && run[j].Tick? && run[j].demoted
    ensures run[j].sample.now - run[i].sample.now >= slowSec
  {
    PossiblePrefix(life, run, slowSec, j);
    TimerRestarts(life, run[..j], slowSec, i);
    assert Allowed(Live(life, run[..j]), run[j], slowSec);
  }
}
