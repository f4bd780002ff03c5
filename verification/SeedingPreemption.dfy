/**
 Stopping a seeding torrent to make room for a waiting download. Every preemption leaves a row behind,
 and the rows are what holds the next ones back.
 */
module SeedingPreemption {
  import opened Options

  datatype Config = Config(
    triggerStates: set<string>,
    minNewTaskScore: real,
    minPreemptabilityScore: real,
    scoreMargin: real,
    minSeedSeconds: int,
    protectSeedLong: bool,
    seedLongInEmergency: bool,
    maxUploadBps: int,
    minRatio: real,
    cooldown: int,
    perHour: int,
    perTorrentPerDay: int)

  /** seeding_preemptions, as far as later decisions read it. */
  datatype Preemption = Preemption(ts: int, hash: string)

  /** A managed torrent with its two scores; `uploadable` says whether its payload has a local path. */
  datatype Torrent = Torrent(
    hash: string,
    amountLeft: nat,
    progress: real,
    seeding: bool,
    seedLong: bool,
    uploadBps: int,
    seedSeconds: int,
    ratio: real,
    uploadable: bool,
    newTaskScore: real,
    preemptability: real)

  /** One evaluation: the clock is read for the hourly limit, for the guards, and for the record. */
  datatype Evaluation = Evaluation(diskState: string, torrents: seq<Torrent>, selected: set<string>, gateAt: int,
                                   guardAt: int, recordAt: int)

  datatype Decision = Decision(seed: Torrent, target: Torrent, margin: real)

  function Count(rows: seq<Preemption>, cutoff: int): nat {
    if rows == [] then 0
    else Count(rows[..|rows| - 1], cutoff) + if rows[|rows| - 1].ts >= cutoff then 1 else 0
  }

  function CountFor(rows: seq<Preemption>, cutoff: int, h: string): nat {
    if rows == [] then 0
    else
      var last := rows[|rows| - 1];
      CountFor(rows[..|rows| - 1], cutoff, h) + if last.ts >= cutoff && last.hash == h then 1 else 0
  }

  predicate HourExhausted(c: Config, rows: seq<Preemption>, now: int) {
    c.perHour >= 0 && Count(rows, now - 3600) >= c.perHour
  }

  predicate InCooldown(c: Config, rows: seq<Preemption>, h: string, now: int) {
    h != "" && c.cooldown > 0 && CountFor(rows, now - c.cooldown, h) > 0
  }

  predicate DayExhausted(c: Config, rows: seq<Preemption>, h: string, now: int) {
    h != "" && c.perTorrentPerDay >= 0 && CountFor(rows, now - 86400, h) >= c.perTorrentPerDay
  }

  predicate Guarded(c: Config, rows: seq<Preemption>, t: Torrent, e: Evaluation) {
    || (c.protectSeedLong && t.seedLong && !(c.seedLongInEmergency && e.diskState == "emergency"))
    || t.uploadBps > c.maxUploadBps
    || t.seedSeconds < c.minSeedSeconds
    || t.ratio < c.minRatio
    || InCooldown(c, rows, t.hash, e.guardAt)
    || DayExhausted(c, rows, t.hash, e.guardAt)
    || !t.uploadable
  }

  predicate Waiting(t: Torrent, e: Evaluation) {
    t.hash !in e.selected && t.amountLeft > 0 && t.progress < 1.0
  }

  predicate Seeding(t: Torrent) {
    t.progress >= 1.0 && t.amountLeft == 0 && t.seeding
  }

  /** A seeding torrent that may be stopped. */
  predicate Available(c: Config, rows: seq<Preemption>, t: Torrent, e: Evaluation) {
    Seeding(t) && !Guarded(c, rows, t, e) && t.preemptability >= c.minPreemptabilityScore
  }

  /** The waiting download with the highest score, the first of those. */
  ghost predicate BestTarget(e: Evaluation, i: nat) {
    && i < |e.torrents| && Waiting(e.torrents[i], e)
    && forall k :: 0 <= k < |e.torrents| && Waiting(e.torrents[k], e) ==>
         || e.torrents[k].newTaskScore < e.torrents[i].newTaskScore
         || (e.torrents[k].newTaskScore == e.torrents[i].newTaskScore && i <= k)
  }

  /** The seeding torrent that may be stopped with the highest score, the first of those. */
  ghost predicate BestSeed(c: Config, rows: seq<Preemption>, e: Evaluation, i: nat) {
    && i < |e.torrents| && Available(c, rows, e.torrents[i], e)
    && forall k :: 0 <= k < |e.torrents| && Available(c, rows, e.torrents[k], e) ==>
         || e.torrents[k].preemptability < e.torrents[i].preemptability
         || (e.torrents[k].preemptability == e.torrents[i].preemptability && i <= k)
  }

  predicate GatesOpen(c: Config, rows: seq<Preemption>, e: Evaluation) {
    e.diskState in c.triggerStates && !HourExhausted(c, rows, e.gateAt)
  }

  function Margin(target: Torrent, seed: Torrent): real {
    target.newTaskScore - (100.0 - seed.preemptability)
  }

  predicate Worthwhile(c: Config, target: Torrent, seed: Torrent) {
    target.newTaskScore >= c.minNewTaskScore && Margin(target, seed) >= c.scoreMargin
  }

  /** With the gates open, the best of both sides if that is worthwhile; otherwise nothing. */
  ghost predicate Decides(c: Config, rows: seq<Preemption>, e: Evaluation, d: Option<Decision>) {
    match d
    case Some(d) =>
      && GatesOpen(c, rows, e)
      && exists i: nat, j: nat :: BestTarget(e, i) && BestSeed(c, rows, e, j)
           && Worthwhile(c, e.torrents[i], e.torrents[j])
           && d == Decision(e.torrents[j], e.torrents[i], Margin(e.torrents[i], e.torrents[j]))
    case None =>
      GatesOpen(c, rows, e) ==> forall i: nat, j: nat ::
        BestTarget(e, i) && BestSeed(c, rows, e, j) ==> !Worthwhile(c, e.torrents[i], e.torrents[j])
  }

  /** There is only one best of either side, so the decision is determined. */
  lemma DecisionIsDetermined(c: Config, rows: seq<Preemption>, e: Evaluation, d1: Option<Decision>,
                             d2: Option<Decision>)
    requires Decides(c, rows, e, d1) && Decides(c, rows, e, d2)
    ensures d1 == d2
  {
  }

  lemma {:induction false} SomeTargetIsBest(e: Evaluation, upTo: nat, i: nat) returns (best: nat)
    requires i < upTo <= |e.torrents| && Waiting(e.torrents[i], e)
    ensures best < upTo && Waiting(e.torrents[best], e)
    ensures forall k :: 0 <= k < upTo && Waiting(e.torrents[k], e) ==>
      || e.torrents[k].newTaskScore < e.torrents[best].newTaskScore
      || (e.torrents[k].newTaskScore == e.torrents[best].newTaskScore && best <= k)
  {
    hide Waiting;
    best := i;
    if k :| 0 <= k < upTo - 1 && Waiting(e.torrents[k], e) {
      best := SomeTargetIsBest(e, upTo - 1, k);
    }
    if Waiting(e.torrents[upTo - 1], e) && e.torrents[upTo - 1].newTaskScore > e.torrents[best].newTaskScore {
      best := upTo - 1;
    }
  }

  lemma {:induction false} SomeSeedIsBest(c: Config, rows: seq<Preemption>, e: Evaluation, upTo: nat, i: nat)
    returns (best: nat)
    requires i < upTo <= |e.torrents| && Available(c, rows, e.torrents[i], e)
    ensures best < upTo && Available(c, rows, e.torrents[best], e)
    ensures forall k :: 0 <= k < upTo && Available(c, rows, e.torrents[k], e) ==>
      || e.torrents[k].preemptability < e.torrents[best].preemptability
      || (e.torrents[k].preemptability == e.torrents[best].preemptability && best <= k)
  {
    hide Available;
    best := i;
    if k :| 0 <= k < upTo - 1 && Available(c, rows, e.torrents[k], e) {
      best := SomeSeedIsBest(c, rows, e, upTo - 1, k);
    }
    if Available(c, rows, e.torrents[upTo - 1], e)
      && e.torrents[upTo - 1].preemptability > e.torrents[best].preemptability {
      best := upTo - 1;
    }
  }

  /** A waiting download of the minimum score and a seed that may be stopped, together past 100 and the margin. */
  predicate GoodPair(c: Config, rows: seq<Preemption>, e: Evaluation, target: Torrent, seed: Torrent) {
    && target.hash !in e.selected && target.amountLeft > 0 && target.progress < 1.0
    && seed.progress >= 1.0 && seed.amountLeft == 0 && seed.seeding && !Guarded(c, rows, seed, e)
    && seed.preemptability >= c.minPreemptabilityScore
    && target.newTaskScore >= c.minNewTaskScore
    && target.newTaskScore + seed.preemptability >= 100.0 + c.scoreMargin
  }

  /** When some pair is good, so is the best of both sides, and it is taken. */
  lemma GoodPairIsTaken(c: Config, rows: seq<Preemption>, e: Evaluation, d: Option<Decision>, i: nat, j: nat)
    requires Decides(c, rows, e, d) && GatesOpen(c, rows, e)
    requires i < |e.torrents| && j < |e.torrents| && GoodPair(c, rows, e, e.torrents[i], e.torrents[j])
    ensures d.Some?
  {
    hide Guarded, GatesOpen;
    var target := SomeTargetIsBest(e, |e.torrents|, i);
    var seed := SomeSeedIsBest(c, rows, e, |e.torrents|, j);
    assert BestTarget(e, target) && BestSeed(c, rows, e, seed);
    assert Worthwhile(c, e.torrents[target], e.torrents[seed]);
  }

  lemma TakenPairIsGood(c: Config, rows: seq<Preemption>, e: Evaluation, d: Decision) returns (i: nat, j: nat)
    requires Decides(c, rows, e, Some(d))
    ensures GatesOpen(c, rows, e) && i < |e.torrents| && j < |e.torrents|
    ensures GoodPair(c, rows, e, e.torrents[i], e.torrents[j]) && d.target == e.torrents[i] && d.seed == e.torrents[j]
    ensures d.margin == d.target.newTaskScore + d.seed.preemptability - 100.0
  {
    hide Guarded, GatesOpen;
    i, j :| BestTarget(e, i) && BestSeed(c, rows, e, j) && Worthwhile(c, e.torrents[i], e.torrents[j])
      && d == Decision(e.torrents[j], e.torrents[i], Margin(e.torrents[i], e.torrents[j]));
  }

  /** A seed is stopped if and only if the gates are open and some pair is good; then the pair stopped is one. */
  lemma PreemptsIff(c: Config, rows: seq<Preemption>, e: Evaluation, d: Option<Decision>)
    requires Decides(c, rows, e, d)
    ensures d.Some? <==>
      && e.diskState in c.triggerStates
      && (c.perHour >= 0 ==> Count(rows, e.gateAt - 3600) < c.perHour)
      && exists i, j :: 0 <= i < |e.torrents| && 0 <= j < |e.torrents|
           && GoodPair(c, rows, e, e.torrents[i], e.torrents[j])
    ensures d.Some? ==>
      && GoodPair(c, rows, e, d.value.target, d.value.seed)
      && d.value.margin == d.value.target.newTaskScore + d.value.seed.preemptability - 100.0
  {
    hide GoodPair, Decides, Count;
    if d.Some? {
      var i, j := TakenPairIsGood(c, rows, e, d.value);
    } else if GatesOpen(c, rows, e) {
      if i, j :| 0 <= i < |e.torrents| && 0 <= j < |e.torrents| && GoodPair(c, rows, e, e.torrents[i], e.torrents[j]) {
        GoodPairIsTaken(c, rows, e, d, i, j);
      }
    }
  }

  function Recorded(rows: seq<Preemption>, e: Evaluation, d: Option<Decision>): seq<Preemption> {
    if d.None? then rows else rows + [Preemption(e.recordAt, d.value.seed.hash)]
  }

  // ---------------------------------------------------------------------------------------------
  // Whole runs under a clock that does not go back
  // ---------------------------------------------------------------------------------------------

  datatype Step = Step(e: Evaluation, d: Option<Decision>)

  function After(steps: seq<Step>): seq<Preemption> {
    if steps == [] then []
    else Recorded(After(steps[..|steps| - 1]), steps[|steps| - 1].e, steps[|steps| - 1].d)
  }

  predicate InTime(before: int, e: Evaluation) {
    before <= e.gateAt <= e.guardAt <= e.recordAt
  }

  function Clock(steps: seq<Step>, start: int): int {
    if steps == [] then start else steps[|steps| - 1].e.recordAt
  }

  ghost predicate Possible(c: Config, steps: seq<Step>, start: int) {
    steps == [] || (
      var n := |steps| - 1;
      && Possible(c, steps[..n], start)
      && InTime(Clock(steps[..n], start), steps[n].e)
      && Decides(c, After(steps[..n]), steps[n].e, steps[n].d))
  }

  /** How many preemptions fall in a closed stretch of time. */
  function InWindow(rows: seq<Preemption>, from: int, to: int): nat {
    if rows == [] then 0
    else InWindow(rows[..|rows| - 1], from, to) + if from <= rows[|rows| - 1].ts <= to then 1 else 0
  }

  function InWindowFor(rows: seq<Preemption>, from: int, to: int, h: string): nat {
    if rows == [] then 0
    else
      var last := rows[|rows| - 1];
      InWindowFor(rows[..|rows| - 1], from, to, h) + if from <= last.ts <= to && last.hash == h then 1 else 0
  }

  lemma {:induction false} WindowIsCounted(rows: seq<Preemption>, from: int, to: int, cutoff: int)
    requires cutoff <= from
    ensures InWindow(rows, from, to) <= Count(rows, cutoff)
  {
    if rows != [] {
      WindowIsCounted(rows[..|rows| - 1], from, to, cutoff);
    }
  }

  lemma {:induction false} WindowIsCountedFor(rows: seq<Preemption>, from: int, to: int, cutoff: int, h: string)
    requires cutoff <= from
    ensures InWindowFor(rows, from, to, h) <= CountFor(rows, cutoff, h)
  {
    if rows != [] {
      WindowIsCountedFor(rows[..|rows| - 1], from, to, cutoff, h);
    }
  }

  /** What is preempted was free to be: the limits held it back neither at the gate nor at the guards. */
  lemma PreemptedWasFree(c: Config, rows: seq<Preemption>, e: Evaluation, d: Decision)
    requires Decides(c, rows, e, Some(d))
    ensures !HourExhausted(c, rows, e.gateAt)
    ensures Available(c, rows, d.seed, e) && Waiting(d.target, e)
  {
  }

  /** Every closed hour of a run holds at most as many preemptions as the hourly limit. */
  lemma {:induction false} HourlyLimit(c: Config, steps: seq<Step>, start: int, from: int)
    requires Possible(c, steps, start) && c.perHour >= 0
    ensures InWindow(After(steps), from, from + 3600) <= c.perHour
  {
    if steps != [] {
      hide Decides, Available, Waiting;
      var n := |steps| - 1;
      var rows, s := After(steps[..n]), steps[n];
      HourlyLimit(c, steps[..n], start, from);
      if s.d.Some? {
        PreemptedWasFree(c, rows, s.e, s.d.value);
        assert After(steps)[..|rows|] == rows;
        if from <= s.e.recordAt <= from + 3600 {
          WindowIsCounted(rows, from, from + 3600, s.e.gateAt - 3600);
        }
      }
    }
  }

  /** Every closed day of a run holds at most as many preemptions of one torrent as its daily limit. */
  lemma {:induction false} DailyLimit(c: Config, steps: seq<Step>, start: int, from: int, h: string)
    requires Possible(c, steps, start) && c.perTorrentPerDay >= 0 && h != ""
    ensures InWindowFor(After(steps), from, from + 86400, h) <= c.perTorrentPerDay
  {
    if steps != [] {
      hide Decides, Available, Waiting;
      var n := |steps| - 1;
      var rows, s := After(steps[..n]), steps[n];
      DailyLimit(c, steps[..n], start, from, h);
      if s.d.Some? {
        PreemptedWasFree(c, rows, s.e, s.d.value);
        assert After(steps)[..|rows|] == rows;
        if s.d.value.seed.hash == h && from <= s.e.recordAt <= from + 86400 {
          WindowIsCountedFor(rows, from, from + 86400, s.e.guardAt - 86400, h);
        }
      }
    }
  }

  lemma {:induction false} NoneCounted(rows: seq<Preemption>, cutoff: int, h: string, i: nat)
    requires CountFor(rows, cutoff, h) == 0 && i < |rows| && rows[i].hash == h
    ensures rows[i].ts < cutoff
  {
    if i < |rows| - 1 {
      NoneCounted(rows[..|rows| - 1], cutoff, h, i);
    }
  }

  /** Two preemptions of one torrent are more than the cooldown apart. */
  lemma {:induction false} CooldownApart(c: Config, steps: seq<Step>, start: int, i: nat, j: nat)
    requires Possible(c, steps, start) && c.cooldown > 0
    requires i < j < |After(steps)| && After(steps)[i].hash == After(steps)[j].hash != ""
    ensures After(steps)[j].ts - After(steps)[i].ts > c.cooldown
  {
    hide Decides, Waiting;
    var n := |steps| - 1;
    var rows, s := After(steps[..n]), steps[n];
    if s.d.None? || j < |rows| {
      CooldownApart(c, steps[..n], start, i, j);
    } else {
      PreemptedWasFree(c, rows, s.e, s.d.value);
      NoneCounted(rows, s.e.guardAt - c.cooldown, After(steps)[j].hash, i);
    }
  }

  // ---------------------------------------------------------------------------------------------
  // The service
  // ---------------------------------------------------------------------------------------------

  class SeedingPreemptionService {
    const config: Config
    var preemptions: seq<Preemption>

    constructor (config: Config)
      ensures this.config == config && preemptions == After([])
    {
      this.config, this.preemptions := config, [];
    }

    method CountSince(cutoff: int) returns (n: nat)
      ensures n == Count(preemptions, cutoff)
    {
      n := 0;
      for i := 0 to |preemptions|
        invariant n == Count(preemptions[..i], cutoff)
      {
        assert preemptions[..i + 1][..i] == preemptions[..i];
        if preemptions[i].ts >= cutoff {
          n := n + 1;
        }
      }
      assert preemptions[..|preemptions|] == preemptions;
    }

    method CountSinceFor(cutoff: int, h: string) returns (n: nat)
      ensures n == CountFor(preemptions, cutoff, h)
    {
      n := 0;
      for i := 0 to |preemptions|
        invariant n == CountFor(preemptions[..i], cutoff, h)
      {
        assert preemptions[..i + 1][..i] == preemptions[..i];
        if preemptions[i].ts >= cutoff && preemptions[i].hash == h {
          n := n + 1;
        }
      }
      assert preemptions[..|preemptions|] == preemptions;
    }

    method Guards(seed: Torrent, e: Evaluation) returns (blocked: bool)
      ensures blocked <==> Guarded(config, preemptions, seed, e)
    {
      blocked := false;
      if config.protectSeedLong && seed.seedLong && !(config.seedLongInEmergency && e.diskState == "emergency") {
        blocked := true;
      }
      if seed.uploadBps > config.maxUploadBps {
        blocked := true;
      }
      if seed.seedSeconds < config.minSeedSeconds {
        blocked := true;
      }
      if seed.ratio < config.minRatio {
        blocked := true;
      }
      var recent := 0;
      if config.cooldown > 0 {
        recent := CountSinceFor(e.guardAt - config.cooldown, seed.hash);
      }
      if seed.hash != "" && recent > 0 {
        blocked := true;
      }
      var today := CountSinceFor(e.guardAt - 86400, seed.hash);
      if seed.hash != "" && config.perTorrentPerDay >= 0 && today >= config.perTorrentPerDay {
        blocked := true;
      }
      if !seed.uploadable {
        blocked := true;
      }
    }

    method FindTarget(e: Evaluation) returns (best: Option<nat>)
      ensures best.None? ==> forall i: nat :: !BestTarget(e, i)
      ensures best.Some? ==> BestTarget(e, best.value)
    {
      hide Waiting;
      best := None;
      for i := 0 to |e.torrents|
        invariant best.None? ==> forall k :: 0 <= k < i ==> !Waiting(e.torrents[k], e)
        invariant best.Some? ==>
          && best.value < i && Waiting(e.torrents[best.value], e)
          && forall k :: 0 <= k < i && Waiting(e.torrents[k], e) ==>
               || e.torrents[k].newTaskScore < e.torrents[best.value].newTaskScore
               || (e.torrents[k].newTaskScore == e.torrents[best.value].newTaskScore && best.value <= k)
      {
        if Waiting(e.torrents[i], e)
          && (best.None? || e.torrents[i].newTaskScore > e.torrents[best.value].newTaskScore) {
          best := Some(i);
        }
      }
    }

    method FindSeed(e: Evaluation) returns (best: Option<nat>)
      ensures best.None? ==> forall i: nat :: !BestSeed(config, preemptions, e, i)
      ensures best.Some? ==> BestSeed(config, preemptions, e, best.value)
    {
      hide Guarded, Seeding;
      best := None;
      for i := 0 to |e.torrents|
        invariant best.None? ==> forall k :: 0 <= k < i ==> !Available(config, preemptions, e.torrents[k], e)
        invariant best.Some? ==>
          && best.value < i && Available(config, preemptions, e.torrents[best.value], e)
          && forall k :: 0 <= k < i && Available(config, preemptions, e.torrents[k], e) ==>
               || e.torrents[k].preemptability < e.torrents[best.value].preemptability
               || (e.torrents[k].preemptability == e.torrents[best.value].preemptability && best.value <= k)
      {
        var seed := e.torrents[i];
        if Seeding(seed) {
          var blocked := Guards(seed, e);
          if !blocked && seed.preemptability >= config.minPreemptabilityScore {
            if best.None? || seed.preemptability > e.torrents[best.value].preemptability {
              best := Some(i);
            }
          }
        }
      }
    }

    method EvaluateAndApply(e: Evaluation) returns (d: Option<Decision>)
      modifies this`preemptions
      ensures Decides(config, old(preemptions), e, d)
      ensures preemptions == Recorded(old(preemptions), e, d)
    {
      hide Available, Waiting;
      d := None;
      if e.diskState !in config.triggerStates {
        return;
      }
      if config.perHour >= 0 {
        var recent := CountSince(e.gateAt - 3600);
        if recent >= config.perHour {
          return;
        }
      }
      var target := FindTarget(e);
      if target.None? {
        return;
      }
      if e.torrents[target.value].newTaskScore < config.minNewTaskScore {
        return;
      }
      var seed := FindSeed(e);
      if seed.None? {
        return;
      }
      var margin := e.torrents[target.value].newTaskScore - (100.0 - e.torrents[seed.value].preemptability);
      if margin < config.scoreMargin {
        return;
      }
      d := Some(Decision(e.torrents[seed.value], e.torrents[target.value], margin));
      preemptions := preemptions + [Preemption(e.recordAt, e.torrents[seed.value].hash)];
    }
  }
}
