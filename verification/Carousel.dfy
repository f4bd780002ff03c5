/**
 The carousel: dead torrents are probed a few at a time, promoted when a swarm shows up, and otherwise
 put off for longer and longer.
 */
module Carousel {
  import opened Options
  import opened Order
  import opened Torrents
  import Tables
  import StateDbTables

  datatype Phase = Probing | Promoted | Expired

  /** carousel_state; the three phases are written `probing`, `soak` and `dead`. */
  datatype ProbeRow = ProbeRow(phase: Phase, probeStartedAt: Option<int>, backoffUntil: Option<int>, level: nat)

  type Rows = map<string, ProbeRow>
  type Allocations = map<string, Tables.Allocation>

  datatype Config = Config(concurrency: nat, liveVerify: bool, probeDuration: int, schedule: seq<int>, minFree: int)

  datatype Tick = Tick(snapshots: seq<Torrent>, healthy: bool, free: Option<int>, now: int)

  function Schedule(c: Config): (s: seq<int>)
    ensures s != []
  {
    if c.schedule == [] then [1800] else c.schedule
  }

  /** How long a torrent is put off after failing with so many failures behind it. */
  function Backoff(c: Config, level: nat): int {
    var s := Schedule(c);
    s[if level < |s| then level else |s| - 1]
  }

  function Effective(c: Config): nat {
    if c.liveVerify && c.concurrency > 1 then 1 else c.concurrency
  }

  predicate Suspended(c: Config, t: Tick) {
    !t.healthy || (t.free.Some? && t.free.value < c.minFree)
  }

  predicate HasSwarm(h: string, t: Tick) {
    var found := Find(t.snapshots, h);
    found.Some? && (found.value.seeds > 0 || found.value.peers > 0)
  }

  // ---------------------------------------------------------------------------------------------
  // What becomes of the running probes
  // ---------------------------------------------------------------------------------------------

  predicate IsProbing(rows: Rows, h: string) {
    h in rows && rows[h].phase.Probing?
  }

  predicate Promotes(rows: Rows, h: string, t: Tick) {
    IsProbing(rows, h) && HasSwarm(h, t)
  }

  function StartedAt(r: ProbeRow, now: int): int {
    if r.probeStartedAt.Some? then r.probeStartedAt.value else now
  }

  predicate TimesOut(rows: Rows, h: string, c: Config, t: Tick) {
    IsProbing(rows, h) && !HasSwarm(h, t) && t.now - StartedAt(rows[h], t.now) >= c.probeDuration
  }

  function Fate(rows: Rows, h: string, c: Config, t: Tick): ProbeRow
    requires h in rows
  {
    var r := rows[h];
    if Promotes(rows, h, t) then r.(phase := Promoted)
    else if TimesOut(rows, h, c, t) then
      r.(phase := Expired, backoffUntil := Some(t.now + Backoff(c, r.level)), level := r.level + 1)
    else r
  }

  function Reconciled(rows: Rows, c: Config, t: Tick): Rows {
    map h | h in rows :: Fate(rows, h, c, t)
  }

  function Allocate(alloc: Allocations, h: string, desired: Tables.Desired, now: int): Allocations {
    alloc[h := Tables.Allocation(desired, if h in alloc then alloc[h].reservedBytes else 0, Some(false), now)]
  }

  function Entry(alloc: Allocations, h: string): Option<Tables.Allocation> {
    if h in alloc then Some(alloc[h]) else None
  }

  function ProbeEntry(alloc: Allocations, rows: Rows, c: Config, t: Tick, h: string): Option<Tables.Allocation> {
    if Promotes(rows, h, t) then Entry(Allocate(alloc, h, Tables.Soak, t.now), h)
    else if TimesOut(rows, h, c, t) then Entry(Allocate(alloc, h, Tables.Dead, t.now), h)
    else Entry(alloc, h)
  }

  /** The allocations once the probes have been looked at. */
  ghost predicate AllocatedFor(alloc: Allocations, alloc': Allocations, rows: Rows, c: Config, t: Tick) {
    forall h :: Entry(alloc', h) == ProbeEntry(alloc, rows, c, t, h)
  }

  // ---------------------------------------------------------------------------------------------
  // Who is probed next
  // ---------------------------------------------------------------------------------------------

  predicate Wanted(found: Option<Torrent>) {
    found.Some? && IsManaged(found.value) && found.value.amountLeft > 0
  }

  predicate Candidate(h: string, rows: Rows, alloc: Allocations, t: Tick) {
    && h in alloc && alloc[h].desired.Dead?
    && Wanted(Find(t.snapshots, h))
    && (h in rows ==>
          rows[h].phase.Expired? && (rows[h].backoffUntil.Some? ==> rows[h].backoffUntil.value <= t.now))
  }

  /** Longest allocated first, then by hash. */
  function Turn(alloc: Allocations, h: string): seq<real> {
    [if h in alloc then alloc[h].allocatedAt as real else 0.0] + Code(h)
  }

  ghost predicate DistinctStrings(s: seq<string>) {
    forall i, j :: 0 <= i < j < |s| ==> s[i] != s[j]
  }

  /** The candidates whose turn comes first, as many as there is room for. */
  ghost predicate FirstInLine(started: seq<string>, rows: Rows, alloc: Allocations, t: Tick, room: nat) {
    && |started| <= room
    && DistinctStrings(started)
    && (forall h :: h in started ==> Candidate(h, rows, alloc, t))
    && (forall i, j :: 0 <= i < j < |started| ==> LexLe(Turn(alloc, started[i]), Turn(alloc, started[j])))
    && (forall h :: Candidate(h, rows, alloc, t) && h !in started ==>
          |started| == room && forall s :: s in started ==> LexLe(Turn(alloc, s), Turn(alloc, h)))
  }

  function StartRow(rows: Rows, h: string, now: int): ProbeRow {
    ProbeRow(Probing, Some(now), None, if h in rows then rows[h].level else 0)
  }

  function WithStarts(rows: Rows, started: seq<string>, now: int): Rows {
    map h | h in rows.Keys + (set s | s in started) ::
      if h in started then StartRow(rows, h, now) else rows[h]
  }

  function ProbingHashes(rows: Rows): set<string> {
    set h | h in rows && rows[h].phase.Probing?
  }

  function Room(rows: Rows, c: Config): nat {
    if |ProbingHashes(rows)| < Effective(c) then Effective(c) - |ProbingHashes(rows)| else 0
  }

  // ---------------------------------------------------------------------------------------------
  // One tick
  // ---------------------------------------------------------------------------------------------

  /** A tick, the allocations it found once the probes were looked at, and the probes it started. */
  datatype Step = Step(tick: Tick, alloc: Allocations, started: seq<string>)

  ghost predicate Allowed(rows: Rows, c: Config, s: Step) {
    if Suspended(c, s.tick) then s.started == []
    else
      var reconciled := Reconciled(rows, c, s.tick);
      FirstInLine(s.started, reconciled, s.alloc, s.tick, Room(reconciled, c))
  }

  function Next(rows: Rows, c: Config, s: Step): Rows {
    if Suspended(c, s.tick) then rows
    else WithStarts(Reconciled(rows, c, s.tick), s.started, s.tick.now)
  }

  lemma SetOfSeq(s: seq<string>)
    ensures |(set h | h in s)| <= |s|
  {
    if s == [] {
      assert (set h | h in s) == {};
    } else {
      var n := |s| - 1;
      SetOfSeq(s[..n]);
      assert (set h | h in s) == (set h | h in s[..n]) + {s[n]};
    }
  }

  lemma SubsetSize(a: set<string>, b: set<string>)
    requires a <= b
    ensures |a| <= |b|
  {
    assert b == a + (b - a);
  }

  lemma ReconcilingStartsNoProbe(rows: Rows, c: Config, t: Tick)
    ensures ProbingHashes(Reconciled(rows, c, t)) <= ProbingHashes(rows)
  {
  }

  lemma OnlyStartsAreNew(rows: Rows, started: seq<string>, now: int)
    ensures ProbingHashes(WithStarts(rows, started, now)) <= ProbingHashes(rows) + set h | h in started
  {
  }

  /** A tick does not raise the number of running probes above the limit. */
  lemma ProbesStayWithinLimit(rows: Rows, c: Config, s: Step)
    requires Allowed(rows, c, s)
    ensures
      var now := |ProbingHashes(Next(rows, c, s))|;
      now <= Effective(c) || now <= |ProbingHashes(rows)|
  {
    hide Reconciled, WithStarts, ProbingHashes, Candidate, Turn;
    if !Suspended(c, s.tick) {
      var reconciled := Reconciled(rows, c, s.tick);
      var added := set h | h in s.started;
      SetOfSeq(s.started);
      ReconcilingStartsNoProbe(rows, c, s.tick);
      OnlyStartsAreNew(reconciled, s.started, s.tick.now);
      SubsetSize(ProbingHashes(reconciled), ProbingHashes(rows));
      SubsetSize(ProbingHashes(Next(rows, c, s)), ProbingHashes(reconciled) + added);
      assert |ProbingHashes(reconciled) + added| <= |ProbingHashes(reconciled)| + |added|;
    }
  }

  lemma {:induction false} DistinctSize(s: seq<string>)
    requires DistinctStrings(s)
    ensures |(set h | h in s)| == |s|
  {
    if s == [] {
      assert (set h | h in s) == {};
    } else {
      var n := |s| - 1;
      DistinctSize(s[..n]);
      assert (set h | h in s) == (set h | h in s[..n]) + {s[n]};
      assert s[n] !in (set h | h in s[..n]);
    }
  }

  lemma StartsProbe(rows: Rows, started: seq<string>, now: int)
    requires forall h :: h in started ==> h !in ProbingHashes(rows)
    ensures ProbingHashes(WithStarts(rows, started, now)) == ProbingHashes(rows) + set h | h in started
    ensures ProbingHashes(rows) !! set h | h in started
  {
  }

  lemma ExpiredStays(rows: Rows, c: Config, t: Tick, alloc: Allocations, h: string)
    requires h in alloc && alloc[h].desired.Dead? && Wanted(Find(t.snapshots, h))
    requires h in rows ==>
      rows[h].phase.Expired? && (rows[h].backoffUntil.Some? ==> rows[h].backoffUntil.value <= t.now)
    ensures Candidate(h, Reconciled(rows, c, t), alloc, t)
  {
    hide Wanted;
  }

  /**
   A managed torrent allocated as dead, with bytes left and its last backoff over, is left out of a tick
   only when as many probes run as are allowed, one in live verification.
   */
  lemma NobodyWaitsInVain(rows: Rows, c: Config, s: Step, h: string)
    requires Allowed(rows, c, s) && !Suspended(c, s.tick)
    requires h in s.alloc && s.alloc[h].desired.Dead? && h !in s.started
    requires
      var found := Find(s.tick.snapshots, h);
      found.Some? && IsManaged(found.value) && found.value.amountLeft > 0
    requires h in rows ==>
      rows[h].phase.Expired? && (rows[h].backoffUntil.Some? ==> rows[h].backoffUntil.value <= s.tick.now)
    ensures forall g :: g in s.started ==> g in s.alloc && s.alloc[g].allocatedAt <= s.alloc[h].allocatedAt
    ensures
      var now := |ProbingHashes(Next(rows, c, s))|;
      now >= c.concurrency || (c.liveVerify && now >= 1)
  {
    hide Reconciled, WithStarts, Turn;
    ExpiredStays(rows, c, s.tick, s.alloc, h);
    var reconciled := Reconciled(rows, c, s.tick);
    var added := set g | g in s.started;
    DistinctSize(s.started);
    StartsProbe(reconciled, s.started, s.tick.now);
    assert |ProbingHashes(reconciled) + added| == |ProbingHashes(reconciled)| + |added|;
    forall g | g in s.started ensures g in s.alloc && s.alloc[g].allocatedAt <= s.alloc[h].allocatedAt {
      AllocatedEarlier(s.alloc, g, h);
    }
  }

  lemma AllocatedEarlier(alloc: Allocations, g: string, h: string)
    requires g in alloc && h in alloc && LexLe(Turn(alloc, g), Turn(alloc, h))
    ensures alloc[g].allocatedAt <= alloc[h].allocatedAt
  {
  }

  /** A promoted torrent is not started in the same tick; nor is one that timed out, if put off at all. */
  lemma StartedAreNeitherPromotedNorStopped(rows: Rows, c: Config, s: Step, h: string)
    requires Allowed(rows, c, s) && !Suspended(c, s.tick) && h in s.started
    ensures !Promotes(rows, h, s.tick)
    ensures TimesOut(rows, h, c, s.tick) ==> Backoff(c, rows[h].level) <= 0
  {
  }

  /**
   A torrent whose probe is stopped is in line for another in the same tick if and only if it is still
   wanted and its backoff is not positive.
   */
  lemma StoppedMayStartIff(rows: Rows, c: Config, t: Tick, alloc: Allocations, alloc': Allocations, h: string)
    requires AllocatedFor(alloc, alloc', rows, c, t) && TimesOut(rows, h, c, t)
    ensures Candidate(h, Reconciled(rows, c, t), alloc', t) <==>
      Wanted(Find(t.snapshots, h)) && Backoff(c, rows[h].level) <= 0
  {
    hide HasSwarm, Wanted, Backoff;
    assert Reconciled(rows, c, t)[h] == Fate(rows, h, c, t);
    assert Entry(alloc', h) == ProbeEntry(alloc, rows, c, t, h);
  }

  /** With a backoff of zero, a torrent can be stopped and started again in one tick. */
  lemma StoppedAndStartedAtOnce(t: Torrent)
    requires IsManaged(t) && t.amountLeft > 0 && t.seeds == 0 && t.peers == 0
    ensures
      var c := Config(1, false, 60, [0], 0);
      var rows: Rows := map[t.hash := ProbeRow(Probing, Some(0), None, 0)];
      var alloc := map[t.hash := Tables.Allocation(Tables.Dead, 0, Some(false), 60)];
      var s := Step(Tick([t], true, None, 60), alloc, [t.hash]);
      Allowed(rows, c, s) && TimesOut(rows, t.hash, c, s.tick)
  {
  }

  // ---------------------------------------------------------------------------------------------
  // Whole runs: other schedulers may change the allocations between ticks, and the clock may jump
  // ---------------------------------------------------------------------------------------------

  ghost predicate Possible(c: Config, run: seq<Step>)
    decreases |run|
  {
    run == [] || (
      var n := |run| - 1;
      Possible(c, run[..n]) && Allowed(After(c, run[..n]), c, run[n]))
  }

  /** The rows after a run from the empty table. */
  function After(c: Config, run: seq<Step>): Rows
    decreases |run|
  {
    if run == [] then map[]
    else
      var n := |run| - 1;
      Next(After(c, run[..n]), c, run[n])
  }

  /** When probes of one torrent were started. */
  function Starts(c: Config, run: seq<Step>, h: string): seq<int>
    decreases |run|
  {
    if run == [] then []
    else
      var n := |run| - 1;
      Starts(c, run[..n], h) + if h in run[n].started then [run[n].tick.now] else []
  }

  ghost predicate Spaced(c: Config, starts: seq<int>) {
    forall k :: 0 <= k < |starts| - 1 ==> starts[k + 1] >= starts[k] + c.probeDuration + Backoff(c, k)
  }

  /** A row remembers how often its torrent was started, and when it may be started again. */
  ghost predicate Remembers(rows: Rows, h: string, starts: seq<int>, c: Config) {
    if h !in rows then starts == []
    else
      && starts != []
      && var k := |starts| - 1;
         match rows[h].phase
         case Probing => rows[h].level == k && rows[h].probeStartedAt == Some(starts[k])
         case Expired =>
           && rows[h].level == k + 1 && rows[h].backoffUntil.Some?
           && rows[h].backoffUntil.value >= starts[k] + c.probeDuration + Backoff(c, k)
         case Promoted => true
  }

  lemma ReconciledRemembers(rows: Rows, h: string, starts: seq<int>, c: Config, t: Tick)
    requires Remembers(rows, h, starts, c)
    ensures Remembers(Reconciled(rows, c, t), h, starts, c)
  {
  }

  lemma StartsRemember(rows: Rows, h: string, starts: seq<int>, c: Config, alloc: Allocations, started: seq<string>,
                       t: Tick)
    requires Remembers(rows, h, starts, c) && Spaced(c, starts)
    requires h in started ==> Candidate(h, rows, alloc, t)
    ensures
      var starts' := starts + if h in started then [t.now] else [];
      Remembers(WithStarts(rows, started, t.now), h, starts', c) && Spaced(c, starts')
  {
  }

  lemma StepRemembers(rows: Rows, h: string, starts: seq<int>, c: Config, s: Step)
    requires Allowed(rows, c, s) && Remembers(rows, h, starts, c) && Spaced(c, starts)
    ensures
      var starts' := starts + if h in s.started then [s.tick.now] else [];
      Remembers(Next(rows, c, s), h, starts', c) && Spaced(c, starts')
  {
    hide Remembers, Spaced, Candidate, Reconciled, WithStarts;
    if !Suspended(c, s.tick) {
      ReconciledRemembers(rows, h, starts, c, s.tick);
      StartsRemember(Reconciled(rows, c, s.tick), h, starts, c, s.alloc, s.started, s.tick);
    } else {
      assert starts + [] == starts;
    }
  }

  lemma {:induction false} RunRemembers(c: Config, run: seq<Step>, h: string)
    requires Possible(c, run)
    ensures Remembers(After(c, run), h, Starts(c, run, h), c)
    ensures Spaced(c, Starts(c, run, h))
    decreases |run|
  {
    hide Allowed, Next;
    if run != [] {
      hide Remembers, Spaced;
      var n := |run| - 1;
      RunRemembers(c, run[..n], h);
      StepRemembers(After(c, run[..n]), h, Starts(c, run[..n], h), c, run[n]);
    } else {
      assert Starts(c, run, h) == [];
    }
  }

  /** The probes and the waits that must lie between a torrent's first start and its k-th after that. */
  function Waits(c: Config, k: nat): int {
    if k == 0 then 0 else Waits(c, k - 1) + c.probeDuration + Backoff(c, k - 1)
  }

  lemma {:induction false} SpacedMeansWaits(c: Config, starts: seq<int>, k: nat)
    requires Spaced(c, starts) && k < |starts|
    ensures starts[k] >= starts[0] + Waits(c, k)
  {
    if k > 0 {
      SpacedMeansWaits(c, starts, k - 1);
    }
  }

  function SumOf(s: seq<int>): int {
    if s == [] then 0 else SumOf(s[..|s| - 1]) + s[|s| - 1]
  }

  /**
   The first k entries of a schedule, its last one over and over once it has run out; half an hour each
   without a schedule.
   */
  function PutOff(schedule: seq<int>, k: nat): int {
    var n := |schedule|;
    if n == 0 then 1800 * k
    else if k <= n then SumOf(schedule[..k])
    else SumOf(schedule) + (k - n) * schedule[n - 1]
  }

  lemma PutOffOnce(schedule: seq<int>, k: nat)
    ensures PutOff(schedule, 0) == 0
    ensures PutOff(schedule, k + 1) == PutOff(schedule, k)
      + if schedule == [] then 1800 else if k < |schedule| then schedule[k] else schedule[|schedule| - 1]
  {
    var n := |schedule|;
    if k < n {
      assert schedule[..k + 1][..k] == schedule[..k];
    } else if n > 0 {
      assert schedule[..n] == schedule;
    }
  }

  lemma {:induction false} WaitsAre(c: Config, k: nat)
    ensures Waits(c, k) == k * c.probeDuration + PutOff(c.schedule, k)
  {
    if k == 0 {
      PutOffOnce(c.schedule, 0);
    } else {
      WaitsAre(c, k - 1);
      PutOffOnce(c.schedule, k - 1);
      BackoffIs(c, k - 1);
      OneMoreTime(k - 1, c.probeDuration);
      hide PutOff, Backoff;
    }
  }

  lemma BackoffIs(c: Config, k: nat)
    ensures Backoff(c, k)
         == if c.schedule == [] then 1800 else if k < |c.schedule| then c.schedule[k] else c.schedule[|c.schedule| - 1]
  {
  }

  lemma OneMoreTime(k: nat, d: int)
    ensures (k + 1) * d == k * d + d
  {
  }

  /**
   On every run, whatever the clock does, the (k+1)-th probe of a torrent starts no earlier than its
   first start plus k probe durations and the first k entries of the schedule.
   */
  lemma BackoffBound(c: Config, run: seq<Step>, h: string, k: nat)
    requires Possible(c, run) && k < |Starts(c, run, h)|
    ensures Starts(c, run, h)[k] >= Starts(c, run, h)[0] + k * c.probeDuration + PutOff(c.schedule, k)
  {
    RunRemembers(c, run, h);
    SpacedMeansWaits(c, Starts(c, run, h), k);
    WaitsAre(c, k);
  }

  /**
   Once the probes have been looked at, a promoted row is out of the queue, a stopped one is put off by
   the schedule's entry for its failures so far, and a probe still runs only without a swarm and within
   its time.
   */
  ghost predicate Settled(rows: Rows, rows': Rows, c: Config, t: Tick, promoted: seq<string>, stopped: seq<string>) {
    && rows'.Keys == rows.Keys
    && (forall h :: h in promoted ==> h in rows && rows'[h] == rows[h].(phase := Promoted))
    && (forall h :: h in stopped ==>
          && h in rows
          && var k := rows[h].level;
             rows'[h] == rows[h].(
               phase := Expired,
               backoffUntil := Some(t.now +
                 if c.schedule == [] then 1800
                 else if k < |c.schedule| then c.schedule[k]
                 else c.schedule[|c.schedule| - 1]),
               level := k + 1))
    && (forall h :: h in rows && h !in promoted && h !in stopped ==> rows'[h] == rows[h])
    && EarliestFirst(rows, promoted) && EarliestFirst(rows, stopped)
    && (forall h :: h in rows' && rows'[h].phase.Probing? ==>
          && (if rows'[h].probeStartedAt.Some? then t.now - rows'[h].probeStartedAt.value else 0) < c.probeDuration
          && var found := Find(t.snapshots, h);
             found.Some? ==> found.value.seeds == 0 && found.value.peers == 0)
  }

  /** Probes without a start come first, the others in the order of theirs. */
  ghost predicate EarliestFirst(rows: Rows, hs: seq<string>) {
    forall i, j :: 0 <= i < j < |hs| && hs[i] in rows && hs[j] in rows && rows[hs[i]].probeStartedAt.Some? ==>
      && rows[hs[j]].probeStartedAt.Some?
      && rows[hs[i]].probeStartedAt.value <= rows[hs[j]].probeStartedAt.value
  }

  lemma SortedIsEarliest(rows: Rows, hs: seq<string>)
    requires SortedBy(hs, ProbeTurn(rows))
    ensures EarliestFirst(rows, hs)
  {
    forall i, j | 0 <= i < j < |hs| && hs[i] in rows && hs[j] in rows && rows[hs[i]].probeStartedAt.Some?
      ensures rows[hs[j]].probeStartedAt.Some?
      ensures rows[hs[i]].probeStartedAt.value <= rows[hs[j]].probeStartedAt.value
    {
      var p, q := ProbeTurn(rows)(hs[i]), ProbeTurn(rows)(hs[j]);
      assert p[0] == 1.0 && p[1] == rows[hs[i]].probeStartedAt.value as real;
      assert q[0] == if rows[hs[j]].probeStartedAt.Some? then 1.0 else 0.0;
      LexFirst(p, q);
      assert q[1] == rows[hs[j]].probeStartedAt.value as real;
      hide LexLe;
    }
  }

  lemma LexFirst(a: seq<real>, b: seq<real>)
    requires LexLe(a, b) && a != [] && b != []
    ensures a[0] <= b[0]
    ensures a[0] == b[0] && |a| > 1 && |b| > 1 ==> a[1] <= b[1]
  {
    if a[0] == b[0] {
      assert LexLe(a[1..], b[1..]);
    }
  }

  lemma ReconciledIsSettled(rows: Rows, c: Config, t: Tick, promoted: seq<string>, stopped: seq<string>)
    requires SortedBy(promoted, ProbeTurn(rows)) && SortedBy(stopped, ProbeTurn(rows))
    requires forall h :: h in promoted <==> Promotes(rows, h, t)
    requires forall h :: h in stopped <==> TimesOut(rows, h, c, t)
    ensures Settled(rows, Reconciled(rows, c, t), c, t, promoted, stopped)
  {
    SortedIsEarliest(rows, promoted);
    SortedIsEarliest(rows, stopped);
    hide SortedBy, ProbeTurn, EarliestFirst;
  }

  /** On every run there are never more probes than the limit. */
  lemma {:induction false} NeverTooManyProbes(c: Config, run: seq<Step>)
    requires Possible(c, run)
    ensures |ProbingHashes(After(c, run))| <= c.concurrency
    ensures c.liveVerify ==> |ProbingHashes(After(c, run))| <= 1
    decreases |run|
  {
    if run != [] {
      var n := |run| - 1;
      NeverTooManyProbes(c, run[..n]);
      ProbesStayWithinLimit(After(c, run[..n]), c, run[n]);
    } else {
      assert ProbingHashes(After(c, run)) == {};
    }
  }

  /** A promoted torrent is never probed again, even when it is allocated as dead later. */
  lemma {:induction false} PromotionIsForGood(c: Config, run: seq<Step>, more: seq<Step>, h: string)
    requires Possible(c, run + more)
    requires h in After(c, run) && After(c, run)[h].phase.Promoted?
    ensures h in After(c, run + more) && After(c, run + more)[h].phase.Promoted?
    ensures Starts(c, run + more, h) == Starts(c, run, h)
    decreases |more|
  {
    if more == [] {
      assert run + more == run;
    } else {
      var n := |more| - 1;
      var before := (run + more)[..|run + more| - 1];
      assert before == run + more[..n];
      assert (run + more)[|run + more| - 1] == more[n];
      PromotionIsForGood(c, run, more[..n], h);
      PromotedStay(After(c, before), c, more[n], h);
    }
  }

  lemma PromotedStay(rows: Rows, c: Config, s: Step, h: string)
    requires Allowed(rows, c, s) && h in rows && rows[h].phase.Promoted?
    ensures h !in s.started
    ensures h in Next(rows, c, s) && Next(rows, c, s)[h].phase.Promoted?
  {
  }

  // ---------------------------------------------------------------------------------------------
  // The service
  // ---------------------------------------------------------------------------------------------

  /** The hashes of a query, in the order the query asks for. */
  method OrderedBy(hashes: set<string>, key: string -> seq<real>) returns (out: seq<string>)
    ensures DistinctStrings(out) && SortedBy(out, key)
    ensures forall h :: h in out <==> h in hashes
  {
    var left, found := hashes, [];
    while left != {}
      invariant left <= hashes && DistinctStrings(found)
      invariant forall h :: h in found <==> h in hashes - left
      decreases left
    {
      var h :| h in left;
      assert h !in found;
      assert forall i :: 0 <= i < |found| ==> found[i] in found;
      found, left := found + [h], left - {h};
    }
    out := Sort(found, key);
    SortIsSorted(found, key);
    RearrangedDistinct(found, out);
    forall h ensures h in out <==> h in hashes {
      assert h in out <==> h in multiset(out);
      assert h in found <==> h in multiset(found);
    }
  }

  lemma RearrangedDistinct(a: seq<string>, b: seq<string>)
    requires DistinctStrings(a) && multiset(a) == multiset(b)
    ensures DistinctStrings(b)
  {
    forall i, j | 0 <= i < j < |b| ensures b[i] != b[j] {
      if b[i] == b[j] {
        TwoCopies(b, i, j);
        AtMostOneCopy(a, b[i]);
      }
    }
  }

  lemma {:induction false} AtMostOneCopy(s: seq<string>, x: string)
    requires DistinctStrings(s)
    ensures multiset(s)[x] <= 1
  {
    if s != [] {
      AtMostOneCopy(s[1..], x);
      assert s == [s[0]] + s[1..];
      if s[0] == x {
        assert x !in s[1..];
        assert x !in multiset(s[1..]);
      }
    }
  }

  /** The rows and the allocations once the first of these probes have been looked at. */
  function RowsUpTo(rows: Rows, order: seq<string>, c: Config, t: Tick): Rows {
    if order == [] then rows
    else
      var n := |order| - 1;
      var before := RowsUpTo(rows, order[..n], c, t);
      if order[n] in rows then before[order[n] := Fate(rows, order[n], c, t)] else before
  }

  function AllocatedUpTo(alloc: Allocations, rows: Rows, order: seq<string>, c: Config, t: Tick): Allocations {
    if order == [] then alloc
    else
      var n := |order| - 1;
      var before := AllocatedUpTo(alloc, rows, order[..n], c, t);
      if Promotes(rows, order[n], t) then Allocate(before, order[n], Tables.Soak, t.now)
      else if TimesOut(rows, order[n], c, t) then Allocate(before, order[n], Tables.Dead, t.now)
      else before
  }

  lemma InLast(s: seq<string>, h: string)
    requires s != []
    ensures h in s <==> h in s[..|s| - 1] || h == s[|s| - 1]
  {
  }

  lemma {:induction false} RowsUpToAt(rows: Rows, order: seq<string>, c: Config, t: Tick, h: string)
    ensures h in RowsUpTo(rows, order, c, t) <==> h in rows
    ensures h in rows ==> RowsUpTo(rows, order, c, t)[h] == if h in order then Fate(rows, h, c, t) else rows[h]
  {
    hide Fate;
    if order != [] {
      var n := |order| - 1;
      RowsUpToAt(rows, order[..n], c, t, h);
      InLast(order, h);
    }
  }

  lemma RowsUpToAll(rows: Rows, order: seq<string>, c: Config, t: Tick)
    requires forall h :: h in order <==> IsProbing(rows, h)
    ensures RowsUpTo(rows, order, c, t) == Reconciled(rows, c, t)
  {
    forall h ensures h in RowsUpTo(rows, order, c, t) <==> h in rows {
      RowsUpToAt(rows, order, c, t, h);
    }
    forall h | h in rows ensures RowsUpTo(rows, order, c, t)[h] == Reconciled(rows, c, t)[h] {
      RowsUpToAt(rows, order, c, t, h);
      assert h !in order ==> Fate(rows, h, c, t) == rows[h];
    }
  }

  /** Writing one torrent's allocation leaves the others alone and depends on nothing but its own. */
  lemma AllocateEntry(alloc: Allocations, alloc0: Allocations, g: string, desired: Tables.Desired, now: int, h: string)
    ensures g != h ==> Entry(Allocate(alloc, g, desired, now), h) == Entry(alloc, h)
    ensures Entry(alloc, g) == Entry(alloc0, g) ==>
      Entry(Allocate(alloc, g, desired, now), g) == Entry(Allocate(alloc0, g, desired, now), g)
  {
  }

  lemma {:induction false} AllocatedUpToAt(alloc: Allocations, rows: Rows, order: seq<string>, c: Config, t: Tick,
                                           h: string)
    requires DistinctStrings(order)
    ensures Entry(AllocatedUpTo(alloc, rows, order, c, t), h) ==
      if h in order then ProbeEntry(alloc, rows, c, t, h) else Entry(alloc, h)
  {
    hide Promotes, TimesOut, Allocate, Entry;
    if order != [] {
      var n := |order| - 1;
      AllocatedUpToAt(alloc, rows, order[..n], c, t, h);
      var before := AllocatedUpTo(alloc, rows, order[..n], c, t);
      AllocateEntry(before, alloc, order[n], Tables.Soak, t.now, h);
      AllocateEntry(before, alloc, order[n], Tables.Dead, t.now, h);
      InLast(order, h);
    }
  }

  lemma AllocatedUpToAll(alloc: Allocations, rows: Rows, order: seq<string>, c: Config, t: Tick)
    requires DistinctStrings(order) && forall h :: h in order <==> IsProbing(rows, h)
    ensures AllocatedFor(alloc, AllocatedUpTo(alloc, rows, order, c, t), rows, c, t)
  {
    forall h ensures Entry(AllocatedUpTo(alloc, rows, order, c, t), h) == ProbeEntry(alloc, rows, c, t, h) {
      AllocatedUpToAt(alloc, rows, order, c, t, h);
    }
  }

  /** Probes in the order of their start; a row without one comes first. */
  function ProbeTurn(rows: Rows): string -> seq<real> {
    (h: string) =>
      (if h in rows && rows[h].probeStartedAt.Some? then [1.0, rows[h].probeStartedAt.value as real] else [0.0])
        + Code(h)
  }

  /** What is picked in passing from an ordered list is in order. */
  lemma StaysInOrder(order: seq<string>, i: nat, picked: seq<string>, key: string -> seq<real>)
    requires i < |order| && DistinctStrings(order) && SortedBy(order, key)
    requires SortedBy(picked, key) && DistinctStrings(picked) && forall h :: h in picked ==> h in order[..i]
    ensures SortedBy(picked + [order[i]], key) && DistinctStrings(picked + [order[i]])
  {
    forall j | 0 <= j < |picked| ensures picked[j] != order[i] && LexLe(key(picked[j]), key(order[i])) {
      assert picked[j] in order[..i];
    }
  }

  lemma NoProbesYet(alloc: Allocations, rows: Rows, c: Config, t: Tick)
    ensures RowsUpTo(rows, [], c, t) == rows && AllocatedUpTo(alloc, rows, [], c, t) == alloc
    ensures SortedBy([], ProbeTurn(rows)) && DistinctStrings([])
  {
  }

  lemma OneMoreProbe(alloc: Allocations, rows: Rows, order: seq<string>, i: nat, c: Config, t: Tick)
    requires DistinctStrings(order) && i < |order| && IsProbing(rows, order[i])
    ensures order[i] in RowsUpTo(rows, order[..i], c, t) && RowsUpTo(rows, order[..i], c, t)[order[i]] == rows[order[i]]
    ensures RowsUpTo(rows, order[..i + 1], c, t)
      == RowsUpTo(rows, order[..i], c, t)[order[i] := Fate(rows, order[i], c, t)]
    ensures
      var before := AllocatedUpTo(alloc, rows, order[..i], c, t);
      AllocatedUpTo(alloc, rows, order[..i + 1], c, t) ==
        if HasSwarm(order[i], t) then Allocate(before, order[i], Tables.Soak, t.now)
        else if TimesOut(rows, order[i], c, t) then Allocate(before, order[i], Tables.Dead, t.now)
        else before
    ensures forall h :: h in order[..i + 1] <==> h in order[..i] || h == order[i]
  {
    assert order[..i + 1][..i] == order[..i];
    assert order[..i + 1] == order[..i] + [order[i]];
    RowsUpToAt(rows, order[..i], c, t, order[i]);
  }

  function AllocateAll(alloc: Allocations, hs: seq<string>, desired: Tables.Desired, now: int): Allocations {
    if hs == [] then alloc
    else Allocate(AllocateAll(alloc, hs[..|hs| - 1], desired, now), hs[|hs| - 1], desired, now)
  }

  lemma {:induction false} AllocateAllAt(alloc: Allocations, hs: seq<string>, desired: Tables.Desired, now: int,
                                         h: string)
    ensures Entry(AllocateAll(alloc, hs, desired, now), h)
      == if h in hs then Entry(Allocate(alloc, h, desired, now), h) else Entry(alloc, h)
  {
    if hs != [] {
      var n := |hs| - 1;
      AllocateAllAt(alloc, hs[..n], desired, now, h);
      InLast(hs, h);
    }
  }

  /** A tick makes allocations probing, promoted or dead, never active. */
  lemma ProbingActivatesNobody(alloc: Allocations, s: Step, rows: Rows, c: Config)
    requires AllocatedFor(alloc, s.alloc, rows, c, s.tick)
    ensures Tables.NobodyActivated(alloc, AllocateAll(s.alloc, s.started, Tables.CarouselProbe, s.tick.now))
  {
    hide Promotes, TimesOut, AllocateAll;
    var alloc' := AllocateAll(s.alloc, s.started, Tables.CarouselProbe, s.tick.now);
    forall h | Tables.IsActive(alloc', h) ensures Tables.IsActive(alloc, h) {
      AllocateAllAt(s.alloc, s.started, Tables.CarouselProbe, s.tick.now, h);
      assert Entry(alloc', h) == Some(alloc'[h]);
      assert Entry(s.alloc, h) == ProbeEntry(alloc, rows, c, s.tick, h);
    }
  }

  lemma NothingStarted(rows: Rows, now: int)
    ensures WithStarts(rows, [], now) == rows
  {
  }

  lemma WithOneMoreStart(rows: Rows, started: seq<string>, h: string, now: int)
    requires h !in started
    ensures
      var before := WithStarts(rows, started, now);
      WithStarts(rows, started + [h], now) == before[h := StartRow(before, h, now)]
  {
  }

  lemma TakeFirst(candidates: seq<string>, rows: Rows, alloc: Allocations, t: Tick, room: nat)
    requires DistinctStrings(candidates)
    requires forall h :: h in candidates <==> Candidate(h, rows, alloc, t)
    requires forall i, j :: 0 <= i < j < |candidates| ==> LexLe(Turn(alloc, candidates[i]), Turn(alloc, candidates[j]))
    ensures FirstInLine(if room < |candidates| then candidates[..room] else candidates, rows, alloc, t, room)
  {
  }

  /** The allocation is another from now on, without sequential download; what it had reserved stays. */
  predicate Reallocated(alloc: Allocations, alloc': Allocations, h: string, desired: Tables.Desired, now: int) {
    && h in alloc' && alloc'[h].desired == desired && alloc'[h].seqDl == Some(false) && alloc'[h].allocatedAt == now
    && alloc'[h].reservedBytes == if h in alloc then alloc[h].reservedBytes else 0
  }

  lemma ReallocatedFor(alloc: Allocations, alloc': Allocations, rows: Rows, c: Config, t: Tick)
    requires AllocatedFor(alloc, alloc', rows, c, t)
    ensures forall h :: Promotes(rows, h, t) ==> Reallocated(alloc, alloc', h, Tables.Soak, t.now)
    ensures forall h :: TimesOut(rows, h, c, t) ==> Reallocated(alloc, alloc', h, Tables.Dead, t.now)
    ensures forall h :: (h in alloc' || h in alloc) && !Promotes(rows, h, t) && !TimesOut(rows, h, c, t) ==>
      h in alloc' && h in alloc && alloc'[h] == alloc[h]
  {
    hide HasSwarm, TimesOut, IsProbing;
    forall h
      ensures Promotes(rows, h, t) ==> Reallocated(alloc, alloc', h, Tables.Soak, t.now)
      ensures TimesOut(rows, h, c, t) ==> Reallocated(alloc, alloc', h, Tables.Dead, t.now)
      ensures (h in alloc' || h in alloc) && !Promotes(rows, h, t) && !TimesOut(rows, h, c, t) ==>
        h in alloc' && h in alloc && alloc'[h] == alloc[h]
    {
      NotBoth(rows, h, c, t);
      assert Entry(alloc', h) == ProbeEntry(alloc, rows, c, t, h);
    }
  }

  lemma NotBoth(rows: Rows, h: string, c: Config, t: Tick)
    ensures !(Promotes(rows, h, t) && TimesOut(rows, h, c, t))
  {
  }

  class CarouselService {
    const config: Config
    const db: StateDbTables.StateDb
    var carousel: Rows

    constructor (config: Config, db: StateDbTables.StateDb)
      ensures this.config == config && this.db == db && carousel == After(config, [])
    {
      this.config, this.db, carousel := config, db, map[];
    }

    method ReconcileActiveProbes(t: Tick) returns (promoted: seq<string>, stopped: seq<string>)
      modifies this`carousel, db`allocations
      ensures SortedBy(promoted, ProbeTurn(old(carousel))) && DistinctStrings(promoted)
      ensures SortedBy(stopped, ProbeTurn(old(carousel))) && DistinctStrings(stopped)
      ensures carousel == Reconciled(old(carousel), config, t)
      ensures AllocatedFor(old(db.allocations), db.allocations, old(carousel), config, t)
      ensures forall h :: h in promoted <==> Promotes(old(carousel), h, t)
      ensures forall h :: h in stopped <==> TimesOut(old(carousel), h, config, t)
      ensures Settled(old(carousel), carousel, config, t, promoted, stopped)
      ensures forall h :: h in promoted ==> Reallocated(old(db.allocations), db.allocations, h, Tables.Soak, t.now)
      ensures forall h :: h in stopped ==> Reallocated(old(db.allocations), db.allocations, h, Tables.Dead, t.now)
      ensures forall h :: h in db.allocations || h in old(db.allocations) ==>
        || h in promoted || h in stopped
        || (h in db.allocations && h in old(db.allocations) && db.allocations[h] == old(db.allocations)[h])
    {
      hide RowsUpTo, AllocatedUpTo, Reconciled, AllocatedFor, HasSwarm, Allocate, Backoff, SortedBy, Settled;
      var rows := carousel;
      NoProbesYet(db.allocations, rows, config, t);
      var order := OrderedBy(ProbingHashes(rows), ProbeTurn(rows));
      promoted, stopped := [], [];
      for i := 0 to |order|
        invariant carousel == RowsUpTo(rows, order[..i], config, t)
        invariant db.allocations == AllocatedUpTo(old(db.allocations), rows, order[..i], config, t)
        invariant SortedBy(promoted, ProbeTurn(rows)) && DistinctStrings(promoted)
        invariant SortedBy(stopped, ProbeTurn(rows)) && DistinctStrings(stopped)
        invariant forall h :: h in promoted <==> h in order[..i] && Promotes(rows, h, t)
        invariant forall h :: h in stopped <==> h in order[..i] && TimesOut(rows, h, config, t)
      {
        var h := order[i];
        assert h in order;
        OneMoreProbe(old(db.allocations), rows, order, i, config, t);
        StaysInOrder(order, i, promoted, ProbeTurn(rows));
        StaysInOrder(order, i, stopped, ProbeTurn(rows));
        var row := carousel[h];
        if HasSwarm(h, t) {
          carousel := carousel[h := row.(phase := Promoted)];
          db.allocations := Allocate(db.allocations, h, Tables.Soak, t.now);
          promoted := promoted + [h];
        } else if t.now - StartedAt(row, t.now) >= config.probeDuration {
          stopped := stopped + [h];
          var until := t.now + Backoff(config, row.level);
          carousel := carousel[h := row.(phase := Expired, backoffUntil := Some(until), level := row.level + 1)];
          db.allocations := Allocate(db.allocations, h, Tables.Dead, t.now);
        }
      }
      assert order[..|order|] == order;
      RowsUpToAll(rows, order, config, t);
      AllocatedUpToAll(old(db.allocations), rows, order, config, t);
      ReconciledIsSettled(rows, config, t, promoted, stopped);
      ReallocatedFor(old(db.allocations), db.allocations, rows, config, t);
    }

    /** The torrents that may be probed, in turn. */
    method DeadCandidates(t: Tick) returns (out: seq<string>)
      ensures DistinctStrings(out)
      ensures forall h :: h in out <==> Candidate(h, carousel, db.allocations, t)
      ensures forall i, j :: 0 <= i < j < |out| ==> LexLe(Turn(db.allocations, out[i]), Turn(db.allocations, out[j]))
    {
      var alloc := db.allocations;
      var order := OrderedBy(set h | h in alloc && alloc[h].desired.Dead?, (h: string) => Turn(alloc, h));
      out := [];
      for i := 0 to |order|
        invariant DistinctStrings(out)
        invariant forall h :: h in out <==> h in order[..i] && Candidate(h, carousel, alloc, t)
        invariant forall a, b :: 0 <= a < b < |out| ==> LexLe(Turn(alloc, out[a]), Turn(alloc, out[b]))
      {
        if Candidate(order[i], carousel, alloc, t) {
          forall a | 0 <= a < |out| ensures out[a] != order[i] && LexLe(Turn(alloc, out[a]), Turn(alloc, order[i])) {
            assert out[a] in order[..i];
            var k :| 0 <= k < i && order[k] == out[a];
          }
          out := out + [order[i]];
        }
      }
      assert order[..|order|] == order;
    }

    method StartNewProbes(t: Tick, capacity: nat) returns (started: seq<string>)
      modifies this`carousel, db`allocations
      ensures FirstInLine(started, old(carousel), old(db.allocations), t, capacity)
      ensures carousel == WithStarts(old(carousel), started, t.now)
      ensures db.allocations == AllocateAll(old(db.allocations), started, Tables.CarouselProbe, t.now)
    {
      hide Candidate, Turn, LexLe, FirstInLine, WithStarts, Allocate;
      var candidates := DeadCandidates(t);
      started := if capacity < |candidates| then candidates[..capacity] else candidates;
      TakeFirst(candidates, carousel, db.allocations, t, capacity);
      NothingStarted(carousel, t.now);
      assert DistinctStrings(started);
      for i := 0 to |started|
        invariant carousel == WithStarts(old(carousel), started[..i], t.now)
        invariant db.allocations == AllocateAll(old(db.allocations), started[..i], Tables.CarouselProbe, t.now)
      {
        var h := started[i];
        assert started[..i + 1] == started[..i] + [h];
        WithOneMoreStart(old(carousel), started[..i], h, t.now);
        carousel := carousel[h := StartRow(carousel, h, t.now)];
        db.allocations := Allocate(db.allocations, h, Tables.CarouselProbe, t.now);
      }
      assert started[..|started|] == started;
    }

    /** One tick, as a step of the runs above. */
    method RunOnce(t: Tick) returns (started: seq<string>, promoted: seq<string>, stopped: seq<string>, ghost s: Step)
      modifies this`carousel, db`allocations
      ensures SortedBy(promoted, ProbeTurn(old(carousel))) && SortedBy(stopped, ProbeTurn(old(carousel)))
      ensures s.tick == t && s.started == started
      ensures Allowed(old(carousel), config, s)
      ensures carousel == Next(old(carousel), config, s)
      ensures Suspended(config, t) ==> promoted == [] && stopped == [] && db.allocations == old(db.allocations)
      ensures !Suspended(config, t) ==>
        && (forall h :: h in promoted <==> Promotes(old(carousel), h, t))
        && (forall h :: h in stopped <==> TimesOut(old(carousel), h, config, t))
        && AllocatedFor(old(db.allocations), s.alloc, old(carousel), config, t)
        && db.allocations == AllocateAll(s.alloc, started, Tables.CarouselProbe, t.now)
      ensures Tables.NobodyActivated(old(db.allocations), db.allocations)
    {
      if !t.healthy || (t.free.Some? && t.free.value < config.minFree) {
        started, promoted, stopped := [], [], [];
        s := Step(t, db.allocations, []);
        return;
      }
      promoted, stopped := ReconcileActiveProbes(t);
      ghost var alloc := db.allocations;
      var active := |ProbingHashes(carousel)|;
      var capacity := if active < Effective(config) then Effective(config) - active else 0;
      started := StartNewProbes(t, capacity);
      s := Step(t, alloc, started);
      ProbingActivatesNobody(old(db.allocations), s, old(carousel), config);
    }
  }
}
