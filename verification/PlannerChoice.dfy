/**
 The download planner's decision for one tick, on values: the mode and its budget, who is a
 candidate, which candidates are selected, and what every torrent's stored allocation becomes.
 */
module PlannerChoice {
  import opened Options
  import opened Sums
  import opened Order
  import opened Ledger
  import opened Torrents
  import opened Tables
  import Health

  datatype Config = Config(
    activeSlots: int,
    diskFloor: nat,
    slowDemoteSec: int,
    recoveryEnabled: bool,
    recoveryEnter: nat,
    emergencyFloor: nat,
    recoveryMargin: nat,
    recoverySlots: int,
    recoveryMaxRemaining: nat)

  datatype Mode = Normal | Recovery | Emergency

  type Allocations = map<string, Allocation>
  type HealthRows = map<string, HealthRow>

  /** Everything one tick reads: its arguments and the tables as they are when it decides. */
  datatype Tick = Tick(
    cfg: Config,
    snapshots: seq<Torrent>,
    freeBytes: nat,
    protectedRunning: set<string>,
    forcedActive: set<string>,
    cooldown: set<string>,
    external: nat,
    now: int,
    alloc: Allocations,
    health: HealthRows)

  function ModeFor(cfg: Config, freeBytes: nat): Mode {
    if freeBytes < cfg.emergencyFloor then Emergency
    else if cfg.recoveryEnabled && freeBytes < cfg.recoveryEnter then Recovery
    else Normal
  }

  function TickMode(tick: Tick): Mode {
    ModeFor(tick.cfg, tick.freeBytes)
  }

  /** The bytes of free space this mode will not touch. */
  function KeptFree(tick: Tick): nat {
    match TickMode(tick)
    case Normal => tick.cfg.diskFloor
    case Recovery => tick.cfg.emergencyFloor + tick.cfg.recoveryMargin
    case Emergency => tick.cfg.emergencyFloor
  }

  function Slots(tick: Tick): int {
    match TickMode(tick)
    case Normal => tick.cfg.activeSlots
    case Recovery => tick.cfg.recoverySlots
    case Emergency => 0
  }

  /** The ledger is read without the soak queue's rows when the soak queue reports its own bytes. */
  function IgnoreSoak(tick: Tick): bool {
    tick.external > 0
  }

  function Budget(tick: Tick, reserved: nat): nat {
    var left := tick.freeBytes - KeptFree(tick) - reserved - tick.external;
    if left < 0 then 0 else left
  }

  // ---------------------------------------------------------------------------------------------
  // Candidates
  // ---------------------------------------------------------------------------------------------

  const MANAGED: Torrent -> bool := (t: Torrent) => IsManaged(t)

  function Managed(tick: Tick): seq<Torrent> {
    Filter(tick.snapshots, MANAGED)
  }

  function Lookup<V>(m: map<string, V>, h: string): Option<V> {
    if h in m then Some(m[h]) else None
  }

  predicate AutoDead(tick: Tick, t: Torrent) {
    Health.ShouldMarkDead(Lookup(tick.health, t.hash), Lookup(tick.alloc, t.hash), t.amountLeft, t.seeds, t.peers,
                          tick.now)
  }

  predicate ActiveSlow(tick: Tick, t: Torrent) {
    && !AutoDead(tick, t)
    && t.hash in tick.alloc && tick.alloc[t.hash].desired == Desired.Active
    && Health.ShouldDemote(Lookup(tick.health, t.hash), t.dlspeed, tick.now, tick.cfg.slowDemoteSec)
  }

  predicate IsDead(tick: Tick, t: Torrent) {
    AutoDead(tick, t) || (t.hash in tick.alloc && tick.alloc[t.hash].desired == Desired.Dead)
  }

  predicate InCooldown(tick: Tick, t: Torrent) {
    t.hash in tick.cooldown || ActiveSlow(tick, t)
  }

  /** Still in the running before the mode has its say. */
  predicate Open(tick: Tick, t: Torrent) {
    t.amountLeft > 0 && !IsDead(tick, t) && !InCooldown(tick, t)
  }

  predicate Skipped(tick: Tick, t: Torrent) {
    && Open(tick, t)
    && (|| (t.hash in tick.protectedRunning && t.hash !in tick.forcedActive)
        || (TickMode(tick) == Recovery && t.amountLeft > tick.cfg.recoveryMaxRemaining))
  }

  predicate IsCandidate(tick: Tick, t: Torrent) {
    Open(tick, t) && !Skipped(tick, t)
  }

  function CandidateTest(tick: Tick): Torrent -> bool {
    (t: Torrent) => IsCandidate(tick, t)
  }

  function SmallestFirst(t: Torrent): seq<real> {
    [t.amountLeft as real, -(t.seeds as real), -(t.peers as real)] + Code(t.hash)
  }

  /** Bytes already downloaded, worked out from the size when they are not reported. */
  function Downloaded(t: Torrent): nat {
    if t.completed > 0 then t.completed
    else if t.size < t.amountLeft then 0
    else t.size - t.amountLeft
  }

  function NearestDoneFirst(t: Torrent): seq<real> {
    [-t.progress, t.amountLeft as real, -(Downloaded(t) as real), -(t.seeds as real), -(t.peers as real)] + Code(t.hash)
  }

  function CandidateOrder(tick: Tick): Torrent -> seq<real> {
    if TickMode(tick) == Recovery then NearestDoneFirst else SmallestFirst
  }

  function Candidates(tick: Tick): seq<Torrent> {
    Sort(Filter(Managed(tick), CandidateTest(tick)), CandidateOrder(tick))
  }

  function ForcedTest(tick: Tick): Torrent -> bool {
    (t: Torrent) => t.hash in tick.forcedActive
  }

  function RegularTest(tick: Tick): Torrent -> bool {
    (t: Torrent) => t.hash !in tick.forcedActive
  }

  /** The candidates in the order the selection considers them. */
  function Queue(tick: Tick): seq<Torrent> {
    Filter(Candidates(tick), ForcedTest(tick)) + Filter(Candidates(tick), RegularTest(tick))
  }

  lemma CandidateElements(tick: Tick)
    ensures forall t :: t in Candidates(tick) <==> t in tick.snapshots && IsManaged(t) && IsCandidate(tick, t)
    ensures forall t :: t in Queue(tick) <==> t in Candidates(tick)
  {
    var unsorted := Filter(Managed(tick), CandidateTest(tick));
    FilterElements(tick.snapshots, MANAGED);
    FilterElements(Managed(tick), CandidateTest(tick));
    SortIsSorted(unsorted, CandidateOrder(tick));
    forall t ensures t in Candidates(tick) <==> t in unsorted {
      assert t in multiset(Candidates(tick)) <==> t in multiset(unsorted);
    }
    FilterElements(Candidates(tick), ForcedTest(tick));
    FilterElements(Candidates(tick), RegularTest(tick));
  }

  lemma QueueDistinct(tick: Tick)
    requires DistinctHashes(tick.snapshots)
    ensures DistinctHashes(Candidates(tick)) && DistinctHashes(Queue(tick))
  {
    var unsorted := Filter(Managed(tick), CandidateTest(tick));
    var forced := Filter(Candidates(tick), ForcedTest(tick));
    var regular := Filter(Candidates(tick), RegularTest(tick));
    FilterDistinct(tick.snapshots, MANAGED);
    FilterDistinct(Managed(tick), CandidateTest(tick));
    SortIsSorted(unsorted, CandidateOrder(tick));
    DistinctPermutation(unsorted, Candidates(tick));
    FilterDistinct(Candidates(tick), ForcedTest(tick));
    FilterDistinct(Candidates(tick), RegularTest(tick));
    FilterElements(Candidates(tick), ForcedTest(tick));
    FilterElements(Candidates(tick), RegularTest(tick));
    forall i | 0 <= i < |forced| ensures forced[i].hash in tick.forcedActive {
      assert forced[i] in forced;
    }
    forall i | 0 <= i < |regular| ensures regular[i].hash !in tick.forcedActive {
      assert regular[i] in regular;
    }
  }

  // ---------------------------------------------------------------------------------------------
  // Selection
  // ---------------------------------------------------------------------------------------------

  datatype Picks = Picks(selected: seq<Torrent>, used: nat)

  /** The bytes a torrent needs beyond what the ledger already holds for it. */
  function Extra(reserved: map<Key, nat>, t: Torrent): nat {
    var held := At(reserved, ByHash(t.hash));
    if t.amountLeft < held then 0 else t.amountLeft - held
  }

  predicate Fits(p: Picks, t: Torrent, reserved: map<Key, nat>, budget: nat, slots: int) {
    |p.selected| < slots && p.used + Extra(reserved, t) <= budget
  }

  function Pick(queue: seq<Torrent>, reserved: map<Key, nat>, budget: nat, slots: int): Picks {
    if queue == [] then Picks([], 0)
    else
      var n := |queue| - 1;
      var p := Pick(queue[..n], reserved, budget, slots);
      if Fits(p, queue[n], reserved, budget, slots)
        then Picks(p.selected + [queue[n]], p.used + Extra(reserved, queue[n]))
      else p
  }

  function ExtraOf(reserved: map<Key, nat>): Torrent -> nat {
    (t: Torrent) => Extra(reserved, t)
  }

  /** One number per torrent, as entries of a ledger map. */
  function Keyed(ts: seq<Torrent>, f: Torrent -> nat): map<Key, nat> {
    if ts == [] then map[]
    else
      var n := |ts| - 1;
      Keyed(ts[..n], f)[ByHash(ts[n].hash) := f(ts[n])]
  }

  lemma {:induction false} KeyedElsewhere(ts: seq<Torrent>, f: Torrent -> nat, k: Key)
    requires forall i :: 0 <= i < |ts| ==> k != ByHash(ts[i].hash)
    ensures k !in Keyed(ts, f)
  {
    if ts != [] {
      KeyedElsewhere(ts[..|ts| - 1], f, k);
    }
  }

  lemma {:induction false} KeyedAt(ts: seq<Torrent>, f: Torrent -> nat, i: nat)
    requires DistinctHashes(ts) && i < |ts|
    ensures At(Keyed(ts, f), ByHash(ts[i].hash)) == f(ts[i])
  {
    var n := |ts| - 1;
    if i < n {
      KeyedAt(ts[..n], f, i);
      assert ts[..n][i] == ts[i];
    }
  }

  lemma {:induction false} PicksFromQueue(queue: seq<Torrent>, reserved: map<Key, nat>, budget: nat, slots: int)
    requires DistinctHashes(queue)
    ensures
      var p := Pick(queue, reserved, budget, slots);
      && DistinctHashes(p.selected)
      && (forall t :: t in p.selected ==> t in queue)
  {
    if queue != [] {
      var n := |queue| - 1;
      PicksFromQueue(queue[..n], reserved, budget, slots);
      var p := Pick(queue[..n], reserved, budget, slots);
      forall i | 0 <= i < |p.selected| ensures p.selected[i].hash != queue[n].hash {
        assert p.selected[i] in queue[..n];
      }
    }
  }

  /** The selection stays within its budget and its slots, and `used` is what it adds up to. */
  lemma {:induction false} PicksWithinBudget(queue: seq<Torrent>, reserved: map<Key, nat>, budget: nat, slots: int)
    requires DistinctHashes(queue)
    ensures
      var p := Pick(queue, reserved, budget, slots);
      && p.used <= budget
      && (p.selected != [] ==> |p.selected| <= slots)
      && p.used == Sum(Keyed(p.selected, ExtraOf(reserved)))
  {
    hide Keyed, Extra;
    if queue == [] {
      NothingKeyed(ExtraOf(reserved));
    } else {
      var n := |queue| - 1;
      PicksWithinBudget(queue[..n], reserved, budget, slots);
      PicksFromQueue(queue[..n], reserved, budget, slots);
      PicksFromQueue(queue, reserved, budget, slots);
      var before := Pick(queue[..n], reserved, budget, slots);
      if Fits(before, queue[n], reserved, budget, slots) {
        KeyedAppend(before.selected, ExtraOf(reserved), queue[n]);
      }
    }
  }

  lemma NothingKeyed(f: Torrent -> nat)
    ensures Sum(Keyed([], f)) == 0
  {
  }

  lemma KeyedAppend(ts: seq<Torrent>, f: Torrent -> nat, t: Torrent)
    requires DistinctHashes(ts + [t])
    ensures Sum(Keyed(ts + [t], f)) == Sum(Keyed(ts, f)) + f(t)
  {
    assert (ts + [t])[..|ts|] == ts;
    forall i | 0 <= i < |ts| ensures ts[i].hash != t.hash {
      assert (ts + [t])[i] == ts[i] && (ts + [t])[|ts|] == t;
    }
    KeyedElsewhere(ts, f, ByHash(t.hash));
    SumPick(Keyed(ts + [t], f), ByHash(t.hash));
    assert Keyed(ts + [t], f) - {ByHash(t.hash)} == Keyed(ts, f);
  }

  /** Nobody left out would still fit, in any mode. */
  lemma {:induction false} PicksMaximal(queue: seq<Torrent>, reserved: map<Key, nat>, budget: nat, slots: int,
                                        t: Torrent)
    requires t in queue
    ensures
      var p := Pick(queue, reserved, budget, slots);
      t in p.selected || !Fits(p, t, reserved, budget, slots)
  {
    var n := |queue| - 1;
    if t in queue[..n] {
      PicksMaximal(queue[..n], reserved, budget, slots, t);
    } else {
      assert queue == queue[..n] + [queue[n]];
      assert t == queue[n];
    }
  }

  // ---------------------------------------------------------------------------------------------
  // Taking the smallest first is optimal
  // ---------------------------------------------------------------------------------------------

  function AmountLeft(ts: seq<Torrent>): nat {
    if ts == [] then 0 else AmountLeft(ts[..|ts| - 1]) + ts[|ts| - 1].amountLeft
  }

  /** The bytes a set of torrents still needs. */
  ghost function AmountOf(s: set<Torrent>): nat {
    if s == {} then 0
    else
      var t :| t in s;
      t.amountLeft + AmountOf(s - {t})
  }

  lemma {:induction false} AmountWithout(s: set<Torrent>, t: Torrent)
    requires t in s
    ensures AmountOf(s) == t.amountLeft + AmountOf(s - {t})
  {
    var u :| u in s && AmountOf(s) == u.amountLeft + AmountOf(s - {u});
    if u != t {
      AmountWithout(s - {u}, t);
      AmountWithout(s - {t}, u);
      assert s - {u} - {t} == s - {t} - {u};
    }
  }

  ghost predicate Ascending(ts: seq<Torrent>) {
    forall i, j :: 0 <= i < j < |ts| ==> ts[i].amountLeft <= ts[j].amountLeft
  }

  function Elements(ts: seq<Torrent>): set<Torrent> {
    if ts == [] then {} else Elements(ts[..|ts| - 1]) + {ts[|ts| - 1]}
  }

  lemma AmountLeftStep(ts: seq<Torrent>, q: nat)
    requires q < |ts|
    ensures AmountLeft(ts[..q + 1]) == AmountLeft(ts[..q]) + ts[q].amountLeft
  {
    assert ts[..q + 1][..q] == ts[..q];
  }

  /** Any q torrents need at least as much as the q smallest. */
  lemma {:induction false} SmallestNeedLeast(ts: seq<Torrent>, s: set<Torrent>, q: nat)
    requires Ascending(ts)
    requires s <= Elements(ts) && q <= |s|
    ensures q <= |ts| && AmountLeft(ts[..q]) <= AmountOf(s)
    decreases |ts|
  {
    if q > 0 && ts != [] {
      hide AmountOf, AmountLeft, Ascending;
      var n := |ts| - 1;
      var last := ts[n];
      AscendingPrefix(ts, n);
      if last in s {
        SmallestNeedLeast(ts[..n], s - {last}, q - 1);
        AmountWithout(s, last);
        NeedStep(ts, q);
      } else {
        SmallestNeedLeast(ts[..n], s, q);
        assert ts[..n][..q] == ts[..q];
      }
    }
  }

  lemma NeedStep(ts: seq<Torrent>, q: nat)
    requires Ascending(ts) && 0 < q <= |ts|
    ensures ts[..|ts| - 1][..q - 1] == ts[..q - 1]
    ensures AmountLeft(ts[..q]) <= AmountLeft(ts[..q - 1]) + ts[|ts| - 1].amountLeft
  {
    AmountLeftStep(ts, q - 1);
  }

  ghost predicate StopsShort(queue: seq<Torrent>, q: nat, budget: nat, slots: int) {
    q < |queue| ==> q >= slots || AmountLeft(queue[..q + 1]) > budget
  }

  /** A selection that is the start of the queue, and could not go on. */
  ghost predicate IsPrefix(queue: seq<Torrent>, p: Picks, budget: nat, slots: int) {
    && |p.selected| <= |queue| && p.selected == queue[..|p.selected|]
    && p.used == AmountLeft(p.selected)
    && StopsShort(queue, |p.selected|, budget, slots)
  }

  lemma PrefixStep(queue: seq<Torrent>, p: Picks, reserved: map<Key, nat>, budget: nat, slots: int)
    requires queue != [] && Ascending(queue)
    requires At(reserved, ByHash(queue[|queue| - 1].hash)) == 0
    requires IsPrefix(queue[..|queue| - 1], p, budget, slots)
    ensures
      var last := queue[|queue| - 1];
      IsPrefix(queue, if Fits(p, last, reserved, budget, slots)
        then Picks(p.selected + [last], p.used + Extra(reserved, last)) else p, budget, slots)
  {
    var n := |queue| - 1;
    var q := |p.selected|;
    AmountLeftStep(queue, q);
    assert queue[..n][..q] == queue[..q];
    assert q < n ==> queue[..n][..q + 1] == queue[..q + 1];
    assert queue[q].amountLeft <= queue[n].amountLeft;
    hide AmountLeft;
    if Fits(p, queue[n], reserved, budget, slots) {
      assert q == n;
      assert queue[..n + 1] == queue[..n] + [queue[n]] == queue;
    }
  }

  lemma AscendingPrefix(queue: seq<Torrent>, n: nat)
    requires Ascending(queue) && n <= |queue|
    ensures Ascending(queue[..n])
  {
  }

  /** On an ascending queue with nothing reserved, the selection is a prefix, and the next would not fit. */
  lemma {:induction false} PicksArePrefix(queue: seq<Torrent>, reserved: map<Key, nat>, budget: nat, slots: int)
    requires Ascending(queue)
    requires forall i :: 0 <= i < |queue| ==> At(reserved, ByHash(queue[i].hash)) == 0
    ensures IsPrefix(queue, Pick(queue, reserved, budget, slots), budget, slots)
  {
    if queue != [] {
      hide Fits, IsPrefix, Ascending, Extra;
      var n := |queue| - 1;
      AscendingPrefix(queue, n);
      PicksArePrefix(queue[..n], reserved, budget, slots);
      PrefixStep(queue, Pick(queue[..n], reserved, budget, slots), reserved, budget, slots);
    } else {
      assert AmountLeft([]) == 0;
    }
  }

  /**
   Taking the smallest first selects as many torrents as can be: outside recovery, with nothing
   forced and nothing reserved for the candidates, no set of candidates that fits the slots and the
   budget is larger than the selection.
   */
  lemma SelectionIsLargest(tick: Tick, reserved: map<Key, nat>, budget: nat, slots: int, s: set<Torrent>)
    requires TickMode(tick) != Recovery
    requires forall t :: t in Candidates(tick) ==> t.hash !in tick.forcedActive && At(reserved, ByHash(t.hash)) == 0
    requires s <= Elements(Candidates(tick))
    requires |s| <= slots && AmountOf(s) <= budget
    ensures |s| <= |Pick(Queue(tick), reserved, budget, slots).selected|
  {
    NothingForced(Candidates(tick), tick);
    var queue := Candidates(tick);
    assert Queue(tick) == queue;
    forall i | 0 <= i < |queue| ensures At(reserved, ByHash(queue[i].hash)) == 0 {
      assert queue[i] in queue;
    }
    CandidatesAscend(tick);
    PicksArePrefix(queue, reserved, budget, slots);
    var q := |Pick(queue, reserved, budget, slots).selected|;
    if |s| > q {
      SmallestNeedLeast(queue, s, q + 1);
    }
  }

  lemma CandidatesAscend(tick: Tick)
    requires TickMode(tick) != Recovery
    ensures Ascending(Candidates(tick))
  {
    var queue := Candidates(tick);
    SortIsSorted(Filter(Managed(tick), CandidateTest(tick)), CandidateOrder(tick));
    forall i, j | 0 <= i < j < |queue| ensures queue[i].amountLeft <= queue[j].amountLeft {
      assert LexLe(SmallestFirst(queue[i]), SmallestFirst(queue[j]));
    }
  }

  lemma NothingForced(ts: seq<Torrent>, tick: Tick)
    requires forall t :: t in ts ==> t.hash !in tick.forcedActive
    ensures Filter(ts, ForcedTest(tick)) == []
    ensures Filter(ts, RegularTest(tick)) == ts
  {
    FilterNone(ts, ForcedTest(tick));
    FilterAll(ts, RegularTest(tick));
  }
}
