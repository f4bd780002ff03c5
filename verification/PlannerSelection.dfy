/**
 Whom a planner tick starts, said without its budget: in the order of the mode, each torrent that may
 run is served unless the slots or the free space above the mode's floor are used up by those before it.
 */
module PlannerSelection {
  import opened Options
  import opened Sums
  import opened Order
  import opened Ledger
  import opened Torrents
  import opened Tables
  import opened PlannerChoice
  import opened PlannerEffects
  import opened PlannerLedger

  /** A managed torrent that needs bytes, is neither dead nor cooling down, and is not left running by others. */
  predicate MayRun(tick: Tick, t: Torrent) {
    && IsManaged(t) && t.amountLeft > 0
    && !(t.hash in tick.alloc && tick.alloc[t.hash].desired == Desired.Dead) && !AutoDead(tick, t)
    && t.hash !in tick.cooldown && !ActiveSlow(tick, t)
    && (t.hash in tick.protectedRunning ==> t.hash in tick.forcedActive)
  }

  predicate SmallEnough(t: Torrent, largest: Option<nat>) {
    largest.Some? ==> t.amountLeft <= largest.value
  }

  predicate Forced(tick: Tick, t: Torrent) {
    t.hash in tick.forcedActive
  }

  /** Nearest to done first in recovery, smallest first otherwise. */
  predicate Ahead(recovery: bool, a: Torrent, b: Torrent) {
    if recovery then
      a.progress > b.progress || (a.progress == b.progress && a.amountLeft <= b.amountLeft)
    else
      || a.amountLeft < b.amountLeft
      || (a.amountLeft == b.amountLeft && (a.seeds > b.seeds || (a.seeds == b.seeds && a.peers >= b.peers)))
  }

  /** Forced torrents come before all others. */
  predicate ComesFirst(tick: Tick, recovery: bool, a: Torrent, b: Torrent) {
    (Forced(tick, a) && !Forced(tick, b)) || (Forced(tick, a) == Forced(tick, b) && Ahead(recovery, a, b))
  }

  /** Those served before this torrent leave no slot for it, or not the bytes it needs above the floor. */
  ghost predicate NoRoom(tick: Tick, reserved: map<Key, nat>, selected: seq<Torrent>, recovery: bool, keep: nat,
                         slots: int, t: Torrent) {
    exists n :: 0 <= n <= |selected|
      && (forall i :: 0 <= i < n ==> ComesFirst(tick, recovery, selected[i], t))
      && (forall i :: n <= i < |selected| ==> ComesFirst(tick, recovery, t, selected[i]))
      && TooMuch(tick, reserved, selected[..n], keep, slots, t)
  }

  ghost predicate TooMuch(tick: Tick, reserved: map<Key, nat>, served: seq<Torrent>, keep: nat, slots: int,
                          t: Torrent) {
    || |served| >= slots
    || TickCommitment(reserved, served, tick.external) + Over(t.amountLeft, At(reserved, ByHash(t.hash))) + keep
         > tick.freeBytes
  }

  /** The selection is what serving the torrents in turn comes to. */
  ghost predicate ServedInTurn(tick: Tick, reserved: map<Key, nat>, selected: seq<Torrent>, recovery: bool, keep: nat,
                               slots: int, largest: Option<nat>) {
    && DistinctHashes(selected)
    && (forall t :: t in selected ==> t in tick.snapshots && MayRun(tick, t) && SmallEnough(t, largest))
    && (forall i, j :: 0 <= i < j < |selected| ==> ComesFirst(tick, recovery, selected[i], selected[j]))
    && (selected != [] ==> |selected| <= slots)
    && (var committed := TickCommitment(reserved, selected, tick.external);
        committed + keep <= tick.freeBytes || committed == Sum(reserved) + tick.external)
    && (forall t :: t in tick.snapshots && MayRun(tick, t) && SmallEnough(t, largest) && t !in selected ==>
          NoRoom(tick, reserved, selected, recovery, keep, slots, t))
  }

  /**
   Below the emergency floor nobody is started. In recovery the small ones nearest to done are, within
   the recovery slots and margin; otherwise the smallest, within the active slots and the disk floor.
   */
  ghost predicate Served(tick: Tick, reserved: map<Key, nat>, selected: seq<Torrent>) {
    var cfg, free := tick.cfg, tick.freeBytes;
    if free < cfg.emergencyFloor then selected == []
    else if cfg.recoveryEnabled && free < cfg.recoveryEnter then
      ServedInTurn(tick, reserved, selected, true, cfg.emergencyFloor + cfg.recoveryMargin, cfg.recoverySlots,
                   Some(cfg.recoveryMaxRemaining))
    else ServedInTurn(tick, reserved, selected, false, cfg.diskFloor, cfg.activeSlots, None)
  }

  // ---------------------------------------------------------------------------------------------
  // The queue is in order
  // ---------------------------------------------------------------------------------------------

  lemma {:induction false} FilterSorted(ts: seq<Torrent>, keep: Torrent -> bool, key: Torrent -> seq<real>)
    requires SortedBy(ts, key)
    ensures SortedBy(Filter(ts, keep), key)
  {
    if ts != [] {
      hide LexLe;
      var n := |ts| - 1;
      FilterSorted(ts[..n], keep, key);
      FilterElements(ts[..n], keep);
      var kept := Filter(ts[..n], keep);
      forall i | 0 <= i < |kept| ensures LexLe(key(kept[i]), key(ts[n])) {
        assert kept[i] in ts[..n];
      }
    }
  }

  lemma KeysGoAhead(tick: Tick, a: Torrent, b: Torrent)
    requires LexLe(CandidateOrder(tick)(a), CandidateOrder(tick)(b))
    ensures Ahead(TickMode(tick) == Recovery, a, b)
  {
    hide TickMode, Downloaded;
    var p, q := CandidateOrder(tick)(a), CandidateOrder(tick)(b);
    LexAt(p, q);
    if p[0] == q[0] {
      LexAt(p[1..], q[1..]);
      if p[1] == q[1] {
        LexAt(p[1..][1..], q[1..][1..]);
      }
    }
  }

  lemma LexAt(a: seq<real>, b: seq<real>)
    requires LexLe(a, b) && a != [] && b != []
    ensures a[0] <= b[0] && (a[0] == b[0] ==> LexLe(a[1..], b[1..]))
  {
  }

  lemma QueueInOrder(tick: Tick, i: nat, j: nat)
    requires i < j < |Queue(tick)|
    ensures ComesFirst(tick, TickMode(tick) == Recovery, Queue(tick)[i], Queue(tick)[j])
  {
    hide Candidates, Filter, Ahead, CandidateOrder, LexLe, TickMode;
    var all := Candidates(tick);
    var forced, regular := Filter(all, ForcedTest(tick)), Filter(all, RegularTest(tick));
    CandidatesSorted(tick);
    FilterElements(all, ForcedTest(tick));
    FilterElements(all, RegularTest(tick));
    FilterSorted(all, ForcedTest(tick), CandidateOrder(tick));
    FilterSorted(all, RegularTest(tick), CandidateOrder(tick));
    var a, b := Queue(tick)[i], Queue(tick)[j];
    if j < |forced| {
      assert a == forced[i] && b == forced[j] && a in forced && b in forced;
      KeysGoAhead(tick, a, b);
    } else if i < |forced| {
      assert a == forced[i] && b == regular[j - |forced|] && a in forced && b in regular;
    } else {
      assert a == regular[i - |forced|] && b == regular[j - |forced|] && a in regular && b in regular;
      KeysGoAhead(tick, a, b);
    }
  }

  lemma CandidatesSorted(tick: Tick)
    ensures SortedBy(Candidates(tick), CandidateOrder(tick))
  {
    SortIsSorted(Filter(Managed(tick), CandidateTest(tick)), CandidateOrder(tick));
  }

  // ---------------------------------------------------------------------------------------------
  // Serving in turn
  // ---------------------------------------------------------------------------------------------

  /** What has been picked from the front of the queue stays picked, and the rest comes from behind. */
  lemma {:induction false} PickedFirst(queue: seq<Torrent>, reserved: map<Key, nat>, budget: nat, slots: int, j: nat)
    requires j <= |queue|
    ensures
      var front := Pick(queue[..j], reserved, budget, slots).selected;
      var all := Pick(queue, reserved, budget, slots).selected;
      && |front| <= |all| && all[..|front|] == front
      && forall i :: |front| <= i < |all| ==> all[i] in queue[j..]
  {
    hide Fits, Extra;
    if j < |queue| {
      var n := |queue| - 1;
      PickedFirst(queue[..n], reserved, budget, slots, j);
      assert queue[..n][..j] == queue[..j];
      assert queue[j..] == queue[..n][j..] + [queue[n]];
    } else {
      assert queue[..j] == queue;
    }
  }

  /** A queued torrent that was left out did not fit when its turn came. */
  lemma LeftOutInTurn(queue: seq<Torrent>, reserved: map<Key, nat>, budget: nat, slots: int, j: nat)
    requires j < |queue| && queue[j] !in Pick(queue, reserved, budget, slots).selected
    ensures !Fits(Pick(queue[..j], reserved, budget, slots), queue[j], reserved, budget, slots)
  {
    if Fits(Pick(queue[..j], reserved, budget, slots), queue[j], reserved, budget, slots) {
      FitsAndIsPicked(queue, reserved, budget, slots, j);
    }
  }

  lemma FitsAndIsPicked(queue: seq<Torrent>, reserved: map<Key, nat>, budget: nat, slots: int, j: nat)
    requires j < |queue| && Fits(Pick(queue[..j], reserved, budget, slots), queue[j], reserved, budget, slots)
    ensures queue[j] in Pick(queue, reserved, budget, slots).selected
  {
    hide Fits, Extra;
    PickedFirst(queue, reserved, budget, slots, j + 1);
    var upTo := queue[..j + 1];
    assert upTo[..j] == queue[..j] && upTo[j] == queue[j];
    var front, all := Pick(upTo, reserved, budget, slots).selected, Pick(queue, reserved, budget, slots).selected;
    assert front[|front| - 1] == queue[j];
    assert all[|front| - 1] == queue[j];
  }

  /** When its turn came, the torrents picked so far left no slot, or no room above the floor. */
  lemma TurnedAway(tick: Tick, reserved: map<Key, nat>, j: nat)
    requires DistinctHashes(tick.snapshots) && j < |Queue(tick)|
    requires Queue(tick)[j] !in Selection(tick, reserved, Sum(reserved)).selected
    ensures
      var front := Pick(Queue(tick)[..j], reserved, Budget(tick, Sum(reserved)), Slots(tick)).selected;
      TooMuch(tick, reserved, front, KeptFree(tick), Slots(tick), Queue(tick)[j])
  {
    hide Queue, Pick, KeptFree, Slots, Keyed, Committed;
    var queue, budget, slots := Queue(tick), Budget(tick, Sum(reserved)), Slots(tick);
    QueueDistinct(tick);
    LeftOutInTurn(queue, reserved, budget, slots, j);
    PicksWithinBudget(queue[..j], reserved, budget, slots);
    PicksFromQueue(queue[..j], reserved, budget, slots);
    CommittedTotal(reserved, Pick(queue[..j], reserved, budget, slots).selected);
  }

  lemma LeftOutFindsNoRoom(tick: Tick, reserved: map<Key, nat>, t: Torrent)
    requires DistinctHashes(tick.snapshots) && t in Queue(tick)
    requires t !in Selection(tick, reserved, Sum(reserved)).selected
    ensures
      var selected := Selection(tick, reserved, Sum(reserved)).selected;
      NoRoom(tick, reserved, selected, TickMode(tick) == Recovery, KeptFree(tick), Slots(tick), t)
  {
    hide Queue, Pick, KeptFree, Slots, Budget, TooMuch, ComesFirst, TickMode;
    var queue, budget, slots := Queue(tick), Budget(tick, Sum(reserved)), Slots(tick);
    var recovery := TickMode(tick) == Recovery;
    var all := Selection(tick, reserved, Sum(reserved)).selected;
    var j: nat :| j < |queue| && queue[j] == t;
    var front := Pick(queue[..j], reserved, budget, slots).selected;
    QueueDistinct(tick);
    TurnedAway(tick, reserved, j);
    PickedFirst(queue, reserved, budget, slots, j);
    PicksFromQueue(queue[..j], reserved, budget, slots);
    var n := |front|;
    forall i | 0 <= i < n ensures ComesFirst(tick, recovery, all[i], t) {
      assert all[i] == front[i] && front[i] in queue[..j];
      var k: nat :| k < j && queue[k] == all[i];
      QueueInOrder(tick, k, j);
    }
    forall i | n <= i < |all| ensures ComesFirst(tick, recovery, t, all[i]) {
      assert all[i] in queue[j..] && all[i] in all;
      var k: nat :| j <= k < |queue| && queue[k] == all[i];
      QueueInOrder(tick, j, k);
    }
    assert all[..n] == front;
  }

  lemma SelectedInOrder(tick: Tick, reserved: map<Key, nat>, i: nat, j: nat)
    requires DistinctHashes(tick.snapshots) && i < j < |Selection(tick, reserved, Sum(reserved)).selected|
    ensures
      var selected := Selection(tick, reserved, Sum(reserved)).selected;
      ComesFirst(tick, TickMode(tick) == Recovery, selected[i], selected[j])
  {
    hide Queue, Slots, Budget, ComesFirst, TickMode, Fits, Extra;
    var queue := Queue(tick);
    QueueDistinct(tick);
    var a, b := PickedWhere(queue, reserved, Budget(tick, Sum(reserved)), Slots(tick), i, j);
    QueueInOrder(tick, a, b);
  }

  lemma {:induction false} PickedWhere(queue: seq<Torrent>, reserved: map<Key, nat>, budget: nat, slots: int,
                                       i: nat, j: nat) returns (a: nat, b: nat)
    requires i < j < |Pick(queue, reserved, budget, slots).selected|
    ensures
      var selected := Pick(queue, reserved, budget, slots).selected;
      a < b < |queue| && queue[a] == selected[i] && queue[b] == selected[j]
  {
    hide Fits, Extra;
    var n := |queue| - 1;
    var before := Pick(queue[..n], reserved, budget, slots).selected;
    if j < |before| {
      a, b := PickedWhere(queue[..n], reserved, budget, slots, i, j);
    } else {
      PickedFirst(queue, reserved, budget, slots, n);
      PickedFromAll(queue[..n], reserved, budget, slots);
      assert before[i] in queue[..n];
      a :| a < n && queue[a] == before[i];
      b := n;
    }
  }

  lemma {:induction false} PickedFromAll(queue: seq<Torrent>, reserved: map<Key, nat>, budget: nat, slots: int)
    ensures forall t :: t in Pick(queue, reserved, budget, slots).selected ==> t in queue
  {
    if queue != [] {
      PickedFromAll(queue[..|queue| - 1], reserved, budget, slots);
    }
  }

  lemma CandidateMayRun(tick: Tick, t: Torrent)
    ensures IsManaged(t) && IsCandidate(tick, t)
       <==> MayRun(tick, t)
            && (TickMode(tick) == Recovery ==> SmallEnough(t, Some(tick.cfg.recoveryMaxRemaining)))
  {
    hide AutoDead, ActiveSlow, TickMode;
  }

  /** The tick's selection is what serving the torrents in turn comes to, in every mode. */
  lemma SelectionIsServed(tick: Tick, reserved: map<Key, nat>)
    requires DistinctHashes(tick.snapshots)
    ensures Served(tick, reserved, Selection(tick, reserved, Sum(reserved)).selected)
  {
    hide Queue, Candidates, Pick, Budget, MayRun, IsCandidate, NoRoom, ComesFirst, Committed;
    var selected := Selection(tick, reserved, Sum(reserved)).selected;
    QueueDistinct(tick);
    CandidateElements(tick);
    PicksFromQueue(Queue(tick), reserved, Budget(tick, Sum(reserved)), Slots(tick));
    PicksWithinBudget(Queue(tick), reserved, Budget(tick, Sum(reserved)), Slots(tick));
    TickWithinFloor(tick, reserved);
    forall t ensures IsManaged(t) && IsCandidate(tick, t)
       <==> MayRun(tick, t) && (TickMode(tick) == Recovery ==> SmallEnough(t, Some(tick.cfg.recoveryMaxRemaining)))
    {
      CandidateMayRun(tick, t);
    }
    forall t | t in Queue(tick) && t !in selected
      ensures NoRoom(tick, reserved, selected, TickMode(tick) == Recovery, KeptFree(tick), Slots(tick), t)
    {
      LeftOutFindsNoRoom(tick, reserved, t);
    }
    forall i, j | 0 <= i < j < |selected|
      ensures ComesFirst(tick, TickMode(tick) == Recovery, selected[i], selected[j])
    {
      SelectedInOrder(tick, reserved, i, j);
    }
  }

  // ---------------------------------------------------------------------------------------------
  // What that means
  // ---------------------------------------------------------------------------------------------

  lemma {:induction false} ServingCommitsMore(reserved: map<Key, nat>, selected: seq<Torrent>, n: nat, external: nat)
    requires DistinctHashes(selected) && n <= |selected|
    ensures TickCommitment(reserved, selected[..n], external) <= TickCommitment(reserved, selected, external)
  {
    hide Keyed, Committed, Extra;
    var m := |selected| - 1;
    if n <= m {
      ServingCommitsMore(reserved, selected[..m], n, external);
      assert selected[..m][..n] == selected[..n];
      CommittedTotal(reserved, selected);
      CommittedTotal(reserved, selected[..m]);
      assert selected == selected[..m] + [selected[m]];
      KeyedAppend(selected[..m], ExtraOf(reserved), selected[m]);
    } else {
      assert selected[..n] == selected;
    }
  }

  /**
   Nobody who may run is left out while a slot is free and what it needs still fits above the floor.
   */
  lemma NobodyLeftOut(tick: Tick, reserved: map<Key, nat>, selected: seq<Torrent>, recovery: bool, keep: nat,
                      slots: int, largest: Option<nat>, t: Torrent)
    requires ServedInTurn(tick, reserved, selected, recovery, keep, slots, largest)
    requires t in tick.snapshots && MayRun(tick, t) && SmallEnough(t, largest) && t !in selected
    ensures TooMuch(tick, reserved, selected, keep, slots, t)
  {
    hide MayRun, ComesFirst, Committed;
    var n: nat :| n <= |selected| && TooMuch(tick, reserved, selected[..n], keep, slots, t);
    var served := selected[..n];
    ServingCommitsMore(reserved, selected, n, tick.external);
    assert TooMuch(tick, reserved, served, keep, slots, t);
    assert |served| == n;
  }

  /** The same for a whole tick, in recovery and in normal mode. */
  ghost predicate FullUp(tick: Tick, reserved: map<Key, nat>, selected: seq<Torrent>) {
    var cfg, free := tick.cfg, tick.freeBytes;
    free >= cfg.emergencyFloor ==>
      forall t :: t in tick.snapshots && MayRun(tick, t) && t !in selected ==>
        if cfg.recoveryEnabled && free < cfg.recoveryEnter then
          || t.amountLeft > cfg.recoveryMaxRemaining
          || TooMuch(tick, reserved, selected, cfg.emergencyFloor + cfg.recoveryMargin, cfg.recoverySlots, t)
        else TooMuch(tick, reserved, selected, cfg.diskFloor, cfg.activeSlots, t)
  }

  lemma ServedIsFullUp(tick: Tick, reserved: map<Key, nat>, selected: seq<Torrent>)
    requires Served(tick, reserved, selected)
    ensures FullUp(tick, reserved, selected)
  {
    hide MayRun, TooMuch, ServedInTurn;
    var cfg, free := tick.cfg, tick.freeBytes;
    if free >= cfg.emergencyFloor {
      forall t | t in tick.snapshots && MayRun(tick, t) && t !in selected
        ensures
          if cfg.recoveryEnabled && free < cfg.recoveryEnter then
            || t.amountLeft > cfg.recoveryMaxRemaining
            || TooMuch(tick, reserved, selected, cfg.emergencyFloor + cfg.recoveryMargin, cfg.recoverySlots, t)
          else TooMuch(tick, reserved, selected, cfg.diskFloor, cfg.activeSlots, t)
      {
        if cfg.recoveryEnabled && free < cfg.recoveryEnter {
          if t.amountLeft <= cfg.recoveryMaxRemaining {
            NobodyLeftOut(tick, reserved, selected, true, cfg.emergencyFloor + cfg.recoveryMargin, cfg.recoverySlots,
                          Some(cfg.recoveryMaxRemaining), t);
          }
        } else {
          NobodyLeftOut(tick, reserved, selected, false, cfg.diskFloor, cfg.activeSlots, None, t);
        }
      }
    }
  }

  /**
   Outside recovery, with nothing forced and nothing reserved for those who may run, no set of them that
   fits the slots and the free space above the floor is larger than what the tick starts.
   */
  lemma TickServesMost(tick: Tick, reserved: map<Key, nat>, s: set<Torrent>)
    requires tick.freeBytes >= tick.cfg.emergencyFloor
    requires tick.cfg.recoveryEnabled ==> tick.freeBytes >= tick.cfg.recoveryEnter
    requires forall t :: t in tick.snapshots && MayRun(tick, t) ==>
      t.hash !in tick.forcedActive && At(reserved, ByHash(t.hash)) == 0
    requires forall t :: t in s ==> t in tick.snapshots && MayRun(tick, t)
    requires |s| <= tick.cfg.activeSlots
    requires Sum(reserved) + tick.external + AmountOf(s) + tick.cfg.diskFloor <= tick.freeBytes
    ensures |s| <= |Selection(tick, reserved, Sum(reserved)).selected|
  {
    hide MayRun, IsCandidate, Candidates, Queue, Pick, AmountOf;
    CandidateElements(tick);
    forall t ensures IsManaged(t) && IsCandidate(tick, t) <==> MayRun(tick, t) {
      CandidateMayRun(tick, t);
    }
    ElementsAre(Candidates(tick));
    SelectionIsLargest(tick, reserved, Budget(tick, Sum(reserved)), Slots(tick), s);
  }

  lemma {:induction false} ElementsAre(ts: seq<Torrent>)
    ensures forall t :: t in Elements(ts) <==> t in ts
  {
    if ts != [] {
      ElementsAre(ts[..|ts| - 1]);
      assert ts == ts[..|ts| - 1] + [ts[|ts| - 1]];
    }
  }
}
