/** What the ledger adds up to after a planner tick, exactly, and how that compares with what the tick committed. */
module PlannerLedger {
  import opened Sums
  import opened Ledger
  import opened LedgerUpdates
  import opened Torrents
  import opened PlannerChoice
  import opened PlannerEffects
  import BatchLifecycle
  import BatchInvariant
  import Order
  import SoakVictims

  function Over(a: nat, b: nat): nat {
    if a > b then a - b else 0
  }

  /** What a selected torrent holds once its row is in step, and what the tick committed for it. */
  function HeldAfter(rows: Table, now: int, ignoreSoak: bool, t: Torrent): nat {
    Max(t.amountLeft, Col(rows, now, ByHash(t.hash), BatchColumn)) + Other(rows, now, ignoreSoak, t.hash)
  }

  function Claim(rows: Table, now: int, ignoreSoak: bool, t: Torrent): nat {
    Max(t.amountLeft, Need(rows, now, ignoreSoak, ByHash(t.hash)))
  }

  /** Bytes counted twice: credited against the download when it was selected, and held beside it afterwards. */
  function TwiceOf(rows: Table, now: int, ignoreSoak: bool): Torrent -> nat {
    (t: Torrent) => Over(HeldAfter(rows, now, ignoreSoak, t), Claim(rows, now, ignoreSoak, t))
  }

  /** Bytes a selected torrent's old download rows held beyond what it still needs. */
  function ExcessOf(rows: Table, now: int, ignoreSoak: bool): Torrent -> nat {
    (t: Torrent) => Over(Claim(rows, now, ignoreSoak, t), HeldAfter(rows, now, ignoreSoak, t))
  }

  ghost function Twice(rows: Table, now: int, ignoreSoak: bool, selected: seq<Torrent>): nat {
    Sum(Keyed(selected, TwiceOf(rows, now, ignoreSoak)))
  }

  /** What the update gives back: the download rows of idle torrents, and the excess of selected ones. */
  ghost function GivenBack(rows: Table, now: int, ignoreSoak: bool, managed: set<string>, selected: seq<Torrent>): nat {
    Sum(SoakVictims.FreedBy(rows, now, managed - HashSet(selected)))
      + Sum(Keyed(selected, ExcessOf(rows, now, ignoreSoak)))
  }

  lemma KeyBalances(rows: Table, managed: set<string>, selected: seq<Torrent>, now: int, ignoreSoak: bool,
                    reserved: map<Key, nat>, k: Key)
    requires DistinctHashes(selected) && "" !in managed
    requires At(reserved, k) == Need(rows, now, ignoreSoak, k)
    ensures
      Need(PlannerRows(rows, managed, selected, now), now, ignoreSoak, k)
        + At(SoakVictims.FreedBy(rows, now, managed - HashSet(selected)), k)
          + At(Keyed(selected, ExcessOf(rows, now, ignoreSoak)), k)
      == At(Committed(reserved, selected), k) + At(Keyed(selected, TwiceOf(rows, now, ignoreSoak)), k)
  {
    hide PlannerRows, Col, Keyed, Committed;
    NeedAfterSync(rows, managed, selected, now, ignoreSoak, k);
    var i := WhichTorrent(selected, k);
    if i < |selected| {
      assert selected[i].hash in HashSet(selected);
      KeyedAt(selected, ExcessOf(rows, now, ignoreSoak), i);
      KeyedAt(selected, TwiceOf(rows, now, ignoreSoak), i);
      CommittedAt(reserved, selected, i);
    } else {
      KeyedElsewhere(selected, ExcessOf(rows, now, ignoreSoak), k);
      KeyedElsewhere(selected, TwiceOf(rows, now, ignoreSoak), k);
      CommittedElsewhere(reserved, selected, k);
    }
  }

  /**
   The planner's update balances to the byte: the ledger afterwards, with what the update gave back, is
   what the tick committed, with what it counted twice.
   */
  lemma LedgerBalances(rows: Table, managed: set<string>, selected: seq<Torrent>, now: int, ignoreSoak: bool,
                       reserved: map<Key, nat>)
    requires DistinctHashes(selected) && "" !in managed
    requires forall k :: At(reserved, k) == Need(rows, now, ignoreSoak, k)
    ensures
      Total(PlannerRows(rows, managed, selected, now), now, ignoreSoak)
        + GivenBack(rows, now, ignoreSoak, managed, selected)
        == Sum(Committed(reserved, selected)) + Twice(rows, now, ignoreSoak, selected)
  {
    hide PlannerRows, Need, Keyed, Committed, SoakVictims.FreedBy, Plus;
    var rows' := PlannerRows(rows, managed, selected, now);
    var after := Needs(rows', now, ignoreSoak);
    var freed := SoakVictims.FreedBy(rows, now, managed - HashSet(selected));
    var excess := Keyed(selected, ExcessOf(rows, now, ignoreSoak));
    var committed := Committed(reserved, selected);
    var twice := Keyed(selected, TwiceOf(rows, now, ignoreSoak));
    var given := Plus(freed, excess);
    var left, right := Plus(after, given), Plus(committed, twice);
    forall k ensures At(left, k) == At(right, k) {
      AtNeeds(rows', now, ignoreSoak, k);
      KeyBalances(rows, managed, selected, now, ignoreSoak, reserved, k);
    }
    SumSame(left, right);
    SumSplit(left, after, given);
    SumSplit(given, freed, excess);
    SumSplit(right, committed, twice);
  }

  /**
   The guard a caller can check for one torrent: the ledger holds bytes for it beside its downloads and
   batches, and it needs more than those two columns have.
   */
  predicate CountsTwice(rows: Table, now: int, ignoreSoak: bool, t: Torrent) {
    && Other(rows, now, ignoreSoak, t.hash) > 0
    && t.amountLeft > Max(Col(rows, now, ByHash(t.hash), ActiveColumn), Col(rows, now, ByHash(t.hash), BatchColumn))
  }

  /** Bytes of a torrent are counted twice exactly under that guard. */
  lemma CountsTwiceIff(rows: Table, now: int, ignoreSoak: bool, t: Torrent)
    ensures TwiceOf(rows, now, ignoreSoak)(t) > 0 <==> CountsTwice(rows, now, ignoreSoak, t)
  {
    hide Col;
  }

  /** Nothing is counted twice in all exactly if no selected torrent meets the guard. */
  lemma NothingTwiceIff(rows: Table, now: int, ignoreSoak: bool, selected: seq<Torrent>)
    requires DistinctHashes(selected)
    ensures Twice(rows, now, ignoreSoak, selected) == 0
       <==> forall i :: 0 <= i < |selected| ==> !CountsTwice(rows, now, ignoreSoak, selected[i])
  {
    hide TwiceOf, Keyed, CountsTwice;
    var weight := TwiceOf(rows, now, ignoreSoak);
    var twice := Keyed(selected, weight);
    forall i | 0 <= i < |selected|
      ensures At(twice, ByHash(selected[i].hash)) > 0 <==> CountsTwice(rows, now, ignoreSoak, selected[i])
      ensures At(twice, ByHash(selected[i].hash)) <= Sum(twice)
    {
      KeyedAt(selected, weight, i);
      CountsTwiceIff(rows, now, ignoreSoak, selected[i]);
      SumPick(twice, ByHash(selected[i].hash));
    }
    if forall i :: 0 <= i < |selected| ==> !CountsTwice(rows, now, ignoreSoak, selected[i]) {
      forall k ensures At(twice, k) == At<Key>(map[], k) {
        var i := WhichTorrent(selected, k);
        if i < |selected| {
          assert At(twice, ByHash(selected[i].hash)) == 0;
        } else {
          KeyedElsewhere(selected, weight, k);
        }
      }
      SumSame(twice, map[]);
    }
  }

  /** What is counted twice is part of what the ledger holds beside downloads and batches. */
  lemma TwiceIsBeside(rows: Table, now: int, ignoreSoak: bool, t: Torrent)
    ensures TwiceOf(rows, now, ignoreSoak)(t) <= Other(rows, now, ignoreSoak, t.hash)
  {
    hide Col;
  }

  // ---------------------------------------------------------------------------------------------
  // A tick
  // ---------------------------------------------------------------------------------------------

  /** What the tick commits: selected downloads at their larger claim, all other reservations, and the soak exposure. */
  ghost function TickCommitment(reserved: map<Key, nat>, selected: seq<Torrent>, external: nat): nat {
    Sum(Committed(reserved, selected)) + external
  }

  /** The soak queue's own rows, when the tick leaves them out of what it reads. */
  ghost function SoakLeftOut(rows: Table, tick: Tick): nat {
    if IgnoreSoak(tick) then SoakTotal(rows, tick.now) else 0
  }

  lemma SameAsNeeds(rows: Table, now: int, reserved: map<Key, nat>, ignoreSoak: bool)
    requires forall k :: At(reserved, k) == Need(rows, now, ignoreSoak, k)
    ensures Sum(reserved) == Total(rows, now, ignoreSoak)
  {
    forall k ensures At(reserved, k) == At(Needs(rows, now, ignoreSoak), k) {
      AtNeeds(rows, now, ignoreSoak, k);
    }
    SumSame(reserved, Needs(rows, now, ignoreSoak));
  }

  /** The planner's update leaves the soak queue's bytes as they were. */
  lemma SoakUntouched(rows: Table, managed: set<string>, selected: seq<Torrent>, now: int)
    requires DistinctHashes(selected) && "" !in managed
    ensures SoakTotal(PlannerRows(rows, managed, selected, now), now) == SoakTotal(rows, now)
  {
    hide Col, Synced, ReleaseKind;
    SelectionLists(selected);
    var idle := managed - HashSet(selected);
    var rows' := PlannerRows(rows, managed, selected, now);
    forall k ensures At(SoakNeeds(rows', now), k) == At(SoakNeeds(rows, now), k) {
      AtNeeds(rows, now, true, k);
      AtNeeds(rows', now, true, k);
      ReleaseKindColumns(rows, ActiveDownload, idle, now, k, SoakColumn);
      SyncedElsewhere(ReleaseKind(rows, ActiveDownload, idle), ActiveDownload, HashSeq(selected), Wanted(selected),
                      now + ROW_TTL, now, k, SoakColumn);
    }
    SumSame(SoakNeeds(rows', now), SoakNeeds(rows, now));
  }

  /** The whole ledger after a tick, soak rows included, against the tick's commitment. */
  lemma TickBalances(tick: Tick, rows: Table, reserved: map<Key, nat>, managed: set<string>, selected: seq<Torrent>)
    requires DistinctHashes(selected) && "" !in managed
    requires forall k :: At(reserved, k) == Need(rows, tick.now, IgnoreSoak(tick), k)
    ensures
      Total(PlannerRows(rows, managed, selected, tick.now), tick.now, false)
        + GivenBack(rows, tick.now, IgnoreSoak(tick), managed, selected) + tick.external
      == TickCommitment(reserved, selected, tick.external) + Twice(rows, tick.now, IgnoreSoak(tick), selected)
        + SoakLeftOut(rows, tick)
  {
    hide Total, SoakTotal, Need, PlannerRows, Committed, GivenBack, Twice;
    LedgerBalances(rows, managed, selected, tick.now, IgnoreSoak(tick), reserved);
    TotalSplitsOffSoak(PlannerRows(rows, managed, selected, tick.now), tick.now);
    SoakUntouched(rows, managed, selected, tick.now);
  }

  /**
   The ledger ends within the tick's commitment if and only if the bytes counted twice, with the soak
   rows left out, are at most the bytes given back, with the exposure reported for those rows. All four
   are sums over the ledger as it was read.
   */
  lemma LedgerWithinCommitmentIff(tick: Tick, rows: Table, reserved: map<Key, nat>, managed: set<string>,
                                  selected: seq<Torrent>)
    requires DistinctHashes(selected) && "" !in managed
    requires forall k :: At(reserved, k) == Need(rows, tick.now, IgnoreSoak(tick), k)
    ensures
      Total(PlannerRows(rows, managed, selected, tick.now), tick.now, false)
        <= TickCommitment(reserved, selected, tick.external)
      <==> Twice(rows, tick.now, IgnoreSoak(tick), selected) + SoakLeftOut(rows, tick)
             <= GivenBack(rows, tick.now, IgnoreSoak(tick), managed, selected) + tick.external
  {
    hide Total, PlannerRows, TickCommitment, GivenBack, Twice, SoakLeftOut, Need;
    TickBalances(tick, rows, reserved, managed, selected);
  }

  lemma SelectionDistinct(tick: Tick, reserved: map<Key, nat>)
    requires DistinctHashes(tick.snapshots)
    ensures
      var selected := Selection(tick, reserved, Sum(reserved)).selected;
      DistinctHashes(selected) && forall t :: t in selected ==> t in Candidates(tick)
  {
    hide Candidates, Queue, Pick;
    QueueDistinct(tick);
    PicksFromQueue(Queue(tick), reserved, Budget(tick, Sum(reserved)), Slots(tick));
    CandidateElements(tick);
  }

  /**
   The ledger ends under the floor if and only if the tick's commitment does with the bytes counted
   twice and the soak rows left out on one side, and those given back and the exposure on the other.
   */
  lemma LedgerUnderFloorIff(tick: Tick, rows: Table, reserved: map<Key, nat>, managed: set<string>)
    requires DistinctHashes(tick.snapshots) && "" !in managed
    requires forall k :: At(reserved, k) == Need(rows, tick.now, IgnoreSoak(tick), k)
    ensures
      var selected := Selection(tick, reserved, Sum(reserved)).selected;
      && DistinctHashes(selected)
      && (Total(PlannerRows(rows, managed, selected, tick.now), tick.now, false) + tick.cfg.diskFloor <= tick.freeBytes
          <==> TickCommitment(reserved, selected, tick.external) + Twice(rows, tick.now, IgnoreSoak(tick), selected)
                 + SoakLeftOut(rows, tick) + tick.cfg.diskFloor
               <= tick.freeBytes + GivenBack(rows, tick.now, IgnoreSoak(tick), managed, selected) + tick.external)
  {
    hide Total, PlannerRows, TickCommitment, GivenBack, Twice, SoakLeftOut, Need, Selection;
    SelectionDistinct(tick, reserved);
    TickBalances(tick, rows, reserved, managed, Selection(tick, reserved, Sum(reserved)).selected);
  }

  /** The extra bytes the ledger may hold for the selected torrents beside their downloads and batches. */
  ghost function Beside(rows: Table, now: int, ignoreSoak: bool, selected: seq<Torrent>): nat {
    Sum(Keyed(selected, OtherOf(rows, now, ignoreSoak)))
  }

  lemma TwiceAtMostBeside(rows: Table, now: int, ignoreSoak: bool, selected: seq<Torrent>)
    requires DistinctHashes(selected)
    ensures Twice(rows, now, ignoreSoak, selected) <= Beside(rows, now, ignoreSoak, selected)
  {
    hide TwiceOf, Keyed, Other;
    var twice, beside :=
      Keyed(selected, TwiceOf(rows, now, ignoreSoak)), Keyed(selected, OtherOf(rows, now, ignoreSoak));
    forall k ensures At(twice, k) <= At(beside, k) {
      var i := WhichTorrent(selected, k);
      if i < |selected| {
        KeyedAt(selected, TwiceOf(rows, now, ignoreSoak), i);
        KeyedAt(selected, OtherOf(rows, now, ignoreSoak), i);
        TwiceIsBeside(rows, now, ignoreSoak, selected[i]);
      } else {
        KeyedElsewhere(selected, TwiceOf(rows, now, ignoreSoak), k);
        KeyedElsewhere(selected, OtherOf(rows, now, ignoreSoak), k);
      }
    }
    SumMonotone(twice, beside);
  }

  /**
   When what the tick reads and the soak exposure fit under the floor, a normal tick's commitment does
   too, and the ledger it leaves exceeds that by no more than it holds for the selected torrents beside
   their downloads and batches.
   */
  lemma PlannerStaysSolvent(tick: Tick, rows: Table, reserved: map<Key, nat>, managed: set<string>)
    requires DistinctHashes(tick.snapshots) && "" !in managed
    requires TickMode(tick) == Normal
    requires forall k :: At(reserved, k) == Need(rows, tick.now, IgnoreSoak(tick), k)
    requires Total(rows, tick.now, IgnoreSoak(tick)) + tick.external + tick.cfg.diskFloor <= tick.freeBytes
    ensures
      var selected := Selection(tick, reserved, Sum(reserved)).selected;
      && DistinctHashes(selected)
      && TickCommitment(reserved, selected, tick.external) + tick.cfg.diskFloor <= tick.freeBytes
      && (SoakLeftOut(rows, tick) <= tick.external ==>
            Total(PlannerRows(rows, managed, selected, tick.now), tick.now, false) + tick.cfg.diskFloor
              <= tick.freeBytes + Beside(rows, tick.now, IgnoreSoak(tick), selected))
  {
    hide Total, Need, SoakTotal, Pick, Queue, PlannerRows, Committed, Keyed, GivenBack, Twice, Beside, SoakLeftOut;
    SameAsNeeds(rows, tick.now, reserved, IgnoreSoak(tick));
    TickWithinFloor(tick, reserved);
    QueueDistinct(tick);
    PicksFromQueue(Queue(tick), reserved, Budget(tick, Sum(reserved)), Slots(tick));
    var selected := Selection(tick, reserved, Sum(reserved)).selected;
    TickBalances(tick, rows, reserved, managed, selected);
    TwiceAtMostBeside(rows, tick.now, IgnoreSoak(tick), selected);
  }

  /** No candidate of the tick meets the guard. */
  predicate NoneCountsTwice(tick: Tick, rows: Table) {
    forall t :: t in Candidates(tick) ==> !CountsTwice(rows, tick.now, IgnoreSoak(tick), t)
  }

  /**
   A normal tick that starts under the floor, and none of whose candidates meets the guard, ends with
   the whole ledger under the floor.
   */
  lemma LedgerStaysUnderFloor(tick: Tick, rows: Table, reserved: map<Key, nat>, managed: set<string>)
    requires DistinctHashes(tick.snapshots) && "" !in managed
    requires TickMode(tick) == Normal
    requires forall k :: At(reserved, k) == Need(rows, tick.now, IgnoreSoak(tick), k)
    requires Total(rows, tick.now, IgnoreSoak(tick)) + tick.external + tick.cfg.diskFloor <= tick.freeBytes
    requires SoakLeftOut(rows, tick) <= tick.external && NoneCountsTwice(tick, rows)
    ensures
      var selected := Selection(tick, reserved, Sum(reserved)).selected;
      && DistinctHashes(selected)
      && Total(PlannerRows(rows, managed, selected, tick.now), tick.now, false) + tick.cfg.diskFloor <= tick.freeBytes
  {
    hide Total, Need, PlannerRows, TickCommitment, GivenBack, Twice, SoakLeftOut, Selection, CountsTwice, Candidates,
         Beside;
    SelectionDistinct(tick, reserved);
    PlannerStaysSolvent(tick, rows, reserved, managed);
    var selected := Selection(tick, reserved, Sum(reserved)).selected;
    NothingTwiceIff(rows, tick.now, IgnoreSoak(tick), selected);
    LedgerUnderFloorIff(tick, rows, reserved, managed);
  }

  // ---------------------------------------------------------------------------------------------
  // A tick that overdraws the ledger
  // ---------------------------------------------------------------------------------------------

  /** The ledger of a torrent whose one batch has been uploaded and awaits cleanup, and how it is read. */
  function AwaitingCleanup(t: Torrent): Table {
    BatchInvariant.AwaitingCleanup(t.hash, t.amountLeft)
  }

  function CleanupClaim(t: Torrent): map<Key, nat> {
    map[ByHash(t.hash) := t.amountLeft]
  }

  /** A tick without a byte to spare above the floor, and nothing but this torrent in the snapshots. */
  function FullTick(cfg: Config, t: Torrent, now: int): Tick {
    Tick(cfg, [t], cfg.diskFloor + t.amountLeft, {}, {}, {}, 0, now, map[], map[])
  }

  lemma AwaitingCleanupReads(t: Torrent, now: int, k: Key)
    requires t.hash != ""
    ensures At(CleanupClaim(t), k) == Need(AwaitingCleanup(t), now, false, k)
    ensures k == ByHash(t.hash) ==> Col(AwaitingCleanup(t), now, k, RestColumn) == t.amountLeft
  {
    var rows := AwaitingCleanup(t);
    forall c ensures Col(rows, now, k, c) == Part(rows[1], 1, now, k, c) {
      var released := rows[..1];
      assert released[..0] == [] && Part(released[0], 0, now, k, c) == 0;
      assert Col(released, now, k, c) == 0;
    }
  }

  lemma CleanupCountsTwice(t: Torrent, now: int)
    requires t.hash != "" && t.amountLeft > 0
    ensures CountsTwice(AwaitingCleanup(t), now, false, t)
  {
    AwaitingCleanupReads(t, now, ByHash(t.hash));
  }

  lemma OnlyOne(t: Torrent, keep: Torrent -> bool)
    ensures Filter([t], keep) == if keep(t) then [t] else []
    ensures Filter([], keep) == []
  {
    assert [t][..0] == [];
  }

  lemma SortOne(t: Torrent, key: Torrent -> seq<real>)
    ensures Order.Sort([t], key) == [t]
  {
    assert [t][1..] == [];
  }

  lemma OnlyCandidate(cfg: Config, t: Torrent, now: int)
    requires IsManaged(t) && t.amountLeft > 0 && TickMode(FullTick(cfg, t, now)) == Normal
    ensures Queue(FullTick(cfg, t, now)) == [t]
  {
    var tick := FullTick(cfg, t, now);
    OnlyOne(t, MANAGED);
    assert Managed(tick) == [t];
    assert IsCandidate(tick, t);
    OnlyOne(t, CandidateTest(tick));
    SortOne(t, CandidateOrder(tick));
    assert Candidates(tick) == [t];
    OnlyOne(t, ForcedTest(tick));
    OnlyOne(t, RegularTest(tick));
  }

  lemma CleanupIsCredited(cfg: Config, t: Torrent, now: int)
    requires IsManaged(t) && t.amountLeft > 0 && cfg.activeSlots > 0 && TickMode(FullTick(cfg, t, now)) == Normal
    ensures Sum(CleanupClaim(t)) == t.amountLeft
    ensures Selection(FullTick(cfg, t, now), CleanupClaim(t), t.amountLeft).selected == [t]
    ensures TickCommitment(CleanupClaim(t), [t], 0) == t.amountLeft
  {
    hide Queue;
    var tick := FullTick(cfg, t, now);
    OnlyCandidate(cfg, t, now);
    SumSingle(ByHash(t.hash), t.amountLeft);
    assert [t][..0] == [] && [t][0] == t;
    assert Budget(tick, t.amountLeft) == 0;
    assert Pick([], CleanupClaim(t), 0, Slots(tick)) == Picks([], 0);
    assert Extra(CleanupClaim(t), t) == 0;
    assert Fits(Picks([], 0), t, CleanupClaim(t), 0, Slots(tick));
    assert Pick([t], CleanupClaim(t), 0, Slots(tick)).selected == [t];
    assert Committed(CleanupClaim(t), [t]) == CleanupClaim(t);
  }

  lemma TotalAtLeast(rows: Table, now: int, ignoreSoak: bool, k: Key)
    ensures Total(rows, now, ignoreSoak) >= Need(rows, now, ignoreSoak, k)
  {
    AtNeeds(rows, now, ignoreSoak, k);
    SumPick(Needs(rows, now, ignoreSoak), k);
  }

  /**
   A normal tick that starts with the ledger within free bytes less the floor and ends with it above, on
   a ledger that a run from the empty database leaves: a torrent whose uploaded batch is still to be
   cleaned up has those bytes credited against its next download, is selected without a byte to spare,
   and is then held for twice over. The tick's commitment stays under the floor all the same.
   */
  lemma LedgerMayExceedCommitment(cfg: Config, t: Torrent, now: int)
    requires IsManaged(t) && t.hash != "" && t.amountLeft > 0 && cfg.activeSlots > 0
    requires TickMode(FullTick(cfg, t, now)) == Normal
    ensures
      var tick, reserved := FullTick(cfg, t, now), CleanupClaim(t);
      var run := BatchInvariant.UploadedRun(t.hash, t.amountLeft);
      && BatchInvariant.Possible(BatchInvariant.EMPTY, run)
      && var end := BatchInvariant.After(BatchInvariant.EMPTY, run);
      && var rows := end.rows;
      && BatchLifecycle.LedgerInv(end)
      && CountsTwice(rows, now, IgnoreSoak(tick), t)
      && DistinctHashes(tick.snapshots)
      && (forall k :: At(reserved, k) == Need(rows, now, IgnoreSoak(tick), k))
      && Total(rows, now, false) + cfg.diskFloor == tick.freeBytes
      && Selection(tick, reserved, Sum(reserved)).selected == [t]
      && TickCommitment(reserved, [t], 0) + cfg.diskFloor == tick.freeBytes
      && Total(PlannerRows(rows, {t.hash}, [t], now), now, false) + cfg.diskFloor >= tick.freeBytes + t.amountLeft
  {
    hide Total, Col, Need, TickCommitment, CleanupClaim, PlannerRows, Selection, BatchInvariant.AwaitingCleanup,
         CountsTwice,
         BatchInvariant.Possible, BatchInvariant.After, BatchInvariant.UploadedRun, BatchLifecycle.LedgerInv;
    BatchInvariant.UploadedFromEmpty(t.hash, t.amountLeft);
    CleanupCountsTwice(t, now);
    forall k ensures At(CleanupClaim(t), k) == Need(AwaitingCleanup(t), now, false, k) {
      AwaitingCleanupReads(t, now, k);
    }
    SameAsNeeds(AwaitingCleanup(t), now, CleanupClaim(t), false);
    CleanupIsCredited(cfg, t, now);
    var k := ByHash(t.hash);
    AwaitingCleanupReads(t, now, k);
    NeedAfterSync(AwaitingCleanup(t), {t.hash}, [t], now, false, k);
    assert k == ByHash([t][0].hash);
    TotalAtLeast(PlannerRows(AwaitingCleanup(t), {t.hash}, [t], now), now, false, k);
  }
}
