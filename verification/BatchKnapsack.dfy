/**
 The knapsack search used when a torrent has too many files for the exhaustive one: what its table
 means, and how good its answer is.
 */
module BatchKnapsack {
  import opened Options
  import opened Order
  import opened BatchSelection

  const MIB: nat := 1024 * 1024
  const MAX_RANKED: nat := 48

  function Scale(pieceSize: nat): (s: nat)
    ensures MIB <= s <= 64 * MIB && (s <= MIB || s <= pieceSize) && (pieceSize <= s || s == 64 * MIB)
  {
    if pieceSize < MIB then MIB else if pieceSize > 64 * MIB then 64 * MIB else pieceSize
  }

  /** How many whole units make up at least this many bytes. */
  function UnitsUp(bytes: nat, scale: nat): (u: nat)
    requires scale > 0
    ensures bytes <= u * scale < bytes + scale
    ensures bytes == 0 ==> u == 0
  {
    (bytes + scale - 1) / scale
  }

  /** How many whole units fit into this many bytes. */
  function Units(bytes: nat, scale: nat): (u: nat)
    requires scale > 0
    ensures u * scale <= bytes < (u + 1) * scale
  {
    bytes / scale
  }

  /** How many whole units fit into the budget. */
  function Capacity(limits: Limits, budget: nat): (c: nat)
    ensures budget < (c + 1) * Scale(limits.pieceSize)
  {
    Units(budget, Scale(limits.pieceSize))
  }

  /** A file's cost in scale units, rounded up, never free. */
  function Cost(f: FileRow, scale: nat): (c: nat)
    requires scale > 0
    ensures c >= 1
  {
    var units := UnitsUp(Remaining(f), scale);
    if units < 1 then 1 else units
  }

  function CostOf(fs: seq<FileRow>, scale: nat): nat
    requires scale > 0
  {
    if fs == [] then 0 else CostOf(fs[..|fs| - 1], scale) + Cost(fs[|fs| - 1], scale)
  }

  function SingleRank(limits: Limits): FileRow -> seq<real> {
    (f: FileRow) =>
      var r := ReservationFor([f], limits);
      [f.size as real, r.efficiency, f.size as real * Clamp01(f.progress), -(r.reserved as real), -(f.index as real)]
  }

  /** The best single files first, at most forty-eight of them. */
  function Ranked(cands: seq<FileRow>, limits: Limits): seq<FileRow> {
    var ranked := Reverse(Sort(cands, SingleRank(limits)));
    if |ranked| <= MAX_RANKED then ranked else ranked[..MAX_RANKED]
  }

  datatype Entry = Entry(score: seq<real>, selected: seq<FileRow>)

  type States = map<nat, Entry>

  const START: States := map[0 := Entry([0.0], [])]

  /** The entry a file gives when added to a state's selection. */
  function Extended(e: Entry, row: FileRow, limits: Limits): Entry {
    Entry(Score(e.selected + [row], limits), e.selected + [row])
  }

  /** Adding the file to the state at `units - cost` is possible and beats what `units` holds. */
  predicate Gains(states: States, units: nat, cost: nat, row: FileRow, limits: Limits, budget: nat, capacity: nat) {
    && cost <= units <= capacity && units - cost in states
    && Valid(states[units - cost].selected + [row], limits, budget)
    && (units in states ==> LexLt(states[units].score, Score(states[units - cost].selected + [row], limits)))
  }

  function Shifted(keys: set<nat>, cost: nat): set<nat> {
    set k | k in keys :: k + cost
  }

  /** The improved entries one file brings, from some of the states. */
  function Updates(states: States, from: set<nat>, cost: nat, row: FileRow, limits: Limits, budget: nat,
                   capacity: nat): States
    requires from <= states.Keys
  {
    map units | units in Shifted(from, cost) && Gains(states, units, cost, row, limits, budget, capacity) ::
      Extended(states[units - cost], row, limits)
  }

  /** The table after one more file: improved entries replace what was there. */
  function StepDp(states: States, row: FileRow, limits: Limits, budget: nat, capacity: nat): States {
    states + Updates(states, states.Keys, Cost(row, Scale(limits.pieceSize)), row, limits, budget, capacity)
  }

  function Table(rows: seq<FileRow>, limits: Limits, budget: nat, capacity: nat): States {
    if rows == [] then START
    else StepDp(Table(rows[..|rows| - 1], limits, budget, capacity), rows[|rows| - 1], limits, budget, capacity)
  }

  // ---------------------------------------------------------------------------------------------
  // What the table means
  // ---------------------------------------------------------------------------------------------

  /** `sub` takes some of the files of `all`, keeping their order. */
  predicate Subsequence(sub: seq<FileRow>, all: seq<FileRow>) {
    if all == [] then sub == []
    else
      var n := |all| - 1;
      || Subsequence(sub, all[..n])
      || (sub != [] && sub[|sub| - 1] == all[n] && Subsequence(sub[..|sub| - 1], all[..n]))
  }

  /** A key is its files' summed cost, the files are distinct entries of the prefix, and the score is theirs. */
  ghost predicate Meaningful(states: States, rows: seq<FileRow>, limits: Limits, budget: nat) {
    && 0 in states && states[0] == START[0]
    && forall units :: units in states ==>
         && CostOf(states[units].selected, Scale(limits.pieceSize)) == units
         && Subsequence(states[units].selected, rows)
         && (units > 0 ==>
              Valid(states[units].selected, limits, budget)
              && states[units].score == Score(states[units].selected, limits))
  }

  function Gained(states: States, units: nat, cost: nat, row: FileRow, limits: Limits, budget: nat,
                  capacity: nat): Option<Entry> {
    if Gains(states, units, cost, row, limits, budget, capacity) then Some(Extended(states[units - cost], row, limits))
    else None
  }

  lemma StepEntry(states: States, row: FileRow, limits: Limits, budget: nat, capacity: nat, units: nat)
    ensures
      var cost := Cost(row, Scale(limits.pieceSize));
      var after := StepDp(states, row, limits, budget, capacity);
      var gained := Gained(states, units, cost, row, limits, budget, capacity);
      && (units in after <==> units in states || gained.Some?)
      && (units in after ==> after[units] == if gained.Some? then gained.value else states[units])
  {
    hide Valid, Score, LexLe, Cost, Scale;
    var cost := Cost(row, Scale(limits.pieceSize));
    if cost <= units && units - cost in states {
      assert (units - cost) + cost in Shifted(states.Keys, cost);
    }
  }

  lemma {:induction false} TableIsMeaningful(rows: seq<FileRow>, limits: Limits, budget: nat, capacity: nat)
    ensures Meaningful(Table(rows, limits, budget, capacity), rows, limits, budget)
  {
    hide Score, Valid, Cost, Scale, StepDp;
    if rows != [] {
      var n := |rows| - 1;
      TableIsMeaningful(rows[..n], limits, budget, capacity);
      var before := Table(rows[..n], limits, budget, capacity);
      StepIsMeaningful(before, rows, limits, budget, capacity);
    }
  }

  lemma StepIsMeaningful(before: States, rows: seq<FileRow>, limits: Limits, budget: nat, capacity: nat)
    requires rows != [] && Meaningful(before, rows[..|rows| - 1], limits, budget)
    ensures Meaningful(StepDp(before, rows[|rows| - 1], limits, budget, capacity), rows, limits, budget)
  {
    hide Score, Valid, Cost, Scale, StepDp, LexLe;
    var n := |rows| - 1;
    var row := rows[n];
    var cost := Cost(row, Scale(limits.pieceSize));
    var after := StepDp(before, row, limits, budget, capacity);
    forall units | units in after
      ensures CostOf(after[units].selected, Scale(limits.pieceSize)) == units
      ensures Subsequence(after[units].selected, rows)
      ensures units > 0 ==>
        Valid(after[units].selected, limits, budget) && after[units].score == Score(after[units].selected, limits)
    {
      StepEntry(before, row, limits, budget, capacity, units);
      if Gains(before, units, cost, row, limits, budget, capacity) {
        var sel := after[units].selected;
        assert sel[..|sel| - 1] == before[units - cost].selected && sel[|sel| - 1] == row;
      }
    }
    StepEntry(before, row, limits, budget, capacity, 0);
  }

  /** A key, once there, stays, and its score never falls. */
  lemma StepNeverWorse(states: States, row: FileRow, limits: Limits, budget: nat, capacity: nat, units: nat)
    requires units in states
    ensures units in StepDp(states, row, limits, budget, capacity)
    ensures LexLe(states[units].score, StepDp(states, row, limits, budget, capacity)[units].score)
  {
    hide Score, Valid, Cost, LexLe, StepDp, Scale;
    StepEntry(states, row, limits, budget, capacity, units);
    LexTotal(states[units].score, StepDp(states, row, limits, budget, capacity)[units].score);
    LexTotal(states[units].score, states[units].score);
  }

  lemma {:induction false} NeverWorse(rows: seq<FileRow>, n: nat, limits: Limits, budget: nat, capacity: nat,
                                      units: nat)
    requires n <= |rows|
    ensures units in Table(rows[..n], limits, budget, capacity) ==>
      && units in Table(rows, limits, budget, capacity)
      && LexLe(Table(rows[..n], limits, budget, capacity)[units].score,
               Table(rows, limits, budget, capacity)[units].score)
    decreases |rows|
  {
    hide StepDp, LexLe;
    if units !in Table(rows[..n], limits, budget, capacity) {
    } else if n == |rows| {
      assert rows[..n] == rows;
      LexTotal(Table(rows, limits, budget, capacity)[units].score, Table(rows, limits, budget, capacity)[units].score);
    } else {
      var m := |rows| - 1;
      assert rows[..m][..n] == rows[..n];
      NeverWorse(rows[..m], n, limits, budget, capacity, units);
      StepNeverWorse(Table(rows[..m], limits, budget, capacity), rows[m], limits, budget, capacity, units);
      LexTransitive(Table(rows[..n], limits, budget, capacity)[units].score,
                    Table(rows[..m], limits, budget, capacity)[units].score,
                    Table(rows, limits, budget, capacity)[units].score);
    }
  }

  // ---------------------------------------------------------------------------------------------
  // At least as good as any single file
  // ---------------------------------------------------------------------------------------------

  /** Rounding a file's cost up to whole units never costs more than its spill and slack. */
  predicate SlackCoversRounding(limits: Limits) {
    2 * limits.pieceSize + limits.slack >= Scale(limits.pieceSize) - 1
  }

  /** A valid file with bytes left is worth a unit of the budget; a finished one costs a unit all the same. */
  lemma SingleFits(f: FileRow, limits: Limits, budget: nat)
    requires SlackCoversRounding(limits) && Valid([f], limits, budget)
    requires Remaining(f) > 0 || Capacity(limits, budget) > 0
    ensures Capacity(limits, budget) > 0
    ensures Cost(f, Scale(limits.pieceSize)) <= Capacity(limits, budget)
  {
    hide Capacity, Scale, UnitsUp, Remaining, ReservationFor;
    SingleReserved(f, limits);
    var scale := Scale(limits.pieceSize);
    RoundedFits(Remaining(f), UnitsUp(Remaining(f), scale), scale, 2 * limits.pieceSize + limits.slack, budget,
                Capacity(limits, budget));
  }

  lemma RoundedFits(bytes: nat, u: nat, scale: nat, spare: nat, budget: nat, c: nat)
    requires scale > 0 && u * scale < bytes + scale && (bytes == 0 ==> u == 0)
    requires spare >= scale - 1 && (bytes > 0 ==> bytes + spare <= budget)
    requires budget < (c + 1) * scale
    ensures u <= c && (bytes > 0 ==> c > 0)
  {
    if u >= c + 1 {
      MulMonotone(c + 1, u, scale);
    }
  }

  lemma MulMonotone(a: nat, b: nat, d: nat)
    requires a <= b
    ensures a * d <= b * d
  {
    assert b * d == a * d + (b - a) * d;
  }

  lemma SingleReserved(f: FileRow, limits: Limits)
    ensures ReservationFor([f], limits).reserved
         == Remaining(f) + (if Remaining(f) > 0 then 2 * limits.pieceSize else 0) + limits.slack
  {
    hide Remaining;
    assert [f][1..] == [];
    assert SumNat([f], REMAINING) == Remaining(f);
    assert SumNat([f], UNFINISHED) == UNFINISHED(f);
  }

  /** After a valid single file has been processed, its key scores at least as high as the file alone. */
  lemma SingleEnters(rows: seq<FileRow>, i: nat, limits: Limits, budget: nat)
    requires i < |rows| && SlackCoversRounding(limits) && Valid([rows[i]], limits, budget)
    requires Remaining(rows[i]) > 0 || Capacity(limits, budget) > 0
    ensures
      var units := Cost(rows[i], Scale(limits.pieceSize));
      var table := Table(rows, limits, budget, Capacity(limits, budget));
      units in table && LexLe(Score([rows[i]], limits), table[units].score)
  {
    hide Score, Valid, Cost, LexLe, StepDp, Capacity, Scale;
    var capacity := Capacity(limits, budget);
    var units := Cost(rows[i], Scale(limits.pieceSize));
    var before := Table(rows[..i], limits, budget, capacity);
    TableIsMeaningful(rows[..i], limits, budget, capacity);
    SingleFits(rows[i], limits, budget);
    assert rows[..i + 1][..i] == rows[..i];
    assert [] + [rows[i]] == [rows[i]];
    assert before[0].selected + [rows[i]] == [rows[i]];
    var after := Table(rows[..i + 1], limits, budget, capacity);
    assert after == StepDp(before, rows[i], limits, budget, capacity);
    SingleStep(before, rows[i], limits, budget, capacity);
    NeverWorse(rows, i + 1, limits, budget, capacity, units);
    LexTransitive(Score([rows[i]], limits), after[units].score, Table(rows, limits, budget, capacity)[units].score);
  }

  lemma SingleStep(before: States, row: FileRow, limits: Limits, budget: nat, capacity: nat)
    requires 0 in before && before[0].selected + [row] == [row] && Valid([row], limits, budget)
    requires Cost(row, Scale(limits.pieceSize)) <= capacity
    ensures
      var units := Cost(row, Scale(limits.pieceSize));
      var after := StepDp(before, row, limits, budget, capacity);
      units in after && LexLe(Score([row], limits), after[units].score)
  {
    hide Score, Valid, Cost, LexLe, StepDp, Scale;
    var units := Cost(row, Scale(limits.pieceSize));
    var after := StepDp(before, row, limits, budget, capacity);
    StepEntry(before, row, limits, budget, capacity, units);
    LexTotal(Score([row], limits), Score([row], limits));
    if units in before {
      LexTotal(Score([row], limits), before[units].score);
    }
  }

  // ---------------------------------------------------------------------------------------------
  // Never better than the exhaustive search
  // ---------------------------------------------------------------------------------------------

  lemma {:induction false} SubsequenceContents(sub: seq<FileRow>, all: seq<FileRow>)
    requires Subsequence(sub, all)
    ensures multiset(sub) <= multiset(all)
  {
    if all != [] {
      var n := |all| - 1;
      assert all == all[..n] + [all[n]];
      if Subsequence(sub, all[..n]) {
        SubsequenceContents(sub, all[..n]);
      } else {
        SubsequenceContents(sub[..|sub| - 1], all[..n]);
        assert sub == sub[..|sub| - 1] + [sub[|sub| - 1]];
      }
    }
  }

  lemma ChooseCons(cands: seq<FileRow>, take: bool, more: seq<bool>)
    requires cands != [] && |more| == |cands| - 1
    ensures multiset(Choose(cands, [take] + more))
         == (if take then multiset{cands[0]} else multiset{}) + multiset(Choose(cands[1..], more))
  {
  }

  lemma PartOfRest<T>(x: T, part: multiset<T>, rest: multiset<T>)
    requires part <= multiset{x} + rest
    ensures x in part ==> part - multiset{x} <= rest && multiset{x} + (part - multiset{x}) == part
    ensures x !in part ==> part <= rest
  {
  }

  /** Any collection of entries of a list is some marking of it. */
  lemma {:induction false} ContentsAreChosen(cands: seq<FileRow>, part: multiset<FileRow>) returns (marks: seq<bool>)
    requires part <= multiset(cands)
    ensures |marks| == |cands| && multiset(Choose(cands, marks)) == part
  {
    hide Choose;
    if cands == [] {
      marks := [];
      assert Choose(cands, marks) == [] by { NothingToChoose(); }
    } else {
      assert cands == [cands[0]] + cands[1..];
      PartOfRest(cands[0], part, multiset(cands[1..]));
      var take := cands[0] in part;
      var more := ContentsAreChosen(cands[1..], if take then part - multiset{cands[0]} else part);
      ChooseCons(cands, take, more);
      marks := [take] + more;
    }
  }

  lemma NothingToChoose()
    ensures Choose([], []) == []
  {
  }

  lemma {:induction false} ReverseContents<T>(s: seq<T>)
    ensures multiset(Reverse(s)) == multiset(s)
  {
    if s != [] {
      ReverseContents(s[1..]);
      assert s == [s[0]] + s[1..];
    }
  }

  lemma RankedContents(cands: seq<FileRow>, limits: Limits)
    ensures multiset(Ranked(cands, limits)) <= multiset(cands)
  {
    hide Sort, SingleRank;
    var sorted := Sort(cands, SingleRank(limits));
    SortIsSorted(cands, SingleRank(limits));
    ReverseContents(sorted);
    var ranked := Reverse(sorted);
    if |ranked| > MAX_RANKED {
      assert ranked == ranked[..MAX_RANKED] + ranked[MAX_RANKED..];
    }
  }

  /** What the knapsack search promises about its answer. */
  ghost predicate GoodBatch(cands: seq<FileRow>, limits: Limits, budget: nat, best: seq<FileRow>) {
    && (best != [] ==> Valid(best, limits, budget) && multiset(best) <= multiset(cands))
    && (SlackCoversRounding(limits) ==>
          forall f :: f in Ranked(cands, limits) && Valid([f], limits, budget)
                      && (Remaining(f) > 0 || Capacity(limits, budget) > 0)
                      ==> best != [] && LexLe(Score([f], limits), Score(best, limits)))
  }

  /** Against every admissible ranked file that is unfinished, a good batch has the bytes, and wins the ties. */
  ghost predicate BeatsEachRanked(cands: seq<FileRow>, limits: Limits, budget: nat, best: seq<FileRow>) {
    forall f :: f in Ranked(cands, limits) && Admissible([f], limits, budget) && f.size > 0 && f.progress < 1.0 ==>
      best != [] && f.size <= SumNat(best, SIZE) && NoBetter([f], best, limits)
  }

  lemma GoodMeans(cands: seq<FileRow>, limits: Limits, budget: nat, best: seq<FileRow>)
    requires GoodBatch(cands, limits, budget, best)
    ensures best != [] ==> Admissible(best, limits, budget)
    ensures SlackCoversRounding(limits) ==> BeatsEachRanked(cands, limits, budget, best)
  {
    hide Valid, Admissible, Score, NoBetter, Ranked, Remaining, LexLe;
    ValidIsAdmissible(best, limits, budget);
    if SlackCoversRounding(limits) {
      forall f | f in Ranked(cands, limits) && Admissible([f], limits, budget) && f.size > 0 && f.progress < 1.0
        ensures best != [] && f.size <= SumNat(best, SIZE) && NoBetter([f], best, limits)
      {
        ValidIsAdmissible([f], limits, budget);
        RemainingMeans(f);
        ScoreMeans([f], best, limits);
        OneFile(f, best, limits);
      }
    }
  }

  lemma OneFile(f: FileRow, best: seq<FileRow>, limits: Limits)
    requires NoBetter([f], best, limits)
    ensures f.size <= SumNat(best, SIZE)
  {
    hide Share, Spill, SumReal;
    assert [f][1..] == [];
  }

  lemma RankPlace(cands: seq<FileRow>, limits: Limits, f: FileRow) returns (n: nat)
    requires f in cands
    ensures n < |Reverse(Sort(cands, SingleRank(limits)))| && Reverse(Sort(cands, SingleRank(limits)))[n] == f
  {
    hide LexLe, SingleRank;
    var sorted := Sort(cands, SingleRank(limits));
    SortIsSorted(cands, SingleRank(limits));
    assert f in multiset(sorted);
    var p: nat :| p < |sorted| && sorted[p] == f;
    n := |sorted| - 1 - p;
  }

  lemma RankGoesDown(cands: seq<FileRow>, limits: Limits, i: nat, n: nat)
    requires i < n < |Reverse(Sort(cands, SingleRank(limits)))|
    ensures Reverse(Sort(cands, SingleRank(limits)))[n].size <= Reverse(Sort(cands, SingleRank(limits)))[i].size
  {
    hide LexLe, SingleRank, Sort;
    var sorted := Sort(cands, SingleRank(limits));
    SortIsSorted(cands, SingleRank(limits));
    RankLeads(sorted[|sorted| - 1 - n], sorted[|sorted| - 1 - i], limits);
  }

  lemma RankLeads(a: FileRow, b: FileRow, limits: Limits)
    requires LexLe(SingleRank(limits)(a), SingleRank(limits)(b))
    ensures a.size <= b.size
  {
    hide ReservationFor, LexLe;
    LexCons(SingleRank(limits)(a), SingleRank(limits)(b));
  }

  /** At most forty-eight files are ranked, and none that is left out is larger than one of those. */
  lemma RankedAreLargest(cands: seq<FileRow>, limits: Limits, f: FileRow)
    requires f in cands
    ensures |Ranked(cands, limits)| <= 48
    ensures f in Ranked(cands, limits)
         || (|Ranked(cands, limits)| == 48 && forall r :: r in Ranked(cands, limits) ==> f.size <= r.size)
  {
    hide LexLe, SingleRank, Sort, Reverse;
    var all := Reverse(Sort(cands, SingleRank(limits)));
    var n := RankPlace(cands, limits, f);
    if n >= 48 {
      forall i: nat | i < 48 ensures f.size <= all[i].size {
        RankGoesDown(cands, limits, i, n);
      }
    } else {
      StaysInFront(all, n, f);
    }
  }

  lemma StaysInFront(all: seq<FileRow>, n: nat, f: FileRow)
    requires n < |all| && n < 48 && all[n] == f
    ensures f in if |all| <= 48 then all else all[..48]
  {
    if |all| > 48 {
      assert all[..48][n] == f;
    }
  }

  /** The knapsack search finds no batch the exhaustive one does not match or beat on the same candidates. */
  lemma ExactNeverLoses(cands: seq<FileRow>, limits: Limits, budget: nat, dp: seq<FileRow>, exact: seq<FileRow>)
    ensures GoodBatch(cands, limits, budget, dp) && dp != [] && IsBest(cands, limits, budget, exact) ==>
      exact != [] && LexLe(Score(dp, limits), Score(exact, limits))
  {
    hide Score, Valid, LexLe, Ranked, Choose;
    if GoodBatch(cands, limits, budget, dp) && dp != [] && IsBest(cands, limits, budget, exact) {
      var marks := ContentsAreChosen(cands, multiset(dp));
      ScoreRearranged(dp, Choose(cands, marks), limits, budget);
    }
  }

  /** The answer is the selection of the first of the best-scored states, by the order their keys were reached in. */
  ghost predicate IsAnswer(rows: seq<FileRow>, limits: Limits, budget: nat, best: seq<FileRow>) {
    var capacity := Capacity(limits, budget);
    var table := Table(rows, limits, budget, capacity);
    exists found: nat :: FirstBest(table, KeyOrder(rows, limits, budget, capacity), found)
      && (found != 0 ==> found in table)
      && best == if found == 0 then [] else SortedByIndex(table[found].selected)
  }

  method BestKnapsack(cands: seq<FileRow>, limits: Limits, budget: nat) returns (best: seq<FileRow>)
    ensures GoodBatch(cands, limits, budget, best)
    ensures if Capacity(limits, budget) == 0 then best == [] else IsAnswer(Ranked(cands, limits), limits, budget, best)
    ensures SortedBy(best, BY_INDEX)
    ensures best != [] ==> Admissible(best, limits, budget)
    ensures SlackCoversRounding(limits) ==> BeatsEachRanked(cands, limits, budget, best)
  {
    hide Admissible, BeatsEachRanked, Score, Valid, LexLe, Cost, Ranked, Table, StepDp, Scale, Capacity, FirstBest,
         ListsKeys, KeyOrder, Remaining;
    var capacity := Capacity(limits, budget);
    if capacity == 0 {
      NothingWorthAUnit(cands, limits, budget);
      GoodMeans(cands, limits, budget, []);
      return [];
    }
    var ranked := Ranked(cands, limits);
    var states, order := START, [0];
    TableStart(ranked, limits, budget, capacity);
    for i := 0 to |ranked|
      invariant states == Table(ranked[..i], limits, budget, capacity)
      invariant order == KeyOrder(ranked[..i], limits, budget, capacity)
    {
      TableNext(ranked, limits, budget, capacity, i);
      KeyOrderLists(ranked[..i], limits, budget, capacity);
      states, order := ExtendAll(states, order, ranked[i], limits, budget, capacity);
    }
    assert ranked[..|ranked|] == ranked;
    TableIsMeaningful(ranked, limits, budget, capacity);
    KeyOrderLists(ranked, limits, budget, capacity);
    var found := BestEntry(states, order);
    FirstBestMeans(states, order, found);
    if found == 0 {
      NoEntry(cands, limits, budget, states);
      GoodMeans(cands, limits, budget, []);
      return [];
    }
    best := SortedByIndex(states[found].selected);
    SortIsSorted(states[found].selected, BY_INDEX);
    ScoreRearranged(states[found].selected, best, limits, budget);
    EntryIsGood(cands, limits, budget, states, found, best);
    GoodMeans(cands, limits, budget, best);
  }

  lemma NothingWorthAUnit(cands: seq<FileRow>, limits: Limits, budget: nat)
    requires Capacity(limits, budget) == 0
    ensures GoodBatch(cands, limits, budget, [])
  {
    hide Score, Valid, LexLe, Ranked, Capacity, Remaining;
    if SlackCoversRounding(limits) {
      forall f | f in Ranked(cands, limits) && Remaining(f) > 0 ensures !Valid([f], limits, budget) {
        NotWorthAUnit(f, limits, budget);
      }
    }
  }

  lemma NotWorthAUnit(f: FileRow, limits: Limits, budget: nat)
    requires SlackCoversRounding(limits) && Remaining(f) > 0 && Capacity(limits, budget) == 0
    ensures !Valid([f], limits, budget)
  {
    hide Valid, Remaining, Cost;
    if Valid([f], limits, budget) {
      SingleFits(f, limits, budget);
    }
  }

  lemma TableStart(rows: seq<FileRow>, limits: Limits, budget: nat, capacity: nat)
    ensures Table(rows[..0], limits, budget, capacity) == START
    ensures KeyOrder(rows[..0], limits, budget, capacity) == [0]
  {
  }

  lemma TableNext(rows: seq<FileRow>, limits: Limits, budget: nat, capacity: nat, i: nat)
    requires i < |rows|
    ensures Table(rows[..i + 1], limits, budget, capacity)
      == StepDp(Table(rows[..i], limits, budget, capacity), rows[i], limits, budget, capacity)
    ensures KeyOrder(rows[..i + 1], limits, budget, capacity)
         == KeyOrder(rows[..i], limits, budget, capacity)
            + NewKeys(KeyOrder(rows[..i], limits, budget, capacity), Table(rows[..i], limits, budget, capacity),
                      Cost(rows[i], Scale(limits.pieceSize)), rows[i], limits, budget, capacity)
  {
    hide StepDp, NewKeys, Cost, Scale;
    assert rows[..i + 1][..i] == rows[..i];
  }

  lemma NoEntry(cands: seq<FileRow>, limits: Limits, budget: nat, states: States)
    requires states == Table(Ranked(cands, limits), limits, budget, Capacity(limits, budget))
    requires forall units :: units in states ==> units == 0
    ensures GoodBatch(cands, limits, budget, [])
  {
    hide Score, Valid, LexLe, Ranked, Table, Capacity, Scale, Remaining;
    if SlackCoversRounding(limits) {
      forall f | f in Ranked(cands, limits) && (Remaining(f) > 0 || Capacity(limits, budget) > 0)
        ensures !Valid([f], limits, budget) {
        var i: nat :| i < |Ranked(cands, limits)| && Ranked(cands, limits)[i] == f;
        if Valid([f], limits, budget) {
          SingleEnters(Ranked(cands, limits), i, limits, budget);
        }
      }
    }
  }

  lemma EntryIsGood(cands: seq<FileRow>, limits: Limits, budget: nat, states: States, found: nat, best: seq<FileRow>)
    requires states == Table(Ranked(cands, limits), limits, budget, Capacity(limits, budget))
    requires found in states && found > 0
    requires forall units :: units in states && units > 0 ==> LexLe(states[units].score, states[found].score)
    requires multiset(best) == multiset(states[found].selected)
    requires Score(best, limits) == Score(states[found].selected, limits)
    requires Valid(best, limits, budget) == Valid(states[found].selected, limits, budget)
    ensures best != [] && GoodBatch(cands, limits, budget, best)
  {
    hide Score, LexLe, Ranked, Table, Cost, Capacity, Scale, Remaining;
    var ranked := Ranked(cands, limits);
    TableIsMeaningful(ranked, limits, budget, Capacity(limits, budget));
    SubsequenceContents(states[found].selected, ranked);
    RankedContents(cands, limits);
    if SlackCoversRounding(limits) {
      forall f | f in ranked && Valid([f], limits, budget) && (Remaining(f) > 0 || Capacity(limits, budget) > 0)
        ensures LexLe(Score([f], limits), Score(best, limits)) {
        var i: nat :| i < |ranked| && ranked[i] == f;
        SingleEnters(ranked, i, limits, budget);
        var units := Cost(f, Scale(limits.pieceSize));
        LexTransitive(Score([f], limits), states[units].score, states[found].score);
      }
    }
  }

  // ---------------------------------------------------------------------------------------------
  // The order in which keys are reached
  // ---------------------------------------------------------------------------------------------

  /** The keys one file reaches for the first time, in the order of the states they are reached from. */
  function NewKeys(order: seq<nat>, states: States, cost: nat, row: FileRow, limits: Limits, budget: nat,
                   capacity: nat): seq<nat> {
    if order == [] then []
    else
      var n := |order| - 1;
      var units := order[n] + cost;
      NewKeys(order[..n], states, cost, row, limits, budget, capacity)
      + if Gains(states, units, cost, row, limits, budget, capacity) && units !in states then [units] else []
  }

  /** The table's keys as its dictionary lists them: a key keeps its place when its entry is improved. */
  function KeyOrder(rows: seq<FileRow>, limits: Limits, budget: nat, capacity: nat): seq<nat> {
    if rows == [] then [0]
    else
      var n := |rows| - 1;
      var before := KeyOrder(rows[..n], limits, budget, capacity);
      before + NewKeys(before, Table(rows[..n], limits, budget, capacity), Cost(rows[n], Scale(limits.pieceSize)),
                       rows[n], limits, budget, capacity)
  }

  ghost predicate ListsKeys(order: seq<nat>, states: States) {
    && (forall i, j :: 0 <= i < j < |order| ==> order[i] != order[j])
    && forall k: nat :: k in order <==> k in states
  }

  lemma {:induction false} NewKeysAre(order: seq<nat>, states: States, cost: nat, row: FileRow, limits: Limits,
                                      budget: nat, capacity: nat)
    requires forall i, j :: 0 <= i < j < |order| ==> order[i] != order[j]
    ensures
      var keys := NewKeys(order, states, cost, row, limits, budget, capacity);
      && (forall k: nat :: k in keys <==>
            k >= cost && k - cost in order && Gains(states, k, cost, row, limits, budget, capacity) && k !in states)
      && (forall i, j :: 0 <= i < j < |keys| ==> keys[i] != keys[j])
  {
    hide Gains;
    if order != [] {
      var n := |order| - 1;
      NewKeysAre(order[..n], states, cost, row, limits, budget, capacity);
      var before := NewKeys(order[..n], states, cost, row, limits, budget, capacity);
      forall k: nat ensures k in order <==> k in order[..n] || k == order[n] {
      }
      assert order[n] !in order[..n];
      assert order[n] + cost !in before;
      assert forall i :: 0 <= i < |before| ==> before[i] in before;
    }
  }

  lemma {:induction false} KeyOrderLists(rows: seq<FileRow>, limits: Limits, budget: nat, capacity: nat)
    ensures ListsKeys(KeyOrder(rows, limits, budget, capacity), Table(rows, limits, budget, capacity))
  {
    if rows != [] {
      hide Cost, Scale, NewKeys;
      var n := |rows| - 1;
      KeyOrderLists(rows[..n], limits, budget, capacity);
      OrderGrows(KeyOrder(rows[..n], limits, budget, capacity), Table(rows[..n], limits, budget, capacity), rows[n],
                 limits, budget, capacity);
    }
  }

  lemma OrderGrows(order: seq<nat>, states: States, row: FileRow, limits: Limits, budget: nat, capacity: nat)
    requires ListsKeys(order, states)
    ensures
      var cost := Cost(row, Scale(limits.pieceSize));
      ListsKeys(order + NewKeys(order, states, cost, row, limits, budget, capacity),
                StepDp(states, row, limits, budget, capacity))
  {
    hide Cost, Scale, StepDp, Valid, Score, LexLe, NewKeys;
    var cost := Cost(row, Scale(limits.pieceSize));
    NewKeysAre(order, states, cost, row, limits, budget, capacity);
    var keys := NewKeys(order, states, cost, row, limits, budget, capacity);
    forall k: nat ensures k in order + keys <==> k in StepDp(states, row, limits, budget, capacity) {
      StepEntry(states, row, limits, budget, capacity, k);
    }
    assert forall i :: 0 <= i < |order| ==> order[i] in order;
    assert forall i :: 0 <= i < |keys| ==> keys[i] in keys;
  }

  /** The first, in order, of the best-scored states that select something, or zero when there is none. */
  ghost predicate FirstBest(states: States, order: seq<nat>, found: nat) {
    if found == 0 then forall i :: 0 <= i < |order| ==> order[i] == 0
    else exists p: nat :: p < |order| && order[p] == found && found in states && BestAt(states, order, p, |order|)
  }

  ghost predicate BestAt(states: States, order: seq<nat>, p: nat, upTo: nat)
    requires p < upTo <= |order|
  {
    && order[p] in states
    && forall i :: 0 <= i < upTo && order[i] > 0 && order[i] in states ==>
         LexLe(states[order[i]].score, states[order[p]].score)
           && (i < p ==> LexLt(states[order[i]].score, states[order[p]].score))
  }

  lemma FirstBestMeans(states: States, order: seq<nat>, found: nat)
    requires ListsKeys(order, states) && FirstBest(states, order, found)
    ensures found == 0 ==> forall units :: units in states ==> units == 0
    ensures found != 0 ==> found in states && forall units :: units in states && units > 0 ==>
      LexLe(states[units].score, states[found].score)
  {
    hide LexLe;
    forall units | units in states ensures exists i :: 0 <= i < |order| && order[i] == units {
      assert units in order;
    }
  }

  /** There is only one such state, so the search's answer is determined. */
  lemma AnswerIsDetermined(rows: seq<FileRow>, limits: Limits, budget: nat, best1: seq<FileRow>, best2: seq<FileRow>)
    requires IsAnswer(rows, limits, budget, best1) && IsAnswer(rows, limits, budget, best2)
    ensures best1 == best2
  {
    hide Table, KeyOrder, LexLe;
    var table, order :=
      Table(rows, limits, budget, Capacity(limits, budget)), KeyOrder(rows, limits, budget, Capacity(limits, budget));
    var f1: nat :| FirstBest(table, order, f1) && (f1 != 0 ==> f1 in table)
      && best1 == if f1 == 0 then [] else SortedByIndex(table[f1].selected);
    var f2: nat :| FirstBest(table, order, f2) && (f2 != 0 ==> f2 in table)
      && best2 == if f2 == 0 then [] else SortedByIndex(table[f2].selected);
    OneFirstBest(table, order, f1, f2);
  }

  lemma OneFirstBest(states: States, order: seq<nat>, f1: nat, f2: nat)
    requires FirstBest(states, order, f1) && FirstBest(states, order, f2)
    ensures f1 == f2
  {
    hide LexLe;
  }

  /** One file against every state, each improvement noted in a table of its own first. */
  method ExtendAll(states: States, order: seq<nat>, row: FileRow, limits: Limits, budget: nat, capacity: nat)
    returns (after: States, afterOrder: seq<nat>)
    requires ListsKeys(order, states)
    ensures after == StepDp(states, row, limits, budget, capacity)
    ensures afterOrder
      == order + NewKeys(order, states, Cost(row, Scale(limits.pieceSize)), row, limits, budget, capacity)
  {
    hide Score, Valid, LexLe, Cost, Scale, Updates, NewKeys;
    var cost := Cost(row, Scale(limits.pieceSize));
    var updates: States := map[];
    var reached: seq<nat> := [];
    NoUpdates(states, order, cost, row, limits, budget, capacity);
    for i := 0 to |order|
      invariant Reached(order, i) <= states.Keys
      invariant updates == Updates(states, Reached(order, i), cost, row, limits, budget, capacity)
      invariant reached == NewKeys(order[..i], states, cost, row, limits, budget, capacity)
    {
      var used := order[i];
      assert used in order;
      ReachedNext(order, i);
      NewKeysNext(order, i, states, cost, row, limits, budget, capacity);
      UpdatesNext(states, Reached(order, i), used, cost, row, limits, budget, capacity);
      var units := used + cost;
      if units > capacity {
        continue;
      }
      var candidate := states[used].selected + [row];
      var score := ScoreIfValid(candidate, limits, budget);
      if score.None? {
        continue;
      }
      var current := if units in states then Some(states[units]) else Noted(updates, units);
      if current.None? || LexLt(current.value.score, score.value) {
        if units !in states {
          reached := reached + [units];
        }
        updates := updates[units := Entry(score.value, candidate)];
      }
    }
    ReachedAll(order, states);
    assert order[..|order|] == order;
    after := states + updates;
    afterOrder := order + reached;
  }

  function Noted(updates: States, units: nat): Option<Entry> {
    if units in updates then Some(updates[units]) else None
  }

  function Reached(order: seq<nat>, i: nat): set<nat>
    requires i <= |order|
  {
    set u | u in order[..i]
  }

  lemma ReachedNext(order: seq<nat>, i: nat)
    requires i < |order| && forall a, b :: 0 <= a < b < |order| ==> order[a] != order[b]
    ensures Reached(order, i + 1) == Reached(order, i) + {order[i]} && order[i] !in Reached(order, i)
  {
    assert order[..i + 1] == order[..i] + [order[i]];
  }

  lemma ReachedAll(order: seq<nat>, states: States)
    requires ListsKeys(order, states)
    ensures Reached(order, |order|) == states.Keys
  {
    assert order[..|order|] == order;
  }

  lemma NewKeysNext(order: seq<nat>, i: nat, states: States, cost: nat, row: FileRow, limits: Limits, budget: nat,
                    capacity: nat)
    requires i < |order|
    ensures NewKeys(order[..i + 1], states, cost, row, limits, budget, capacity) ==
      NewKeys(order[..i], states, cost, row, limits, budget, capacity)
      + if Gains(states, order[i] + cost, cost, row, limits, budget, capacity) && order[i] + cost !in states
        then [order[i] + cost] else []
  {
    hide Gains;
    assert order[..i + 1][..i] == order[..i];
  }

  lemma NoUpdates(states: States, order: seq<nat>, cost: nat, row: FileRow, limits: Limits, budget: nat, capacity: nat)
    ensures Reached(order, 0) == {}
    ensures Updates(states, {}, cost, row, limits, budget, capacity) == map[]
    ensures NewKeys(order[..0], states, cost, row, limits, budget, capacity) == []
  {
  }

  /** States are shifted by the same cost, so no two of them compete for a key. */
  lemma UpdatesNext(states: States, from: set<nat>, used: nat, cost: nat, row: FileRow, limits: Limits, budget: nat,
                    capacity: nat)
    requires from <= states.Keys && used in states && used !in from
    ensures used + cost !in Updates(states, from, cost, row, limits, budget, capacity)
    ensures Updates(states, from + {used}, cost, row, limits, budget, capacity) ==
      if Gains(states, used + cost, cost, row, limits, budget, capacity)
      then Updates(states, from, cost, row, limits, budget, capacity)[used + cost :=
        Extended(states[used], row, limits)]
      else Updates(states, from, cost, row, limits, budget, capacity)
  {
    hide Gains, Extended;
    assert Shifted(from + {used}, cost) == Shifted(from, cost) + {used + cost};
  }

  /** `max` over the dictionary: a later state replaces the best so far only if it scores higher. */
  method BestEntry(states: States, order: seq<nat>) returns (found: nat)
    requires ListsKeys(order, states)
    ensures FirstBest(states, order, found)
  {
    hide LexLe;
    found := 0;
    ghost var p := 0;
    for i := 0 to |order|
      invariant found == 0 ==> forall k :: 0 <= k < i ==> order[k] == 0
      invariant found != 0 ==> p < i && order[p] == found && BestAt(states, order, p, i)
    {
      var units := order[i];
      assert units in order;
      if units > 0 && (found == 0 || LexLt(states[found].score, states[units].score)) {
        if found != 0 {
          NewBest(states, order, p, i);
        } else {
          LexTotal(states[units].score, states[units].score);
        }
        found, p := units, i;
      } else if units > 0 {
        LexTotal(states[units].score, states[found].score);
      }
    }
  }

  lemma NewBest(states: States, order: seq<nat>, p: nat, i: nat)
    requires p < i < |order| && BestAt(states, order, p, i) && order[i] in states
    requires LexLt(states[order[p]].score, states[order[i]].score)
    ensures BestAt(states, order, i, i + 1)
  {
    var best, next := states[order[p]].score, states[order[i]].score;
    LexTotal(best, next);
    LexTotal(next, next);
    forall k | 0 <= k < i && order[k] > 0 && order[k] in states
      ensures LexLe(states[order[k]].score, next) && LexLt(states[order[k]].score, next) {
      var score := states[order[k]].score;
      LexTransitive(score, best, next);
      if LexLe(next, score) {
        LexTransitive(next, score, best);
      }
    }
  }
}
