/**
 Which files of a torrent go into its next batch: what a selection reserves, how selections are
 scored, and the exhaustive search over all of them.
 */
module BatchSelection {
  import opened Options
  import opened Order
  import opened Rounding

  /** A file as qBittorrent lists it; `mediaName` says its name is a wanted media file's. */
  datatype FileRow = FileRow(index: nat, size: nat, progress: real, mediaName: bool)

  datatype Limits = Limits(pieceSize: nat, slack: nat, maxBatchBytes: nat, liveCap: Option<nat>)

  datatype Reservation = Reservation(payload: nat, overhead: nat, reserved: nat, efficiency: real)

  const MIN_MEDIA_BYTES: nat := 50 * 1024 * 1024

  predicate Selectable(f: FileRow) {
    f.mediaName && f.size >= MIN_MEDIA_BYTES
  }

  function Clamp01(x: real): real {
    if x < 0.0 then 0.0 else if x > 1.0 then 1.0 else x
  }

  /** The bytes a file still needs; an unfinished file always needs at least one. */
  function Remaining(f: FileRow): nat {
    var p := Clamp01(f.progress);
    if f.size == 0 || p >= 1.0 then 0
    else
      var bytes := RoundHalfEven(f.size as real * (1.0 - p));
      if bytes < 1 then 1 else bytes
  }

  function SumNat(fs: seq<FileRow>, f: FileRow -> nat): nat {
    if fs == [] then 0 else f(fs[0]) + SumNat(fs[1..], f)
  }

  function SumReal(fs: seq<FileRow>, f: FileRow -> real): real {
    if fs == [] then 0.0 else f(fs[0]) + SumReal(fs[1..], f)
  }

  const SIZE: FileRow -> nat := (f: FileRow) => f.size
  const REMAINING: FileRow -> nat := (f: FileRow) => Remaining(f)
  const UNFINISHED: FileRow -> nat := (f: FileRow) => if Remaining(f) > 0 then 1 else 0
  const INDEX: FileRow -> nat := (f: FileRow) => f.index
  const PROGRESSED: FileRow -> real := (f: FileRow) => f.size as real * Clamp01(f.progress)

  /** Remaining bytes, two pieces of spill when anything remains, and the filesystem's slack. */
  function ReservationFor(fs: seq<FileRow>, limits: Limits): Reservation {
    var payload := SumNat(fs, REMAINING);
    var overhead := if SumNat(fs, UNFINISHED) == 0 then 0 else 2 * limits.pieceSize;
    var reserved := payload + overhead + limits.slack;
    Reservation(SumNat(fs, SIZE), overhead, reserved, if reserved == 0 then 1.0 else payload as real / reserved as real)
  }

  predicate OverLiveCap(limits: Limits, reserved: nat) {
    limits.liveCap.Some? && reserved > limits.liveCap.value
  }

  predicate Valid(fs: seq<FileRow>, limits: Limits, budget: nat) {
    && fs != []
    && 0 < SumNat(fs, SIZE) <= limits.maxBatchBytes
    && ReservationFor(fs, limits).reserved <= budget
    && !OverLiveCap(limits, ReservationFor(fs, limits).reserved)
  }

  function Score(fs: seq<FileRow>, limits: Limits): seq<real> {
    var r := ReservationFor(fs, limits);
    [r.payload as real, r.efficiency, SumReal(fs, PROGRESSED), -(r.overhead as real), -(|fs| as real),
     -(SumNat(fs, INDEX) as real)]
  }

  function ScoreIfValid(fs: seq<FileRow>, limits: Limits, budget: nat): Option<seq<real>> {
    if Valid(fs, limits, budget) then Some(Score(fs, limits)) else None
  }

  // ---------------------------------------------------------------------------------------------
  // Order does not matter
  // ---------------------------------------------------------------------------------------------

  lemma {:induction false} SumTakeOut(fs: seq<FileRow>, p: nat, f: FileRow -> nat, g: FileRow -> real)
    requires p < |fs|
    ensures SumNat(fs, f) == f(fs[p]) + SumNat(fs[..p] + fs[p + 1..], f)
    ensures SumReal(fs, g) == g(fs[p]) + SumReal(fs[..p] + fs[p + 1..], g)
  {
    var rest := fs[..p] + fs[p + 1..];
    if p == 0 {
      assert rest == fs[1..];
    } else {
      SumTakeOut(fs[1..], p - 1, f, g);
      assert rest[1..] == fs[1..][..p - 1] + fs[1..][p..];
      assert rest[0] == fs[0];
    }
  }

  lemma TakeOutContents(fs: seq<FileRow>, p: nat)
    requires p < |fs|
    ensures multiset(fs) == multiset{fs[p]} + multiset(fs[..p] + fs[p + 1..])
  {
    assert fs == fs[..p] + [fs[p]] + fs[p + 1..];
  }

  lemma CancelOne<T>(x: T, a: multiset<T>, b: multiset<T>)
    requires multiset{x} + a == multiset{x} + b
    ensures a == b
  {
    assert a == multiset{x} + a - multiset{x};
    assert b == multiset{x} + b - multiset{x};
  }

  lemma {:induction false} SumRearranged(a: seq<FileRow>, b: seq<FileRow>, f: FileRow -> nat, g: FileRow -> real)
    requires multiset(a) == multiset(b)
    ensures SumNat(a, f) == SumNat(b, f) && SumReal(a, g) == SumReal(b, g) && |a| == |b|
    decreases |a|
  {
    if a == [] {
      assert |multiset(b)| == |b|;
    } else {
      assert a[0] in multiset(b);
      var p: nat :| p < |b| && b[p] == a[0];
      var rest := b[..p] + b[p + 1..];
      TakeOutContents(a, 0);
      TakeOutContents(b, p);
      assert a[..0] + a[1..] == a[1..];
      SumTakeOut(b, p, f, g);
      CancelOne(a[0], multiset(a[1..]), multiset(rest));
      SumRearranged(a[1..], rest, f, g);
    }
  }

  /** A selection's validity and score do not depend on the order of its files. */
  lemma ScoreRearranged(a: seq<FileRow>, b: seq<FileRow>, limits: Limits, budget: nat)
    requires multiset(a) == multiset(b)
    ensures Valid(a, limits, budget) == Valid(b, limits, budget)
    ensures Score(a, limits) == Score(b, limits)
  {
    SumRearranged(a, b, SIZE, PROGRESSED);
    SumRearranged(a, b, REMAINING, PROGRESSED);
    SumRearranged(a, b, UNFINISHED, PROGRESSED);
    SumRearranged(a, b, INDEX, PROGRESSED);
  }

  const BY_INDEX: FileRow -> seq<real> := (f: FileRow) => [f.index as real]

  function SortedByIndex(fs: seq<FileRow>): seq<FileRow> {
    Sort(fs, BY_INDEX)
  }

  // ---------------------------------------------------------------------------------------------
  // What the search looks for
  // ---------------------------------------------------------------------------------------------

  /** Spill into neighbouring pieces costs two pieces, unless nothing is left to download. */
  function Spill(fs: seq<FileRow>, limits: Limits): nat {
    if forall f :: f in fs ==> f.size == 0 || f.progress >= 1.0 then 0 else 2 * limits.pieceSize
  }

  /** The bytes a batch claims on disk: what is left, the spill, and the filesystem's slack. */
  function Claim(fs: seq<FileRow>, limits: Limits): nat {
    SumNat(fs, REMAINING) + Spill(fs, limits) + limits.slack
  }

  /** A batch within all limits. */
  predicate Admissible(fs: seq<FileRow>, limits: Limits, budget: nat) {
    && fs != []
    && 0 < SumNat(fs, SIZE) <= limits.maxBatchBytes
    && Claim(fs, limits) <= budget
    && (limits.liveCap.Some? ==> Claim(fs, limits) <= limits.liveCap.value)
  }

  /** The part of the claim that is wanted. */
  function Share(fs: seq<FileRow>, limits: Limits): real {
    if Claim(fs, limits) == 0 then 1.0 else SumNat(fs, REMAINING) as real / Claim(fs, limits) as real
  }

  /**
   More bytes first; then the better share of what is claimed, more bytes already there, less spill,
   fewer files and smaller indices.
   */
  predicate NoBetter(a: seq<FileRow>, b: seq<FileRow>, limits: Limits) {
    var sizeA, sizeB := SumNat(a, SIZE), SumNat(b, SIZE);
    var shareA, shareB := Share(a, limits), Share(b, limits);
    var thereA, thereB := SumReal(a, PROGRESSED), SumReal(b, PROGRESSED);
    var spillA, spillB := Spill(a, limits), Spill(b, limits);
    || sizeA < sizeB
    || (sizeA == sizeB && (
          || shareA < shareB
          || (shareA == shareB && (
                || thereA < thereB
                || (thereA == thereB && (
                      || spillA > spillB
                      || (spillA == spillB && (
                            || |a| > |b|
                            || (|a| == |b| && SumNat(a, INDEX) >= SumNat(b, INDEX))))))))))
  }

  /** A file needs bytes unless it is empty or finished, and what it needs is its size less its progress. */
  lemma RemainingMeans(f: FileRow)
    ensures Remaining(f) == 0 <==> f.size == 0 || f.progress >= 1.0
    ensures 0.0 <= f.progress < 1.0 && f.size > 0 ==>
      var left := f.size as real * (1.0 - f.progress);
      Remaining(f) == 1 || -0.5 <= Remaining(f) as real - left <= 0.5
    ensures f.progress < 0.0 ==> Remaining(f) == f.size
  {
    if f.progress < 0.0 && f.size > 0 {
      assert f.size as real * (1.0 - 0.0) == f.size as real;
    }
  }

  lemma {:induction false} NothingUnfinished(fs: seq<FileRow>)
    ensures SumNat(fs, UNFINISHED) == 0 <==> forall f :: f in fs ==> f.size == 0 || f.progress >= 1.0
  {
    if fs != [] {
      NothingUnfinished(fs[1..]);
      RemainingMeans(fs[0]);
      assert fs == [fs[0]] + fs[1..];
      hide Remaining;
    }
  }

  lemma ReservationIsClaim(fs: seq<FileRow>, limits: Limits)
    ensures
      var r := ReservationFor(fs, limits);
      r.payload == SumNat(fs, SIZE) && r.overhead == Spill(fs, limits) && r.reserved == Claim(fs, limits)
      && r.efficiency == Share(fs, limits)
  {
    NothingUnfinished(fs);
  }

  /** A selection is scored exactly if it is admissible. */
  lemma ValidIsAdmissible(fs: seq<FileRow>, limits: Limits, budget: nat)
    ensures Valid(fs, limits, budget) <==> Admissible(fs, limits, budget)
  {
    hide SumNat, Spill;
    ReservationIsClaim(fs, limits);
  }

  lemma LexSix(a: seq<real>, b: seq<real>)
    requires |a| == |b| == 6
    ensures LexLe(a, b) <==>
      || a[0] < b[0]
      || (a[0] == b[0] && (
            || a[1] < b[1]
            || (a[1] == b[1] && (
                  || a[2] < b[2]
                  || (a[2] == b[2] && (
                        || a[3] < b[3]
                        || (a[3] == b[3] && (a[4] < b[4] || (a[4] == b[4] && a[5] <= b[5])))))))))
  {
    LexCons(a, b);
    LexCons(a[1..], b[1..]);
    LexCons(a[2..], b[2..]);
    LexCons(a[3..], b[3..]);
    LexCons(a[4..], b[4..]);
    LexCons(a[5..], b[5..]);
  }

  lemma LexCons(a: seq<real>, b: seq<real>)
    requires a != [] && b != []
    ensures LexLe(a, b) <==> a[0] < b[0] || (a[0] == b[0] && LexLe(a[1..], b[1..]))
  {
  }

  /** A higher score is just that preference. */
  lemma ScoreMeans(a: seq<FileRow>, b: seq<FileRow>, limits: Limits)
    ensures LexLe(Score(a, limits), Score(b, limits)) <==> NoBetter(a, b, limits)
  {
    hide SumNat, SumReal, Spill, Share, LexLe;
    ReservationIsClaim(a, limits);
    ReservationIsClaim(b, limits);
    LexSix(Score(a, limits), Score(b, limits));
  }

  // ---------------------------------------------------------------------------------------------
  // Masks and subsets
  // ---------------------------------------------------------------------------------------------

  /** Bit i of a mask. */
  predicate Bit(mask: nat, i: nat)
    decreases i
  {
    if i == 0 then mask % 2 == 1 else Bit(mask / 2, i - 1)
  }

  /** The candidates whose bit is set, in order, from candidate i on. */
  function PickFrom(cands: seq<FileRow>, mask: nat, i: nat): seq<FileRow>
    requires i <= |cands|
    decreases |cands| - i
  {
    if i == |cands| then []
    else (if Bit(mask, i) then [cands[i]] else []) + PickFrom(cands, mask, i + 1)
  }

  function PickMask(cands: seq<FileRow>, mask: nat): seq<FileRow> {
    PickFrom(cands, mask, 0)
  }

  /** Any subset of the candidates: one mark each, taken or not. */
  function Choose(cands: seq<FileRow>, marks: seq<bool>): seq<FileRow>
    requires |marks| == |cands|
  {
    if cands == [] then []
    else (if marks[0] then [cands[0]] else []) + Choose(cands[1..], marks[1..])
  }

  function Pow2(n: nat): nat {
    if n == 0 then 1 else 2 * Pow2(n - 1)
  }

  function MaskOf(marks: seq<bool>): nat {
    if marks == [] then 0 else (if marks[0] then 1 else 0) + 2 * MaskOf(marks[1..])
  }

  function MarksOf(mask: nat, n: nat): seq<bool> {
    seq(n, i requires 0 <= i < n => Bit(mask, i))
  }

  lemma {:induction false} MaskBits(marks: seq<bool>)
    ensures MaskOf(marks) < Pow2(|marks|)
    ensures forall i: nat :: i < |marks| ==> Bit(MaskOf(marks), i) == marks[i]
  {
    if marks != [] {
      MaskBits(marks[1..]);
      assert MaskOf(marks) / 2 == MaskOf(marks[1..]);
      forall i: nat | i < |marks| ensures Bit(MaskOf(marks), i) == marks[i] {
        if i > 0 {
          assert Bit(MaskOf(marks[1..]), i - 1) == marks[1..][i - 1];
        }
      }
    }
  }

  lemma {:induction false} PickIsChoose(cands: seq<FileRow>, mask: nat, i: nat, marks: seq<bool>)
    requires i <= |cands| == |marks|
    requires forall j: nat :: i <= j < |cands| ==> Bit(mask, j) == marks[j]
    ensures PickFrom(cands, mask, i) == Choose(cands[i..], marks[i..])
    decreases |cands| - i
  {
    if i < |cands| {
      PickIsChoose(cands, mask, i + 1, marks);
      assert cands[i..][1..] == cands[i + 1..] && marks[i..][1..] == marks[i + 1..];
    }
  }

  /** Every mask below 2^n picks a subset. */
  lemma MaskIsSubset(cands: seq<FileRow>, mask: nat)
    ensures PickMask(cands, mask) == Choose(cands, MarksOf(mask, |cands|))
  {
    PickIsChoose(cands, mask, 0, MarksOf(mask, |cands|));
    assert cands[0..] == cands && MarksOf(mask, |cands|)[0..] == MarksOf(mask, |cands|);
  }

  /** Every non-empty subset is picked by a mask the search visits. */
  lemma SubsetHasMask(cands: seq<FileRow>, marks: seq<bool>)
    requires |marks| == |cands| && Choose(cands, marks) != []
    ensures 1 <= MaskOf(marks) < Pow2(|cands|)
    ensures PickMask(cands, MaskOf(marks)) == Choose(cands, marks)
  {
    MaskBits(marks);
    PickIsChoose(cands, MaskOf(marks), 0, marks);
    assert cands[0..] == cands && marks[0..] == marks;
    if MaskOf(marks) == 0 {
      EmptyMask(cands, 0);
    }
  }

  lemma {:induction false} EmptyMask(cands: seq<FileRow>, i: nat)
    requires i <= |cands|
    ensures PickFrom(cands, 0, i) == []
    decreases |cands| - i
  {
    if i < |cands| {
      ZeroBit(i);
      EmptyMask(cands, i + 1);
    }
  }

  lemma {:induction false} ZeroBit(i: nat)
    ensures !Bit(0, i)
    decreases i
  {
    if i > 0 {
      ZeroBit(i - 1);
    }
  }

  // ---------------------------------------------------------------------------------------------
  // The exhaustive search
  // ---------------------------------------------------------------------------------------------

  /** The answer is a valid subset no other valid subset outscores; it is empty only if there is none. */
  ghost predicate IsBest(cands: seq<FileRow>, limits: Limits, budget: nat, best: seq<FileRow>) {
    && (best != [] ==>
          && Valid(best, limits, budget)
          && exists marks: seq<bool> :: |marks| == |cands| && multiset(best) == multiset(Choose(cands, marks)))
    && forall marks: seq<bool> :: |marks| == |cands| && Valid(Choose(cands, marks), limits, budget) ==>
         best != [] && LexLe(Score(Choose(cands, marks), limits), Score(best, limits))
  }

  /** Of all admissible subsets the best has the most bytes, and ties are broken as preferred. */
  lemma BestMeans(cands: seq<FileRow>, limits: Limits, budget: nat, best: seq<FileRow>, marks: seq<bool>)
    requires IsBest(cands, limits, budget, best) && |marks| == |cands|
    ensures best != [] ==> Admissible(best, limits, budget)
    ensures Admissible(Choose(cands, marks), limits, budget) ==>
      && best != [] && NoBetter(Choose(cands, marks), best, limits)
      && SumNat(Choose(cands, marks), SIZE) <= SumNat(best, SIZE)
  {
    var chosen := Choose(cands, marks);
    ValidIsAdmissible(best, limits, budget);
    ValidIsAdmissible(chosen, limits, budget);
    ScoreMeans(chosen, best, limits);
    hide Score, Choose, LexLe, SumNat, Spill, Share, Valid, Admissible;
  }

  method BestExact(cands: seq<FileRow>, limits: Limits, budget: nat) returns (best: seq<FileRow>)
    ensures IsBest(cands, limits, budget, best)
    ensures best != [] ==> Admissible(best, limits, budget)
    ensures forall marks: seq<bool> :: |marks| == |cands| && Admissible(Choose(cands, marks), limits, budget) ==>
      && best != [] && NoBetter(Choose(cands, marks), best, limits)
      && SumNat(Choose(cands, marks), SIZE) <= SumNat(best, SIZE)
    ensures SortedBy(best, BY_INDEX)
  {
    hide Valid, Score, PickFrom, Choose, LexLe, Admissible, NoBetter, SumNat;
    var found: seq<FileRow> := [];
    var bestScore: Option<seq<real>> := None;
    var end := Pow2(|cands|);
    var mask := 1;
    while mask < end
      invariant bestScore == if found == [] then None else Some(Score(found, limits))
      invariant found != [] ==> Valid(found, limits, budget) && exists m: nat :: found == PickMask(cands, m)
      invariant forall m: nat :: 1 <= m < mask && Valid(PickMask(cands, m), limits, budget) ==>
        found != [] && LexLe(Score(PickMask(cands, m), limits), Score(found, limits))
    {
      var selected := PickMask(cands, mask);
      var score := ScoreIfValid(selected, limits, budget);
      EmptyInvalid(limits, budget);
      if score.Some? && (bestScore.None? || LexLt(bestScore.value, score.value)) {
        BetterThanAll(cands, limits, budget, mask, found, selected);
        found := selected;
        bestScore := score;
      } else if score.Some? {
        LexTotal(score.value, bestScore.value);
      }
      mask := mask + 1;
    }
    best := SortedByIndex(found);
    SortIsSorted(found, BY_INDEX);
    ScoreRearranged(found, best, limits, budget);
    BestOfMasks(cands, limits, budget, found, best);
    forall marks: seq<bool> | |marks| == |cands| && Admissible(Choose(cands, marks), limits, budget)
      ensures best != [] && NoBetter(Choose(cands, marks), best, limits)
      ensures SumNat(Choose(cands, marks), SIZE) <= SumNat(best, SIZE)
    {
      BestMeans(cands, limits, budget, best, marks);
    }
    ValidIsAdmissible(best, limits, budget);
  }

  lemma EmptyInvalid(limits: Limits, budget: nat)
    ensures !Valid([], limits, budget)
  {
  }

  lemma BetterThanAll(cands: seq<FileRow>, limits: Limits, budget: nat, mask: nat, found: seq<FileRow>,
                      selected: seq<FileRow>)
    requires forall m: nat :: 1 <= m < mask && Valid(PickMask(cands, m), limits, budget) ==>
      found != [] && LexLe(Score(PickMask(cands, m), limits), Score(found, limits))
    requires found == [] || LexLt(Score(found, limits), Score(selected, limits))
    ensures forall m: nat :: 1 <= m < mask && Valid(PickMask(cands, m), limits, budget) ==>
      LexLe(Score(PickMask(cands, m), limits), Score(selected, limits))
    ensures LexLe(Score(selected, limits), Score(selected, limits))
  {
    hide Valid, Score, PickMask, LexLe;
    LexTotal(Score(selected, limits), Score(selected, limits));
    forall m: nat | 1 <= m < mask && Valid(PickMask(cands, m), limits, budget)
      ensures LexLe(Score(PickMask(cands, m), limits), Score(selected, limits))
    {
      LexTotal(Score(found, limits), Score(selected, limits));
      LexTransitive(Score(PickMask(cands, m), limits), Score(found, limits), Score(selected, limits));
    }
  }

  lemma BestOfMasks(cands: seq<FileRow>, limits: Limits, budget: nat, found: seq<FileRow>, best: seq<FileRow>)
    requires multiset(found) == multiset(best)
    requires Score(found, limits) == Score(best, limits) && Valid(found, limits, budget) == Valid(best, limits, budget)
    requires found != [] ==> Valid(found, limits, budget) && exists m: nat :: found == PickMask(cands, m)
    requires forall m: nat :: 1 <= m < Pow2(|cands|) && Valid(PickMask(cands, m), limits, budget) ==>
      found != [] && LexLe(Score(PickMask(cands, m), limits), Score(found, limits))
    ensures IsBest(cands, limits, budget, best)
  {
    hide Score, PickMask, LexLe, Choose, MaskOf;
    if found == [] {
      assert |multiset(best)| == |best|;
    }
    if best != [] {
      assert |multiset(found)| == |found|;
      var m: nat :| found == PickMask(cands, m);
      MaskIsSubset(cands, m);
    }
    forall marks: seq<bool> | |marks| == |cands| && Valid(Choose(cands, marks), limits, budget)
      ensures best != [] && LexLe(Score(Choose(cands, marks), limits), Score(best, limits))
    {
      SubsetHasMask(cands, marks);
      assert |multiset(found)| == |found| && |multiset(best)| == |best|;
    }
  }
}
