/**
 The three readers of the ledger. The planner, the soak queue and the batch service each group the
 live rows in a loop of their own; this module runs each loop over a scan in any order and shows
 that they agree.
 */
module LedgerReaders {
  import opened Sums
  import opened Ledger

  datatype Bucket = Bucket(active: nat, batch: nat, other: nat)

  const EMPTY_BUCKET := Bucket(0, 0, 0)

  function BucketNeed(b: Bucket): nat {
    Max(b.active, b.batch) + b.other
  }

  function Add(b: Bucket, r: Row): Bucket {
    match r.kind
    case ActiveDownload => b.(active := b.active + r.bytes)
    case Batch => b.(batch := b.batch + r.bytes)
    case _ => b.(other := b.other + r.bytes)
  }

  /** What a bucket should hold after the given part of the scan. */
  function BucketAfter(rows: Table, ids: seq<nat>, now: int, ignoreSoak: bool, k: Key): Bucket
    requires forall i :: 0 <= i < |ids| ==> ids[i] < |rows|
  {
    Bucket(
      ScannedCol(rows, ids, now, k, ActiveColumn),
      ScannedCol(rows, ids, now, k, BatchColumn),
      (if ignoreSoak then 0 else ScannedCol(rows, ids, now, k, SoakColumn)) + ScannedCol(rows, ids, now, k, RestColumn))
  }

  ghost predicate Grouped(grouped: map<Key, Bucket>, rows: Table, ids: seq<nat>, now: int, ignoreSoak: bool)
    requires forall i :: 0 <= i < |ids| ==> ids[i] < |rows|
  {
    forall k :: (if k in grouped then grouped[k] else EMPTY_BUCKET) == BucketAfter(rows, ids, now, ignoreSoak, k)
  }

  lemma GroupedStep(grouped: map<Key, Bucket>, rows: Table, ids: seq<nat>, i: nat, now: int, ignoreSoak: bool,
                    grouped': map<Key, Bucket>)
    requires forall j :: 0 <= j < |ids| ==> ids[j] < |rows|
    requires i < |ids| && Grouped(grouped, rows, ids[..i], now, ignoreSoak)
    requires
      var r := rows[ids[i]];
      var k := KeyOf(r, ids[i]);
      var b := if k in grouped then grouped[k] else EMPTY_BUCKET;
      if !Live(r, now) then grouped' == grouped
      else if ignoreSoak && r.kind.SoakProbe? then grouped' == grouped || grouped' == grouped[k := b]
      else grouped' == grouped[k := Add(b, r)]
    ensures Grouped(grouped', rows, ids[..i + 1], now, ignoreSoak)
  {
    assert ids[..i + 1][..i] == ids[..i];
    forall k ensures (if k in grouped' then grouped'[k] else EMPTY_BUCKET)
      == BucketAfter(rows, ids[..i + 1], now, ignoreSoak, k) {
      assert (if k in grouped then grouped[k] else EMPTY_BUCKET) == BucketAfter(rows, ids[..i], now, ignoreSoak, k);
    }
  }

  function NeedsOf(grouped: map<Key, Bucket>): map<Key, nat> {
    map k | k in grouped :: BucketNeed(grouped[k])
  }

  lemma BucketAtEnd(rows: Table, ids: seq<nat>, now: int, ignoreSoak: bool, k: Key)
    requires IsScan(ids, |rows|)
    ensures BucketNeed(BucketAfter(rows, ids, now, ignoreSoak, k)) == Need(rows, now, ignoreSoak, k)
  {
    ScanOrderIrrelevant(rows, ids, now, k, ActiveColumn);
    ScanOrderIrrelevant(rows, ids, now, k, BatchColumn);
    ScanOrderIrrelevant(rows, ids, now, k, SoakColumn);
    ScanOrderIrrelevant(rows, ids, now, k, RestColumn);
  }

  lemma NeedsFromBuckets(grouped: map<Key, Bucket>, rows: Table, ids: seq<nat>, now: int, ignoreSoak: bool)
    requires forall i :: 0 <= i < |ids| ==> ids[i] < |rows|
    requires Grouped(grouped, rows, ids, now, ignoreSoak)
    requires forall k :: BucketNeed(BucketAfter(rows, ids, now, ignoreSoak, k)) == Need(rows, now, ignoreSoak, k)
    ensures forall k :: At(NeedsOf(grouped), k) == Need(rows, now, ignoreSoak, k)
  {
  }

  /** An answer that gives every key its need adds up to the ledger total. */
  lemma NeedsAddUp(out: map<Key, nat>, rows: Table, now: int, ignoreSoak: bool)
    requires forall k :: At(out, k) == Need(rows, now, ignoreSoak, k)
    ensures Sum(out) == Total(rows, now, ignoreSoak)
  {
    forall k ensures At(out, k) == At(Needs(rows, now, ignoreSoak), k) {
      AtNeeds(rows, now, ignoreSoak, k);
    }
    SumSame(out, Needs(rows, now, ignoreSoak));
  }

  lemma GroupedAtEnd(grouped: map<Key, Bucket>, rows: Table, ids: seq<nat>, now: int, ignoreSoak: bool)
    requires IsScan(ids, |rows|) && Grouped(grouped, rows, ids[..|ids|], now, ignoreSoak)
    ensures forall k :: At(NeedsOf(grouped), k) == Need(rows, now, ignoreSoak, k)
    ensures Sum(NeedsOf(grouped)) == Total(rows, now, ignoreSoak)
  {
    var all := ids[..|ids|];
    assert all == ids;
    forall k ensures BucketNeed(BucketAfter(rows, ids, now, ignoreSoak, k)) == Need(rows, now, ignoreSoak, k) {
      BucketAtEnd(rows, ids, now, ignoreSoak, k);
    }
    NeedsFromBuckets(grouped, rows, ids, now, ignoreSoak);
    NeedsAddUp(NeedsOf(grouped), rows, now, ignoreSoak);
  }

  /** The sum of a dictionary's values. */
  method SumValues(m: map<Key, nat>) returns (total: nat)
    ensures total == Sum(m)
  {
    total := 0;
    var rest := m;
    while rest != map[]
      invariant total + Sum(rest) == Sum(m)
      decreases |rest|
    {
      var k :| k in rest;
      SumPick(rest, k);
      SizeWithout(rest, k);
      total := total + rest[k];
      rest := rest - {k};
    }
  }

  /** The planner's reader: bytes per torrent, leaving the soak queue's rows out when it says so. */
  method PlannerBytes(rows: Table, ids: seq<nat>, now: int, ignoreSoak: bool) returns (out: map<Key, nat>)
    requires IsScan(ids, |rows|)
    ensures forall k :: At(out, k) == Need(rows, now, ignoreSoak, k)
    ensures Sum(out) == Total(rows, now, ignoreSoak)
  {
    var grouped: map<Key, Bucket> := map[];
    for i := 0 to |ids|
      invariant Grouped(grouped, rows, ids[..i], now, ignoreSoak)
    {
      var r := rows[ids[i]];
      ghost var before := grouped;
      if Live(r, now) {
        var k := KeyOf(r, ids[i]);
        var b := if k in grouped then grouped[k] else EMPTY_BUCKET;
        grouped := grouped[k := b];
        if !(ignoreSoak && r.kind.SoakProbe?) {
          grouped := grouped[k := Add(b, r)];
        }
      }
      GroupedStep(before, rows, ids, i, now, ignoreSoak, grouped);
    }
    GroupedAtEnd(grouped, rows, ids, now, ignoreSoak);
    out := NeedsOf(grouped);
  }

  /** The soak queue's reader: everybody else's bytes. */
  method NonSoakBytes(rows: Table, ids: seq<nat>, now: int) returns (total: nat)
    requires IsScan(ids, |rows|)
    ensures total == Total(rows, now, true)
  {
    var grouped: map<Key, Bucket> := map[];
    for i := 0 to |ids|
      invariant Grouped(grouped, rows, ids[..i], now, true)
    {
      var r := rows[ids[i]];
      ghost var before := grouped;
      if Live(r, now) && !r.kind.SoakProbe? {
        var k := KeyOf(r, ids[i]);
        var b := if k in grouped then grouped[k] else EMPTY_BUCKET;
        grouped := grouped[k := Add(b, r)];
      }
      GroupedStep(before, rows, ids, i, now, true, grouped);
    }
    GroupedAtEnd(grouped, rows, ids, now, true);
    total := SumValues(NeedsOf(grouped));
  }

  /** The batch service's reader: all bytes. */
  method AllBytes(rows: Table, ids: seq<nat>, now: int) returns (total: nat)
    requires IsScan(ids, |rows|)
    ensures total == Total(rows, now, false)
  {
    var grouped: map<Key, Bucket> := map[];
    for i := 0 to |ids|
      invariant Grouped(grouped, rows, ids[..i], now, false)
    {
      var r := rows[ids[i]];
      ghost var before := grouped;
      if Live(r, now) {
        var k := KeyOf(r, ids[i]);
        var b := if k in grouped then grouped[k] else EMPTY_BUCKET;
        grouped := grouped[k := Add(b, r)];
      }
      GroupedStep(before, rows, ids, i, now, false, grouped);
    }
    GroupedAtEnd(grouped, rows, ids, now, false);
    total := SumValues(NeedsOf(grouped));
  }

  /**
   The three readers agree on every ledger, each reading the rows in an order of its own: the planner
   with nothing ignored sees the batch service's total, ignoring the soak queue's rows it sees the
   soak queue's total, and the batch service sees the soak queue's total plus the soak queue's rows.
   */
  method ReadersAgree(rows: Table, plannerScan: seq<nat>, soakScan: seq<nat>, batchScan: seq<nat>, now: int)
    returns (planner: nat, plannerNonSoak: nat, soak: nat, batch: nat)
    requires IsScan(plannerScan, |rows|) && IsScan(soakScan, |rows|) && IsScan(batchScan, |rows|)
    ensures planner == batch
    ensures plannerNonSoak == soak
    ensures batch == soak + SoakTotal(rows, now)
  {
    var all := PlannerBytes(rows, plannerScan, now, false);
    var nonSoak := PlannerBytes(rows, plannerScan, now, true);
    planner := SumValues(all);
    plannerNonSoak := SumValues(nonSoak);
    soak := NonSoakBytes(rows, soakScan, now);
    batch := AllBytes(rows, batchScan, now);
    TotalSplitsOffSoak(rows, now);
  }
}
