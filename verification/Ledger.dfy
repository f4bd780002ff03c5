/**
 The shared ledger of byte reservations: the table resource_reservations, what its rows add up to,
 and what each scheduler's updates do to that sum.

 Rows are never deleted and ids are handed out in ascending order, so a row's id is its position.
 */
module Ledger {
  import opened Options
  import opened Sums

  datatype Kind = ActiveDownload | Batch | SoakProbe | CleanupPending | OtherKind(name: string)

  datatype RowState = Active | Released | Expired

  datatype Row = Row(
    hash: Option<string>,
    batchId: Option<nat>,
    kind: Kind,
    bytes: nat,
    state: RowState,
    expiresAt: Option<int>)

  type Table = seq<Row>

  /** What the readers group by: the torrent, or the row itself when it names no torrent. */
  datatype Key = ByHash(hash: string) | Loose(kind: Kind, id: nat)

  datatype Column = ActiveColumn | BatchColumn | SoakColumn | RestColumn

  predicate Live(r: Row, now: int) {
    r.state.Active? && (r.expiresAt.None? || r.expiresAt.value > now)
  }

  /** The soak queue's rows all name a torrent. */
  predicate NoStrays(rows: Table) {
    forall i :: 0 <= i < |rows| && rows[i].kind.SoakProbe? ==> rows[i].hash.Some?
  }

  function KeyOf(r: Row, id: nat): Key {
    if r.hash.Some? && r.hash.value != "" then ByHash(r.hash.value) else Loose(r.kind, id)
  }

  function ColumnOf(kind: Kind): Column {
    match kind
    case ActiveDownload => ActiveColumn
    case Batch => BatchColumn
    case SoakProbe => SoakColumn
    case _ => RestColumn
  }

  /** What the row with this id adds to one column of one key. */
  function Part(r: Row, id: nat, now: int, k: Key, c: Column): nat {
    if Live(r, now) && KeyOf(r, id) == k && ColumnOf(r.kind) == c then r.bytes else 0
  }

  function Col(rows: Table, now: int, k: Key, c: Column): nat {
    if rows == [] then 0
    else
      var n := |rows| - 1;
      Col(rows[..n], now, k, c) + Part(rows[n], n, now, k, c)
  }

  function Max(a: nat, b: nat): nat {
    if a < b then b else a
  }

  /**
   The bytes one key needs. A torrent's own download and its batches are the same bytes on disk,
   so only the larger of the two counts.
   */
  function Need(rows: Table, now: int, ignoreSoak: bool, k: Key): nat {
    Max(Col(rows, now, k, ActiveColumn), Col(rows, now, k, BatchColumn))
    + (if ignoreSoak then 0 else Col(rows, now, k, SoakColumn))
    + Col(rows, now, k, RestColumn)
  }

  function LiveKeys(rows: Table, now: int): set<Key> {
    set i | 0 <= i < |rows| && Live(rows[i], now) :: KeyOf(rows[i], i)
  }

  function Needs(rows: Table, now: int, ignoreSoak: bool): map<Key, nat> {
    map k | k in LiveKeys(rows, now) :: Need(rows, now, ignoreSoak, k)
  }

  /** The deduplicated ledger total, with or without the soak queue's own rows. */
  ghost function Total(rows: Table, now: int, ignoreSoak: bool): nat {
    Sum(Needs(rows, now, ignoreSoak))
  }

  function SoakNeeds(rows: Table, now: int): map<Key, nat> {
    map k | k in LiveKeys(rows, now) :: Col(rows, now, k, SoakColumn)
  }

  /** The live bytes the soak queue has reserved. */
  ghost function SoakTotal(rows: Table, now: int): nat {
    Sum(SoakNeeds(rows, now))
  }

  lemma {:induction false} NoLiveRowNoBytes(rows: Table, now: int, k: Key, c: Column)
    requires k !in LiveKeys(rows, now)
    ensures Col(rows, now, k, c) == 0
  {
    if rows != [] {
      var n := |rows| - 1;
      assert Live(rows[n], now) ==> KeyOf(rows[n], n) in LiveKeys(rows, now);
      forall i | 0 <= i < n && Live(rows[..n][i], now) ensures KeyOf(rows[..n][i], i) != k {
        assert KeyOf(rows[i], i) in LiveKeys(rows, now);
      }
      NoLiveRowNoBytes(rows[..n], now, k, c);
    }
  }

  /** Looking a key up, with zero for a missing one, gives its need. */
  lemma AtNeeds(rows: Table, now: int, ignoreSoak: bool, k: Key)
    ensures At(Needs(rows, now, ignoreSoak), k) == Need(rows, now, ignoreSoak, k)
    ensures At(SoakNeeds(rows, now), k) == Col(rows, now, k, SoakColumn)
  {
  }

  /** The whole ledger is what everybody but the soak queue holds plus what the soak queue holds. */
  lemma TotalSplitsOffSoak(rows: Table, now: int)
    ensures Total(rows, now, false) == Total(rows, now, true) + SoakTotal(rows, now)
  {
    forall k ensures At(Needs(rows, now, false), k) == At(Needs(rows, now, true), k) + At(SoakNeeds(rows, now), k) {
      AtNeeds(rows, now, false, k);
      AtNeeds(rows, now, true, k);
    }
    SumSplit(Needs(rows, now, false), Needs(rows, now, true), SoakNeeds(rows, now));
  }

  // ---------------------------------------------------------------------------------------------
  // Reading the table in any order
  // ---------------------------------------------------------------------------------------------

  /** A SELECT without ORDER BY: every row once, in no particular order. */
  ghost predicate IsScan(ids: seq<nat>, n: nat) {
    && |ids| == n
    && (forall i :: 0 <= i < |ids| ==> ids[i] < n)
    && (forall x: nat :: x < n ==> x in ids)
    && (forall i, j :: 0 <= i < j < |ids| ==> ids[i] != ids[j])
  }

  /** One column of one key, added up over the rows read so far. */
  function ScannedCol(rows: Table, ids: seq<nat>, now: int, k: Key, c: Column): nat
    requires forall i :: 0 <= i < |ids| ==> ids[i] < |rows|
  {
    if ids == [] then 0
    else
      var n := |ids| - 1;
      ScannedCol(rows, ids[..n], now, k, c) + Part(rows[ids[n]], ids[n], now, k, c)
  }

  lemma {:induction false} ScannedWithout(rows: Table, ids: seq<nat>, p: nat, now: int, k: Key, c: Column)
    requires p < |ids|
    requires forall i :: 0 <= i < |ids| ==> ids[i] < |rows|
    ensures ScannedCol(rows, ids, now, k, c)
         == Part(rows[ids[p]], ids[p], now, k, c) + ScannedCol(rows, ids[..p] + ids[p + 1..], now, k, c)
  {
    var n := |ids| - 1;
    if p == n {
      assert ids[..p] + ids[p + 1..] == ids[..n];
    } else {
      ScannedWithout(rows, ids[..n], p, now, k, c);
      var rest := ids[..p] + ids[p + 1..];
      assert rest[..n - 1] == ids[..n][..p] + ids[..n][p + 1..];
      assert rest[n - 1] == ids[n];
    }
  }

  lemma {:induction false} ScannedPrefix(rows: Table, m: nat, ids: seq<nat>, now: int, k: Key, c: Column)
    requires m <= |rows|
    requires forall i :: 0 <= i < |ids| ==> ids[i] < m
    ensures ScannedCol(rows[..m], ids, now, k, c) == ScannedCol(rows, ids, now, k, c)
  {
    if ids != [] {
      ScannedPrefix(rows, m, ids[..|ids| - 1], now, k, c);
    }
  }

  lemma ScanWithoutLast(ids: seq<nat>, p: nat, n: nat)
    requires IsScan(ids, n + 1) && p < |ids| && ids[p] == n
    ensures IsScan(ids[..p] + ids[p + 1..], n)
  {
    var rest := ids[..p] + ids[p + 1..];
    forall i | 0 <= i < |rest| ensures rest[i] < n {
      assert rest[i] == if i < p then ids[i] else ids[i + 1];
    }
    forall x: nat | x < n ensures x in rest {
      assert x < n + 1 && x in ids;
      var i :| 0 <= i < |ids| && ids[i] == x;
      assert rest[if i < p then i else i - 1] == x;
    }
  }

  /** Whatever order the rows come in, the columns add up to the same numbers. */
  lemma {:induction false} ScanOrderIrrelevant(rows: Table, ids: seq<nat>, now: int, k: Key, c: Column)
    requires IsScan(ids, |rows|)
    ensures ScannedCol(rows, ids, now, k, c) == Col(rows, now, k, c)
  {
    if rows != [] {
      var n := |rows| - 1;
      assert n in ids;
      var p: nat :| p < |ids| && ids[p] == n;
      var rest := ids[..p] + ids[p + 1..];
      ScannedWithout(rows, ids, p, now, k, c);
      ScanWithoutLast(ids, p, n);
      ScannedPrefix(rows, n, rest, now, k, c);
      ScanOrderIrrelevant(rows[..n], rest, now, k, c);
    }
  }

  // ---------------------------------------------------------------------------------------------
  // What an update leaves alone
  // ---------------------------------------------------------------------------------------------

  lemma {:induction false} ColSame(rows: Table, rows': Table, now: int, k: Key, c: Column)
    requires |rows| == |rows'|
    requires forall i :: 0 <= i < |rows| ==> Part(rows[i], i, now, k, c) == Part(rows'[i], i, now, k, c)
    ensures Col(rows, now, k, c) == Col(rows', now, k, c)
  {
    if rows != [] {
      ColSame(rows[..|rows| - 1], rows'[..|rows| - 1], now, k, c);
    }
  }

  lemma {:induction false} ColZero(rows: Table, now: int, k: Key, c: Column)
    requires forall i :: 0 <= i < |rows| ==> Part(rows[i], i, now, k, c) == 0
    ensures Col(rows, now, k, c) == 0
  {
    if rows != [] {
      ColZero(rows[..|rows| - 1], now, k, c);
    }
  }

  lemma {:induction false} ColSingle(rows: Table, p: nat, now: int, k: Key, c: Column)
    requires p < |rows|
    requires forall i :: 0 <= i < |rows| && i != p ==> Part(rows[i], i, now, k, c) == 0
    ensures Col(rows, now, k, c) == Part(rows[p], p, now, k, c)
  {
    var n := |rows| - 1;
    if p == n {
      ColZero(rows[..n], now, k, c);
    } else {
      ColSingle(rows[..n], p, now, k, c);
    }
  }

  lemma {:induction false} ColPrefix(rows: Table, more: Table, now: int, k: Key, c: Column)
    requires forall i :: |rows| <= i < |rows + more| ==> Part((rows + more)[i], i, now, k, c) == 0
    ensures Col(rows + more, now, k, c) == Col(rows, now, k, c)
  {
    if more == [] {
      assert rows + more == rows;
    } else {
      var m := |more| - 1;
      assert (rows + more)[..|rows| + m] == rows + more[..m];
      forall i | |rows| <= i < |rows + more[..m]| ensures Part((rows + more[..m])[i], i, now, k, c) == 0 {
        assert (rows + more[..m])[i] == (rows + more)[i];
      }
      ColPrefix(rows, more[..m], now, k, c);
    }
  }

  lemma ColAppend(rows: Table, r: Row, now: int, k: Key, c: Column)
    ensures Col(rows + [r], now, k, c) == Col(rows, now, k, c) + Part(r, |rows|, now, k, c)
  {
  }
}
