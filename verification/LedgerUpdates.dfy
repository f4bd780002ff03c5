/** The UPDATE statements the schedulers issue against the ledger, and what each does to its sums. */
module LedgerUpdates {
  import opened Options
  import opened Sums
  import opened Ledger

  /** The row is an unreleased row of this kind for this torrent, expired or not. */
  predicate Holds(r: Row, kind: Kind, h: string) {
    r.kind == kind && r.state.Active? && r.hash == Some(h)
  }

  function Release(r: Row): Row {
    r.(state := RowState.Released)
  }

  /** Release every unreleased row of one kind that names one of these torrents. */
  function ReleaseKind(rows: Table, kind: Kind, hs: set<string>): Table {
    seq(|rows|, i requires 0 <= i < |rows| =>
      if rows[i].hash.Some? && rows[i].hash.value in hs && Holds(rows[i], kind, rows[i].hash.value)
      then Release(rows[i]) else rows[i])
  }

  /**
   Release the soak queue's rows of every torrent that is not kept. SQL's `not in` is never true of
   a null, so a row without a torrent goes only when nothing at all is kept.
   */
  function ReleaseSoakExcept(rows: Table, keep: set<string>): Table {
    seq(|rows|, i requires 0 <= i < |rows| =>
      if rows[i].kind.SoakProbe? && rows[i].state.Active?
         && (keep == {} || (rows[i].hash.Some? && rows[i].hash.value !in keep))
      then Release(rows[i]) else rows[i])
  }

  /** Release every unreleased row of these torrents, whatever its kind. */
  function ReleaseHashes(rows: Table, hs: set<string>): Table {
    seq(|rows|, i requires 0 <= i < |rows| =>
      if rows[i].state.Active? && rows[i].hash.Some? && rows[i].hash.value in hs
      then Release(rows[i]) else rows[i])
  }

  // ---------------------------------------------------------------------------------------------
  // Bringing one scheduler's rows in step with what it wants
  // ---------------------------------------------------------------------------------------------

  predicate FirstHolder(rows: Table, i: nat, kind: Kind, h: string)
    requires i < |rows|
  {
    Holds(rows[i], kind, h) && forall j :: 0 <= j < i ==> !Holds(rows[j], kind, h)
  }

  predicate HasHolder(rows: Table, kind: Kind, h: string) {
    exists i :: 0 <= i < |rows| && Holds(rows[i], kind, h)
  }

  function SyncedRow(rows: Table, i: nat, kind: Kind, want: map<string, nat>, expires: int): Row
    requires i < |rows|
  {
    var r := rows[i];
    if r.hash.Some? && r.hash.value in want && Holds(r, kind, r.hash.value) then
      if FirstHolder(rows, i, kind, r.hash.value) then r.(bytes := want[r.hash.value], expiresAt := Some(expires))
      else Release(r)
    else r
  }

  function NewRow(kind: Kind, h: string, bytes: nat, expires: int): Row {
    Row(Some(h), None, kind, bytes, RowState.Active, Some(expires))
  }

  function Missing(rows: Table, kind: Kind, order: seq<string>): seq<string> {
    if order == [] then []
    else
      var n := |order| - 1;
      Missing(rows, kind, order[..n]) + (if HasHolder(rows, kind, order[n]) then [] else [order[n]])
  }

  function NewRows(kind: Kind, hs: seq<string>, want: map<string, nat>, expires: int): Table
    requires forall h :: h in hs ==> h in want
  {
    seq(|hs|, i requires 0 <= i < |hs| => NewRow(kind, hs[i], want[hs[i]], expires))
  }

  lemma {:induction false} MissingFromOrder(rows: Table, kind: Kind, order: seq<string>)
    ensures forall h :: h in Missing(rows, kind, order) <==> h in order && !HasHolder(rows, kind, h)
  {
    if order != [] {
      var n := |order| - 1;
      MissingFromOrder(rows, kind, order[..n]);
      assert order == order[..n] + [order[n]];
    }
  }

  ghost predicate Distinct<T>(s: seq<T>) {
    forall i, j :: 0 <= i < j < |s| ==> s[i] != s[j]
  }

  lemma {:induction false} MissingDistinct(rows: Table, kind: Kind, order: seq<string>)
    requires Distinct(order)
    ensures Distinct(Missing(rows, kind, order))
  {
    if order != [] {
      var n := |order| - 1;
      MissingDistinct(rows, kind, order[..n]);
      MissingFromOrder(rows, kind, order[..n]);
    }
  }

  /**
   Of each wanted torrent's unreleased rows the first is kept and rewritten and the others are
   released; a torrent that has none gets a new row. Nothing else changes.
   */
  function Synced(rows: Table, kind: Kind, order: seq<string>, want: map<string, nat>, expires: int): Table
    requires forall h :: h in order ==> h in want
  {
    MissingFromOrder(rows, kind, order);
    seq(|rows|, i requires 0 <= i < |rows| => SyncedRow(rows, i, kind, want, expires))
    + NewRows(kind, Missing(rows, kind, order), want, expires)
  }

  /** `order` lists exactly the keys of `want`, none of them the empty string. */
  ghost predicate Lists(order: seq<string>, want: map<string, nat>) {
    && Distinct(order)
    && (forall h :: h in order <==> h in want)
    && "" !in order
  }

  lemma {:induction false} FindFirst(rows: Table, kind: Kind, h: string) returns (p: nat)
    requires HasHolder(rows, kind, h)
    ensures p < |rows| && FirstHolder(rows, p, kind, h)
  {
    var q: nat :| q < |rows| && Holds(rows[q], kind, h);
    p := 0;
    while !Holds(rows[p], kind, h)
      invariant p <= q
      invariant forall j :: 0 <= j < p ==> !Holds(rows[j], kind, h)
      decreases q - p
    {
      p := p + 1;
    }
  }

  /** The rows of an update, one by one. */
  lemma SyncedAt(rows: Table, kind: Kind, order: seq<string>, want: map<string, nat>, expires: int, j: nat)
    requires forall h :: h in order ==> h in want
    ensures
      var rows' := Synced(rows, kind, order, want, expires);
      var missing := Missing(rows, kind, order);
      && |rows'| == |rows| + |missing|
      && (j < |rows| ==> rows'[j] == SyncedRow(rows, j, kind, want, expires))
      && (|rows| <= j < |rows'| ==>
            missing[j - |rows|] in want
              && rows'[j] == NewRow(kind, missing[j - |rows|], want[missing[j - |rows|]], expires))
  {
  }

  /**
   Whatever the ledger held before, with duplicates or stale rows, every wanted torrent ends with
   exactly one unreleased row of the kind, of exactly the wanted bytes.
   */
  lemma SyncedHoldsOne(rows: Table, kind: Kind, order: seq<string>, want: map<string, nat>, expires: int, h: string)
    returns (p: nat)
    requires Lists(order, want) && h in want
    ensures
      var rows' := Synced(rows, kind, order, want, expires);
      && p < |rows'| && Holds(rows'[p], kind, h)
      && rows'[p].bytes == want[h] && rows'[p].expiresAt == Some(expires)
      && forall j :: 0 <= j < |rows'| && j != p ==> !Holds(rows'[j], kind, h)
  {
    hide Synced, Missing, Distinct;
    var missing := Missing(rows, kind, order);
    MissingFromOrder(rows, kind, order);
    assert h in order;
    if HasHolder(rows, kind, h) {
      p := FindFirst(rows, kind, h);
    } else {
      assert h in missing;
      var q: nat :| q < |missing| && missing[q] == h;
      p := |rows| + q;
    }
    SyncedAt(rows, kind, order, want, expires, p);
    forall j | 0 <= j < |Synced(rows, kind, order, want, expires)| && j != p
      ensures !Holds(Synced(rows, kind, order, want, expires)[j], kind, h)
    {
      SyncedAt(rows, kind, order, want, expires, j);
      if j >= |rows| {
        assert missing[j - |rows|] in missing;
        MissingOnce(rows, kind, order, j - |rows|, p - |rows|);
      }
    }
  }

  lemma MissingOnce(rows: Table, kind: Kind, order: seq<string>, i: nat, j: int)
    requires Distinct(order)
    requires i < |Missing(rows, kind, order)|
    ensures 0 <= j < |Missing(rows, kind, order)| && j != i ==>
      Missing(rows, kind, order)[i] != Missing(rows, kind, order)[j]
  {
    MissingDistinct(rows, kind, order);
  }

  /** The column of the kind then holds exactly the wanted bytes. */
  lemma SyncedColumn(rows: Table, kind: Kind, order: seq<string>, want: map<string, nat>, expires: int, now: int,
                     h: string)
    requires kind.ActiveDownload? || kind.SoakProbe?
    requires Lists(order, want) && h in want && now < expires
    ensures Col(Synced(rows, kind, order, want, expires), now, ByHash(h), ColumnOf(kind)) == want[h]
  {
    var rows' := Synced(rows, kind, order, want, expires);
    var p := SyncedHoldsOne(rows, kind, order, want, expires, h);
    assert h in order;
    forall i | 0 <= i < |rows'| && i != p ensures Part(rows'[i], i, now, ByHash(h), ColumnOf(kind)) == 0 {
    }
    ColSingle(rows', p, now, ByHash(h), ColumnOf(kind));
  }

  /** Other columns, and the keys of torrents nobody asked for, are as they were. */
  lemma SyncedElsewhere(rows: Table, kind: Kind, order: seq<string>, want: map<string, nat>, expires: int, now: int,
                        k: Key, c: Column)
    requires kind.ActiveDownload? || kind.SoakProbe?
    requires Lists(order, want)
    requires c != ColumnOf(kind) || k.Loose? || k.hash !in want
    ensures Col(Synced(rows, kind, order, want, expires), now, k, c) == Col(rows, now, k, c)
  {
    hide Synced, Missing, Distinct, Col, FirstHolder;
    var rows' := Synced(rows, kind, order, want, expires);
    var n := |rows|;
    SyncedAt(rows, kind, order, want, expires, n);
    forall i | 0 <= i < n ensures Part(rows'[..n][i], i, now, k, c) == Part(rows[i], i, now, k, c) {
      SyncedAt(rows, kind, order, want, expires, i);
    }
    ColSame(rows, rows'[..n], now, k, c);
    assert rows'[..n] + rows'[n..] == rows';
    forall i | n <= i < |rows'| ensures Part(rows'[i], i, now, k, c) == 0 {
      SyncedAt(rows, kind, order, want, expires, i);
      MissingFromOrder(rows, kind, order);
      assert Missing(rows, kind, order)[i - n] in Missing(rows, kind, order);
    }
    ColPrefix(rows'[..n], rows'[n..], now, k, c);
  }

  // ---------------------------------------------------------------------------------------------
  // Releases
  // ---------------------------------------------------------------------------------------------

  lemma ReleaseKindColumns(rows: Table, kind: Kind, hs: set<string>, now: int, k: Key, c: Column)
    requires kind.ActiveDownload? || kind.SoakProbe?
    requires "" !in hs
    ensures Col(ReleaseKind(rows, kind, hs), now, k, c)
         == if k.ByHash? && k.hash in hs && c == ColumnOf(kind) then 0 else Col(rows, now, k, c)
  {
    var rows' := ReleaseKind(rows, kind, hs);
    if k.ByHash? && k.hash in hs && c == ColumnOf(kind) {
      ColZero(rows', now, k, c);
    } else {
      ColSame(rows, rows', now, k, c);
    }
  }

  lemma ReleaseSoakColumns(rows: Table, keep: set<string>, now: int, k: Key, c: Column)
    requires "" !in keep
    ensures c != SoakColumn ==> Col(ReleaseSoakExcept(rows, keep), now, k, c) == Col(rows, now, k, c)
    ensures k.ByHash? && k.hash !in keep ==> Col(ReleaseSoakExcept(rows, keep), now, k, SoakColumn) == 0
    ensures keep == {} ==> Col(ReleaseSoakExcept(rows, keep), now, k, SoakColumn) == 0
  {
    var rows' := ReleaseSoakExcept(rows, keep);
    if c != SoakColumn {
      ColSame(rows, rows', now, k, c);
    }
    if keep == {} || (k.ByHash? && k.hash !in keep) {
      ColZero(rows', now, k, SoakColumn);
    }
  }

  lemma {:induction false} ColAtMost(rows: Table, rows': Table, now: int, k: Key, c: Column)
    requires |rows| == |rows'|
    requires forall i :: 0 <= i < |rows| ==> Part(rows'[i], i, now, k, c) <= Part(rows[i], i, now, k, c)
    ensures Col(rows', now, k, c) <= Col(rows, now, k, c)
  {
    if rows != [] {
      ColAtMost(rows[..|rows| - 1], rows'[..|rows| - 1], now, k, c);
    }
  }

  /** Releasing rows never makes any sum larger. */
  lemma ReleaseHashesShrinks(rows: Table, hs: set<string>, now: int)
    ensures forall soak :: Total(ReleaseHashes(rows, hs), now, soak) <= Total(rows, now, soak)
    ensures SoakTotal(ReleaseHashes(rows, hs), now) <= SoakTotal(rows, now)
  {
    var rows' := ReleaseHashes(rows, hs);
    forall i, k, c | 0 <= i < |rows| ensures Part(rows'[i], i, now, k, c) <= Part(rows[i], i, now, k, c) {
    }
    PartsShrink(rows, rows', now);
  }

  /** Rows that each count for no more than before add up to no more. */
  lemma PartsShrink(rows: Table, rows': Table, now: int)
    requires |rows| == |rows'|
    requires forall i, k, c :: 0 <= i < |rows| ==> Part(rows'[i], i, now, k, c) <= Part(rows[i], i, now, k, c)
    ensures forall soak :: Total(rows', now, soak) <= Total(rows, now, soak)
    ensures SoakTotal(rows', now) <= SoakTotal(rows, now)
  {
    forall k, c ensures Col(rows', now, k, c) <= Col(rows, now, k, c) {
      ColAtMost(rows, rows', now, k, c);
    }
    forall soak ensures Total(rows', now, soak) <= Total(rows, now, soak) {
      forall k ensures At(Needs(rows', now, soak), k) <= At(Needs(rows, now, soak), k) {
        AtNeeds(rows, now, soak, k);
        AtNeeds(rows', now, soak, k);
      }
      SumMonotone(Needs(rows', now, soak), Needs(rows, now, soak));
    }
    forall k ensures At(SoakNeeds(rows', now), k) <= At(SoakNeeds(rows, now), k) {
      AtNeeds(rows, now, true, k);
      AtNeeds(rows', now, true, k);
    }
    SumMonotone(SoakNeeds(rows', now), SoakNeeds(rows, now));
  }
}
