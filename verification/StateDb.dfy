/** The state database: the tables the schedulers share, each transaction one step. */
module StateDbTables {
  import opened Options
  import opened Ledger
  import opened LedgerUpdates
  import Tables
  import BatchLifecycle

  /** The ids of the unreleased rows of one kind for one torrent, in table order. */
  function HolderIds(rows: Table, kind: Kind, h: string): seq<nat> {
    if rows == [] then []
    else
      var n := |rows| - 1;
      HolderIds(rows[..n], kind, h) + if Holds(rows[n], kind, h) then [n] else []
  }

  lemma {:induction false} HolderIdsAscend(rows: Table, kind: Kind, h: string)
    ensures
      var ids := HolderIds(rows, kind, h);
      && (forall i: nat :: i in ids <==> i < |rows| && Holds(rows[i], kind, h))
      && (forall a, b :: 0 <= a < b < |ids| ==> ids[a] < ids[b])
  {
    hide Holds;
    if rows != [] {
      var n := |rows| - 1;
      HolderIdsAscend(rows[..n], kind, h);
      var before := HolderIds(rows[..n], kind, h);
      forall a | 0 <= a < |before| ensures before[a] < n {
        assert before[a] in before;
      }
      forall i: nat ensures i in HolderIds(rows, kind, h) <==> i < |rows| && Holds(rows[i], kind, h) {
        assert i < n ==> rows[..n][i] == rows[i];
      }
    }
  }

  lemma HolderIdsAre(rows: Table, kind: Kind, h: string)
    ensures
      var ids := HolderIds(rows, kind, h);
      && (forall i: nat :: i in ids <==> i < |rows| && Holds(rows[i], kind, h))
      && (ids != [] ==> ids[0] < |rows| && FirstHolder(rows, ids[0], kind, h))
  {
    hide HolderIds, Holds;
    HolderIdsAscend(rows, kind, h);
    var ids := HolderIds(rows, kind, h);
    if ids != [] {
      assert ids[0] in ids;
      forall j | 0 <= j < ids[0] ensures j !in ids {
      }
    }
  }

  function Only(want: map<string, nat>, hs: seq<string>): map<string, nat> {
    map h | h in hs && h in want :: want[h]
  }

  /** Rewrite the first of these rows and release the others. */
  function Rewrite(rows: Table, ids: seq<nat>, bytes: nat, expires: int): Table
    requires ids != []
  {
    seq(|rows|, i requires 0 <= i < |rows| =>
      if i == ids[0] then rows[i].(bytes := bytes, expiresAt := Some(expires))
      else if i in ids then Release(rows[i])
      else rows[i])
  }

  /** The ledger when the wanted torrents up to some point have been brought in step. */
  ghost function SyncedUpTo(rows: Table, kind: Kind, order: seq<string>, want: map<string, nat>, expires: int,
                            j: nat): Table
    requires j <= |order| && Lists(order, want)
  {
    assert forall h :: h in order[..j] ==> h in order;
    Synced(rows, kind, order[..j], Only(want, order[..j]), expires)
  }

  lemma UpTo(order: seq<string>, want: map<string, nat>, j: nat)
    requires j < |order| && Lists(order, want)
    ensures order[..j + 1] == order[..j] + [order[j]] && order[j] !in order[..j] && order[j] in want
    ensures forall h :: h in order[..j + 1] ==> h in order
  {
  }

  lemma HasIds(rows: Table, kind: Kind, h: string)
    ensures HasHolder(rows, kind, h) <==> HolderIds(rows, kind, h) != []
  {
  }

  /** Old rows: only those of the torrent at hand change, and as the update changes them. */
  lemma SyncStepRow(rows: Table, kind: Kind, order: seq<string>, want: map<string, nat>, expires: int, j: nat, i: nat)
    requires j < |order| && Lists(order, want) && i < |rows|
    ensures
      var ids := HolderIds(rows, kind, order[j]);
      var r0 := SyncedRow(rows, i, kind, Only(want, order[..j]), expires);
      var r1 := SyncedRow(rows, i, kind, Only(want, order[..j + 1]), expires);
      order[j] in want && r1 ==
        if i !in ids then r0
        else if i == ids[0] then r0.(bytes := want[order[j]], expiresAt := Some(expires))
        else Release(r0)
  {
    hide HolderIds, Missing, Lists;
    var h := order[j];
    UpTo(order, want, j);
    HolderIdsAre(rows, kind, h);
    var ids := HolderIds(rows, kind, h);
    assert i in ids <==> Holds(rows[i], kind, h);
    if i in ids {
      assert FirstHolder(rows, i, kind, h) <==> i == ids[0];
    }
  }

  lemma SyncedUpToAt(rows: Table, kind: Kind, order: seq<string>, want: map<string, nat>, expires: int, j: nat, i: nat)
    requires j <= |order| && Lists(order, want)
    ensures
      var t := SyncedUpTo(rows, kind, order, want, expires, j);
      var m := Missing(rows, kind, order[..j]);
      && |t| == |rows| + |m|
      && (i < |rows| ==> t[i] == SyncedRow(rows, i, kind, Only(want, order[..j]), expires))
      && (|rows| <= i < |t| ==>
           m[i - |rows|] in want && t[i] == NewRow(kind, m[i - |rows|], want[m[i - |rows|]], expires))
  {
    var m := Missing(rows, kind, order[..j]);
    assert forall h :: h in order[..j] ==> h in order;
    MissingFromOrder(rows, kind, order[..j]);
    if |rows| <= i < |rows| + |m| {
      assert m[i - |rows|] in m;
    }
  }

  ghost function SyncStepResult(before: Table, ids: seq<nat>, kind: Kind, h: string, bytes: nat, expires: int): Table {
    if ids == [] then before + [NewRow(kind, h, bytes, expires)] else Rewrite(before, ids, bytes, expires)
  }

  lemma SyncStepAt(rows: Table, kind: Kind, order: seq<string>, want: map<string, nat>, expires: int, j: nat, i: nat)
    requires j < |order| && Lists(order, want)
    requires order[j] in want
    requires i < |SyncedUpTo(rows, kind, order, want, expires, j + 1)|
    ensures
      var h := order[j];
      var before := SyncedUpTo(rows, kind, order, want, expires, j);
      var expected := SyncStepResult(before, HolderIds(rows, kind, h), kind, h, want[h], expires);
      && |SyncedUpTo(rows, kind, order, want, expires, j + 1)| == |expected|
      && SyncedUpTo(rows, kind, order, want, expires, j + 1)[i] == expected[i]
  {
    var h := order[j];
    UpTo(order, want, j);
    HasIds(rows, kind, h);
    MissingStep(rows, kind, order[..j], h);
    SyncedUpToAt(rows, kind, order, want, expires, j, i);
    SyncedUpToAt(rows, kind, order, want, expires, j + 1, i);
    if i < |rows| {
      SyncStepRow(rows, kind, order, want, expires, j, i);
    } else {
      HolderIdsAre(rows, kind, h);
      assert i !in HolderIds(rows, kind, h);
    }
  }

  lemma SyncStep(rows: Table, kind: Kind, order: seq<string>, want: map<string, nat>, expires: int, j: nat)
    requires j < |order| && Lists(order, want)
    ensures
      order[j] in want && SyncedUpTo(rows, kind, order, want, expires, j + 1) ==
        SyncStepResult(SyncedUpTo(rows, kind, order, want, expires, j), HolderIds(rows, kind, order[j]), kind, order[j],
                       want[order[j]], expires)
  {
    UpTo(order, want, j);
    HasIds(rows, kind, order[j]);
    MissingStep(rows, kind, order[..j], order[j]);
    SyncedUpToAt(rows, kind, order, want, expires, j, 0);
    SyncedUpToAt(rows, kind, order, want, expires, j + 1, 0);
    var after := SyncedUpTo(rows, kind, order, want, expires, j + 1);
    var expected :=
      SyncStepResult(SyncedUpTo(rows, kind, order, want, expires, j), HolderIds(rows, kind, order[j]), kind, order[j],
                     want[order[j]], expires);
    assert |after| == |expected|;
    forall i | 0 <= i < |after| ensures after[i] == expected[i] {
      SyncStepAt(rows, kind, order, want, expires, j, i);
    }
  }

  /** Before the first torrent nothing has changed; after the last everything is in step. */
  lemma SyncEnds(rows: Table, kind: Kind, order: seq<string>, want: map<string, nat>, expires: int)
    requires Lists(order, want)
    ensures SyncedUpTo(rows, kind, order, want, expires, 0) == rows
    ensures SyncedUpTo(rows, kind, order, want, expires, |order|) == Synced(rows, kind, order, want, expires)
  {
    assert order[..0] == [] && order[..|order|] == order;
    assert Only(want, order) == want;
  }

  lemma NoHolders(kind: Kind)
    ensures forall h :: HolderIds([], kind, h) == []
  {
  }

  lemma MissingStep(rows: Table, kind: Kind, order: seq<string>, h: string)
    ensures Missing(rows, kind, order + [h]) == Missing(rows, kind, order) + if HasHolder(rows, kind, h) then []
      else [h]
  {
  }

  function IdsOf(existing: map<string, seq<nat>>, h: string): seq<nat> {
    if h in existing then existing[h] else []
  }

  lemma HolderIdsStep(rows: Table, kind: Kind, i: nat, h: string)
    requires i < |rows|
    ensures HolderIds(rows[..i + 1], kind, h) == HolderIds(rows[..i], kind, h) + if Holds(rows[i], kind, h) then [i]
      else []
  {
    assert rows[..i + 1][..i] == rows[..i];
  }

  class StateDb {
    var reservations: Table
    var allocations: map<string, Tables.Allocation>
    var soak: map<string, Tables.SoakRow>
    var health: map<string, Tables.HealthRow>
    var batches: seq<BatchLifecycle.BatchRow>
    var jobs: seq<BatchLifecycle.UploadJob>

    /** Nothing promises the order in which an unordered query returns the rows. */
    method Scan() returns (ids: seq<nat>)
      ensures IsScan(ids, |reservations|)
    {
      ids := [];
      for i := 0 to |reservations|
        invariant |ids| == i && forall j :: 0 <= j < i ==> ids[j] == j
      {
        ids := ids + [i];
      }
      forall x: nat | x < |reservations| ensures x in ids {
        assert ids[x] == x;
      }
    }

    /** The ids of the unreleased rows of one kind, by torrent. */
    method HoldersByHash(kind: Kind) returns (existing: map<string, seq<nat>>)
      ensures forall h :: IdsOf(existing, h) == HolderIds(reservations, kind, h)
    {
      hide HolderIds;
      NoHolders(kind);
      assert reservations[..0] == [];
      existing := map[];
      for i := 0 to |reservations|
        invariant forall h :: IdsOf(existing, h) == HolderIds(reservations[..i], kind, h)
      {
        var r := reservations[i];
        ghost var before := existing;
        if r.kind == kind && r.state.Active? && r.hash.Some? {
          existing := existing[r.hash.value := IdsOf(existing, r.hash.value) + [i]];
        }
        forall h ensures IdsOf(existing, h) == HolderIds(reservations[..i + 1], kind, h) {
          HolderIdsStep(reservations, kind, i, h);
          assert IdsOf(before, h) == HolderIds(reservations[..i], kind, h);
        }
      }
      assert reservations[..|reservations|] == reservations;
    }

    /** Bring one scheduler's rows in step with what it wants, torrent by torrent. */
    method SyncRows(kind: Kind, order: seq<string>, want: map<string, nat>, expires: int)
      requires Lists(order, want)
      modifies this`reservations
      ensures reservations == Synced(old(reservations), kind, order, want, expires)
    {
      hide SyncedUpTo, Synced, HolderIds, Rewrite, NewRow, Only, Lists;
      var existing := HoldersByHash(kind);
      SyncEnds(reservations, kind, order, want, expires);
      for j := 0 to |order|
        invariant reservations == SyncedUpTo(old(reservations), kind, order, want, expires, j)
      {
        var h := order[j];
        SyncStep(old(reservations), kind, order, want, expires, j);
        var ids := IdsOf(existing, h);
        assert ids == HolderIds(old(reservations), kind, h);
        if ids == [] {
          reservations := reservations + [NewRow(kind, h, want[h], expires)];
        } else {
          reservations := Rewrite(reservations, ids, want[h], expires);
        }
      }
    }
  }
}
