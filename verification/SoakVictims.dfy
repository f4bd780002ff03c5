/**
 Which active downloads a hot resident may push out, how many bytes that is credited with, and how
 many bytes it really frees.
 */
module SoakVictims {
  import opened Options
  import opened Sums
  import opened Order
  import opened Ledger
  import opened LedgerUpdates
  import opened Torrents
  import Tables

  type Allocations = map<string, Tables.Allocation>

  datatype Scored = Scored(score: int, hash: string, bytes: nat)

  /** A download that may be stopped for a hot resident. */
  predicate MayPreempt(h: string, alloc: Allocations, snapshots: seq<Torrent>, excluded: set<string>) {
    && h != "" && h !in excluded
    && h in alloc && alloc[h].desired == Tables.Desired.Active
    && var found := Find(snapshots, h);
       && found.Some?
       && "hold" !in found.value.tags && "seed-long" !in found.value.tags
       && found.value.progress < 0.95 && found.value.amountLeft > 0
       && IsRunning(found.value)
  }

  /** Two bytes per byte per second, plus the reservation, less the part already downloaded. */
  function Score(t: Torrent, bytes: nat): int {
    t.dlspeed * 2 + bytes - (t.progress * bytes as real).Floor
  }

  function ScoreRow(r: Row, alloc: Allocations, snapshots: seq<Torrent>, excluded: set<string>): seq<Scored> {
    if r.hash.Some? && Holds(r, ActiveDownload, r.hash.value) && MayPreempt(r.hash.value, alloc, snapshots, excluded)
    then [Scored(Score(Find(snapshots, r.hash.value).value, r.bytes), r.hash.value, r.bytes)]
    else []
  }

  function ScoreRows(rows: Table, alloc: Allocations, snapshots: seq<Torrent>, excluded: set<string>): seq<Scored> {
    if rows == [] then []
    else
      var n := |rows| - 1;
      ScoreRows(rows[..n], alloc, snapshots, excluded) + ScoreRow(rows[n], alloc, snapshots, excluded)
  }

  function Rank(s: Scored): seq<real> {
    [s.score as real] + Code(s.hash) + [s.bytes as real]
  }

  /** Best victim first. */
  function Ranked(scored: seq<Scored>): seq<Scored> {
    Reverse(Sort(scored, Rank))
  }

  /** The shortest prefix that covers the need, or everything when nothing does. */
  function Cover(scored: seq<Scored>, needed: int): seq<Scored> {
    if scored == [] then []
    else if scored[0].bytes >= needed then [scored[0]]
    else [scored[0]] + Cover(scored[1..], needed - scored[0].bytes)
  }

  function Bytes(scored: seq<Scored>): nat {
    if scored == [] then 0 else Bytes(scored[..|scored| - 1]) + scored[|scored| - 1].bytes
  }

  /** The victims for a need, none when all of them together fall short. */
  function Victims(rows: Table, alloc: Allocations, snapshots: seq<Torrent>, excluded: set<string>,
                   needed: int): seq<Scored> {
    var cover := Cover(Ranked(ScoreRows(rows, alloc, snapshots, excluded)), needed);
    if Bytes(cover) < needed then [] else cover
  }

  function VictimHashes(victims: seq<Scored>): seq<string> {
    seq(|victims|, i requires 0 <= i < |victims| => victims[i].hash)
  }

  function HashesOf(victims: seq<Scored>): set<string> {
    set i | 0 <= i < |victims| :: victims[i].hash
  }

  // ---------------------------------------------------------------------------------------------
  // The list covers the need, and barely
  // ---------------------------------------------------------------------------------------------

  lemma {:induction false} BytesCons(s: Scored, rest: seq<Scored>)
    ensures Bytes([s] + rest) == s.bytes + Bytes(rest)
  {
    if rest == [] {
      assert [s] + rest == [s];
    } else {
      var n := |rest| - 1;
      assert ([s] + rest)[..n + 1] == [s] + rest[..n];
      BytesCons(s, rest[..n]);
    }
  }

  lemma FirstBytes(s: Scored)
    ensures Bytes([s]) == s.bytes && Bytes([s][..0]) == 0
  {
  }

  /** A first row that does not cover the need, in front of a minimal cover for what is left. */
  lemma CoverOneMore(scored: seq<Scored>, rest: seq<Scored>, needed: int)
    requires scored != [] && scored[0].bytes < needed && rest <= scored[1..]
    requires Bytes(rest) < needed - scored[0].bytes ==> rest == scored[1..]
    requires rest != [] && Bytes(rest) >= needed - scored[0].bytes ==>
      Bytes(rest[..|rest| - 1]) < needed - scored[0].bytes
    ensures
      var cover := [scored[0]] + rest;
      && cover <= scored
      && (Bytes(cover) < needed ==> cover == scored)
      && (Bytes(cover) >= needed ==> Bytes(cover[..|cover| - 1]) < needed)
  {
    hide Bytes;
    var cover := [scored[0]] + rest;
    BytesCons(scored[0], rest);
    FirstBytes(scored[0]);
    assert scored == [scored[0]] + scored[1..];
    if rest != [] {
      assert cover[..|rest|] == [scored[0]] + rest[..|rest| - 1];
      BytesCons(scored[0], rest[..|rest| - 1]);
    } else {
      assert cover == [scored[0]];
    }
  }

  lemma {:induction false} CoverIsMinimal(scored: seq<Scored>, needed: int)
    requires needed > 0
    ensures
      var cover := Cover(scored, needed);
      && cover <= scored
      && (Bytes(cover) < needed ==> cover == scored)
      && (cover != [] && Bytes(cover) >= needed ==> Bytes(cover[..|cover| - 1]) < needed)
  {
    if scored == [] {
      assert Bytes([]) == 0;
    } else {
      FirstBytes(scored[0]);
      if scored[0].bytes < needed {
        CoverIsMinimal(scored[1..], needed - scored[0].bytes);
        CoverOneMore(scored, Cover(scored[1..], needed - scored[0].bytes), needed);
      }
    }
  }

  /** A victim list covers its need and stops covering it without its last member. */
  lemma VictimsCoverBarely(rows: Table, alloc: Allocations, snapshots: seq<Torrent>, excluded: set<string>, needed: int)
    requires needed > 0
    ensures
      var victims := Victims(rows, alloc, snapshots, excluded, needed);
      victims != [] ==> Bytes(victims) >= needed && Bytes(victims[..|victims| - 1]) < needed
  {
    CoverIsMinimal(Ranked(ScoreRows(rows, alloc, snapshots, excluded)), needed);
  }

  // ---------------------------------------------------------------------------------------------
  // Credit against release
  // ---------------------------------------------------------------------------------------------

  /** What a list credits to one torrent. */
  function Credit(scored: seq<Scored>, h: string): nat {
    if scored == [] then 0
    else Credit(scored[1..], h) + if scored[0].hash == h then scored[0].bytes else 0
  }

  lemma {:induction false} CreditAppend(a: seq<Scored>, b: seq<Scored>, h: string)
    ensures Credit(a + b, h) == Credit(a, h) + Credit(b, h)
  {
    if a == [] {
      assert a + b == b;
    } else {
      assert (a + b)[1..] == a[1..] + b;
      CreditAppend(a[1..], b, h);
    }
  }

  lemma {:induction false} CreditInsert(x: Scored, s: seq<Scored>, h: string)
    ensures Credit(Insert(x, s, Rank), h) == Credit([x], h) + Credit(s, h)
  {
    if s == [] {
    } else if LexLe(Rank(x), Rank(s[0])) {
      CreditAppend([x], s, h);
    } else {
      CreditInsert(x, s[1..], h);
      assert ([s[0]] + Insert(x, s[1..], Rank))[1..] == Insert(x, s[1..], Rank);
    }
  }

  lemma {:induction false} CreditSort(s: seq<Scored>, h: string)
    ensures Credit(Sort(s, Rank), h) == Credit(s, h)
  {
    if s != [] {
      CreditSort(s[1..], h);
      CreditInsert(s[0], Sort(s[1..], Rank), h);
    }
  }

  lemma {:induction false} CreditReverse(s: seq<Scored>, h: string)
    ensures Credit(Reverse(s), h) == Credit(s, h)
  {
    if s != [] {
      CreditReverse(s[1..], h);
      CreditAppend(Reverse(s[1..]), [s[0]], h);
    }
  }

  /** All unreleased download bytes of one torrent, expired ones too: what preemption can credit. */
  function Held(rows: Table, h: string): nat {
    if rows == [] then 0
    else
      var n := |rows| - 1;
      Held(rows[..n], h) + if Holds(rows[n], ActiveDownload, h) then rows[n].bytes else 0
  }

  lemma {:induction false} CreditFromRows(rows: Table, alloc: Allocations, snapshots: seq<Torrent>,
                                          excluded: set<string>, h: string)
    ensures Credit(ScoreRows(rows, alloc, snapshots, excluded), h) <= Held(rows, h)
  {
    if rows != [] {
      var n := |rows| - 1;
      CreditFromRows(rows[..n], alloc, snapshots, excluded, h);
      CreditAppend(ScoreRows(rows[..n], alloc, snapshots, excluded), ScoreRow(rows[n], alloc, snapshots, excluded), h);
    }
  }

  lemma VictimCredit(rows: Table, alloc: Allocations, snapshots: seq<Torrent>, excluded: set<string>, needed: int,
                     h: string)
    requires needed > 0
    ensures Credit(Victims(rows, alloc, snapshots, excluded, needed), h) <= Held(rows, h)
  {
    var scored := ScoreRows(rows, alloc, snapshots, excluded);
    var ranked := Ranked(scored);
    var cover := Cover(ranked, needed);
    CoverIsMinimal(ranked, needed);
    assert ranked == cover + ranked[|cover|..];
    CreditAppend(cover, ranked[|cover|..], h);
    CreditReverse(Sort(scored, Rank), h);
    CreditSort(scored, h);
    CreditFromRows(rows, alloc, snapshots, excluded, h);
  }

  function Credits(scored: seq<Scored>): map<Key, nat> {
    map h | h in HashesOf(scored) :: ByHash(h) := Credit(scored, h)
  }

  lemma {:induction false} NoCredit(scored: seq<Scored>, h: string)
    requires h !in HashesOf(scored)
    ensures Credit(scored, h) == 0
  {
    if scored != [] {
      assert scored[0].hash in HashesOf(scored);
      forall x | x in HashesOf(scored[1..]) ensures x in HashesOf(scored) {
        var i :| 0 <= i < |scored[1..]| && scored[1..][i].hash == x;
        assert scored[i + 1].hash == x;
      }
      NoCredit(scored[1..], h);
    }
  }

  lemma AtCredits(scored: seq<Scored>, k: Key)
    ensures At(Credits(scored), k) == if k.ByHash? then Credit(scored, k.hash) else 0
  {
  }

  lemma {:induction false} CreditsAddUp(scored: seq<Scored>)
    ensures Sum(Credits(scored)) == Bytes(scored)
  {
    if scored == [] {
      assert Credits(scored) == map[];
    } else {
      var n := |scored| - 1;
      var last := scored[n];
      CreditsAddUp(scored[..n]);
      assert scored == scored[..n] + [last];
      forall k ensures At(Credits(scored), k)
        == At(Credits(scored[..n]), k) + At(map[ByHash(last.hash) := last.bytes], k) {
        AtCredits(scored, k);
        AtCredits(scored[..n], k);
        if k.ByHash? {
          CreditAppend(scored[..n], [last], k.hash);
        }
      }
      SumSplit(Credits(scored), Credits(scored[..n]), map[ByHash(last.hash) := last.bytes]);
      SumSingle(ByHash(last.hash), last.bytes);
    }
  }

  /** What stopping one torrent really frees: nothing that a batch of it covers anyway. */
  function Freed(rows: Table, now: int, h: string): nat {
    var a := Col(rows, now, ByHash(h), ActiveColumn);
    var b := Col(rows, now, ByHash(h), BatchColumn);
    Max(a, b) - b
  }

  function FreedBy(rows: Table, now: int, hs: set<string>): map<Key, nat> {
    map h | h in hs :: ByHash(h) := Freed(rows, now, h)
  }

  /** Releasing the downloads of some torrents lowers the ledger by exactly what they freed. */
  lemma ReleaseFrees(rows: Table, now: int, hs: set<string>)
    requires "" !in hs
    ensures Total(rows, now, true)
      == Total(ReleaseKind(rows, ActiveDownload, hs), now, true) + Sum(FreedBy(rows, now, hs))
  {
    var rows' := ReleaseKind(rows, ActiveDownload, hs);
    forall k ensures At(Needs(rows, now, true), k) == At(Needs(rows', now, true), k) + At(FreedBy(rows, now, hs), k) {
      AtNeeds(rows, now, true, k);
      AtNeeds(rows', now, true, k);
      ReleaseKindColumns(rows, ActiveDownload, hs, now, k, ActiveColumn);
      ReleaseKindColumns(rows, ActiveDownload, hs, now, k, BatchColumn);
      ReleaseKindColumns(rows, ActiveDownload, hs, now, k, RestColumn);
    }
    SumSplit(Needs(rows, now, true), Needs(rows', now, true), FreedBy(rows, now, hs));
  }

  lemma {:induction false} LiveWithinHeld(rows: Table, now: int, h: string)
    requires h != ""
    ensures Col(rows, now, ByHash(h), ActiveColumn) <= Held(rows, h)
  {
    if rows != [] {
      LiveWithinHeld(rows[..|rows| - 1], now, h);
    }
  }

  /**
   A torrent's release is worth its credit exactly when none of its unreleased download bytes have
   expired and no live batch of it covers them.
   */
  predicate CreditIsHonest(rows: Table, now: int, h: string) {
    && Held(rows, h) == Col(rows, now, ByHash(h), ActiveColumn)
    && (Held(rows, h) == 0 || Col(rows, now, ByHash(h), BatchColumn) == 0)
  }

  lemma HonestIffFreed(rows: Table, now: int, h: string)
    requires h != ""
    ensures Freed(rows, now, h) <= Held(rows, h)
    ensures CreditIsHonest(rows, now, h) <==> Freed(rows, now, h) == Held(rows, h)
  {
  }

  lemma {:induction false} CreditWithinBytes(scored: seq<Scored>, h: string)
    ensures Credit(scored, h) <= Bytes(scored)
  {
    if scored != [] {
      CreditWithinBytes(scored[1..], h);
      BytesCons(scored[0], scored[1..]);
      assert scored == [scored[0]] + scored[1..];
    } else {
      assert Bytes(scored) == 0;
    }
  }

  lemma {:induction false} BytesAppend(a: seq<Scored>, b: seq<Scored>)
    ensures Bytes(a + b) == Bytes(a) + Bytes(b)
  {
    if b == [] {
      assert a + b == a;
    } else {
      var n := |b| - 1;
      BytesAppend(a, b[..n]);
      assert (a + b)[..|a| + n] == a + b[..n];
    }
  }

  /** Every row of a torrent that may be preempted is scored. */
  lemma {:induction false} AllRowsScored(rows: Table, alloc: Allocations, snapshots: seq<Torrent>,
                                         excluded: set<string>, h: string)
    requires MayPreempt(h, alloc, snapshots, excluded)
    ensures Credit(ScoreRows(rows, alloc, snapshots, excluded), h) == Held(rows, h)
  {
    hide MayPreempt;
    if rows != [] {
      var n := |rows| - 1;
      AllRowsScored(rows[..n], alloc, snapshots, excluded, h);
      CreditAppend(ScoreRows(rows[..n], alloc, snapshots, excluded), ScoreRow(rows[n], alloc, snapshots, excluded), h);
      OneRowScored(rows[n], alloc, snapshots, excluded, h);
    }
  }

  lemma OneRowScored(r: Row, alloc: Allocations, snapshots: seq<Torrent>, excluded: set<string>, h: string)
    requires MayPreempt(h, alloc, snapshots, excluded)
    ensures Credit(ScoreRow(r, alloc, snapshots, excluded), h) == if Holds(r, ActiveDownload, h) then r.bytes else 0
  {
  }

  /** A need as large as everything there is: all the torrent's bytes are credited. */
  lemma GreatestCredit(rows: Table, alloc: Allocations, snapshots: seq<Torrent>, excluded: set<string>, h: string)
    returns (needed: nat)
    requires MayPreempt(h, alloc, snapshots, excluded) && Held(rows, h) > 0
    ensures needed > 0 && Credit(Victims(rows, alloc, snapshots, excluded, needed), h) == Held(rows, h)
  {
    hide MayPreempt, ScoreRows, Ranked, Cover, Bytes, Credit;
    var scored := ScoreRows(rows, alloc, snapshots, excluded);
    var ranked := Ranked(scored);
    RankedCredit(scored, h);
    AllRowsScored(rows, alloc, snapshots, excluded, h);
    CreditWithinBytes(ranked, h);
    needed := Bytes(ranked);
    var cover := Cover(ranked, needed);
    CoverIsMinimal(ranked, needed);
    var rest := ranked[|cover|..];
    assert ranked == cover + rest;
    BytesAppend(cover, rest);
    CreditAppend(cover, rest, h);
    CreditWithinBytes(rest, h);
  }

  lemma RankedCredit(scored: seq<Scored>, h: string)
    ensures Credit(Ranked(scored), h) == Credit(scored, h)
  {
    CreditReverse(Sort(scored, Rank), h);
    CreditSort(scored, h);
  }

  /**
   No victim list ever credits a torrent with more than its release frees if and only if its credit is
   honest: none of its unreleased download bytes have expired, and no live batch of it covers them.
   */
  lemma CreditCoveredIff(rows: Table, now: int, alloc: Allocations, snapshots: seq<Torrent>, excluded: set<string>,
                         h: string)
    requires MayPreempt(h, alloc, snapshots, excluded)
    ensures (forall needed: int :: needed > 0 ==>
      Credit(Victims(rows, alloc, snapshots, excluded, needed), h) <= Freed(rows, now, h))
       <==> CreditIsHonest(rows, now, h)
  {
    hide Victims, Credit, CreditIsHonest, Freed;
    HonestIffFreed(rows, now, h);
    if CreditIsHonest(rows, now, h) {
      forall needed: int | needed > 0
        ensures Credit(Victims(rows, alloc, snapshots, excluded, needed), h) <= Freed(rows, now, h) {
        VictimCredit(rows, alloc, snapshots, excluded, needed, h);
      }
    } else {
      var needed := GreatestCredit(rows, alloc, snapshots, excluded, h);
    }
  }

  /**
   An expired row nobody counts any more makes its torrent a victim and is credited in full, and so are
   bytes a batch covers anyway; releasing them frees nothing.
   */
  lemma CreditMayBeDishonest(t: Torrent, bytes: nat)
    requires t.hash != "" && bytes > 0 && IsRunning(t) && t.tags == {} && t.progress < 0.95
    ensures
      var h := t.hash;
      var alloc := map[h := Tables.Allocation(Tables.Desired.Active, bytes, None, 0)];
      var expired := [Row(Some(h), None, ActiveDownload, bytes, RowState.Active, Some(0))];
      var covered :=
        [Row(Some(h), None, ActiveDownload, bytes, RowState.Active, None),
         Row(Some(h), Some(0), Batch, bytes, RowState.Active, None)];
      && Victims(expired, alloc, [t], {}, bytes) == [Scored(Score(t, bytes), h, bytes)]
      && Freed(expired, 1, h) == 0
      && Victims(covered, alloc, [t], {}, bytes) == [Scored(Score(t, bytes), h, bytes)]
      && Freed(covered, 1, h) == 0
  {
    var h := t.hash;
    var alloc := map[h := Tables.Allocation(Tables.Desired.Active, bytes, None, 0)];
    var live := Row(Some(h), None, ActiveDownload, bytes, RowState.Active, None);
    var covered := [live, Row(Some(h), Some(0), Batch, bytes, RowState.Active, None)];
    assert Find([t], h) == Some(t);
    assert MayPreempt(h, alloc, [t], {});
    OnlyVictim(live.(expiresAt := Some(0)), [], alloc, t);
    OnlyVictim(live, [covered[1]], alloc, t);
    assert [live] + [covered[1]] == covered && [live.(expiresAt := Some(0))] + [] == [live.(expiresAt := Some(0))];
    assert covered[..1] == [live];
    assert Col([live], 1, ByHash(h), ActiveColumn) == bytes;
  }

  /** One download row, and at most one row of another kind beside it: the one download is the victim. */
  lemma OnlyVictim(r: Row, more: Table, alloc: Allocations, t: Torrent)
    requires MayPreempt(t.hash, alloc, [t], {}) && Find([t], t.hash) == Some(t)
    requires Holds(r, ActiveDownload, t.hash) && r.bytes > 0
    requires |more| <= 1 && forall i :: 0 <= i < |more| ==> !more[i].kind.ActiveDownload?
    ensures Victims([r] + more, alloc, [t], {}, r.bytes) == [Scored(Score(t, r.bytes), t.hash, r.bytes)]
  {
    hide MayPreempt, Score, ScoreRows, Find, Ranked, Rank;
    var victim := Scored(Score(t, r.bytes), t.hash, r.bytes);
    OnlyScored(r, more, alloc, t);
    RankOne(victim);
    FirstBytes(victim);
  }

  lemma OnlyScored(r: Row, more: Table, alloc: Allocations, t: Torrent)
    requires MayPreempt(t.hash, alloc, [t], {}) && Find([t], t.hash) == Some(t)
    requires Holds(r, ActiveDownload, t.hash)
    requires |more| <= 1 && forall i :: 0 <= i < |more| ==> !more[i].kind.ActiveDownload?
    ensures ScoreRows([r] + more, alloc, [t], {}) == [Scored(Score(t, r.bytes), t.hash, r.bytes)]
  {
    hide MayPreempt, Score, Find;
    var rows := [r] + more;
    assert [r][..0] == [];
    assert ScoreRows([r], alloc, [t], {}) == [Scored(Score(t, r.bytes), t.hash, r.bytes)];
    if more != [] {
      assert rows[..|rows| - 1] == [r];
    } else {
      assert rows == [r];
    }
  }

  lemma RankOne(s: Scored)
    ensures Ranked([s]) == [s]
  {
    assert [s][1..] == [];
    assert Sort([s], Rank) == [s];
  }

  /** Preempting honest victims frees at least what they are credited with. */
  lemma HonestVictimsFree(rows: Table, alloc: Allocations, snapshots: seq<Torrent>, excluded: set<string>, needed: int,
                          now: int)
    requires needed > 0
    requires
      var victims := Victims(rows, alloc, snapshots, excluded, needed);
      "" !in HashesOf(victims) && forall h :: h in HashesOf(victims) ==> CreditIsHonest(rows, now, h)
    ensures
      var victims := Victims(rows, alloc, snapshots, excluded, needed);
      Total(ReleaseKind(rows, ActiveDownload, HashesOf(victims)), now, true) + Bytes(victims) <= Total(rows, now, true)
  {
    var victims := Victims(rows, alloc, snapshots, excluded, needed);
    var hs := HashesOf(victims);
    ReleaseFrees(rows, now, hs);
    CreditsAddUp(victims);
    forall k ensures At(Credits(victims), k) <= At(FreedBy(rows, now, hs), k) {
      AtCredits(victims, k);
      if k.ByHash? && k.hash in hs {
        VictimCredit(rows, alloc, snapshots, excluded, needed, k.hash);
        HonestIffFreed(rows, now, k.hash);
      } else if k.ByHash? {
        NoCredit(victims, k.hash);
      }
    }
    SumMonotone(Credits(victims), FreedBy(rows, now, hs));
  }

  lemma {:induction false} ScoredAreEligible(rows: Table, alloc: Allocations, snapshots: seq<Torrent>,
                                             excluded: set<string>)
    ensures forall s :: s in ScoreRows(rows, alloc, snapshots, excluded) ==>
      MayPreempt(s.hash, alloc, snapshots, excluded)
  {
    if rows != [] {
      ScoredAreEligible(rows[..|rows| - 1], alloc, snapshots, excluded);
    }
  }

  lemma RankedWereScored(scored: seq<Scored>, i: nat)
    requires i < |Ranked(scored)|
    ensures Ranked(scored)[i] in scored
  {
    hide Rank, Sort;
    var sorted := Sort(scored, Rank);
    SortIsSorted(scored, Rank);
    assert Ranked(scored)[i] == sorted[|sorted| - 1 - i];
    assert Ranked(scored)[i] in multiset(sorted);
  }

  /** Every victim is an eligible download: not excluded, not held, not nearly done, and running. */
  lemma VictimsAreEligible(rows: Table, alloc: Allocations, snapshots: seq<Torrent>, excluded: set<string>, needed: int)
    requires needed > 0
    ensures forall h :: h in HashesOf(Victims(rows, alloc, snapshots, excluded, needed)) ==>
      MayPreempt(h, alloc, snapshots, excluded)
  {
    hide MayPreempt, ScoreRows, Ranked, Cover, Bytes;
    var scored := ScoreRows(rows, alloc, snapshots, excluded);
    var victims := Victims(rows, alloc, snapshots, excluded, needed);
    ScoredAreEligible(rows, alloc, snapshots, excluded);
    CoverIsMinimal(Ranked(scored), needed);
    forall i | 0 <= i < |victims| ensures MayPreempt(victims[i].hash, alloc, snapshots, excluded) {
      RankedWereScored(scored, i);
    }
  }
}
