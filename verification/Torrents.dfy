/** One qBittorrent snapshot row, as the schedulers read it. */
module Torrents {
  import opened Options

  datatype Torrent = Torrent(
    hash: string,
    category: string,
    tags: set<string>,
    stopped: bool,       // the lower-cased qBT state is one of the six paused or stopped names
    amountLeft: nat,
    size: nat,
    progress: real,
    pieceSize: nat,
    seeds: nat,
    peers: nat,
    dlspeed: nat,
    completed: nat,
    stalledSeconds: nat)

  predicate IsManaged(t: Torrent) {
    (t.category == "auto" || "auto" in t.tags) && "hold" !in t.tags
  }

  predicate IsRunning(t: Torrent) {
    !t.stopped && t.progress < 1.0 && t.amountLeft > 0
  }

  /** The snapshots are a dictionary, so no hash appears twice; no hash is empty. */
  ghost predicate DistinctHashes(ts: seq<Torrent>) {
    && (forall i, j :: 0 <= i < j < |ts| ==> ts[i].hash != ts[j].hash)
    && (forall i :: 0 <= i < |ts| ==> ts[i].hash != "")
  }

  function HashSet(ts: seq<Torrent>): set<string> {
    set i | 0 <= i < |ts| :: ts[i].hash
  }

  lemma HashSetAppend(ts: seq<Torrent>, t: Torrent)
    ensures HashSet(ts + [t]) == HashSet(ts) + {t.hash}
  {
    forall h | h in HashSet(ts) + {t.hash} ensures h in HashSet(ts + [t]) {
      if h == t.hash {
        assert (ts + [t])[|ts|].hash == h;
      } else {
        var i :| 0 <= i < |ts| && ts[i].hash == h;
        assert (ts + [t])[i].hash == h;
      }
    }
  }

  function HashSeq(ts: seq<Torrent>): seq<string> {
    seq(|ts|, i requires 0 <= i < |ts| => ts[i].hash)
  }

  function Find(ts: seq<Torrent>, h: string): Option<Torrent> {
    if ts == [] then None
    else if ts[0].hash == h then Some(ts[0])
    else Find(ts[1..], h)
  }

  function Filter(ts: seq<Torrent>, keep: Torrent -> bool): seq<Torrent> {
    if ts == [] then []
    else
      var n := |ts| - 1;
      Filter(ts[..n], keep) + if keep(ts[n]) then [ts[n]] else []
  }

  lemma {:induction false} FilterElements(ts: seq<Torrent>, keep: Torrent -> bool)
    ensures forall t :: t in Filter(ts, keep) <==> t in ts && keep(t)
  {
    if ts != [] {
      var n := |ts| - 1;
      FilterElements(ts[..n], keep);
      assert ts == ts[..n] + [ts[n]];
    }
  }

  lemma FilterNone(ts: seq<Torrent>, keep: Torrent -> bool)
    requires forall t :: t in ts ==> !keep(t)
    ensures Filter(ts, keep) == []
  {
    hide Filter;
    FilterElements(ts, keep);
    if Filter(ts, keep) != [] {
      assert Filter(ts, keep)[0] in Filter(ts, keep);
    }
  }

  lemma {:induction false} FilterAll(ts: seq<Torrent>, keep: Torrent -> bool)
    requires forall t :: t in ts ==> keep(t)
    ensures Filter(ts, keep) == ts
  {
    if ts != [] {
      var n := |ts| - 1;
      FilterAll(ts[..n], keep);
      assert ts[n] in ts;
    }
  }

  lemma {:induction false} FilterDistinct(ts: seq<Torrent>, keep: Torrent -> bool)
    requires DistinctHashes(ts)
    ensures DistinctHashes(Filter(ts, keep))
  {
    if ts != [] {
      var n := |ts| - 1;
      FilterDistinct(ts[..n], keep);
      FilterElements(ts[..n], keep);
      var kept := Filter(ts[..n], keep);
      forall i | 0 <= i < |kept| ensures kept[i].hash != ts[n].hash && kept[i].hash != "" {
        assert kept[i] in ts[..n];
      }
    }
  }

  /** Rearranging torrents keeps their hashes distinct. */
  lemma DistinctPermutation(a: seq<Torrent>, b: seq<Torrent>)
    requires DistinctHashes(a) && multiset(a) == multiset(b)
    ensures DistinctHashes(b)
  {
    forall i, j | 0 <= i < j < |b| ensures b[i].hash != b[j].hash {
      if b[i].hash == b[j].hash {
        assert b[i] in multiset(a) && b[j] in multiset(a);
        assert b[i] in a && b[j] in a;
        var p, q :| 0 <= p < |a| && 0 <= q < |a| && a[p] == b[i] && a[q] == b[j];
        assert p == q;
        TwoCopies(b, i, j);
        OneCopy(a, p);
      }
    }
    forall i | 0 <= i < |b| ensures b[i].hash != "" {
      assert b[i] in multiset(a);
      assert b[i] in a;
    }
  }

  lemma TwoCopies<T>(s: seq<T>, i: nat, j: nat)
    requires i < j < |s| && s[i] == s[j]
    ensures multiset(s)[s[i]] >= 2
  {
    assert s == s[..j] + [s[j]] + s[j + 1..];
    assert s[..j][i] in multiset(s[..j]);
  }

  lemma {:induction false} OneCopy(s: seq<Torrent>, p: nat)
    requires DistinctHashes(s) && p < |s|
    ensures multiset(s)[s[p]] == 1
  {
    var left, right := s[..p], s[p + 1..];
    assert s == left + [s[p]] + right;
    assert forall i :: 0 <= i < |left| ==> left[i].hash != s[p].hash;
    assert forall i :: 0 <= i < |right| ==> right[i] == s[p + 1 + i] && right[i].hash != s[p].hash;
  }
}
