/** The soak queue's speed samples: a moving average per managed torrent, kept in its soak row. */
module SoakSamples {
  import opened Options
  import opened Rounding
  import opened Torrents
  import opened SoakTrim
  import Tables

  /** Seven tenths of what was, three tenths of what is; the first sample counts in full. */
  function NextEma(soak: SoakRows, h: string, current: nat): nat {
    if h !in soak || soak[h].sampledAt.None? then current
    else RoundHalfEven(soak[h].ema as real * 0.7 + current as real * 0.3)
  }

  function Speeds(ts: seq<Torrent>, soak: SoakRows): map<string, nat> {
    if ts == [] then map[]
    else
      var t := ts[|ts| - 1];
      Speeds(ts[..|ts| - 1], soak)[t.hash := NextEma(soak, t.hash, t.dlspeed)]
  }

  function SampledRow(soak: SoakRows, h: string, ema: nat, now: int): Tables.SoakRow {
    if h in soak then soak[h].(ema := ema, sampledAt := Some(now))
    else Tables.SoakRow(Tables.Candidate, None, None, None, 0, ema, Some(now))
  }

  function Sampled(soak: SoakRows, speeds: map<string, nat>, now: int): SoakRows {
    map h | h in soak.Keys + speeds.Keys :: if h in speeds then SampledRow(soak, h, speeds[h], now) else soak[h]
  }

  /** A speed between what was and what is, up to the rounding. */
  lemma EmaIsBetween(soak: SoakRows, h: string, current: nat)
    requires h in soak
    ensures
      var ema := NextEma(soak, h, current);
      && (soak[h].ema <= current ==> soak[h].ema <= ema || soak[h].sampledAt.None?)
      && (soak[h].ema <= current ==> ema <= current)
      && (soak[h].ema >= current ==> current <= ema <= soak[h].ema)
  {
  }

  /** Sampling leaves every torrent's phase and timers alone; a torrent without a row gets a candidate's. */
  lemma SamplingOnlySamples(soak: SoakRows, speeds: map<string, nat>, now: int, h: string)
    ensures h in Sampled(soak, speeds, now) <==> h in soak || h in speeds
    ensures h in soak ==> Sampled(soak, speeds, now)[h].(ema := soak[h].ema, sampledAt := soak[h].sampledAt) == soak[h]
    ensures h !in soak && h in speeds ==> Sampled(soak, speeds, now)[h].phase.Candidate?
  {
  }

  lemma SampleNext(ts: seq<Torrent>, soak: SoakRows, i: nat, now: int)
    requires i < |ts|
    ensures Speeds(ts[..i + 1], soak) == Speeds(ts[..i], soak)[ts[i].hash := NextEma(soak, ts[i].hash, ts[i].dlspeed)]
    ensures
      var ema := NextEma(soak, ts[i].hash, ts[i].dlspeed);
      Sampled(soak, Speeds(ts[..i + 1], soak), now)
        == Sampled(soak, Speeds(ts[..i], soak), now)[ts[i].hash := SampledRow(soak, ts[i].hash, ema, now)]
  {
    hide NextEma;
    assert ts[..i + 1][..i] == ts[..i];
  }

  lemma {:induction false} SpeedsAre(ts: seq<Torrent>, soak: SoakRows, t: Torrent)
    requires t in ts
    ensures t.hash in Speeds(ts, soak)
  {
    if t in ts[..|ts| - 1] {
      SpeedsAre(ts[..|ts| - 1], soak, t);
    } else {
      assert ts == ts[..|ts| - 1] + [ts[|ts| - 1]];
    }
  }

  /** Each sampled speed is the torrent's next average. */
  lemma {:induction false} SpeedIs(ts: seq<Torrent>, soak: SoakRows, i: nat)
    requires DistinctHashes(ts) && i < |ts|
    ensures ts[i].hash in Speeds(ts, soak)
    ensures Speeds(ts, soak)[ts[i].hash] == NextEma(soak, ts[i].hash, ts[i].dlspeed)
  {
    hide NextEma;
    var n := |ts| - 1;
    if i < n {
      SpeedIs(ts[..n], soak, i);
      assert ts[..n][i] == ts[i];
    }
  }

  /** The first sample counts in full, every other for three tenths, to the nearest byte per second. */
  lemma NextEmaMeans(soak: SoakRows, h: string, current: nat)
    ensures
      var ema := NextEma(soak, h, current);
      if h !in soak || soak[h].sampledAt.None? then ema == current
      else -5 <= 10 * ema - (7 * soak[h].ema + 3 * current) <= 5
  {
  }

  lemma NothingSampled(ts: seq<Torrent>, soak: SoakRows, now: int)
    ensures Speeds(ts[..0], soak) == map[] && Sampled(soak, map[], now) == soak && ts[..|ts|] == ts
  {
  }
}
