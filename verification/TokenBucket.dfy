/** The token bucket in front of the qBittorrent client, with the clock readings as inputs. */
module TokenBucket {

  datatype Bucket = Bucket(rate: real, tokens: real, updatedAt: real)

  /** The clock when a call came in, and when it came back from sleeping, should it have to sleep. */
  datatype Call = Call(now: real, woke: real)

  function Capacity(rate: real): real {
    if rate < 1.0 then 1.0 else rate
  }

  /** What has accrued when a call comes in; a clock that went back accrues nothing. */
  function Accrued(b: Bucket, now: real): real {
    var elapsed := if now < b.updatedAt then 0.0 else now - b.updatedAt;
    var full := b.tokens + elapsed * b.rate;
    if full < Capacity(b.rate) then full else Capacity(b.rate)
  }

  predicate Sleeps(b: Bucket, now: real) {
    b.rate > 0.0 && Accrued(b, now) < 1.0
  }

  function SleepFor(b: Bucket, now: real): real
    requires b.rate > 0.0
  {
    (1.0 - Accrued(b, now)) / b.rate
  }

  function Acquired(b: Bucket, c: Call): Bucket {
    if b.rate <= 0.0 then b
    else if Sleeps(b, c.now) then b.(tokens := 0.0, updatedAt := c.woke)
    else b.(tokens := Accrued(b, c.now) - 1.0, updatedAt := c.now)
  }

  predicate InRange(b: Bucket) {
    0.0 <= b.tokens <= Capacity(b.rate)
  }

  /** The bucket is never overdrawn and never over-full, whatever the clock does. */
  lemma StaysInRange(b: Bucket, c: Call)
    requires InRange(b)
    ensures InRange(Acquired(b, c))
  {
  }

  // ---------------------------------------------------------------------------------------------
  // Runs of calls
  // ---------------------------------------------------------------------------------------------

  function After(b: Bucket, calls: seq<Call>): Bucket
    decreases |calls|
  {
    if calls == [] then b else Acquired(After(b, calls[..|calls| - 1]), calls[|calls| - 1])
  }

  /** The clock does not go back, and the sleeper sleeps at least as long as asked. */
  predicate Honest(b: Bucket, c: Call) {
    && c.now >= b.updatedAt
    && (Sleeps(b, c.now) ==> c.woke >= c.now + SleepFor(b, c.now))
  }

  ghost predicate Steady(b: Bucket, calls: seq<Call>) {
    forall k :: 0 <= k < |calls| ==> Honest(After(b, calls[..k]), calls[k])
  }

  /** When the k-th call got its token. */
  function TimeOf(b: Bucket, calls: seq<Call>, k: nat): real
    requires k < |calls|
  {
    if Sleeps(After(b, calls[..k]), calls[k].now) then calls[k].woke else calls[k].now
  }

  lemma {:induction false} RateIsFixed(b: Bucket, calls: seq<Call>)
    ensures After(b, calls).rate == b.rate
    ensures InRange(b) ==> InRange(After(b, calls))
    decreases |calls|
  {
    if calls != [] {
      RateIsFixed(b, calls[..|calls| - 1]);
      if InRange(b) {
        StaysInRange(After(b, calls[..|calls| - 1]), calls[|calls| - 1]);
      }
    }
  }

  lemma OneMore(b: Bucket, calls: seq<Call>, k: nat)
    requires k < |calls| && b.rate > 0.0
    ensures After(b, calls[..k + 1]) == Acquired(After(b, calls[..k]), calls[k])
    ensures After(b, calls[..k + 1]).updatedAt == TimeOf(b, calls, k)
  {
    assert calls[..k + 1][..k] == calls[..k];
    RateIsFixed(b, calls[..k]);
  }

  /** Sleeping at least as long as asked earns at least what was missing. */
  lemma SleptEnough(tokens: real, t0: real, now: real, wait: real, woke: real, rate: real)
    requires rate > 0.0 && woke >= now + wait && wait * rate == 1.0 - tokens - (now - t0) * rate
    ensures 0.0 <= tokens + (woke - t0) * rate - 1.0
  {
    var longer := woke - now - wait;
    assert longer * rate >= 0.0;
    assert woke - t0 == longer + wait + (now - t0);
  }

  /** One call leaves at most one token less than time has earned. */
  lemma OneCallCostsOne(b: Bucket, c: Call)
    requires b.rate > 0.0 && InRange(b) && Honest(b, c)
    ensures
      var after := Acquired(b, c);
      && after.tokens <= b.tokens + (after.updatedAt - b.updatedAt) * b.rate - 1.0
      && after.tokens <= Capacity(b.rate) - 1.0
  {
    if Sleeps(b, c.now) {
      var wait := SleepFor(b, c.now);
      assert wait * b.rate == 1.0 - Accrued(b, c.now);
      SleptEnough(b.tokens, b.updatedAt, c.now, wait, c.woke, b.rate);
    }
  }

  /** Bounds over two stretches of time add up. */
  lemma Chain(left: real, before: real, ceiling: real, t0: real, t1: real, t2: real, r: real, n: int)
    requires left <= before + (t2 - t1) * r - 1.0
    requires before <= ceiling + (t1 - t0) * r - (n - 1) as real
    ensures left <= ceiling + (t2 - t0) * r - n as real
  {
  }

  lemma {:induction false} TokensLeft(b: Bucket, calls: seq<Call>, i: nat, j: nat)
    requires b.rate > 0.0 && InRange(b) && Steady(b, calls) && i <= j < |calls|
    ensures After(b, calls[..j + 1]).tokens
         <= Capacity(b.rate) - 1.0 + (TimeOf(b, calls, j) - TimeOf(b, calls, i)) * b.rate - (j - i) as real
  {
    hide Capacity, Acquired, TimeOf, After, Honest;
    var before := After(b, calls[..j]);
    RateIsFixed(b, calls[..j]);
    OneMore(b, calls, j);
    OneCallCostsOne(before, calls[j]);
    if i < j {
      OneMore(b, calls, j - 1);
      TokensLeft(b, calls, i, j - 1);
      Chain(After(b, calls[..j + 1]).tokens, before.tokens, Capacity(b.rate) - 1.0,
        TimeOf(b, calls, i), TimeOf(b, calls, j - 1), TimeOf(b, calls, j), b.rate, j - i);
    }
  }

  /**
   Of any run of calls, those from the i-th to the j-th got no more tokens than the bucket holds plus
   what the time between them earns.
   */
  lemma RateBound(b: Bucket, calls: seq<Call>, i: nat, j: nat)
    requires b.rate > 0.0 && InRange(b) && Steady(b, calls) && i <= j < |calls|
    ensures
      var burst := if b.rate > 1.0 then b.rate else 1.0;
      (j - i + 1) as real <= burst + b.rate * (TimeOf(b, calls, j) - TimeOf(b, calls, i))
  {
    TokensLeft(b, calls, i, j);
    RateIsFixed(b, calls[..j + 1]);
  }

  /** As many calls as there are tokens go through without sleeping, whatever the clock says. */
  lemma {:induction false} BurstGoesThrough(b: Bucket, calls: seq<Call>, k: nat)
    requires b.rate > 0.0 && InRange(b) && k < |calls| && (k + 1) as real <= b.tokens
    ensures !Sleeps(After(b, calls[..k]), calls[k].now)
    ensures After(b, calls[..k + 1]).tokens >= b.tokens - (k + 1) as real
  {
    RateIsFixed(b, calls[..k]);
    assert calls[..k + 1][..k] == calls[..k];
    if k > 0 {
      BurstGoesThrough(b, calls, k - 1);
    } else {
      assert calls[..0] == [];
    }
    var before := After(b, calls[..k]);
    assert before.tokens >= b.tokens - k as real;
    AccruesAtLeast(before, calls[k].now);
    assert After(b, calls[..k + 1]) == Acquired(before, calls[k]);
    hide After, Accrued;
  }

  lemma AccruesAtLeast(b: Bucket, now: real)
    requires b.rate > 0.0 && InRange(b)
    ensures Accrued(b, now) >= b.tokens
  {
    var elapsed := if now < b.updatedAt then 0.0 else now - b.updatedAt;
    assert elapsed * b.rate >= 0.0;
  }

  /** The sleep asked for is exact: a caller woken on time finds exactly one token earned. */
  lemma SleepIsNoLongerThanNeeded(b: Bucket, now: real)
    requires InRange(b) && now >= b.updatedAt && Sleeps(b, now)
    ensures
      var woke := now + SleepFor(b, now);
      Accrued(b, woke) == 1.0
  {
  }

  // ---------------------------------------------------------------------------------------------
  // The bucket
  // ---------------------------------------------------------------------------------------------

  class Limiter {
    const rate: real
    const capacity: real := Capacity(rate)
    var tokens: real
    var updatedAt: real

    constructor (rate: real, now: real)
      ensures State() == Bucket(rate, if rate > 1.0 then rate else 1.0, now) && InRange(State())
    {
      this.rate := rate;
      this.tokens, this.updatedAt := Capacity(rate), now;
    }

    ghost function State(): Bucket
      reads this
    {
      Bucket(rate, tokens, updatedAt)
    }

    method Acquire(now: real, woke: real) returns (slept: real)
      modifies this
      ensures State() == Acquired(old(State()), Call(now, woke))
      ensures slept == if Sleeps(old(State()), now) then SleepFor(old(State()), now) else 0.0
    {
      slept := 0.0;
      if rate <= 0.0 {
        return;
      }
      var elapsed := if now - updatedAt > 0.0 then now - updatedAt else 0.0;
      tokens := if tokens + elapsed * rate < capacity then tokens + elapsed * rate else capacity;
      updatedAt := now;
      if tokens >= 1.0 {
        tokens := tokens - 1.0;
        return;
      }
      slept := (1.0 - tokens) / rate;
      updatedAt := woke;
      tokens := 0.0;
    }
  }
}
