/**
 The rate limiter's token bucket: one hash {tokens, ts} per caller with a time to live. Times are
 milliseconds; token counts are real numbers, so rounding is left aside.
 */
module TokenBucket {

  /** Limiting is on only for a positive rate, and then the burst is at least one. */
  datatype Params = Params(rate: nat, burst: nat)

  ghost predicate Sane(p: Params) { p.rate >= 1 && p.burst >= 1 }

  datatype Bucket = Missing | Kept(tokens: real, ts: int)

  function Min(x: real, y: real): real { if x <= y then x else y }

  /** Tokens that flow in during dt milliseconds. */
  function Inflow(p: Params, dt: int): real { dt as real / 1000.0 * p.rate as real }

  function Refilled(p: Params, b: Bucket, now: int): real {
    match b
    case Missing => p.burst as real
    case Kept(tokens, ts) => Min(p.burst as real, tokens + Inflow(p, if now > ts then now - ts else 0))
  }

  function Decide(p: Params, b: Bucket, now: int): bool { Refilled(p, b, now) >= 1.0 }

  function After(p: Params, b: Bucket, now: int): Bucket {
    Kept(Refilled(p, b, now) - (if Decide(p, b, now) then 1.0 else 0.0), now)
  }

  /** math.ceil(burst / rate * 2000) */
  function TimeToLive(p: Params): int
    requires p.rate > 0
  {
    var x := p.burst as real / p.rate as real * 2000.0;
    if x.Floor as real == x then x.Floor else x.Floor + 1
  }

  /** What Redis still has of the bucket at a later time. */
  function Expire(p: Params, b: Bucket, now: int): Bucket
    requires p.rate > 0
  {
    if b.Kept? && now >= b.ts + TimeToLive(p) then Missing else b
  }

  /** Redis has dropped the bucket, or never had it: a key lives for two full refills. */
  predicate Gone(p: Params, b: Bucket, now: int) {
    b.Missing? || (now - b.ts) * p.rate >= 2000 * p.burst
  }

  lemma ExpiresIff(p: Params, b: Bucket, now: int)
    requires p.rate > 0
    ensures Expire(p, b, now) == if Gone(p, b, now) then Missing else b
  {
    if b.Kept? {
      var dt, ttl, x := now - b.ts, TimeToLive(p), p.burst as real / p.rate as real * 2000.0;
      assert x * p.rate as real == (2000 * p.burst) as real;
      assert dt >= ttl <==> dt as real >= x;
      Scale(p.rate as real, dt as real, x);
      assert dt as real * p.rate as real == (dt * p.rate) as real;
    }
  }

  lemma Scale(r: real, x: real, y: real)
    requires r > 0.0
    ensures x >= y <==> x * r >= y * r
  {
  }

  /** What a bucket holds, in thousandths of a token. */
  lemma InThousandths(p: Params, b: Bucket, now: int)
    requires b.Kept?
    ensures 1000.0 * Refilled(p, b, now) == Min(1000.0 * p.burst as real,
      1000.0 * b.tokens + (if now > b.ts then (now - b.ts) * p.rate else 0) as real)
  {
    InflowInThousandths(p, if now > b.ts then now - b.ts else 0);
  }

  lemma InflowInThousandths(p: Params, dt: int)
    ensures 1000.0 * Inflow(p, dt) == (dt * p.rate) as real
  {
    assert dt as real * p.rate as real == (dt * p.rate) as real;
  }

  class Limiter {
    const p: Params
    var state: Bucket

    constructor (p: Params)
      ensures this.p == p && state == Missing
    {
      this.p := p;
      state := Missing;
    }

    /** The script: read, refill, spend, store with a new expiry. */
    method Allow(now: int) returns (allowed: bool)
      requires p.rate > 0
      modifies this`state
      ensures allowed == Decide(p, old(Expire(p, state, now)), now)
      ensures state == After(p, old(Expire(p, state, now)), now)
      ensures Gone(p, old(state), now) ==>
        allowed == (p.burst >= 1) && state == Kept(p.burst as real - (if allowed then 1.0 else 0.0), now)
      ensures !Gone(p, old(state), now) ==>
        var inflow := if now > old(state).ts then (now - old(state).ts) * p.rate else 0;
        var level := 1000.0 * old(state).tokens + inflow as real;
        && (allowed <==> p.burst >= 1 && level >= 1000.0)
        && state.Kept? && state.ts == now
        && 1000.0 * (state.tokens + if allowed then 1.0 else 0.0) == Min(1000.0 * p.burst as real, level)
    {
      ExpiresIff(p, state, now);
      if state.Kept? { InThousandths(p, state, now); }
      var tokens, ts := p.burst as real, now;
      var found := Expire(p, state, now);
      if found.Kept? { tokens, ts := found.tokens, found.ts; }
      var elapsed := if now - ts > 0 then now - ts else 0;
      tokens := Min(p.burst as real, tokens + elapsed as real / 1000.0 * p.rate as real);
      allowed := false;
      if tokens >= 1.0 {
        tokens := tokens - 1.0;
        allowed := true;
      }
      state := Kept(tokens, now);
    }
  }

  // ---------------------------------------------------------------- runs

  predicate Monotone(times: seq<int>) {
    forall i, j :: 0 <= i < j < |times| ==> times[i] <= times[j]
  }

  /** The bucket after a sequence of calls, with the key expiring or kept forever. */
  function Run(p: Params, times: seq<int>, expiring: bool): Bucket
    requires p.rate > 0
  {
    if times == [] then Missing
    else
      var now := times[|times| - 1];
      var b := Run(p, times[..|times| - 1], expiring);
      After(p, if expiring then Expire(p, b, now) else b, now)
  }

  /** Whether the last call of the sequence was admitted. */
  function Admitted(p: Params, times: seq<int>, expiring: bool): bool
    requires p.rate > 0 && times != []
  {
    var now := times[|times| - 1];
    var b := Run(p, times[..|times| - 1], expiring);
    Decide(p, if expiring then Expire(p, b, now) else b, now)
  }

  lemma {:induction false} Level(p: Params, times: seq<int>)
    requires Sane(p) && times != []
    ensures var b := Run(p, times, false); b.Kept? && b.ts == times[|times| - 1] && 0.0 <= b.tokens <= p.burst as real
  {
    if |times| > 1 {
      Level(p, times[..|times| - 1]);
      var b := Run(p, times[..|times| - 1], false);
      InflowNonNegative(p, if times[|times| - 1] > b.ts then times[|times| - 1] - b.ts else 0);
    }
  }

  lemma InflowNonNegative(p: Params, dt: int)
    requires dt >= 0
    ensures Inflow(p, dt) >= 0.0
  {
  }

  /** By the time a key expires its bucket would be full again. */
  lemma ExpiredIsFull(p: Params, b: Bucket, now: int)
    requires Sane(p) && b.Kept? && b.tokens >= 0.0 && now >= b.ts + TimeToLive(p)
    ensures Refilled(p, b, now) == p.burst as real
  {
    var rate, burst, dt := p.rate as real, p.burst as real, (now - b.ts) as real;
    var x := burst / rate * 2000.0;
    assert dt >= x;
    assert x * rate == burst * 2000.0;
    assert dt * rate >= x * rate;
    assert Inflow(p, now - b.ts) == dt * rate / 1000.0;
  }

  /** Key expiry never changes an answer. */
  lemma {:induction false} ExpiryIsInvisible(p: Params, times: seq<int>)
    requires Sane(p) && Monotone(times)
    ensures Run(p, times, true) == Run(p, times, false)
    ensures times != [] ==> Admitted(p, times, true) == Admitted(p, times, false)
  {
    if times != [] {
      var before, now := times[..|times| - 1], times[|times| - 1];
      ExpiryIsInvisible(p, before);
      var b := Run(p, before, false);
      if before != [] {
        Level(p, before);
        if now >= b.ts + TimeToLive(p) { ExpiredIsFull(p, b, now); }
      }
    }
  }

  /** How many of the calls i, ..., |times|-1 were admitted. */
  function AdmittedFrom(p: Params, times: seq<int>, i: nat): nat
    requires p.rate > 0 && i <= |times|
  {
    if i == |times| then 0
    else AdmittedFrom(p, times[..|times| - 1], i) + if Admitted(p, times, true) then 1 else 0
  }

  /** Tokens are conserved: what was admitted since call i and what is left is at most a full bucket and
      rate thousandths of a token for every millisecond since. */
  lemma Conservation(p: Params, times: seq<int>, i: nat)
    requires Sane(p) && Monotone(times) && i < |times|
    ensures var b := Run(p, times, true);
      b.Kept? && 1000.0 * (AdmittedFrom(p, times, i) as real + b.tokens) <=
        (1000 * p.burst + p.rate * (times[|times| - 1] - times[i])) as real
  {
    hide Inflow, AdmittedFrom, Run;
    ConservationWith(p, times, i);
    ExpiryIsInvisible(p, times);
    Level(p, times);
    var dt := times[|times| - 1] - times[i];
    InflowInThousandths(p, dt);
    Thousandfold(AdmittedFrom(p, times, i) as real + Run(p, times, true).tokens, p.burst, Inflow(p, dt), dt * p.rate);
    assert dt * p.rate == p.rate * dt;
  }

  lemma Thousandfold(x: real, burst: nat, inflow: real, n: int)
    requires x <= burst as real + inflow && 1000.0 * inflow == n as real
    ensures 1000.0 * x <= (1000 * burst + n) as real
  {
  }

  lemma {:induction false} ConservationWith(p: Params, times: seq<int>, i: nat)
    requires Sane(p) && Monotone(times) && i < |times|
    ensures var b := Run(p, times, false);
      AdmittedFrom(p, times, i) as real + b.tokens <= p.burst as real + Inflow(p, times[|times| - 1] - times[i])
  {
    ExpiryIsInvisible(p, times);
    var before, now := times[..|times| - 1], times[|times| - 1];
    if i == |times| - 1 {
      assert AdmittedFrom(p, before, i) == 0;
      if before != [] { Level(p, before); }
    } else {
      ConservationWith(p, before, i);
      Level(p, before);
      var b := Run(p, before, false);
      InflowAdds(p, before[|before| - 1] - times[i], now - before[|before| - 1]);
    }
  }

  lemma InflowAdds(p: Params, a: int, b: int)
    ensures Inflow(p, a) + Inflow(p, b) == Inflow(p, a + b)
  {
    var r := p.rate as real;
    assert (a + b) as real / 1000.0 == a as real / 1000.0 + b as real / 1000.0;
  }

  /** Every window of T milliseconds admits at most burst + rate * T / 1000 of its calls. */
  lemma WindowBound(p: Params, times: seq<int>, i: nat, window: nat)
    requires Sane(p) && Monotone(times) && i < |times|
    requires times[|times| - 1] - times[i] <= window
    ensures 1000 * AdmittedFrom(p, times, i) <= 1000 * p.burst + p.rate * window
  {
    hide AdmittedFrom, Run;
    Conservation(p, times, i);
    ExpiryIsInvisible(p, times);
    Level(p, times);
    InWholeTokens(AdmittedFrom(p, times, i), Run(p, times, true).tokens, p, times[|times| - 1] - times[i], window);
  }

  lemma InWholeTokens(n: nat, left: real, p: Params, dt: int, window: nat)
    requires left >= 0.0 && dt <= window && 1000.0 * (n as real + left) <= (1000 * p.burst + p.rate * dt) as real
    ensures 1000 * n <= 1000 * p.burst + p.rate * window
  {
    assert (1000 * n) as real == 1000.0 * n as real;
    assert p.rate * dt <= p.rate * window;
  }

  /** Calls spaced at least 1000 / rate apart are never refused. */
  lemma {:induction false} SpacedNeverRefused(p: Params, times: seq<int>)
    requires Sane(p) && times != [] && Monotone(times)
    requires forall i :: 0 < i < |times| ==> (times[i] - times[i - 1]) * p.rate >= 1000
    ensures Admitted(p, times, true)
  {
    ExpiryIsInvisible(p, times);
    var before, now := times[..|times| - 1], times[|times| - 1];
    if before != [] {
      Level(p, before);
      var dt := now - before[|before| - 1];
      EnoughInflow(p, dt);
    }
  }

  lemma EnoughInflow(p: Params, dt: int)
    requires dt * p.rate >= 1000 && p.rate > 0
    ensures dt > 0 && Inflow(p, dt) >= 1.0
  {
    assert dt as real * p.rate as real == (dt * p.rate) as real;
  }

  /** And a full bucket really is worth its burst: that many calls at one instant are admitted and
      the next is refused, so the window bound is attained at T = 0. */
  lemma {:induction false} BurstIsAdmitted(p: Params, now: int, k: nat)
    requires Sane(p) && k <= p.burst
    ensures var times := seq(k, _ => now);
      && (k > 0 ==> Run(p, times, false) == Kept((p.burst - k) as real, now))
      && (k > 0 ==> Admitted(p, times, true))
      && (k == p.burst ==> !Admitted(p, times + [now], true))
  {
    var times := seq(k, _ => now);
    ExpiryIsInvisible(p, times);
    ExpiryIsInvisible(p, times + [now]);
    assert (times + [now])[..k] == times;
    if k > 0 {
      BurstIsAdmitted(p, now, k - 1);
      assert times[..k - 1] == seq(k - 1, _ => now);
    }
  }

  /** And refills no slower and no faster than promised: once emptied, it admits the next call exactly when
      that comes at least 1000 / rate milliseconds later. */
  lemma EmptiedAdmitsIff(p: Params, now: int, dt: nat)
    requires Sane(p)
    ensures Admitted(p, seq(p.burst, _ => now) + [now + dt], true) <==> dt * p.rate >= 1000
  {
    var times := seq(p.burst, _ => now);
    BurstIsAdmitted(p, now, p.burst);
    ExpiryIsInvisible(p, times + [now + dt]);
    assert (times + [now + dt])[..p.burst] == times;
    InThousandths(p, Run(p, times, false), now + dt);
  }
}
