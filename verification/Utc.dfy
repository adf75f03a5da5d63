/** UTC intervals, the clock-rate contract and the anchor that ages an observation. */
module Utc {
  import opened Base

  const SCALE: int := 1_000_000
  const MAX_AGE_MS: int := 3_600_000
  const MAX_UNIX_MS: int := 253_402_300_799_999

  datatype Bounds = Bounds(earliestMs: u64, latestMs: u64)

  predicate ValidBounds(b: Bounds) {
    b.earliestMs <= b.latestMs <= MAX_UNIX_MS
  }

  datatype RawRate = Rate(ppm: u32, quantizationMs: u32)

  /** `ppm` bounds the relative rate error; `quantizationMs` the error of a difference of readings. */
  type Rate = r: RawRate | r.ppm < SCALE witness Rate(0, 0)

  function CeilDiv(a: nat, b: nat): nat
    requires b > 0
  {
    if a % b == 0 then a / b else a / b + 1
  }

  /** Least and greatest real time that can have passed while the timer advanced `measured`. */
  function ElapsedBounds(rate: Rate, measured: u64): Option<(u64, u64)> {
    var low := SatSub(measured, rate.quantizationMs) * SCALE / (SCALE + rate.ppm);
    var high := CeilDiv((measured + rate.quantizationMs) * SCALE, SCALE - rate.ppm);
    if low > U64_MAX || high > U64_MAX then None else Some((low, high))
  }

  function SafeDurationMs(rate: Rate, remaining: u64): Option<u64> {
    var measured := remaining * (SCALE - rate.ppm) / SCALE;
    if measured < 0 || measured > U64_MAX then None else Some(SatSub(measured, rate.quantizationMs))
  }

  lemma MulLe(a: int, b: int, k: int)
    requires a <= b && k >= 0
    ensures a * k <= b * k
  {
  }

  lemma CancelLe(q: int, d: int, b: int)
    requires q * b <= d * b && b > 0
    ensures q <= d
  {
    if q > d {
      MulLe(d + 1, q, b);
    }
  }

  lemma DivLe(n: nat, b: nat, d: nat)
    requires b > 0 && n <= d * b
    ensures n / b <= d
  {
    assert n == (n / b) * b + n % b;
    CancelLe(n / b, d, b);
  }

  lemma CeilDivLe(a: nat, b: nat, d: nat)
    requires b > 0 && a <= d * b
    ensures CeilDiv(a, b) <= d
  {
    DivLe(a, b, d);
    assert a == (a / b) * b + a % b;
  }

  /** A timer delta within a nonzero safe duration really lasts no longer than the budget. */
  lemma SafeDurationIsSafe(rate: Rate, remaining: u64, measured: u64)
    requires SafeDurationMs(rate, remaining).Some?
    requires 0 < SafeDurationMs(rate, remaining).value
    requires measured <= SafeDurationMs(rate, remaining).value
    ensures ElapsedBounds(rate, measured).Some?
    ensures ElapsedBounds(rate, measured).value.1 <= remaining
  {
    var k := SCALE - rate.ppm;
    var product := remaining * k;
    var q := product / SCALE;
    assert q * SCALE <= product;
    assert measured + rate.quantizationMs <= q;
    MulLe(measured + rate.quantizationMs, q, SCALE);
    CeilDivLe((measured + rate.quantizationMs) * SCALE, k, remaining);
    ScaledDownLe(SatSub(measured, rate.quantizationMs), SCALE, SCALE + rate.ppm);
  }

  /**
   The clock-rate contract, in real time: over `elapsed` milliseconds the timer gains or loses
   at most `ppm` millionths, and a difference of two readings is off by at most the
   quantization.
   */
  ghost predicate MayPass(rate: Rate, measured: u64, elapsed: real) {
    && elapsed >= 0.0
    && (measured - rate.quantizationMs) as real * 1000000.0 <= elapsed * (1000000 + rate.ppm) as real
    && elapsed * (1000000 - rate.ppm) as real <= (measured + rate.quantizationMs) as real * 1000000.0
  }

  lemma RealCancel(a: real, b: real, k: real)
    requires k > 0.0 && a * k <= b * k
    ensures a <= b
  {
  }

  lemma FloorIsTight(a: nat, b: nat)
    requires b > 0
    ensures a / b * b <= a < (a / b + 1) * b
  {
    assert a == (a / b) * b + a % b;
  }

  lemma CeilIsTight(a: nat, b: nat)
    requires b > 0
    ensures (CeilDiv(a, b) - 1) * b < a <= CeilDiv(a, b) * b
  {
    assert a == (a / b) * b + a % b;
  }

  /** The bounds on elapsed time are tight to the millisecond. */
  lemma ElapsedIsTight(rate: Rate, measured: u64)
    requires ElapsedBounds(rate, measured).Some?
    ensures var (low, high) := ElapsedBounds(rate, measured).value;
      var fast, slow := 1000000 + rate.ppm, 1000000 - rate.ppm;
      && low * fast <= SatSub(measured, rate.quantizationMs) * 1000000 < (low + 1) * fast
      && (high - 1) * slow < (measured + rate.quantizationMs) * 1000000 <= high * slow
  {
    FloorIsTight(SatSub(measured, rate.quantizationMs) * SCALE, SCALE + rate.ppm);
    CeilIsTight((measured + rate.quantizationMs) * SCALE, SCALE - rate.ppm);
    hide CeilDiv;
  }

  lemma LowSide(low: nat, fast: nat, small: int, elapsed: real)
    requires fast > 0 && low * fast <= small && small as real <= elapsed * fast as real
    ensures low as real <= elapsed
  {
    assert (low * fast) as real == low as real * fast as real;
    RealCancel(low as real, elapsed, fast as real);
  }

  lemma HighSide(high: nat, slow: nat, large: int, elapsed: real)
    requires slow > 0 && large <= high * slow && elapsed * slow as real <= large as real
    ensures elapsed <= high as real
  {
    assert (high * slow) as real == high as real * slow as real;
    RealCancel(elapsed, high as real, slow as real);
  }

  /** The bounds are outward: whatever the contract lets pass lies within them. */
  lemma ElapsedIsOutward(rate: Rate, measured: u64, elapsed: real)
    requires ElapsedBounds(rate, measured).Some? && MayPass(rate, measured, elapsed)
    ensures var (low, high) := ElapsedBounds(rate, measured).value;
      low as real <= elapsed <= high as real
  {
    ElapsedIsTight(rate, measured);
    var (low, high) := ElapsedBounds(rate, measured).value;
    hide ElapsedBounds;
    if measured >= rate.quantizationMs {
      LowSide(low, 1000000 + rate.ppm, (measured - rate.quantizationMs) * 1000000, elapsed);
    } else {
      CancelLe(low, 0, 1000000 + rate.ppm);
    }
    HighSide(high, 1000000 - rate.ppm, (measured + rate.quantizationMs) * 1000000, elapsed);
  }

  /** A safe duration is the longest: one millisecond more of timer may outlast the budget. */
  lemma SafeDurationIsLongest(rate: Rate, remaining: u64)
    ensures SafeDurationMs(rate, remaining).Some? && SafeDurationMs(rate, remaining).value <= remaining
    ensures remaining < U64_MAX && ElapsedBounds(rate, SafeDurationMs(rate, remaining).value + 1).Some? ==>
      ElapsedBounds(rate, SafeDurationMs(rate, remaining).value + 1).value.1 > remaining
  {
    SafeDurationExists(rate, remaining);
    if remaining < U64_MAX && ElapsedBounds(rate, SafeDurationMs(rate, remaining).value + 1).Some? {
      OneMoreMayOutlast(rate, remaining);
    }
    hide ElapsedBounds, SafeDurationMs;
  }

  lemma SafeDurationExists(rate: Rate, remaining: u64)
    ensures SafeDurationMs(rate, remaining).Some? && SafeDurationMs(rate, remaining).value <= remaining
  {
    SlowShare(remaining, SCALE - rate.ppm);
  }

  lemma SlowShare(remaining: nat, k: nat)
    requires k <= SCALE
    ensures remaining * k / SCALE <= remaining
  {
    MulLe(k, SCALE, remaining);
    FloorIsTight(remaining * k, SCALE);
    CancelLe(remaining * k / SCALE, remaining, SCALE);
  }

  lemma OneMoreMayOutlast(rate: Rate, remaining: u64)
    requires SafeDurationMs(rate, remaining).Some? && SafeDurationMs(rate, remaining).value < U64_MAX
    requires ElapsedBounds(rate, SafeDurationMs(rate, remaining).value + 1).Some?
    ensures ElapsedBounds(rate, SafeDurationMs(rate, remaining).value + 1).value.1 > remaining
  {
    var d, k := SafeDurationMs(rate, remaining).value, SCALE - rate.ppm;
    var q := remaining * k / SCALE;
    assert remaining * k < (q + 1) * SCALE;
    assert d + 1 + rate.quantizationMs >= q + 1;
    MulLe(q + 1, d + 1 + rate.quantizationMs, SCALE);
    ElapsedIsTight(rate, d + 1);
    var high := ElapsedBounds(rate, d + 1).value.1;
    hide ElapsedBounds;
    if high <= remaining {
      MulLe(high, remaining, k);
    }
  }

  lemma ScaledDownLe(a: nat, s: nat, d: nat)
    requires 0 < s <= d
    ensures 0 <= (a * s) / d <= a
  {
    MulLe(s, d, a);
    assert a * s <= a * d;
    DivLe(a * s, d, a);
  }

  datatype Observation = Observation(bounds: Bounds, capturedAt: Millis, rate: Rate)

  /** An observation projected to `now`, while it is young enough. */
  function BoundsAt(o: Observation, now: Millis): (b: Option<Bounds>)
    ensures b.Some? ==> ValidBounds(b.value)
  {
    if now >= 0x7FFF_FFFF_FFFF_FFFF || now < o.capturedAt then None
    else
      var age := ElapsedBounds(o.rate, now - o.capturedAt);
      if age.None? || age.value.1 >= MAX_AGE_MS then None
      else if o.bounds.earliestMs + age.value.0 > U64_MAX || o.bounds.latestMs + age.value.1 > U64_MAX then None
      else
        var b := Bounds(o.bounds.earliestMs + age.value.0, o.bounds.latestMs + age.value.1);
        if ValidBounds(b) then Some(b) else None
  }

  /** Reads latch timer rollback and loss until a new observation arrives. */
  datatype Anchor = Anchor(observation: Option<Observation>, lastRead: Millis)

  function AnchorBounds(a: Anchor, now: Millis): Option<Bounds> {
    if now >= a.lastRead && a.observation.Some? then BoundsAt(a.observation.value, now) else None
  }

  function AnchorAfter(a: Anchor, now: Millis): Anchor {
    Anchor(if AnchorBounds(a, now).None? then None else a.observation, now)
  }

  /** A projection keeps the true time in: no time the contract allows escapes its bounds. */
  lemma ProjectionIsSafe(o: Observation, now: Millis, trueMs: real, elapsed: real)
    requires BoundsAt(o, now).Some? && MayPass(o.rate, now - o.capturedAt, elapsed)
    requires o.bounds.earliestMs as real <= trueMs <= o.bounds.latestMs as real
    ensures var b := BoundsAt(o, now).value;
      b.earliestMs as real <= trueMs + elapsed <= b.latestMs as real
    ensures elapsed < 3600000.0
  {
    ElapsedIsOutward(o.rate, now - o.capturedAt, elapsed);
    hide ElapsedBounds, MayPass;
  }

  /** It is refused exactly for a timer out of range or gone back, an hour of age, or an unrepresentable time. */
  lemma ProjectionExpires(o: Observation, now: Millis)
    ensures BoundsAt(o, now).Some? <==>
      && o.capturedAt <= now < 0x7FFF_FFFF_FFFF_FFFF
      && var age := ElapsedBounds(o.rate, now - o.capturedAt);
         && age.Some? && age.value.1 < 3600000
         && o.bounds.earliestMs + age.value.0 <= o.bounds.latestMs + age.value.1 <= 253402300799999
  {
    hide ElapsedBounds;
  }

  /** An anchor after a run of reads. */
  function AnchorAfterAll(a: Anchor, times: seq<Millis>): Anchor {
    if times == [] then a else AnchorAfter(AnchorAfterAll(a, times[..|times| - 1]), times[|times| - 1])
  }

  /** Read `k` came no earlier than the one before it, or than the acceptance, and while the observation was young enough. */
  predicate InTime(o: Observation, accepted: Millis, times: seq<Millis>, k: nat)
    requires k < |times|
  {
    (if k == 0 then accepted else times[k - 1]) <= times[k] && BoundsAt(o, times[k]).Some?
  }

  ghost predicate Unbroken(o: Observation, accepted: Millis, times: seq<Millis>) {
    forall k: nat :: k < |times| ==> InTime(o, accepted, times, k)
  }

  lemma UnbrokenAppends(o: Observation, accepted: Millis, front: seq<Millis>, t: Millis)
    ensures Unbroken(o, accepted, front + [t]) <==>
      && Unbroken(o, accepted, front)
      && (if front == [] then accepted else front[|front| - 1]) <= t && BoundsAt(o, t).Some?
  {
    hide BoundsAt;
    var times := front + [t];
    assert InTime(o, accepted, times, |front|)
      <==> (if front == [] then accepted else front[|front| - 1]) <= t && BoundsAt(o, t).Some?;
    assert forall k: nat :: k < |front| ==> InTime(o, accepted, times, k) == InTime(o, accepted, front, k);
    if Unbroken(o, accepted, times) {
      assert forall k: nat :: k < |front| ==> InTime(o, accepted, front, k);
    }
  }

  /** A read gives the original observation's projection as long as none before it failed, and nothing ever after. */
  lemma {:induction false} AnchorLatches(o: Observation, accepted: Millis, times: seq<Millis>)
    ensures var a := AnchorAfterAll(Anchor(Some(o), accepted), times);
      && a.observation == (if Unbroken(o, accepted, times) then Some(o) else None)
      && a.lastRead == if times == [] then accepted else times[|times| - 1]
    ensures times != [] ==>
      AnchorBounds(AnchorAfterAll(Anchor(Some(o), accepted), times[..|times| - 1]), times[|times| - 1])
      == if Unbroken(o, accepted, times) then BoundsAt(o, times[|times| - 1]) else None
  {
    hide BoundsAt;
    if times != [] {
      var front, t := times[..|times| - 1], times[|times| - 1];
      AnchorLatches(o, accepted, front);
      assert times == front + [t];
      UnbrokenAppends(o, accepted, front, t);
    }
  }
}
