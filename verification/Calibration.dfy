/** Stored-baseline normalisation of two capacitance channels to a level, in exact integers. */
module Calibration {
  import opened Base
  import opened Interlock

  /** Exclusive differential operating bound of the converter, in counts. */
  const CONVERTER_LIMIT: int := 15 * 0x8_0000

  /** The largest difference of two counts inside the converter range. */
  const MAX_SPAN: int := 2 * CONVERTER_LIMIT - 2

  datatype Channel = LevelChannel | WetReference

  datatype Channels<T> = Channels(level: T, wetReference: T)

  type RawChannels = Channels<i32>

  datatype CountsRange = CountsRange(min: i32, max: i32)

  datatype ChannelLimits = ChannelLimits(envelope: CountsRange, maxSlew: u32)

  datatype ReferenceSign = Positive | Negative {
    function Factor(): int { if Positive? then 1 else -1 }
  }

  datatype LevelDomain = LevelDomain(min: Level, max: Level)

  datatype MinimumRatioSpan = MinimumRatioSpan(numerator: u32, denominator: u32)

  datatype CalibrationData = CalibrationData(
    levelEmpty: i32,
    wetReferenceEmpty: i32,
    lowEndpoint: RawChannels,
    highEndpoint: RawChannels,
    channels: Channels<ChannelLimits>,
    referenceSign: ReferenceSign,
    minimumReferenceSpan: u32,
    minimumRatioSpan: MinimumRatioSpan,
    supportedLevel: LevelDomain,
    maxFrameAgeMs: u64,
    maxFrameDurationMs: u64,
    maxLevelSlew: u32)

  datatype Endpoint = LowEndpoint | HighEndpoint

  datatype ConfigError =
    | EmptyLevelOutsideConverterRange
    | EmptyWetReferenceOutsideConverterRange
    | InvalidEnvelope(channel: Channel)
    | ZeroSlewLimit
    | InvalidReferenceMinimum
    | InvalidMinimumRatioSpan
    | InvalidLevelDomain
    | InvalidFrameTiming
    | InvalidEndpoint(endpoint: Endpoint, error: CalibrationError)
    | ReversedOrCollapsedEndpoints
    | InsufficientEndpointRatioSpan

  datatype CalibrationError =
    | ClockWentBackwards(previous: Millis, received: Millis)
    | SequenceNotIncreasing(previousSequence: u64, receivedSequence: u64)
    | InvalidFrameTimes(started: Millis, completed: Millis)
    | FutureFrame(completed: Millis, now: Millis)
    | OverlappingFrame(previousCompleted: Millis, started: Millis)
    | FrameTooLong(durationMs: u64, maximumMs: u64)
    | StaleFrame(ageMs: u64, maximumMs: u64)
    | ConverterRange(channel: Channel, counts: i32)
    | ChannelEnvelope(channel: Channel, counts: i32, allowed: CountsRange)
    | ReferencePolarity(spanCounts: int, expected: ReferenceSign)
    | ReferenceCollapsed(spanCounts: int, minimumCounts: u32)
    | OutsideLevelDomain(scaledNumerator: int, denominator: int, domain: LevelDomain)
    | ChannelSlew(channel: Channel, deltaCounts: int, elapsedMs: u64, maximumPerSecond: u32)
    | LevelSlew(deltaThousandths: int, elapsedMs: u64, maximumPerSecond: u32)

  /** An exact response ratio; the denominator is positive. */
  datatype Ratio = Ratio(numerator: int, denominator: int)

  datatype RawCalibration = Calibration(data: CalibrationData, low: Ratio, high: Ratio, span: int)

  /** A calibration that construction accepted. */
  type Calibration = c: RawCalibration | NewCalibration(c.data) == Ok(c)
    ghost witness Calibration(EXAMPLE, Ratio(0, 100), Ratio(100, 100), 10000)

  const EXAMPLE: CalibrationData :=
    CalibrationData(0, 0, Channels(0, 100), Channels(100, 100),
                    Channels(ChannelLimits(CountsRange(-1000, 1000), 1), ChannelLimits(CountsRange(-1000, 1000), 1)),
                    Positive, 1, MinimumRatioSpan(1, 1), LevelDomain(0, 1000), 1, 1, 1)

  predicate InsideConverter(counts: int) {
    -CONVERTER_LIMIT < counts < CONVERTER_LIMIT
  }

  function CheckLimits(channel: Channel, limits: ChannelLimits): Result<(), ConfigError> {
    if limits.envelope.min >= limits.envelope.max
       || !InsideConverter(limits.envelope.min) || !InsideConverter(limits.envelope.max)
    then Err(InvalidEnvelope(channel))
    else if limits.maxSlew == 0 then Err(ZeroSlewLimit)
    else Ok(())
  }

  function CheckCounts(channel: Channel, counts: i32, allowed: CountsRange): Result<(), CalibrationError> {
    if !InsideConverter(counts) then Err(ConverterRange(channel, counts))
    else if counts < allowed.min || counts > allowed.max then Err(ChannelEnvelope(channel, counts, allowed))
    else Ok(())
  }

  function Abs(x: int): nat {
    if x < 0 then -x else x
  }

  function ResponseRatio(data: CalibrationData, channels: RawChannels): Result<Ratio, CalibrationError> {
    var _ :- CheckCounts(LevelChannel, channels.level, data.channels.level.envelope);
    var _ :- CheckCounts(WetReference, channels.wetReference, data.channels.wetReference.envelope);
    var span := channels.wetReference - data.wetReferenceEmpty;
    if span == 0 || Abs(span) < data.minimumReferenceSpan then
      Err(ReferenceCollapsed(span, data.minimumReferenceSpan))
    else if span * data.referenceSign.Factor() <= 0 then
      Err(ReferencePolarity(span, data.referenceSign))
    else
      Ok(Ratio((channels.level - data.levelEmpty) * data.referenceSign.Factor(), span * data.referenceSign.Factor()))
  }

  function EndpointRatio(data: CalibrationData, endpoint: Endpoint): Result<Ratio, ConfigError> {
    var r := ResponseRatio(data, if endpoint.LowEndpoint? then data.lowEndpoint else data.highEndpoint);
    if r.Ok? then Ok(r.value) else Err(InvalidEndpoint(endpoint, r.error))
  }

  /** high - low over a common denominator: the numerator of their difference. */
  function Cross(high: Ratio, low: Ratio): int {
    high.numerator * low.denominator - low.numerator * high.denominator
  }

  function CheckData(data: CalibrationData): Result<(), ConfigError> {
    if !InsideConverter(data.levelEmpty) then Err(EmptyLevelOutsideConverterRange)
    else if !InsideConverter(data.wetReferenceEmpty) then Err(EmptyWetReferenceOutsideConverterRange)
    else
      var _ :- CheckLimits(LevelChannel, data.channels.level);
      var _ :- CheckLimits(WetReference, data.channels.wetReference);
      if data.maxLevelSlew == 0 then Err(ZeroSlewLimit)
      else if data.minimumReferenceSpan == 0 || data.minimumReferenceSpan > MAX_SPAN then Err(InvalidReferenceMinimum)
      else if data.minimumRatioSpan.numerator == 0 || data.minimumRatioSpan.denominator == 0 then Err(InvalidMinimumRatioSpan)
      else if data.supportedLevel.min >= data.supportedLevel.max then Err(InvalidLevelDomain)
      else if data.maxFrameDurationMs == 0 || data.maxFrameAgeMs < data.maxFrameDurationMs then Err(InvalidFrameTiming)
      else Ok(())
  }

  function NewCalibration(data: CalibrationData): Result<RawCalibration, ConfigError> {
    var _ :- CheckData(data);
    var low :- EndpointRatio(data, LowEndpoint);
    var high :- EndpointRatio(data, HighEndpoint);
    var span := Cross(high, low);
    if span <= 0 then Err(ReversedOrCollapsedEndpoints)
    else if span * data.minimumRatioSpan.denominator
            < data.minimumRatioSpan.numerator * low.denominator * high.denominator
    then Err(InsufficientEndpointRatioSpan)
    else Ok(Calibration(data, low, high, span))
  }

  /** 1000 * (q - low) / (high - low), kept as one fraction. */
  function ScaledNumerator(c: RawCalibration, q: Ratio): int {
    Cross(q, c.low) * c.high.denominator * 1000
  }

  function ScaledDenominator(c: RawCalibration, q: Ratio): int {
    q.denominator * c.span
  }

  /** Rounds half up, as truncating division of two non-negative integers. */
  function Rounded(numerator: nat, denominator: nat): nat
    requires denominator > 0
  {
    (numerator + denominator / 2) / denominator
  }

  function Normalize(c: Calibration, channels: RawChannels): (r: Result<(Level, Ratio), CalibrationError>)
  {
    var q :- ResponseRatio(c.data, channels);
    CalibrationIsSound(c);
    RatioBounds(c.data, channels);
    var numerator := ScaledNumerator(c, q);
    var denominator := ScaledDenominator(c, q);
    var domain := c.data.supportedLevel;
    MulPositive(q.denominator, c.span);
    if numerator < domain.min * denominator || numerator > domain.max * denominator then
      Err(OutsideLevelDomain(numerator, denominator, domain))
    else
      MulMono(0, domain.min, denominator);
      RoundedInDomain(numerator, denominator, domain.min, domain.max);
      Ok((Rounded(numerator, denominator), q))
  }

  // -------------------------------------------------------------- arithmetic

  lemma MulPositive(a: int, b: int)
    requires a > 0 && b > 0
    ensures a * b > 0
  {
  }

  lemma MulMono(a: int, b: int, k: int)
    requires a <= b && k >= 0
    ensures a * k <= b * k
  {
  }

  /** A product of bounded factors is bounded by the product of the bounds. */
  lemma MulBound(a: int, b: int, x: int, y: int)
    requires -x <= a <= x && -y <= b <= y
    ensures -(x * y) <= a * b <= x * y
  {
    MulMono(Abs(a), x, Abs(b));
    MulMono(Abs(b), y, x);
    assert Abs(a * b) == Abs(a) * Abs(b);
    assert x * Abs(b) == Abs(b) * x && y * x == x * y;
  }

  /** `Rounded` is the nearest integer, halves up: it depends on the quotient alone. */
  lemma RoundedIsNearest(n: nat, d: nat)
    requires d > 0
    ensures (2 * Rounded(n, d) - 1) * d <= 2 * n < (2 * Rounded(n, d) + 1) * d
  {
    var k := Rounded(n, d);
    var m := n + d / 2;
    assert m == k * d + m % d;
    assert (2 * k - 1) * d == 2 * (k * d) - d;
    assert (2 * k + 1) * d == 2 * (k * d) + d;
  }

  /** `k` is the nearest integer to `n / d`, halves up. */
  predicate Nearest(k: int, n: int, d: int) {
    (2 * k - 1) * d <= 2 * n < (2 * k + 1) * d
  }

  lemma RoundedUnique(n: nat, d: nat, k: int)
    requires d > 0 && Nearest(k, n, d)
    ensures k == Rounded(n, d)
  {
    RoundedIsNearest(n, d);
    var r := Rounded(n, d);
    if k < r {
      MulMono(2 * k + 1, 2 * r - 1, d);
    } else if r < k {
      MulMono(2 * r + 1, 2 * k - 1, d);
    }
  }

  lemma RoundedInDomain(n: nat, d: nat, low: int, high: int)
    requires d > 0 && low * d <= n <= high * d
    ensures low <= Rounded(n, d) <= high
  {
    RoundedIsNearest(n, d);
    var r := Rounded(n, d);
    if r < low {
      MulMono(2 * r + 1, 2 * low - 1, d);
    }
    if r > high {
      MulMono(2 * high + 1, 2 * r - 1, d);
    }
  }

  lemma Assoc(a: int, b: int, c: int)
    ensures a * b * c == a * (b * c)
  {
  }

  lemma HalvesOrder(r1: int, n1: int, d1: int, r2: int, n2: int, d2: int)
    requires d1 > 0 && d2 > 0 && n1 * d2 <= n2 * d1
    requires (2 * r1 - 1) * d1 <= 2 * n1 && 2 * n2 < (2 * r2 + 1) * d2
    ensures r1 <= r2
  {
    var a, b, p := 2 * r1 - 1, 2 * r2 + 1, d1 * d2;
    MulMono(a * d1, 2 * n1, d2);
    MulStrict(2 * n2, b * d2, d1);
    Assoc(a, d1, d2);
    Assoc(b, d2, d1);
    Assoc(2, n1, d2);
    Assoc(2, n2, d1);
    assert d2 * d1 == p;
    assert a * p < b * p;
    if a >= b {
      MulPositive(d1, d2);
      MulMono(b, a, p);
    }
  }

  /** Rounding respects the order of quotients. */
  lemma RoundedMonotone(n1: nat, d1: nat, n2: nat, d2: nat)
    requires d1 > 0 && d2 > 0 && n1 * d2 <= n2 * d1
    ensures Rounded(n1, d1) <= Rounded(n2, d2)
  {
    RoundedIsNearest(n1, d1);
    RoundedIsNearest(n2, d2);
    HalvesOrder(Rounded(n1, d1), n1, d1, Rounded(n2, d2), n2, d2);
  }

  lemma MulStrict(a: int, b: int, k: int)
    requires a < b && k > 0
    ensures a * k < b * k
  {
  }

  // ------------------------------------------------------------------ bounds

  /** Numerator and denominator of an accepted ratio fit their integers with room to spare. */
  lemma RatioBounds(data: CalibrationData, channels: RawChannels)
    requires InsideConverter(data.levelEmpty) && InsideConverter(data.wetReferenceEmpty)
    requires ResponseRatio(data, channels).Ok?
    ensures var q := ResponseRatio(data, channels).value;
      -MAX_SPAN <= q.numerator <= MAX_SPAN && 0 < q.denominator <= MAX_SPAN && q.denominator <= U32_MAX
  {
  }

  predicate Bounded(q: Ratio) {
    -MAX_SPAN <= q.numerator <= MAX_SPAN && 0 < q.denominator <= MAX_SPAN
  }

  lemma CalibrationIsSound(c: Calibration)
    ensures CheckData(c.data).Ok? && InsideConverter(c.data.levelEmpty) && InsideConverter(c.data.wetReferenceEmpty)
    ensures ResponseRatio(c.data, c.data.lowEndpoint) == Ok(c.low)
    ensures ResponseRatio(c.data, c.data.highEndpoint) == Ok(c.high)
    ensures Bounded(c.low) && Bounded(c.high)
    ensures c.span == Cross(c.high, c.low) > 0
  {
    RatioBounds(c.data, c.data.lowEndpoint);
    RatioBounds(c.data, c.data.highEndpoint);
    hide ResponseRatio;
  }

  const TWO_83: int := 0x8_0000_0000_0000_0000_0000

  lemma CrossBound(a: Ratio, b: Ratio)
    requires Bounded(a) && Bounded(b)
    ensures -2 * (MAX_SPAN * MAX_SPAN) <= Cross(a, b) <= 2 * (MAX_SPAN * MAX_SPAN)
  {
    MulBound(a.numerator, b.denominator, MAX_SPAN, MAX_SPAN);
    MulBound(b.numerator, a.denominator, MAX_SPAN, MAX_SPAN);
  }

  const SPAN_SQUARED: int := MAX_SPAN * MAX_SPAN
  const SPAN_CUBED: int := MAX_SPAN * SPAN_SQUARED

  lemma SpanPowers()
    ensures MAX_SPAN == 15728638
    ensures 2001 * SPAN_CUBED < TWO_83
    ensures 2 * SPAN_SQUARED * U32_MAX < TWO_83
    ensures U32_MAX * MAX_SPAN * MAX_SPAN < TWO_83
  {
  }

  /** The scaled fraction of a bounded ratio, term by term. */
  lemma ScaledFits(c: RawCalibration, q: Ratio)
    requires Bounded(c.low) && Bounded(c.high) && Bounded(q) && c.span == Cross(c.high, c.low) > 0
    ensures Abs(q.numerator * c.low.denominator) < TWO_83 && Abs(c.low.numerator * q.denominator) < TWO_83
    ensures Abs(Cross(q, c.low)) < TWO_83
    ensures Abs(Cross(q, c.low) * c.high.denominator) < TWO_83
    ensures Abs(ScaledNumerator(c, q)) <= 2000 * SPAN_CUBED
    ensures 0 < ScaledDenominator(c, q) <= 2 * SPAN_CUBED
  {
    SpanPowers();
    MulBound(q.numerator, c.low.denominator, MAX_SPAN, MAX_SPAN);
    MulBound(c.low.numerator, q.denominator, MAX_SPAN, MAX_SPAN);
    CrossBound(q, c.low);
    CrossBound(c.high, c.low);
    MulBound(Cross(q, c.low), c.high.denominator, 2 * SPAN_SQUARED, MAX_SPAN);
    MulBound(q.denominator, c.span, MAX_SPAN, 2 * SPAN_SQUARED);
    MulPositive(q.denominator, c.span);
    hide Cross;
  }

  lemma RatioSpanFits(c: RawCalibration)
    requires Bounded(c.low) && Bounded(c.high) && c.span == Cross(c.high, c.low) > 0
    ensures c.span * c.data.minimumRatioSpan.denominator < TWO_83
    ensures c.data.minimumRatioSpan.numerator * c.low.denominator * c.high.denominator < TWO_83
  {
    SpanPowers();
    CrossBound(c.high, c.low);
    MulBound(c.span, c.data.minimumRatioSpan.denominator, 2 * SPAN_SQUARED, U32_MAX);
    MulBound(c.data.minimumRatioSpan.numerator, c.low.denominator, U32_MAX, MAX_SPAN);
    MulBound(c.data.minimumRatioSpan.numerator * c.low.denominator, c.high.denominator, U32_MAX * MAX_SPAN, MAX_SPAN);
    hide Cross;
  }

  /**
   No 128-bit intermediate of construction or normalisation reaches 2^83, and the cast of
   the reference span is exact; the cast of the level is exact because it is a level.
   */
  lemma IntermediatesFit(c: Calibration, channels: RawChannels)
    requires ResponseRatio(c.data, channels).Ok?
    ensures var q := ResponseRatio(c.data, channels).value;
      && q.denominator <= U32_MAX
      && Abs(q.numerator * c.low.denominator) < TWO_83 && Abs(c.low.numerator * q.denominator) < TWO_83
      && Abs(Cross(q, c.low)) < TWO_83
      && Abs(Cross(q, c.low) * c.high.denominator) < TWO_83
      && Abs(ScaledNumerator(c, q)) < TWO_83
      && 0 < ScaledDenominator(c, q) < TWO_83
      && c.data.supportedLevel.max * ScaledDenominator(c, q) < TWO_83
      && ScaledNumerator(c, q) + ScaledDenominator(c, q) / 2 < TWO_83
    ensures c.span * c.data.minimumRatioSpan.denominator < TWO_83
    ensures c.data.minimumRatioSpan.numerator * c.low.denominator * c.high.denominator < TWO_83
  {
    CalibrationIsSound(c);
    RatioBounds(c.data, channels);
    var q := ResponseRatio(c.data, channels).value;
    ScaledFits(c, q);
    RatioSpanFits(c);
    SpanPowers();
    MulBound(c.data.supportedLevel.max, ScaledDenominator(c, q), 1000, 2 * SPAN_CUBED);
    hide ResponseRatio, NewCalibration, Normalize, CheckData, Cross, ScaledNumerator, ScaledDenominator;
  }

  // ----------------------------------------------------------------- meaning

  /**
   An accepted level is the nearest integer to the exact rational, and that rational lies
   inside the supported domain; a rejected one lies outside it.
   */
  lemma LevelIsNearest(c: Calibration, channels: RawChannels)
    requires ResponseRatio(c.data, channels).Ok?
    ensures var q := ResponseRatio(c.data, channels).value;
      var n, d := ScaledNumerator(c, q), ScaledDenominator(c, q);
      var domain := c.data.supportedLevel;
      && d > 0
      && (Normalize(c, channels).Ok? <==> domain.min * d <= n <= domain.max * d)
      && (Normalize(c, channels).Ok? ==>
            var level := Normalize(c, channels).value.0;
            && (forall k :: Nearest(k, n, d) <==> k == level)
            && domain.min <= level <= domain.max)
  {
    CalibrationIsSound(c);
    RatioBounds(c.data, channels);
    var q := ResponseRatio(c.data, channels).value;
    MulPositive(q.denominator, c.span);
    hide ResponseRatio, NewCalibration;
    if Normalize(c, channels).Ok? {
      var domain := c.data.supportedLevel;
      MulMono(0, domain.min, ScaledDenominator(c, q));
      RoundedIsNearest(ScaledNumerator(c, q), ScaledDenominator(c, q));
      forall k | Nearest(k, ScaledNumerator(c, q), ScaledDenominator(c, q))
        ensures k == Normalize(c, channels).value.0
      {
        RoundedUnique(ScaledNumerator(c, q), ScaledDenominator(c, q), k);
      }
      RoundedInDomain(ScaledNumerator(c, q), ScaledDenominator(c, q), domain.min, domain.max);
    }
  }

  /** q1 <= q2 as rationals. */
  predicate AtMost(q1: Ratio, q2: Ratio) {
    q1.numerator * q2.denominator <= q2.numerator * q1.denominator
  }

  lemma ScaledOrder(c: RawCalibration, q1: Ratio, q2: Ratio)
    requires Bounded(c.low) && Bounded(c.high) && c.span > 0 && Bounded(q1) && Bounded(q2) && AtMost(q1, q2)
    ensures ScaledNumerator(c, q1) * ScaledDenominator(c, q2) <= ScaledNumerator(c, q2) * ScaledDenominator(c, q1)
  {
    var x1, x2 := Cross(q1, c.low), Cross(q2, c.low);
    CrossOrder(c.low, q1, q2);
    var k := c.high.denominator * 1000 * c.span;
    MulPositive(c.high.denominator * 1000, c.span);
    MulMono(x1 * q2.denominator, x2 * q1.denominator, k);
    Regroup(x1, c.high.denominator, q2.denominator, c.span);
    Regroup(x2, c.high.denominator, q1.denominator, c.span);
  }

  lemma Regroup(x: int, h: int, d: int, s: int)
    ensures x * h * 1000 * (d * s) == x * d * (h * 1000 * s)
  {
    calc {
      x * h * 1000 * (d * s);
      { Assoc4(x, h * 1000, d, s); }
      x * d * (h * 1000 * s);
    }
  }

  lemma Assoc4(a: int, b: int, c: int, d: int)
    ensures a * b * (c * d) == a * c * (b * d)
  {
    assert a * b * (c * d) == a * (b * (c * d));
    assert b * (c * d) == c * (b * d);
    assert a * (c * (b * d)) == a * c * (b * d);
  }

  lemma CrossOrder(low: Ratio, q1: Ratio, q2: Ratio)
    requires low.denominator > 0 && AtMost(q1, q2)
    ensures Cross(q1, low) * q2.denominator <= Cross(q2, low) * q1.denominator
  {
    var l, m := low.numerator, low.denominator;
    MulMono(q1.numerator * q2.denominator, q2.numerator * q1.denominator, m);
    assert Cross(q1, low) * q2.denominator
        == q1.numerator * m * q2.denominator - l * q1.denominator * q2.denominator;
    assert Cross(q2, low) * q1.denominator
        == q2.numerator * m * q1.denominator - l * q2.denominator * q1.denominator;
    assert q1.numerator * m * q2.denominator == q1.numerator * q2.denominator * m;
    assert q2.numerator * m * q1.denominator == q2.numerator * q1.denominator * m;
    assert l * q1.denominator * q2.denominator == l * q2.denominator * q1.denominator;
  }

  /** The level is monotone in the response ratio. */
  lemma LevelIsMonotone(c: Calibration, a: RawChannels, b: RawChannels)
    requires Normalize(c, a).Ok? && Normalize(c, b).Ok?
    requires AtMost(Normalize(c, a).value.1, Normalize(c, b).value.1)
    ensures Normalize(c, a).value.0 <= Normalize(c, b).value.0
  {
    CalibrationIsSound(c);
    RatioBounds(c.data, a);
    RatioBounds(c.data, b);
    LevelIsNearest(c, a);
    LevelIsNearest(c, b);
    var q1, q2 := ResponseRatio(c.data, a).value, ResponseRatio(c.data, b).value;
    ScaledOrder(c, q1, q2);
    MulMono(0, c.data.supportedLevel.min, ScaledDenominator(c, q1));
    MulMono(0, c.data.supportedLevel.min, ScaledDenominator(c, q2));
    RoundedMonotone(ScaledNumerator(c, q1), ScaledDenominator(c, q1), ScaledNumerator(c, q2), ScaledDenominator(c, q2));
    hide ResponseRatio, NewCalibration, ScaledNumerator, ScaledDenominator;
  }

  lemma LowEndpointScales(c: RawCalibration)
    ensures ScaledNumerator(c, c.low) == 0
  {
  }

  lemma HighEndpointScales(c: RawCalibration)
    requires c.span == Cross(c.high, c.low)
    ensures ScaledNumerator(c, c.high) == 1000 * ScaledDenominator(c, c.high)
  {
    assert c.span * c.high.denominator == c.high.denominator * c.span;
  }

  lemma ZeroQuotient(d: int, low: Level, high: Level)
    requires d > 0
    ensures (low * d <= 0 <= high * d) <==> low == 0
    ensures Nearest(0, 0, d)
  {
    MulMono(0, high, d);
    if low > 0 {
      MulPositive(low, d);
    }
  }

  lemma FullQuotient(e: int, low: Level, high: Level)
    requires e > 0
    ensures (low * e <= 1000 * e <= high * e) <==> high == 1000
    ensures Nearest(1000, 1000 * e, e)
  {
    MulMono(low, 1000, e);
    if high < 1000 {
      MulStrict(high, 1000, e);
    }
  }

  /** The measured endpoints map to exactly 0 and 1000, exactly when the domain admits them. */
  lemma EndpointsAreExact(c: Calibration)
    ensures Normalize(c, c.data.lowEndpoint).Ok? <==> c.data.supportedLevel.min == 0
    ensures Normalize(c, c.data.lowEndpoint).Ok? ==> Normalize(c, c.data.lowEndpoint).value.0 == 0
    ensures Normalize(c, c.data.highEndpoint).Ok? <==> c.data.supportedLevel.max == 1000
    ensures Normalize(c, c.data.highEndpoint).Ok? ==> Normalize(c, c.data.highEndpoint).value.0 == 1000
  {
    hide ResponseRatio, NewCalibration, CheckData, Normalize, ScaledNumerator, ScaledDenominator, Cross, Nearest;
    CalibrationIsSound(c);
    LevelIsNearest(c, c.data.lowEndpoint);
    LevelIsNearest(c, c.data.highEndpoint);
    LowEndpointScales(c);
    HighEndpointScales(c);
    var domain := c.data.supportedLevel;
    ZeroQuotient(ScaledDenominator(c, c.low), domain.min, domain.max);
    FullQuotient(ScaledDenominator(c, c.high), domain.min, domain.max);
  }

  // ---------------------------------------------------------------- symmetry

  /** 32-bit negation; the one value without a negative lies outside the converter range anyway. */
  function Negated32(x: i32): i32 {
    if x == -0x8000_0000 then x else -x
  }

  function Mirrored(channels: RawChannels): RawChannels {
    Channels(Negated32(channels.level), Negated32(channels.wetReference))
  }

  function MirroredRange(r: CountsRange): CountsRange {
    CountsRange(Negated32(r.max), Negated32(r.min))
  }

  /** The same installation with every count negated and the reference sign flipped. */
  function MirroredData(d: CalibrationData): CalibrationData {
    d.(levelEmpty := Negated32(d.levelEmpty),
       wetReferenceEmpty := Negated32(d.wetReferenceEmpty),
       lowEndpoint := Mirrored(d.lowEndpoint),
       highEndpoint := Mirrored(d.highEndpoint),
       channels := Channels(
         d.channels.level.(envelope := MirroredRange(d.channels.level.envelope)),
         d.channels.wetReference.(envelope := MirroredRange(d.channels.wetReference.envelope))),
       referenceSign := if d.referenceSign.Positive? then Negative else Positive)
  }

  lemma MirroredRatio(d: CalibrationData, channels: RawChannels)
    requires CheckData(d).Ok?
    ensures CheckData(MirroredData(d)).Ok?
    ensures ResponseRatio(MirroredData(d), Mirrored(channels)).Ok? <==> ResponseRatio(d, channels).Ok?
    ensures ResponseRatio(d, channels).Ok? ==>
      ResponseRatio(MirroredData(d), Mirrored(channels)) == ResponseRatio(d, channels)
  {
  }

  /** Mirroring an installation keeps its calibration's ratios, and every level it measures. */
  lemma MirrorKeepsLevels(c: Calibration, channels: RawChannels)
    ensures NewCalibration(MirroredData(c.data)) == Ok(c.(data := MirroredData(c.data)))
    ensures var m: Calibration := c.(data := MirroredData(c.data));
      && (Normalize(m, Mirrored(channels)).Ok? <==> Normalize(c, channels).Ok?)
      && (Normalize(c, channels).Ok? ==> Normalize(m, Mirrored(channels)) == Normalize(c, channels))
  {
    CalibrationIsSound(c);
    MirroredRatio(c.data, channels);
    MirroredRatio(c.data, c.data.lowEndpoint);
    MirroredRatio(c.data, c.data.highEndpoint);
    hide ResponseRatio, CheckData, Cross, Rounded;
  }
}
