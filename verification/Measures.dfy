/** What a level and a reading mean: the response fraction in real numbers, and exactly which frames become readings. */
module Measures {
  import opened Acquisition
  import opened Base
  import opened Calibration
  import opened Interlock

  // ------------------------------------------------------------------ response

  /** A channel's counts lie strictly inside the converter's range and inside the commissioned envelope. */
  predicate Plausible(counts: i32, envelope: CountsRange) {
    -7864320 < counts < 7864320 && envelope.min <= counts <= envelope.max
  }

  /** The wet reference has moved off its dry baseline far enough, and in the commissioned direction. */
  predicate Referenced(data: CalibrationData, channels: RawChannels) {
    var moved := channels.wetReference - data.wetReferenceEmpty;
    && (if data.referenceSign.Positive? then moved > 0 else moved < 0)
    && (moved >= data.minimumReferenceSpan || -moved >= data.minimumReferenceSpan)
  }

  /** A response is taken exactly from plausible counts and a reference that has moved. */
  lemma ResponseIff(data: CalibrationData, channels: RawChannels)
    ensures ResponseRatio(data, channels).Ok? <==>
      && Plausible(channels.level, data.channels.level.envelope)
      && Plausible(channels.wetReference, data.channels.wetReference.envelope)
      && Referenced(data, channels)
  {
  }

  /** How far the level channel has moved for each count the reference has. */
  function Response(data: CalibrationData, channels: RawChannels): real
    requires channels.wetReference != data.wetReferenceEmpty
  {
    (channels.level - data.levelEmpty) as real / (channels.wetReference - data.wetReferenceEmpty) as real
  }

  lemma ResponseIsRatio(data: CalibrationData, channels: RawChannels)
    requires ResponseRatio(data, channels).Ok?
    ensures channels.wetReference != data.wetReferenceEmpty
    ensures var q := ResponseRatio(data, channels).value;
      q.denominator > 0 && q.numerator as real == Response(data, channels) * q.denominator as real
  {
    ResponseIff(data, channels);
    var q := ResponseRatio(data, channels).value;
    var moved := channels.wetReference - data.wetReferenceEmpty;
    QuotientTimes((channels.level - data.levelEmpty) as real, moved as real);
    assert q.denominator == moved || q.denominator == -moved;
  }

  lemma QuotientTimes(a: real, b: real)
    requires b != 0.0
    ensures a / b * b == a
  {
  }

  /** Where a response lies between the two measured endpoints, in thousandths. */
  ghost function Fraction(c: Calibration, channels: RawChannels): real
    requires ResponseRatio(c.data, channels).Ok?
  {
    Endpoints(c);
    ResponseIff(c.data, channels);
    var low, high := Response(c.data, c.data.lowEndpoint), Response(c.data, c.data.highEndpoint);
    1000.0 * (Response(c.data, channels) - low) / (high - low)
  }

  /** The endpoints of an accepted calibration respond in order. */
  lemma Endpoints(c: Calibration)
    ensures c.data.lowEndpoint.wetReference != c.data.wetReferenceEmpty
    ensures c.data.highEndpoint.wetReference != c.data.wetReferenceEmpty
    ensures Response(c.data, c.data.lowEndpoint) < Response(c.data, c.data.highEndpoint)
  {
    hide ResponseRatio, NewCalibration, CheckData;
    CalibrationIsSound(c);
    ResponseIsRatio(c.data, c.data.lowEndpoint);
    ResponseIsRatio(c.data, c.data.highEndpoint);
    CrossIsDifference(c.high, c.low, Response(c.data, c.data.highEndpoint), Response(c.data, c.data.lowEndpoint));
  }

  lemma CrossIsDifference(p: Ratio, q: Ratio, x: real, y: real)
    requires p.denominator > 0 && q.denominator > 0
    requires p.numerator as real == x * p.denominator as real && q.numerator as real == y * q.denominator as real
    ensures Cross(p, q) as real == (x - y) * (p.denominator as real * q.denominator as real)
    ensures p.denominator as real * q.denominator as real > 0.0
    ensures Cross(p, q) > 0 <==> x > y
  {
    var b, m := p.denominator as real, q.denominator as real;
    assert (p.numerator * q.denominator) as real == x * b * m;
    assert (q.numerator * p.denominator) as real == y * m * b;
    Distribute(x, y, b, m);
    Positive(b, m);
    SignOfProduct(x - y, b * m);
  }

  lemma Distribute(x: real, y: real, b: real, m: real)
    ensures x * b * m - y * m * b == (x - y) * (b * m)
  {
  }

  lemma Positive(b: real, m: real)
    requires b > 0.0 && m > 0.0
    ensures b * m > 0.0
  {
  }

  lemma SignOfProduct(d: real, p: real)
    requires p > 0.0
    ensures d * p > 0.0 <==> d > 0.0
  {
  }

  /** The scaled integers are the fraction over their common positive denominator. */
  lemma ScaledIsFraction(c: Calibration, channels: RawChannels)
    requires ResponseRatio(c.data, channels).Ok?
    ensures var q := ResponseRatio(c.data, channels).value;
      ScaledDenominator(c, q) > 0
      && ScaledNumerator(c, q) as real == Fraction(c, channels) * ScaledDenominator(c, q) as real
  {
    hide ResponseRatio, NewCalibration, CheckData, Cross, ScaledNumerator, ScaledDenominator, Response;
    Endpoints(c);
    CalibrationIsSound(c);
    var q := ResponseRatio(c.data, channels).value;
    ScaledParts(c, q);
    ResponseIsRatio(c.data, channels);
    ResponseIsRatio(c.data, c.data.lowEndpoint);
    ResponseIsRatio(c.data, c.data.highEndpoint);
    MulPositive(q.denominator, c.span);
    Scales(q, c.low, c.high, Response(c.data, channels), Response(c.data, c.data.lowEndpoint), Response(c.data, c.data.highEndpoint));
  }

  lemma Scales(q: Ratio, low: Ratio, high: Ratio, x: real, lo: real, hi: real)
    requires q.denominator > 0 && low.denominator > 0 && high.denominator > 0 && lo < hi
    requires q.numerator as real == x * q.denominator as real
    requires low.numerator as real == lo * low.denominator as real
    requires high.numerator as real == hi * high.denominator as real
    ensures Cross(q, low) as real * high.denominator as real * 1000.0
         == 1000.0 * (x - lo) / (hi - lo) * (q.denominator as real * Cross(high, low) as real)
  {
    hide Cross;
    CrossIsDifference(q, low, x, lo);
    CrossIsDifference(high, low, hi, lo);
    Fractions(Cross(q, low) as real, Cross(high, low) as real, x - lo, hi - lo, q.denominator as real, low.denominator as real,
              high.denominator as real);
  }

  lemma ScaledParts(c: RawCalibration, q: Ratio)
    ensures ScaledNumerator(c, q) as real == Cross(q, c.low) as real * c.high.denominator as real * 1000.0
    ensures ScaledDenominator(c, q) as real == q.denominator as real * c.span as real
    ensures ScaledDenominator(c, q) == q.denominator * c.span
  {
    hide Cross;
  }

  lemma Fractions(n: real, d: real, x: real, y: real, b: real, m: real, k: real)
    requires y != 0.0 && n == x * (b * m) && d == y * (k * m)
    ensures n * k * 1000.0 == 1000.0 * x / y * (b * d)
  {
    var f := 1000.0 * x / y;
    QuotientTimes(1000.0 * x, y);
    assert b * d == y * (b * (k * m));
    assert f * (y * (b * (k * m))) == f * y * (b * (k * m));
    assert n * k == x * (b * (k * m));
  }

  lemma OrderOver(k: int, n: int, d: int, x: real)
    requires d > 0 && n as real == x * d as real
    ensures k * d <= n <==> k as real <= x
    ensures n <= k * d <==> x <= k as real
    ensures n < k * d <==> x < k as real
  {
    assert (k * d) as real == k as real * d as real;
    SignOfProduct(k as real - x, d as real);
    SignOfProduct(x - k as real, d as real);
  }

  /**
   A level is the response fraction rounded to the nearest thousandth, halves up, and is given
   exactly when that fraction lies in the supported domain.
   */
  lemma LevelIsFraction(c: Calibration, channels: RawChannels)
    requires ResponseRatio(c.data, channels).Ok?
    ensures var x := Fraction(c, channels);
      && (Normalize(c, channels).Ok? <==> c.data.supportedLevel.min as real <= x <= c.data.supportedLevel.max as real)
      && (Normalize(c, channels).Ok? ==>
            Normalize(c, channels).value.0 as real - 0.5 <= x < Normalize(c, channels).value.0 as real + 0.5)
  {
    hide ResponseRatio, NewCalibration, Normalize, Fraction, ScaledNumerator, ScaledDenominator, Nearest;
    var q, x := ResponseRatio(c.data, channels).value, Fraction(c, channels);
    var n, d := ScaledNumerator(c, q), ScaledDenominator(c, q);
    LevelIsNearest(c, channels);
    ScaledIsFraction(c, channels);
    OrderOver(c.data.supportedLevel.min, n, d, x);
    OrderOver(c.data.supportedLevel.max, n, d, x);
    if Normalize(c, channels).Ok? {
      NearestIsWithinHalf(Normalize(c, channels).value.0, n, d, x);
    }
  }

  lemma NearestIsWithinHalf(k: int, n: int, d: int, x: real)
    requires d > 0 && n as real == x * d as real
    ensures Nearest(k, n, d) ==> k as real - 0.5 <= x < k as real + 0.5
  {
    assert (2 * n) as real == (2.0 * x) * d as real;
    OrderOver(2 * k - 1, 2 * n, d, 2.0 * x);
    OrderOver(2 * k + 1, 2 * n, d, 2.0 * x);
  }

  /** Calibration data is accepted exactly when every limit is usable and the endpoints respond far enough apart. */
  lemma AcceptedIff(data: CalibrationData)
    ensures NewCalibration(data).Ok? <==>
      && -7864320 < data.levelEmpty < 7864320 && -7864320 < data.wetReferenceEmpty < 7864320
      && LimitsOk(data.channels.level) && LimitsOk(data.channels.wetReference) && data.maxLevelSlew > 0
      && 1 <= data.minimumReferenceSpan <= 15728638
      && data.minimumRatioSpan.numerator > 0 && data.minimumRatioSpan.denominator > 0
      && data.supportedLevel.min < data.supportedLevel.max
      && 1 <= data.maxFrameDurationMs <= data.maxFrameAgeMs
      && ResponseRatio(data, data.lowEndpoint).Ok? && ResponseRatio(data, data.highEndpoint).Ok?
      && FarApart(data)
  {
    hide ResponseRatio, Cross, Response;
    if ResponseRatio(data, data.lowEndpoint).Ok? && ResponseRatio(data, data.highEndpoint).Ok? {
      FarApartIff(data);
    }
  }

  predicate LimitsOk(limits: ChannelLimits) {
    -7864320 < limits.envelope.min < limits.envelope.max < 7864320 && limits.maxSlew > 0
  }

  /** The endpoints' responses differ by at least the commissioned ratio, and in order. */
  ghost predicate FarApart(data: CalibrationData)
    requires ResponseRatio(data, data.lowEndpoint).Ok? && ResponseRatio(data, data.highEndpoint).Ok?
  {
    ResponseIff(data, data.lowEndpoint);
    ResponseIff(data, data.highEndpoint);
    var apart := Response(data, data.highEndpoint) - Response(data, data.lowEndpoint);
    apart > 0.0
    && apart * data.minimumRatioSpan.denominator as real >= data.minimumRatioSpan.numerator as real
  }

  lemma FarApartIff(data: CalibrationData)
    requires ResponseRatio(data, data.lowEndpoint).Ok? && ResponseRatio(data, data.highEndpoint).Ok?
    ensures var low, high := ResponseRatio(data, data.lowEndpoint).value, ResponseRatio(data, data.highEndpoint).value;
      var m := data.minimumRatioSpan;
      FarApart(data) <==>
        && Cross(high, low) > 0
        && Cross(high, low) * m.denominator >= m.numerator * low.denominator * high.denominator
  {
    hide ResponseRatio, Cross;
    ResponseIsRatio(data, data.lowEndpoint);
    ResponseIsRatio(data, data.highEndpoint);
    var low, high := ResponseRatio(data, data.lowEndpoint).value, ResponseRatio(data, data.highEndpoint).value;
    var x, y := Response(data, data.highEndpoint), Response(data, data.lowEndpoint);
    CrossIsDifference(high, low, x, y);
    hide Response;
    SpanOrder(Cross(high, low), x - y, low.denominator, high.denominator, data.minimumRatioSpan.numerator,
              data.minimumRatioSpan.denominator);
  }

  lemma SpanOrder(span: int, apart: real, m: int, h: int, n: int, d: int)
    requires m > 0 && h > 0 && span as real == apart * (h as real * m as real)
    ensures span * d >= n * m * h <==> apart * d as real >= n as real
  {
    var p := h as real * m as real;
    Positive(h as real, m as real);
    assert (span * d) as real == apart * d as real * p;
    assert (n * m * h) as real == n as real * p;
    SignOfProduct(n as real - apart * d as real, p);
  }

  // -------------------------------------------------------------------- frames

  /** A rate limit per second, as a bound on the change between two frames. */
  predicate Slews(delta: int, perSecond: u32, elapsedMs: nat) {
    -(perSecond * elapsedMs) <= delta * 1000 <= perSecond * elapsedMs
  }

  /** The frame comes after all the stage has seen, in sequence and in time, and is complete. */
  predicate Timely(s: Stage, a: Arrival) {
    && s.lastNow <= a.now
    && (s.lastSequence.Some? ==> s.lastSequence.value < a.frame.sequence)
    && a.frame.startedAt < a.frame.completedAt <= a.now
    && (s.lastCompleted.Some? ==> s.lastCompleted.value <= a.frame.startedAt)
  }

  /** It is short and young enough by the calibration's own limits. */
  predicate Brief(data: CalibrationData, a: Arrival) {
    && a.frame.completedAt - a.frame.startedAt <= data.maxFrameDurationMs
    && a.now - a.frame.startedAt <= data.maxFrameAgeMs
  }

  /** And it moved no faster than each limit allows since the last reading. */
  predicate Gradual(s: Stage, frame: RawFrame, level: Level)
    requires s.lastValid.Some? && s.lastValid.value.0.startedAt <= frame.startedAt
  {
    var data, before, elapsed := s.calibration.data, s.lastValid.value, frame.startedAt - s.lastValid.value.0.startedAt;
    && Slews(frame.channels.level - before.0.channels.level, data.channels.level.maxSlew, elapsed)
    && Slews(frame.channels.wetReference - before.0.channels.wetReference, data.channels.wetReference.maxSlew, elapsed)
    && Slews(level - before.1, data.maxLevelSlew, elapsed)
  }

  lemma SlewIsBothWays(delta: int, rate: u32, elapsed: nat)
    ensures WithinSlew(Abs(delta), rate, elapsed) <==> Slews(delta, rate, elapsed)
  {
  }

  /** A frame becomes a reading exactly when it is timely, brief, measurable and gradual; the reading is its level as of its start. */
  lemma ReadingIff(s: Stage, a: Arrival)
    requires s.Consistent()
    ensures var r := Processed(s, a.now, a.frame).1.reading;
      var n := Normalize(s.calibration, a.frame.channels);
      && (r.Valid? <==>
            && Timely(s, a) && Brief(s.calibration.data, a) && n.Ok?
            && (s.lastValid.Some? ==> Gradual(s, a.frame, n.value.0)))
      && (r.Valid? ==> r.level == n.value.0 && r.observedAt == a.frame.startedAt)
  {
    hide Normalize, WithinSlew, Slews, Abs;
    if s.lastValid.Some? && Timely(s, a) && Normalize(s.calibration, a.frame.channels).Ok? {
      var before := s.lastValid.value;
      var elapsed, data := a.frame.startedAt - before.0.startedAt, s.calibration.data;
      SlewIsBothWays(a.frame.channels.level - before.0.channels.level, data.channels.level.maxSlew, elapsed);
      SlewIsBothWays(a.frame.channels.wetReference - before.0.channels.wetReference, data.channels.wetReference.maxSlew, elapsed);
      SlewIsBothWays(Normalize(s.calibration, a.frame.channels).value.0 - before.1, data.maxLevelSlew, elapsed);
    }
  }

  /** Why a frame is refused, in the order the interlock's fault reports it. */
  lemma FaultTable(s: Stage, a: Arrival)
    requires s.Consistent() && Processed(s, a.now, a.frame).1.reading.Invalid?
    ensures var f := a.frame;
      Processed(s, a.now, a.frame).1.reading == Invalid(
        if a.now < s.lastNow then Fault.ClockWentBackwards
        else if s.lastSequence.Some? && f.sequence <= s.lastSequence.value then InvalidSensorFrame
        else if f.completedAt <= f.startedAt then InvalidSensorFrame
        else if a.now < f.completedAt then FutureSample
        else if !Timely(s, a) then InvalidSensorFrame
        else if s.calibration.data.maxFrameDurationMs < f.completedAt - f.startedAt then InvalidSensorFrame
        else if s.calibration.data.maxFrameAgeMs < a.now - f.startedAt then Stale
        else OutOfRange)
  {
    hide WithinSlew, Abs;
    NormalizeFault(s.calibration, a.frame.channels);
    hide Normalize;
  }

  /** A measurement that fails is out of range, whichever check it fails. */
  lemma NormalizeFault(c: Calibration, channels: RawChannels)
    ensures Normalize(c, channels).Err? ==> FaultOf(Normalize(c, channels).error) == OutOfRange
  {
  }

  lemma MarksRise(s: Stage, a: Arrival)
    requires s.Consistent()
    ensures var n := Processed(s, a.now, a.frame).0;
      && n.lastNow == Max(s.lastNow, a.now)
      && n.lastSequence == Some(if s.lastSequence.Some? then Max(s.lastSequence.value, a.frame.sequence) else a.frame.sequence)
  {
    hide Measured;
  }

  /** No time among `times` is later than `high`, and `high` is one of them or `start`. */
  ghost predicate Highest(start: int, times: seq<int>, high: int) {
    && (high == start || high in times)
    && start <= high && forall t :: t in times ==> t <= high
  }

  lemma HighestRises(start: int, times: seq<int>, high: int, t: int)
    requires Highest(start, times, high)
    ensures Highest(start, times + [t], Max(high, t))
  {
  }

  ghost function Times(arrivals: seq<Arrival>): (r: seq<int>)
    ensures |r| == |arrivals|
  {
    seq(|arrivals|, i requires 0 <= i < |arrivals| => arrivals[i].now)
  }

  ghost function Sequences(arrivals: seq<Arrival>): (r: seq<int>)
    ensures |r| == |arrivals|
  {
    seq(|arrivals|, i requires 0 <= i < |arrivals| => arrivals[i].frame.sequence)
  }

  /** The marks are the highest time and sequence of all arrivals so far, whatever became of them. */
  lemma {:induction false} MarksAreHighest(calibration: Calibration, start: Millis, arrivals: seq<Arrival>, ss: seq<Stage>, n: nat)
    requires History(calibration, start, arrivals, ss) && n <= |arrivals|
    ensures Highest(start, Times(arrivals[..n]), ss[n].lastNow)
    ensures if n == 0 then ss[n].lastSequence.None?
      else ss[n].lastSequence.Some? && Highest(arrivals[0].frame.sequence, Sequences(arrivals[..n]), ss[n].lastSequence.value)
  {
    hide Processed, Highest;
    if n == 0 {
      NothingHigher(start);
    } else {
      MarksAreHighest(calibration, start, arrivals, ss, n - 1);
      MarksRise(ss[n - 1], arrivals[n - 1]);
      HighestRises(start, Times(arrivals[..n - 1]), ss[n - 1].lastNow, arrivals[n - 1].now);
      assert Times(arrivals[..n]) == Times(arrivals[..n - 1]) + [arrivals[n - 1].now];
      assert Sequences(arrivals[..n]) == Sequences(arrivals[..n - 1]) + [arrivals[n - 1].frame.sequence];
      if n == 1 {
        OnlyOneIsHighest(arrivals[0].frame.sequence);
        assert Sequences(arrivals[..1]) == [arrivals[0].frame.sequence];
      } else {
        HighestRises(arrivals[0].frame.sequence, Sequences(arrivals[..n - 1]), ss[n - 1].lastSequence.value,
                     arrivals[n - 1].frame.sequence);
      }
    }
  }

  lemma NothingHigher(start: int)
    ensures Highest(start, [], start)
  {
  }

  lemma OnlyOneIsHighest(t: int)
    ensures Highest(t, [t], t)
  {
  }
}
