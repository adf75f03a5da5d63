/** Per-boot acquisition history: which frames become readings, and how fast readings may move. */
module Acquisition {
  import opened Base
  import opened Interlock
  import opened Calibration

  datatype RawFrame = RawFrame(channels: RawChannels, sequence: u64, startedAt: Millis, completedAt: Millis)

  /** The value of a calibration stage. */
  datatype Stage = Stage(
    calibration: Calibration,
    lastNow: Millis,
    lastSequence: Option<u64>,
    lastCompleted: Option<Millis>,
    lastValid: Option<(RawFrame, Level)>)
  {
    /** The newest reading lies behind every mark, so no elapsed time underflows. */
    predicate Consistent() {
      && (lastCompleted.Some? ==> lastCompleted.value <= lastNow)
      && (lastValid.Some? ==>
            && lastValid.value.0.startedAt < lastValid.value.0.completedAt
            && lastCompleted.Some? && lastValid.value.0.completedAt <= lastCompleted.value
            && lastSequence.Some? && lastValid.value.0.sequence <= lastSequence.value)
    }
  }

  function NewStage(calibration: Calibration, now: Millis): Stage {
    Stage(calibration, now, None, None, None)
  }

  /** A change of `delta` over `elapsed` milliseconds stays within `rate` per second. */
  predicate WithinSlew(delta: nat, rate: u32, elapsed: nat) {
    delta * 1000 <= rate * elapsed
  }

  function CheckChannelSlew(channel: Channel, counts: i32, previous: i32, rate: u32, elapsed: u64): Result<(), CalibrationError> {
    if WithinSlew(Abs(counts - previous), rate, elapsed) then Ok(())
    else Err(ChannelSlew(channel, Abs(counts - previous), elapsed, rate))
  }

  function CheckSlew(data: CalibrationData, frame: RawFrame, level: Level, previous: (RawFrame, Level)): Result<(), CalibrationError>
    requires previous.0.startedAt <= frame.startedAt
  {
    var elapsed: u64 := frame.startedAt - previous.0.startedAt;
    var _ :- CheckChannelSlew(LevelChannel, frame.channels.level, previous.0.channels.level, data.channels.level.maxSlew, elapsed);
    var _ :- CheckChannelSlew(WetReference, frame.channels.wetReference, previous.0.channels.wetReference,
                              data.channels.wetReference.maxSlew, elapsed);
    if WithinSlew(Abs(level - previous.1), data.maxLevelSlew, elapsed) then Ok(())
    else Err(LevelSlew(Abs(level - previous.1), elapsed, data.maxLevelSlew))
  }

  /** The sequence mark moves for every advancing frame, accepted or not. */
  function SequenceMark(previous: Option<u64>, sequence: u64): Option<u64> {
    if previous.None? || sequence > previous.value then Some(sequence) else previous
  }

  /** Times and identity of the frame; the stage returned has its marks moved. */
  function Screened(s: Stage, now: Millis, frame: RawFrame): (Stage, Option<CalibrationError>) {
    var seen := s.(lastSequence := SequenceMark(s.lastSequence, frame.sequence));
    if now < s.lastNow then (seen, Some(CalibrationError.ClockWentBackwards(s.lastNow, now)))
    else
      var timed := seen.(lastNow := now);
      if s.lastSequence.Some? && frame.sequence <= s.lastSequence.value then
        (timed, Some(SequenceNotIncreasing(s.lastSequence.value, frame.sequence)))
      else if frame.startedAt >= frame.completedAt then
        (timed, Some(InvalidFrameTimes(frame.startedAt, frame.completedAt)))
      else if frame.completedAt > now then (timed, Some(FutureFrame(frame.completedAt, now)))
      else if s.lastCompleted.Some? && frame.startedAt < s.lastCompleted.value then
        (timed, Some(OverlappingFrame(s.lastCompleted.value, frame.startedAt)))
      else (timed.(lastCompleted := Some(frame.completedAt)), None)
  }

  /** Length, age, calibration and slew of a frame whose times were accepted. */
  function Measured(s: Stage, now: Millis, frame: RawFrame): Result<(Level, Ratio), CalibrationError>
    requires frame.startedAt < frame.completedAt <= now
    requires s.lastValid.Some? ==> s.lastValid.value.0.startedAt <= frame.startedAt
  {
    var data := s.calibration.data;
    var duration: u64 := frame.completedAt - frame.startedAt;
    var age: u64 := now - frame.startedAt;
    if duration > data.maxFrameDurationMs then Err(FrameTooLong(duration, data.maxFrameDurationMs))
    else if age > data.maxFrameAgeMs then Err(StaleFrame(age, data.maxFrameAgeMs))
    else
      var measured :- Normalize(s.calibration, frame.channels);
      if s.lastValid.None? then Ok(measured)
      else
        var _ :- CheckSlew(data, frame, measured.0, s.lastValid.value);
        Ok(measured)
  }

  function Validated(s: Stage, now: Millis, frame: RawFrame): (Stage, Result<(Level, Ratio), CalibrationError>)
    requires s.Consistent()
  {
    var (screened, error) := Screened(s, now, frame);
    if error.Some? then (screened, Err(error.value)) else (screened, Measured(screened, now, frame))
  }

  function FaultOf(error: CalibrationError): Fault {
    match error
    case ClockWentBackwards(_, _) => Fault.ClockWentBackwards
    case FutureFrame(_, _) => FutureSample
    case StaleFrame(_, _) => Stale
    case SequenceNotIncreasing(_, _) => InvalidSensorFrame
    case InvalidFrameTimes(_, _) => InvalidSensorFrame
    case OverlappingFrame(_, _) => InvalidSensorFrame
    case FrameTooLong(_, _) => InvalidSensorFrame
    case _ => OutOfRange
  }

  datatype Outcome = Outcome(reading: Reading, frame: RawFrame, ratio: Option<Ratio>, error: Option<CalibrationError>)

  function Processed(s: Stage, now: Millis, frame: RawFrame): (Stage, Outcome)
    requires s.Consistent()
  {
    var (next, r) := Validated(s, now, frame);
    match r
    case Ok(measured) =>
      (next.(lastValid := Some((frame, measured.0))),
       Outcome(Valid(measured.0, frame.startedAt), frame, Some(measured.1), None))
    case Err(error) => (next, Outcome(Invalid(FaultOf(error)), frame, None, Some(error)))
  }

  /** The stage as the firmware keeps it across sensor and bus recovery. */
  class CalibrationStage {
    const calibration: Calibration
    var lastNow: Millis
    var lastSequence: Option<u64>
    var lastCompleted: Option<Millis>
    var lastValid: Option<(RawFrame, Level)>

    ghost function Value(): Stage
      reads this
    {
      Stage(calibration, lastNow, lastSequence, lastCompleted, lastValid)
    }

    constructor (calibration: Calibration, now: Millis)
      ensures Value() == NewStage(calibration, now)
    {
      this.calibration := calibration;
      lastNow, lastSequence, lastCompleted, lastValid := now, None, None, None;
    }

    method Process(now: Millis, frame: RawFrame) returns (outcome: Outcome)
      requires Value().Consistent()
      modifies this
      ensures (Value(), outcome) == Processed(old(Value()), now, frame)
      ensures Value().Consistent()
    {
      var r := Validate(now, frame);
      match r {
        case Ok(measured) =>
          lastValid := Some((frame, measured.0));
          outcome := Outcome(Valid(measured.0, frame.startedAt), frame, Some(measured.1), None);
        case Err(error) =>
          outcome := Outcome(Invalid(FaultOf(error)), frame, None, Some(error));
      }
    }

    method Validate(now: Millis, frame: RawFrame) returns (r: Result<(Level, Ratio), CalibrationError>)
      requires Value().Consistent()
      modifies this
      ensures (Value(), r) == Validated(old(Value()), now, frame)
      ensures Value().Consistent()
      ensures r.Ok? ==> frame.startedAt < frame.completedAt && lastCompleted == Some(frame.completedAt)
      ensures r.Ok? ==> lastSequence == Some(frame.sequence)
    {
      hide Normalize;
      var previousSequence := lastSequence;
      if previousSequence.None? || frame.sequence > previousSequence.value {
        lastSequence := Some(frame.sequence);
      }
      if now < lastNow {
        return Err(CalibrationError.ClockWentBackwards(lastNow, now));
      }
      lastNow := now;
      if previousSequence.Some? && frame.sequence <= previousSequence.value {
        return Err(SequenceNotIncreasing(previousSequence.value, frame.sequence));
      }
      if frame.startedAt >= frame.completedAt {
        return Err(InvalidFrameTimes(frame.startedAt, frame.completedAt));
      }
      if frame.completedAt > now {
        return Err(FutureFrame(frame.completedAt, now));
      }
      if lastCompleted.Some? && frame.startedAt < lastCompleted.value {
        return Err(OverlappingFrame(lastCompleted.value, frame.startedAt));
      }
      lastCompleted := Some(frame.completedAt);
      var data := calibration.data;
      var duration: u64 := frame.completedAt - frame.startedAt;
      if duration > data.maxFrameDurationMs {
        return Err(FrameTooLong(duration, data.maxFrameDurationMs));
      }
      var age: u64 := now - frame.startedAt;
      if age > data.maxFrameAgeMs {
        return Err(StaleFrame(age, data.maxFrameAgeMs));
      }
      var measured :- Normalize(calibration, frame.channels);
      if lastValid.Some? {
        var _ :- CheckSlew(data, frame, measured.0, lastValid.value);
      }
      return Ok(measured);
    }
  }

  // ----------------------------------------------------------------- history

  datatype Arrival = Arrival(now: Millis, frame: RawFrame)

  lemma ProcessedKeepsConsistent(s: Stage, a: Arrival)
    requires s.Consistent()
    ensures Processed(s, a.now, a.frame).0.Consistent()
    ensures Processed(s, a.now, a.frame).0.calibration == s.calibration
  {
    hide Normalize, CheckSlew;
  }

  /** `ss[i]` is the stage after the first `i` arrivals, good and bad. */
  ghost predicate History(calibration: Calibration, start: Millis, arrivals: seq<Arrival>, ss: seq<Stage>) {
    && |ss| == |arrivals| + 1
    && ss[0] == NewStage(calibration, start)
    && forall i :: 0 <= i < |arrivals| ==>
         ss[i].Consistent() && ss[i + 1] == Processed(ss[i], arrivals[i].now, arrivals[i].frame).0
  }

  lemma {:induction false} HistoryConsistent(calibration: Calibration, start: Millis, arrivals: seq<Arrival>, ss: seq<Stage>, n: nat)
    requires History(calibration, start, arrivals, ss) && n <= |arrivals|
    ensures ss[n].Consistent() && ss[n].calibration == calibration
  {
    hide Processed;
    if n > 0 {
      HistoryConsistent(calibration, start, arrivals, ss, n - 1);
      ProcessedKeepsConsistent(ss[n - 1], arrivals[n - 1]);
    }
  }

  /** Arrival `n` became a reading at `level`. */
  predicate Accepted(s: Stage, a: Arrival, level: Level)
    requires s.Consistent()
  {
    var outcome := Processed(s, a.now, a.frame).1;
    outcome.reading == Valid(level, a.frame.startedAt) && outcome.error.None?
  }

  /** `b` follows `a`: newer, later, not overlapping, and within every slew limit of `data`. */
  predicate Follows(data: CalibrationData, a: RawFrame, aLevel: Level, b: RawFrame, bLevel: Level) {
    && a.sequence < b.sequence
    && a.startedAt < a.completedAt <= b.startedAt < b.completedAt
    && var elapsed := b.startedAt - a.startedAt;
       && WithinSlew(Abs(b.channels.level - a.channels.level), data.channels.level.maxSlew, elapsed)
       && WithinSlew(Abs(b.channels.wetReference - a.channels.wetReference), data.channels.wetReference.maxSlew, elapsed)
       && WithinSlew(Abs(bLevel - aLevel), data.maxLevelSlew, elapsed)
  }

  /** The newest reading, and the marks that every later frame must pass. */
  predicate Marks(data: CalibrationData, s: Stage, frame: RawFrame, level: Level) {
    && s.lastValid.Some?
    && (s.lastValid.value == (frame, level) || Follows(data, frame, level, s.lastValid.value.0, s.lastValid.value.1))
  }

  lemma SlewAdds(x: int, y: int, z: int, rate: u32, e1: nat, e2: nat)
    requires WithinSlew(Abs(y - x), rate, e1) && WithinSlew(Abs(z - y), rate, e2)
    ensures WithinSlew(Abs(z - x), rate, e1 + e2)
  {
    assert rate * (e1 + e2) == rate * e1 + rate * e2;
  }

  lemma FollowsTransitive(data: CalibrationData, a: RawFrame, al: Level, b: RawFrame, bl: Level, c: RawFrame, cl: Level)
    requires Follows(data, a, al, b, bl) && Follows(data, b, bl, c, cl)
    ensures Follows(data, a, al, c, cl)
  {
    var e1, e2 := b.startedAt - a.startedAt, c.startedAt - b.startedAt;
    SlewAdds(a.channels.level, b.channels.level, c.channels.level, data.channels.level.maxSlew, e1, e2);
    SlewAdds(a.channels.wetReference, b.channels.wetReference, c.channels.wetReference, data.channels.wetReference.maxSlew, e1, e2);
    SlewAdds(al, bl, cl, data.maxLevelSlew, e1, e2);
    hide WithinSlew;
  }

  /** An accepted frame becomes the newest reading and follows the previous one. */
  lemma AcceptedFollows(s: Stage, a: Arrival, level: Level)
    requires s.Consistent() && Accepted(s, a, level)
    ensures var n := Processed(s, a.now, a.frame).0;
      && n.lastValid == Some((a.frame, level))
      && a.frame.startedAt < a.frame.completedAt
      && (s.lastValid.Some? ==> Follows(s.calibration.data, s.lastValid.value.0, s.lastValid.value.1, a.frame, level))
  {
    hide Normalize;
  }

  /** A rejected frame leaves the newest reading alone. */
  lemma RejectedKeeps(s: Stage, a: Arrival)
    requires s.Consistent()
    ensures var (n, outcome) := Processed(s, a.now, a.frame);
      if outcome.error.Some? then n.lastValid == s.lastValid
      else outcome.reading.Valid? && Accepted(s, a, outcome.reading.level)
  {
    hide Normalize, CheckSlew;
  }

  lemma MarksStep(s: Stage, a: Arrival, frame: RawFrame, level: Level)
    requires s.Consistent() && Marks(s.calibration.data, s, frame, level)
    ensures Marks(s.calibration.data, Processed(s, a.now, a.frame).0, frame, level)
  {
    RejectedKeeps(s, a);
    hide Processed, Accepted, Follows;
    var outcome := Processed(s, a.now, a.frame).1;
    if outcome.error.None? {
      AcceptedFollows(s, a, outcome.reading.level);
      if s.lastValid.value != (frame, level) {
        FollowsTransitive(s.calibration.data, frame, level, s.lastValid.value.0, s.lastValid.value.1,
                          a.frame, outcome.reading.level);
      }
    }
  }

  lemma {:induction false} ReadingStays(calibration: Calibration, start: Millis, arrivals: seq<Arrival>, ss: seq<Stage>,
                                        i: nat, n: nat, level: Level)
    requires History(calibration, start, arrivals, ss) && i < n <= |arrivals|
    requires ss[i].Consistent() && Accepted(ss[i], arrivals[i], level)
    ensures Marks(calibration.data, ss[n], arrivals[i].frame, level)
    decreases n - i
  {
    hide Processed, Accepted, Follows;
    HistoryConsistent(calibration, start, arrivals, ss, n - 1);
    if i == n - 1 {
      AcceptedFollows(ss[i], arrivals[i], level);
    } else {
      ReadingStays(calibration, start, arrivals, ss, i, n - 1, level);
      hide Marks;
      MarksStep(ss[n - 1], arrivals[n - 1], arrivals[i].frame, level);
    }
  }

  /**
   Acquisition history: any two readings, however many rejections lie between them, are
   ordered by sequence and time, do not overlap, and differ by no more than each slew limit
   allows for the time between them.
   */
  lemma AnyTwoReadingsFollow(calibration: Calibration, start: Millis, arrivals: seq<Arrival>, ss: seq<Stage>,
                             i: nat, j: nat, iLevel: Level, jLevel: Level)
    requires History(calibration, start, arrivals, ss) && i < j < |arrivals|
    requires ss[i].Consistent() && Accepted(ss[i], arrivals[i], iLevel)
    requires ss[j].Consistent() && Accepted(ss[j], arrivals[j], jLevel)
    ensures Follows(calibration.data, arrivals[i].frame, iLevel, arrivals[j].frame, jLevel)
  {
    ReadingStays(calibration, start, arrivals, ss, i, j, iLevel);
    HistoryConsistent(calibration, start, arrivals, ss, j);
    hide Processed, Accepted, Follows;
    AcceptedFollows(ss[j], arrivals[j], jLevel);
    var s := ss[j];
    if s.lastValid.value != (arrivals[i].frame, iLevel) {
      FollowsTransitive(calibration.data, arrivals[i].frame, iLevel, s.lastValid.value.0, s.lastValid.value.1,
                        arrivals[j].frame, jLevel);
    }
  }
}
