/** Conservative schedule evaluation from one UTC interval. */
module ScheduleInterval {
  import opened Base
  import opened Occurrences
  import opened Retained
  import opened Schedule
  import opened Utc
  import P = Policy

  /** Civil endpoints of a UTC interval, resolved by the schedule's own timezone. */
  datatype Interval = Interval(earliest: CivilTime, latest: CivilTime, bounds: Bounds, rate: Rate) {
    predicate Consistent() {
      && ValidBounds(bounds)
      && earliest.Agrees() && latest.Agrees()
      && earliest.utc == bounds.earliestMs / 1000
      && latest.utc == bounds.latestMs / 1000
    }
  }

  function NewInterval(bounds: Bounds, rate: Rate, earliest: CivilTime, latest: CivilTime): (r: Result<Interval, Error>)
    requires ValidBounds(bounds)
    ensures r.Ok? <==> Interval(earliest, latest, bounds, rate).Consistent()
    ensures r.Ok? ==> r.value == Interval(earliest, latest, bounds, rate)
    ensures r.Err? ==> r.error == InvalidCivilTime
  {
    if !earliest.Agrees() || !latest.Agrees() then Err(InvalidCivilTime)
    else if earliest.utc != bounds.earliestMs / 1000 || latest.utc != bounds.latestMs / 1000 then Err(InvalidCivilTime)
    else Ok(Interval(earliest, latest, bounds, rate))
  }

  /** The same occurrence must be selected at both endpoints. */
  function EvaluateInterval(now: Millis, clock: Option<Interval>, s: Schedule, resolver: Resolver, retained: Option<RetainedWindow>)
    : Result<Decision, Error>
    requires clock.Some? ==> clock.value.Consistent()
  {
    if retained.Some? && CheckWindow(retained.value).Err? then
      Err(InvalidRetainedWindow(CheckWindow(retained.value).error))
    else if clock.None? then Ok(Inactive)
    else
      var c := clock.value;
      var first :- ActiveOccurrence(s, resolver, c.earliest);
      if first.None? then Ok(Inactive)
      else
        var last :- ActiveOccurrence(s, resolver, c.latest);
        if first != last then Ok(Inactive)
        else
          var decision :- Evaluate(now, Some(c.latest), s, resolver, retained);
          if decision.Active? then Shorten(now, c, decision) else Ok(decision)
  }

  /** Replace the point deadline by one that is safe for the whole interval. */
  function Shorten(now: Millis, c: Interval, decision: Decision): Result<Decision, Error>
    requires decision.Active?
  {
    var endMs := decision.occurrence.endsUtc * 1000;
    if endMs > U64_MAX || endMs < c.bounds.latestMs then Err(TimeOverflow)
    else
      var remaining := SafeDurationMs(c.rate, endMs - c.bounds.latestMs);
      if remaining.None? then Err(TimeOverflow)
      else if remaining.value == 0 then Ok(Inactive)
      else if now + remaining.value > U64_MAX then Err(TimeOverflow)
      else Ok(decision.(window := decision.window.(endsAt := now + remaining.value)))
  }

  function Earlier(saved: RetainedWindow, o: Occurrence): UtcSeconds {
    if saved.endsUtc < o.endsUtc then saved.endsUtc else o.endsUtc
  }

  /**
   The verdict over an interval: the same occurrence must be chosen at both ends, and it then
   compares with the saved one as at the interval's latest instant.
   */
  lemma IntervalVerdict(now: Millis, c: Interval, s: Schedule, resolver: Resolver, retained: Option<RetainedWindow>,
                        first: Option<Occurrence>, last: Option<Occurrence>)
    requires c.Consistent() && Storable(retained)
    requires Chooses(s, resolver, c.earliest, first) && Chooses(s, resolver, c.latest, last)
    ensures var r := EvaluateInterval(now, Some(c), s, resolver, retained);
      if first.None? || first != last then r == Ok(Inactive)
      else if retained.None? || retained.value.id < last.value.id then r == Ok(PersistBeforeRun(last.value))
      else if last.value.id < retained.value.id || retained.value.disposition.Suppressed? then r == Ok(Blocked)
      else if Earlier(retained.value, last.value) * 1000 <= c.bounds.latestMs then r == Ok(Blocked)
      else r == Err(TimeOverflow) || r == Ok(Inactive) || (r.Ok? && r.value.Active?)
  {
    ChoiceIsFound(s, resolver, c.earliest, first);
    ChoiceIsFound(s, resolver, c.latest, last);
    hide ActiveOccurrence, Chooses, ValidOccurrenceId, SafeDurationMs;
  }

  /** The saved occurrence itself runs for the longest timer delta that is safe against the earlier of its two ends. */
  lemma RunVerdict(now: Millis, c: Interval, s: Schedule, resolver: Resolver, saved: RetainedWindow, o: Occurrence, safe: u64)
    requires c.Consistent() && Storable(Some(saved))
    requires Chooses(s, resolver, c.earliest, Some(o)) && Chooses(s, resolver, c.latest, Some(o))
    requires saved.id == o.id && saved.disposition == Eligible
    requires c.bounds.latestMs < Earlier(saved, o) * 1000 <= U64_MAX
    requires SafeDurationMs(c.rate, Earlier(saved, o) * 1000 - c.bounds.latestMs) == Some(safe)
    ensures var r := EvaluateInterval(now, Some(c), s, resolver, Some(saved));
      if now + (Earlier(saved, o) - c.latest.utc) * 1000 > U64_MAX then r == Err(TimeOverflow)
      else if safe == 0 then r == Ok(Inactive)
      else if now + safe > U64_MAX then r == Err(TimeOverflow)
      else r == Ok(Active(P.Window(o.id, now + safe), o.(endsUtc := Earlier(saved, o))))
  {
    hide ActiveOccurrence, Evaluate, Chooses, ValidOccurrenceId, SafeDurationMs;
    SameSecond(c.bounds.latestMs, Earlier(saved, o));
    ChoiceIsFound(s, resolver, c.earliest, Some(o));
    ChoiceIsFound(s, resolver, c.latest, Some(o));
    PointVerdict(now, c.latest, s, resolver, Some(saved), Some(o));
  }

  lemma SameSecond(latestMs: nat, end: nat)
    ensures latestMs < end * 1000 <==> latestMs / 1000 < end
  {
  }

  /** What a decision means for the saved occurrence; all the runtime relies on. */
  predicate Respects(d: Decision, retained: Option<RetainedWindow>) {
    match d
    case Inactive => true
    case Blocked => true
    case PersistBeforeRun(o) =>
      && (retained.Some? ==> o.id > retained.value.id)
      && CheckWindow(RetainedWindow(o.id, o.endsUtc, Eligible)).Ok?
    case Active(window, o) =>
      && retained.Some?
      && retained.value.disposition == Eligible
      && window.id == o.id == retained.value.id
      && o.endsUtc <= retained.value.endsUtc
  }

  /** An id comes from the packing and an end lies after its start. */
  lemma SelectedIsWellFormed(s: Schedule, resolver: Resolver, civil: CivilTime)
    requires civil.Agrees()
    requires ActiveOccurrence(s, resolver, civil).Ok? && ActiveOccurrence(s, resolver, civil).value.Some?
    ensures var o := ActiveOccurrence(s, resolver, civil).value.value;
      && ActiveAt(o, civil.utc) && o.endsUtc > 0 && o.id != 0 && ValidOccurrenceId(o.id)
  {
    BoundedScanIsComplete(s, resolver, civil);
    var selected := ActiveOccurrence(s, resolver, civil).value;
    hide Scan, ActiveOccurrence;
    var d: u32, j: nat :|
      j < |s.entries| && ActiveHere(s, resolver, civil.utc, d, j) && OccurrenceAt(s, resolver, d, j) == Ok(selected);
    OccurrenceSpan(s, resolver, d, j);
    OccurrenceIdIsValid(d, s.entries[j]);
  }

  lemma DecisionRespectsSaved(now: Millis, clock: Option<Interval>, s: Schedule, resolver: Resolver, retained: Option<RetainedWindow>)
    requires clock.Some? ==> clock.value.Consistent()
    requires EvaluateInterval(now, clock, s, resolver, retained).Ok?
    ensures Respects(EvaluateInterval(now, clock, s, resolver, retained).value, retained)
  {
    hide Scan, ActiveOccurrence;
    var d := EvaluateInterval(now, clock, s, resolver, retained).value;
    if d.PersistBeforeRun? {
      SelectedIsWellFormed(s, resolver, clock.value.latest);
    }
  }

  /** An occurrence selected at both ends of a span is selected at every instant between. */
  lemma SelectionIsConvex(s: Schedule, resolver: Resolver, a: CivilTime, b: CivilTime, u: CivilTime)
    requires a.Agrees() && b.Agrees() && u.Agrees() && a.utc <= u.utc <= b.utc
    requires ActiveOccurrence(s, resolver, a).Ok? && ActiveOccurrence(s, resolver, a).value.Some?
    requires ActiveOccurrence(s, resolver, a) == ActiveOccurrence(s, resolver, b)
    ensures ActiveOccurrence(s, resolver, u) == ActiveOccurrence(s, resolver, a)
  {
    BoundedScanIsComplete(s, resolver, a);
    BoundedScanIsComplete(s, resolver, b);
    BoundedScanIsComplete(s, resolver, u);
    SelectedIsWellFormed(s, resolver, a);
    SelectedIsWellFormed(s, resolver, b);
    var selected := ActiveOccurrence(s, resolver, a).value;
    SelectedSpan(s, resolver, a.utc, selected);
    assert b.utc - a.utc < s.duration <= SECONDS_PER_DAY;
    hide ActiveOccurrence, Scan;
    assert Resolvable(s, resolver, FirstDay(s, u.utc), EndDay(u.utc)) by {
      ScanRangesCover(s, a.utc, u.utc, b.utc);
      forall d: nat, j: nat | FirstDay(s, u.utc) <= d < EndDay(u.utc) && j < |s.entries|
        ensures OccurrenceAt(s, resolver, d, j).Ok?
      {
        if d < EndDay(a.utc) {
          assert FirstDay(s, a.utc) <= d;
        } else {
          assert FirstDay(s, b.utc) <= d < EndDay(b.utc);
        }
      }
    }
    StillFirst(s, resolver, a.utc, u.utc, selected);
    SelectionIsUnique(s, resolver, u.utc, ActiveOccurrence(s, resolver, u).value, selected);
  }

  lemma SelectedSpan(s: Schedule, resolver: Resolver, utc: int, selected: Option<Occurrence>)
    requires selected.Some? && SelectsFirst(s, resolver, utc, selected)
    ensures selected.value.endsUtc == selected.value.startsUtc + s.duration
  {
    var d: u32, j: nat :|
      j < |s.entries| && ActiveHere(s, resolver, utc, d, j) && OccurrenceAt(s, resolver, d, j) == Ok(selected);
    OccurrenceSpan(s, resolver, d, j);
  }

  /** The days visited in the middle of a span of at most a day are visited at one of its ends. */
  lemma ScanRangesCover(s: Schedule, a: UtcSeconds, u: UtcSeconds, b: UtcSeconds)
    requires a <= u <= b < a + SECONDS_PER_DAY
    ensures FirstDay(s, a) <= FirstDay(s, u)
    ensures EndDay(u) <= EndDay(b)
    ensures FirstDay(s, b) <= EndDay(a) || EndDay(b) == EndDay(a)
  {
  }

  /** What starts before an occurrence already active at `a` and is active later was active at `a` too. */
  lemma EarlierWasActive(s: Schedule, resolver: Resolver, a: int, u: int, d: u32, j: nat, selected: Occurrence)
    requires a <= u && j < |s.entries| && ActiveHere(s, resolver, u, d, j) && ActiveAt(selected, a)
    ensures StartsBefore(OccurrenceAt(s, resolver, d, j).value.value, selected) ==> ActiveHere(s, resolver, a, d, j)
  {
    hide OccurrenceAt;
  }

  /** A selection at `a` that is still active later is still the earliest-starting one. */
  lemma StillFirst(s: Schedule, resolver: Resolver, a: int, u: int, selected: Option<Occurrence>)
    requires a <= u && selected.Some?
    requires SelectsFirst(s, resolver, a, selected) && ActiveAt(selected.value, a) && ActiveAt(selected.value, u)
    ensures SelectsFirst(s, resolver, u, selected)
  {
    hide OccurrenceAt;
    forall d: u32, j: nat | j < |s.entries| && ActiveHere(s, resolver, u, d, j)
      ensures !StartsBefore(OccurrenceAt(s, resolver, d, j).value.value, selected.value)
    {
      EarlierWasActive(s, resolver, a, u, d, j, selected.value);
    }
    var d: u32, j: nat :|
      j < |s.entries| && ActiveHere(s, resolver, a, d, j) && OccurrenceAt(s, resolver, d, j) == Ok(selected);
    assert ActiveHere(s, resolver, u, d, j);
  }

  /**
   Interval scheduling is sound: when the interval decides Active, the same occurrence is
   selected at every true UTC second of the interval, and a point decision there cannot
   disagree about which occurrence runs or when it ends.
   */
  lemma IntervalAgreesWithEveryPoint(now: Millis, c: Interval, s: Schedule, resolver: Resolver,
                                     retained: Option<RetainedWindow>, u: CivilTime)
    requires c.Consistent() && u.Agrees()
    requires c.bounds.earliestMs / 1000 <= u.utc <= c.bounds.latestMs / 1000
    requires EvaluateInterval(now, Some(c), s, resolver, retained).Ok?
    requires EvaluateInterval(now, Some(c), s, resolver, retained).value.Active?
    ensures ActiveOccurrence(s, resolver, u) == ActiveOccurrence(s, resolver, c.earliest)
    ensures Evaluate(now, Some(u), s, resolver, retained).Ok? ==>
      var point := Evaluate(now, Some(u), s, resolver, retained).value;
      && point.Active?
      && point.occurrence == EvaluateInterval(now, Some(c), s, resolver, retained).value.occurrence
    ensures Evaluate(now, Some(u), s, resolver, retained).Err? ==>
      Evaluate(now, Some(u), s, resolver, retained).error == TimeOverflow
  {
    SelectionIsConvex(s, resolver, c.earliest, c.latest, u);
    hide ActiveOccurrence, Scan;
  }

  /**
   The exposed deadline is safe: at any timer reading up to it, no true UTC consistent
   with the interval and the clock-rate contract, in real time, lies past the occurrence's
   own end or the originally saved end.
   */
  lemma DeadlineNeverOutlives(now: Millis, c: Interval, s: Schedule, resolver: Resolver, retained: Option<RetainedWindow>,
                              later: Millis, trueMs: real, elapsedMs: real)
    requires c.Consistent()
    requires EvaluateInterval(now, Some(c), s, resolver, retained).Ok?
    requires EvaluateInterval(now, Some(c), s, resolver, retained).value.Active?
    requires now <= later <= EvaluateInterval(now, Some(c), s, resolver, retained).value.window.endsAt
    requires c.bounds.earliestMs as real <= trueMs <= c.bounds.latestMs as real
    requires MayPass(c.rate, later - now, elapsedMs)
    ensures var o := ActiveOccurrence(s, resolver, c.earliest).value.value;
      && trueMs + elapsedMs <= (o.endsUtc * 1000) as real
      && trueMs + elapsedMs <= (retained.value.endsUtc * 1000) as real
  {
    hide ActiveOccurrence, Scan, ElapsedBounds, MayPass;
    var d := EvaluateInterval(now, Some(c), s, resolver, retained).value;
    var budget := d.occurrence.endsUtc * 1000 - c.bounds.latestMs;
    ElapsedIsOutward(c.rate, later - now, elapsedMs) by {
      SafeDurationIsSafe(c.rate, budget, later - now);
    }
    SafeDurationIsSafe(c.rate, budget, later - now);
  }
}
