/** Schedule evaluation at one instant: a bounded scan of local days. */
module Schedule {
  import opened Base
  import opened Occurrences
  import opened Retained
  import P = Policy

  datatype Resolution =
    | NoSuchTime
    | Unique(start: UtcSeconds)
    | Ambiguous(earlier: UtcSeconds, later: UtcSeconds)

  /** The timezone's answer for a local day and second; any function at all. */
  type Resolver = (u32, int) -> Resolution

  datatype RawSchedule = Schedule(entries: seq<Entry>, duration: int)

  predicate DistinctIds(entries: seq<Entry>) {
    forall i, j :: 0 <= i < j < |entries| ==> entries[i].id != entries[j].id
  }

  predicate ValidSchedule(s: RawSchedule) {
    && |s.entries| <= MAX_DAILY_ENTRIES
    && 1 <= s.duration <= SECONDS_PER_DAY
    && DistinctIds(s.entries)
  }

  type Schedule = s: RawSchedule | ValidSchedule(s) witness Schedule([], 1)

  datatype Error =
    | InvalidCivilTime
    | InvalidDuration
    | TooManyEntries
    | DuplicateEntryId
    | InvalidResolution
    | InvalidRetainedWindow(error: RetainedError)
    | TimeOverflow

  datatype Occurrence = Occurrence(id: WindowId, startsUtc: UtcSeconds, endsUtc: UtcSeconds)

  datatype Decision =
    | Inactive
    | PersistBeforeRun(occurrence: Occurrence)
    | Blocked
    | Active(window: P.Window, occurrence: Occurrence)

  method NewSchedule(entries: seq<Entry>, duration: u32) returns (r: Result<Schedule, Error>)
    ensures |entries| > MAX_DAILY_ENTRIES ==> r == Err(TooManyEntries)
    ensures |entries| <= MAX_DAILY_ENTRIES && !(1 <= duration <= SECONDS_PER_DAY) ==> r == Err(InvalidDuration)
    ensures |entries| <= MAX_DAILY_ENTRIES && 1 <= duration <= SECONDS_PER_DAY ==>
      r == if DistinctIds(entries) then Ok(Schedule(entries, duration)) else Err(DuplicateEntryId)
  {
    if |entries| > MAX_DAILY_ENTRIES {
      return Err(TooManyEntries);
    }
    if duration == 0 || duration > SECONDS_PER_DAY {
      return Err(InvalidDuration);
    }
    for index := 0 to |entries|
      invariant DistinctIds(entries[..index])
    {
      for other := 0 to index
        invariant forall k :: 0 <= k < other ==> entries[k].id != entries[index].id
      {
        if entries[other].id == entries[index].id {
          return Err(DuplicateEntryId);
        }
      }
      assert entries[..index + 1] == entries[..index] + [entries[index]];
    }
    assert entries[..|entries|] == entries;
    return Ok(Schedule(entries, duration));
  }

  /** A resolved start lies within a day of the local reading it stands for. */
  predicate ValidResolution(day: u32, second: int, utc: UtcSeconds) {
    var local := day * SECONDS_PER_DAY + second;
    -SECONDS_PER_DAY <= local - utc <= SECONDS_PER_DAY
  }

  /** The start the schedule uses: the only one, or the earlier copy of a repeated time. */
  function ResolvedStart(resolver: Resolver, day: u32, second: int): Result<Option<UtcSeconds>, Error> {
    match resolver(day, second)
    case NoSuchTime => Ok(None)
    case Unique(start) =>
      if ValidResolution(day, second, start) then Ok(Some(start)) else Err(InvalidResolution)
    case Ambiguous(earlier, later) =>
      if earlier < later && ValidResolution(day, second, earlier) && ValidResolution(day, second, later)
      then Ok(Some(earlier)) else Err(InvalidResolution)
  }

  /** The occurrence of entry `k` on local day `day`, if that day has one. */
  function OccurrenceAt(s: Schedule, resolver: Resolver, day: u32, k: nat): Result<Option<Occurrence>, Error>
    requires k < |s.entries|
  {
    var e := s.entries[k];
    if !Contains(e.days, WeekdayOf(day)) then Ok(None)
    else
      var start :- ResolvedStart(resolver, day, e.startSecond);
      if start.None? then Ok(None)
      else if start.value + s.duration > U64_MAX then Err(TimeOverflow)
      else Ok(Some(Occurrence(OccurrenceId(day, e), start.value, start.value + s.duration)))
  }

  /** What the timezone may answer for a start on `day`: one valid instant, or two, of which the earlier counts. */
  predicate Resolves(resolver: Resolver, day: u32, second: int, start: UtcSeconds) {
    var local := day * SECONDS_PER_DAY + second;
    || (resolver(day, second) == Unique(start) && start - SECONDS_PER_DAY <= local <= start + SECONDS_PER_DAY)
    || (resolver(day, second).Ambiguous? && resolver(day, second).earlier == start < resolver(day, second).later
        && start - SECONDS_PER_DAY <= local <= start + SECONDS_PER_DAY
        && resolver(day, second).later - SECONDS_PER_DAY <= local <= resolver(day, second).later + SECONDS_PER_DAY)
  }

  /**
   An entry has an occurrence on exactly those days whose calendar weekday its mask holds and
   whose local start the timezone resolves; it starts then and lasts the schedule's duration.
   */
  lemma OccursOnItsDays(s: Schedule, resolver: Resolver, day: u32, k: nat, o: Occurrence)
    requires k < |s.entries|
    ensures var e := s.entries[k];
      OccurrenceAt(s, resolver, day, k) == Ok(Some(o))
      <==> && Contains(e.days, CalendarDay(day))
           && Resolves(resolver, day, e.startSecond, o.startsUtc)
           && o == Occurrence(OccurrenceId(day, e), o.startsUtc, o.startsUtc + s.duration)
  {
    WeekdayIsCalendarDay(day);
    hide Contains, WeekdayOf, CalendarDay, OccurrenceId;
  }

  /** It has none on every other day, and fails only on its own day over an answer that breaks the one-day rule. */
  lemma OccursOnNoOtherDay(s: Schedule, resolver: Resolver, day: u32, k: nat)
    requires k < |s.entries|
    ensures var e := s.entries[k];
      && (OccurrenceAt(s, resolver, day, k) == Ok(None)
          <==> !Contains(e.days, CalendarDay(day)) || resolver(day, e.startSecond).NoSuchTime?)
      && (OccurrenceAt(s, resolver, day, k).Err? ==> OccurrenceAt(s, resolver, day, k).error == InvalidResolution)
  {
    WeekdayIsCalendarDay(day);
    hide Contains, WeekdayOf, CalendarDay, OccurrenceId;
  }

  predicate ActiveAt(o: Occurrence, utc: int) {
    o.startsUtc <= utc < o.endsUtc
  }

  predicate StartsBefore(a: Occurrence, b: Occurrence) {
    a.startsUtc < b.startsUtc || (a.startsUtc == b.startsUtc && a.id < b.id)
  }

  /** Consider one (day, entry): keep the earlier-starting of it and the selection so far. */
  function Visit(s: Schedule, resolver: Resolver, utc: int, day: u32, k: nat, selected: Option<Occurrence>)
    : Result<Option<Occurrence>, Error>
    requires k < |s.entries|
  {
    var found :- OccurrenceAt(s, resolver, day, k);
    if found.Some? && ActiveAt(found.value, utc)
       && (selected.None? || StartsBefore(found.value, selected.value))
    then Ok(found)
    else Ok(selected)
  }

  /** The scan up to, but not including, entry `k` of day `day`, starting on `first`. */
  function Scan(s: Schedule, resolver: Resolver, utc: int, first: nat, day: nat, k: nat)
    : Result<Option<Occurrence>, Error>
    requires first <= day && k <= |s.entries|
    requires day <= U32_MAX + 1 && (day == U32_MAX + 1 ==> k == 0)
    decreases day, k
  {
    if k > 0 then
      var selected :- Scan(s, resolver, utc, first, day, k - 1);
      Visit(s, resolver, utc, day, k - 1, selected)
    else if day > first then
      Scan(s, resolver, utc, first, day - 1, |s.entries|)
    else
      Ok(None)
  }

  function FirstDay(s: Schedule, utc: UtcSeconds): (d: nat) {
    SatSub(SatSub(utc, s.duration - 1), SECONDS_PER_DAY) / SECONDS_PER_DAY
  }

  /** One past the last day to visit. */
  function EndDay(utc: UtcSeconds): (d: nat)
    ensures d <= U32_MAX + 1
  {
    Min((utc + SECONDS_PER_DAY) / SECONDS_PER_DAY, U32_MAX) + 1
  }

  lemma FewDays(s: Schedule, civil: CivilTime)
    requires civil.Agrees()
    ensures FirstDay(s, civil.utc) <= EndDay(civil.utc) <= FirstDay(s, civil.utc) + 4
  {
    assert civil.utc <= U32_MAX * SECONDS_PER_DAY + 2 * SECONDS_PER_DAY;
    assert SatSub(SatSub(civil.utc, s.duration - 1), SECONDS_PER_DAY) <= SatSub(civil.utc, SECONDS_PER_DAY);
    assert SatSub(SatSub(civil.utc, s.duration - 1), SECONDS_PER_DAY) + 3 * SECONDS_PER_DAY > civil.utc + SECONDS_PER_DAY - 1
      || FirstDay(s, civil.utc) == 0;
  }

  function ActiveOccurrence(s: Schedule, resolver: Resolver, civil: CivilTime): Result<Option<Occurrence>, Error>
    requires civil.Agrees()
  {
    FewDays(s, civil);
    Scan(s, resolver, civil.utc, FirstDay(s, civil.utc), EndDay(civil.utc), 0)
  }

  /** A resolved start lies within a day of a 32-bit day count, so adding the duration cannot overflow. */
  lemma OccurrenceNeverOverflows(s: Schedule, resolver: Resolver, day: u32, k: nat)
    requires k < |s.entries|
    ensures OccurrenceAt(s, resolver, day, k) != Err(TimeOverflow)
  {
  }

  lemma {:induction false} ScanNeverOverflows(s: Schedule, resolver: Resolver, utc: int, first: nat, day: nat, k: nat)
    requires first <= day && k <= |s.entries|
    requires day <= U32_MAX + 1 && (day == U32_MAX + 1 ==> k == 0)
    ensures Scan(s, resolver, utc, first, day, k) != Err(TimeOverflow)
    decreases day, k
  {
    hide OccurrenceAt;
    if k > 0 {
      ScanNeverOverflows(s, resolver, utc, first, day, k - 1);
      OccurrenceNeverOverflows(s, resolver, day, k - 1);
    } else if day > first {
      ScanNeverOverflows(s, resolver, utc, first, day - 1, |s.entries|);
    }
  }

  /** The scan's own overflow error is never reported: it fails only by breaking the one-day rule. */
  lemma ActiveNeverOverflows(s: Schedule, resolver: Resolver, civil: CivilTime)
    requires civil.Agrees()
    ensures ActiveOccurrence(s, resolver, civil) != Err(TimeOverflow)
  {
    FewDays(s, civil);
    ScanNeverOverflows(s, resolver, civil.utc, FirstDay(s, civil.utc), EndDay(civil.utc), 0);
    hide Scan;
  }

  /** One turn of the inner loop: skip other weekdays, resolve, and bound the end. */
  method ResolveEntry(s: Schedule, resolver: Resolver, day: u32, k: nat) returns (r: Result<Option<Occurrence>, Error>)
    requires k < |s.entries|
    ensures r == OccurrenceAt(s, resolver, day, k)
  {
    var e := s.entries[k];
    if !Contains(e.days, WeekdayOf(day)) {
      return Ok(None);
    }
    var start: UtcSeconds;
    match resolver(day, e.startSecond) {
      case NoSuchTime =>
        return Ok(None);
      case Unique(only) =>
        if !ValidResolution(day, e.startSecond, only) {
          return Err(InvalidResolution);
        }
        start := only;
      case Ambiguous(earlier, later) =>
        if !(earlier < later && ValidResolution(day, e.startSecond, earlier)
             && ValidResolution(day, e.startSecond, later)) {
          return Err(InvalidResolution);
        }
        start := earlier;
    }
    if start + s.duration > U64_MAX {
      // A resolved start lies within a day of a 32-bit day count.
      assert false;
    }
    return Ok(Some(Occurrence(OccurrenceId(day, e), start, start + s.duration)));
  }

  /** The scan as the firmware runs it: two nested loops over a running selection. */
  method FindActive(s: Schedule, resolver: Resolver, civil: CivilTime) returns (r: Result<Option<Occurrence>, Error>)
    requires civil.Agrees()
    ensures r == ActiveOccurrence(s, resolver, civil)
  {
    hide OccurrenceAt, StartsBefore, ActiveAt;
    FewDays(s, civil);
    var selected: Option<Occurrence> := None;
    var oldest := SatSub(civil.utc, s.duration - 1);
    var first := SatSub(oldest, SECONDS_PER_DAY) / SECONDS_PER_DAY;
    var last := Min((civil.utc + SECONDS_PER_DAY) / SECONDS_PER_DAY, U32_MAX);
    var day := first;
    while day <= last
      invariant first <= day <= last + 1
      invariant Scan(s, resolver, civil.utc, first, day, 0) == Ok(selected)
    {
      var k := 0;
      while k < |s.entries|
        invariant 0 <= k <= |s.entries|
        invariant Scan(s, resolver, civil.utc, first, day, k) == Ok(selected)
      {
        var found := ResolveEntry(s, resolver, day, k);
        if found.Err? {
          ErrorSticks(s, resolver, civil.utc, first, day, k + 1, last + 1, 0);
          return Err(found.error);
        }
        if found.value.Some? && ActiveAt(found.value.value, civil.utc) {
          if selected.None? || StartsBefore(found.value.value, selected.value) {
            selected := found.value;
          }
        }
        k := k + 1;
      }
      day := day + 1;
    }
    return Ok(selected);
  }

  predicate InScan(s: Schedule, first: nat, day: nat, k: nat) {
    && first <= day <= U32_MAX + 1 && k <= |s.entries| && (day == U32_MAX + 1 ==> k == 0)
  }

  /** (d, j) has been visited by the scan up to (day, k). */
  predicate Visited(s: Schedule, first: nat, day: nat, k: nat, d: nat, j: nat) {
    first <= d && j < |s.entries| && (d < day || (d == day && j < k))
  }

  lemma {:induction false} ErrorSticks(s: Schedule, resolver: Resolver, utc: int, first: nat, day: nat, k: nat, day2: nat, k2: nat)
    requires InScan(s, first, day, k) && InScan(s, first, day2, k2)
    requires day < day2 || (day == day2 && k <= k2)
    requires Scan(s, resolver, utc, first, day, k).Err?
    ensures Scan(s, resolver, utc, first, day2, k2) == Scan(s, resolver, utc, first, day, k)
    decreases day2, k2
  {
    if day2 == day && k2 == k {
    } else if k2 > 0 {
      ErrorSticks(s, resolver, utc, first, day, k, day2, k2 - 1);
    } else {
      ErrorSticks(s, resolver, utc, first, day, k, day2 - 1, |s.entries|);
    }
  }

  /** `selected` is the earliest-starting occurrence active at `utc` among those visited. */
  ghost predicate IsFirstActive(s: Schedule, resolver: Resolver, utc: int, first: nat, day: nat, k: nat, selected: Option<Occurrence>)
    requires day <= U32_MAX + 1 && (day == U32_MAX + 1 ==> k == 0)
  {
    && (forall d: nat, j: nat :: Visited(s, first, day, k, d, j) ==> OccurrenceAt(s, resolver, d, j).Ok?)
    && (forall d: nat, j: nat :: Visited(s, first, day, k, d, j) ==>
          ActiveHere(s, resolver, utc, d, j) ==>
            selected.Some? && !StartsBefore(OccurrenceAt(s, resolver, d, j).value.value, selected.value))
    && (selected.Some? ==>
          exists d: nat, j: nat ::
            Visited(s, first, day, k, d, j)
            && ActiveHere(s, resolver, utc, d, j)
            && OccurrenceAt(s, resolver, d, j) == Ok(selected))
  }

  /** Entry `j` has an occurrence on day `d` that is active at `utc`. */
  ghost predicate ActiveHere(s: Schedule, resolver: Resolver, utc: int, d: nat, j: nat)
    requires d <= U32_MAX && j < |s.entries|
  {
    var o := OccurrenceAt(s, resolver, d, j);
    o.Ok? && o.value.Some? && ActiveAt(o.value.value, utc)
  }

  lemma {:induction false} ScanIsFirstActive(s: Schedule, resolver: Resolver, utc: int, first: nat, day: nat, k: nat)
    requires InScan(s, first, day, k)
    requires Scan(s, resolver, utc, first, day, k).Ok?
    ensures IsFirstActive(s, resolver, utc, first, day, k, Scan(s, resolver, utc, first, day, k).value)
    decreases day, k
  {
    hide OccurrenceAt;
    if k > 0 {
      ScanIsFirstActive(s, resolver, utc, first, day, k - 1);
      var before := Scan(s, resolver, utc, first, day, k - 1).value;
      var after := Scan(s, resolver, utc, first, day, k).value;
      assert Visited(s, first, day, k, day, k - 1);
      forall d: nat, j: nat | Visited(s, first, day, k, d, j)
        ensures Visited(s, first, day, k - 1, d, j) || (d == day && j == k - 1)
      {
      }
      if after != before {
        assert OccurrenceAt(s, resolver, day, k - 1) == Ok(after);
        assert ActiveHere(s, resolver, utc, day, k - 1);
      } else if before.Some? {
        var d: nat, j: nat :| Visited(s, first, day, k - 1, d, j)
          && ActiveHere(s, resolver, utc, d, j) && OccurrenceAt(s, resolver, d, j) == Ok(before);
        assert Visited(s, first, day, k, d, j);
      }
    } else if day > first {
      ScanIsFirstActive(s, resolver, utc, first, day - 1, |s.entries|);
      forall d: nat, j: nat
        ensures Visited(s, first, day, 0, d, j) <==> Visited(s, first, day - 1, |s.entries|, d, j)
      {
      }
    }
  }

  /** A resolvable occurrence active at `utc` starts on a day the scan visits. */
  lemma ActiveDaysAreVisited(s: Schedule, resolver: Resolver, civil: CivilTime, d: u32, j: nat)
    requires civil.Agrees() && j < |s.entries| && ActiveHere(s, resolver, civil.utc, d, j)
    ensures FirstDay(s, civil.utc) <= d < EndDay(civil.utc)
  {
    var e := s.entries[j];
    var start := OccurrenceAt(s, resolver, d, j).value.value.startsUtc;
    assert ValidResolution(d, e.startSecond, start);
    assert start <= civil.utc < start + s.duration;
  }

  /** `selected` is the earliest-starting active occurrence of all local days whatsoever. */
  ghost predicate SelectsFirst(s: Schedule, resolver: Resolver, utc: int, selected: Option<Occurrence>) {
    && (forall d: u32, j: nat | j < |s.entries| && ActiveHere(s, resolver, utc, d, j) ::
          selected.Some? && !StartsBefore(OccurrenceAt(s, resolver, d, j).value.value, selected.value))
    && (selected.Some? ==>
          exists d: u32, j: nat ::
            j < |s.entries| && ActiveHere(s, resolver, utc, d, j) && OccurrenceAt(s, resolver, d, j) == Ok(selected))
  }

  /** Every visited (day, entry) resolves within the one-day rule. */
  ghost predicate Resolvable(s: Schedule, resolver: Resolver, first: nat, end: nat)
    requires end <= U32_MAX + 1
  {
    forall d: nat, j: nat | first <= d < end && j < |s.entries| :: OccurrenceAt(s, resolver, d, j).Ok?
  }

  /**
   The bounded scan is complete: it visits at most four days; it fails exactly when one
   of those days breaks the one-day rule; and otherwise it returns the earliest-starting
   active occurrence over all local days.
   */
  lemma BoundedScanIsComplete(s: Schedule, resolver: Resolver, civil: CivilTime)
    requires civil.Agrees()
    ensures EndDay(civil.utc) - FirstDay(s, civil.utc) <= 4
    ensures ActiveOccurrence(s, resolver, civil).Ok? <==>
            Resolvable(s, resolver, FirstDay(s, civil.utc), EndDay(civil.utc))
    ensures ActiveOccurrence(s, resolver, civil).Ok? ==>
            SelectsFirst(s, resolver, civil.utc, ActiveOccurrence(s, resolver, civil).value)
  {
    FewDays(s, civil);
    var first, end := FirstDay(s, civil.utc), EndDay(civil.utc);
    if ActiveOccurrence(s, resolver, civil).Ok? {
      ScanIsFirstActive(s, resolver, civil.utc, first, end, 0);
      forall d: nat, j: nat | first <= d < end && j < |s.entries|
        ensures OccurrenceAt(s, resolver, d, j).Ok?
      {
        assert Visited(s, first, end, 0, d, j);
      }
      forall d: u32, j: nat | j < |s.entries| && ActiveHere(s, resolver, civil.utc, d, j)
        ensures var selected := ActiveOccurrence(s, resolver, civil).value;
          selected.Some? && !StartsBefore(OccurrenceAt(s, resolver, d, j).value.value, selected.value)
      {
        ActiveDaysAreVisited(s, resolver, civil, d, j);
        assert Visited(s, first, end, 0, d, j);
      }
    } else {
      FailureIsUnresolvable(s, resolver, civil.utc, first, end, 0);
    }
  }

  lemma {:induction false} FailureIsUnresolvable(s: Schedule, resolver: Resolver, utc: int, first: nat, day: nat, k: nat)
    requires InScan(s, first, day, k)
    requires Scan(s, resolver, utc, first, day, k).Err?
    ensures exists d: nat, j: nat :: Visited(s, first, day, k, d, j) && OccurrenceAt(s, resolver, d, j).Err?
    decreases day, k
  {
    if k > 0 {
      if Scan(s, resolver, utc, first, day, k - 1).Err? {
        FailureIsUnresolvable(s, resolver, utc, first, day, k - 1);
        var d: nat, j: nat :| Visited(s, first, day, k - 1, d, j) && OccurrenceAt(s, resolver, d, j).Err?;
        assert Visited(s, first, day, k, d, j);
      } else {
        assert Visited(s, first, day, k, day, k - 1);
      }
    } else {
      FailureIsUnresolvable(s, resolver, utc, first, day - 1, |s.entries|);
      var d: nat, j: nat :| Visited(s, first, day - 1, |s.entries|, d, j) && OccurrenceAt(s, resolver, d, j).Err?;
      assert Visited(s, first, day, k, d, j);
    }
  }

  lemma OccurrenceSpan(s: Schedule, resolver: Resolver, d: u32, j: nat)
    requires j < |s.entries|
    requires OccurrenceAt(s, resolver, d, j).Ok? && OccurrenceAt(s, resolver, d, j).value.Some?
    ensures var o := OccurrenceAt(s, resolver, d, j).value.value;
      && o.endsUtc == o.startsUtc + s.duration
      && o.id == OccurrenceId(d, s.entries[j])
  {
  }

  /** Two selections of the same instant are the same occurrence. */
  lemma SelectionIsUnique(s: Schedule, resolver: Resolver, utc: int, a: Option<Occurrence>, b: Option<Occurrence>)
    requires SelectsFirst(s, resolver, utc, a) && SelectsFirst(s, resolver, utc, b)
    ensures a == b
  {
    hide OccurrenceAt, OccurrenceId, ValidEntry, ValidSchedule;
    if a.Some? && b.Some? {
      var d1: u32, j1: nat :|
        j1 < |s.entries| && ActiveHere(s, resolver, utc, d1, j1) && OccurrenceAt(s, resolver, d1, j1) == Ok(a);
      var d2: u32, j2: nat :|
        j2 < |s.entries| && ActiveHere(s, resolver, utc, d2, j2) && OccurrenceAt(s, resolver, d2, j2) == Ok(b);
      OccurrenceSpan(s, resolver, d1, j1);
      OccurrenceSpan(s, resolver, d2, j2);
      assert !StartsBefore(a.value, b.value) && !StartsBefore(b.value, a.value);
    }
  }

  /** The decision at one instant against the last occurrence in durable storage. */
  function Evaluate(now: Millis, civil: Option<CivilTime>, s: Schedule, resolver: Resolver, retained: Option<RetainedWindow>)
    : Result<Decision, Error>
  {
    if retained.Some? && CheckWindow(retained.value).Err? then
      Err(InvalidRetainedWindow(CheckWindow(retained.value).error))
    else if civil.None? then Ok(Inactive)
    else if !civil.value.Agrees() then Err(InvalidCivilTime)
    else
      var found :- ActiveOccurrence(s, resolver, civil.value);
      if found.None? then Ok(Inactive)
      else if retained.None? || found.value.id > retained.value.id then Ok(PersistBeforeRun(found.value))
      else if found.value.id < retained.value.id then Ok(Blocked)
      else
        var o := found.value.(endsUtc := Min(found.value.endsUtc, retained.value.endsUtc));
        if retained.value.disposition == Suppressed || civil.value.utc >= o.endsUtc then Ok(Blocked)
        else
          var remainingMs := (o.endsUtc - civil.value.utc) * 1000;
          if remainingMs > U64_MAX || now + remainingMs > U64_MAX then Err(TimeOverflow)
          else Ok(Active(P.Window(o.id, now + remainingMs), o))
  }

  /** Every day around this time resolves, and `selected` is the earliest-starting occurrence active now. */
  ghost predicate Chooses(s: Schedule, resolver: Resolver, civil: CivilTime, selected: Option<Occurrence>) {
    && civil.Agrees()
    && Resolvable(s, resolver, FirstDay(s, civil.utc), EndDay(civil.utc))
    && SelectsFirst(s, resolver, civil.utc, selected)
  }

  lemma ChoiceIsFound(s: Schedule, resolver: Resolver, civil: CivilTime, selected: Option<Occurrence>)
    requires Chooses(s, resolver, civil, selected)
    ensures ActiveOccurrence(s, resolver, civil) == Ok(selected)
  {
    BoundedScanIsComplete(s, resolver, civil);
    hide ActiveOccurrence, SelectsFirst, Resolvable;
    SelectionIsUnique(s, resolver, civil.utc, ActiveOccurrence(s, resolver, civil).value, selected);
  }

  predicate Storable(retained: Option<RetainedWindow>) {
    retained.Some? ==> retained.value.id != 0 && ValidOccurrenceId(retained.value.id) && retained.value.endsUtc != 0
  }

  /**
   The verdict at one instant, by how the chosen occurrence compares with the saved one: a
   newer one is to be saved first, an older one is blocked, and the saved one itself runs
   until the earlier of the two ends unless it is suppressed or over.
   */
  lemma PointVerdict(now: Millis, civil: CivilTime, s: Schedule, resolver: Resolver, retained: Option<RetainedWindow>,
                     selected: Option<Occurrence>)
    requires Storable(retained) && Chooses(s, resolver, civil, selected)
    ensures var r := Evaluate(now, Some(civil), s, resolver, retained);
      if selected.None? then r == Ok(Inactive)
      else if retained.None? || retained.value.id < selected.value.id then r == Ok(PersistBeforeRun(selected.value))
      else if selected.value.id < retained.value.id then r == Ok(Blocked)
      else
        var end := if retained.value.endsUtc < selected.value.endsUtc then retained.value.endsUtc else selected.value.endsUtc;
        var deadline := now + 1000 * (end - civil.utc);
        if retained.value.disposition.Suppressed? || end <= civil.utc then r == Ok(Blocked)
        else if deadline > U64_MAX then r == Err(TimeOverflow)
        else r == Ok(Active(P.Window(selected.value.id, deadline), Occurrence(selected.value.id, selected.value.startsUtc, end)))
  {
    ChoiceIsFound(s, resolver, civil, selected);
    hide ActiveOccurrence, Chooses, ValidOccurrenceId;
  }
}
