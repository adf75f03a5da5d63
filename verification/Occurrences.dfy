/** Civil time, daily entries and the packed identity of one scheduled occurrence. */
module Occurrences {
  import opened Base

  const SECONDS_PER_DAY: int := 86400
  const ENTRY_RANGE: int := 0x1000
  const SECOND_RANGE: int := 0x2_0000
  const MAX_DAILY_ENTRIES: nat := 16

  type WindowId = u64
  type UtcSeconds = u64

  datatype Fold = First | Second

  datatype CivilTime = CivilTime(utc: UtcSeconds, day: u32, secondOfDay: u32, offset: int, fold: Fold) {
    /** UTC, local day and second, and offset agree. */
    predicate Agrees() {
      && secondOfDay < SECONDS_PER_DAY
      && -SECONDS_PER_DAY <= offset <= SECONDS_PER_DAY
      && utc + offset == day * SECONDS_PER_DAY + secondOfDay
    }
  }

  /** A civil time is the reading of its instant at its offset, within a day of UTC. */
  lemma CivilIsReading(c: CivilTime)
    requires c.Agrees()
    ensures c.day == (c.utc + c.offset) / 86400 && c.secondOfDay == (c.utc + c.offset) % 86400
    ensures -86400 <= c.day * 86400 + c.secondOfDay - c.utc <= 86400
  {
  }

  /** And every instant has one at every offset of up to a day that leaves its day countable. */
  lemma EveryReadingIsCivil(utc: UtcSeconds, offset: int, fold: Fold)
    requires -86400 <= offset <= 86400 && 0 <= utc + offset < 0x1_0000_0000 * 86400
    ensures CivilTime(utc, (utc + offset) / 86400, (utc + offset) % 86400, offset, fold).Agrees()
  {
  }

  datatype Weekday = Monday | Tuesday | Wednesday | Thursday | Friday | Saturday | Sunday

  /** Each weekday's number, Monday first. */
  function Number(w: Weekday): (n: nat)
    ensures n < 7
  {
    match w
    case Monday => 0
    case Tuesday => 1
    case Wednesday => 2
    case Thursday => 3
    case Friday => 4
    case Saturday => 5
    case Sunday => 6
  }

  function WeekdayOf(day: u32): Weekday {
    match (day % 7 + Number(Thursday)) % 7
    case 0 => Monday
    case 1 => Tuesday
    case 2 => Wednesday
    case 3 => Thursday
    case 4 => Friday
    case 5 => Saturday
    case _ => Sunday
  }

  /** Seven bits, at least one set. */
  type DayMask = m: int | 1 <= m <= 0x7F witness 1

  predicate Contains(mask: DayMask, w: Weekday) {
    (mask / [1, 2, 4, 8, 16, 32, 64][Number(w)]) % 2 == 1
  }

  // ---------------------------------------------------------- the calendar itself

  function DayAfter(w: Weekday): Weekday {
    match w
    case Monday => Tuesday
    case Tuesday => Wednesday
    case Wednesday => Thursday
    case Thursday => Friday
    case Friday => Saturday
    case Saturday => Sunday
    case Sunday => Monday
  }

  /** The weekday of a day counted from Thursday, 1 January 1970. */
  function CalendarDay(day: nat): Weekday {
    if day == 0 then Thursday else DayAfter(CalendarDay(day - 1))
  }

  /** The remainder arithmetic is the calendar's. */
  lemma {:induction false} WeekdayIsCalendarDay(day: u32)
    ensures WeekdayOf(day) == CalendarDay(day)
  {
    if day > 0 {
      WeekdayIsCalendarDay(day - 1);
      NextRemainder(day);
    }
  }

  lemma NextRemainder(day: nat)
    requires day > 0
    ensures day % 7 == if (day - 1) % 7 == 6 then 0 else (day - 1) % 7 + 1
  {
  }

  function BitOf(mask: DayMask, w: Weekday, weight: nat): nat {
    if Contains(mask, w) then weight else 0
  }

  /** A mask is the sum of its days' bits, Monday the lowest. */
  lemma MaskIsItsDays(mask: DayMask)
    ensures mask == BitOf(mask, Monday, 1) + BitOf(mask, Tuesday, 2) + BitOf(mask, Wednesday, 4) + BitOf(mask, Thursday, 8)
      + BitOf(mask, Friday, 16) + BitOf(mask, Saturday, 32) + BitOf(mask, Sunday, 64)
  {
    hide Contains;
    Halves(mask);
    ContainsBits(mask);
    LowBits(mask, mask / 2, mask / 4, mask / 8, mask / 16, mask / 32, mask / 64);
  }

  lemma ContainsBits(mask: DayMask)
    ensures BitOf(mask, Monday, 1) == mask % 2
    ensures BitOf(mask, Tuesday, 2) == 2 * (mask / 2 % 2)
    ensures BitOf(mask, Wednesday, 4) == 4 * (mask / 4 % 2)
    ensures BitOf(mask, Thursday, 8) == 8 * (mask / 8 % 2)
    ensures BitOf(mask, Friday, 16) == 16 * (mask / 16 % 2)
    ensures BitOf(mask, Saturday, 32) == 32 * (mask / 32 % 2)
    ensures BitOf(mask, Sunday, 64) == 64 * (mask / 64 % 2)
  {
    assert [1, 2, 4, 8, 16, 32, 64][0] == 1 && [1, 2, 4, 8, 16, 32, 64][1] == 2;
  }

  lemma Halves(mask: DayMask)
    ensures mask / 4 == mask / 2 / 2 && mask / 8 == mask / 4 / 2 && mask / 16 == mask / 8 / 2
    ensures mask / 32 == mask / 16 / 2 && mask / 64 == mask / 32 / 2 && mask / 64 / 2 == 0
  {
  }

  lemma LowBits(m: nat, m2: nat, m4: nat, m8: nat, m16: nat, m32: nat, m64: nat)
    requires m2 == m / 2 && m4 == m2 / 2 && m8 == m4 / 2 && m16 == m8 / 2 && m32 == m16 / 2 && m64 == m32 / 2 && m64 / 2 == 0
    ensures m == m % 2 + 2 * (m2 % 2) + 4 * (m4 % 2) + 8 * (m8 % 2) + 16 * (m16 % 2) + 32 * (m32 % 2) + 64 * (m64 % 2)
  {
  }

  datatype RawEntry = Entry(id: int, days: DayMask, startSecond: int)

  predicate ValidEntry(e: RawEntry) {
    1 <= e.id < ENTRY_RANGE && 0 <= e.startSecond < SECONDS_PER_DAY
  }

  type Entry = e: RawEntry | ValidEntry(e) witness Entry(1, 1, 0)

  /** Day, start second and entry number, packed most significant first. */
  function OccurrenceId(day: u32, e: Entry): (id: WindowId) {
    day * (SECOND_RANGE * ENTRY_RANGE) + e.startSecond * ENTRY_RANGE + e.id
  }

  predicate ValidOccurrenceId(id: WindowId) {
    && id / (0x1_0000_0000 * SECOND_RANGE * ENTRY_RANGE) == 0
    && id % ENTRY_RANGE != 0
    && (id / ENTRY_RANGE) % SECOND_RANGE < SECONDS_PER_DAY
  }

  /** The three packed fields can be read back. */
  lemma OccurrenceIdFields(day: u32, e: Entry)
    ensures OccurrenceId(day, e) / 0x2000_0000 == day
    ensures (OccurrenceId(day, e) / 0x1000) % 0x2_0000 == e.startSecond < 86400
    ensures OccurrenceId(day, e) % 0x1000 == e.id
  {
    var id := OccurrenceId(day, e);
    assert id == (day * SECOND_RANGE + e.startSecond) * ENTRY_RANGE + e.id;
    assert id / ENTRY_RANGE == day * SECOND_RANGE + e.startSecond;
  }

  lemma OccurrenceIdIsValid(day: u32, e: Entry)
    ensures ValidOccurrenceId(OccurrenceId(day, e)) && OccurrenceId(day, e) != 0
  {
    OccurrenceIdFields(day, e);
  }

  /** Every valid id names exactly one (day, second, entry number). */
  lemma ValidOccurrenceIdUnpacks(id: WindowId)
    requires ValidOccurrenceId(id)
    ensures var day := id / (SECOND_RANGE * ENTRY_RANGE);
            var e := Entry(id % ENTRY_RANGE, 1, (id / ENTRY_RANGE) % SECOND_RANGE);
            0 <= day <= U32_MAX && ValidEntry(e) && OccurrenceId(day, e) == id
  {
    var high := id / ENTRY_RANGE;
    assert id == high * ENTRY_RANGE + id % ENTRY_RANGE;
    assert high == (high / SECOND_RANGE) * SECOND_RANGE + high % SECOND_RANGE;
    assert id / (SECOND_RANGE * ENTRY_RANGE) == high / SECOND_RANGE;
  }

  predicate LexBefore(day1: int, e1: Entry, day2: int, e2: Entry) {
    || day1 < day2
    || (day1 == day2 && e1.startSecond < e2.startSecond)
    || (day1 == day2 && e1.startSecond == e2.startSecond && e1.id < e2.id)
  }

  /** Ids order occurrences by day, then start second, then entry number. */
  lemma OccurrenceIdOrder(day1: u32, e1: Entry, day2: u32, e2: Entry)
    ensures OccurrenceId(day1, e1) < OccurrenceId(day2, e2) <==> LexBefore(day1, e1, day2, e2)
    ensures OccurrenceId(day1, e1) == OccurrenceId(day2, e2) <==>
            day1 == day2 && e1.startSecond == e2.startSecond && e1.id == e2.id
  {
  }
}
