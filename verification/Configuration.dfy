/** Device configuration: validation of raw values into a canonical form. */
module Configuration {
  import opened Base
  import opened Crc
  import I = Interlock
  import O = Occurrences
  import S = Schedule
  import C = Calibration

  const TOKEN_LEN: nat := 32
  const KEY_LEN: nat := 30
  const DEVICE_MAX_LEN: nat := 25
  const ZONE_MAX_LEN: nat := 128
  const MAX_ENTRIES: nat := O.MAX_DAILY_ENTRIES

  datatype PushoverField = ApplicationToken | UserKey | DeviceName

  datatype ZoneError = ZoneError(code: nat)

  /** The timezone grammar, as an arbitrary verdict on the rule's bytes. */
  type Zones = seq<Byte> -> Option<ZoneError>

  datatype ConfigurationError =
    | ZeroRevision
    | InvalidLevel
    | Interlock(interlock: I.ConfigError)
    | InvalidRunDuration
    | TooManyScheduleEntries
    | InvalidScheduleEntry(index: nat)
    | Schedule(schedule: S.Error)
    | InvalidTimeZoneEncoding
    | TimeZone(zone: ZoneError)
    | ZeroSettingsAuthToken
    | InvalidPushoverField(field: PushoverField)
    | Calibration(calibration: C.ConfigError)
    | ThresholdOutsideCalibrationDomain
    | SampleAgeMismatch
    | BlobTooLarge
    | BlobLength
    | BlobMagic
    | BlobVersion
    | BlobChecksum
    | NonCanonical

  datatype RawEntry = RawEntry(id: u16, dayMask: Byte, startSecond: u32)

  predicate Alphanumeric(b: Byte) {
    0x30 <= b <= 0x39 || 0x41 <= b <= 0x5a || 0x61 <= b <= 0x7a
  }

  predicate DeviceByte(b: Byte) {
    Alphanumeric(b) || b == 0x5f || b == 0x2d
  }

  predicate IsKey(key: seq<Byte>) {
    |key| == KEY_LEN && forall i :: 0 <= i < |key| ==> Alphanumeric(key[i])
  }

  predicate IsDevice(device: seq<Byte>) {
    |device| <= DEVICE_MAX_LEN && forall i :: 0 <= i < |device| ==> DeviceByte(device[i])
  }

  datatype RawPushover = Pushover(applicationToken: seq<Byte>, userKey: seq<Byte>, device: seq<Byte>)

  predicate ValidPushover(p: RawPushover) {
    IsKey(p.applicationToken) && IsKey(p.userKey) && IsDevice(p.device)
  }

  /** Credentials as their constructor accepts them; an empty device means none. */
  type Pushover = p: RawPushover | ValidPushover(p)
    witness Pushover(seq(KEY_LEN, _ => 0x41), seq(KEY_LEN, _ => 0x41), [])

  function NewPushover(token: seq<Byte>, key: seq<Byte>, device: seq<Byte>): Result<Pushover, ConfigurationError> {
    if !IsKey(token) then Err(InvalidPushoverField(ApplicationToken))
    else if !IsKey(key) then Err(InvalidPushoverField(UserKey))
    else if !IsDevice(device) then Err(InvalidPushoverField(DeviceName))
    else Ok(Pushover(token, key, device))
  }

  predicate Ascii(b: seq<Byte>) {
    forall i :: 0 <= i < |b| ==> b[i] < 0x80
  }

  datatype RawConfig = RawConfig(
    revision: u32,
    stop: u16,
    restart: u16,
    maxSampleAgeMs: u64,
    timing: I.Timing,
    duration: u32,
    entries: seq<RawEntry>,
    timezone: seq<Byte>,
    calibration: Option<C.CalibrationData>,
    token: seq<Byte>,
    pushover: Option<Pushover>)
  {
    /** What the field types already guarantee. */
    predicate Shaped() {
      |entries| <= MAX_ENTRIES && |timezone| <= ZONE_MAX_LEN && Ascii(timezone) && |token| == TOKEN_LEN
    }
  }

  predicate EntryOk(e: RawEntry) {
    && e.dayMask != 0 && e.dayMask & 0x80 == 0
    && O.ValidEntry(O.Entry(e.id, 1, e.startSecond))
  }

  /** The first entry that breaks a rule. */
  function CheckEntries(entries: seq<RawEntry>, n: nat): (r: Option<nat>)
    requires n <= |entries|
    ensures r.None? <==> forall i :: 0 <= i < n ==> EntryOk(entries[i])
    ensures r.Some? ==> r.value < n && !EntryOk(entries[r.value]) && forall i :: 0 <= i < r.value ==> EntryOk(entries[i])
  {
    if n == 0 then None
    else
      var earlier := CheckEntries(entries, n - 1);
      if earlier.Some? then earlier else if EntryOk(entries[n - 1]) then None else Some(n - 1)
  }

  // ------------------------------------------------------------------ sorting

  predicate SortedById(es: seq<RawEntry>) {
    forall i, j :: 0 <= i < j < |es| ==> es[i].id <= es[j].id
  }

  predicate Increasing(es: seq<RawEntry>) {
    forall i, j :: 0 <= i < j < |es| ==> es[i].id < es[j].id
  }

  predicate DistinctIds(es: seq<RawEntry>) {
    forall i, j :: 0 <= i < j < |es| ==> es[i].id != es[j].id
  }

  function InsertById(es: seq<RawEntry>, e: RawEntry): seq<RawEntry> {
    if es == [] || es[|es| - 1].id <= e.id then es + [e]
    else InsertById(es[..|es| - 1], e) + [es[|es| - 1]]
  }

  function SortById(es: seq<RawEntry>): seq<RawEntry> {
    if es == [] then [] else InsertById(SortById(es[..|es| - 1]), es[|es| - 1])
  }

  lemma {:induction false} InsertKeeps(es: seq<RawEntry>, e: RawEntry)
    ensures multiset(InsertById(es, e)) == multiset(es) + multiset{e}
    ensures |InsertById(es, e)| == |es| + 1
  {
    if es != [] && es[|es| - 1].id > e.id {
      InsertKeeps(es[..|es| - 1], e);
      assert es == es[..|es| - 1] + [es[|es| - 1]];
    }
  }

  lemma {:induction false} InsertSorts(es: seq<RawEntry>, e: RawEntry)
    requires SortedById(es)
    ensures SortedById(InsertById(es, e))
  {
    if es != [] && es[|es| - 1].id > e.id {
      var front, last := es[..|es| - 1], es[|es| - 1];
      InsertSorts(front, e);
      InsertKeeps(front, e);
      InsertedAreBelow(front, e, InsertById(front, e), last);
    }
  }

  lemma InsertedAreBelow(front: seq<RawEntry>, e: RawEntry, r: seq<RawEntry>, last: RawEntry)
    requires multiset(r) == multiset(front) + multiset{e}
    requires e.id <= last.id && forall i :: 0 <= i < |front| ==> front[i].id <= last.id
    ensures forall i :: 0 <= i < |r| ==> r[i].id <= last.id
  {
    forall i | 0 <= i < |r|
      ensures r[i].id <= last.id
    {
      assert r[i] in multiset(r);
      assert r[i] in multiset(front) + multiset{e};
    }
  }

  /** Sorting yields the same entries in order of their ids. */
  lemma {:induction false} SortSorts(es: seq<RawEntry>)
    ensures SortedById(SortById(es)) && multiset(SortById(es)) == multiset(es) && |SortById(es)| == |es|
  {
    if es != [] {
      SortSorts(es[..|es| - 1]);
      InsertSorts(SortById(es[..|es| - 1]), es[|es| - 1]);
      InsertKeeps(SortById(es[..|es| - 1]), es[|es| - 1]);
      assert es == es[..|es| - 1] + [es[|es| - 1]];
    }
  }

  lemma {:induction false} SortKeepsSorted(es: seq<RawEntry>)
    requires SortedById(es)
    ensures SortById(es) == es
  {
    if es != [] {
      var front, last := es[..|es| - 1], es[|es| - 1];
      assert es == front + [last];
      SortedFront(front, last);
      hide SortedById;
      SortKeepsSorted(front);
      assert InsertById(front, last) == front + [last];
    }
  }

  lemma SortedFront(front: seq<RawEntry>, last: RawEntry)
    requires SortedById(front + [last])
    ensures SortedById(front) && (front != [] ==> front[|front| - 1].id <= last.id)
  {
    var es := front + [last];
    assert forall i :: 0 <= i < |front| ==> es[i] == front[i];
    assert es[|front|] == last;
  }

  lemma SortedMembers(es: seq<RawEntry>)
    ensures forall e :: e in SortById(es) <==> e in es
  {
    SortSorts(es);
    forall e
      ensures e in SortById(es) <==> e in es
    {
      assert e in multiset(SortById(es)) <==> e in multiset(es);
    }
  }

  // --------------------------------------------------------------- validation

  predicate AllZero(b: seq<Byte>) {
    forall i :: 0 <= i < |b| ==> b[i] == 0
  }

  function CheckInterlock(raw: RawConfig): Result<(), ConfigurationError> {
    if raw.stop > 1000 || raw.restart > 1000 then Err(InvalidLevel)
    else if raw.stop >= raw.restart then Err(Interlock(I.ThresholdOrder))
    else if raw.maxSampleAgeMs == 0 || raw.timing.lowConfirmationMs == 0 || raw.timing.recoveryMs == 0
            || raw.timing.minimumOffMs == 0 then Err(Interlock(I.ZeroDuration))
    else Ok(())
  }

  function CheckSchedule(raw: RawConfig): Result<(), ConfigurationError> {
    if |raw.entries| > MAX_ENTRIES then Err(TooManyScheduleEntries)
    else
      var bad := CheckEntries(raw.entries, |raw.entries|);
      if bad.Some? then Err(InvalidScheduleEntry(bad.value))
      else if !DistinctIds(SortById(raw.entries)) then Err(Schedule(S.DuplicateEntryId))
      else Ok(())
  }

  function CheckZone(raw: RawConfig, zones: Zones): Result<(), ConfigurationError> {
    if raw.timezone == [] then Err(InvalidTimeZoneEncoding)
    else if zones(raw.timezone).Some? then Err(TimeZone(zones(raw.timezone).value))
    else Ok(())
  }

  function CheckCalibration(raw: RawConfig): Result<(), ConfigurationError> {
    if raw.calibration.None? then Ok(())
    else
      var data := raw.calibration.value;
      var built := C.NewCalibration(data);
      if built.Err? then Err(Calibration(built.error))
      else if raw.stop < data.supportedLevel.min || raw.restart > data.supportedLevel.max then
        Err(ThresholdOutsideCalibrationDomain)
      else if raw.maxSampleAgeMs != data.maxFrameAgeMs then Err(SampleAgeMismatch)
      else Ok(())
  }

  /** Validation; the accepted configuration holds its entries in order of id. */
  function FromRaw(raw: RawConfig, zones: Zones): Result<RawConfig, ConfigurationError> {
    if raw.revision == 0 then Err(ZeroRevision)
    else
      var _ :- CheckInterlock(raw);
      if raw.duration == 0 || raw.duration > O.SECONDS_PER_DAY then Err(InvalidRunDuration)
      else
        var _ :- CheckSchedule(raw);
        var _ :- CheckZone(raw, zones);
        if AllZero(raw.token) then Err(ZeroSettingsAuthToken)
        else
          var _ :- CheckCalibration(raw);
          Ok(raw.(entries := SortById(raw.entries)))
  }

  method FromRawInOrder(raw: RawConfig, zones: Zones) returns (r: Result<RawConfig, ConfigurationError>)
    ensures r == FromRaw(raw, zones)
  {
    if raw.revision == 0 {
      return Err(ZeroRevision);
    }
    var _ :- CheckInterlock(raw);
    if raw.duration == 0 || raw.duration > O.SECONDS_PER_DAY {
      return Err(InvalidRunDuration);
    }
    if |raw.entries| > MAX_ENTRIES {
      return Err(TooManyScheduleEntries);
    }
    var entries: seq<RawEntry> := [];
    for index := 0 to |raw.entries|
      invariant entries == raw.entries[..index]
      invariant forall i :: 0 <= i < index ==> EntryOk(raw.entries[i])
    {
      if !EntryOk(raw.entries[index]) {
        return Err(InvalidScheduleEntry(index));
      }
      entries := entries + [raw.entries[index]];
    }
    assert raw.entries[..|raw.entries|] == raw.entries;
    entries := SortById(entries);
    assert CheckEntries(raw.entries, |raw.entries|).None?;
    for index := 0 to |entries|
      invariant forall i, j :: 0 <= i < j < index ==> entries[i].id != entries[j].id
    {
      for other := 0 to index
        invariant forall i :: 0 <= i < other ==> entries[i].id != entries[index].id
      {
        if entries[other].id == entries[index].id {
          assert !DistinctIds(entries);
          return Err(Schedule(S.DuplicateEntryId));
        }
      }
    }
    var _ :- CheckZone(raw, zones);
    if AllZero(raw.token) {
      return Err(ZeroSettingsAuthToken);
    }
    var _ :- CheckCalibration(raw);
    return Ok(raw.(entries := entries));
  }

  /** Everything a valid configuration must satisfy, in terms of the parts that use it. */
  ghost predicate Acceptable(raw: RawConfig, zones: Zones) {
    && raw.revision != 0
    && raw.stop <= 1000 && raw.restart <= 1000
    && I.ValidConfig(I.Config(raw.stop, raw.restart, raw.maxSampleAgeMs, raw.timing))
    && 1 <= raw.duration <= O.SECONDS_PER_DAY
    && |raw.entries| <= MAX_ENTRIES && (forall e :: e in raw.entries ==> EntryOk(e)) && DistinctIds(raw.entries)
    && raw.timezone != [] && zones(raw.timezone).None?
    && !AllZero(raw.token)
    && (raw.calibration.Some? ==>
          && C.NewCalibration(raw.calibration.value).Ok?
          && raw.calibration.value.supportedLevel.min <= raw.stop
          && raw.restart <= raw.calibration.value.supportedLevel.max
          && raw.maxSampleAgeMs == raw.calibration.value.maxFrameAgeMs)
  }

  function Ids(es: seq<RawEntry>): set<int> {
    set e | e in es :: e.id
  }

  lemma DistinctAppends(front: seq<RawEntry>, last: RawEntry)
    ensures DistinctIds(front + [last]) <==> DistinctIds(front) && last.id !in Ids(front)
  {
    var es := front + [last];
    assert forall i :: 0 <= i < |front| ==> es[i] == front[i] && front[i] in front;
    if e :| e in front && e.id == last.id {
      var i :| 0 <= i < |front| && front[i] == e;
      assert es[i].id == es[|front|].id;
    } else if !DistinctIds(es) {
      var i, j :| 0 <= i < j < |es| && es[i].id == es[j].id;
      assert front[i] in front && es[i] == front[i];
    }
  }

  /** Ids are distinct exactly when there are as many of them as entries. */
  lemma {:induction false} DistinctIffCounted(es: seq<RawEntry>)
    ensures |Ids(es)| <= |es|
    ensures DistinctIds(es) <==> |Ids(es)| == |es|
  {
    if es == [] {
      assert Ids(es) == {};
    } else {
      var front, last := es[..|es| - 1], es[|es| - 1];
      DistinctIffCounted(front);
      DistinctAppends(front, last);
      assert es == front + [last];
      hide DistinctIds;
      assert Ids(es) == Ids(front) + {last.id};
    }
  }

  /** Ids are distinct after sorting exactly when they were before. */
  lemma SortKeepsDistinct(es: seq<RawEntry>)
    ensures DistinctIds(SortById(es)) <==> DistinctIds(es)
  {
    SortSorts(es);
    SortedMembers(es);
    assert Ids(SortById(es)) == Ids(es);
    DistinctIffCounted(es);
    DistinctIffCounted(SortById(es));
    hide SortById, DistinctIds, SortedById;
  }

  /** Validation accepts exactly the acceptable configurations. */
  lemma FromRawIff(raw: RawConfig, zones: Zones)
    ensures FromRaw(raw, zones).Ok? <==> Acceptable(raw, zones)
    ensures FromRaw(raw, zones).Ok? ==>
      FromRaw(raw, zones).value == raw.(entries := SortById(raw.entries))
  {
    SortKeepsDistinct(raw.entries);
    assert (forall e :: e in raw.entries ==> EntryOk(e)) <==> CheckEntries(raw.entries, |raw.entries|).None?;
    hide C.NewCalibration, SortById, EntryOk, AllZero, DistinctIds;
  }

  /** An accepted configuration is canonical: in strict order of id, and accepted unchanged. */
  lemma FromRawIsCanonical(raw: RawConfig, zones: Zones)
    requires FromRaw(raw, zones).Ok?
    ensures var c := FromRaw(raw, zones).value;
      Increasing(c.entries) && FromRaw(c, zones) == Ok(c) && (raw.Shaped() ==> c.Shaped())
  {
    var c := FromRaw(raw, zones).value;
    FromRawIff(raw, zones);
    SortSorts(raw.entries);
    SortedMembers(raw.entries);
    SortKeepsDistinct(raw.entries);
    SortKeepsSorted(c.entries);
    hide C.NewCalibration, SortById, EntryOk, AllZero, FromRaw;
    FromRawIff(c, zones);
  }
}
