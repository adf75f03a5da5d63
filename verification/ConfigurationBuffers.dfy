/** The configuration codec as the firmware runs it: a writer and a reader that advance a position. */
module ConfigurationBuffers {
  import opened Base
  import opened Crc
  import opened Bytes
  import opened ByteReader
  import opened Configuration
  import opened ConfigurationFields
  import opened ConfigurationCodec
  import C = Calibration
  import I = Interlock

  /** A read of `r` did what parsing says it does. */
  ghost predicate Yields<T(!new)>(p: Parsed<T>, r: Result<T, ConfigurationError>, after: Cursor) {
    match p
    case Ok(x) => r == Ok(x.0) && after == x.1
    case Err(e) => r == Err(e)
  }

  class Reader {
    const bytes: seq<Byte>
    var position: nat

    ghost function At(): Cursor
      reads this
    {
      Cursor(bytes, position)
    }

    constructor (bytes: seq<Byte>, position: nat)
      ensures At() == Cursor(bytes, position)
    {
      this.bytes, this.position := bytes, position;
    }

    method Take(len: nat) returns (r: Result<seq<Byte>, ConfigurationError>)
      modifies this`position
      ensures Yields(Span(old(At()), len), r, At())
    {
      var end := position + len;
      if end > |bytes| {
        return Err(BlobLength);
      }
      r := Ok(bytes[position..end]);
      position := end;
    }

    method ReadByte() returns (r: Result<Byte, ConfigurationError>)
      modifies this`position
      ensures Yields(U8(old(At())), r, At())
    {
      var b :- Take(1);
      return Ok(b[0]);
    }

    method ReadU16() returns (r: Result<u16, ConfigurationError>)
      modifies this`position
      ensures Yields(U16(old(At())), r, At())
    {
      var b :- Take(2);
      Widths();
      FromLeBound(b);
      return Ok(FromLe(b));
    }

    method ReadU32() returns (r: Result<u32, ConfigurationError>)
      modifies this`position
      ensures Yields(U32(old(At())), r, At())
    {
      var b :- Take(4);
      Widths();
      FromLeBound(b);
      return Ok(FromLe(b));
    }

    method ReadI32() returns (r: Result<i32, ConfigurationError>)
      modifies this`position
      ensures Yields(I32(old(At())), r, At())
    {
      var u :- ReadU32();
      return Ok(ToI32(u));
    }

    method ReadU64() returns (r: Result<u64, ConfigurationError>)
      modifies this`position
      ensures Yields(U64(old(At())), r, At())
    {
      var b :- Take(8);
      Widths();
      FromLeBound(b);
      return Ok(FromLe(b));
    }

    method ReadChannels() returns (r: Result<C.RawChannels, ConfigurationError>)
      modifies this`position
      ensures Yields(GetChannels(old(At())), r, At())
    {
      hide I32;
      var level :- ReadI32();
      var wetReference :- ReadI32();
      return Ok(C.Channels(level, wetReference));
    }

    method ReadLimits() returns (r: Result<C.ChannelLimits, ConfigurationError>)
      modifies this`position
      ensures Yields(GetLimits(old(At())), r, At())
    {
      hide I32, U32;
      var min :- ReadI32();
      var max :- ReadI32();
      var slew :- ReadU32();
      return Ok(C.ChannelLimits(C.CountsRange(min, max), slew));
    }

    method ReadBaselines() returns (r: Result<Baselines, ConfigurationError>)
      modifies this`position
      ensures Yields(GetBaselines(old(At())), r, At())
    {
      hide I32, GetChannels;
      var levelEmpty :- ReadI32();
      var wetReferenceEmpty :- ReadI32();
      var low :- ReadChannels();
      var high :- ReadChannels();
      return Ok(Baselines(levelEmpty, wetReferenceEmpty, low, high));
    }

    method ReadSpans() returns (r: Result<Spans, ConfigurationError>)
      modifies this`position
      ensures Yields(GetSpans(old(At())), r, At())
    {
      hide U8, U32, Span;
      var sign :- ReadByte();
      if sign != 0 && sign != 1 {
        return Err(NonCanonical);
      }
      var padding :- Take(3);
      if padding != Zeros(3) {
        return Err(NonCanonical);
      }
      var reference :- ReadU32();
      var numerator :- ReadU32();
      var denominator :- ReadU32();
      return Ok(Spans(if sign == 0 then C.Positive else C.Negative, reference, C.MinimumRatioSpan(numerator, denominator)));
    }

    method ReadDomain() returns (r: Result<Domain, ConfigurationError>)
      modifies this`position
      ensures Yields(GetDomain(old(At())), r, At())
    {
      hide U16, U32, U64;
      var min :- ReadU16();
      if min > 1000 {
        return Err(InvalidLevel);
      }
      var max :- ReadU16();
      if max > 1000 {
        return Err(InvalidLevel);
      }
      var age :- ReadU64();
      var duration :- ReadU64();
      var slew :- ReadU32();
      return Ok(Domain(C.LevelDomain(min, max), age, duration, slew));
    }

    method ReadCalibration() returns (r: Result<C.CalibrationData, ConfigurationError>)
      modifies this`position
      ensures Yields(GetCalibration(old(At())), r, At())
    {
      hide GetBaselines, GetLimits, GetSpans, GetDomain;
      var b :- ReadBaselines();
      var level :- ReadLimits();
      var wetReference :- ReadLimits();
      var s :- ReadSpans();
      var d :- ReadDomain();
      return Ok(C.CalibrationData(b.levelEmpty, b.wetReferenceEmpty, b.low, b.high, C.Channels(level, wetReference),
                                  s.sign, s.reference, s.ratio, d.levels, d.ageMs, d.durationMs, d.slew));
    }

    method ReadPushover() returns (r: Result<Pushover, ConfigurationError>)
      modifies this`position
      ensures Yields(GetPushover(old(At())), r, At())
    {
      hide U8, Span, Utf8, NewPushover, AllZero;
      var token :- Take(KEY_LEN);
      var key :- Take(KEY_LEN);
      var len :- ReadByte();
      var padding :- Take(3);
      if padding != Zeros(3) {
        return Err(NonCanonical);
      }
      if len as int > DEVICE_MAX_LEN {
        return Err(InvalidPushoverField(DeviceName));
      }
      var device :- Take(DEVICE_MAX_LEN);
      if !AllZero(device[len as int..]) {
        return Err(NonCanonical);
      }
      var name := device[..len as int];
      var _ :- CheckPushoverText(token, key, name);
      var p :- NewPushover(token, key, name);
      return Ok(p);
    }

    /** The entry loop; each id must lie above the one before it. */
    method ReadEntries(n: nat) returns (r: Result<seq<RawEntry>, ConfigurationError>)
      modifies this`position
      ensures Yields(GetEntries(old(At()), n), r, At())
    {
      hide U8, U16, U32;
      ghost var start := At();
      var entries: seq<RawEntry> := [];
      for index := 0 to n
        invariant Yields(GetEntries(start, index), Ok(entries), At())
        invariant |entries| == index
      {
        var e := ReadEntry(LastId(entries));
        if e.Err? {
          EntriesFail(start, index + 1, n);
          return Err(e.error);
        }
        entries := entries + [e.value];
      }
      return Ok(entries);
    }

    method ReadEntry(previous: Option<u16>) returns (r: Result<RawEntry, ConfigurationError>)
      modifies this`position
      ensures Yields(GetEntry(old(At()), previous), r, At())
    {
      hide U8, U16, U32;
      var id :- ReadU16();
      var mask :- ReadByte();
      var padding :- ReadByte();
      if padding != 0 {
        return Err(NonCanonical);
      }
      var start :- ReadU32();
      if previous.Some? && id <= previous.value {
        return Err(NonCanonical);
      }
      return Ok(RawEntry(id, mask, start));
    }

    method ReadThresholds() returns (r: Result<Thresholds, ConfigurationError>)
      modifies this`position
      ensures Yields(GetThresholds(old(At())), r, At())
    {
      hide U16, U32, U64;
      var duration :- ReadU32();
      var stop :- ReadU16();
      var restart :- ReadU16();
      var age :- ReadU64();
      return Ok(Thresholds(duration, stop, restart, age));
    }

    method ReadTiming() returns (r: Result<I.Timing, ConfigurationError>)
      modifies this`position
      ensures Yields(GetTiming(old(At())), r, At())
    {
      hide U64;
      var low :- ReadU64();
      var recovery :- ReadU64();
      var minimumOff :- ReadU64();
      return Ok(I.Timing(low, recovery, minimumOff));
    }

    method ReadBody(f: Frame) returns (r: Result<RawConfig, ConfigurationError>)
      modifies this`position
      ensures Yields(GetBody(old(At()), f), r, At())
    {
      hide GetThresholds, GetTiming, Span, GetEntries, GetCalibration, GetPushover, Ascii;
      var s :- ReadThresholds();
      var timing :- ReadTiming();
      var token :- Take(TOKEN_LEN);
      var entries :- ReadEntries(f.count);
      var zone :- Take(f.zoneLen);
      if !Ascii(zone) {
        return Err(InvalidTimeZoneEncoding);
      }
      var calibration: Option<C.CalibrationData> := None;
      if f.calibrated {
        var x :- ReadCalibration();
        calibration := Some(x);
      }
      var pushover: Option<Pushover> := None;
      if f.pushes {
        var x :- ReadPushover();
        pushover := Some(x);
      }
      return Ok(RawConfig(f.revision, s.stop, s.restart, s.maxSampleAgeMs, timing, s.duration, entries, zone,
                          calibration, token, pushover));
    }
  }

  /** Once an entry fails, the whole list fails the same way. */
  lemma {:induction false} EntriesFail(c: Cursor, m: nat, n: nat)
    requires m <= n && GetEntries(c, m).Err?
    ensures GetEntries(c, n) == GetEntries(c, m)
    decreases n - m
  {
    hide GetEntry;
    if m < n {
      EntriesFail(c, m, n - 1);
    }
  }

  method DecodeBlob(blob: seq<Byte>, zones: Zones) returns (r: Result<RawConfig, ConfigurationError>)
    ensures r == Decode(blob, zones)
  {
    hide GetBody, Crc32, FromBytes, FromLe, FromRaw, FrameOf;
    if |blob| > BLOB_MAX_LEN {
      return Err(BlobTooLarge);
    }
    if |blob| < HEADER_LEN + CHECKSUM_LEN {
      return Err(BlobLength);
    }
    if blob[..4] != Magic() {
      return Err(BlobMagic);
    }
    if blob[4] != FORMAT_VERSION {
      return Err(BlobVersion);
    }
    if FromLe(blob[6..8]) != |blob| {
      return Err(BlobLength);
    }
    var end := |blob| - CHECKSUM_LEN;
    var checksum := ComputeCrc32(blob[..end]);
    if checksum != FromBytes(blob[end..]) {
      return Err(BlobChecksum);
    }
    if blob[5] & UNKNOWN_FLAGS != 0 || blob[13] != 0 {
      return Err(NonCanonical);
    }
    var frame := FrameOf(blob);
    if frame.count > MAX_ENTRIES {
      return Err(TooManyScheduleEntries);
    }
    if frame.zoneLen == 0 || frame.zoneLen > ZONE_MAX_LEN {
      return Err(InvalidTimeZoneEncoding);
    }
    var reader := new Reader(blob[..end], HEADER_LEN);
    var raw :- reader.ReadBody(frame);
    if reader.position != end {
      return Err(NonCanonical);
    }
    r := FromRawInOrder(raw, zones);
  }

  // -------------------------------------------------------------------- writer

  /** All of `bytes` is appended when it fits; otherwise the blob is too large. */
  ghost predicate Appends(before: seq<Byte>, bytes: seq<Byte>, r: Result<(), ConfigurationError>, after: seq<Byte>) {
    if |before| + |bytes| <= BLOB_MAX_LEN then r == Ok(()) && after == before + bytes
    else r == Err(BlobTooLarge)
  }

  class Writer {
    const buffer: array<Byte>
    var position: nat

    ghost predicate Valid()
      reads this
    {
      buffer.Length == BLOB_MAX_LEN && position <= buffer.Length
    }

    ghost function Written(): seq<Byte>
      requires Valid()
      reads this, buffer
    {
      buffer[..position]
    }

    constructor ()
      ensures Valid() && Written() == [] && fresh(buffer)
    {
      buffer := new Byte[BLOB_MAX_LEN](_ => 0);
      position := 0;
    }

    /** Appends all of `bytes`, or nothing when they do not fit. */
    method Bytes(bytes: seq<Byte>) returns (r: Result<(), ConfigurationError>)
      requires Valid()
      modifies this`position, buffer
      ensures Valid() && Appends(old(Written()), bytes, r, Written())
      ensures r.Err? ==> Written() == old(Written())
    {
      var end := position + |bytes|;
      if end > buffer.Length {
        return Err(BlobTooLarge);
      }
      var start := position;
      for i := 0 to |bytes|
        invariant position == start
        invariant buffer[..start] == old(buffer[..start])
        invariant forall k :: 0 <= k < i ==> buffer[start + k] == bytes[k]
      {
        buffer[start + i] := bytes[i];
      }
      assert buffer[..end] == buffer[..start] + buffer[start..end];
      position := end;
      return Ok(());
    }

    /** Overwrites the declared length, once it is known. */
    method PatchLength(total: u16)
      requires Valid() && position >= 8
      modifies buffer
      ensures Valid() && Written() == old(Written())[..6] + Le(total, 2) + old(Written())[8..]
    {
      var b := Le(total, 2);
      buffer[6] := b[0];
      buffer[7] := b[1];
      assert b == [b[0], b[1]];
    }

    method WriteBaselines(x: C.CalibrationData) returns (r: Result<(), ConfigurationError>)
      requires Valid()
      modifies this`position, buffer
      ensures Valid() && Appends(old(Written()), PutBaselines(x), r, Written())
    {
      hide PutI32;
      var _ :- Bytes(PutI32(x.levelEmpty));
      var _ :- Bytes(PutI32(x.wetReferenceEmpty));
      var _ :- WriteChannels(x.lowEndpoint);
      r := WriteChannels(x.highEndpoint);
      hide PutChannels;
    }

    method WriteChannels(x: C.RawChannels) returns (r: Result<(), ConfigurationError>)
      requires Valid()
      modifies this`position, buffer
      ensures Valid() && Appends(old(Written()), PutChannels(x), r, Written())
    {
      hide PutI32;
      var _ :- Bytes(PutI32(x.level));
      r := Bytes(PutI32(x.wetReference));
    }

    method WriteLimits(x: C.ChannelLimits) returns (r: Result<(), ConfigurationError>)
      requires Valid()
      modifies this`position, buffer
      ensures Valid() && Appends(old(Written()), PutLimits(x), r, Written())
    {
      hide PutI32, Le;
      var _ :- Bytes(PutI32(x.envelope.min));
      var _ :- Bytes(PutI32(x.envelope.max));
      r := Bytes(Le(x.maxSlew, 4));
    }

    method WriteSpans(x: C.CalibrationData) returns (r: Result<(), ConfigurationError>)
      requires Valid()
      modifies this`position, buffer
      ensures Valid() && Appends(old(Written()), PutSpans(x), r, Written())
    {
      hide Le, Zeros;
      var _ :- Bytes([SignByte(x.referenceSign)]);
      var _ :- Bytes(Zeros(3));
      var _ :- Bytes(Le(x.minimumReferenceSpan, 4));
      var _ :- Bytes(Le(x.minimumRatioSpan.numerator, 4));
      r := Bytes(Le(x.minimumRatioSpan.denominator, 4));
    }

    method WriteDomain(x: C.CalibrationData) returns (r: Result<(), ConfigurationError>)
      requires Valid()
      modifies this`position, buffer
      ensures Valid() && Appends(old(Written()), PutDomain(x), r, Written())
    {
      hide Le;
      var _ :- Bytes(Le(x.supportedLevel.min, 2));
      var _ :- Bytes(Le(x.supportedLevel.max, 2));
      var _ :- Bytes(Le(x.maxFrameAgeMs, 8));
      var _ :- Bytes(Le(x.maxFrameDurationMs, 8));
      r := Bytes(Le(x.maxLevelSlew, 4));
    }

    method WriteCalibration(x: C.CalibrationData) returns (r: Result<(), ConfigurationError>)
      requires Valid()
      modifies this`position, buffer
      ensures Valid() && Appends(old(Written()), PutCalibration(x), r, Written())
    {
      hide PutBaselines, PutLimits, PutSpans, PutDomain;
      var _ :- WriteBaselines(x);
      var _ :- WriteLimits(x.channels.level);
      var _ :- WriteLimits(x.channels.wetReference);
      var _ :- WriteSpans(x);
      r := WriteDomain(x);
    }

    method WriteEntry(e: RawEntry) returns (r: Result<(), ConfigurationError>)
      requires Valid()
      modifies this`position, buffer
      ensures Valid() && Appends(old(Written()), PutEntry(e), r, Written())
    {
      hide Le;
      var _ :- Bytes(Le(e.id, 2));
      var _ :- Bytes([e.dayMask]);
      var _ :- Bytes([0]);
      r := Bytes(Le(e.startSecond, 4));
    }

    method WriteEntries(es: seq<RawEntry>) returns (r: Result<(), ConfigurationError>)
      requires Valid()
      modifies this`position, buffer
      ensures Valid() && Appends(old(Written()), PutEntries(es), r, Written())
    {
      hide PutEntry;
      for i := 0 to |es|
        invariant Valid() && Appends(old(Written()), PutEntries(es[..i]), Ok(()), Written())
      {
        var w := WriteEntry(es[i]);
        assert es[..i + 1][..i] == es[..i] && es[..i + 1][i] == es[i];
        if w.Err? {
          return w;
        }
      }
      assert es[..|es|] == es;
      return Ok(());
    }

    method WritePushover(p: Pushover) returns (r: Result<(), ConfigurationError>)
      requires Valid()
      modifies this`position, buffer
      ensures Valid() && Appends(old(Written()), PutPushover(p), r, Written())
    {
      hide Zeros, IsKey, PutDevice;
      PushoverParts(p);
      hide PutPushover;
      var _ :- Bytes(p.applicationToken);
      var _ :- Bytes(p.userKey);
      r := WriteDevice(p.device);
    }

    method WriteDevice(device: seq<Byte>) returns (r: Result<(), ConfigurationError>)
      requires Valid() && |device| <= DEVICE_MAX_LEN
      modifies this`position, buffer
      ensures Valid() && Appends(old(Written()), PutDevice(device), r, Written())
    {
      hide Zeros, DeviceLength;
      var _ :- WriteDeviceLength(device);
      r := Bytes(device + Zeros(DEVICE_MAX_LEN - |device|));
    }

    method WriteDeviceLength(device: seq<Byte>) returns (r: Result<(), ConfigurationError>)
      requires Valid() && |device| <= DEVICE_MAX_LEN
      modifies this`position, buffer
      ensures Valid() && Appends(old(Written()), DeviceLength(device), r, Written())
    {
      hide Zeros;
      var _ :- Bytes([|device| as Byte]);
      r := Bytes(Zeros(3));
    }

    method WriteSettings(x: RawConfig) returns (r: Result<(), ConfigurationError>)
      requires Valid()
      modifies this`position, buffer
      ensures Valid() && Appends(old(Written()), PutSettings(x), r, Written())
    {
      hide PutThresholds, PutTiming;
      var _ :- WriteThresholds(x);
      r := WriteTiming(x.timing);
    }

    method WriteThresholds(x: RawConfig) returns (r: Result<(), ConfigurationError>)
      requires Valid()
      modifies this`position, buffer
      ensures Valid() && Appends(old(Written()), PutThresholds(x), r, Written())
    {
      hide Le;
      var _ :- Bytes(Le(x.duration, 4));
      var _ :- Bytes(Le(x.stop, 2));
      var _ :- Bytes(Le(x.restart, 2));
      r := Bytes(Le(x.maxSampleAgeMs, 8));
    }

    method WriteTiming(t: I.Timing) returns (r: Result<(), ConfigurationError>)
      requires Valid()
      modifies this`position, buffer
      ensures Valid() && Appends(old(Written()), PutTiming(t), r, Written())
    {
      hide Le;
      var _ :- Bytes(Le(t.lowConfirmationMs, 8));
      var _ :- Bytes(Le(t.recoveryMs, 8));
      r := Bytes(Le(t.minimumOffMs, 8));
    }

    /** The header, with a placeholder for the length that is not known yet. */
    method WriteHeader(x: RawConfig) returns (r: Result<(), ConfigurationError>)
      requires Valid() && Writable(x)
      modifies this`position, buffer
      ensures Valid() && Appends(old(Written()), OpenHeader(x), r, Written())
    {
      hide Identity, Counts;
      var _ :- WriteIdentity(x);
      r := WriteCounts(x);
    }

    method WriteIdentity(x: RawConfig) returns (r: Result<(), ConfigurationError>)
      requires Valid()
      modifies this`position, buffer
      ensures Valid() && Appends(old(Written()), Identity(x), r, Written())
    {
      hide Le, Flags;
      var _ :- Bytes(Magic());
      var _ :- Bytes([FORMAT_VERSION]);
      var flags := Flags(x.calibration.Some?, x.pushover.Some?);
      var _ :- Bytes([flags]);
      r := Bytes(Le(0, 2));
    }

    method WriteCounts(x: RawConfig) returns (r: Result<(), ConfigurationError>)
      requires Valid() && Writable(x)
      modifies this`position, buffer
      ensures Valid() && Appends(old(Written()), Counts(x), r, Written())
    {
      hide Le, RevisionAndCount;
      var _ :- WriteRevisionAndCount(x);
      r := Bytes(Le(|x.timezone|, 2));
    }

    method WriteRevisionAndCount(x: RawConfig) returns (r: Result<(), ConfigurationError>)
      requires Valid() && Writable(x)
      modifies this`position, buffer
      ensures Valid() && Appends(old(Written()), RevisionAndCount(x), r, Written())
    {
      hide Le;
      var _ :- Bytes(Le(x.revision, 4));
      var _ :- Bytes([|x.entries| as Byte]);
      r := Bytes([0]);
    }
  }

  function PutDevice(device: seq<Byte>): seq<Byte>
    requires |device| <= DEVICE_MAX_LEN
  {
    DeviceLength(device) + (device + Zeros(DEVICE_MAX_LEN - |device|))
  }

  /** The length byte and its padding. */
  function DeviceLength(device: seq<Byte>): seq<Byte>
    requires |device| <= DEVICE_MAX_LEN
  {
    [|device| as Byte] + Zeros(3)
  }

  lemma PushoverParts(p: Pushover)
    ensures |p.device| <= DEVICE_MAX_LEN && PutPushover(p) == p.applicationToken + p.userKey + PutDevice(p.device)
  {
    hide Zeros, IsKey;
  }

  function Identity(x: RawConfig): (b: seq<Byte>)
    ensures |b| == 8
  {
    Magic() + [FORMAT_VERSION] + [Flags(x.calibration.Some?, x.pushover.Some?)] + Le(0, 2)
  }

  function Counts(x: RawConfig): (b: seq<Byte>)
    requires Writable(x)
    ensures |b| == 8
  {
    RevisionAndCount(x) + Le(|x.timezone|, 2)
  }

  function RevisionAndCount(x: RawConfig): (b: seq<Byte>)
    requires Writable(x)
    ensures |b| == 6
  {
    Le(x.revision, 4) + [|x.entries| as Byte] + [0]
  }

  function OpenHeader(x: RawConfig): (b: seq<Byte>)
    requires Writable(x)
    ensures |b| == HEADER_LEN
  {
    Identity(x) + Counts(x)
  }

  lemma PatchedHeader(x: RawConfig, body: seq<Byte>)
    requires Writable(x)
    ensures var open := OpenHeader(x) + body;
      open[..6] + Le(Total(x), 2) + open[8..] == Header(x) + body
  {
    hide Le, Flags, Total;
    var h := OpenHeader(x);
    assert (h + body)[..6] == h[..6] && (h + body)[8..] == h[8..] + body;
    assert Header(x) == h[..6] + Le(Total(x), 2) + h[8..];
  }

  /** The header, the settings, the token and the entries. */
  function Front(x: RawConfig): (b: seq<Byte>)
    requires Writable(x)
    ensures |b| == FrontLen(x)
  {
    OpenHeader(x) + PutSettings(x) + x.token + PutEntries(x.entries)
  }

  method WriteFront(writer: Writer, x: RawConfig) returns (r: Result<(), ConfigurationError>)
    requires Writable(x) && writer.Valid()
    modifies writer`position, writer.buffer
    ensures writer.Valid() && Appends(old(writer.Written()), Front(x), r, writer.Written())
  {
    hide OpenHeader, PutSettings, PutEntries;
    var _ :- writer.WriteHeader(x);
    var _ :- writer.WriteSettings(x);
    var _ :- writer.Bytes(x.token);
    r := writer.WriteEntries(x.entries);
  }

  method WriteOptions(writer: Writer, x: RawConfig) returns (r: Result<(), ConfigurationError>)
    requires writer.Valid()
    modifies writer`position, writer.buffer
    ensures writer.Valid() && Appends(old(writer.Written()), PutOptions(x), r, writer.Written())
  {
    hide PutCalibration, PutPushover;
    r := Ok(());
    if x.calibration.Some? {
      var _ :- writer.WriteCalibration(x.calibration.value);
    }
    if x.pushover.Some? {
      r := writer.WritePushover(x.pushover.value);
    }
  }

  method EncodeBlob(x: RawConfig) returns (r: Result<seq<Byte>, ConfigurationError>)
    requires Writable(x)
    ensures r == Encode(x)
  {
    hide Header, Crc32, WordBytes, PutSettings, PutEntries, PutOptions, OpenHeader, Le;
    var writer := new Writer();
    var _ :- WriteFront(writer, x);
    if x.timezone == [] {
      return Err(InvalidTimeZoneEncoding);
    }
    var _ :- writer.Bytes(x.timezone);
    var _ :- WriteOptions(writer, x);
    assert writer.Written() == OpenHeader(x) + Body(x);
    r := Seal(writer, x);
  }

  /** Patches the declared length into what was written and appends the checksum. */
  method Seal(writer: Writer, ghost x: RawConfig) returns (r: Result<seq<Byte>, ConfigurationError>)
    requires Writable(x) && x.timezone != []
    requires writer.Valid() && writer.Written() == OpenHeader(x) + Body(x)
    modifies writer, writer.buffer
    ensures r == Encode(x)
  {
    hide Header, Crc32, WordBytes, PutSettings, PutEntries, PutOptions, OpenHeader, Le;
    var total := writer.position + CHECKSUM_LEN;
    assert total == Total(x);
    hide Body;
    if total > BLOB_MAX_LEN || total > U16_MAX {
      return Err(BlobTooLarge);
    }
    writer.PatchLength(total);
    PatchedHeader(x, Body(x));
    assert writer.Written() == Payload(x);
    var checksum := ComputeCrc32(writer.buffer[..writer.position]);
    var _ := writer.Bytes(WordBytes(checksum));
    return Ok(writer.buffer[..writer.position]);
  }
}
