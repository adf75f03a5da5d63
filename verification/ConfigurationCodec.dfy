/** The canonical configuration blob: encoding, decoding, and that each undoes the other. */
module ConfigurationCodec {
  import opened Base
  import opened Crc
  import opened Bytes
  import opened ByteReader
  import opened Configuration
  import opened ConfigurationFields
  import I = Interlock
  import C = Calibration

  const HEADER_LEN: nat := 16
  const CHECKSUM_LEN: nat := 4
  const BLOB_MAX_LEN: nat := 2048
  const FORMAT_VERSION: Byte := 2
  const FLAG_CALIBRATION: Byte := 1
  const FLAG_PUSHOVER: Byte := 2
  const UNKNOWN_FLAGS: Byte := 0xfc

  function Magic(): seq<Byte> {
    [0x43, 0x53, 0x43, 0x46]
  }

  function Flags(calibrated: bool, pushes: bool): Byte {
    (if calibrated then FLAG_CALIBRATION else 0) | (if pushes then FLAG_PUSHOVER else 0)
  }

  // ------------------------------------------------------------------- fields

  function PutThresholds(x: RawConfig): (b: seq<Byte>)
    ensures |b| == 16
  {
    Le(x.duration, 4) + Le(x.stop, 2) + Le(x.restart, 2) + Le(x.maxSampleAgeMs, 8)
  }

  function PutTiming(t: I.Timing): (b: seq<Byte>)
    ensures |b| == 24
  {
    Le(t.lowConfirmationMs, 8) + Le(t.recoveryMs, 8) + Le(t.minimumOffMs, 8)
  }

  function PutSettings(x: RawConfig): (b: seq<Byte>)
    ensures |b| == 40
  {
    PutThresholds(x) + PutTiming(x.timing)
  }

  datatype Thresholds = Thresholds(duration: u32, stop: u16, restart: u16, maxSampleAgeMs: u64)

  function GetThresholds(c: Cursor): (r: Parsed<Thresholds>)
    ensures r.Ok? ==> r.value.1 == Advance(c, 16)
  {
    var duration :- U32(c);
    var stop :- U16(duration.1);
    var restart :- U16(stop.1);
    var age :- U64(restart.1);
    Ok((Thresholds(duration.0, stop.0, restart.0, age.0), age.1))
  }

  function GetTiming(c: Cursor): (r: Parsed<I.Timing>)
    ensures r.Ok? ==> r.value.1 == Advance(c, 24)
  {
    var low :- U64(c);
    var recovery :- U64(low.1);
    var minimumOff :- U64(recovery.1);
    Ok((I.Timing(low.0, recovery.0, minimumOff.0), minimumOff.1))
  }

  lemma ThresholdsIff(c: Cursor, x: RawConfig, d: Cursor)
    ensures GetThresholds(c) == Ok((Thresholds(x.duration, x.stop, x.restart, x.maxSampleAgeMs), d))
      <==> Has(c, PutThresholds(x)) && d == Advance(c, 16)
  {
    hide U16, U32, U64, Le, Has;
    var a, b, e, f := Le(x.duration, 4), Le(x.stop, 2), Le(x.restart, 2), Le(x.maxSampleAgeMs, 8);
    U32Iff(c, x.duration, Advance(c, 4));
    U16Iff(Advance(c, 4), x.stop, Advance(c, 6));
    U16Iff(Advance(c, 6), x.restart, Advance(c, 8));
    U64Iff(Advance(c, 8), x.maxSampleAgeMs, Advance(c, 16));
    HasConcat(c, a + b + e, f);
    HasConcat(c, a + b, e);
    HasConcat(c, a, b);
  }

  lemma TimingIff(c: Cursor, t: I.Timing, d: Cursor)
    ensures GetTiming(c) == Ok((t, d)) <==> Has(c, PutTiming(t)) && d == Advance(c, 24)
  {
    hide U64, Le, Has;
    var a, b, e := Le(t.lowConfirmationMs, 8), Le(t.recoveryMs, 8), Le(t.minimumOffMs, 8);
    U64Iff(c, t.lowConfirmationMs, Advance(c, 8));
    U64Iff(Advance(c, 8), t.recoveryMs, Advance(c, 16));
    U64Iff(Advance(c, 16), t.minimumOffMs, Advance(c, 24));
    HasConcat(c, a + b, e);
    HasConcat(c, a, b);
  }

  function GetZone(c: Cursor, n: nat): (r: Parsed<seq<Byte>>)
    ensures r.Ok? ==> r.value.1 == Advance(c, n) && |r.value.0| == n
  {
    var rule :- Span(c, n);
    if Ascii(rule.0) then Ok(rule) else Err(InvalidTimeZoneEncoding)
  }

  function PutMaybeCalibration(x: Option<C.CalibrationData>): (b: seq<Byte>)
    ensures |b| == if x.Some? then 88 else 0
  {
    if x.Some? then PutCalibration(x.value) else []
  }

  function PutMaybePushover(x: Option<Pushover>): (b: seq<Byte>)
    ensures |b| == if x.Some? then 89 else 0
  {
    if x.Some? then PutPushover(x.value) else []
  }

  function PutOptions(x: RawConfig): seq<Byte> {
    PutMaybeCalibration(x.calibration) + PutMaybePushover(x.pushover)
  }

  datatype Options = Options(calibration: Option<C.CalibrationData>, pushover: Option<Pushover>)

  function GetMaybeCalibration(c: Cursor, present: bool): (r: Parsed<Option<C.CalibrationData>>)
    ensures r.Ok? ==> r.value.1 == Advance(c, if present then 88 else 0) && (r.value.0.Some? <==> present)
  {
    if !present then Ok((None, c))
    else
      var x :- GetCalibration(c);
      Ok((Some(x.0), x.1))
  }

  function GetMaybePushover(c: Cursor, present: bool): (r: Parsed<Option<Pushover>>)
    ensures r.Ok? ==> r.value.1 == Advance(c, if present then 89 else 0) && (r.value.0.Some? <==> present)
  {
    if !present then Ok((None, c))
    else
      var x :- GetPushover(c);
      Ok((Some(x.0), x.1))
  }

  function GetOptions(c: Cursor, calibrated: bool, pushes: bool): Parsed<Options> {
    var calibration :- GetMaybeCalibration(c, calibrated);
    var pushover :- GetMaybePushover(calibration.1, pushes);
    Ok((Options(calibration.0, pushover.0), pushover.1))
  }

  lemma MaybeCalibrationIff(c: Cursor, x: Option<C.CalibrationData>, present: bool, d: Cursor)
    requires c.position <= |c.bytes|
    ensures GetMaybeCalibration(c, present) == Ok((x, d))
      <==> (x.Some? <==> present) && Has(c, PutMaybeCalibration(x)) && d == Advance(c, |PutMaybeCalibration(x)|)
  {
    if x.Some? {
      hide GetCalibration, PutCalibration, Has;
      CalibrationIff(c, x.value, d);
    } else {
      hide GetCalibration;
    }
  }

  lemma MaybePushoverIff(c: Cursor, x: Option<Pushover>, present: bool, d: Cursor)
    requires c.position <= |c.bytes|
    ensures GetMaybePushover(c, present) == Ok((x, d))
      <==> (x.Some? <==> present) && Has(c, PutMaybePushover(x)) && d == Advance(c, |PutMaybePushover(x)|)
  {
    if x.Some? {
      hide GetPushover, PutPushover, Has;
      PushoverIff(c, x.value, d);
    } else {
      hide GetPushover;
    }
  }

  lemma OptionsIff(c: Cursor, x: RawConfig, calibrated: bool, pushes: bool, d: Cursor)
    requires c.position <= |c.bytes|
    ensures GetOptions(c, calibrated, pushes) == Ok((Options(x.calibration, x.pushover), d))
      <==> && (x.calibration.Some? <==> calibrated) && (x.pushover.Some? <==> pushes)
           && Has(c, PutOptions(x)) && d == Advance(c, |PutOptions(x)|)
  {
    hide GetMaybeCalibration, GetMaybePushover, PutMaybeCalibration, PutMaybePushover, Has;
    var a, b := PutMaybeCalibration(x.calibration), PutMaybePushover(x.pushover);
    HasConcat(c, a, b);
    var mid := Advance(c, |a|);
    MaybeCalibrationIff(c, x.calibration, calibrated, mid);
    if Has(c, a) {
      HasFits(c, a);
      MaybePushoverIff(mid, x.pushover, pushes, d);
    }
  }

  lemma HasFits(c: Cursor, b: seq<Byte>)
    requires Has(c, b)
    ensures Advance(c, |b|).position <= |c.bytes|
  {
  }

  // --------------------------------------------------------------------- body

  /** Everything after the header. */
  function Body(x: RawConfig): seq<Byte> {
    PutSettings(x) + x.token + PutEntries(x.entries) + x.timezone + PutOptions(x)
  }

  /** What the header says about the body. */
  datatype Frame = Frame(revision: u32, count: nat, zoneLen: nat, calibrated: bool, pushes: bool)

  predicate Framed(x: RawConfig, f: Frame) {
    && x.revision == f.revision && |x.entries| == f.count && |x.timezone| == f.zoneLen
    && (x.calibration.Some? <==> f.calibrated) && (x.pushover.Some? <==> f.pushes)
  }

  function GetBody(c: Cursor, f: Frame): Parsed<RawConfig> {
    var s :- GetThresholds(c);
    var timing :- GetTiming(s.1);
    var token :- Span(timing.1, TOKEN_LEN);
    var entries :- GetEntries(token.1, f.count);
    var zone :- GetZone(entries.1, f.zoneLen);
    var options :- GetOptions(zone.1, f.calibrated, f.pushes);
    Ok((RawConfig(f.revision, s.0.stop, s.0.restart, s.0.maxSampleAgeMs, timing.0, s.0.duration, entries.0,
                  zone.0, options.0.calibration, token.0, options.0.pushover), options.1))
  }

  /** The body reads back exactly, in the one shape its header announces. */
  lemma BodyIff(c: Cursor, f: Frame, x: RawConfig, d: Cursor)
    requires |x.token| == TOKEN_LEN && |x.entries| == f.count && |x.timezone| == f.zoneLen
    ensures GetBody(c, f) == Ok((x, d))
      <==> && Framed(x, f) && Increasing(x.entries) && Ascii(x.timezone)
           && Has(c, Body(x)) && d == Advance(c, |Body(x)|)
  {
    hide GetThresholds, PutThresholds, GetTiming, PutTiming, GetEntries, PutEntries, GetOptions, PutOptions, Span, Has,
         Increasing, Ascii;
    var a, b, e, g, h := PutSettings(x), x.token, PutEntries(x.entries), x.timezone, PutOptions(x);
    var c1 := Advance(c, 40);
    var c2 := Advance(c1, TOKEN_LEN);
    var c3 := Advance(c2, 8 * f.count);
    var c4 := Advance(c3, f.zoneLen);
    ThresholdsIff(c, x, Advance(c, 16));
    TimingIff(Advance(c, 16), x.timing, c1);
    HasConcat(c, PutThresholds(x), PutTiming(x.timing));
    SpanIff(c1, b, TOKEN_LEN, c2);
    SpanIff(c3, g, f.zoneLen, c4);
    HasConcat(c, a + b + e + g, h);
    HasConcat(c, a + b + e, g);
    HasConcat(c, a + b, e);
    HasConcat(c, a, b);
    if Has(c1, b) {
      HasFits(c1, b);
      EntriesIff(c2, f.count, x.entries, c3);
    }
    if Has(c3, g) {
      HasFits(c3, g);
      OptionsIff(c4, x, f.calibrated, f.pushes, d);
    }
  }

  // --------------------------------------------------------------------- blob

  function Total(x: RawConfig): nat {
    HEADER_LEN + |Body(x)| + CHECKSUM_LEN
  }

  /** The entry count is one byte. */
  predicate Writable(x: RawConfig) {
    |x.entries| <= 0xff
  }

  function Header(x: RawConfig): (b: seq<Byte>)
    requires Writable(x)
    ensures |b| == HEADER_LEN
  {
    Magic() + [FORMAT_VERSION, Flags(x.calibration.Some?, x.pushover.Some?)] + Le(Total(x), 2) + Le(x.revision, 4)
    + [|x.entries| as Byte, 0] + Le(|x.timezone|, 2)
  }

  function Payload(x: RawConfig): seq<Byte>
    requires Writable(x)
  {
    Header(x) + Body(x)
  }

  /** The canonical blob of a configuration. */
  function Blob(x: RawConfig): seq<Byte>
    requires Writable(x)
  {
    Payload(x) + WordBytes(Crc32(Payload(x)))
  }

  /** The length written before the timezone rule is looked at. */
  function FrontLen(x: RawConfig): nat {
    HEADER_LEN + 40 + |x.token| + 8 * |x.entries|
  }

  function Encode(x: RawConfig): Result<seq<Byte>, ConfigurationError>
    requires Writable(x)
  {
    if FrontLen(x) > BLOB_MAX_LEN then Err(BlobTooLarge)
    else if x.timezone == [] then Err(InvalidTimeZoneEncoding)
    else if Total(x) > BLOB_MAX_LEN then Err(BlobTooLarge)
    else Ok(Blob(x))
  }

  function FrameOf(blob: seq<Byte>): Frame
    requires |blob| >= HEADER_LEN
  {
    Widths();
    FromLeBound(blob[8..12]);
    Frame(FromLe(blob[8..12]), blob[12] as int, FromLe(blob[14..16]),
          blob[5] & FLAG_CALIBRATION != 0, blob[5] & FLAG_PUSHOVER != 0)
  }

  /** Framing, checksum and canonical reserved bits. */
  function CheckFrame(blob: seq<Byte>): Result<(), ConfigurationError> {
    if |blob| > BLOB_MAX_LEN then Err(BlobTooLarge)
    else if |blob| < HEADER_LEN + CHECKSUM_LEN then Err(BlobLength)
    else if blob[..4] != Magic() then Err(BlobMagic)
    else if blob[4] != FORMAT_VERSION then Err(BlobVersion)
    else if FromLe(blob[6..8]) != |blob| then Err(BlobLength)
    else if Crc32(blob[..|blob| - 4]) != FromBytes(blob[|blob| - 4..]) then Err(BlobChecksum)
    else if blob[5] & UNKNOWN_FLAGS != 0 || blob[13] != 0 then Err(NonCanonical)
    else if FrameOf(blob).count > MAX_ENTRIES then Err(TooManyScheduleEntries)
    else if FrameOf(blob).zoneLen == 0 || FrameOf(blob).zoneLen > ZONE_MAX_LEN then Err(InvalidTimeZoneEncoding)
    else Ok(())
  }

  function DecodeRaw(blob: seq<Byte>): Result<RawConfig, ConfigurationError> {
    var _ :- CheckFrame(blob);
    var end := |blob| - CHECKSUM_LEN;
    var body :- GetBody(Cursor(blob[..end], HEADER_LEN), FrameOf(blob));
    if body.1.position != end then Err(NonCanonical) else Ok(body.0)
  }

  function Decode(blob: seq<Byte>, zones: Zones): Result<RawConfig, ConfigurationError> {
    var raw :- DecodeRaw(blob);
    FromRaw(raw, zones)
  }

  // ---------------------------------------------------------------- bijection

  lemma FlagsIff(flags: Byte, calibrated: bool, pushes: bool)
    ensures flags == Flags(calibrated, pushes)
      <==> && flags & UNKNOWN_FLAGS == 0
           && (flags & FLAG_CALIBRATION != 0 <==> calibrated) && (flags & FLAG_PUSHOVER != 0 <==> pushes)
  {
  }

  lemma HeaderSlices(h: seq<Byte>, m: seq<Byte>, vf: seq<Byte>, t: seq<Byte>, r: seq<Byte>, n: seq<Byte>, z: seq<Byte>)
    requires |h| == 16 && |m| == 4 && |vf| == 2 && |t| == 2 && |r| == 4 && |n| == 2 && |z| == 2
    ensures h == m + vf + t + r + n + z
      <==> && h[..4] == m && h[4] == vf[0] && h[5] == vf[1] && h[6..8] == t && h[8..12] == r
           && h[12] == n[0] && h[13] == n[1] && h[14..16] == z
  {
    if h[..4] == m && h[4] == vf[0] && h[5] == vf[1] && h[6..8] == t && h[8..12] == r
       && h[12] == n[0] && h[13] == n[1] && h[14..16] == z {
      assert h == h[..4] + [h[4], h[5]] + h[6..8] + h[8..12] + [h[12], h[13]] + h[14..16];
      assert vf == [h[4], h[5]] && n == [h[12], h[13]];
    }
  }

  lemma SliceOf(blob: seq<Byte>, i: nat, j: nat)
    requires i <= j <= 16 <= |blob|
    ensures blob[..16][i..j] == blob[i..j]
  {
  }

  /** The header's bytes, field by field. */
  lemma HeaderIff(blob: seq<Byte>, x: RawConfig)
    requires |blob| >= 16 && x.Shaped()
    ensures blob[..16] == Header(x)
      <==> && blob[..4] == Magic() && blob[4] == FORMAT_VERSION
           && blob[5] == Flags(x.calibration.Some?, x.pushover.Some?)
           && blob[6..8] == Le(Total(x), 2) && blob[8..12] == Le(x.revision, 4)
           && blob[12] == |x.entries| as Byte && blob[13] == 0
           && blob[14..16] == Le(|x.timezone|, 2)
  {
    hide Le, Flags, Total;
    HeaderSlices(blob[..16], Magic(), [FORMAT_VERSION, Flags(x.calibration.Some?, x.pushover.Some?)], Le(Total(x), 2),
                 Le(x.revision, 4), [|x.entries| as Byte, 0], Le(|x.timezone|, 2));
    SliceOf(blob, 0, 4);
    SliceOf(blob, 6, 8);
    SliceOf(blob, 8, 12);
    SliceOf(blob, 14, 16);
  }

  /** The frame a header announces is the frame of its configuration. */
  lemma FrameIff(blob: seq<Byte>, x: RawConfig)
    requires |blob| >= 16 && x.Shaped() && Total(x) <= U16_MAX
    ensures (&& blob[5] & UNKNOWN_FLAGS == 0 && Framed(x, FrameOf(blob)) && FromLe(blob[6..8]) == Total(x))
      <==> && blob[5] == Flags(x.calibration.Some?, x.pushover.Some?)
           && blob[6..8] == Le(Total(x), 2) && blob[8..12] == Le(x.revision, 4)
           && blob[12] == |x.entries| as Byte && blob[14..16] == Le(|x.timezone|, 2)
  {
    Widths();
    FlagsIff(blob[5], x.calibration.Some?, x.pushover.Some?);
    LeBijection(Total(x), blob[6..8], 2);
    LeBijection(x.revision, blob[8..12], 4);
    LeBijection(|x.timezone|, blob[14..16], 2);
    Digit(|x.entries|);
    hide Le, FromLe, Flags, Total, Pow256;
  }

  /** The body lies between the header and the checksum. */
  lemma BodyPlaces(blob: seq<Byte>, x: RawConfig)
    requires |blob| >= 20
    ensures var c := Cursor(blob[..|blob| - 4], 16);
      (Has(c, Body(x)) && Advance(c, |Body(x)|).position == |blob| - 4) <==> blob[16..|blob| - 4] == Body(x)
  {
    hide Body;
    assert blob[..|blob| - 4][16..|blob| - 4] == blob[16..|blob| - 4];
  }

  lemma BlobParts(blob: seq<Byte>, x: RawConfig)
    requires x.Shaped() && |blob| >= 20
    ensures blob == Blob(x)
      <==> && blob[..16] == Header(x) && blob[16..|blob| - 4] == Body(x)
           && FromBytes(blob[|blob| - 4..]) == Crc32(blob[..|blob| - 4])
  {
    hide Header, Body, Crc32, FromBytes, WordBytes;
    var payload, tail := blob[..|blob| - 4], blob[|blob| - 4..];
    BytesRoundTrip(tail);
    WordRoundTrip(Crc32(Payload(x)));
    assert blob == payload + tail && payload == blob[..16] + blob[16..|blob| - 4];
    if blob == Blob(x) {
      assert |blob| - 4 == |Payload(x)|;
      assert payload == Payload(x) && tail == WordBytes(Crc32(Payload(x)));
      assert payload[..16] == Header(x) && payload[16..] == Body(x);
      assert payload[..16] == blob[..16] && payload[16..] == blob[16..|blob| - 4];
    }
  }

  lemma BlobSize(x: RawConfig)
    requires x.Shaped()
    ensures |Blob(x)| == Total(x) && 20 <= Total(x) <= 525
  {
    hide Header, Crc32, WordBytes, PutCalibration, PutPushover, PutThresholds, PutTiming, PutEntries;
  }

  /** What decoding needs of a configuration besides its bytes. */
  predicate Encodable(x: RawConfig) {
    x.Shaped() && x.timezone != [] && Increasing(x.entries)
  }

  /** Header, body and checksum together, as decoding checks them. */
  ghost predicate Reads(blob: seq<Byte>, x: RawConfig) {
    && 20 <= |blob| <= BLOB_MAX_LEN
    && CheckFrame(blob).Ok? && Framed(x, FrameOf(blob))
    && var c := Cursor(blob[..|blob| - 4], 16);
       && GetBody(c, FrameOf(blob)) == Ok((x, Advance(c, |Body(x)|)))
       && Advance(c, |Body(x)|).position == |blob| - 4
  }

  /** The canonical blob passes the checks; nothing else of the same reading does. */
  lemma ReadsIff(blob: seq<Byte>, x: RawConfig)
    requires Encodable(x) && 20 <= |blob| <= BLOB_MAX_LEN
    ensures Reads(blob, x) <==> blob == Blob(x)
  {
    hide Header, Crc32, FromBytes, FromLe, Le, Flags, GetBody, Body, Blob, Increasing, Has, Total;
    BlobSize(x);
    BlobParts(blob, x);
    HeaderIff(blob, x);
    FrameIff(blob, x);
    BodyPlaces(blob, x);
    var c := Cursor(blob[..|blob| - 4], 16);
    if Framed(x, FrameOf(blob)) {
      BodyIff(c, FrameOf(blob), x, Advance(c, |Body(x)|));
    }
    BlobIsLong(x);
  }

  lemma BlobIsLong(x: RawConfig)
    requires x.Shaped()
    ensures |Blob(x)| == Total(x) == 20 + |Body(x)|
  {
    BlobSize(x);
    hide Body, Blob;
  }

  /** A blob decodes to `x` exactly when it is the canonical blob of `x`. */
  lemma DecodeRawIff(blob: seq<Byte>, x: RawConfig)
    requires Encodable(x)
    ensures DecodeRaw(blob) == Ok(x) <==> blob == Blob(x)
  {
    if blob == Blob(x) {
      BlobSize(x);
      ReadsIff(blob, x);
    } else if DecodeRaw(blob) == Ok(x) {
      DecodeRawMeans(blob, x);
      ReadsIff(blob, x);
    }
    hide GetBody, Body, Blob, Increasing, CheckFrame, FrameOf;
  }

  /** A decoded blob passed every frame check, and its body was consumed exactly. */
  lemma DecodeRawMeans(blob: seq<Byte>, x: RawConfig)
    requires Encodable(x) && DecodeRaw(blob) == Ok(x)
    ensures Reads(blob, x)
  {
    var c := Cursor(blob[..|blob| - 4], 16);
    var d := GetBody(c, FrameOf(blob)).value.1;
    BodyShape(c, FrameOf(blob));
    hide GetBody, Body, Increasing, Has, Crc32, FromBytes, FromLe;
    BodyIff(c, FrameOf(blob), x, d);
  }

  /** Whatever is read is shaped as announced. */
  lemma BodyShape(c: Cursor, f: Frame)
    requires GetBody(c, f).Ok? && f.count <= MAX_ENTRIES && 0 < f.zoneLen <= ZONE_MAX_LEN && c.position <= |c.bytes|
    ensures Encodable(GetBody(c, f).value.0)
    ensures |GetBody(c, f).value.0.entries| == f.count && |GetBody(c, f).value.0.timezone| == f.zoneLen
  {
    hide GetThresholds, GetTiming, GetEntries, GetOptions, Increasing, Has;
    var start := GetTiming(GetThresholds(c).value.1).value.1;
    var token := Span(start, TOKEN_LEN).value;
    SpanIff(start, token.0, TOKEN_LEN, token.1);
    HasFits(start, token.0);
    var entries := GetEntries(token.1, f.count).value;
    EntriesIff(token.1, f.count, entries.0, entries.1);
  }

  /** Decoding what was encoded gives the configuration back. */
  lemma EncodeDecode(x: RawConfig, zones: Zones)
    requires x.Shaped() && FromRaw(x, zones) == Ok(x)
    ensures Encode(x).Ok? && |Encode(x).value| <= BLOB_MAX_LEN
    ensures Decode(Encode(x).value, zones) == Ok(x)
  {
    FromRawIff(x, zones);
    FromRawIsCanonical(x, zones);
    BlobSize(x);
    DecodeRawIff(Blob(x), x);
    hide DecodeRaw, FromRaw, Blob;
  }

  /** Only the canonical blob of a configuration decodes to it. */
  lemma DecodeEncode(blob: seq<Byte>, zones: Zones)
    requires Decode(blob, zones).Ok?
    ensures var x := Decode(blob, zones).value;
      x.Shaped() && FromRaw(x, zones) == Ok(x) && Encode(x) == Ok(blob)
  {
    var raw := DecodeRaw(blob).value;
    var c := Cursor(blob[..|blob| - 4], 16);
    BodyShape(c, FrameOf(blob));
    FromRawIff(raw, zones);
    IncreasingIsSorted(raw.entries);
    SortKeepsSorted(raw.entries);
    DecodeRawIff(blob, raw);
    hide GetBody, CheckFrame, FromRaw, Blob;
  }

  lemma IncreasingIsSorted(es: seq<RawEntry>)
    requires Increasing(es)
    ensures SortedById(es)
  {
  }

  /** A stored configuration damaged within four consecutive bytes is never accepted. */
  lemma DamageIsRejected(x: RawConfig, blob: seq<Byte>, at: nat, zones: Zones)
    requires x.Shaped() && Encode(x).Ok? && DifferWithinWord(Encode(x).value, blob, at) && Encode(x).value != blob
    ensures Decode(blob, zones).Err?
  {
    hide Blob, Sealed, Decode;
    BlobIsSealed(x);
    BurstIsDetected(Encode(x).value, blob, at);
    if Decode(blob, zones).Ok? {
      DecodedIsSealed(blob, zones);
    }
  }

  lemma DecodedIsSealed(blob: seq<Byte>, zones: Zones)
    requires Decode(blob, zones).Ok?
    ensures Sealed(blob)
  {
    hide GetBody, FromRaw, Crc32, FromBytes, FrameOf;
  }

  lemma BlobIsSealed(x: RawConfig)
    requires x.Shaped()
    ensures Sealed(Blob(x))
  {
    hide Crc32, FromBytes, WordBytes, Payload;
    var blob := Blob(x);
    assert blob[..|blob| - 4] == Payload(x) && blob[|blob| - 4..] == WordBytes(Crc32(Payload(x)));
    WordRoundTrip(Crc32(Payload(x)));
  }
}
