/** The configuration record's fields: each reading accepts exactly what its writing produces. */
module ConfigurationFields {
  import opened Base
  import opened Crc
  import opened Bytes
  import opened ByteReader
  import opened Configuration
  import C = Calibration

  type Parsed<T> = Result<(T, Cursor), ConfigurationError>

  // ------------------------------------------------------------------ integers

  function Span(c: Cursor, n: nat): (r: Parsed<seq<Byte>>)
    ensures r.Ok? ==> r.value.1 == Advance(c, n) && |r.value.0| == n
  {
    var t := Take(c, n);
    if t.Err? then Err(BlobLength) else Ok(t.value)
  }

  function U8(c: Cursor): (r: Parsed<Byte>)
    ensures r.Ok? ==> r.value.1 == Advance(c, 1)
  {
    var t :- Span(c, 1);
    Ok((t.0[0], t.1))
  }

  function U16(c: Cursor): (r: Parsed<u16>)
    ensures r.Ok? ==> r.value.1 == Advance(c, 2)
  {
    Widths();
    var t := TakeInt(c, 2);
    if t.Err? then Err(BlobLength) else Ok((t.value.0, t.value.1))
  }

  function U32(c: Cursor): (r: Parsed<u32>)
    ensures r.Ok? ==> r.value.1 == Advance(c, 4)
  {
    Widths();
    var t := TakeInt(c, 4);
    if t.Err? then Err(BlobLength) else Ok((t.value.0, t.value.1))
  }

  function U64(c: Cursor): (r: Parsed<u64>)
    ensures r.Ok? ==> r.value.1 == Advance(c, 8)
  {
    Widths();
    var t := TakeInt(c, 8);
    if t.Err? then Err(BlobLength) else Ok((t.value.0, t.value.1))
  }

  function PutI32(x: i32): (b: seq<Byte>)
    ensures |b| == 4
  {
    Le(ToU32(x), 4)
  }

  function I32(c: Cursor): (r: Parsed<i32>)
    ensures r.Ok? ==> r.value.1 == Advance(c, 4)
  {
    var t :- U32(c);
    Ok((ToI32(t.0), t.1))
  }

  lemma SpanIff(c: Cursor, b: seq<Byte>, n: nat, d: Cursor)
    ensures Span(c, n) == Ok((b, d)) <==> |b| == n && Has(c, b) && d == Advance(c, n)
  {
    TakeIff(c, b, n, d);
  }

  lemma U8Iff(c: Cursor, x: Byte, d: Cursor)
    ensures U8(c) == Ok((x, d)) <==> Has(c, [x]) && d == Advance(c, 1)
  {
    SpanIff(c, [x], 1, d);
    if U8(c) == Ok((x, d)) {
      assert Span(c, 1).value.0 == [x];
    }
  }

  lemma U16Iff(c: Cursor, x: u16, d: Cursor)
    ensures U16(c) == Ok((x, d)) <==> Has(c, Le(x, 2)) && d == Advance(c, 2)
  {
    Widths();
    TakeIntIff(c, x, 2, d);
    hide Le, TakeInt, Pow256;
  }

  lemma U32Iff(c: Cursor, x: u32, d: Cursor)
    ensures U32(c) == Ok((x, d)) <==> Has(c, Le(x, 4)) && d == Advance(c, 4)
  {
    Widths();
    TakeIntIff(c, x, 4, d);
    hide Le, TakeInt, Pow256;
  }

  lemma U64Iff(c: Cursor, x: u64, d: Cursor)
    ensures U64(c) == Ok((x, d)) <==> Has(c, Le(x, 8)) && d == Advance(c, 8)
  {
    Widths();
    TakeIntIff(c, x, 8, d);
    hide Le, TakeInt, Pow256;
  }

  lemma I32Iff(c: Cursor, x: i32, d: Cursor)
    ensures I32(c) == Ok((x, d)) <==> Has(c, PutI32(x)) && d == Advance(c, 4)
  {
    U32Iff(c, ToU32(x), d);
    hide Le, U32;
    assert forall u: u32 :: ToI32(u) == x <==> u == ToU32(x);
  }

  // -------------------------------------------------------------- calibration

  function PutChannels(x: C.RawChannels): (b: seq<Byte>)
    ensures |b| == 8
  {
    PutI32(x.level) + PutI32(x.wetReference)
  }

  function GetChannels(c: Cursor): (r: Parsed<C.RawChannels>)
    ensures r.Ok? ==> r.value.1 == Advance(c, 8)
  {
    var level :- I32(c);
    var wetReference :- I32(level.1);
    Ok((C.Channels(level.0, wetReference.0), wetReference.1))
  }

  lemma ChannelsIff(c: Cursor, x: C.RawChannels, d: Cursor)
    ensures GetChannels(c) == Ok((x, d)) <==> Has(c, PutChannels(x)) && d == Advance(c, 8)
  {
    hide PutI32, I32, Has;
    I32Iff(c, x.level, Advance(c, 4));
    I32Iff(Advance(c, 4), x.wetReference, Advance(c, 8));
    HasConcat(c, PutI32(x.level), PutI32(x.wetReference));
  }

  function PutLimits(x: C.ChannelLimits): (b: seq<Byte>)
    ensures |b| == 12
  {
    PutI32(x.envelope.min) + PutI32(x.envelope.max) + Le(x.maxSlew, 4)
  }

  function GetLimits(c: Cursor): (r: Parsed<C.ChannelLimits>)
    ensures r.Ok? ==> r.value.1 == Advance(c, 12)
  {
    var min :- I32(c);
    var max :- I32(min.1);
    var slew :- U32(max.1);
    Ok((C.ChannelLimits(C.CountsRange(min.0, max.0), slew.0), slew.1))
  }

  lemma LimitsIff(c: Cursor, x: C.ChannelLimits, d: Cursor)
    ensures GetLimits(c) == Ok((x, d)) <==> Has(c, PutLimits(x)) && d == Advance(c, 12)
  {
    hide PutI32, I32, U32, Le, Has;
    var a, b, e := PutI32(x.envelope.min), PutI32(x.envelope.max), Le(x.maxSlew, 4);
    I32Iff(c, x.envelope.min, Advance(c, 4));
    I32Iff(Advance(c, 4), x.envelope.max, Advance(c, 8));
    U32Iff(Advance(c, 8), x.maxSlew, Advance(c, 12));
    HasConcat(c, a + b, e);
    HasConcat(c, a, b);
  }

  function PutBaselines(x: C.CalibrationData): (b: seq<Byte>)
    ensures |b| == 24
  {
    PutI32(x.levelEmpty) + PutI32(x.wetReferenceEmpty) + PutChannels(x.lowEndpoint) + PutChannels(x.highEndpoint)
  }

  datatype Baselines = Baselines(levelEmpty: i32, wetReferenceEmpty: i32, low: C.RawChannels, high: C.RawChannels)

  function GetBaselines(c: Cursor): (r: Parsed<Baselines>)
    ensures r.Ok? ==> r.value.1 == Advance(c, 24)
  {
    var levelEmpty :- I32(c);
    var wetReferenceEmpty :- I32(levelEmpty.1);
    var low :- GetChannels(wetReferenceEmpty.1);
    var high :- GetChannels(low.1);
    Ok((Baselines(levelEmpty.0, wetReferenceEmpty.0, low.0, high.0), high.1))
  }

  lemma BaselinesIff(c: Cursor, x: C.CalibrationData, d: Cursor)
    ensures GetBaselines(c) == Ok((Baselines(x.levelEmpty, x.wetReferenceEmpty, x.lowEndpoint, x.highEndpoint), d))
      <==> Has(c, PutBaselines(x)) && d == Advance(c, 24)
  {
    hide PutI32, I32, PutChannels, GetChannels, Has;
    var p, q, l, h := PutI32(x.levelEmpty), PutI32(x.wetReferenceEmpty), PutChannels(x.lowEndpoint), PutChannels(x.highEndpoint);
    I32Iff(c, x.levelEmpty, Advance(c, 4));
    I32Iff(Advance(c, 4), x.wetReferenceEmpty, Advance(c, 8));
    ChannelsIff(Advance(c, 8), x.lowEndpoint, Advance(c, 16));
    ChannelsIff(Advance(c, 16), x.highEndpoint, Advance(c, 24));
    HasConcat(c, p + q + l, h);
    HasConcat(c, p + q, l);
    HasConcat(c, p, q);
  }

  function SignByte(s: C.ReferenceSign): Byte {
    if s.Positive? then 0 else 1
  }

  function Zeros(n: nat): (b: seq<Byte>)
    ensures |b| == n && AllZero(b)
  {
    seq(n, _ => 0)
  }

  /** The sign in a word of its own, then the smallest accepted spans. */
  function PutSpans(x: C.CalibrationData): (b: seq<Byte>)
    ensures |b| == 16
  {
    [SignByte(x.referenceSign)] + Zeros(3) + Le(x.minimumReferenceSpan, 4)
    + Le(x.minimumRatioSpan.numerator, 4) + Le(x.minimumRatioSpan.denominator, 4)
  }

  datatype Spans = Spans(sign: C.ReferenceSign, reference: u32, ratio: C.MinimumRatioSpan)

  function GetSpans(c: Cursor): (r: Parsed<Spans>)
    ensures r.Ok? ==> r.value.1 == Advance(c, 16)
  {
    var sign :- U8(c);
    if sign.0 != 0 && sign.0 != 1 then Err(NonCanonical)
    else
      var padding :- Span(sign.1, 3);
      if padding.0 != Zeros(3) then Err(NonCanonical)
      else
        var reference :- U32(padding.1);
        var numerator :- U32(reference.1);
        var denominator :- U32(numerator.1);
        Ok((Spans(if sign.0 == 0 then C.Positive else C.Negative, reference.0,
                  C.MinimumRatioSpan(numerator.0, denominator.0)), denominator.1))
  }

  lemma SpansIff(c: Cursor, x: C.CalibrationData, d: Cursor)
    ensures GetSpans(c) == Ok((Spans(x.referenceSign, x.minimumReferenceSpan, x.minimumRatioSpan), d))
      <==> Has(c, PutSpans(x)) && d == Advance(c, 16)
  {
    hide U8, U32, Span, Le, Has, Zeros;
    var s, z := [SignByte(x.referenceSign)], Zeros(3);
    var a, b, e := Le(x.minimumReferenceSpan, 4), Le(x.minimumRatioSpan.numerator, 4), Le(x.minimumRatioSpan.denominator, 4);
    U8Iff(c, SignByte(x.referenceSign), Advance(c, 1));
    SpanIff(Advance(c, 1), z, 3, Advance(c, 4));
    U32Iff(Advance(c, 4), x.minimumReferenceSpan, Advance(c, 8));
    U32Iff(Advance(c, 8), x.minimumRatioSpan.numerator, Advance(c, 12));
    U32Iff(Advance(c, 12), x.minimumRatioSpan.denominator, Advance(c, 16));
    HasConcat(c, s + z + a + b, e);
    HasConcat(c, s + z + a, b);
    HasConcat(c, s + z, a);
    HasConcat(c, s, z);
  }

  /** Supported levels, frame timing and level slew. */
  function PutDomain(x: C.CalibrationData): (b: seq<Byte>)
    ensures |b| == 24
  {
    Le(x.supportedLevel.min, 2) + Le(x.supportedLevel.max, 2) + Le(x.maxFrameAgeMs, 8)
    + Le(x.maxFrameDurationMs, 8) + Le(x.maxLevelSlew, 4)
  }

  datatype Domain = Domain(levels: C.LevelDomain, ageMs: u64, durationMs: u64, slew: u32)

  function GetDomain(c: Cursor): (r: Parsed<Domain>)
    ensures r.Ok? ==> r.value.1 == Advance(c, 24)
  {
    var min :- U16(c);
    if min.0 > 1000 then Err(InvalidLevel)
    else
      var max :- U16(min.1);
      if max.0 > 1000 then Err(InvalidLevel)
      else
        var age :- U64(max.1);
        var duration :- U64(age.1);
        var slew :- U32(duration.1);
        Ok((Domain(C.LevelDomain(min.0, max.0), age.0, duration.0, slew.0), slew.1))
  }

  lemma DomainIff(c: Cursor, x: C.CalibrationData, d: Cursor)
    ensures GetDomain(c) == Ok((Domain(x.supportedLevel, x.maxFrameAgeMs, x.maxFrameDurationMs, x.maxLevelSlew), d))
      <==> Has(c, PutDomain(x)) && d == Advance(c, 24)
  {
    hide U16, U64, U32, Le, Has;
    var a, b := Le(x.supportedLevel.min, 2), Le(x.supportedLevel.max, 2);
    var e, f, g := Le(x.maxFrameAgeMs, 8), Le(x.maxFrameDurationMs, 8), Le(x.maxLevelSlew, 4);
    U16Iff(c, x.supportedLevel.min, Advance(c, 2));
    U16Iff(Advance(c, 2), x.supportedLevel.max, Advance(c, 4));
    U64Iff(Advance(c, 4), x.maxFrameAgeMs, Advance(c, 12));
    U64Iff(Advance(c, 12), x.maxFrameDurationMs, Advance(c, 20));
    U32Iff(Advance(c, 20), x.maxLevelSlew, Advance(c, 24));
    HasConcat(c, a + b + e + f, g);
    HasConcat(c, a + b + e, f);
    HasConcat(c, a + b, e);
    HasConcat(c, a, b);
  }

  function PutCalibration(x: C.CalibrationData): (b: seq<Byte>)
    ensures |b| == 88
  {
    PutBaselines(x) + PutLimits(x.channels.level) + PutLimits(x.channels.wetReference) + PutSpans(x) + PutDomain(x)
  }

  function GetCalibration(c: Cursor): (r: Parsed<C.CalibrationData>)
    ensures r.Ok? ==> r.value.1 == Advance(c, 88)
  {
    var b :- GetBaselines(c);
    var level :- GetLimits(b.1);
    var wetReference :- GetLimits(level.1);
    var s :- GetSpans(wetReference.1);
    var d :- GetDomain(s.1);
    Ok((C.CalibrationData(b.0.levelEmpty, b.0.wetReferenceEmpty, b.0.low, b.0.high,
                          C.Channels(level.0, wetReference.0), s.0.sign, s.0.reference, s.0.ratio,
                          d.0.levels, d.0.ageMs, d.0.durationMs, d.0.slew), d.1))
  }

  lemma CalibrationIff(c: Cursor, x: C.CalibrationData, d: Cursor)
    ensures GetCalibration(c) == Ok((x, d)) <==> Has(c, PutCalibration(x)) && d == Advance(c, 88)
  {
    hide GetBaselines, PutBaselines, GetLimits, PutLimits, GetSpans, PutSpans, GetDomain, PutDomain, Has;
    var a, b, e := PutBaselines(x), PutLimits(x.channels.level), PutLimits(x.channels.wetReference);
    var f, g := PutSpans(x), PutDomain(x);
    BaselinesIff(c, x, Advance(c, 24));
    LimitsIff(Advance(c, 24), x.channels.level, Advance(c, 36));
    LimitsIff(Advance(c, 36), x.channels.wetReference, Advance(c, 48));
    SpansIff(Advance(c, 48), x, Advance(c, 64));
    DomainIff(Advance(c, 64), x, Advance(c, 88));
    HasConcat(c, a + b + e + f, g);
    HasConcat(c, a + b + e, f);
    HasConcat(c, a + b, e);
    HasConcat(c, a, b);
  }

  // ------------------------------------------------------------------ entries

  function PutEntry(e: RawEntry): (b: seq<Byte>)
    ensures |b| == 8
  {
    Le(e.id, 2) + [e.dayMask] + [0] + Le(e.startSecond, 4)
  }

  /** One entry, which must come after `previous`. */
  function GetEntry(c: Cursor, previous: Option<u16>): (r: Parsed<RawEntry>)
    ensures r.Ok? ==> r.value.1 == Advance(c, 8)
  {
    var id :- U16(c);
    var mask :- U8(id.1);
    var padding :- U8(mask.1);
    if padding.0 != 0 then Err(NonCanonical)
    else
      var start :- U32(padding.1);
      if previous.Some? && id.0 <= previous.value then Err(NonCanonical)
      else Ok((RawEntry(id.0, mask.0, start.0), start.1))
  }

  lemma EntryIff(c: Cursor, previous: Option<u16>, e: RawEntry, d: Cursor)
    ensures GetEntry(c, previous) == Ok((e, d))
      <==> Has(c, PutEntry(e)) && d == Advance(c, 8) && (previous.Some? ==> previous.value < e.id)
  {
    hide U16, U8, U32, Le, Has;
    var a, b, z, s := Le(e.id, 2), [e.dayMask], [0 as Byte], Le(e.startSecond, 4);
    U16Iff(c, e.id, Advance(c, 2));
    U8Iff(Advance(c, 2), e.dayMask, Advance(c, 3));
    U8Iff(Advance(c, 3), 0, Advance(c, 4));
    U32Iff(Advance(c, 4), e.startSecond, Advance(c, 8));
    HasConcat(c, a + b + z, s);
    HasConcat(c, a + b, z);
    HasConcat(c, a, b);
  }

  function PutEntries(es: seq<RawEntry>): (b: seq<Byte>)
    ensures |b| == 8 * |es|
  {
    if es == [] then [] else PutEntries(es[..|es| - 1]) + PutEntry(es[|es| - 1])
  }

  function LastId(es: seq<RawEntry>): Option<u16> {
    if es == [] then None else Some(es[|es| - 1].id)
  }

  /** The first `n` entries, in strict order of id. */
  function GetEntries(c: Cursor, n: nat): (r: Parsed<seq<RawEntry>>)
    ensures r.Ok? ==> r.value.1 == Advance(c, 8 * n) && |r.value.0| == n
  {
    if n == 0 then Ok(([], c))
    else
      var front :- GetEntries(c, n - 1);
      var e :- GetEntry(front.1, LastId(front.0));
      Ok((front.0 + [e.0], e.1))
  }

  lemma IncreasingAppends(front: seq<RawEntry>, e: RawEntry)
    ensures Increasing(front + [e]) <==> Increasing(front) && (front == [] || front[|front| - 1].id < e.id)
  {
    var all := front + [e];
    if Increasing(all) {
      assert forall i :: 0 <= i < |front| ==> all[i] == front[i];
      assert front != [] ==> all[|front| - 1].id < all[|front|].id;
    }
  }

  lemma {:induction false} EntriesIff(c: Cursor, n: nat, es: seq<RawEntry>, d: Cursor)
    requires c.position <= |c.bytes|
    ensures GetEntries(c, n) == Ok((es, d))
      <==> |es| == n && Increasing(es) && Has(c, PutEntries(es)) && d == Advance(c, 8 * n)
  {
    hide GetEntry, PutEntry, Increasing;
    if n == 0 {
      IncreasingEmpty();
    } else if |es| == n {
      hide Has;
      var front, last := es[..n - 1], es[n - 1];
      assert es == front + [last];
      EntriesIff(c, n - 1, front, Advance(c, 8 * (n - 1)));
      EntryIff(Advance(c, 8 * (n - 1)), LastId(front), last, Advance(c, 8 * n));
      HasConcat(c, PutEntries(front), PutEntry(last));
      IncreasingAppends(front, last);
    }
  }

  lemma IncreasingEmpty()
    ensures Increasing([])
  {
  }

  // ----------------------------------------------------------------- pushover

  function PutPushover(p: Pushover): (b: seq<Byte>)
    ensures |b| == 89
  {
    p.applicationToken + p.userKey + [|p.device| as Byte] + Zeros(3) + (p.device + Zeros(DEVICE_MAX_LEN - |p.device|))
  }

  predicate Continues(b: Byte) {
    b & 0xc0 == 0x80
  }

  /** Well-formed UTF-8, as section 4 of RFC 3629 gives it. */
  predicate Utf8(b: seq<Byte>) {
    if b == [] then true
    else if b[0] < 0x80 then Utf8(b[1..])
    else if 0xc2 <= b[0] <= 0xdf then |b| >= 2 && Continues(b[1]) && Utf8(b[2..])
    else if 0xe0 <= b[0] <= 0xef then
      && |b| >= 3 && Continues(b[1]) && Continues(b[2])
      && (b[0] == 0xe0 ==> b[1] >= 0xa0) && (b[0] == 0xed ==> b[1] <= 0x9f)
      && Utf8(b[3..])
    else if 0xf0 <= b[0] <= 0xf4 then
      && |b| >= 4 && Continues(b[1]) && Continues(b[2]) && Continues(b[3])
      && (b[0] == 0xf0 ==> b[1] >= 0x90) && (b[0] == 0xf4 ==> b[1] <= 0x8f)
      && Utf8(b[4..])
    else false
  }

  lemma {:induction false} AsciiIsUtf8(b: seq<Byte>)
    requires Ascii(b)
    ensures Utf8(b)
  {
    if b != [] {
      AsciiIsUtf8(b[1..]);
    }
  }

  function CheckPushoverText(token: seq<Byte>, key: seq<Byte>, device: seq<Byte>): Result<(), ConfigurationError> {
    if !Utf8(token) then Err(InvalidPushoverField(ApplicationToken))
    else if !Utf8(key) then Err(InvalidPushoverField(UserKey))
    else if !Utf8(device) then Err(InvalidPushoverField(DeviceName))
    else Ok(())
  }

  datatype Credentials = Credentials(token: seq<Byte>, key: seq<Byte>, len: Byte, device: seq<Byte>)

  function GetCredentials(c: Cursor): (r: Parsed<Credentials>)
    ensures r.Ok? ==> r.value.1 == Advance(c, 89)
    ensures r.Ok? ==> |r.value.0.device| == DEVICE_MAX_LEN && r.value.0.len as int <= DEVICE_MAX_LEN
  {
    var token :- Span(c, KEY_LEN);
    var key :- Span(token.1, KEY_LEN);
    var len :- U8(key.1);
    var padding :- Span(len.1, 3);
    if padding.0 != Zeros(3) then Err(NonCanonical)
    else if len.0 as int > DEVICE_MAX_LEN then Err(InvalidPushoverField(DeviceName))
    else
      var device :- Span(padding.1, DEVICE_MAX_LEN);
      Ok((Credentials(token.0, key.0, len.0, device.0), device.1))
  }

  /** The credentials once their text is checked. */
  function Named(x: Credentials): Result<Pushover, ConfigurationError>
    requires |x.device| == DEVICE_MAX_LEN && x.len as int <= DEVICE_MAX_LEN
  {
    if !AllZero(x.device[x.len as int..]) then Err(NonCanonical)
    else
      var name := x.device[..x.len as int];
      var _ :- CheckPushoverText(x.token, x.key, name);
      NewPushover(x.token, x.key, name)
  }

  function GetPushover(c: Cursor): (r: Parsed<Pushover>)
    ensures r.Ok? ==> r.value.1 == Advance(c, 89)
  {
    var x :- GetCredentials(c);
    var p :- Named(x.0);
    Ok((p, x.1))
  }

  lemma PushoverIsText(p: Pushover)
    ensures CheckPushoverText(p.applicationToken, p.userKey, p.device).Ok?
  {
    AsciiIsUtf8(p.applicationToken);
    AsciiIsUtf8(p.userKey);
    AsciiIsUtf8(p.device);
  }

  lemma PaddedDevice(device: seq<Byte>, raw: seq<Byte>, len: Byte)
    requires |raw| == DEVICE_MAX_LEN && |device| <= DEVICE_MAX_LEN
    ensures raw == device + Zeros(DEVICE_MAX_LEN - |device|) && len == |device| as Byte
      <==> len as int == |device| && AllZero(raw[len as int..]) && raw[..len as int] == device
  {
    Digit(|device|);
    if len as int == |device| && AllZero(raw[len as int..]) && raw[..len as int] == device {
      assert raw == raw[..len as int] + raw[len as int..];
      assert raw[len as int..] == Zeros(DEVICE_MAX_LEN - |device|);
    }
  }

  lemma CredentialsIff(c: Cursor, x: Credentials, d: Cursor)
    requires |x.token| == KEY_LEN && |x.key| == KEY_LEN && |x.device| == DEVICE_MAX_LEN && x.len as int <= DEVICE_MAX_LEN
    ensures GetCredentials(c) == Ok((x, d))
      <==> Has(c, x.token + x.key + [x.len] + Zeros(3) + x.device) && d == Advance(c, 89)
  {
    hide U8, Span, Has, Zeros;
    var t, k, l, z, v := x.token, x.key, [x.len], Zeros(3), x.device;
    SpanIff(c, t, KEY_LEN, Advance(c, 30));
    SpanIff(Advance(c, 30), k, KEY_LEN, Advance(c, 60));
    U8Iff(Advance(c, 60), x.len, Advance(c, 61));
    SpanIff(Advance(c, 61), z, 3, Advance(c, 64));
    SpanIff(Advance(c, 64), v, DEVICE_MAX_LEN, Advance(c, 89));
    HasConcat(c, t + k + l + z, v);
    HasConcat(c, t + k + l, z);
    HasConcat(c, t + k, l);
    HasConcat(c, t, k);
  }

  function Padded(p: Pushover): Credentials {
    Credentials(p.applicationToken, p.userKey, |p.device| as Byte, p.device + Zeros(DEVICE_MAX_LEN - |p.device|))
  }

  lemma NamedIff(x: Credentials, p: Pushover)
    requires |x.device| == DEVICE_MAX_LEN && x.len as int <= DEVICE_MAX_LEN
    ensures Named(x) == Ok(p) <==> x == Padded(p)
  {
    PushoverIsText(p);
    PaddedDevice(p.device, x.device, x.len);
    hide Utf8, Zeros, AllZero;
  }

  lemma PushoverIff(c: Cursor, p: Pushover, d: Cursor)
    ensures GetPushover(c) == Ok((p, d)) <==> Has(c, PutPushover(p)) && d == Advance(c, 89)
  {
    Digit(|p.device|);
    CredentialsIff(c, Padded(p), d);
    NamedIff(Padded(p), p);
    hide Has, Named, Zeros;
    var x := GetCredentials(c);
    if x.Ok? {
      NamedIff(x.value.0, p);
    }
    hide GetCredentials;
  }
}
