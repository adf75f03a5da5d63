/** Where every field of the two stored records lies, byte by byte. */
module RecordLayout {
  import opened Base
  import opened Bytes
  import opened Crc
  import C = Calibration
  import CC = ConfigurationCodec
  import CF = ConfigurationFields
  import Configuration
  import R = Retained
  import RC = RetainedCodec

  /** The bytes from `at` on are `field`. */
  predicate At(b: seq<Byte>, at: nat, field: seq<Byte>) {
    at + |field| <= |b| && b[at..at + |field|] == field
  }

  lemma Split(b: seq<Byte>, at: nat, x: seq<Byte>, y: seq<Byte>)
    requires At(b, at, x + y)
    ensures At(b, at, x) && At(b, at + |x|, y)
  {
    var whole := b[at..at + |x + y|];
    assert whole[..|x|] == x && whole[|x|..] == y;
    assert b[at..at + |x|] == whole[..|x|] && b[at + |x|..at + |x| + |y|] == whole[|x|..];
  }

  // ----------------------------------------------------------------- retained

  /**
   The retained record: "CSRT", version 1, three flag bits, the length 32, then revision,
   window id and window end, all little-endian and zero without a window, and the checksum
   of the first 28 bytes.
   */
  lemma RetainedLayout(s: R.RetainedState)
    requires RC.Encode(s).Ok?
    ensures var b := RC.Encode(s).value;
      && |b| == 32
      && At(b, 0, [0x43, 0x53, 0x52, 0x54, 1])
      && b[5] & 0xf8 == 0
      && (b[5] & 1 != 0 <==> s.maintenance)
      && (b[5] & 2 != 0 <==> s.window.Some?)
      && (b[5] & 4 != 0 <==> s.window.Some? && s.window.value.disposition == R.Suppressed)
      && At(b, 6, [32, 0])
      && At(b, 8, Le(s.configRevision, 4))
      && At(b, 12, Le(if s.window.Some? then s.window.value.id else 0, 8))
      && At(b, 20, Le(if s.window.Some? then s.window.value.endsUtc else 0, 8))
      && At(b, 28, WordBytes(Crc32(b[..28])))
  {
    hide RC.Payload, RC.Flags, Le, Crc32, WordBytes;
    var b := RC.Encode(s).value;
    assert b[..28] == RC.Payload(s) && b[28..] == WordBytes(Crc32(RC.Payload(s)));
    RC.PayloadFields(s, b);
    FlagBits(s);
    assert b[..5] == b[..4] + [b[4]];
    TwoBytes(32);
  }

  lemma FlagBits(s: R.RetainedState)
    ensures var f := RC.Flags(s);
      && f & 0xf8 == 0
      && (f & 1 != 0 <==> s.maintenance)
      && (f & 2 != 0 <==> s.window.Some?)
      && (f & 4 != 0 <==> s.window.Some? && s.window.value.disposition == R.Suppressed)
  {
  }

  lemma TwoBytes(n: nat)
    requires n < 256
    ensures Le(n, 2) == [n as bv8, 0]
  {
    assert Le(n / 256, 1) == [0] + Le(0, 0);
  }

  // ------------------------------------------------------------ configuration

  /** A signed word in two's complement. */
  function Signed(x: i32): seq<Byte> {
    Le(if x < 0 then 0x1_0000_0000 + x else x, 4)
  }

  predicate ThresholdsAt(b: seq<Byte>, at: nat, x: Configuration.RawConfig) {
    && At(b, at, Le(x.duration, 4))
    && At(b, at + 4, Le(x.stop, 2))
    && At(b, at + 6, Le(x.restart, 2))
    && At(b, at + 8, Le(x.maxSampleAgeMs, 8))
    && At(b, at + 16, Le(x.timing.lowConfirmationMs, 8))
    && At(b, at + 24, Le(x.timing.recoveryMs, 8))
    && At(b, at + 32, Le(x.timing.minimumOffMs, 8))
  }

  predicate EntryAt(b: seq<Byte>, at: nat, e: Configuration.RawEntry) {
    && At(b, at, Le(e.id, 2)) && At(b, at + 2, [e.dayMask, 0]) && At(b, at + 4, Le(e.startSecond, 4))
  }

  predicate LimitsAt(b: seq<Byte>, at: nat, x: C.ChannelLimits) {
    && At(b, at, Signed(x.envelope.min)) && At(b, at + 4, Signed(x.envelope.max)) && At(b, at + 8, Le(x.maxSlew, 4))
  }

  predicate CalibrationAt(b: seq<Byte>, at: nat, x: C.CalibrationData) {
    && At(b, at, Signed(x.levelEmpty)) && At(b, at + 4, Signed(x.wetReferenceEmpty))
    && At(b, at + 8, Signed(x.lowEndpoint.level)) && At(b, at + 12, Signed(x.lowEndpoint.wetReference))
    && At(b, at + 16, Signed(x.highEndpoint.level)) && At(b, at + 20, Signed(x.highEndpoint.wetReference))
    && LimitsAt(b, at + 24, x.channels.level) && LimitsAt(b, at + 36, x.channels.wetReference)
    && At(b, at + 48, [if x.referenceSign.Positive? then 0 else 1, 0, 0, 0])
    && At(b, at + 52, Le(x.minimumReferenceSpan, 4))
    && At(b, at + 56, Le(x.minimumRatioSpan.numerator, 4)) && At(b, at + 60, Le(x.minimumRatioSpan.denominator, 4))
    && At(b, at + 64, Le(x.supportedLevel.min, 2)) && At(b, at + 66, Le(x.supportedLevel.max, 2))
    && At(b, at + 68, Le(x.maxFrameAgeMs, 8)) && At(b, at + 76, Le(x.maxFrameDurationMs, 8))
    && At(b, at + 84, Le(x.maxLevelSlew, 4))
  }

  /** Credentials, with the device name padded by zeros to 25 bytes. */
  predicate PushoverAt(b: seq<Byte>, at: nat, p: Configuration.Pushover) {
    && At(b, at, p.applicationToken) && At(b, at + 30, p.userKey)
    && At(b, at + 60, [|p.device| as Byte, 0, 0, 0]) && At(b, at + 64, p.device)
    && at + 89 <= |b| && forall k :: at + 64 + |p.device| <= k < at + 89 ==> b[k] == 0
  }

  lemma ThresholdsLie(b: seq<Byte>, at: nat, x: Configuration.RawConfig)
    requires At(b, at, CC.PutSettings(x))
    ensures ThresholdsAt(b, at, x)
  {
    hide Le, At;
    var t := x.timing;
    var l, r, m := Le(t.lowConfirmationMs, 8), Le(t.recoveryMs, 8), Le(t.minimumOffMs, 8);
    var d, s, w, a := Le(x.duration, 4), Le(x.stop, 2), Le(x.restart, 2), Le(x.maxSampleAgeMs, 8);
    Split(b, at, d + s + w + a, l + r + m);
    Split(b, at, d + s + w, a);
    Split(b, at, d + s, w);
    Split(b, at, d, s);
    Split(b, at + 16, l + r, m);
    Split(b, at + 16, l, r);
  }

  lemma EntryLies(b: seq<Byte>, at: nat, e: Configuration.RawEntry)
    requires At(b, at, CF.PutEntry(e))
    ensures EntryAt(b, at, e)
  {
    hide Le, At;
    var i, s := Le(e.id, 2), Le(e.startSecond, 4);
    assert i + [e.dayMask] + [0] == i + [e.dayMask, 0];
    Split(b, at, i + [e.dayMask, 0], s);
    Split(b, at, i, [e.dayMask, 0]);
  }

  lemma {:induction false} EntriesLie(b: seq<Byte>, at: nat, es: seq<Configuration.RawEntry>)
    requires At(b, at, CF.PutEntries(es))
    ensures forall k :: 0 <= k < |es| ==> EntryAt(b, at + 8 * k, es[k])
  {
    hide At, EntryAt, CF.PutEntry;
    if es != [] {
      var front, e := es[..|es| - 1], es[|es| - 1];
      Split(b, at, CF.PutEntries(front), CF.PutEntry(e));
      EntriesLie(b, at, front);
      EntryLies(b, at + 8 * |front|, e);
    }
  }

  lemma LimitsLie(b: seq<Byte>, at: nat, x: C.ChannelLimits)
    requires At(b, at, CF.PutLimits(x))
    ensures LimitsAt(b, at, x)
  {
    hide Le, At;
    var a, e := Signed(x.envelope.min), Signed(x.envelope.max);
    Split(b, at, a + e, Le(x.maxSlew, 4));
    Split(b, at, a, e);
  }

  lemma BaselinesLie(b: seq<Byte>, at: nat, x: C.CalibrationData)
    requires At(b, at, CF.PutBaselines(x))
    ensures At(b, at, Signed(x.levelEmpty)) && At(b, at + 4, Signed(x.wetReferenceEmpty))
    ensures At(b, at + 8, Signed(x.lowEndpoint.level)) && At(b, at + 12, Signed(x.lowEndpoint.wetReference))
    ensures At(b, at + 16, Signed(x.highEndpoint.level)) && At(b, at + 20, Signed(x.highEndpoint.wetReference))
  {
    hide Le, At;
    var l, w := Signed(x.levelEmpty), Signed(x.wetReferenceEmpty);
    var ll, lw := Signed(x.lowEndpoint.level), Signed(x.lowEndpoint.wetReference);
    var hl, hw := Signed(x.highEndpoint.level), Signed(x.highEndpoint.wetReference);
    Split(b, at, l + w + (ll + lw), hl + hw);
    Split(b, at, l + w, ll + lw);
    Split(b, at, l, w);
    Split(b, at + 8, ll, lw);
    Split(b, at + 16, hl, hw);
  }

  lemma SpansLie(b: seq<Byte>, at: nat, x: C.CalibrationData)
    requires At(b, at, CF.PutSpans(x))
    ensures At(b, at, [if x.referenceSign.Positive? then 0 else 1, 0, 0, 0])
    ensures At(b, at + 4, Le(x.minimumReferenceSpan, 4))
    ensures At(b, at + 8, Le(x.minimumRatioSpan.numerator, 4)) && At(b, at + 12, Le(x.minimumRatioSpan.denominator, 4))
  {
    hide Le, At;
    var s: seq<Byte> := [if x.referenceSign.Positive? then 0 else 1, 0, 0, 0];
    assert [CF.SignByte(x.referenceSign)] + CF.Zeros(3) == s;
    var r, n, d := Le(x.minimumReferenceSpan, 4), Le(x.minimumRatioSpan.numerator, 4), Le(x.minimumRatioSpan.denominator, 4);
    Split(b, at, s + r + n, d);
    Split(b, at, s + r, n);
    Split(b, at, s, r);
  }

  lemma DomainLies(b: seq<Byte>, at: nat, x: C.CalibrationData)
    requires At(b, at, CF.PutDomain(x))
    ensures At(b, at, Le(x.supportedLevel.min, 2)) && At(b, at + 2, Le(x.supportedLevel.max, 2))
    ensures At(b, at + 4, Le(x.maxFrameAgeMs, 8)) && At(b, at + 12, Le(x.maxFrameDurationMs, 8))
    ensures At(b, at + 20, Le(x.maxLevelSlew, 4))
  {
    hide Le, At;
    var l, h, a, d, s := Le(x.supportedLevel.min, 2), Le(x.supportedLevel.max, 2), Le(x.maxFrameAgeMs, 8),
                         Le(x.maxFrameDurationMs, 8), Le(x.maxLevelSlew, 4);
    Split(b, at, l + h + a + d, s);
    Split(b, at, l + h + a, d);
    Split(b, at, l + h, a);
    Split(b, at, l, h);
  }

  lemma CalibrationLies(b: seq<Byte>, at: nat, x: C.CalibrationData)
    requires At(b, at, CF.PutCalibration(x))
    ensures CalibrationAt(b, at, x)
  {
    hide Le, At, Signed, LimitsAt, CF.PutBaselines, CF.PutLimits, CF.PutSpans, CF.PutDomain;
    var a, l, w, s, d := CF.PutBaselines(x), CF.PutLimits(x.channels.level), CF.PutLimits(x.channels.wetReference),
                         CF.PutSpans(x), CF.PutDomain(x);
    Split(b, at, a + l + w + s, d);
    Split(b, at, a + l + w, s);
    Split(b, at, a + l, w);
    Split(b, at, a, l);
    BaselinesLie(b, at, x);
    LimitsLie(b, at + 24, x.channels.level);
    LimitsLie(b, at + 36, x.channels.wetReference);
    SpansLie(b, at + 48, x);
    DomainLies(b, at + 64, x);
  }

  lemma PushoverLies(b: seq<Byte>, at: nat, p: Configuration.Pushover)
    requires At(b, at, CF.PutPushover(p))
    ensures PushoverAt(b, at, p)
  {
    hide At, CF.Zeros;
    var t, u, d, z := p.applicationToken, p.userKey, p.device, CF.Zeros(25 - |p.device|);
    var n: seq<Byte> := [|d| as Byte, 0, 0, 0];
    PaddingAfter(|d| as Byte, t + u);
    Split(b, at, t + u + n, d + z);
    Split(b, at, t + u, n);
    Split(b, at, t, u);
    Split(b, at + 64, d, z);
    ZerosLie(b, at + 64 + |d|, 25 - |d|);
  }

  lemma PaddingAfter(length: Byte, front: seq<Byte>)
    ensures front + [length] + CF.Zeros(3) == front + [length, 0, 0, 0]
  {
  }

  lemma ZerosLie(b: seq<Byte>, at: nat, n: nat)
    requires At(b, at, CF.Zeros(n))
    ensures at + n <= |b| && forall k :: at <= k < at + n ==> b[k] == 0
  {
    forall k | at <= k < at + n
      ensures b[k] == 0
    {
      assert b[at..at + n][k - at] == b[k];
    }
  }

  lemma ConfigurationFlagBits(x: Configuration.RawConfig)
    ensures var f := CC.Flags(x.calibration.Some?, x.pushover.Some?);
      f & 0xfc == 0 && (f & 1 != 0 <==> x.calibration.Some?) && (f & 2 != 0 <==> x.pushover.Some?)
  {
  }

  lemma EncodedParts(x: Configuration.RawConfig)
    requires x.Shaped() && CC.Encode(x).Ok?
    ensures var b := CC.Encode(x).value;
      && |b| == 20 + |CC.Body(x)|
      && b[..16] == CC.Header(x) && At(b, 16, CC.Body(x)) && At(b, |b| - 4, WordBytes(Crc32(b[..|b| - 4])))
  {
    hide CC.Header, CC.Body, Crc32, WordBytes, FromBytes;
    CC.BlobIsLong(x);
    var b := CC.Encode(x).value;
    CC.BlobParts(b, x);
    BytesRoundTrip(b[|b| - 4..]);
  }

  lemma HeaderLies(b: seq<Byte>, x: Configuration.RawConfig)
    requires x.Shaped() && |b| == 20 + |CC.Body(x)| && b[..16] == CC.Header(x)
    ensures At(b, 0, [0x43, 0x53, 0x43, 0x46, 2])
    ensures b[5] & 0xfc == 0 && (b[5] & 1 != 0 <==> x.calibration.Some?) && (b[5] & 2 != 0 <==> x.pushover.Some?)
    ensures At(b, 6, Le(|b|, 2)) && At(b, 8, Le(x.revision, 4))
    ensures At(b, 12, [|x.entries| as Byte, 0]) && At(b, 14, Le(|x.timezone|, 2))
  {
    hide CC.Header, CC.Flags, CC.Body, Le;
    CC.HeaderIff(b, x);
    ConfigurationFlagBits(x);
    assert b[..5] == b[..4] + [b[4]] && b[12..14] == [b[12], b[13]];
  }

  lemma BodyLies(b: seq<Byte>, x: Configuration.RawConfig)
    requires |x.token| == 32 && At(b, 16, CC.Body(x))
    ensures var zone := 88 + 8 * |x.entries|;
      var calibration := zone + |x.timezone|;
      var pushover := calibration + if x.calibration.Some? then 88 else 0;
      && |CC.Body(x)| == pushover + (if x.pushover.Some? then 89 else 0) - 16
      && ThresholdsAt(b, 16, x)
      && At(b, 56, x.token)
      && (forall k :: 0 <= k < |x.entries| ==> EntryAt(b, 88 + 8 * k, x.entries[k]))
      && At(b, zone, x.timezone)
      && (x.calibration.Some? ==> CalibrationAt(b, calibration, x.calibration.value))
      && (x.pushover.Some? ==> PushoverAt(b, pushover, x.pushover.value))
  {
    hide At, ThresholdsAt, EntryAt, CalibrationAt, PushoverAt, CC.PutSettings, CF.PutEntries, CF.PutCalibration, CF.PutPushover;
    var s, t, es, z := CC.PutSettings(x), x.token, CF.PutEntries(x.entries), x.timezone;
    var c, p := CC.PutMaybeCalibration(x.calibration), CC.PutMaybePushover(x.pushover);
    Split(b, 16, s + t + es + z, c + p);
    Split(b, 16, s + t + es, z);
    Split(b, 16, s + t, es);
    Split(b, 16, s, t);
    var zone := 88 + 8 * |x.entries|;
    Split(b, zone + |z|, c, p);
    ThresholdsLie(b, 16, x);
    EntriesLie(b, 88, x.entries);
    if x.calibration.Some? {
      CalibrationLies(b, zone + |z|, x.calibration.value);
    }
    if x.pushover.Some? {
      PushoverLies(b, zone + |z| + |c|, x.pushover.value);
    }
  }

  /**
   The configuration record: a 16-byte header of "CSCF", version 2, two flag bits, the whole
   length, the revision, the number of entries, a zero and the length of the timezone rule;
   then thresholds, token, entries of 8 bytes, the rule, 88 bytes of calibration and 89 of
   credentials where their flags are set, and the checksum of everything before it.
   */
  lemma ConfigurationLayout(x: Configuration.RawConfig)
    requires x.Shaped() && CC.Encode(x).Ok?
    ensures var b := CC.Encode(x).value;
      var zone := 88 + 8 * |x.entries|;
      var calibration := zone + |x.timezone|;
      var pushover := calibration + if x.calibration.Some? then 88 else 0;
      var end := pushover + if x.pushover.Some? then 89 else 0;
      && |b| == end + 4
      && At(b, 0, [0x43, 0x53, 0x43, 0x46, 2])
      && b[5] & 0xfc == 0 && (b[5] & 1 != 0 <==> x.calibration.Some?) && (b[5] & 2 != 0 <==> x.pushover.Some?)
      && At(b, 6, Le(end + 4, 2)) && At(b, 8, Le(x.revision, 4))
      && At(b, 12, [|x.entries| as Byte, 0]) && At(b, 14, Le(|x.timezone|, 2))
      && ThresholdsAt(b, 16, x)
      && At(b, 56, x.token)
      && (forall k :: 0 <= k < |x.entries| ==> EntryAt(b, 88 + 8 * k, x.entries[k]))
      && At(b, zone, x.timezone)
      && (x.calibration.Some? ==> CalibrationAt(b, calibration, x.calibration.value))
      && (x.pushover.Some? ==> PushoverAt(b, pushover, x.pushover.value))
      && At(b, end, WordBytes(Crc32(b[..end])))
  {
    var b := CC.Encode(x).value;
    EncodedParts(x);
    hide *;
    HeaderLies(b, x);
    BodyLies(b, x);
  }
}
