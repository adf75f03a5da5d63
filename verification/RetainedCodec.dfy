/** The 32-byte canonical record of the retained safety state. */
module RetainedCodec {
  import opened Base
  import opened Retained
  import opened Crc
  import opened Bytes

  const BLOB_LEN: nat := 32
  const VERSION: Byte := 1
  const FLAG_MAINTENANCE: Byte := 1
  const FLAG_WINDOW: Byte := 2
  const FLAG_SUPPRESSED: Byte := 4
  const UNKNOWN_FLAGS: Byte := 0xf8

  function Magic(): seq<Byte> {
    [0x43, 0x53, 0x52, 0x54]
  }

  function Flags(s: RetainedState): Byte {
    (if s.maintenance then FLAG_MAINTENANCE else 0)
    | (if s.window.None? then 0
       else if s.window.value.disposition == Suppressed then FLAG_WINDOW | FLAG_SUPPRESSED
       else FLAG_WINDOW)
  }

  /** Everything the checksum covers. */
  function Payload(s: RetainedState): (b: seq<Byte>)
    ensures |b| == 28
  {
    Magic() + [VERSION, Flags(s)] + Le(BLOB_LEN, 2) + Le(s.configRevision, 4)
    + (if s.window.Some? then Le(s.window.value.id, 8) + Le(s.window.value.endsUtc, 8) else Le(0, 8) + Le(0, 8))
  }

  function Encode(s: RetainedState): Result<seq<Byte>, RetainedError> {
    var checked := CheckState(s);
    if checked.Err? then Err(checked.error) else Ok(Payload(s) + WordBytes(Crc32(Payload(s))))
  }

  /** The fields of a blob whose framing and checksum were accepted. */
  function Fields(flags: Byte, revision: u32, id: u64, ends: u64): Result<RetainedState, RetainedError> {
    if flags & FLAG_WINDOW == 0 && (id != 0 || ends != 0) then Err(NonCanonical)
    else
      var window :=
        if flags & FLAG_WINDOW == 0 then None
        else Some(RetainedWindow(id, ends, if flags & FLAG_SUPPRESSED != 0 then Suppressed else Eligible));
      var state := RetainedState(revision, flags & FLAG_MAINTENANCE != 0, window);
      var checked := CheckState(state);
      if checked.Err? then Err(checked.error) else Ok(state)
  }

  predicate KnownFlags(flags: Byte) {
    flags & UNKNOWN_FLAGS == 0 && (flags & FLAG_SUPPRESSED != 0 ==> flags & FLAG_WINDOW != 0)
  }

  lemma FieldWidths(blob: seq<Byte>)
    requires |blob| == BLOB_LEN
    ensures FromLe(blob[8..12]) <= U32_MAX && FromLe(blob[12..20]) <= U64_MAX && FromLe(blob[20..28]) <= U64_MAX
  {
    Widths();
    FromLeBound(blob[8..12]);
    FromLeBound(blob[12..20]);
    FromLeBound(blob[20..28]);
  }

  function Decode(blob: seq<Byte>): Result<RetainedState, RetainedError> {
    if |blob| != BLOB_LEN then Err(Length)
    else if blob[..4] != Magic() then Err(RetainedError.Magic)
    else if blob[4] != VERSION then Err(Version)
    else if !KnownFlags(blob[5]) then Err(RetainedError.Flags)
    else if FromLe(blob[6..8]) != BLOB_LEN then Err(Length)
    else if Crc32(blob[..28]) != FromBytes(blob[28..]) then Err(Checksum)
    else
      FieldWidths(blob);
      Fields(blob[5], FromLe(blob[8..12]), FromLe(blob[12..20]), FromLe(blob[20..28]))
  }

  // ------------------------------------------------------------ in-place forms

  function Placed(blob: seq<Byte>, at: nat, bytes: seq<Byte>): (r: seq<Byte>)
    requires at + |bytes| <= |blob|
    ensures |r| == |blob|
  {
    blob[..at] + bytes + blob[at + |bytes|..]
  }

  /** Copies `bytes` over the blob from `at`. */
  method Place(blob: array<Byte>, at: nat, bytes: seq<Byte>)
    requires at + |bytes| <= blob.Length
    modifies blob
    ensures blob[..] == Placed(old(blob[..]), at, bytes)
  {
    for i := 0 to |bytes|
      invariant forall k :: 0 <= k < at ==> blob[k] == old(blob[k])
      invariant forall k :: at + |bytes| <= k < blob.Length ==> blob[k] == old(blob[k])
      invariant forall k :: 0 <= k < i ==> blob[at + k] == bytes[k]
    {
      blob[at + i] := bytes[i];
    }
  }

  method EncodeBlob(s: RetainedState) returns (r: Result<array<Byte>, RetainedError>)
    ensures r.Ok? ==> fresh(r.value)
    ensures Encode(s) == if r.Ok? then Ok(r.value[..]) else Err(r.error)
  {
    hide Le, FromLe, Payload;
    var checked := CheckState(s);
    if checked.Err? {
      return Err(checked.error);
    }
    var blob := new Byte[BLOB_LEN](_ => 0);
    FillPayload(blob, s);
    var checksum := ComputeCrc32(blob[..28]);
    ghost var filled := blob[..];
    Place(blob, 28, WordBytes(checksum));
    assert filled[..28] == Payload(s) && filled[32..] == [];
    assert blob[..] == Payload(s) + WordBytes(checksum);
    return Ok(blob);
  }

  method FillPayload(blob: array<Byte>, s: RetainedState)
    requires blob.Length == BLOB_LEN && forall k :: 0 <= k < BLOB_LEN ==> blob[k] == 0
    modifies blob
    ensures blob[..28] == Payload(s)
  {
    hide Le, FromLe, Payload, Placed;
    ghost var zero := blob[..];
    Place(blob, 0, Magic());
    Place(blob, 4, [VERSION]);
    var flags: Byte := if s.maintenance then FLAG_MAINTENANCE else 0;
    Place(blob, 6, Le(BLOB_LEN, 2));
    Place(blob, 8, Le(s.configRevision, 4));
    ghost var front := blob[..];
    if s.window.Some? {
      var window := s.window.value;
      flags := flags | FLAG_WINDOW;
      if window.disposition == Suppressed {
        flags := flags | FLAG_SUPPRESSED;
      }
      Place(blob, 12, Le(window.id, 8));
      Place(blob, 20, Le(window.endsUtc, 8));
    }
    Place(blob, 5, [flags]);
    assert flags == Flags(s);
    hide Flags;
    Front(zero, s.configRevision);
    Assembled(front, s, flags);
  }

  lemma Front(zero: seq<Byte>, revision: u32)
    requires |zero| == BLOB_LEN && forall k :: 0 <= k < BLOB_LEN ==> zero[k] == 0
    ensures var front := Placed(Placed(Placed(Placed(zero, 0, Magic()), 4, [VERSION]), 6, Le(BLOB_LEN, 2)), 8, Le(revision, 4));
      && |front| == BLOB_LEN
      && front[..12] == Magic() + [VERSION, 0] + Le(BLOB_LEN, 2) + Le(revision, 4)
      && front[12..28] == Le(0, 8) + Le(0, 8)
  {
    hide Le;
    ZeroBytes(8);
    var a := Placed(zero, 0, Magic());
    var b := Placed(a, 4, [VERSION]);
    var c := Placed(b, 6, Le(BLOB_LEN, 2));
    var front := Placed(c, 8, Le(revision, 4));
    assert a[12..] == zero[12..] && b[12..] == a[12..] && c[12..] == b[12..] && front[12..] == c[12..];
    assert front[12..28] == front[12..][..16] && zero[12..28] == zero[12..][..16];
    assert zero[12..28] == seq(8, _ => 0) + seq(8, _ => 0);
  }

  lemma Assembled(front: seq<Byte>, s: RetainedState, flags: Byte)
    requires |front| == BLOB_LEN && flags == Flags(s)
    requires front[..12] == Magic() + [VERSION, 0] + Le(BLOB_LEN, 2) + Le(s.configRevision, 4)
    requires front[12..28] == Le(0, 8) + Le(0, 8)
    ensures var full := if s.window.None? then front
                        else Placed(Placed(front, 12, Le(s.window.value.id, 8)), 20, Le(s.window.value.endsUtc, 8));
      Placed(full, 5, [flags])[..28] == Payload(s)
  {
    hide Le, Flags;
    var full := if s.window.None? then front
                else Placed(Placed(front, 12, Le(s.window.value.id, 8)), 20, Le(s.window.value.endsUtc, 8));
    var head := Magic() + [VERSION, 0] + Le(BLOB_LEN, 2) + Le(s.configRevision, 4);
    assert full[..12] == head;
    assert s.window.Some? ==> full[12..28] == Le(s.window.value.id, 8) + Le(s.window.value.endsUtc, 8);
    assert head[..5] == Magic() + [VERSION] && head[6..] == Le(BLOB_LEN, 2) + Le(s.configRevision, 4);
    assert full[..5] == head[..5] && full[6..12] == head[6..];
    assert Placed(full, 5, [flags])[..28] == full[..5] + [flags] + full[6..12] + full[12..28];
  }

  lemma {:induction false} ZeroBytes(k: nat)
    ensures Le(0, k) == seq(k, _ => 0)
  {
    if k > 0 {
      ZeroBytes(k - 1);
    }
  }

  // ---------------------------------------------------------------- bijection

  lemma Slices(a: seq<Byte>, b: seq<Byte>, c: seq<Byte>, d: seq<Byte>, e: seq<Byte>, f: seq<Byte>)
    requires |a| == 4 && |b| == 2 && |c| == 2 && |d| == 4 && |e| == 8 && |f| == 8
    ensures var p := a + b + c + d + (e + f);
      && |p| == 28 && p[..4] == a && p[4] == b[0] && p[5] == b[1] && p[6..8] == c && p[8..12] == d
      && p[12..20] == e && p[20..28] == f
  {
  }

  /** Where the payload's fields lie. */
  lemma PayloadFields(s: RetainedState, blob: seq<Byte>)
    requires |blob| == BLOB_LEN && blob[..28] == Payload(s)
    ensures blob[..4] == Magic() && blob[4] == VERSION && blob[5] == Flags(s)
    ensures blob[6..8] == Le(BLOB_LEN, 2) && blob[8..12] == Le(s.configRevision, 4)
    ensures s.window.Some? ==> blob[12..20] == Le(s.window.value.id, 8) && blob[20..28] == Le(s.window.value.endsUtc, 8)
    ensures s.window.None? ==> blob[12..20] == Le(0, 8) && blob[20..28] == Le(0, 8)
  {
    hide Le, Flags;
    var p := Payload(s);
    var (e, f) := if s.window.Some? then (Le(s.window.value.id, 8), Le(s.window.value.endsUtc, 8)) else (Le(0, 8), Le(0, 8));
    Slices(Magic(), [VERSION, Flags(s)], Le(BLOB_LEN, 2), Le(s.configRevision, 4), e, f);
    SliceOfPrefix(blob, p, 0, 4);
    SliceOfPrefix(blob, p, 6, 8);
    SliceOfPrefix(blob, p, 8, 12);
    SliceOfPrefix(blob, p, 12, 20);
    SliceOfPrefix(blob, p, 20, 28);
    assert blob[4] == p[4] && blob[5] == p[5];
  }

  lemma SliceOfPrefix(blob: seq<Byte>, p: seq<Byte>, i: nat, j: nat)
    requires i <= j <= |p| <= |blob| && blob[..|p|] == p
    ensures blob[i..j] == p[i..j]
  {
    assert blob[..|p|][i..j] == blob[i..j];
  }

  lemma FlagsMeaning(s: RetainedState)
    ensures KnownFlags(Flags(s))
    ensures Flags(s) & FLAG_MAINTENANCE != 0 <==> s.maintenance
    ensures Flags(s) & FLAG_WINDOW != 0 <==> s.window.Some?
    ensures s.window.Some? ==> (Flags(s) & FLAG_SUPPRESSED != 0 <==> s.window.value.disposition == Suppressed)
  {
  }

  /** Decoding what was encoded gives it back. */
  lemma EncodeDecode(s: RetainedState)
    requires Encode(s).Ok?
    ensures Decode(Encode(s).value) == Ok(s)
  {
    var blob := Encode(s).value;
    assert blob[..28] == Payload(s) && blob[28..] == WordBytes(Crc32(Payload(s)));
    WordRoundTrip(Crc32(Payload(s)));
    PayloadFields(s, blob);
    FlagsMeaning(s);
    Widths();
    LeRoundTrip(BLOB_LEN, 2);
    LeRoundTrip(s.configRevision, 4);
    LeRoundTrip(0, 8);
    if s.window.Some? {
      LeRoundTrip(s.window.value.id, 8);
      LeRoundTrip(s.window.value.endsUtc, 8);
    }
    hide Flags, Le, FromLe, Crc32, FromBytes, WordBytes, Payload, Pow256;
  }

  lemma FlagsDetermined(flags: Byte, s: RetainedState)
    requires KnownFlags(flags)
    requires flags & FLAG_MAINTENANCE != 0 <==> s.maintenance
    requires flags & FLAG_WINDOW != 0 <==> s.window.Some?
    requires s.window.Some? ==> (flags & FLAG_SUPPRESSED != 0 <==> s.window.value.disposition == Suppressed)
    ensures flags == Flags(s)
  {
  }

  /** Only the canonical blob of a state decodes to it. */
  lemma DecodeEncode(blob: seq<Byte>)
    requires Decode(blob).Ok?
    ensures Encode(Decode(blob).value) == Ok(blob)
  {
    hide Flags, Le, FromLe, Crc32, FromBytes, WordBytes, KnownFlags;
    FieldWidths(blob);
    var s := Decode(blob).value;
    FlagsDetermined(blob[5], s);
    FromLeRoundTrip(blob[6..8]);
    FromLeRoundTrip(blob[8..12]);
    FromLeRoundTrip(blob[12..20]);
    FromLeRoundTrip(blob[20..28]);
    BytesRoundTrip(blob[28..]);
    assert blob[..28] == blob[..4] + [blob[4], blob[5]] + blob[6..8] + blob[8..12] + (blob[12..20] + blob[20..28]);
    assert blob == blob[..28] + blob[28..];
  }

  // ---------------------------------------------------------------- corruption

  /** The boot rules over the stored bytes. */
  function LoadRetained(blob: Option<seq<Byte>>, lifecycle: Lifecycle): Result<Option<Loaded>, RetainedError> {
    LoadSlot(if blob.Some? then Some(Decode(blob.value)) else None, lifecycle)
  }

  lemma DecodedIsSealed(blob: seq<Byte>)
    requires Decode(blob).Ok?
    ensures |blob| == BLOB_LEN && Sealed(blob)
  {
    hide Crc32, FromBytes, FromLe, Fields;
    assert blob[28..] == blob[|blob| - 4..];
  }

  /** A stored record damaged within four consecutive bytes is never accepted. */
  lemma DamageIsRejected(s: RetainedState, blob: seq<Byte>, at: nat)
    requires Encode(s).Ok? && DifferWithinWord(Encode(s).value, blob, at) && Encode(s).value != blob
    ensures Decode(blob).Err?
  {
    EncodeDecode(s);
    DecodedIsSealed(Encode(s).value);
    BurstIsDetected(Encode(s).value, blob, at);
    if Decode(blob).Ok? {
      DecodedIsSealed(blob);
    }
    hide Decode, Encode, Sealed;
  }

  /** On a configured device such a record boots to maintenance with nothing scheduled. */
  lemma DamageBootsToMaintenance(s: RetainedState, blob: seq<Byte>, at: nat, revision: u32)
    requires Encode(s).Ok? && DifferWithinWord(Encode(s).value, blob, at) && Encode(s).value != blob
    requires revision != 0
    ensures var r := LoadRetained(Some(blob), Configured(revision));
      && r.Ok? && r.value.Some?
      && r.value.value.disposition.RecoveryRequired? && r.value.value.mustStore
      && r.value.value.state == RetainedState(revision, true, None)
  {
    DamageIsRejected(s, blob, at);
    hide Decode, Encode;
  }

  /** An undamaged record of the committed revision comes back whole, its window suppressed. */
  lemma IntactRecordLoads(s: RetainedState)
    requires Encode(s).Ok?
    ensures var r := LoadRetained(Some(Encode(s).value), Configured(s.configRevision));
      && r.Ok? && r.value.Some?
      && !r.value.value.disposition.RecoveryRequired?
      && r.value.value.state == s.Suppress()
      && (r.value.value.mustStore <==> s.window.Some? && s.window.value.disposition == Eligible)
  {
    EncodeDecode(s);
    hide Decode;
  }
}
