/** Booting from the stored bytes: what each key decodes to, the repair, and damage. */
module BootStore {
  import opened Base
  import opened Crc
  import opened Flash
  import opened Retained
  import opened Runtime
  import Configuration
  import ConfigurationCodec
  import RetainedCodec
  import I = Interlock
  import O = Occurrences
  import P = Policy
  import S = Schedule

  /** The bytes under the two keys. */
  datatype StoredBytes = StoredBytes(config: Option<seq<Byte>>, retained: Option<seq<Byte>>)

  /** What the timezone parser makes of a rule: a verdict, and the zone of an accepted one. */
  datatype ZoneParser = ZoneParser(verdict: Configuration.Zones, zone: seq<Byte> -> TimeZone)

  function EntryOf(e: Configuration.RawEntry): O.Entry
    requires Configuration.EntryOk(e)
  {
    MaskIsSmall(e.dayMask);
    O.Entry(e.id, e.dayMask as int, e.startSecond)
  }

  function EntriesOf(es: seq<Configuration.RawEntry>): (r: seq<O.Entry>)
    requires forall i :: 0 <= i < |es| ==> Configuration.EntryOk(es[i])
    ensures |r| == |es|
    ensures forall i :: 0 <= i < |es| ==>
      r[i].id == es[i].id && r[i].startSecond == es[i].startSecond && r[i].days == es[i].dayMask as int
  {
    if es == [] then [] else EntriesOf(es[..|es| - 1]) + [EntryOf(es[|es| - 1])]
  }

  lemma MaskIsSmall(mask: Byte)
    requires mask != 0 && mask & 0x80 == 0
    ensures 1 <= mask as int <= 0x7f
  {
    assert mask < 0x80;
  }

  /** The runtime's view of an accepted configuration. */
  function DeviceOf(x: Configuration.RawConfig, parser: ZoneParser): (d: Device)
    requires Configuration.FromRaw(x, parser.verdict).Ok?
    ensures d.revision == x.revision
  {
    Configuration.FromRawIff(x, parser.verdict);
    assert forall i :: 0 <= i < |x.entries| ==> x.entries[i] in x.entries;
    Device(x.revision,
           P.Settings(I.Config(x.stop, x.restart, x.maxSampleAgeMs, x.timing), x.duration * 1000),
           S.Schedule(EntriesOf(x.entries), x.duration),
           parser.zone(x.timezone),
           x.calibration.Some?)
  }

  /**
   The runtime is given what was configured: the same thresholds and timing, a run limit of
   the schedule's seconds in milliseconds, and every entry in order with its own days and start.
   */
  lemma DeviceMatches(x: Configuration.RawConfig, parser: ZoneParser)
    requires Configuration.FromRaw(x, parser.verdict).Ok?
    ensures var d := DeviceOf(x, parser);
      && d.settings.interlock.stop == x.stop && d.settings.interlock.restart == x.restart
      && d.settings.interlock.maxSampleAgeMs == x.maxSampleAgeMs
      && d.settings.interlock.timing.lowConfirmationMs == x.timing.lowConfirmationMs
      && d.settings.interlock.timing.recoveryMs == x.timing.recoveryMs
      && d.settings.interlock.timing.minimumOffMs == x.timing.minimumOffMs
      && d.settings.maxRunMs == d.schedule.duration * 1000 && d.schedule.duration == x.duration
      && |d.schedule.entries| == |x.entries|
      && (forall i :: 0 <= i < |x.entries| ==>
            && d.schedule.entries[i].id == x.entries[i].id
            && d.schedule.entries[i].startSecond == x.entries[i].startSecond
            && d.schedule.entries[i].days == x.entries[i].dayMask as int)
      && d.timezone == parser.zone(x.timezone)
      && (d.calibrated <==> x.calibration.Some?)
  {
    Configuration.FromRawIff(x, parser.verdict);
    assert forall i :: 0 <= i < |x.entries| ==> x.entries[i] in x.entries;
    hide Configuration.FromRaw, EntriesOf;
  }

  function ConfigOf(bytes: Option<seq<Byte>>, parser: ZoneParser): ConfigSlot {
    if bytes.None? then NoConfig
    else
      var decoded := ConfigurationCodec.Decode(bytes.value, parser.verdict);
      if decoded.Err? then BadConfig
      else
        DecodedIsCanonical(bytes.value, parser);
        ConfigSlot.Stored(DeviceOf(decoded.value, parser))
  }

  lemma DecodedIsCanonical(blob: seq<Byte>, parser: ZoneParser)
    requires ConfigurationCodec.Decode(blob, parser.verdict).Ok?
    ensures Configuration.FromRaw(ConfigurationCodec.Decode(blob, parser.verdict).value, parser.verdict).Ok?
  {
    ConfigurationCodec.DecodeEncode(blob, parser.verdict);
    hide Configuration.FromRaw, ConfigurationCodec.Decode;
  }

  /** Both keys, decoded. */
  function KeysOf(b: StoredBytes, parser: ZoneParser): Keys {
    Keys(ConfigOf(b.config, parser), if b.retained.Some? then Some(RetainedCodec.Decode(b.retained.value)) else None)
  }

  /** Storing a record's encoding is the key write the safety model speaks of. */
  lemma EncodedWrites(b: StoredBytes, parser: ZoneParser, s: RetainedState)
    requires CheckState(s).Ok?
    ensures RetainedCodec.Encode(s).Ok?
    ensures KeysOf(b.(retained := Some(RetainedCodec.Encode(s).value)), parser)
         == WriteRecord(KeysOf(b, parser), RetainedRecord(s), Done)
  {
    RetainedCodec.EncodeDecode(s);
    hide RetainedCodec.Decode, ConfigOf;
  }

  lemma EncodedConfigures(b: StoredBytes, parser: ZoneParser, x: Configuration.RawConfig)
    requires x.Shaped() && Configuration.FromRaw(x, parser.verdict) == Ok(x)
    ensures ConfigurationCodec.Encode(x).Ok?
    ensures KeysOf(b.(config := Some(ConfigurationCodec.Encode(x).value)), parser)
         == WriteRecord(KeysOf(b, parser), ConfigurationRecord(DeviceOf(x, parser)), Done)
  {
    ConfigurationCodec.EncodeDecode(x, parser.verdict);
    hide RetainedCodec.Decode, ConfigurationCodec.Decode, ConfigurationCodec.Encode, Configuration.FromRaw, DeviceOf;
  }

  /** Whatever a boot loads can be stored again. */
  lemma LoadedIsSound(slot: Option<seq<Byte>>, lifecycle: Lifecycle)
    requires var r := RetainedCodec.LoadRetained(slot, lifecycle); r.Ok? && r.value.Some?
    ensures CheckState(RetainedCodec.LoadRetained(slot, lifecycle).value.value.state).Ok?
  {
    if slot.Some? && RetainedCodec.Decode(slot.value).Ok? {
      RetainedCodec.DecodeEncode(slot.value);
    }
    hide RetainedCodec.Decode;
  }

  datatype BootFailure = FlashFailure | ConfigurationFailure | RetainedFailure

  /** The key-value store during boot. */
  class Store {
    var config: Option<seq<Byte>>
    var retained: Option<seq<Byte>>

    ghost function Bytes(): StoredBytes
      reads this
    {
      StoredBytes(config, retained)
    }

    constructor (config: Option<seq<Byte>>, retained: Option<seq<Byte>>)
      ensures Bytes() == StoredBytes(config, retained)
    {
      this.config, this.retained := config, retained;
    }

    method WriteRetained(bytes: seq<Byte>, outcome: WriteOutcome) returns (r: Result<(), BootFailure>)
      modifies this`retained
      ensures r == if outcome == Done then Ok(()) else Err(FlashFailure)
      ensures retained == if outcome.FailedBeforeWrite? then old(retained) else Some(bytes)
    {
      if !outcome.FailedBeforeWrite? {
        retained := Some(bytes);
      }
      return if outcome == Done then Ok(()) else Err(FlashFailure);
    }

    /**
     Reads both keys and repairs the retained one. Together with the runtime built from the
     result this is exactly the boot of the safety model, whatever the repair write reports.
     */
    method LoadBoot(parser: ZoneParser, outcome: WriteOutcome, ghost now: Millis) returns (r: Result<BootState, BootFailure>)
      modifies this`retained
      ensures config == old(config)
      ensures var (keys, runtime) := BootUp(KeysOf(old(Bytes()), parser), now, outcome);
        && keys == KeysOf(Bytes(), parser)
        && runtime == Started(r, now)
      ensures r.Ok? && r.value.retained.Some? ==> !r.value.retained.value.mustStore
    {
      hide Configuration.FromRaw, ConfigurationCodec.Decode, RetainedCodec.Decode, RetainedCodec.Encode, DeviceOf, NewRuntime;
      var configuration: Option<Device> := None;
      if config.Some? {
        var decoded := ConfigurationCodec.Decode(config.value, parser.verdict);
        if decoded.Err? {
          return Err(ConfigurationFailure);
        }
        DecodedIsCanonical(config.value, parser);
        configuration := Some(DeviceOf(decoded.value, parser));
      }
      var lifecycle := if configuration.Some? then Configured(configuration.value.revision) else NeverConfigured;
      var loaded := RetainedCodec.LoadRetained(retained, lifecycle);
      if loaded.Err? {
        return Err(RetainedFailure);
      }
      var record := loaded.value;
      if record.Some? && record.value.mustStore {
        LoadedIsSound(retained, lifecycle);
        EncodedWrites(Bytes(), parser, record.value.state);
        var bytes := RetainedCodec.Encode(record.value.state);
        var stored := WriteRetained(bytes.value, outcome);
        if stored.Err? {
          return Err(stored.error);
        }
        record := Some(record.value.(mustStore := false));
      }
      return Ok(BootState(configuration, record));
    }
  }

  /** The runtime a boot goes on to build. */
  function Started(r: Result<BootState, BootFailure>, now: Millis): Option<Rt> {
    if r.Err? then None
    else
      var state := if r.value.retained.Some? then Some(r.value.retained.value.state) else None;
      var runtime := NewRuntime(r.value.configuration, state, now);
      if runtime.Ok? then Some(runtime.value) else None
  }

  /** Damage to the retained bytes of a configured device makes its next boot recover. */
  lemma DamagedRecordRecovers(b: StoredBytes, parser: ZoneParser, s: RetainedState, damaged: seq<Byte>, at: nat)
    requires ConfigOf(b.config, parser).Stored?
    requires RetainedCodec.Encode(s).Ok? && damaged != RetainedCodec.Encode(s).value
    requires DifferWithinWord(RetainedCodec.Encode(s).value, damaged, at)
    ensures Recovers(KeysOf(b.(retained := Some(damaged)), parser))
  {
    hide RetainedCodec.Decode, RetainedCodec.Encode, ConfigOf, DifferWithinWord;
    RetainedCodec.DamageIsRejected(s, damaged, at);
  }

  /** Damage to the configuration bytes leaves no runtime at all. */
  lemma DamagedConfigurationStops(b: StoredBytes, parser: ZoneParser, x: Configuration.RawConfig, damaged: seq<Byte>, at: nat,
                                  now: Millis, outcome: WriteOutcome)
    requires x.Shaped() && ConfigurationCodec.Encode(x).Ok? && damaged != ConfigurationCodec.Encode(x).value
    requires DifferWithinWord(ConfigurationCodec.Encode(x).value, damaged, at)
    ensures var keys := KeysOf(b.(config := Some(damaged)), parser); BootUp(keys, now, outcome) == (keys, None)
  {
    ConfigurationCodec.DamageIsRejected(x, damaged, at, parser.verdict);
    hide ConfigurationCodec.Decode, ConfigurationCodec.Encode, RetainedCodec.Decode;
  }
}
