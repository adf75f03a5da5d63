/**
 Flash, the storage owner and power cuts around the runtime: two atomically written
 keys, writes whose reported failure may or may not have taken effect, and boots.
 */
module Flash {
  import opened Base
  import opened Retained
  import opened Runtime

  datatype ConfigSlot = NoConfig | BadConfig | Stored(config: Device)

  /** Both keys; the retained slot holds what decoding its bytes gives. */
  datatype Keys = Keys(config: ConfigSlot, retained: Option<Result<RetainedState, RetainedError>>) {
    function Revision(): u32 {
      if config.Stored? then config.config.revision else 0
    }

    function State(): Option<RetainedState> {
      if retained.Some? && retained.value.Ok? then Some(retained.value.value) else None
    }
  }

  datatype BootError = ConfigurationUnreadable | RetainedRefused(error: RetainedError)

  datatype BootState = BootState(configuration: Option<Device>, retained: Option<Loaded>)

  /** What a boot reads, before any repair is written. */
  function ReadBoot(keys: Keys): Result<BootState, BootError> {
    if keys.config.BadConfig? then Err(ConfigurationUnreadable)
    else
      var configuration := if keys.config.Stored? then Some(keys.config.config) else None;
      var lifecycle := if configuration.Some? then Configured(configuration.value.revision) else NeverConfigured;
      var loaded := LoadSlot(keys.retained, lifecycle);
      if loaded.Err? then Err(RetainedRefused(loaded.error))
      else Ok(BootState(configuration, loaded.value))
  }

  /** A reported failure may leave either the old or the new record. */
  datatype WriteOutcome = Done | FailedAfterWrite | FailedBeforeWrite

  function WriteRetained(keys: Keys, state: RetainedState, outcome: WriteOutcome): Keys {
    if outcome.FailedBeforeWrite? then keys else keys.(retained := Some(Ok(state)))
  }

  function WriteRecord(keys: Keys, record: Record, outcome: WriteOutcome): Keys {
    match record
    case RetainedRecord(state) => WriteRetained(keys, state, outcome)
    case ConfigurationRecord(config) =>
      if outcome.FailedBeforeWrite? then keys else keys.(config := Stored(config))
  }

  /** Repair first, then start: no runtime exists until the repaired record is stored. */
  function BootUp(keys: Keys, now: Millis, outcome: WriteOutcome): (Keys, Option<Rt>) {
    var read := ReadBoot(keys);
    if read.Err? then (keys, None)
    else
      var boot := read.value;
      var repairs := boot.retained.Some? && boot.retained.value.mustStore;
      var repaired := if repairs then WriteRetained(keys, boot.retained.value.state, outcome) else keys;
      if repairs && outcome != Done then (repaired, None)
      else
        var retained := if boot.retained.Some? then Some(boot.retained.value.state) else None;
        var runtime := NewRuntime(boot.configuration, retained, now);
        (repaired, if runtime.Ok? then Some(runtime.value) else None)
  }

  /** This boot finds nothing usable and latches maintenance. */
  predicate Recovers(keys: Keys) {
    var read := ReadBoot(keys);
    read.Ok? && read.value.retained.Some? && read.value.retained.value.disposition.RecoveryRequired?
  }

  /**
   A powered or unpowered device. The owner remembers the last ticket it applied, a
   result not yet posted, and the mailbox holds a posted one.
   */
  datatype Unit = Unit(keys: Keys, rt: Option<Rt>, lastTicket: u64, result: Option<Completion>, mailbox: Option<Completion>)

  datatype Action =
    | PowerCut
    | Start(now: Millis, outcome: WriteOutcome)
    | Iterate(observed: Observed, request: Option<Request>)
    | Apply(outcome: WriteOutcome)
    | Post
    | SpoilRecord(error: RetainedError)
    | SpoilConfiguration

  /** A stored record becomes undecodable. Only boots read flash, so damage counts while unpowered. */
  predicate Spoils(a: Action) {
    a.SpoilRecord? || a.SpoilConfiguration?
  }

  ghost predicate Enabled(d: Unit, a: Action) {
    match a
    case PowerCut => true
    case Start(_, _) => d.rt.None?
    case Iterate(observed, request) =>
      d.rt.Some? && MakePlan(d.rt.value, observed, request, d.mailbox).committed.Valid()
    case Apply(_) =>
      && d.rt.Some? && d.rt.value.pending.Some?
      && d.rt.value.pending.value.ticket != d.lastTicket
      && d.result.None?
    case Post => d.rt.Some? && d.result.Some?
    case SpoilRecord(_) => d.rt.None? && d.keys.retained.Some?
    case SpoilConfiguration => d.rt.None? && d.keys.config.Stored?
  }

  ghost function Do(d: Unit, a: Action): Unit
    requires Enabled(d, a)
  {
    match a
    case PowerCut => Unit(d.keys, None, 0, None, None)
    case Start(now, outcome) =>
      var (keys, rt) := BootUp(d.keys, now, outcome);
      Unit(keys, rt, 0, None, None)
    case Iterate(observed, request) =>
      d.(rt := Some(Step(d.rt.value, observed, request, d.mailbox).rt), mailbox := None)
    case Apply(outcome) =>
      var pending := d.rt.value.pending.value;
      d.(keys := WriteRecord(d.keys, pending.record, outcome),
         lastTicket := pending.ticket,
         result := Some(Completion(pending.ticket, outcome == Done)))
    case Post => d.(mailbox := d.result, result := None)
    case SpoilRecord(error) => d.(keys := d.keys.(retained := Some(Err(error))))
    case SpoilConfiguration => d.(keys := d.keys.(config := BadConfig))
  }

  /** A run of the device: every action enabled when it is taken. */
  ghost predicate Life(actions: seq<Action>, ds: seq<Unit>) {
    && |ds| == |actions| + 1
    && forall i :: 0 <= i < |actions| ==> Enabled(ds[i], actions[i]) && ds[i + 1] == Do(ds[i], actions[i])
  }
}
