/** The level interlock: water level, freshness, minimum-off and recovery timing. */
module Interlock {
  import opened Base

  /** Calibrated fraction of the sensing range, in thousandths. */
  type Level = x: int | 0 <= x <= 1000

  datatype Timing = Timing(lowConfirmationMs: u64, recoveryMs: u64, minimumOffMs: u64)

  datatype RawConfig = Config(stop: Level, restart: Level, maxSampleAgeMs: u64, timing: Timing)

  datatype ConfigError = ThresholdOrder | ZeroDuration

  predicate ValidConfig(c: RawConfig) {
    && c.stop < c.restart
    && c.maxSampleAgeMs != 0
    && c.timing.lowConfirmationMs != 0
    && c.timing.recoveryMs != 0
    && c.timing.minimumOffMs != 0
  }

  type Config = c: RawConfig | ValidConfig(c) witness Config(0, 1, 1, Timing(1, 1, 1))

  datatype Fault =
    | Disconnected
    | Uncalibrated
    | OutOfRange
    | Bus
    | Stale
    | FutureSample
    | ClockWentBackwards
    | ControlGap
    | HardwareOff
    | InvalidSensorFrame

  datatype Reading =
    | Invalid(fault: Fault)
    | Valid(level: Level, observedAt: Millis)

  datatype Command = NoCommand | EnterMaintenance | ExitMaintenance

  datatype State = Boot | Idle | Low | Recovering | Running | Maintenance | Faulted(fault: Fault)

  datatype Relay = Off | On

  datatype Demand = NoDemand | Automatic | Override

  /** The value of a controller: everything `Controller` stores. */
  datatype Control = Control(
    config: Config,
    state: State,
    lastTick: Millis,
    offSince: Millis,
    lowSince: Option<Millis>,
    recoverySince: Option<Millis>)
  {
    function Relay(): Relay {
      if state == Running then On else Off
    }

    /** The clock marks never run ahead of the newest tick, so no elapsed time underflows. */
    predicate Valid() {
      && offSince <= lastTick
      && (lowSince.Some? ==> lowSince.value <= lastTick)
      && (recoverySince.Some? ==> recoverySince.value <= lastTick && state == Recovering)
    }
  }

  function Initial(config: Config, now: Millis): (c: Control)
    ensures c.Valid()
  {
    Control(config, Boot, now, now, None, None)
  }

  function Stopped(c: Control, now: Millis, state: State): Control {
    c.(state := state,
       offSince := if c.state == Running then now else c.offSince,
       lowSince := None,
       recoverySince := None)
  }

  /** A sample the controller may act on: acquired in the past and young enough. */
  predicate Fresh(config: Config, now: Millis, reading: Reading) {
    && reading.Valid?
    && reading.observedAt <= now
    && now - reading.observedAt <= config.maxSampleAgeMs
  }

  function SampleFault(now: Millis, reading: Reading): Fault {
    if reading.Invalid? then reading.fault
    else if reading.observedAt > now then FutureSample
    else Stale
  }

  /** Demand decides once time, maintenance and the sample have been accepted. */
  function Demanded(c: Control, now: Millis, level: Level, observedAt: Millis, demand: Demand): Control
    requires c.Valid() && c.lastTick == now && observedAt <= now
  {
    match demand
    case NoDemand => Stopped(c, now, Idle)
    case Override =>
      var ready := c.state == Running || now - c.offSince >= c.config.timing.minimumOffMs;
      c.(lowSince := None, recoverySince := None, state := if ready then Running else Recovering)
    case Automatic =>
      if c.state == Running then
        if level <= c.config.stop then
          var since := if c.lowSince.Some? then c.lowSince.value else now;
          if SatSub(observedAt, since) >= c.config.timing.lowConfirmationMs then Stopped(c, now, Low)
          else c.(lowSince := Some(since))
        else
          c.(lowSince := None)
      else if level >= c.config.restart then
        var since := if c.recoverySince.Some? then c.recoverySince.value else now;
        if SatSub(observedAt, since) >= c.config.timing.recoveryMs
           && now - c.offSince >= c.config.timing.minimumOffMs
        then c.(state := Running, recoverySince := None)
        else c.(state := Recovering, recoverySince := Some(since))
      else
        Stopped(c, now, Low)
  }

  /** One control iteration. */
  function Updated(c: Control, now: Millis, reading: Reading, command: Command, demand: Demand): Control
    requires c.Valid()
  {
    var entered := if command == EnterMaintenance then Stopped(c, Max(now, c.lastTick), Maintenance) else c;
    if now < c.lastTick then
      if entered.state == Maintenance then entered
      else Stopped(entered, c.lastTick, Faulted(ClockWentBackwards))
    else
      var missed := now - c.lastTick > c.config.maxSampleAgeMs;
      var ticked := entered.(lastTick := now);
      var exited := if command == ExitMaintenance && ticked.state == Maintenance
                    then Stopped(ticked, now, Boot) else ticked;
      if exited.state == Maintenance then exited
      else if missed then Stopped(exited, now, Faulted(ControlGap))
      else if !Fresh(c.config, now, reading) then Stopped(exited, now, Faulted(SampleFault(now, reading)))
      else Demanded(exited, now, reading.level, reading.observedAt, demand)
  }
}
