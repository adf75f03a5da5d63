/** The interlock as the firmware runs it: one object whose fields change in order. */
module InterlockMachine {
  import opened Base
  import opened Interlock

  class Controller {
    var config: Config
    var state: State
    var lastTick: Millis
    var offSince: Millis
    var lowSince: Option<Millis>
    var recoverySince: Option<Millis>

    ghost function Value(): Control
      reads this
    {
      Control(config, state, lastTick, offSince, lowSince, recoverySince)
    }

    constructor (config: Config, now: Millis)
      ensures Value() == Initial(config, now)
    {
      this.config := config;
      state, lastTick, offSince := Boot, now, now;
      lowSince, recoverySince := None, None;
    }

    function Relay(): (r: Relay)
      reads this
      ensures r == Value().Relay()
    {
      if state == Running then On else Off
    }

    method Stop(now: Millis, next: State)
      modifies this
      ensures Value() == Stopped(old(Value()), now, next)
    {
      if state == Running {
        offSince := now;
      }
      state := next;
      lowSince := None;
      recoverySince := None;
    }

    method UpdateWithDemand(now: Millis, reading: Reading, command: Command, demand: Demand)
      requires Value().Valid()
      modifies this
      ensures Value() == Updated(old(Value()), now, reading, command, demand)
      ensures Value().Valid()
    {
      hide Demanded;
      if command == EnterMaintenance {
        Stop(Max(now, lastTick), Maintenance);
      }
      if now < lastTick {
        if state != Maintenance {
          Stop(lastTick, Faulted(ClockWentBackwards));
        }
        return;
      }
      var missedDeadline := now - lastTick > config.maxSampleAgeMs;
      lastTick := now;
      if command == ExitMaintenance && state == Maintenance {
        Stop(now, Boot);
      }
      if state == Maintenance {
        return;
      }
      if missedDeadline {
        Stop(now, Faulted(ControlGap));
        return;
      }
      if reading.Invalid? {
        Stop(now, Faulted(reading.fault));
        return;
      }
      var level, observedAt := reading.level, reading.observedAt;
      if observedAt > now {
        Stop(now, Faulted(FutureSample));
        return;
      }
      if now - observedAt > config.maxSampleAgeMs {
        Stop(now, Faulted(Stale));
        return;
      }
      Follow(now, level, observedAt, demand);
    }

    /** Demand decides once time, maintenance and the sample have been accepted. */
    method Follow(now: Millis, level: Level, observedAt: Millis, demand: Demand)
      requires Value().Valid() && lastTick == now && observedAt <= now
      modifies this
      ensures Value() == Demanded(old(Value()), now, level, observedAt, demand)
      ensures Value().Valid()
    {
      match demand {
        case NoDemand =>
          Stop(now, Idle);
        case Override =>
          lowSince := None;
          recoverySince := None;
          if state == Running || now - offSince >= config.timing.minimumOffMs {
            state := Running;
          } else {
            state := Recovering;
          }
        case Automatic =>
          Regulate(now, level, observedAt);
      }
    }

    /** Debounced stop while running, confirmed recovery while off. */
    method Regulate(now: Millis, level: Level, observedAt: Millis)
      requires Value().Valid() && lastTick == now && observedAt <= now
      modifies this
      ensures Value() == Demanded(old(Value()), now, level, observedAt, Automatic)
      ensures Value().Valid()
    {
      if state == Running {
        if level <= config.stop {
          if lowSince.None? {
            lowSince := Some(now);
          }
          if SatSub(observedAt, lowSince.value) >= config.timing.lowConfirmationMs {
            Stop(now, Low);
          }
        } else {
          lowSince := None;
        }
      } else if level >= config.restart {
        if recoverySince.None? {
          recoverySince := Some(now);
        }
        state := Recovering;
        if SatSub(observedAt, recoverySince.value) >= config.timing.recoveryMs
           && now - offSince >= config.timing.minimumOffMs
        {
          state := Running;
          recoverySince := None;
        }
      } else {
        Stop(now, Low);
      }
    }
  }
}
