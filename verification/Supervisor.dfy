/** Demand arbitration as the firmware runs it: one object owning the interlock. */
module SupervisorMachine {
  import opened Base
  import opened Interlock
  import opened Policy
  import opened InterlockMachine

  class Supervisor {
    const interlock: Controller
    var settings: Settings
    var lastWindow: Option<Window>
    var suppressedWindow: Option<WindowId>
    var run: Option<Run>

    ghost function Value(): Arbiter
      reads this, interlock
    {
      Arbiter(interlock.Value(), settings, lastWindow, suppressedWindow, run)
    }

    constructor (settings: Settings, now: Millis)
      ensures Value() == Policy.Initial(settings, now)
      ensures fresh(interlock)
    {
      interlock := new Controller(settings.interlock, now);
      this.settings := settings;
      lastWindow, suppressedWindow, run := None, None, None;
    }

    function Status(): (s: Status)
      reads this, interlock
      ensures s == Value().Report()
    {
      Policy.Status(interlock.Relay(), interlock.state,
                    if run.Some? then run.value.demand else NoDemand,
                    if run.Some? then Some(run.value.deadline) else None, suppressedWindow)
    }

    method Reconfigure(next: Settings)
      modifies this, interlock
      ensures Value() == Reconfigured(old(Value()), next)
    {
      if next.interlock != settings.interlock {
        interlock.lowSince := None;
        interlock.recoverySince := None;
      }
      settings := next;
      interlock.config := next.interlock;
      if run.Some? {
        run := Some(run.value.(deadline := Min(run.value.deadline, SatAdd(run.value.requestedAt, next.maxRunMs))));
      }
    }

    method ActiveWindow(now: Millis, incoming: Option<Window>) returns (window: Option<Window>)
      modifies this`lastWindow
      ensures lastWindow == (if Admitted(old(lastWindow), incoming).Some?
                             then Admitted(old(lastWindow), incoming) else old(lastWindow))
      ensures window == Live(Admitted(old(lastWindow), incoming), now)
    {
      if incoming.None? {
        return None;
      }
      var admitted := incoming.value;
      if lastWindow.Some? {
        if admitted.id < lastWindow.value.id {
          return None;
        }
        if admitted.id == lastWindow.value.id {
          admitted := admitted.(endsAt := Min(admitted.endsAt, lastWindow.value.endsAt));
        }
      }
      lastWindow := Some(admitted);
      return if now < admitted.endsAt then Some(admitted) else None;
    }

    method Suppress(window: Option<Window>)
      modifies this`suppressedWindow
      ensures Value() == Suppressing(old(Value()), window)
    {
      if window.Some? {
        suppressedWindow := Some(window.value.id);
      }
    }

    /** A tick before the newest one: an Off still suppresses, an override ends, nothing starts. */
    method UpdateBackwards(now: Millis, input: Inputs, reading: Reading)
      requires Value().Valid() && now < interlock.lastTick && reading == EffectiveReading(input)
      modifies this, interlock
      ensures Value() == BackwardsUpdate(old(Value()), now, input)
      ensures Value().Valid()
    {
      hide Interlock.Updated;
      if input.switch == SwitchOff {
        run := None;
        Suppress(if lastWindow.Some? && interlock.lastTick < lastWindow.value.endsAt then lastWindow else None);
      }
      interlock.UpdateWithDemand(now, reading, input.maintenance, NoDemand);
      if run.Some? && run.value.demand == Override {
        run := None;
      }
    }

    method Update(now: Millis, input: Inputs)
      requires Value().Valid()
      modifies this, interlock
      ensures Value() == Policy.Updated(old(Value()), now, input)
      ensures Value().Valid()
    {
      hide Interlock.Updated, Expire, Switched, Scheduled, Admitted;
      var reading := if input.hardware == Allowed then input.reading else Invalid(HardwareOff);
      if now < interlock.lastTick {
        UpdateBackwards(now, input, reading);
        return;
      }
      var window := ActiveWindow(now, input.window);
      var expired := ExpireRun(now, window);
      ApplySwitch(now, window, expired, input.switch);
      StartScheduled(now, window, expired, input.switch);
      var demand := if run.None? then NoDemand
                    else if run.value.demand == Automatic && window.None? then NoDemand
                    else run.value.demand;
      interlock.UpdateWithDemand(now, reading, input.maintenance, demand);
      if (interlock.state.Faulted? || interlock.state == Maintenance) && run.Some? && run.value.demand == Override {
        run := None;
        Suppress(window);
      }
    }

    method ExpireRun(now: Millis, window: Option<Window>) returns (expired: bool)
      modifies this`run, this`suppressedWindow
      ensures (Value(), expired) == Expire(old(Value()), now, window)
    {
      if run.Some? && window.Some? && run.value.demand == Automatic {
        run := Some(run.value.(deadline := Min(run.value.deadline, window.value.endsAt)));
      }
      expired := run.Some? && now >= run.value.deadline;
      if expired {
        var over := run.value;
        run := None;
        if over.demand == Automatic {
          suppressedWindow := over.windowId;
        } else {
          Suppress(window);
        }
      }
    }

    method ApplySwitch(now: Millis, window: Option<Window>, expired: bool, switch: Switch)
      modifies this`run, this`suppressedWindow
      ensures Value() == Switched(old(Value()), now, window, expired, switch)
    {
      match switch {
        case SwitchOff =>
          run := None;
          Suppress(if window.Some? then window
                   else if lastWindow.Some? && now < lastWindow.value.endsAt then lastWindow else None);
        case SwitchOn =>
          if !expired {
            if run.Some? && (run.value.demand == Override || interlock.Relay() == On) {
              run := Some(run.value.(demand := Override));
            } else {
              run := Some(Run(Override, now, SatAdd(now, settings.maxRunMs), None));
            }
          }
        case NoSwitch =>
      }
    }

    method StartScheduled(now: Millis, window: Option<Window>, expired: bool, switch: Switch)
      modifies this`run
      ensures Value() == Scheduled(old(Value()), now, window, expired, switch)
    {
      if run.None? && !expired && switch != SwitchOff {
        if window.Some? && Some(window.value.id) != suppressedWindow {
          var limit := SatAdd(now, settings.maxRunMs);
          run := Some(Run(Automatic, now, Min(limit, window.value.endsAt), Some(window.value.id)));
        }
      }
    }
  }
}
