/** Demand arbitration between the schedule, the switch and the interlock. */
module Policy {
  import opened Base
  import opened Interlock

  /** Strictly increasing occurrence identity. */
  type WindowId = u64

  datatype Window = Window(id: WindowId, endsAt: Millis)

  datatype Switch = NoSwitch | SwitchOn | SwitchOff

  datatype Permit = Allowed | ForcedOff

  datatype Inputs = Inputs(
    reading: Reading,
    window: Option<Window>,
    switch: Switch,
    maintenance: Command,
    hardware: Permit)

  datatype RawSettings = Settings(interlock: Config, maxRunMs: u64)

  type Settings = s: RawSettings | s.maxRunMs != 0
    witness Settings(Config(0, 1, 1, Timing(1, 1, 1)), 1)

  datatype Run = Run(demand: Demand, requestedAt: Millis, deadline: Millis, windowId: Option<WindowId>)

  datatype Status = Status(
    relay: Relay,
    state: State,
    demand: Demand,
    deadline: Option<Millis>,
    suppressed: Option<WindowId>)

  /** The value of a supervisor. */
  datatype Arbiter = Arbiter(
    interlock: Control,
    settings: Settings,
    lastWindow: Option<Window>,
    suppressed: Option<WindowId>,
    run: Option<Run>)
  {
    function Demand(): Demand {
      if run.Some? then run.value.demand else NoDemand
    }

    function Report(): Status {
      Status(interlock.Relay(), interlock.state, Demand(),
                    if run.Some? then Some(run.value.deadline) else None, suppressed)
    }

    predicate Valid() {
      interlock.Valid()
    }
  }

  function Initial(settings: Settings, now: Millis): (a: Arbiter)
    ensures a.Valid()
  {
    Arbiter(Interlock.Initial(settings.interlock, now), settings, None, None, None)
  }

  /** Shortening the limit clamps a run from its original request; lengthening never extends it. */
  function Reconfigured(a: Arbiter, settings: Settings): Arbiter {
    var changed := settings.interlock != a.settings.interlock;
    var c := a.interlock.(config := settings.interlock,
                          lowSince := if changed then None else a.interlock.lowSince,
                          recoverySince := if changed then None else a.interlock.recoverySince);
    var run := if a.run.None? then None
               else Some(a.run.value.(deadline :=
                 Min(a.run.value.deadline, SatAdd(a.run.value.requestedAt, settings.maxRunMs))));
    a.(interlock := c, settings := settings, run := run)
  }

  /** The window as admitted against the watermark: older ids are dropped, ends only shrink. */
  function Admitted(last: Option<Window>, incoming: Option<Window>): Option<Window> {
    if incoming.None? then None
    else if last.None? || incoming.value.id > last.value.id then incoming
    else if incoming.value.id < last.value.id then None
    else Some(Window(incoming.value.id, Min(incoming.value.endsAt, last.value.endsAt)))
  }

  function Live(window: Option<Window>, now: Millis): Option<Window> {
    if window.Some? && now < window.value.endsAt then window else None
  }

  function Suppressing(a: Arbiter, window: Option<Window>): Arbiter {
    if window.Some? then a.(suppressed := Some(window.value.id)) else a
  }

  function NewRun(settings: Settings, now: Millis, demand: Demand): Run {
    Run(demand, now, SatAdd(now, settings.maxRunMs), None)
  }

  function EffectiveReading(input: Inputs): Reading {
    if input.hardware == Allowed then input.reading else Invalid(HardwareOff)
  }

  /** A tick whose time lies before the newest one: nothing starts, Off still suppresses. */
  function BackwardsUpdate(a: Arbiter, now: Millis, input: Inputs): Arbiter
    requires a.Valid() && now < a.interlock.lastTick
  {
    var b := if input.switch == SwitchOff
             then Suppressing(a.(run := None), Live(a.lastWindow, a.interlock.lastTick)) else a;
    var c := b.(interlock := Interlock.Updated(b.interlock, now, EffectiveReading(input), input.maintenance, NoDemand));
    if c.Demand() == Override then c.(run := None) else c
  }

  /** Admit the window, clamp an automatic run to it, and drop an expired run. */
  function Expire(a: Arbiter, now: Millis, window: Option<Window>): (r: (Arbiter, bool)) {
    var clamped :=
      if a.run.Some? && window.Some? && a.run.value.demand == Automatic
      then a.(run := Some(a.run.value.(deadline := Min(a.run.value.deadline, window.value.endsAt))))
      else a;
    if clamped.run.Some? && now >= clamped.run.value.deadline then
      var dropped := clamped.(run := None);
      if clamped.run.value.demand == Automatic
      then (dropped.(suppressed := clamped.run.value.windowId), true)
      else (Suppressing(dropped, window), true)
    else
      (clamped, false)
  }

  function Switched(a: Arbiter, now: Millis, window: Option<Window>, expired: bool, switch: Switch): Arbiter {
    match switch
    case SwitchOff =>
      Suppressing(a.(run := None), if window.Some? then window else Live(a.lastWindow, now))
    case SwitchOn =>
      if expired then a
      else if a.run.Some? && (a.run.value.demand == Override || a.interlock.Relay() == On)
      then a.(run := Some(a.run.value.(demand := Override)))
      else a.(run := Some(NewRun(a.settings, now, Override)))
    case NoSwitch => a
  }

  function Scheduled(a: Arbiter, now: Millis, window: Option<Window>, expired: bool, switch: Switch): Arbiter {
    if a.run.None? && !expired && switch != SwitchOff && window.Some?
       && a.suppressed != Some(window.value.id)
    then
      var run := NewRun(a.settings, now, Automatic);
      a.(run := Some(run.(deadline := Min(run.deadline, window.value.endsAt),
                          windowId := Some(window.value.id))))
    else a
  }

  /** Arbitration up to the point where the interlock is asked. */
  function Arbitrated(a: Arbiter, now: Millis, input: Inputs): Arbiter {
    var admitted := Admitted(a.lastWindow, input.window);
    var window := Live(admitted, now);
    var seen := if admitted.Some? then a.(lastWindow := admitted) else a;
    var (unexpired, expired) := Expire(seen, now, window);
    var switched := Switched(unexpired, now, window, expired, input.switch);
    Scheduled(switched, now, window, expired, input.switch)
  }

  function PresentedWindow(a: Arbiter, now: Millis, input: Inputs): Option<Window> {
    Live(Admitted(a.lastWindow, input.window), now)
  }

  /** An automatic run needs its window on this very tick. */
  function PassedDemand(a: Arbiter, window: Option<Window>): Demand {
    if a.Demand() == Automatic && window.None? then NoDemand else a.Demand()
  }

  predicate Cancels(state: State) {
    state.Faulted? || state == Maintenance
  }

  function ForwardUpdate(a: Arbiter, now: Millis, input: Inputs): Arbiter
    requires a.Valid() && now >= a.interlock.lastTick
  {
    var window := PresentedWindow(a, now, input);
    var b := Arbitrated(a, now, input);
    var c := b.(interlock := Interlock.Updated(a.interlock, now, EffectiveReading(input), input.maintenance,
                                     PassedDemand(b, window)));
    if Cancels(c.interlock.state) && c.Demand() == Override
    then Suppressing(c.(run := None), window)
    else c
  }

  /** One supervisor update. */
  function Updated(a: Arbiter, now: Millis, input: Inputs): Arbiter
    requires a.Valid()
  {
    if now < a.interlock.lastTick then BackwardsUpdate(a, now, input)
    else ForwardUpdate(a, now, input)
  }
}
