/**
 When a run starts, how long it lasts and what ends it, tick by tick and over whole histories,
 stated over what the tick was given and what it leaves.
 */
module PolicyRuns {
  import opened Base
  import opened Interlock
  import opened Policy
  import opened PolicyHistory
  import IH = InterlockHistory
  import IT = InterlockTicks

  /** The tick sees window `w`: no older than the newest known, ending no later than it was known to, and not over. */
  predicate Sees(a: Arbiter, now: Millis, input: Inputs, w: Window) {
    && input.window.Some? && input.window.value.id == w.id
    && (a.lastWindow.Some? ==> a.lastWindow.value.id <= w.id)
    && w.endsAt == (if a.lastWindow.Some? && a.lastWindow.value.id == w.id && a.lastWindow.value.endsAt < input.window.value.endsAt
                    then a.lastWindow.value.endsAt else input.window.value.endsAt)
    && now < w.endsAt
  }

  lemma SeenIsPresented(a: Arbiter, now: Millis, input: Inputs, w: Window)
    ensures PresentedWindow(a, now, input) == Some(w) <==> Sees(a, now, input, w)
  {
  }

  predicate SeesSome(a: Arbiter, now: Millis, input: Inputs) {
    PresentedWindow(a, now, input).Some?
  }

  /** The run has reached its deadline. */
  predicate Expired(a: Arbiter, now: Millis) {
    a.run.Some? && now >= a.run.value.deadline
  }

  /** The switch asks for a manual run, or one goes on, and neither Off nor the deadline ends it. */
  predicate Manual(a: Arbiter, now: Millis, input: Inputs) {
    !Expired(a, now) && (input.switch == SwitchOn || (input.switch == NoSwitch && a.Demand() == Override))
  }

  /** A manual run keeps the lease it has, of an override or of the energised run it takes over, or gets a whole new one. */
  predicate LeaseOf(a: Arbiter, now: Millis, run: Run, end: Millis) {
    if a.run.Some? && (a.run.value.demand == Override || a.interlock.Relay() == On)
    then run == Run(Override, a.run.value.requestedAt, end, a.run.value.windowId)
    else run == Run(Override, now, SatAdd(now, a.settings.maxRunMs), None)
  }

  /** The deadline of a run after this tick has seen its window: only an automatic run is cut to it. */
  function CutDeadline(a: Arbiter, now: Millis, input: Inputs): Millis
    requires a.run.Some?
  {
    var window := PresentedWindow(a, now, input);
    if a.run.value.demand == Automatic && window.Some? && window.value.endsAt < a.run.value.deadline
    then window.value.endsAt else a.run.value.deadline
  }

  /** An accepted tick's arbitration of the run, case by case. */
  lemma RunTable(a: Arbiter, now: Millis, input: Inputs)
    requires Inv(a) && now >= a.interlock.lastTick
    ensures var b := Arbitrated(a, now, input);
      var window := PresentedWindow(a, now, input);
      if Expired(a, now) || input.switch == SwitchOff then b.run.None?
      else if Manual(a, now, input) then
        b.run.Some? && LeaseOf(a, now, b.run.value, if a.run.Some? then CutDeadline(a, now, input) else 0)
      else if a.run.Some? then b.run == Some(a.run.value.(deadline := CutDeadline(a, now, input)))
      else if window.Some? && a.suppressed != Some(window.value.id) then
        b.run == Some(Run(Automatic, now, Min(SatAdd(now, a.settings.maxRunMs), window.value.endsAt), Some(window.value.id)))
      else b.run.None?
  {
    if a.run.Some? {
      assert a.run.value.demand != NoDemand;
    }
  }

  /** What an accepted tick suppresses before the interlock is asked. */
  lemma SuppressionTable(a: Arbiter, now: Millis, input: Inputs)
    requires Inv(a) && now >= a.interlock.lastTick
    ensures var b := Arbitrated(a, now, input);
      var window := PresentedWindow(a, now, input);
      var known := if input.window.None? || (a.lastWindow.Some? && input.window.value.id < a.lastWindow.value.id)
                   then a.lastWindow else b.lastWindow;
      var ended := if !Expired(a, now) then a.suppressed
                   else if a.Demand() == Automatic then a.run.value.windowId
                   else if window.Some? then Some(window.value.id) else a.suppressed;
      && b.suppressed == (if input.switch != SwitchOff then ended
                          else if window.Some? then Some(window.value.id)
                          else if known.Some? && now < known.value.endsAt then Some(known.value.id)
                          else ended)
  {
  }

  lemma KnownWindow(a: Arbiter, now: Millis, input: Inputs)
    requires now >= a.interlock.lastTick
    ensures var b := Arbitrated(a, now, input);
      if input.window.None? || (a.lastWindow.Some? && input.window.value.id < a.lastWindow.value.id)
      then b.lastWindow == a.lastWindow
      else b.lastWindow == Some(Window(input.window.value.id,
             if a.lastWindow.Some? && a.lastWindow.value.id == input.window.value.id
             then Min(input.window.value.endsAt, a.lastWindow.value.endsAt) else input.window.value.endsAt))
  {
  }

  predicate Cancelled(c: Arbiter) {
    c.interlock.state.Faulted? || c.interlock.state == Maintenance
  }

  /**
   An accepted tick asks the interlock for the arbitrated run, an automatic one only while a
   window is seen; a fault or maintenance ends a manual run and suppresses the window seen.
   */
  lemma TickTable(a: Arbiter, now: Millis, input: Inputs)
    requires Inv(a) && now >= a.interlock.lastTick
    ensures var b, c := Arbitrated(a, now, input), Policy.Updated(a, now, input);
      var window := PresentedWindow(a, now, input);
      var asked := if b.run.None? || (b.run.value.demand == Automatic && window.None?) then NoDemand else b.run.value.demand;
      var reading := if input.hardware == Allowed then input.reading else Invalid(HardwareOff);
      && c.interlock == Interlock.Updated(a.interlock, now, reading, input.maintenance, asked)
      && c.lastWindow == b.lastWindow && c.settings == a.settings
      && (if Cancelled(c) && b.run.Some? && b.run.value.demand == Override
          then c.run.None? && c.suppressed == (if window.Some? then Some(window.value.id) else b.suppressed)
          else c.run == b.run && c.suppressed == b.suppressed)
  {
    ArbitratedKeepsInv(a, now, input);
    hide Interlock.Updated, Arbitrated;
  }

  /** A tick before the newest one starts nothing and ends a manual run; Off still ends any run and suppresses the newest live window. */
  lemma BackwardsTable(a: Arbiter, now: Millis, input: Inputs)
    requires Inv(a) && now < a.interlock.lastTick
    ensures var c := Policy.Updated(a, now, input);
      && c.interlock.Relay() == Off && c.lastWindow == a.lastWindow && c.settings == a.settings
      && c.run == (if input.switch == SwitchOff || a.Demand() == Override then None else a.run)
      && c.suppressed == (if input.switch == SwitchOff && a.lastWindow.Some? && a.interlock.lastTick < a.lastWindow.value.endsAt
                          then Some(a.lastWindow.value.id) else a.suppressed)
  {
    BackwardsKeepsInv(a, now, input);
    hide Interlock.Updated;
  }

  // ------------------------------------------------------------ expiry is final

  /**
   A run that reaches its deadline ends with the output off. An automatic run's window is
   suppressed, as is the window seen at the end of a manual run, so neither can start again.
   */
  lemma ExpiryBlocks(a: Arbiter, now: Millis, input: Inputs, w: WindowId)
    requires Inv(a) && now >= a.interlock.lastTick && Expired(a, now) && EndsFor(a, now, input, w)
    ensures var c := Policy.Updated(a, now, input);
      && c.run.None? && c.interlock.Relay() == Off
      && Blocked(c, w)
      && (input.switch != SwitchOff ==> c.suppressed == Some(w))
  {
    RunTable(a, now, input);
    SuppressionTable(a, now, input);
    TickTable(a, now, input);
    KnownWindow(a, now, input);
    ApplyKeepsInv(a, Update(now, input));
    IH.ApplyValid(a.interlock, ControlEvent(a, Update(now, input)));
    hide Interlock.Updated, Arbitrated, Policy.Updated;
  }

  /** The window an expiring run ends: its own, or for a manual run the one seen. */
  predicate EndsFor(a: Arbiter, now: Millis, input: Inputs, w: WindowId) {
    a.run.Some? && (if a.run.value.demand == Automatic then a.run.value.windowId == Some(w)
                    else PresentedWindow(a, now, input).Some? && PresentedWindow(a, now, input).value.id == w)
  }

  /**
   The run limit is final: once an accepted tick at or past a run's deadline has ended it for
   window `w`, no later state holds an automatic run for `w` or anything older.
   */
  lemma {:induction false} ExpiryIsFinal(settings: Settings, start: Millis, events: seq<Event>, states: seq<Arbiter>,
                                         i: nat, j: nat, w: WindowId)
    requires History(settings, start, events, states) && i < j <= |events|
    requires events[i].Update? && events[i].now >= states[i].interlock.lastTick
    requires Expired(states[i], events[i].now) && EndsFor(states[i], events[i].now, events[i].input, w)
    ensures Blocked(states[j], w)
    ensures states[j].Demand() == Automatic ==>
      states[j].run.value.windowId.Some? && states[j].run.value.windowId.value > w
    decreases j
  {
    hide Apply, EndsFor, Expired;
    HistoryInv(settings, start, events, states, j - 1);
    assert states[j] == Apply(states[j - 1], events[j - 1]);
    if j == i + 1 {
      ExpiryBlocks(states[i], events[i].now, events[i].input, w);
      UpdateApplies(states[i], events[i]);
    } else {
      ExpiryIsFinal(settings, start, events, states, i, j - 1, w);
      BlockedStep(states[j - 1], events[j - 1], w);
    }
  }

  lemma UpdateApplies(a: Arbiter, e: Event)
    requires a.Valid() && e.Update?
    ensures Apply(a, e) == Policy.Updated(a, e.now, e.input)
  {
  }

  // ----------------------------------------------------------- what is energised

  /** An output on for an automatic run has a window in sight this very tick, and never outlives it. */
  lemma EnergisedAutomaticIsSeen(a: Arbiter, now: Millis, input: Inputs)
    requires Inv(a) && Policy.Updated(a, now, input).interlock.Relay() == On
    requires Policy.Updated(a, now, input).Demand() == Automatic
    ensures now >= a.interlock.lastTick && SeesSome(a, now, input)
    ensures var w := PresentedWindow(a, now, input).value;
      Sees(a, now, input, w) && Policy.Updated(a, now, input).run.value.deadline <= w.endsAt
  {
    var c := ControlEvent(a, Update(now, input));
    InterlockSimulates(a, Update(now, input));
    RunningNeedsDemand(a.interlock, now, c.reading, c.command, c.demand);
    TickTable(a, now, input);
    RunTable(a, now, input);
    SeenIsPresented(a, now, input, PresentedWindow(a, now, input).value);
    hide Interlock.Updated, Arbitrated, Policy.Updated;
  }

  /**
   Lengthening the limit extends no run, shortening cuts it from its own request, and new
   interlock settings, but those alone, make the low and recovery series start again.
   */
  lemma ReconfigureTable(a: Arbiter, settings: Settings)
    requires Inv(a)
    ensures var b := Reconfigured(a, settings);
      && b.settings == settings && b.lastWindow == a.lastWindow && b.suppressed == a.suppressed
      && b.interlock.state == a.interlock.state && b.interlock.offSince == a.interlock.offSince
      && b.interlock.lastTick == a.interlock.lastTick && b.interlock.config == settings.interlock
      && (if settings.interlock == a.settings.interlock
          then b.interlock.lowSince == a.interlock.lowSince && b.interlock.recoverySince == a.interlock.recoverySince
          else b.interlock.lowSince.None? && b.interlock.recoverySince.None?)
      && (a.run.None? ==> b.run.None?)
      && (a.run.Some? ==>
            b.run == Some(a.run.value.(deadline := Min(a.run.value.deadline,
                                                       SatAdd(a.run.value.requestedAt, settings.maxRunMs)))))
  {
  }

  /** A manual run is energised as soon as the sample is usable and the output has rested, recovery or not. */
  lemma ManualStarts(a: Arbiter, now: Millis, input: Inputs)
    requires Inv(a) && Manual(a, now, input) && input.hardware == Allowed
    requires IT.Usable(a.interlock, now, input.reading, input.maintenance)
    requires a.interlock.Relay() == On || IT.Rested(a.interlock, now)
    ensures Policy.Updated(a, now, input).interlock.Relay() == On
    ensures Policy.Updated(a, now, input).Demand() == Override
  {
    RunTable(a, now, input);
    TickTable(a, now, input);
    IT.UsableTick(a.interlock, now, input.reading, input.maintenance, Override);
    hide Interlock.Updated, Arbitrated, Policy.Updated;
  }
}
