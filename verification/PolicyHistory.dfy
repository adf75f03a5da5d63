/**
 What arbitration guarantees over every sequence of updates and reconfigurations:
 bounded energised stretches, window watermarks, and the interlock's own history.
 */
module PolicyHistory {
  import opened Base
  import opened Interlock
  import opened Policy
  import IH = InterlockHistory

  datatype Event =
    | Update(now: Millis, input: Inputs)
    | Reconfigure(settings: Settings)

  function Apply(a: Arbiter, e: Event): Arbiter
    requires a.Valid()
  {
    match e
    case Update(now, input) => Policy.Updated(a, now, input)
    case Reconfigure(settings) => Reconfigured(a, settings)
  }

  ghost predicate RunInv(a: Arbiter) {
    a.run.Some? ==>
      var run := a.run.value;
      && run.demand != NoDemand
      && run.requestedAt <= a.interlock.lastTick
      && run.deadline <= SatAdd(run.requestedAt, a.settings.maxRunMs)
      && (run.demand == Automatic ==>
            && run.windowId.Some?
            && a.lastWindow.Some?
            && run.windowId.value <= a.lastWindow.value.id
            && (a.suppressed.Some? ==> a.suppressed.value < run.windowId.value))
  }

  /** Holds at boot and after every event. */
  ghost predicate Inv(a: Arbiter) {
    && a.Valid()
    && a.interlock.config == a.settings.interlock
    && (a.interlock.Relay() == On ==> a.run.Some?)
    && (a.suppressed.Some? ==> a.lastWindow.Some? && a.suppressed.value <= a.lastWindow.value.id)
    && RunInv(a)
  }

  /** `w2` is a later view of the same watermark: a newer id, or the same id ending no later. */
  predicate WindowAdvances(w1: Option<Window>, w2: Option<Window>) {
    w1.Some? ==>
      && w2.Some?
      && w1.value.id <= w2.value.id
      && (w1.value.id == w2.value.id ==> w2.value.endsAt <= w1.value.endsAt)
  }

  predicate IdAdvances(i1: Option<WindowId>, i2: Option<WindowId>) {
    i1.Some? ==> i2.Some? && i1.value <= i2.value
  }

  /** What every arbitration stage keeps at time `now`; the interlock is not consulted yet. */
  ghost predicate StageInv(a: Arbiter, now: Millis) {
    && (a.suppressed.Some? ==> a.lastWindow.Some? && a.suppressed.value <= a.lastWindow.value.id)
    && RunInv(a.(interlock := a.interlock.(lastTick := now)))
  }

  ghost predicate StageAdvances(a: Arbiter, b: Arbiter) {
    && b.interlock == a.interlock
    && b.settings == a.settings
    && WindowAdvances(a.lastWindow, b.lastWindow)
    && IdAdvances(a.suppressed, b.suppressed)
  }

  /** A presented window is the newest admitted one. */
  ghost predicate Presents(a: Arbiter, window: Option<Window>) {
    window.Some? ==> a.lastWindow == window
  }

  /** A held run ends after `now`, except at the last representable millisecond, when it cannot. */
  predicate EndsLater(a: Arbiter, now: Millis) {
    a.run.Some? ==> (now < a.run.value.deadline <==> now < U64_MAX)
  }

  lemma ExpireKeepsInv(a: Arbiter, now: Millis, window: Option<Window>)
    requires StageInv(a, now) && Presents(a, window)
    ensures var (b, expired) := Expire(a, now, window);
      StageInv(b, now) && StageAdvances(a, b) && EndsLater(b, now) && b.lastWindow == a.lastWindow
      && (expired ==> b.run.None?)
  {
  }

  lemma SwitchedKeepsInv(a: Arbiter, now: Millis, window: Option<Window>, expired: bool, switch: Switch)
    requires StageInv(a, now) && Presents(a, window) && EndsLater(a, now)
    ensures var b := Switched(a, now, window, expired, switch);
      StageInv(b, now) && StageAdvances(a, b) && EndsLater(b, now) && b.lastWindow == a.lastWindow
  {
  }

  lemma ScheduledKeepsInv(a: Arbiter, now: Millis, window: Option<Window>, expired: bool, switch: Switch)
    requires StageInv(a, now) && Presents(a, window) && EndsLater(a, now)
    requires window.Some? ==> now < window.value.endsAt
    ensures var b := Scheduled(a, now, window, expired, switch);
      StageInv(b, now) && StageAdvances(a, b) && EndsLater(b, now) && b.lastWindow == a.lastWindow
  {
  }

  lemma ArbitratedKeepsInv(a: Arbiter, now: Millis, input: Inputs)
    requires Inv(a) && now >= a.interlock.lastTick
    ensures var b := Arbitrated(a, now, input);
      && StageInv(b, now) && StageAdvances(a, b) && EndsLater(b, now)
      && Presents(b, PresentedWindow(a, now, input))
  {
    hide RunInv, Expire, Switched, Scheduled;
    var admitted := Admitted(a.lastWindow, input.window);
    var window := Live(admitted, now);
    var seen := if admitted.Some? then a.(lastWindow := admitted) else a;
    AdmittedKeepsInv(a, now, admitted);
    ExpireKeepsInv(seen, now, window);
    var (unexpired, expired) := Expire(seen, now, window);
    SwitchedKeepsInv(unexpired, now, window, expired, input.switch);
    var switched := Switched(unexpired, now, window, expired, input.switch);
    ScheduledKeepsInv(switched, now, window, expired, input.switch);
  }

  lemma AdmittedKeepsInv(a: Arbiter, now: Millis, admitted: Option<Window>)
    requires Inv(a) && now >= a.interlock.lastTick
    requires admitted.Some? ==> WindowAdvances(a.lastWindow, admitted)
    ensures admitted.Some? ==> StageInv(a.(lastWindow := admitted), now)
    ensures StageInv(a, now)
  {
  }

  /** The interlock leaves `Running` unless it is given a demand. */
  lemma RunningNeedsDemand(c: Control, now: Millis, reading: Reading, command: Command, demand: Demand)
    requires c.Valid() && Interlock.Updated(c, now, reading, command, demand).Relay() == On
    ensures demand != NoDemand && now >= c.lastTick && command != EnterMaintenance
    ensures Fresh(c.config, now, reading) && now - c.lastTick <= c.config.maxSampleAgeMs
  {
  }

  /** The interlock part of every supervisor event, as seen by `InterlockHistory`. */
  function ControlEvent(a: Arbiter, e: Event): IH.Event
    requires a.Valid()
  {
    match e
    case Update(now, input) =>
      IH.Tick(now, EffectiveReading(input), input.maintenance,
              if now < a.interlock.lastTick then NoDemand
              else PassedDemand(Arbitrated(a, now, input), PresentedWindow(a, now, input)))
    case Reconfigure(settings) => IH.Retune(settings.interlock)
  }

  /** A supervisor run drives its interlock through exactly those events. */
  lemma InterlockSimulates(a: Arbiter, e: Event)
    requires Inv(a)
    ensures Apply(a, e).interlock == IH.Apply(a.interlock, ControlEvent(a, e))
  {
    if e.Update? && e.now >= a.interlock.lastTick {
      ArbitratedKeepsInv(a, e.now, e.input);
    }
  }

  lemma ForwardKeepsInv(a: Arbiter, now: Millis, input: Inputs)
    requires Inv(a) && now >= a.interlock.lastTick
    ensures var c := ForwardUpdate(a, now, input);
      Inv(c) && WindowAdvances(a.lastWindow, c.lastWindow) && IdAdvances(a.suppressed, c.suppressed)
  {
    hide Interlock.Updated, Arbitrated, RunInv;
    var e := ControlEvent(a, Update(now, input));
    IH.ApplyValid(a.interlock, e);
    ArbitratedKeepsInv(a, now, input);
    var b := Arbitrated(a, now, input);
    var window := PresentedWindow(a, now, input);
    if IH.Apply(a.interlock, e).Relay() == On {
      RunningNeedsDemand(a.interlock, now, e.reading, e.command, e.demand);
    }
    ConsultKeepsInv(a, b, now, window, IH.Apply(a.interlock, e));
  }

  /** Taking over the interlock's answer, and cancelling a faulted override, keeps the invariant. */
  lemma ConsultKeepsInv(a: Arbiter, b: Arbiter, now: Millis, window: Option<Window>, control: Control)
    requires StageInv(b, now) && StageAdvances(a, b) && Presents(b, window)
    requires control.Valid() && control.lastTick == now && control.config == a.settings.interlock
    requires control.Relay() == On ==> b.run.Some?
    ensures var c := b.(interlock := control);
      var d := Suppressing(c.(run := None), window);
      && Inv(c) && WindowAdvances(a.lastWindow, c.lastWindow) && IdAdvances(a.suppressed, c.suppressed)
      && (control.Relay() == Off ==>
            Inv(d) && WindowAdvances(a.lastWindow, d.lastWindow) && IdAdvances(a.suppressed, d.suppressed))
  {
  }

  lemma BackwardsKeepsInv(a: Arbiter, now: Millis, input: Inputs)
    requires Inv(a) && now < a.interlock.lastTick
    ensures var c := BackwardsUpdate(a, now, input);
      Inv(c) && WindowAdvances(a.lastWindow, c.lastWindow) && IdAdvances(a.suppressed, c.suppressed)
    ensures BackwardsUpdate(a, now, input).interlock.Relay() == Off
  {
    var e := ControlEvent(a, Update(now, input));
    IH.ApplyValid(a.interlock, e);
    if IH.Apply(a.interlock, e).Relay() == On {
      RunningNeedsDemand(a.interlock, now, e.reading, e.command, e.demand);
    }
  }

  lemma ApplyKeepsInv(a: Arbiter, e: Event)
    requires Inv(a)
    ensures Inv(Apply(a, e))
    ensures WindowAdvances(a.lastWindow, Apply(a, e).lastWindow)
    ensures IdAdvances(a.suppressed, Apply(a, e).suppressed)
  {
    if e.Update? {
      if e.now < a.interlock.lastTick {
        BackwardsKeepsInv(a, e.now, e.input);
      } else {
        ForwardKeepsInv(a, e.now, e.input);
      }
    }
  }

  /**
   No tick leaves an overdue run, up to saturation: the deadline of whatever run an accepted
   tick holds lies after that tick if and only if the tick is not the last millisecond.
   */
  lemma DeadlineLiesAhead(a: Arbiter, now: Millis, input: Inputs)
    requires Inv(a) && now >= a.interlock.lastTick
    ensures Policy.Updated(a, now, input).run.Some? ==>
      (now < Policy.Updated(a, now, input).run.value.deadline <==> now < U64_MAX)
  {
    ArbitratedKeepsInv(a, now, input);
    hide Interlock.Updated, Arbitrated;
  }

  function Hasty(): Settings {
    Settings(Config(0, 1, 1, Timing(1, 1, 1)), 1)
  }

  function OnAt(now: Millis): Inputs {
    Inputs(Valid(1, now), None, SwitchOn, NoCommand, Allowed)
  }

  /**
   The one exception is real: a device booted a millisecond earlier is energised at the last
   millisecond by a run whose saturated deadline is that very tick; the next tick ends it.
   */
  lemma LastMillisecondEnergises()
    ensures Inv(Policy.Initial(Hasty(), U64_MAX - 1))
    ensures var a := Policy.Updated(Policy.Initial(Hasty(), U64_MAX - 1), U64_MAX, OnAt(U64_MAX));
      && a.interlock.Relay() == On && a.run.Some? && a.run.value.deadline == U64_MAX
      && Policy.Updated(a, U64_MAX, OnAt(U64_MAX)).interlock.Relay() == Off
  {
  }

  /** `states[i]` is the supervisor after the first `i` events since boot at `start`. */
  ghost predicate History(settings: Settings, start: Millis, events: seq<Event>, states: seq<Arbiter>) {
    && |states| == |events| + 1
    && states[0] == Policy.Initial(settings, start)
    && forall i :: 0 <= i < |events| ==> states[i].Valid() && states[i + 1] == Apply(states[i], events[i])
  }

  lemma {:induction false} HistoryInv(settings: Settings, start: Millis, events: seq<Event>, states: seq<Arbiter>, n: nat)
    requires History(settings, start, events, states) && n <= |events|
    ensures Inv(states[n])
  {
    if n > 0 {
      HistoryInv(settings, start, events, states, n - 1);
      ApplyKeepsInv(states[n - 1], events[n - 1]);
    }
  }

  /** Window watermarks: ids only grow, and one id's end never moves later. */
  lemma {:induction false} WatermarksAdvance(settings: Settings, start: Millis, events: seq<Event>, states: seq<Arbiter>, i: nat, j: nat)
    requires History(settings, start, events, states) && i <= j <= |events|
    ensures WindowAdvances(states[i].lastWindow, states[j].lastWindow)
    ensures IdAdvances(states[i].suppressed, states[j].suppressed)
    decreases j - i
  {
    hide Inv, Apply;
    if i < j {
      WatermarksAdvance(settings, start, events, states, i, j - 1);
      HistoryInv(settings, start, events, states, j - 1);
      ApplyKeepsInv(states[j - 1], events[j - 1]);
    }
  }

  /** No automatic run for `w` or anything older is held, nor can one be started again. */
  ghost predicate Blocked(a: Arbiter, w: WindowId) {
    && a.lastWindow.Some?
    && (a.Demand() == Automatic ==> a.run.value.windowId.Some? && a.run.value.windowId.value > w)
    && (|| a.lastWindow.value.id > w
        || (a.lastWindow.value.id == w
            && (a.suppressed == Some(w) || a.lastWindow.value.endsAt <= a.interlock.lastTick)))
  }

  lemma OffBlocksStep(a: Arbiter, now: Millis, input: Inputs)
    requires Inv(a) && input.switch == SwitchOff
    requires Policy.Updated(a, now, input).lastWindow.Some?
    ensures var c := Policy.Updated(a, now, input); Blocked(c, c.lastWindow.value.id)
  {
    var e := ControlEvent(a, Update(now, input));
    IH.ApplyValid(a.interlock, e);
    hide Interlock.Updated;
  }

  /** Arbitration at time `now` keeps `w` blocked, once time has reached `now`. */
  lemma BlockedArbitrated(a: Arbiter, now: Millis, input: Inputs, w: WindowId)
    requires Inv(a) && Blocked(a, w) && now >= a.interlock.lastTick
    ensures var b := Arbitrated(a, now, input); Blocked(b.(interlock := b.interlock.(lastTick := now)), w)
  {
  }

  lemma BlockedForward(a: Arbiter, now: Millis, input: Inputs, w: WindowId)
    requires Inv(a) && Blocked(a, w) && now >= a.interlock.lastTick
    ensures Blocked(ForwardUpdate(a, now, input), w)
  {
    hide Interlock.Updated, Arbitrated, RunInv;
    var e := ControlEvent(a, Update(now, input));
    IH.ApplyValid(a.interlock, e);
    ArbitratedKeepsInv(a, now, input);
    BlockedArbitrated(a, now, input, w);
  }

  lemma BlockedStep(a: Arbiter, e: Event, w: WindowId)
    requires Inv(a) && Blocked(a, w)
    ensures Blocked(Apply(a, e), w)
  {
    IH.ApplyValid(a.interlock, ControlEvent(a, e));
    if e.Update? && e.now >= a.interlock.lastTick {
      BlockedForward(a, e.now, e.input, w);
    }
    hide Interlock.Updated;
  }

  /**
   Off is final for its window: after an update with the switch off, no later state
   holds (or energises) an automatic run for the newest window known then, nor for any
   older one, even if the window was withheld or the clock ran backwards at the Off.
   */
  lemma {:induction false} OffIsFinal(settings: Settings, start: Millis, events: seq<Event>, states: seq<Arbiter>, i: nat, j: nat)
    requires History(settings, start, events, states) && i < j <= |events|
    requires events[i].Update? && events[i].input.switch == SwitchOff
    requires states[i + 1].lastWindow.Some?
    ensures states[j].Demand() == Automatic ==>
      states[j].run.value.windowId.Some?
      && states[j].run.value.windowId.value > states[i + 1].lastWindow.value.id
    ensures Blocked(states[j], states[i + 1].lastWindow.value.id)
    decreases j - i
  {
    if j == i + 1 {
      HistoryInv(settings, start, events, states, i);
      OffBlocksStep(states[i], events[i].now, events[i].input);
    } else {
      OffIsFinal(settings, start, events, states, i, j - 1);
      HistoryInv(settings, start, events, states, j - 1);
      BlockedStep(states[j - 1], events[j - 1], states[i + 1].lastWindow.value.id);
    }
  }

  /** `b` continues the energised run of `a`: same request, no later deadline. */
  ghost predicate Continues(a: Arbiter, b: Arbiter) {
    && a.run.Some? && b.run.Some?
    && b.run.value.requestedAt == a.run.value.requestedAt
    && b.run.value.deadline <= a.run.value.deadline
  }

  /** An output that stays on keeps its run; only a tick before the deadline can leave it on. */
  lemma StretchStep(a: Arbiter, e: Event)
    requires Inv(a) && a.interlock.Relay() == On && Apply(a, e).interlock.Relay() == On
    ensures Continues(a, Apply(a, e))
    ensures e.Update? ==> e.now < Apply(a, e).run.value.deadline
  {
    if e.Update? {
      var c := ControlEvent(a, e);
      RunningNeedsDemand(a.interlock, e.now, c.reading, c.command, c.demand);
      InterlockSimulates(a, e);
    }
    hide Interlock.Updated;
  }

  /** An output that is on after a tick has a run requested no later than that tick. */
  lemma EnergisedHasRun(a: Arbiter, e: Event)
    requires Inv(a) && e.Update? && Apply(a, e).interlock.Relay() == On
    ensures Apply(a, e).run.Some? && Apply(a, e).run.value.requestedAt <= e.now
    ensures Apply(a, e).run.value.deadline <= e.now + a.settings.maxRunMs
    ensures Apply(a, e).settings == a.settings
  {
    var c := ControlEvent(a, e);
    InterlockSimulates(a, e);
    RunningNeedsDemand(a.interlock, e.now, c.reading, c.command, c.demand);
    IH.ApplyValid(a.interlock, c);
    ApplyKeepsInv(a, e);
    hide Interlock.Updated;
  }

  /** `events[i..j]` all left the output on. */
  ghost predicate Energised(states: seq<Arbiter>, i: nat, j: nat)
    requires j + 1 < |states|
  {
    forall k :: i < k <= j + 1 ==> states[k].interlock.Relay() == On
  }

  /**
   Bounded stretch: if every event from tick `i` to tick `j` leaves the output on, the
   run never changes, its deadline never grows, and tick `j` lies strictly within the
   run limit in force at tick `i`.
   */
  lemma {:induction false} StretchIsBounded(settings: Settings, start: Millis, events: seq<Event>, states: seq<Arbiter>, i: nat, j: nat)
    requires History(settings, start, events, states) && i <= j < |events|
    requires events[i].Update? && Energised(states, i, j)
    ensures states[i + 1].run.Some? && states[j + 1].run.Some?
    ensures Continues(states[i + 1], states[j + 1])
    ensures events[j].Update? ==> events[j].now < events[i].now + states[i].settings.maxRunMs
    decreases j - i
  {
    hide Inv, Apply;
    HistoryInv(settings, start, events, states, i);
    assert states[i + 1].interlock.Relay() == On;
    assert states[i].Valid();
    EnergisedHasRun(states[i], events[i]);
    if i < j {
      StretchIsBounded(settings, start, events, states, i, j - 1);
      HistoryInv(settings, start, events, states, j);
      assert states[j].interlock.Relay() == On && states[j + 1].interlock.Relay() == On;
      StretchStep(states[j], events[j]);
    }
  }

  /** The interlock history hidden inside a supervisor history. */
  ghost function ControlEvents(events: seq<Event>, states: seq<Arbiter>): (r: seq<IH.Event>)
    requires |states| == |events| + 1
    requires forall i :: 0 <= i < |events| ==> states[i].Valid()
    ensures |r| == |events|
    ensures forall i :: 0 <= i < |events| ==> r[i] == ControlEvent(states[i], events[i])
  {
    seq(|events|, i requires 0 <= i < |events| => ControlEvent(states[i], events[i]))
  }

  ghost function Controls(states: seq<Arbiter>): (r: seq<Control>)
    ensures |r| == |states|
    ensures forall i :: 0 <= i < |states| ==> r[i] == states[i].interlock
  {
    seq(|states|, i requires 0 <= i < |states| => states[i].interlock)
  }

  lemma ControlHistory(settings: Settings, start: Millis, events: seq<Event>, states: seq<Arbiter>)
    requires History(settings, start, events, states)
    ensures IH.History(settings.interlock, start, ControlEvents(events, states), Controls(states))
  {
    forall i | 0 <= i < |events|
      ensures Controls(states)[i].Valid()
      ensures Controls(states)[i + 1] == IH.Apply(Controls(states)[i], ControlEvents(events, states)[i])
    {
      HistoryInv(settings, start, events, states, i);
      InterlockSimulates(states[i], events[i]);
    }
  }

  /** The newest time the interlock has seen in the first `n` events. */
  ghost function HighWater(start: Millis, events: seq<Event>, states: seq<Arbiter>, n: nat): Millis
    requires |states| == |events| + 1 && n <= |events|
    requires forall i :: 0 <= i < |events| ==> states[i].Valid()
  {
    IH.HighWater(start, ControlEvents(events, states), n)
  }

  /**
   Minimum off at the supervisor: the output was first off after `k` events and off
   until event `n`; if event `n` turns it on, it is a tick, time has not stepped back, and
   at least the minimum-off time has passed since the clock reading of the turn-off.
   */
  lemma TurnOnRespectsMinimumOff(settings: Settings, start: Millis, events: seq<Event>, states: seq<Arbiter>, k: nat, n: nat)
    requires History(settings, start, events, states) && k <= n < |events|
    requires IH.OffFrom(Controls(states), k, n)
    requires states[n + 1].interlock.Relay() == On
    ensures events[n].Update? && events[n].now >= HighWater(start, events, states, n)
    ensures events[n].now - HighWater(start, events, states, k) >= states[n].settings.interlock.timing.minimumOffMs
  {
    ControlHistory(settings, start, events, states);
    IH.MinimumOff(settings.interlock, start, ControlEvents(events, states), Controls(states), k, n);
    HistoryInv(settings, start, events, states, n);
  }

  /** A tick presenting a fresh, allowed sample at or above restart, on time and without maintenance. */
  ghost predicate GoodTick(a: Arbiter, e: Event) {
    e.Update? ==>
      && a.interlock.lastTick <= e.now <= a.interlock.lastTick + a.settings.interlock.maxSampleAgeMs
      && e.input.hardware == Allowed
      && Fresh(a.settings.interlock, e.now, e.input.reading)
      && e.input.reading.level >= a.settings.interlock.restart
      && e.input.maintenance != EnterMaintenance
  }

  /**
   An automatic turn-on follows an unbroken series of good ticks under one interlock
   configuration, whose newest acquisition lies the recovery time past its first tick.
   */
  lemma AutomaticTurnOnNeedsRecovery(settings: Settings, start: Millis, events: seq<Event>, states: seq<Arbiter>, n: nat)
    returns (i: nat)
    requires History(settings, start, events, states) && n < |events|
    requires states[n].interlock.Relay() == Off && states[n + 1].interlock.Relay() == On
    requires states[n + 1].Demand() == Automatic
    ensures i <= n && events[i].Update? && events[n].Update?
    ensures forall k :: i <= k <= n ==> GoodTick(states[k], events[k])
    ensures forall k :: i <= k <= n ==> states[k].settings.interlock == states[n].settings.interlock
    ensures events[n].input.reading.observedAt - events[i].now
         >= states[n].settings.interlock.timing.recoveryMs
  {
    ControlHistory(settings, start, events, states);
    HistoryInv(settings, start, events, states, n);
    var ces := ControlEvents(events, states);
    InterlockSimulates(states[n], events[n]);
    assert ces[n].Tick?;
    TurnOnDemand(states[n], events[n]);
    i := IH.AutomaticNeedsRecovery(settings.interlock, start, ces, Controls(states), n);
    forall k | i <= k <= n
      ensures GoodTick(states[k], events[k])
    {
      HistoryInv(settings, start, events, states, k);
      assert IH.Evidence(Controls(states)[k], ces[k]);
    }
    SeriesKeepsSettings(settings, start, events, states, i, n);
  }

  lemma TurnOnDemand(a: Arbiter, e: Event)
    requires Inv(a) && e.Update? && Apply(a, e).interlock.Relay() == On
    ensures ControlEvent(a, e).demand == Apply(a, e).Demand()
  {
    var c := ControlEvent(a, e);
    InterlockSimulates(a, e);
    RunningNeedsDemand(a.interlock, e.now, c.reading, c.command, c.demand);
    hide Interlock.Updated;
  }

  lemma {:induction false} SeriesKeepsSettings(settings: Settings, start: Millis, events: seq<Event>, states: seq<Arbiter>, i: nat, n: nat)
    requires History(settings, start, events, states) && i <= n < |events|
    requires forall k :: i <= k <= n ==> IH.Evidence(Controls(states)[k], ControlEvents(events, states)[k])
    ensures forall k :: i <= k <= n ==> states[k].settings.interlock == states[n].settings.interlock
    decreases n - i
  {
    HistoryInv(settings, start, events, states, i);
    if i < n {
      HistoryInv(settings, start, events, states, i + 1);
      assert IH.Evidence(Controls(states)[i], ControlEvents(events, states)[i]);
      InterlockSimulates(states[i], events[i]);
      IH.ApplyValid(states[i].interlock, ControlEvent(states[i], events[i]));
      SeriesKeepsSettings(settings, start, events, states, i + 1, n);
    }
  }
}
