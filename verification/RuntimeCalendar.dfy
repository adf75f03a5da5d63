/**
 The clock and the calendar over steps and runs of the runtime: what takes a clock away, what a
 step without one still allows, and that no authority ever comes back.
 */
module RuntimeCalendar {
  import opened Base
  import opened Interlock
  import opened Occurrences
  import opened Retained
  import opened Runtime
  import opened RuntimeInvariant
  import opened RuntimeSafety
  import opened RuntimeRuns
  import Utc
  import P = Policy
  import PH = PolicyHistory
  import PR = PolicyRuns
  import S = Schedule
  import SI = ScheduleInterval

  /** A step that leaves an automatic run energised. */
  ghost predicate RunsAutomatic(r: Rt, input: Input) {
    && PlanOf(r, input).committed.Valid()
    && Next(r, input).Relay() == On
    && Next(r, input).Demand() == Automatic
  }

  /** A step that energises an automatic run was shown some window. */
  lemma AutomaticIsShown(r: Rt, input: Input)
    requires Inv(r) && RunsAutomatic(r, input)
    ensures PlanOf(r, input).inputs.window.Some?
  {
    hide Inv, MakePlan, Core, Advances, PH.Inv, P.Updated;
    PlanKeepsInv(r, input.observed, input.request, input.completion);
    var plan := PlanOf(r, input);
    CoreSupervisor(plan.committed) by { CommittedCore(plan.committed); }
    PR.EnergisedAutomaticIsSeen(plan.committed.supervisor.value, input.observed.now, plan.inputs);
  }

  lemma CommittedCore(r: Rt)
    requires Inv(r)
    ensures Core(r)
  {
    hide Core;
  }

  // ------------------------------------------------------- the saved window

  /** No saved window may start a run. */
  predicate Ineligible(r: Rt) {
    r.SavedWindow().Some? ==> r.SavedWindow().value.disposition == Suppressed
  }

  /** The saved window may start a run only if it is newer than the one `before` held. */
  predicate OnlyNewer(before: Rt, r: Rt) {
    || Ineligible(r)
    || before.SavedWindow().None?
    || r.SavedWindow().value.id > before.SavedWindow().value.id
  }

  /** The stages between admission and commit, applied to a runtime without an eligible window. */
  lemma IneligibleStays(seen: Rt, decision: Option<S.Decision>, explicitOff: bool, before: P.Switch, switch: P.Switch)
    requires decision.Some? ==> SI.Respects(decision.value, seen.SavedWindow())
    requires Ineligible(seen)
    ensures !(decision.Some? && decision.value.Active?)
    ensures OnlyNewer(seen, Persist(Calendar(seen, decision, before).0, decision, explicitOff, switch))
    ensures LosesCalendar(decision) ==> Ineligible(Persist(Calendar(seen, decision, before).0, decision, explicitOff, switch))
  {
  }

  lemma LossSuppresses(seen: Rt, decision: Option<S.Decision>, explicitOff: bool, before: P.Switch, switch: P.Switch)
    requires LosesCalendar(decision)
    ensures Ineligible(Persist(Calendar(seen, decision, before).0, decision, explicitOff, switch))
  {
  }

  lemma CommitKeepsWindow(r: Rt, pressed: bool, defers: bool)
    ensures var c := Commit(r, pressed, defers).0;
      && (c.SavedWindow().Some? <==> r.SavedWindow().Some?)
      && (r.SavedWindow().Some? ==>
            c.SavedWindow().value.id == r.SavedWindow().value.id && c.SavedWindow().value.endsUtc == r.SavedWindow().value.endsUtc)
      && (Ineligible(r) ==> Ineligible(c))
      && c.clock == r.clock && c.clockGeneration == r.clockGeneration && c.clockExhausted == r.clockExhausted
  {
    hide Commit, EnsureStore;
    CommitFrame(r, pressed, defers);
    EnsureStoreOutcomes(r);
  }

  /** The last stages, from what the calendar is asked on, to the end of the step. */
  lemma LateClock(r: Rt, input: Input)
    requires Inv(r) && PlanOf(r, input).committed.Valid()
    ensures var plan, n := PlanOf(r, input), Next(r, input);
      && n.clock == plan.seen.clock && n.clockGeneration == plan.seen.clockGeneration
      && n.clockExhausted == plan.seen.clockExhausted
      && (LosesCalendar(plan.decision) ==> Ineligible(n))
      && (Ineligible(plan.seen) ==> OnlyNewer(plan.seen, n))
      && (LosesCalendar(plan.decision) || Ineligible(plan.seen) ==> plan.inputs.window.None?)
  {
    hide Inv, Core, Advances, Settle, Admit, ObserveUtc, Decide, Calendar, Persist, Commit, Defers, ControlInputs, Next,
         SI.Respects, LosesCalendar;
    var plan := PlanOf(r, input);
    PlanKeepsInv(r, input.observed, input.request, input.completion);
    NextRecords(r, input);
    PlanStages(r, input.observed, input.request, input.completion);
    PersistKeepsClock(plan.seen, plan.decision, plan.explicitOff, plan.admission.switch, plan.switch);
    CommitKeepsWindow(plan.persisted, input.observed.maintenancePressed, plan.defers);
    WindowNeedsActive(plan.committed, input.observed, plan.decision, plan.explicitOff, plan.switch, plan.defers);
    if LosesCalendar(plan.decision) {
      LossSuppresses(plan.seen, plan.decision, plan.explicitOff, plan.admission.switch, plan.switch);
    }
    if Ineligible(plan.seen) {
      IneligibleStays(plan.seen, plan.decision, plan.explicitOff, plan.admission.switch, plan.switch);
      OnlyNewerCarries(plan.seen, plan.persisted, Next(r, input));
    }
  }

  lemma OnlyNewerCarries(seen: Rt, p: Rt, n: Rt)
    requires OnlyNewer(seen, p)
    requires n.SavedWindow().Some? <==> p.SavedWindow().Some?
    requires p.SavedWindow().Some? ==> n.SavedWindow().value.id == p.SavedWindow().value.id
    requires Ineligible(p) ==> Ineligible(n)
    ensures OnlyNewer(seen, n)
  {
  }

  lemma PersistKeepsClock(r: Rt, decision: Option<S.Decision>, explicitOff: bool, before: P.Switch, switch: P.Switch)
    ensures var p := Persist(Calendar(r, decision, before).0, decision, explicitOff, switch);
      p.clock == r.clock && p.clockGeneration == r.clockGeneration && p.clockExhausted == r.clockExhausted
  {
  }

  lemma WindowNeedsActive(r: Rt, observed: Observed, decision: Option<S.Decision>, explicitOff: bool, switch: P.Switch, defers: bool)
    ensures ControlInputs(r, observed, decision, explicitOff, switch, defers).window.Some? ==>
      decision.Some? && decision.value.Active? && !LosesCalendar(decision)
  {
  }

  /** Without a clock the schedule decides nothing. */
  lemma NoClockDecides(r: Rt, input: Input)
    requires Inv(r) && PlanOf(r, input).committed.Valid()
    ensures PlanOf(r, input).seen.clock.None? ==> LosesCalendar(PlanOf(r, input).decision)
  {
    hide Inv, Core, Settle, Admit, Calendar, Persist, Commit, Defers, ControlInputs, Next, Utc.AnchorBounds, Utc.AnchorAfter;
    var plan := PlanOf(r, input);
    var observedUtc := ObserveUtc(plan.admission.rt, input.observed.now);
    assert plan.seen == observedUtc.0 && plan.decision == Decide(plan.seen, input.observed.now, observedUtc.1);
    hide ObserveUtc;
    DecideWithoutClock(plan.seen, input.observed.now, observedUtc.1);
  }

  lemma DecideWithoutClock(r: Rt, now: Millis, bounds: Option<Utc.Bounds>)
    ensures r.clock.None? ==> LosesCalendar(Decide(r, now, bounds))
  {
  }

  /**
   No clock, no automatic output: a step that ends without a clock ends with no window that
   may start a run and with no automatic run energised.
   */
  lemma NoClockNoRun(r: Rt, input: Input)
    requires Inv(r) && PlanOf(r, input).committed.Valid() && Next(r, input).clock.None?
    ensures Ineligible(Next(r, input)) && !RunsAutomatic(r, input)
  {
    hide Inv, PlanOf, Next, LosesCalendar, Ineligible, RunsAutomatic;
    LateClock(r, input);
    NoClockDecides(r, input);
    if RunsAutomatic(r, input) {
      AutomaticIsShown(r, input);
    }
  }

  // ------------------------------------------------------- what happens to a clock

  /** The clock in force was taken from the network. */
  predicate OfNetwork(r: Rt) {
    r.clock.Some? && r.clock.value.authority.source.Network?
  }

  /**
   `b` has the clock of `a`, none, or one under a generation `a` had not reached; a clock lost
   uses up a generation too, or the last one has gone.
   */
  predicate ClockFrom(a: Rt, b: Rt) {
    && a.clockGeneration <= b.clockGeneration
    && (a.clockExhausted ==> b.clockExhausted)
    && (a.clock.Some? && b.clock.None? ==> a.clockGeneration < b.clockGeneration || b.clockExhausted)
    && (b.clock.Some? ==>
          || (a.clock.Some? && b.clock.value.authority == a.clock.value.authority)
          || (!a.clockExhausted && a.clockGeneration < b.clock.value.authority.generation <= b.clockGeneration))
  }

  /** Whatever clock `a` had is gone. */
  predicate Replaced(a: Rt, b: Rt) {
    b.clock.Some? ==> b.clock.value.authority.generation > a.clockGeneration
  }

  predicate SameWindow(a: Rt, b: Rt) {
    && (a.SavedWindow().Some? <==> b.SavedWindow().Some?)
    && (a.SavedWindow().Some? ==> a.SavedWindow().value.id == b.SavedWindow().value.id)
    && (Ineligible(a) ==> Ineligible(b))
  }

  lemma ClockFromTransitive(a: Rt, b: Rt, c: Rt)
    requires ClockFrom(a, b) && ClockFrom(b, c)
    ensures ClockFrom(a, c) && (Replaced(a, b) ==> Replaced(a, c))
  {
  }

  lemma InvalidatedClock(r: Rt)
    ensures var s := InvalidateClock(r);
      ClockFrom(r, s) && s.clock.None? && SameWindow(r, s) && Ineligible(s)
  {
  }

  /** When a clock is accepted, and what it then is; a rejected one changes nothing, one too many drops the clock. */
  lemma SetClockTable(r: Rt, sample: Utc.Observation, now: Millis, source: Source)
    ensures var (s, result) := SetClock(r, sample, now, source);
      var acceptable := source != Network(0) && Utc.BoundsAt(sample, now).Some? && HasCivilTime(r, Utc.BoundsAt(sample, now).value);
      var left := !r.clockExhausted && r.clockGeneration < U64_MAX;
      && (result.Ok? <==> acceptable && left)
      && (result.Ok? ==>
            s == r.(clockGeneration := r.clockGeneration + 1,
                    clock := Some(Clock(Utc.Anchor(Some(sample), now), Authority(sample, r.clockGeneration + 1, source)))))
      && (!acceptable ==> s == r && result == Err(InvalidTime))
      && (acceptable && !left ==> s.clock.None? && s.clockExhausted && Ineligible(s) && result == Err(Exhausted))
      && ClockFrom(r, s) && SameWindow(r, s)
      && (result.Ok? ==> Replaced(r, s))
  {
    hide Utc.BoundsAt, HasCivilTime;
  }

  /** Reading the clock drops it for good once it has aged out, and suppresses a window that has ended. */
  lemma ObservedClock(r: Rt, now: Millis)
    ensures var (s, bounds) := ObserveUtc(r, now);
      && ClockFrom(r, s) && SameWindow(r, s)
      && (s.clock.Some? <==> r.clock.Some? && Utc.AnchorBounds(r.clock.value.anchor, now).Some?)
      && (s.clock.Some? ==> s.clock.value.authority == r.clock.value.authority)
      && (r.clock.Some? && s.clock.None? ==> Ineligible(s))
      && (bounds.Some? ==> s.clock.Some? && bounds == Utc.AnchorBounds(r.clock.value.anchor, now))
      && (bounds.Some? && s.SavedWindow().Some? && bounds.value.latestMs / 1000 >= s.SavedWindow().value.endsUtc ==>
            Ineligible(s))
  {
    hide Utc.AnchorBounds, Utc.AnchorAfter;
  }

  /** A revocation takes a network clock and its window's eligibility; any sample replaces a network clock, or takes it when refused. */
  lemma UpdatedClock(r: Rt, update: ClockUpdate, now: Millis)
    ensures var s := TakeClockUpdate(r, update, now);
      && ClockFrom(r, s) && SameWindow(r, s)
      && (OfNetwork(r) && (update.revokeNetwork || update.sample.Some?) ==> Replaced(r, s))
      && (OfNetwork(r) && update.revokeNetwork ==> Ineligible(s))
      && (update.sample.None? && !(OfNetwork(r) && update.revokeNetwork) ==> s == r)
      && (update.sample.None? && (r.clock.None? || (OfNetwork(r) && update.revokeNetwork)) ==> s.clock.None?)
  {
    var revoked := if update.revokeNetwork && OfNetwork(r) then InvalidateClock(r) else r;
    InvalidatedClock(r);
    assert ClockFrom(r, revoked) && SameWindow(r, revoked);
    if update.sample.Some? {
      var sample := update.sample.value;
      var (next, result) := SetClock(revoked, sample.observation, now, Network(sample.epoch));
      SetClockTable(revoked, sample.observation, now, Network(sample.epoch));
      InvalidatedClock(next);
      ClockFromTransitive(r, revoked, next);
      ClockFromTransitive(r, next, InvalidateClock(next));
    }
    hide InvalidateClock, SetClock, Utc.BoundsAt, HasCivilTime;
  }

  /** A network sample with an epoch, a civil time at both ends and an identity left to give becomes the clock. */
  lemma NetworkSampleIsTaken(r: Rt, update: ClockUpdate, now: Millis)
    requires update.sample.Some? && update.sample.value.epoch != 0 && r.configuration.Some?
    requires var b := Utc.BoundsAt(update.sample.value.observation, now);
      && b.Some?
      && r.configuration.value.timezone.civilAt(b.value.earliestMs / 1000).Some?
      && r.configuration.value.timezone.civilAt(b.value.latestMs / 1000).Some?
    requires r.clockGeneration < U64_MAX - 1 && !r.clockExhausted
    ensures var s, o := TakeClockUpdate(r, update, now), update.sample.value.observation;
      s.clock == Some(Clock(Utc.Anchor(Some(o), now), Authority(o, s.clockGeneration, Network(update.sample.value.epoch))))
  {
    hide Utc.BoundsAt;
  }

  predicate SameClock(a: Rt, b: Rt) {
    b.clock == a.clock && b.clockGeneration == a.clockGeneration && b.clockExhausted == a.clockExhausted
  }

  lemma LatchKeepsClock(r: Rt)
    ensures SameClock(r, LatchMaintenance(r)) && SameWindow(r, LatchMaintenance(r))
  {
  }

  lemma PressKeepsClock(r: Rt, pressed: bool)
    ensures SameClock(r, Press(r, pressed).0) && SameWindow(r, Press(r, pressed).0)
  {
    LatchKeepsClock(r);
    hide LatchMaintenance;
  }

  lemma CompleteKeepsClock(r: Rt, completion: Completion, now: Millis)
    ensures SameClock(r, Complete(r, completion, now).0) && SameWindow(r, Complete(r, completion, now).0)
  {
    if completion.succeeded {
      SuccessKeepsClock(r, completion, now);
    } else {
      FailureKeepsClock(r, completion, now);
    }
    hide Complete;
  }

  lemma SuccessKeepsClock(r: Rt, completion: Completion, now: Millis)
    requires completion.succeeded
    ensures SameClock(r, Complete(r, completion, now).0) && SameWindow(r, Complete(r, completion, now).0)
  {
    hide LatchMaintenance, Enqueue, Finish, P.Reconfigured, P.Initial;
    if r.pending.Some? && r.replacement.Some? && r.pending.value.record.RetainedRecord? {
      EnqueueKeepsClock(r.(pending := None, durable := Some(r.pending.value.record.state)),
                        ConfigurationRecord(r.replacement.value));
    }
  }

  lemma FailureKeepsClock(r: Rt, completion: Completion, now: Millis)
    requires !completion.succeeded
    ensures SameClock(r, Complete(r, completion, now).0) && SameWindow(r, Complete(r, completion, now).0)
  {
    hide LatchMaintenance, Enqueue, Finish, P.Reconfigured, P.Initial;
    var failed := r.(pending := None, storageFailed := true, replacement := None,
      desired := if r.desired.Some? && r.configuration.Some?
                 then Some(r.desired.value.(configRevision := r.configuration.value.revision))
                 else r.desired);
    LatchKeepsClock(failed);
    FinishKeepsClock(LatchMaintenance(failed), Err(Storage));
  }

  lemma FinishKeepsClock(r: Rt, result: Result<Ack, Error>)
    ensures SameClock(r, Finish(r, result).0) && SameWindow(r, Finish(r, result).0)
  {
  }

  lemma EnqueueKeepsClock(r: Rt, record: Record)
    ensures SameClock(r, Enqueue(r, record)) && SameWindow(r, Enqueue(r, record))
  {
    LatchKeepsClock(r.(storageFailed := true));
    hide LatchMaintenance;
  }

  lemma RecordsKeepClock(r: Rt, pressed: bool, completion: Option<Completion>, now: Millis)
    ensures var p := Press(r, pressed).0;
      var s := if completion.Some? then Complete(p, completion.value, now).0 else p;
      SameClock(r, s) && SameWindow(r, s)
  {
    PressKeepsClock(r, pressed);
    if completion.Some? {
      CompleteKeepsClock(Press(r, pressed).0, completion.value, now);
    }
    hide Press, Complete;
  }

  predicate AgedOut(r: Rt, now: Millis) {
    r.clock.Some? && Utc.AnchorBounds(r.clock.value.anchor, now).None?
  }

  predicate Revoked(r: Rt, input: Input) {
    OfNetwork(r) && input.observed.clockUpdate.revokeNetwork
  }

  lemma SettledClock(r: Rt, input: Input)
    ensures var s := Settle(r, input.observed, input.completion).0;
      var sampled := input.observed.clockUpdate.sample.Some?;
      && ClockFrom(r, s) && SameWindow(r, s)
      && (AgedOut(r, input.observed.now) || Revoked(r, input) || (OfNetwork(r) && sampled) ==> Replaced(r, s))
      && (AgedOut(r, input.observed.now) || Revoked(r, input) ==> Ineligible(s))
      && (!sampled && (r.clock.None? || AgedOut(r, input.observed.now) || Revoked(r, input)) ==> s.clock.None?)
  {
    var now := input.observed.now;
    var pressed := Press(r, input.observed.maintenancePressed).0;
    var completed := if input.completion.Some? then Complete(pressed, input.completion.value, now).0 else pressed;
    RecordsKeepClock(r, input.observed.maintenancePressed, input.completion, now);
    var seen := ObserveUtc(completed, now).0;
    ObservedClock(completed, now);
    UpdatedClock(seen, input.observed.clockUpdate, now);
    ClockFromTransitive(r, seen, TakeClockUpdate(seen, input.observed.clockUpdate, now));
    hide Press, Complete, ObserveUtc, TakeClockUpdate, Utc.AnchorBounds;
  }

  predicate SetsClock(request: Option<Request>) {
    request.Some? && (request.value.command.SetUtc? || request.value.command.SetUtcObserved?)
  }

  predicate ClearsClock(request: Option<Request>) {
    request.Some? && request.value.command.ClearUtc?
  }

  lemma AdmittedClock(r: Rt, observed: Observed, request: Option<Request>)
    requires request.Some? ==> !request.value.command.Toggle?
    ensures var a := Admit(r, observed, request);
      && ClockFrom(r, a.rt) && SameWindow(r, a.rt)
      && (!SetsClock(request) && !ClearsClock(request) ==> a.rt.clock == r.clock)
      && (ClearsClock(request) ==> a.rt.clock.None? && Ineligible(a.rt) && a.result == Some(Ok(Applied)))
  {
    if SetsClock(request) || ClearsClock(request) {
      ClockCommand(r, request.value, observed, ExplicitOff(observed, request),
                   if ExplicitOff(observed, request) then P.SwitchOff else P.NoSwitch);
    } else if request.Some? {
      OtherCommand(r, request.value, observed, ExplicitOff(observed, request),
                   if ExplicitOff(observed, request) then P.SwitchOff else P.NoSwitch);
    }
    hide Accept;
  }

  lemma ClockCommand(r: Rt, request: Request, observed: Observed, explicitOff: bool, switch: P.Switch)
    requires SetsClock(Some(request)) || ClearsClock(Some(request))
    ensures var a := Accept(r, request, observed, explicitOff, switch);
      && ClockFrom(r, a.rt) && SameWindow(r, a.rt)
      && (ClearsClock(Some(request)) ==> a.rt.clock.None? && Ineligible(a.rt) && a.result == Some(Ok(Applied)))
  {
    hide SetClock, InvalidateClock, FromSeconds, Utc.BoundsAt, HasCivilTime, LatchMaintenance;
    InvalidatedClock(r);
    var sample := if request.command.SetUtcObserved? then Some(request.command.sample)
                  else if request.command.SetUtc? then FromSeconds(request.command.utc, observed.now) else None;
    if sample.Some? {
      SetClockTable(r, sample.value, observed.now, Operator);
    }
  }

  lemma OtherCommand(r: Rt, request: Request, observed: Observed, explicitOff: bool, switch: P.Switch)
    requires !request.command.Toggle? && !SetsClock(Some(request)) && !ClearsClock(Some(request))
    ensures SameClock(r, Accept(r, request, observed, explicitOff, switch).rt)
    ensures SameWindow(r, Accept(r, request, observed, explicitOff, switch).rt)
  {
    hide Accept, LatchMaintenance, ClockStep;
    AcceptOutcomes(r, request, observed, explicitOff, switch);
    LatchKeepsClock(r);
    LatchedFields(r);
  }

  /** Every step leaves the clock it found, none, or a newer one, and says when the old one goes. */
  lemma SteppedClock(r: Rt, input: Input)
    requires Inv(r) && PlanOf(r, input).committed.Valid()
    ensures var n := Next(r, input);
      var taken := AgedOut(r, input.observed.now) || Revoked(r, input) || ClearsClock(input.request);
      && ClockFrom(r, n)
      && (taken || (OfNetwork(r) && input.observed.clockUpdate.sample.Some?) ==> Replaced(r, n))
      && (ClearsClock(input.request) ==> n.clock.None?)
      && (taken && input.observed.clockUpdate.sample.None? && !SetsClock(input.request) ==> n.clock.None?)
      && (taken ==> OnlyNewer(r, n) && PlanOf(r, input).inputs.window.None?)
  {
    hide Inv, MakePlan, Settle, Admit, ObserveUtc, Next, Utc.AnchorBounds, LosesCalendar, AgedOut, OfNetwork;
    var plan := PlanOf(r, input);
    EarlyStages(r, input.observed, input.request, input.completion);
    SettledClock(r, input);
    AdmittedClock(plan.settled, input.observed, plan.request);
    SeenIsObserved(r, input);
    ObservedClock(plan.admission.rt, input.observed.now);
    ClockFromTransitive(r, plan.settled, plan.admission.rt);
    ClockFromTransitive(r, plan.admission.rt, plan.seen);
    LateClock(r, input);
  }

  lemma SeenIsObserved(r: Rt, input: Input)
    ensures PlanOf(r, input).seen == ObserveUtc(PlanOf(r, input).admission.rt, input.observed.now).0
  {
    hide Settle, Admit, ObserveUtc, Decide, Calendar, Persist, Commit, Defers, ControlInputs, Resolve;
  }

  // ------------------------------------------------------------- the main results

  /**
   A revocation takes the clock: in the very step that accepts it, whatever else is going on,
   the clock is gone, no saved window may start a run, no automatic run is energised, and the
   request is answered as applied.
   */
  lemma RevocationTakesClock(r: Rt, input: Input)
    requires Inv(r) && PlanOf(r, input).committed.Valid() && ClearsClock(input.request)
    ensures var out := Step(r, input.observed, input.request, input.completion);
      && out.rt.clock.None? && Ineligible(out.rt)
      && !(out.rt.Relay() == On && out.rt.Demand() == Automatic)
      && out.commandReply == Some(Reply(input.request.value.id, Ok(Applied)))
  {
    hide Inv, MakePlan, Step, Ineligible, Admit, Settle;
    var plan := PlanOf(r, input);
    SteppedClock(r, input);
    NoClockNoRun(r, input);
    EarlyStages(r, input.observed, input.request, input.completion);
    StepParts(r, input.observed, input.request, input.completion);
    AdmittedClock(plan.settled, input.observed, plan.request);
  }

  /** So does the network losing its authority, unless this very step brings a newer clock. */
  lemma NetworkLossTakesClock(r: Rt, input: Input)
    requires Inv(r) && PlanOf(r, input).committed.Valid() && Revoked(r, input)
    ensures var n := Next(r, input);
      && Replaced(r, n) && OnlyNewer(r, n)
      && !(n.Relay() == On && n.Demand() == Automatic)
      && (input.observed.clockUpdate.sample.None? && !SetsClock(input.request) ==> n.clock.None? && Ineligible(n))
  {
    hide Inv, PlanOf, Next, Replaced, OnlyNewer, Ineligible, Revoked, AgedOut;
    SteppedClock(r, input);
    if RunsAutomatic(r, input) {
      AutomaticIsShown(r, input);
    }
    if Next(r, input).clock.None? {
      NoClockNoRun(r, input);
    }
  }

  /** And so does age: a clock past its accepted lifetime, or read by a timer that stepped back, is gone in that step. */
  lemma AgeTakesClock(r: Rt, input: Input)
    requires Inv(r) && PlanOf(r, input).committed.Valid() && AgedOut(r, input.observed.now)
    ensures var n := Next(r, input);
      && Replaced(r, n) && OnlyNewer(r, n)
      && !(n.Relay() == On && n.Demand() == Automatic)
      && (input.observed.clockUpdate.sample.None? && !SetsClock(input.request) ==> n.clock.None? && Ineligible(n))
  {
    hide Inv, PlanOf, Next, Replaced, OnlyNewer, Ineligible, Revoked, AgedOut;
    SteppedClock(r, input);
    if RunsAutomatic(r, input) {
      AutomaticIsShown(r, input);
    }
    if Next(r, input).clock.None? {
      NoClockNoRun(r, input);
    }
  }

  /** Generations in force were issued. */
  predicate Issued(r: Rt) {
    r.clock.Some? ==> r.clock.value.authority.generation <= r.clockGeneration
  }

  lemma IssuedStays(a: Rt, b: Rt)
    requires Issued(a) && ClockFrom(a, b)
    ensures Issued(b)
  {
  }

  lemma {:induction false} AlwaysIssued(inputs: seq<Input>, rs: seq<Rt>, n: nat)
    requires Steps(inputs, rs) && Issued(rs[0]) && n <= |inputs|
    ensures Issued(rs[n])
  {
    hide Inv, PlanOf, Next, Issued, ClockFrom;
    if n > 0 {
      AlwaysIssued(inputs, rs, n - 1);
      StepsInv(inputs, rs, n - 1);
      SteppedClock(rs[n - 1], inputs[n - 1]);
      IssuedStays(rs[n - 1], rs[n]);
    }
  }

  /**
   No authority comes back: over any run from issued generations, once a clock has been taken
   away or replaced, every later clock has a greater generation.
   */
  lemma {:induction false} AuthorityNeverReturns(inputs: seq<Input>, rs: seq<Rt>, i: nat, k: nat, j: nat)
    requires Steps(inputs, rs) && Issued(rs[0]) && i <= k <= j <= |inputs|
    requires rs[i].clock.Some? && Replaced(rs[i], rs[k])
    ensures rs[j].clock.Some? ==> rs[j].clock.value.authority.generation > rs[i].clock.value.authority.generation
    ensures rs[i].clockGeneration <= rs[j].clockGeneration
    decreases j
  {
    hide Inv, PlanOf, Next;
    AlwaysIssued(inputs, rs, i);
    if j == k {
      GenerationsGrow(inputs, rs, i, k);
    } else {
      AuthorityNeverReturns(inputs, rs, i, k, j - 1);
      StepsInv(inputs, rs, j - 1);
      SteppedClock(rs[j - 1], inputs[j - 1]);
    }
  }

  lemma {:induction false} GenerationsGrow(inputs: seq<Input>, rs: seq<Rt>, i: nat, j: nat)
    requires Steps(inputs, rs) && i <= j <= |inputs|
    ensures rs[i].clockGeneration <= rs[j].clockGeneration && (rs[i].clockExhausted ==> rs[j].clockExhausted)
    decreases j
  {
    hide Inv, PlanOf, Next;
    if i < j {
      GenerationsGrow(inputs, rs, i, j - 1);
      StepsInv(inputs, rs, j - 1);
      SteppedClock(rs[j - 1], inputs[j - 1]);
    }
  }

  /** After the last generation a runtime without a clock never has one again. */
  lemma {:induction false} NoClockAfterExhaustion(inputs: seq<Input>, rs: seq<Rt>, i: nat, j: nat)
    requires Steps(inputs, rs) && i <= j <= |inputs| && rs[i].clockExhausted && rs[i].clock.None?
    ensures rs[j].clock.None? && rs[j].clockExhausted
    decreases j
  {
    hide Inv, PlanOf, Next;
    if i < j {
      NoClockAfterExhaustion(inputs, rs, i, j - 1);
      StepsInv(inputs, rs, j - 1);
      SteppedClock(rs[j - 1], inputs[j - 1]);
    }
  }
}
