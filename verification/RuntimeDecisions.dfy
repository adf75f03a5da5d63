/** From the accepted time to the relay: what a decision rests on, and that automatic runs end in true time. */
module RuntimeDecisions {
  import opened Base
  import opened Interlock
  import opened Retained
  import opened Runtime
  import opened RuntimeCalendar
  import opened RuntimeInvariant
  import opened RuntimeRuns
  import opened RuntimeSafety
  import P = Policy
  import PH = PolicyHistory
  import PR = PolicyRuns
  import S = Schedule
  import SI = ScheduleInterval
  import U = Utc

  /** The clock's own observation, projected to now and resolved by the configured timezone at both ends. */
  predicate Times(r: Rt, now: Millis, o: U.Observation, i: SI.Interval) {
    && r.configuration.Some?
    && U.BoundsAt(o, now) == Some(i.bounds) && i.rate == o.rate && i.Consistent()
    && r.configuration.value.timezone.civilAt(i.bounds.earliestMs / 1000) == Some(i.earliest)
    && r.configuration.value.timezone.civilAt(i.bounds.latestMs / 1000) == Some(i.latest)
  }

  lemma NoTimeNoDecision(now: Millis, s: S.Schedule, resolver: S.Resolver, retained: Option<RetainedWindow>)
    ensures var d := SI.EvaluateInterval(now, None, s, resolver, retained);
      d.Err? || d.value.Inactive?
  {
  }

  /** A decision that is not a loss of the calendar is the schedule's over the interval of the accepted observation, against the saved window. */
  lemma DecisionIsTimed(r: Rt, now: Millis) returns (o: U.Observation, i: SI.Interval)
    requires var (seen, bounds) := ObserveUtc(r, now); !LosesCalendar(Decide(seen, now, bounds))
    ensures var (seen, bounds) := ObserveUtc(r, now);
      && seen.clock.Some? && seen.clock.value.anchor == U.Anchor(Some(o), now)
      && Times(seen, now, o, i)
      && SI.EvaluateInterval(now, Some(i), seen.configuration.value.schedule, seen.configuration.value.timezone.resolve,
                             seen.SavedWindow())
         == Ok(Decide(seen, now, bounds).value)
  {
    hide SI.EvaluateInterval, U.BoundsAt;
    var (seen, bounds) := ObserveUtc(r, now);
    var zone := seen.configuration.value.timezone;
    NoTimeNoDecision(now, seen.configuration.value.schedule, zone.resolve, seen.SavedWindow());
    o := seen.clock.value.anchor.observation.value;
    i := SI.Interval(zone.civilAt(bounds.value.earliestMs / 1000).value, zone.civilAt(bounds.value.latestMs / 1000).value,
                     bounds.value, o.rate);
  }

  /** And while that time stands, the schedule's verdict over it is the decision. */
  lemma TimedIsDecided(r: Rt, now: Millis, o: U.Observation, i: SI.Interval)
    requires r.clock.Some? && r.clock.value.anchor.observation == Some(o) && r.clock.value.anchor.lastRead <= now
    requires Times(r, now, o, i)
    ensures var (seen, bounds) := ObserveUtc(r, now);
      var verdict := SI.EvaluateInterval(now, Some(i), r.configuration.value.schedule, r.configuration.value.timezone.resolve,
                                         seen.SavedWindow());
      Decide(seen, now, bounds) == if verdict.Ok? then Some(verdict.value) else None
  {
    hide SI.EvaluateInterval, U.BoundsAt;
  }

  lemma DecisionStage(r: Rt, input: Input)
    ensures var plan := PlanOf(r, input);
      var (seen, bounds) := ObserveUtc(plan.admission.rt, input.observed.now);
      plan.seen == seen && plan.decision == Decide(seen, input.observed.now, bounds)
  {
    hide Settle, Admit, ObserveUtc, Decide, Calendar, Persist, Commit, Defers, ControlInputs, Resolve;
  }

  /** A window is shown only for a decision to run, and the saved window then stays what it was. */
  lemma ShownWindowIsSaved(r: Rt, input: Input)
    requires Inv(r) && PlanOf(r, input).committed.Valid() && PlanOf(r, input).inputs.window.Some?
    ensures var plan, n := PlanOf(r, input), Next(r, input);
      && plan.decision.Some? && plan.decision.value.Active? && plan.inputs.window == Some(plan.decision.value.window)
      && plan.seen.SavedWindow().Some? && n.SavedWindow().Some? && n.SavedWindow().value.id == plan.seen.SavedWindow().value.id
      && n.SavedWindow().value.endsUtc == plan.seen.SavedWindow().value.endsUtc
  {
    hide Inv, Core, Advances, MakePlan, Runtime.Step, Next, SI.Respects, Calendar, Persist, Commit, ControlInputs, Ineligible;
    var plan := PlanOf(r, input);
    PlanKeepsInv(r, input.observed, input.request, input.completion);
    NextRecords(r, input);
    PlanStages(r, input.observed, input.request, input.completion);
    InputsMean(plan.committed, input.observed, plan.decision, plan.explicitOff, plan.switch, plan.defers);
    LatePlan(r, input);
    WindowMeansNoOff(plan.committed, input.observed, plan.decision, plan.explicitOff, plan.switch, plan.defers);
    ActiveKeepsWindow(plan.seen, plan.decision, plan.admission.switch, plan.switch);
    CommitKeepsWindow(plan.persisted, input.observed.maintenancePressed, plan.defers);
  }

  lemma LatePlan(r: Rt, input: Input)
    ensures var plan := PlanOf(r, input);
      plan.persisted == Persist(Calendar(plan.seen, plan.decision, plan.admission.switch).0, plan.decision,
                                plan.explicitOff, plan.switch)
  {
    hide Settle, Admit, ObserveUtc, Decide, Calendar, Persist, Commit, Defers, ControlInputs, Resolve;
  }

  lemma WindowMeansNoOff(r: Rt, observed: Observed, decision: Option<S.Decision>, explicitOff: bool, switch: P.Switch, defers: bool)
    ensures ControlInputs(r, observed, decision, explicitOff, switch, defers).window.Some? ==> !explicitOff
  {
  }

  lemma ActiveKeepsWindow(seen: Rt, decision: Option<S.Decision>, before: P.Switch, switch: P.Switch)
    requires decision.Some? && decision.value.Active? && SI.Respects(decision.value, seen.SavedWindow())
    ensures seen.SavedWindow().Some?
    ensures Persist(Calendar(seen, decision, before).0, decision, false, switch).SavedWindow() == seen.SavedWindow()
  {
  }

  // ------------------------------------------------------------ loss of the calendar

  /** Shown no window, an update starts no automatic run, and Off ends one. */
  lemma NoWindowNoAutomatic(a: P.Arbiter, now: Millis, input: P.Inputs)
    requires PH.Inv(a) && input.window.None?
    requires input.switch == P.SwitchOff || a.Demand() != Automatic
    ensures P.Updated(a, now, input).Demand() != Automatic
  {
    if now < a.interlock.lastTick {
      PR.BackwardsTable(a, now, input);
    } else {
      PR.RunTable(a, now, input);
      PR.TickTable(a, now, input);
    }
    hide Interlock.Updated, P.Arbitrated, P.Updated;
  }

  /**
   Without a decision, with an inactive schedule or with a blocked occurrence, a step leaves no
   saved window that may start a run and no automatic run energised; unless it is an On that
   takes the run over, it ends the automatic run of the window saved.
   */
  lemma LossRevokes(r: Rt, input: Input)
    requires Inv(r) && PlanOf(r, input).committed.Valid()
    requires var d := PlanOf(r, input).decision; d.None? || d.value.Inactive? || d.value.Blocked?
    ensures Ineligible(Next(r, input)) && !RunsAutomatic(r, input)
    ensures Next(r, input).SavedWindow().Some? && PlanOf(r, input).admission.switch != P.SwitchOn ==>
      Next(r, input).Demand() != Automatic
  {
    hide Inv, MakePlan, Runtime.Step, Core, Advances, PH.Inv, P.Updated, Calendar, Persist, Commit, ControlInputs, Defers;
    var plan, o := PlanOf(r, input), input.observed;
    LateClock(r, input);
    if RunsAutomatic(r, input) {
      AutomaticIsShown(r, input);
    }
    PlanKeepsInv(r, o, input.request, input.completion);
    PlanStages(r, o, input.request, input.completion);
    StepParts(r, o, input.request, input.completion);
    CoreSupervisor(plan.committed) by { CommittedCore(plan.committed); }
    if Next(r, input).SavedWindow().Some? && plan.admission.switch != P.SwitchOn && plan.committed.supervisor.Some? {
      LossSwitchesOff(r, input);
      NoWindowNoAutomatic(plan.committed.supervisor.value, o.now, plan.inputs);
    }
  }

  lemma LossSwitchesOff(r: Rt, input: Input)
    requires var d := PlanOf(r, input).decision; d.None? || d.value.Inactive? || d.value.Blocked?
    requires PlanOf(r, input).committed.SavedWindow().Some? && PlanOf(r, input).admission.switch != P.SwitchOn
    ensures var plan := PlanOf(r, input);
      plan.inputs.switch == P.SwitchOff || plan.committed.Demand() != Automatic
  {
    hide Settle, Admit, ObserveUtc, Decide, Commit, Defers, Resolve;
    var plan := PlanOf(r, input);
    CommitKeepsDemand(plan.persisted, input.observed.maintenancePressed, plan.defers);
    CommitKeepsWindow(plan.persisted, input.observed.maintenancePressed, plan.defers);
  }

  // ------------------------------------------------------------------- true time

  /** A step that leaves the relay on for an automatic run has an accepted time and a run to speak of. */
  lemma AutomaticHasTime(r: Rt, input: Input)
    requires Inv(r) && RunsAutomatic(r, input)
    ensures var n := Next(r, input);
      && n.clock.Some? && n.clock.value.anchor.observation.Some? && n.clock.value.anchor.lastRead == input.observed.now
      && n.clock.value.anchor.observation.value.capturedAt <= input.observed.now
      && n.supervisor.Some? && n.supervisor.value.run.Some?
  {
    hide Inv, MakePlan, Runtime.Step, Next, ObserveUtc, Decide, U.BoundsAt, SI.EvaluateInterval, LosesCalendar;
    var plan := PlanOf(r, input);
    AutomaticIsShown(r, input);
    ShownWindowIsSaved(r, input);
    LateClock(r, input);
    DecisionStage(r, input);
    var o, i := DecisionIsTimed(plan.admission.rt, input.observed.now) by { NotLost(plan.decision); }
    ProjectedIsPast(o, input.observed.now);
    RunEndsWithWindow(r, input);
  }

  lemma ProjectedIsPast(o: U.Observation, now: Millis)
    ensures U.BoundsAt(o, now).Some? ==> o.capturedAt <= now
  {
  }

  /**
   An automatic run ends in true time. Take any step that leaves the relay on for an automatic
   run, any instant the accepted observation allows for its capture, and any real time the
   clock-rate contract allows to pass from there to this step and on to a later timer reading:
   up to the run's deadline, the true time is no later than the saved end.
   */
  lemma AutomaticEndsInTime(r: Rt, input: Input, later: Millis, trueMs: real, before: real, after: real)
    requires Inv(r) && RunsAutomatic(r, input)
    requires input.observed.now <= later && Allows(Next(r, input), input.observed.now, later, trueMs, before, after)
    ensures Next(r, input).SavedWindow().Some?
    ensures trueMs + before + after <= (Next(r, input).SavedWindow().value.endsUtc * 1000) as real
  {
    hide Inv, MakePlan, Runtime.Step, Next, ObserveUtc, Decide, U.MayPass, U.BoundsAt, SI.EvaluateInterval, LosesCalendar;
    var plan, now := PlanOf(r, input), input.observed.now;
    AutomaticIsShown(r, input);
    ShownWindowIsSaved(r, input);
    LateClock(r, input);
    DecisionStage(r, input);
    var o, i := DecisionIsTimed(plan.admission.rt, now) by { NotLost(plan.decision); }
    U.ProjectionIsSafe(o, now, trueMs, before);
    RunEndsWithWindow(r, input);
    SI.DeadlineNeverOutlives(now, i, plan.seen.configuration.value.schedule, plan.seen.configuration.value.timezone.resolve,
                             plan.seen.SavedWindow(), later, trueMs + before, after);
  }

  /** Capture at `trueMs`, `before` from there to now and `after` on to `later`, within the run, are all possible. */
  ghost predicate Allows(n: Rt, now: Millis, later: Millis, trueMs: real, before: real, after: real)
    requires now <= later
  {
    && n.clock.Some? && n.clock.value.anchor.observation.Some? && n.supervisor.Some? && n.supervisor.value.run.Some?
    && later <= n.supervisor.value.run.value.deadline
    && var o := n.clock.value.anchor.observation.value;
       && o.bounds.earliestMs as real <= trueMs <= o.bounds.latestMs as real
       && o.capturedAt <= now && U.MayPass(o.rate, now - o.capturedAt, before)
       && U.MayPass(o.rate, later - now, after)
  }

  lemma NotLost(decision: Option<S.Decision>)
    requires decision.Some? && decision.value.Active?
    ensures !LosesCalendar(decision)
  {
  }

  lemma RunEndsWithWindow(r: Rt, input: Input)
    requires Inv(r) && RunsAutomatic(r, input)
    ensures var n := Next(r, input);
      && n.supervisor.Some? && n.supervisor.value.run.Some? && PlanOf(r, input).inputs.window.Some?
      && n.supervisor.value.run.value.deadline <= PlanOf(r, input).inputs.window.value.endsAt
  {
    hide Inv, MakePlan, Core, Advances, PH.Inv, P.Updated;
    PlanKeepsInv(r, input.observed, input.request, input.completion);
    var plan := PlanOf(r, input);
    CoreSupervisor(plan.committed) by { CommittedCore(plan.committed); }
    PR.EnergisedAutomaticIsSeen(plan.committed.supervisor.value, input.observed.now, plan.inputs);
  }
}
