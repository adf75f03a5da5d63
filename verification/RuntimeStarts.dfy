/** That the runtime does act: an On energises, a new occurrence is saved, and a saved one runs. */
module RuntimeStarts {
  import opened Base
  import opened Interlock
  import opened Retained
  import opened Runtime
  import opened RuntimeCommands
  import opened RuntimeInvariant
  import opened RuntimeLeases
  import opened RuntimeRuns
  import opened RuntimeSafety
  import IT = InterlockTicks
  import P = Policy
  import PH = PolicyHistory
  import Occurrences
  import PR = PolicyRuns
  import RC = RuntimeCalendar
  import S = Schedule
  import SI = ScheduleInterval

  /** On a healthy runtime an On is admitted, and what precedes the commit only suppresses or ages the clock. */
  lemma OnRecords(r: Rt, input: Input)
    requires Healthy(r) && r.supervisor.Some? && Steady(r, input) && AsksOn(r, input.request)
    ensures var plan := PlanOf(r, input);
      && OnReady(r, plan.persisted)
      && plan.switch == P.SwitchOn && !plan.explicitOff
      && plan.admission.result == Some(Ok(Applied)) && plan.request == Some(Request(input.request.value.id, TurnOn))
  {
    hide Settle, ObserveUtc, Decide, Commit, ControlInputs, Inv, Defers, ClockStep;
    var o := input.observed;
    var plan := PlanOf(r, input);
    IdleSettles(r, input);
    ClockStepKeeps(r, plan.settled);
    ObserveUtcIsClockStep(plan.settled, o.now);
    ClockStepKeeps(plan.settled, plan.seen);
  }

  /** What a runtime looks like on its way to a manual run. */
  ghost predicate OnReady(r: Rt, p: Rt) {
    && p.supervisor == r.supervisor && p.configuration == r.configuration
    && p.durable == r.durable && p.nextTicket == r.nextTicket
    && (p.desired == r.desired || p.desired == Suppress(r).desired)
    && p.pending.None? && p.replacement.None? && p.active.None? && !p.storageFailed && !p.maintenance
  }

  /** Rested for a start, or on already, with no run at its deadline. */
  predicate MayStart(r: Rt, now: Millis)
    requires r.supervisor.Some?
  {
    var a := r.supervisor.value;
    && (a.run.Some? ==> now < a.run.value.deadline)
    && (r.Relay() == On || now - a.interlock.offSince >= a.interlock.config.timing.minimumOffMs)
  }

  /**
   An On turns the relay on in its own step: on a healthy runtime with nothing holding the
   output back and the minimum-off time served, whatever the calendar, the clock and a
   suppression still to be stored say, it is applied, energises, and asks for no store.
   */
  lemma OnEnergises(r: Rt, input: Input)
    requires Healthy(r) && r.supervisor.Some? && Steady(r, input) && AsksOn(r, input.request)
    requires MayStart(r, input.observed.now) && PlanOf(r, input).committed.Valid()
    ensures var out := Step(r, input.observed, input.request, input.completion);
      && out.rt.Relay() == On && out.rt.Demand() == Override
      && out.commandReply == Some(Reply(input.request.value.id, Ok(Applied)))
      && out.rt.pending.None? && out.rt.nextTicket == r.nextTicket
  {
    hide Inv, MakePlan, Runtime.Step, Core, Advances, PH.Inv, P.Updated;
    var plan, o := PlanOf(r, input), input.observed;
    OnRecords(r, input);
    PlanStages(r, o, input.request, input.completion);
    StepParts(r, o, input.request, input.completion);
    QuietCommits(r, plan.persisted, P.SwitchOn);
    InvSupervisor(r);
    PR.ManualStarts(r.supervisor.value, o.now, plan.inputs);
  }

  // ----------------------------------------------------------------- the schedule

  /** No command, button or Off; a completion finds nothing in flight. */
  predicate Undisturbed(input: Input) {
    input.request.None? && !input.observed.maintenancePressed && !input.observed.forceOff
  }

  /** Undisturbed and healthy, a step's record differs from the one before only by the clock until the calendar speaks. */
  lemma UndisturbedSees(r: Rt, input: Input)
    requires Healthy(r) && Undisturbed(input)
    ensures var plan := PlanOf(r, input);
      && OnReady(r, plan.seen)
      && plan.admission.switch == P.NoSwitch && !plan.explicitOff && plan.request.None?
  {
    hide Settle, ObserveUtc, Decide, Commit, ControlInputs, Inv, Defers, ClockStep, Calendar, Persist;
    var plan := PlanOf(r, input);
    IdleSettles(r, input);
    ClockStepKeeps(r, plan.settled);
    ObserveUtcIsClockStep(plan.settled, input.observed.now);
    ClockStepKeeps(plan.settled, plan.seen);
  }

  lemma NewRecordCommits(r: Rt, p: Rt, defers: bool)
    requires OnReady(r, p.(desired := r.desired)) && p.desired.Some? && p.desired != p.durable && !defers
    requires r.nextTicket < U64_MAX
    ensures var c := Commit(p, false, defers).0;
      c == p.(nextTicket := r.nextTicket + 1, pending := Some(StoreRequest(r.nextTicket + 1, RetainedRecord(p.desired.value))))
  {
  }

  /**
   A new occurrence is saved before it runs: when the schedule of a healthy, idle runtime finds
   one, an undisturbed step makes it the saved window, eligible, and sends exactly that record
   to flash under the next ticket; the relay stays off meanwhile.
   */
  lemma OccurrenceIsRecorded(r: Rt, input: Input)
    requires Healthy(r) && Undisturbed(input) && r.Relay() == Off && r.Demand() != Override
    requires r.nextTicket < U64_MAX && PlanOf(r, input).committed.Valid()
    requires PlanOf(r, input).decision.Some? && PlanOf(r, input).decision.value.PersistBeforeRun?
    ensures var n, o := Next(r, input), PlanOf(r, input).decision.value.occurrence;
      && n.desired == Some(r.desired.value.(window := Some(RetainedWindow(o.id, o.endsUtc, Eligible))))
      && n.pending == Some(StoreRequest(r.nextTicket + 1, RetainedRecord(n.desired.value)))
      && n.Relay() == Off
  {
    hide Inv, MakePlan, Runtime.Step, Core, Advances, PH.Inv, P.Updated, Commit;
    var plan, o := PlanOf(r, input), input.observed;
    UndisturbedSees(r, input);
    PersistRecords(r, input);
    PlanStages(r, o, input.request, input.completion);
    NewRecordCommits(r, plan.persisted, plan.defers);
    NextRecords(r, input) by { assert Inv(r); }
    if Next(r, input).Relay() == On {
      DurabilityGate(r, o, input.request, input.completion) by { assert Inv(r); }
    }
  }

  /** Nothing stands against saving a new occurrence: not in maintenance, output off, no manual run held or asked for, nothing in flight. */
  predicate IdleFor(seen: Rt, switch: P.Switch) {
    && !seen.maintenance && seen.Relay() == Off && seen.Demand() != Override && switch != P.SwitchOn
    && seen.pending.None?
  }

  /**
   The saved window changes to another occurrence exactly when the schedule found a newer one
   and either the runtime is idle or the step is told to switch off; it is then that one.
   */
  lemma RecordedIff(r: Rt, input: Input)
    requires Inv(r) && PlanOf(r, input).committed.Valid()
    ensures var plan, n := PlanOf(r, input), Next(r, input);
      var seen, d := plan.seen, plan.decision;
      var records := && d.Some? && d.value.PersistBeforeRun?
                     && seen.replacement.None? && !seen.storageFailed && seen.desired.Some?
                     && (AsksOff(r, input.observed, input.request) || IdleFor(seen, plan.admission.switch));
      && (n.SavedWindow().Some? && (seen.SavedWindow().None? || n.SavedWindow().value.id != seen.SavedWindow().value.id)
          <==> records)
      && (records ==> n.SavedWindow().Some? && n.SavedWindow().value.id == d.value.occurrence.id)
  {
    hide Inv, Core, Advances, MakePlan, Runtime.Step, Next, SI.Respects, Calendar, Persist, Commit, ObserveUtc, Settle,
         Admit, Resolve, Defers, IdleFor, AsksOff;
    var plan := PlanOf(r, input);
    PlanKeepsInv(r, input.observed, input.request, input.completion);
    AsksOffIsExplicit(r, input.observed, input.request);
    EarlyStages(r, input.observed, input.request, input.completion);
    RecordingStage(r, input);
    PlanStages(r, input.observed, input.request, input.completion);
    NextRecords(r, input);
    PersistTable(plan.seen, plan.decision, plan.explicitOff, plan.admission.switch);
    RC.CommitKeepsWindow(plan.persisted, input.observed.maintenancePressed, plan.defers);
  }

  /** What recording makes of the calendar's decision. */
  function Recorded(seen: Rt, decision: Option<S.Decision>, off: bool, before: P.Switch): Rt {
    var (calendar, switch) := Calendar(seen, decision, before);
    Persist(calendar, decision, off, switch)
  }

  lemma RecordingStage(r: Rt, input: Input)
    ensures var plan := PlanOf(r, input);
      && plan.explicitOff == ExplicitOff(input.observed, plan.request)
      && plan.persisted == Recorded(plan.seen, plan.decision, plan.explicitOff, plan.admission.switch)
  {
    hide Settle, Admit, ObserveUtc, Decide, Calendar, Persist, Commit, Defers, ControlInputs, Resolve;
  }

  lemma PersistTable(seen: Rt, decision: Option<S.Decision>, off: bool, before: P.Switch)
    requires decision.Some? ==> SI.Respects(decision.value, seen.SavedWindow())
    ensures var p := Recorded(seen, decision, off, before);
      var records := && decision.Some? && decision.value.PersistBeforeRun?
                     && seen.replacement.None? && !seen.storageFailed && seen.desired.Some? && (off || IdleFor(seen, before));
      && (p.SavedWindow().Some? && (seen.SavedWindow().None? || p.SavedWindow().value.id != seen.SavedWindow().value.id) <==> records)
      && (records ==> p.SavedWindow().value.id == decision.value.occurrence.id)
  {
    hide Occurrences.ValidOccurrenceId;
  }

  lemma PersistRecords(r: Rt, input: Input)
    requires Healthy(r) && Undisturbed(input) && r.Relay() == Off && r.Demand() != Override
    requires PlanOf(r, input).decision.Some? && PlanOf(r, input).decision.value.PersistBeforeRun?
    ensures var plan := PlanOf(r, input);
      var o := plan.decision.value.occurrence;
      && OnReady(r, plan.persisted.(desired := r.desired))
      && plan.persisted.desired == Some(r.desired.value.(window := Some(RetainedWindow(o.id, o.endsUtc, Eligible))))
      && plan.persisted.desired != plan.persisted.durable && !plan.defers
  {
    UndisturbedSees(r, input);
    PlanKeepsInv(r, input.observed, input.request, input.completion);
    hide Settle, Admit, ObserveUtc, Decide, Commit, ControlInputs, Inv, Core, Advances;
  }

  /** The window the supervisor is shown, as it will see it: never ending later than it was known to. */
  function Seen(a: P.Arbiter, w: P.Window): P.Window {
    if a.lastWindow.Some? && a.lastWindow.value.id == w.id && a.lastWindow.value.endsAt < w.endsAt then a.lastWindow.value else w
  }

  /** The supervisor may run window `w` now: it holds no run, and has neither seen a newer window nor ended this one. */
  predicate Runs(a: P.Arbiter, w: P.Window, now: Millis) {
    && a.run.None? && a.suppressed != Some(w.id)
    && (a.lastWindow.Some? ==> a.lastWindow.value.id <= w.id)
    && now < Seen(a, w).endsAt
  }

  /**
   A saved occurrence runs: when the schedule of a healthy runtime with nothing left to store
   decides for the saved window, an undisturbed step takes on an automatic run of it, bounded
   by the run limit and the window, and energises it once the level has recovered.
   */
  lemma SavedOccurrenceRuns(r: Rt, input: Input)
    requires Healthy(r) && r.desired == r.durable && r.supervisor.Some? && Steady(r, input) && input.request.None?
    requires PlanOf(r, input).committed.Valid()
    requires PlanOf(r, input).decision.Some? && PlanOf(r, input).decision.value.Active?
    requires Runs(r.supervisor.value, PlanOf(r, input).decision.value.window, input.observed.now)
    ensures var n, now, w := Next(r, input), input.observed.now, PlanOf(r, input).decision.value.window;
      var a := r.supervisor.value;
      && n.supervisor.Some? && n.desired == n.durable == r.durable && n.pending.None?
      && n.supervisor.value.run
         == Some(P.Run(Automatic, now, Min(SatAdd(now, a.settings.maxRunMs), Seen(a, w).endsAt), Some(w.id)))
      && (Recovered(a.interlock, now, input.observed.reading) ==> n.Relay() == On)
  {
    hide Inv, MakePlan, Runtime.Step, Core, Advances, PH.Inv, P.Updated, Commit, Recovered;
    var plan, o := PlanOf(r, input), input.observed;
    ActiveRecords(r, input);
    PlanStages(r, o, input.request, input.completion);
    StepParts(r, o, input.request, input.completion);
    NothingCommits(plan.persisted, plan.defers);
    InvSupervisor(r) by { assert Inv(r); }
    AutomaticStarts(r.supervisor.value, o.now, plan.inputs, plan.decision.value.window);
  }

  /** Fresh evidence of recovery since the first tick of its series, and the minimum-off time served. */
  predicate Recovered(c: Control, now: Millis, reading: Reading) {
    && reading.Valid? && reading.level >= c.config.restart
    && reading.observedAt - (if c.recoverySince.Some? then c.recoverySince.value else now) >= c.config.timing.recoveryMs
    && now - c.offSince >= c.config.timing.minimumOffMs
  }

  lemma ActiveRecords(r: Rt, input: Input)
    requires Healthy(r) && r.desired == r.durable && Undisturbed(input) && r.Demand() == NoDemand
    requires PlanOf(r, input).decision.Some? && PlanOf(r, input).decision.value.Active?
    ensures var plan := PlanOf(r, input);
      && OnReady(r, plan.persisted) && plan.persisted.desired == r.desired
      && plan.switch == P.NoSwitch && !plan.explicitOff && !plan.defers
  {
    UndisturbedSees(r, input);
    PlanKeepsInv(r, input.observed, input.request, input.completion);
    hide Settle, Admit, ObserveUtc, Decide, Commit, ControlInputs, Inv, Core, Advances;
  }

  lemma NothingCommits(p: Rt, defers: bool)
    requires p.pending.None? && p.replacement.None? && p.active.None? && !p.storageFailed && !p.maintenance
    requires p.desired == p.durable && p.desired.Some? && !p.desired.value.maintenance && !defers
    ensures Commit(p, false, defers).0 == p
  {
  }

  lemma AutomaticStarts(a: P.Arbiter, now: Millis, input: P.Inputs, w: P.Window)
    requires PH.Inv(a) && Runs(a, w, now) && input.window == Some(w) && input.switch == P.NoSwitch
    requires input.hardware == P.Allowed && IT.Usable(a.interlock, now, input.reading, input.maintenance)
    ensures var c := P.Updated(a, now, input);
      && c.run == Some(P.Run(Automatic, now, Min(SatAdd(now, a.settings.maxRunMs), Seen(a, w).endsAt), Some(w.id)))
      && (Recovered(a.interlock, now, input.reading) ==> c.interlock.Relay() == On)
  {
    PR.SeenIsPresented(a, now, input, Seen(a, w));
    PR.RunTable(a, now, input);
    PR.TickTable(a, now, input);
    IT.UsableTick(a.interlock, now, input.reading, input.maintenance, Automatic);
    hide Interlock.Updated, P.Arbitrated, P.Updated;
  }
}
