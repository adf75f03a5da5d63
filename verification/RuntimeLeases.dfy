/** Manual leases are not cut by bookkeeping. */
module RuntimeLeases {
  import opened Base
  import opened Interlock
  import opened Runtime
  import opened RuntimeInvariant
  import opened RuntimeSafety
  import opened RuntimeRuns
  import P = Policy
  import PH = PolicyHistory

  /** Configured, out of maintenance, and with nothing left to store but at most a deferred suppression. */
  ghost predicate Healthy(r: Rt) {
    && Inv(r)
    && r.pending.None? && r.replacement.None? && r.active.None?
    && !r.storageFailed && !r.maintenance
    && r.configuration.Some? && r.desired.Some? && !r.desired.value.maintenance
    && (r.desired == r.durable || OnlySuppressionPending(r))
  }

  /** A live override on a healthy runtime. */
  ghost predicate Leased(r: Rt) {
    Healthy(r) && r.Demand() == Override
  }

  /** An override that survives an update was permitted, or was already there and still is. */
  lemma OverrideNeedsPermit(a: P.Arbiter, now: Millis, input: P.Inputs)
    requires PH.Inv(a) && P.Updated(a, now, input).Demand() == Override
    ensures input.hardware == P.Allowed && input.switch != P.SwitchOff
    ensures input.maintenance != Interlock.EnterMaintenance
  {
    if input.hardware == P.ForcedOff || input.maintenance == Interlock.EnterMaintenance {
      InterlockCancels(a.interlock, now, P.EffectiveReading(input), input.maintenance,
                       PH.ControlEvent(a, PH.Update(now, input)).demand);
    }
    hide Interlock.Updated;
    assert input.switch == P.SwitchOff ==> P.Arbitrated(a, now, input).run.None?;
  }

  lemma InterlockCancels(c: Control, now: Millis, reading: Reading, command: Interlock.Command, demand: Demand)
    requires c.Valid()
    requires reading.Invalid? || command == Interlock.EnterMaintenance
    ensures P.Cancels(Interlock.Updated(c, now, reading, command, demand).state)
  {
  }

  /** Any step that ends with an override lease ends leased. */
  lemma OverrideIsLeased(r: Rt, input: Input)
    requires Inv(r) && PlanOf(r, input).committed.Valid()
    requires Next(r, input).Demand() == Override
    ensures Leased(Next(r, input))
  {
    hide Inv, MakePlan, Core, Advances, Commit, Defers, ControlInputs, PH.Inv;
    var plan := PlanOf(r, input);
    var o := input.observed;
    PlanKeepsInv(r, o, input.request, input.completion);
    PlanStages(r, o, input.request, input.completion);
    StepKeepsInv(r, o, input.request, input.completion);
    NextRecords(r, input);
    var c := plan.committed;
    InvSupervisor(c);
    OverrideNeedsPermit(c.supervisor.value, o.now, plan.inputs);
    InputsMean(c, o, plan.decision, plan.explicitOff, plan.switch, plan.defers);
    DefersMeans(plan.persisted, plan.explicitOff, plan.switch);
    CommitGate(plan.persisted, o.maintenancePressed, plan.defers);
    GateRecords(c);
  }

  lemma InvSupervisor(r: Rt)
    requires Inv(r)
    ensures r.supervisor.Some? ==> PH.Inv(r.supervisor.value)
    ensures r.configuration.Some? <==> r.supervisor.Some?
  {
  }

  /** Nothing holds the output back: no button, Off, gap or forced off, and a fresh level of the calibrated configuration. */
  predicate Steady(r: Rt, input: Input)
    requires r.configuration.Some? && r.supervisor.Some?
  {
    var o := input.observed;
    var c := r.supervisor.value.interlock;
    && !o.maintenancePressed && !o.forceOff
    && o.hardware == P.Allowed
    && o.sensorRevision == r.configuration.value.revision
    && r.configuration.value.calibrated
    && c.lastTick <= o.now <= c.lastTick + c.config.maxSampleAgeMs
    && FreshReading(o.reading, c.config.maxSampleAgeMs, o.now)
  }

  /** Nor is there a command: nothing but the calendar and the clock happens. */
  predicate Quiet(r: Rt, input: Input)
    requires r.configuration.Some? && r.supervisor.Some?
  {
    input.request.None? && Steady(r, input)
  }

  /** A quiet update before the deadline leaves an override run exactly as it was. */
  lemma QuietUpdateKeepsRun(a: P.Arbiter, now: Millis, input: P.Inputs)
    requires PH.Inv(a) && a.Demand() == Override && now < a.run.value.deadline
    requires a.interlock.lastTick <= now <= a.interlock.lastTick + a.interlock.config.maxSampleAgeMs
    requires Fresh(a.interlock.config, now, input.reading)
    requires input.hardware == P.Allowed && input.switch == P.NoSwitch && input.maintenance == ExitMaintenance
    ensures P.Updated(a, now, input).run == a.run
  {
    QuietInterlock(a.interlock, now, input.reading, Override);
    hide Interlock.Updated;
    assert P.Arbitrated(a, now, input).run == a.run;
  }

  lemma QuietInterlock(c: Control, now: Millis, reading: Reading, demand: Demand)
    requires c.Valid() && c.lastTick <= now <= c.lastTick + c.config.maxSampleAgeMs && Fresh(c.config, now, reading)
    ensures !P.Cancels(Interlock.Updated(c, now, reading, ExitMaintenance, demand).state)
  {
  }

  /** At its deadline a quiet update ends the run and the output is off. */
  lemma QuietUpdateEndsRun(a: P.Arbiter, now: Millis, input: P.Inputs)
    requires PH.Inv(a) && a.Demand() == Override && now >= a.run.value.deadline && now >= a.interlock.lastTick
    requires input.switch == P.NoSwitch
    ensures P.Updated(a, now, input).run.None? && P.Updated(a, now, input).interlock.Relay() == Off
  {
    assert P.Arbitrated(a, now, input).run.None?;
    PH.ForwardKeepsInv(a, now, input);
    hide Interlock.Updated;
  }

  /** With nothing in flight and no request, the stages before the commit only suppress or age the clock. */
  lemma QuietRecords(r: Rt, input: Input)
    requires Leased(r) && Quiet(r, input)
    ensures var plan := PlanOf(r, input);
      && plan.persisted.supervisor == r.supervisor && plan.persisted.configuration == r.configuration
      && plan.persisted.durable == r.durable && plan.persisted.nextTicket == r.nextTicket
      && (plan.persisted.desired == r.desired || plan.persisted.desired == Suppress(r).desired)
      && plan.persisted.pending.None? && plan.persisted.replacement.None? && plan.persisted.active.None?
      && !plan.persisted.storageFailed && !plan.persisted.maintenance
      && plan.switch == P.NoSwitch && !plan.explicitOff
  {
    hide Settle, ObserveUtc, Decide, Commit, ControlInputs, Inv, Defers;
    var o := input.observed;
    var plan := PlanOf(r, input);
    IdleSettles(r, input) by { assert r.pending.None?; }
    var s := plan.settled;
    ClockStepKeeps(s, plan.seen) by { ObserveUtcIsClockStep(s, o.now); }
  }

  /** With nothing in flight and no button, settling is a matter of the clock alone. */
  lemma IdleSettles(r: Rt, input: Input)
    requires r.pending.None? && !input.observed.maintenancePressed
    ensures ClockStep(r, Settle(r, input.observed, input.completion).0)
  {
    var now := input.observed.now;
    var seen := ObserveUtc(r, now).0;
    ObserveUtcIsClockStep(r, now);
    TakeClockUpdateIsClockStep(seen, input.observed.clockUpdate, now);
    ClockStepTransitive(r, seen, TakeClockUpdate(seen, input.observed.clockUpdate, now));
    hide ObserveUtc, TakeClockUpdate, ClockStep;
  }

  /** With a manual run held or asked for, the commit defers any suppression and stores nothing. */
  lemma QuietCommits(r: Rt, p: Rt, switch: P.Switch)
    requires r.desired == r.durable || OnlySuppressionPending(r)
    requires p.durable == r.durable && r.desired.Some?
    requires p.desired == r.desired || p.desired == Suppress(r).desired
    requires p.pending.None? && p.replacement.None? && p.active.None? && !p.storageFailed && !p.maintenance
    requires p.desired.Some? && !p.desired.value.maintenance
    requires switch == P.SwitchOn || (switch == P.NoSwitch && p.Demand() == Override)
    ensures p.desired == p.durable || OnlySuppressionPending(p)
    ensures var defers := Defers(p, false, switch);
      Commit(p, false, defers).0 == p && Ready(p, defers)
  {
  }

  /**
   One quiet step before the deadline: the lease and its deadline stay exactly as they
   were, the runtime stays ready and asks for no store, whatever the clock update and the
   calendar say.
   */
  lemma QuietStepKeepsLease(r: Rt, input: Input)
    requires Leased(r) && Quiet(r, input) && PlanOf(r, input).committed.Valid()
    requires input.observed.now < r.supervisor.value.run.value.deadline
    ensures Next(r, input).supervisor.Some?
    ensures Next(r, input).supervisor.value.run == r.supervisor.value.run
    ensures Leased(Next(r, input))
    ensures PlanOf(r, input).inputs.hardware == P.Allowed
    ensures Next(r, input).pending.None? && Next(r, input).nextTicket == r.nextTicket
  {
    hide Inv, MakePlan, Core, Advances, PH.Inv;
    var plan := PlanOf(r, input);
    var o := input.observed;
    QuietRecords(r, input);
    PlanStages(r, o, input.request, input.completion);
    QuietCommits(r, plan.persisted, P.NoSwitch);
    NextRecords(r, input) by { assert Inv(r); }
    InvSupervisor(r);
    QuietUpdateKeepsRun(r.supervisor.value, o.now, plan.inputs);
    OverrideIsLeased(r, input);
  }

  /** Steps `i` up to `j` are quiet and come before the lease's deadline. */
  ghost predicate QuietBefore(inputs: seq<Input>, rs: seq<Rt>, i: nat, j: nat, deadline: Millis)
    requires |rs| == |inputs| + 1 && j <= |inputs|
  {
    forall k :: i <= k < j ==>
      && rs[k].configuration.Some? && rs[k].supervisor.Some?
      && Quiet(rs[k], inputs[k])
      && inputs[k].observed.now < deadline
  }

  /**
   Manual leases are not cut by bookkeeping: after a step that leaves an override lease,
   any run of quiet steps before its deadline keeps the very same lease, stays ready and
   never asks for a store, through clock loss, revocation, expiry and calendar changes.
   */
  lemma {:induction false} LeaseOutlastsBookkeeping(inputs: seq<Input>, rs: seq<Rt>, i: nat, j: nat)
    requires Steps(inputs, rs) && 0 < i <= j <= |inputs|
    requires rs[i].Demand() == Override
    requires QuietBefore(inputs, rs, i, j, rs[i].supervisor.value.run.value.deadline)
    ensures Leased(rs[j]) && rs[j].supervisor.Some?
    ensures rs[j].supervisor.value.run == rs[i].supervisor.value.run
    ensures rs[j].nextTicket == rs[i].nextTicket
    decreases j - i
  {
    hide Inv, MakePlan, Step, Quiet;
    StepsInv(inputs, rs, j - 1);
    if i == j {
      OverrideIsLeased(rs[j - 1], inputs[j - 1]);
      InvSupervisor(rs[j]) by { StepsInv(inputs, rs, j); }
    } else {
      LeaseOutlastsBookkeeping(inputs, rs, i, j - 1);
      QuietStepKeepsLease(rs[j - 1], inputs[j - 1]);
    }
  }

  /** The first quiet step at or after the deadline ends the lease and turns the output off. */
  lemma LeaseEndsAtDeadline(r: Rt, input: Input)
    requires Leased(r) && Quiet(r, input) && PlanOf(r, input).committed.Valid()
    requires input.observed.now >= r.supervisor.value.run.value.deadline
    ensures Next(r, input).Demand() == NoDemand && Next(r, input).Relay() == Off
  {
    hide Inv, MakePlan, Core, Advances, PH.Inv;
    var plan := PlanOf(r, input);
    var o := input.observed;
    QuietRecords(r, input);
    PlanStages(r, o, input.request, input.completion);
    QuietCommits(r, plan.persisted, P.NoSwitch);
    InvSupervisor(r);
    QuietUpdateEndsRun(r.supervisor.value, o.now, plan.inputs);
  }
}
