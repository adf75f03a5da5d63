/** What each command is answered, and what an accepted one has done by the end of its step. */
module RuntimeCommands {
  import opened Base
  import opened Interlock
  import opened Occurrences
  import opened Retained
  import opened Runtime
  import opened RuntimeCalendar
  import opened RuntimeInvariant
  import opened RuntimeRuns
  import opened RuntimeSafety
  import P = Policy
  import PH = PolicyHistory
  import S = Schedule
  import U = Utc

  /** The runtime a command meets: after the button, the completion and the clock of its step. */
  function Settled(r: Rt, input: Input): Rt {
    Settle(r, input.observed, input.completion).0
  }

  /** The request is for the output to be on: an On, or a toggle of an output that is off. */
  predicate AsksOn(r: Rt, request: Option<Request>) {
    request.Some? && (request.value.command.TurnOn? || (request.value.command.Toggle? && r.Relay() == Off))
  }

  /** A clock setting is accepted for a representable time with a civil time at both ends and an identity left. */
  function TimeVerdict(s: Rt, sample: U.Observation, now: Millis): Result<Ack, Error> {
    var b := U.BoundsAt(sample, now);
    if b.None? || s.configuration.None?
       || s.configuration.value.timezone.civilAt(b.value.earliestMs / 1000).None?
       || s.configuration.value.timezone.civilAt(b.value.latestMs / 1000).None? then Err(InvalidTime)
    else if s.clockExhausted || s.clockGeneration == U64_MAX then Err(Exhausted)
    else Ok(Applied)
  }

  /** A whole second, exactly, as of now. */
  function WholeSecond(utc: UtcSeconds, now: Millis): U.Observation
    requires utc * 1000 <= U64_MAX
  {
    U.Observation(U.Bounds(utc * 1000, utc * 1000), now, U.Rate(0, 0))
  }

  /**
   The answer to a command that is not a toggle, or none while it waits for a store; `held`
   says whether the supervisor holds an override at the end of the step.
   */
  function Verdict(s: Rt, o: Observed, command: Runtime.Command, held: bool): Option<Result<Ack, Error>>
    requires !command.Toggle?
  {
    if command.TurnOff? || command.ClearUtc? then Some(Ok(Applied))
    else if s.active.Some? || s.pending.Some? then Some(Err(Busy))
    else if s.storageFailed && !command.SaveConfiguration? && !command.BeginMaintenance? then Some(Err(NeedsRecovery))
    else
      match command
      case SaveConfiguration(config) =>
        if config.revision == s.ConfigRevision() + 1 then None else Some(Err(Revision))
      case BeginMaintenance =>
        if s.configuration.None? then Some(Ok(Applied)) else if s.storageFailed then Some(Err(NeedsRecovery)) else None
      case EndMaintenance =>
        if o.maintenancePressed then Some(Err(Superseded)) else if s.desired.None? then Some(Err(Unconfigured)) else None
      case SetUtc(utc) =>
        Some(if utc * 1000 > 253402300799999 || o.now >= 0x7FFF_FFFF_FFFF_FFFF then Err(InvalidTime)
             else TimeVerdict(s, WholeSecond(utc, o.now), o.now))
      case SetUtcObserved(sample) => Some(TimeVerdict(s, sample, o.now))
      case _ =>
        Some(if o.forceOff then Err(Superseded)
             else if s.configuration.None? then Err(Unconfigured)
             else if held then Ok(Applied)
             else Err(Rejected))
  }

  lemma SetClockVerdict(r: Rt, sample: U.Observation, now: Millis)
    ensures TimeResult(SetClock(r, sample, now, Operator).1) == TimeVerdict(r, sample, now)
  {
    hide U.BoundsAt;
  }

  lemma AcceptVerdict(s: Rt, request: Request, o: Observed, switch: P.Switch)
    requires !request.command.Toggle?
    ensures Accept(s, request, o, ExplicitOff(o, Some(request)), switch).result == Verdict(s, o, request.command, true)
  {
    hide SetClock, TimeResult, TimeVerdict, InvalidateClock, LatchMaintenance;
    match request.command {
      case SetUtc(utc) =>
        if utc * 1000 <= U.MAX_UNIX_MS {
          SetClockVerdict(s, WholeSecond(utc, o.now), o.now);
        }
      case SetUtcObserved(sample) =>
        SetClockVerdict(s, sample, o.now);
      case _ =>
    }
  }

  /** The command a request stands for: a toggle is an Off of an output that is on, else an On. */
  function Meant(r: Rt, command: Runtime.Command): (c: Runtime.Command)
    ensures !c.Toggle?
  {
    if !command.Toggle? then command else if r.Relay() == On then TurnOff else TurnOn
  }

  /** What every command is answered in its own step, in the runtime it meets. */
  lemma CommandReply(r: Rt, input: Input)
    requires Inv(r) && PlanOf(r, input).committed.Valid()
    ensures var out := Step(r, input.observed, input.request, input.completion);
      if input.request.None? then out.commandReply.None?
      else
        var request := input.request.value;
        var verdict := Verdict(Settled(r, input), input.observed, Meant(r, request.command), out.rt.Demand() == Override);
        out.commandReply == if verdict.None? then None else Some(Reply(request.id, verdict.value))
  {
    hide Inv, MakePlan, Runtime.Step, Settle, Accept, TimeVerdict;
    var o := input.observed;
    var plan := PlanOf(r, input);
    EarlyStages(r, o, input.request, input.completion);
    StepParts(r, o, input.request, input.completion);
    if input.request.Some? {
      var q := plan.request.value;
      AcceptVerdict(plan.settled, q, o, if ExplicitOff(o, plan.request) then P.SwitchOff else P.NoSwitch);
    }
  }

  // ------------------------------------------------------------------- effects

  /**
   By the end of a step that is told to switch off no saved window may start a run; and an
   occurrence the schedule had just found, if it can be recorded at all, is saved as suppressed.
   */
  lemma OffSuppresses(r: Rt, input: Input)
    requires Inv(r) && PlanOf(r, input).committed.Valid() && AsksOff(r, input.observed, input.request)
    ensures Ineligible(Next(r, input))
    ensures var a, d := PlanOf(r, input).admission.rt, PlanOf(r, input).decision;
      a.replacement.None? && !a.storageFailed && a.desired.Some? && d.Some? && d.value.PersistBeforeRun? ==>
        Next(r, input).SavedWindow() == Some(RetainedWindow(d.value.occurrence.id, d.value.occurrence.endsUtc, Suppressed))
  {
    hide Inv, MakePlan, Runtime.Step, ClockStep, Persist, Commit, Calendar, ObserveUtc, Settle, Admit, Resolve, Defers;
    var plan := PlanOf(r, input);
    AsksOffIsExplicit(r, input.observed, input.request);
    EarlyStages(r, input.observed, input.request, input.completion);
    LatePlan(r, input);
    PlanStages(r, input.observed, input.request, input.completion);
    StepParts(r, input.observed, input.request, input.completion);
    ObserveUtcIsClockStep(plan.admission.rt, input.observed.now);
    ClockStepKeeps(plan.admission.rt, plan.seen);
    OffPersists(plan.seen, plan.decision, plan.admission.switch, plan.switch);
    CommitKeepsWindow(plan.persisted, input.observed.maintenancePressed, plan.defers);
  }

  lemma LatePlan(r: Rt, input: Input)
    ensures var plan := PlanOf(r, input);
      && plan.explicitOff == ExplicitOff(input.observed, plan.request)
      && plan.seen == ObserveUtc(plan.admission.rt, input.observed.now).0
      && plan.persisted == Persist(Calendar(plan.seen, plan.decision, plan.admission.switch).0, plan.decision,
                                   plan.explicitOff, plan.switch)
  {
    hide Settle, Admit, ObserveUtc, Decide, Calendar, Persist, Commit, Defers, ControlInputs, Resolve;
  }

  lemma OffPersists(seen: Rt, decision: Option<S.Decision>, before: P.Switch, switch: P.Switch)
    ensures var p := Persist(Calendar(seen, decision, before).0, decision, true, switch);
      && Ineligible(p)
      && (seen.replacement.None? && !seen.storageFailed && seen.desired.Some?
          && decision.Some? && decision.value.PersistBeforeRun? ==>
            p.SavedWindow() == Some(RetainedWindow(decision.value.occurrence.id, decision.value.occurrence.endsUtc, Suppressed)))
  {
  }

  /** The observation a clock setting stands for. */
  predicate Tells(command: Runtime.Command, now: Millis, sample: U.Observation) {
    || command == SetUtcObserved(sample)
    || (command.SetUtc? && command.utc * 1000 <= U64_MAX && sample == WholeSecond(command.utc, now))
  }

  /** A clock setting that is applied is the clock from then on: that observation, read now, under a generation of its own. */
  lemma AcceptedTimeIsKept(r: Rt, input: Input, sample: U.Observation)
    requires Inv(r) && PlanOf(r, input).committed.Valid()
    requires input.request.Some? && Tells(input.request.value.command, input.observed.now, sample)
    requires Step(r, input.observed, input.request, input.completion).commandReply
          == Some(Reply(input.request.value.id, Ok(Applied)))
    ensures Settled(r, input).clockGeneration < U64_MAX
    ensures Next(r, input).clock
         == Some(Clock(U.Anchor(Some(sample), input.observed.now),
                       Authority(sample, Settled(r, input).clockGeneration + 1, Operator)))
  {
    hide Inv, MakePlan, Runtime.Step, Settle, Accept, Next, ObserveUtc, U.BoundsAt;
    var o := input.observed;
    var plan := PlanOf(r, input);
    CommandReply(r, input);
    EarlyStages(r, o, input.request, input.completion);
    AcceptSets(plan.settled, input.request.value, o, sample,
               if ExplicitOff(o, plan.request) then P.SwitchOff else P.NoSwitch);
    LatePlan(r, input);
    LateClock(r, input);
    FreshClockStays(plan.admission.rt, sample, o.now);
  }

  lemma AcceptSets(s: Rt, request: Request, o: Observed, sample: U.Observation, switch: P.Switch)
    requires Tells(request.command, o.now, sample)
    requires Verdict(s, o, request.command, true) == Some(Ok(Applied)) || Verdict(s, o, request.command, false) == Some(Ok(Applied))
    ensures U.BoundsAt(sample, o.now).Some? && s.clockGeneration < U64_MAX
    ensures Accept(s, request, o, ExplicitOff(o, Some(request)), switch).rt.clock
         == Some(Clock(U.Anchor(Some(sample), o.now), Authority(sample, s.clockGeneration + 1, Operator)))
  {
    hide U.BoundsAt, InvalidateClock;
  }

  lemma FreshClockStays(r: Rt, sample: U.Observation, now: Millis)
    requires r.clock.Some? && r.clock.value.anchor == U.Anchor(Some(sample), now) && U.BoundsAt(sample, now).Some?
    ensures ObserveUtc(r, now).0.clock == r.clock
  {
    hide U.BoundsAt;
  }

  /** A step that ends in maintenance ends every run, manual and automatic, so none survives a later exit; and it applies no On. */
  lemma MaintenanceEndsRuns(r: Rt, input: Input)
    requires Inv(r) && PlanOf(r, input).committed.Valid() && Next(r, input).maintenance
    ensures Next(r, input).Demand() == NoDemand && Next(r, input).Relay() == Off
    ensures AsksOn(r, input.request) ==>
      Step(r, input.observed, input.request, input.completion).commandReply
        != Some(Reply(input.request.value.id, Ok(Applied)))
  {
    hide Inv, MakePlan, Runtime.Step, Core, Advances, Settle, P.Updated, PH.Inv;
    var plan, o := PlanOf(r, input), input.observed;
    PlanKeepsInv(r, o, input.request, input.completion);
    PlanStages(r, o, input.request, input.completion);
    StepParts(r, o, input.request, input.completion);
    CoreSupervisor(plan.committed) by { CommittedCore(plan.committed); }
    if plan.committed.supervisor.Some? {
      OffStopsSupervisor(plan.committed.supervisor.value, o.now, plan.inputs);
    }
    CommandReply(r, input);
  }
}
