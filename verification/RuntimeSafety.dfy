/** Safety of the runtime over single steps and whole runs. */
module RuntimeSafety {
  import opened Base
  import opened Interlock
  import opened Runtime
  import opened RuntimeInvariant
  import Utc
  import P = Policy
  import PH = PolicyHistory
  import S = Schedule
  import SI = ScheduleInterval

  /** Everything a plan's stages keep. */
  ghost predicate PlanInv(r: Rt, plan: Plan) {
    && Core(plan.settled) && Advances(r, plan.settled)
    && Core(plan.admission.rt) && Advances(r, plan.admission.rt)
    && Core(plan.seen) && Advances(r, plan.seen)
    && Core(plan.persisted) && Advances(r, plan.persisted)
    && Inv(plan.committed) && Advances(r, plan.committed)
    && (plan.decision.Some? ==> SI.Respects(plan.decision.value, plan.seen.SavedWindow()))
  }

  lemma DecideRespects(r: Rt, now: Millis, bounds: Option<Utc.Bounds>)
    ensures Decide(r, now, bounds).Some? ==> SI.Respects(Decide(r, now, bounds).value, r.SavedWindow())
  {
    if r.configuration.Some? {
      var config := r.configuration.value;
      var d := SI.EvaluateInterval(now, CivilInterval(r, bounds), config.schedule, config.timezone.resolve, r.SavedWindow());
      if d.Ok? {
        SI.DecisionRespectsSaved(now, CivilInterval(r, bounds), config.schedule, config.timezone.resolve, r.SavedWindow());
      }
      hide SI.EvaluateInterval, CivilInterval;
    }
  }

  lemma PlanKeepsInv(r: Rt, observed: Observed, request: Option<Request>, completion: Option<Completion>)
    requires Inv(r)
    ensures PlanInv(r, MakePlan(r, observed, request, completion))
  {
    hide Core, Advances, Settle, Admit, ObserveUtc, Decide, Calendar, Persist, Commit, Defers, ControlInputs,
         SI.Respects, ClockStep;
    var plan := MakePlan(r, observed, request, completion);
    var q := Resolve(r, request);
    SettleCore(r, observed, completion);
    AdmitCore(plan.settled, observed, q);
    AdvancesTransitive(r, plan.settled, plan.admission.rt);
    ObserveUtcIsClockStep(plan.admission.rt, observed.now);
    ClockStepCore(plan.admission.rt, plan.seen);
    AdvancesTransitive(r, plan.admission.rt, plan.seen);
    DecideRespects(plan.seen, observed.now, ObserveUtc(plan.admission.rt, observed.now).1);
    CalendarCore(plan.seen, plan.decision, plan.admission.switch);
    var calendar := Calendar(plan.seen, plan.decision, plan.admission.switch).0;
    AdvancesTransitive(r, plan.seen, calendar);
    CalendarKeepsPersistable(plan.seen, plan.decision, plan.admission.switch);
    PersistCore(calendar, plan.decision, plan.explicitOff, plan.switch);
    AdvancesTransitive(r, calendar, plan.persisted);
    DefersMeans(plan.persisted, plan.explicitOff, plan.switch);
    CommitInv(plan.persisted, observed.maintenancePressed, plan.defers);
    AdvancesTransitive(r, plan.persisted, plan.committed);
  }

  lemma CalendarKeepsPersistable(r: Rt, decision: Option<S.Decision>, switch: P.Switch)
    ensures decision.Some? && decision.value.PersistBeforeRun? ==> Calendar(r, decision, switch).0 == r
  {
  }

  lemma DefersMeans(r: Rt, explicitOff: bool, switch: P.Switch)
    ensures Defers(r, explicitOff, switch) ==>
      && r.active.None? && r.replacement.None? && r.pending.None? && OnlySuppressionPending(r)
      && ManualPending(r, switch) && switch != P.SwitchOff
  {
  }

  /** Every step keeps the invariant; watermarks and tickets only grow. */
  lemma StepKeepsInv(r: Rt, observed: Observed, request: Option<Request>, completion: Option<Completion>)
    requires Inv(r)
    ensures MakePlan(r, observed, request, completion).committed.Valid()
    ensures Inv(Step(r, observed, request, completion).rt)
    ensures Advances(r, Step(r, observed, request, completion).rt)
  {
    PlanKeepsInv(r, observed, request, completion);
    var plan := MakePlan(r, observed, request, completion);
    hide MakePlan, Core, Advances, Drive;
    DriveInv(plan.committed, observed.now, plan.inputs);
    AdvancesTransitive(r, plan.committed, Drive(plan.committed, observed.now, plan.inputs));
  }

  // --------------------------------------------------------- durability gate

  /** The only record states in which the output may be on. */
  predicate Gate(r: Rt) {
    && r.pending.None? && r.replacement.None? && r.active.None?
    && !r.storageFailed && !r.maintenance
    && r.configuration.Some?
    && r.durable.Some? && !r.durable.value.maintenance
    && r.desired.Some? && !r.desired.value.maintenance
    && (r.desired == r.durable || (OnlySuppressionPending(r) && r.Demand() == Override))
  }

  /** A level acquired no later than now and at most `maxAgeMs` ago. */
  predicate FreshReading(reading: Reading, maxAgeMs: u64, now: Millis) {
    reading.Valid? && reading.observedAt <= now && now - reading.observedAt <= maxAgeMs
  }

  /** An output on after an update came from a permitted, out-of-maintenance update on a fresh level. */
  lemma OnNeedsPermit(a: P.Arbiter, now: Millis, input: P.Inputs)
    requires PH.Inv(a) && P.Updated(a, now, input).interlock.Relay() == On
    ensures input.hardware == P.Allowed && input.maintenance != Interlock.EnterMaintenance
    ensures now >= a.interlock.lastTick
    ensures FreshReading(input.reading, a.settings.interlock.maxSampleAgeMs, now)
  {
    var e := PH.ControlEvent(a, PH.Update(now, input));
    PH.InterlockSimulates(a, PH.Update(now, input));
    PH.RunningNeedsDemand(a.interlock, now, e.reading, e.command, e.demand);
    hide Interlock.Updated, P.Updated;
  }

  /** An override request or lease that is still on afterwards is still an override. */
  lemma OnStaysOverride(a: P.Arbiter, now: Millis, input: P.Inputs)
    requires PH.Inv(a) && P.Updated(a, now, input).interlock.Relay() == On
    requires input.switch == P.SwitchOn || (input.switch == P.NoSwitch && a.Demand() == Override)
    ensures P.Updated(a, now, input).Demand() == Override
  {
    var e := PH.Update(now, input);
    PH.InterlockSimulates(a, e);
    var c := PH.ControlEvent(a, e);
    PH.RunningNeedsDemand(a.interlock, now, c.reading, c.command, c.demand);
    hide Interlock.Updated;
  }

  /** What the supervisor is told reflects readiness and maintenance. */
  lemma InputsMean(r: Rt, observed: Observed, decision: Option<S.Decision>, explicitOff: bool, switch: P.Switch, defers: bool)
    ensures var i := ControlInputs(r, observed, decision, explicitOff, switch, defers);
      && (i.hardware == P.Allowed ==> Ready(r, defers))
      && (i.maintenance != Interlock.EnterMaintenance ==> !r.maintenance && i.switch == switch)
      && (i.window.Some? ==>
            && Ready(r, defers)
            && decision.Some? && decision.value.Active?
            && i.window.value == decision.value.window)
      && (i.reading.Valid? ==>
            && i.reading == observed.reading
            && r.configuration.Some? && r.configuration.value.calibrated
            && r.configuration.value.revision == observed.sensorRevision)
  {
  }

  /** A ready commit leaves no request, and out of maintenance both records are clear of it. */
  lemma CommitGate(r: Rt, pressed: bool, defers: bool)
    requires Core(r) && Inv(Commit(r, pressed, defers).0)
    requires defers ==> OnlySuppressionPending(r) && r.pending.None? && r.replacement.None?
    ensures var c := Commit(r, pressed, defers).0;
      Ready(c, defers) ==> c.active.None? && (defers ==> OnlySuppressionPending(c) && c.desired == r.desired)
  {
    hide PH.Inv, LatchMaintenance;
  }

  /**
   Durability gate: after any step, the output is on only with no store in flight, no
   replacement, no failure, both records clear of maintenance, and desired equal to durable
   up to one suppression deferred under an override lease.
   */
  lemma DurabilityGate(r: Rt, observed: Observed, request: Option<Request>, completion: Option<Completion>)
    requires Inv(r)
    requires MakePlan(r, observed, request, completion).committed.Valid()
    requires Step(r, observed, request, completion).rt.Relay() == On
    ensures Gate(Step(r, observed, request, completion).rt)
  {
    PlanKeepsInv(r, observed, request, completion);
    var plan := MakePlan(r, observed, request, completion);
    PlanStages(r, observed, request, completion);
    hide MakePlan, Core;
    var c := plan.committed;
    assert c.supervisor.Some?;
    CoreSupervisor(c);
    OnNeedsPermit(c.supervisor.value, observed.now, plan.inputs);
    CommitGate(plan.persisted, observed.maintenancePressed, plan.defers);
    if plan.defers {
      CommitKeepsDemand(plan.persisted, observed.maintenancePressed, plan.defers);
      OnStaysOverride(c.supervisor.value, observed.now, plan.inputs);
    }
    GateRecords(c);
    hide P.Updated, PH.Inv;
  }

  /**
   After any step the output is on only with a fresh level, measured under the calibrated
   configuration now in force.
   */
  lemma OnNeedsSample(r: Rt, observed: Observed, request: Option<Request>, completion: Option<Completion>)
    requires Inv(r)
    requires MakePlan(r, observed, request, completion).committed.Valid()
    requires Step(r, observed, request, completion).rt.Relay() == On
    ensures var n := Step(r, observed, request, completion).rt;
      && n.configuration.Some? && n.configuration.value.calibrated
      && n.configuration.value.revision == observed.sensorRevision
      && FreshReading(observed.reading, n.configuration.value.settings.interlock.maxSampleAgeMs, observed.now)
  {
    PlanKeepsInv(r, observed, request, completion);
    var plan := MakePlan(r, observed, request, completion);
    PlanStages(r, observed, request, completion);
    var c := plan.committed;
    CoreSupervisor(c) by { hide Core, MakePlan; }
    InputsMean(c, observed, plan.decision, plan.explicitOff, plan.switch, plan.defers);
    hide MakePlan, Core, P.Updated, PH.Inv, ControlInputs, FreshReading;
    OnNeedsPermit(c.supervisor.value, observed.now, plan.inputs);
    assert FreshReading(plan.inputs.reading, c.supervisor.value.settings.interlock.maxSampleAgeMs, observed.now);
  }

  lemma GateRecords(c: Rt)
    requires Inv(c) && !c.maintenance && c.supervisor.Some?
    ensures c.configuration.Some? && c.desired.Some? && !c.desired.value.maintenance && c.durable.Some?
    ensures !c.storageFailed && c.pending.None? ==> !c.durable.value.maintenance
  {
    hide PH.Inv;
  }

  lemma CoreSupervisor(r: Rt)
    requires Core(r)
    ensures r.supervisor.Some? ==> PH.Inv(r.supervisor.value)
    ensures r.configuration.Some? <==> r.supervisor.Some?
    ensures r.supervisor.Some? ==> r.supervisor.value.settings == r.configuration.value.settings
  {
  }

  lemma CommitKeepsDemand(r: Rt, pressed: bool, defers: bool)
    ensures Commit(r, pressed, defers).0.supervisor == r.supervisor
  {
  }

  /** How the late stages of a plan were computed. */
  lemma PlanStages(r: Rt, observed: Observed, request: Option<Request>, completion: Option<Completion>)
    ensures var plan := MakePlan(r, observed, request, completion);
      && plan.defers == Defers(plan.persisted, plan.explicitOff, plan.switch)
      && plan.committed == Commit(plan.persisted, observed.maintenancePressed, plan.defers).0
      && plan.finished == Commit(plan.persisted, observed.maintenancePressed, plan.defers).1
      && plan.inputs == ControlInputs(plan.committed, observed, plan.decision, plan.explicitOff, plan.switch, plan.defers)
  {
    hide Settle, Admit, ObserveUtc, Decide, Calendar, Persist, Commit, Defers, ControlInputs, Resolve;
  }

  // ---------------------------------------------------------------- replies

  function Waiting(r: Rt): multiset<u32> {
    if r.active.Some? then multiset{r.active.value.id} else multiset{}
  }

  function Answered(reply: Option<Reply>): multiset<u32> {
    if reply.Some? then multiset{reply.value.id} else multiset{}
  }

  /** Requests this step takes on without answering at once. */
  function Taken(plan: Plan): multiset<u32> {
    if plan.request.Some? && plan.admission.result.None? then multiset{plan.request.value.id} else multiset{}
  }

  /** A reply ends the waiting request under its own id; without one the request stays. */
  predicate Answers(before: Option<ActiveRequest>, after: Option<ActiveRequest>, reply: Option<Reply>) {
    if reply.None? then after == before
    else before.Some? && after.None? && reply.value.id == before.value.id
  }

  lemma EnqueueKeepsActive(r: Rt, record: Record)
    ensures Enqueue(r, record).active == r.active
    ensures Enqueue(r, record).supervisor == r.supervisor
  {
  }

  lemma CompleteReplies(r: Rt, completion: Completion, now: Millis)
    ensures Answers(r.active, Complete(r, completion, now).0.active, Complete(r, completion, now).1)
  {
    if r.pending.Some? && r.replacement.Some? && r.pending.value.record.RetainedRecord? {
      EnqueueKeepsActive(r.(pending := None, durable := Some(r.pending.value.record.state)),
                         ConfigurationRecord(r.replacement.value));
    }
    var failed := r.(pending := None, storageFailed := true, replacement := None,
      desired := if r.desired.Some? && r.configuration.Some?
                 then Some(r.desired.value.(configRevision := r.configuration.value.revision))
                 else r.desired);
    LatchedFields(failed);
    hide LatchMaintenance, Enqueue, P.Reconfigured, P.Initial;
  }

  lemma PressReplies(r: Rt, pressed: bool)
    ensures Answers(r.active, Press(r, pressed).0.active, Press(r, pressed).1)
  {
    LatchedFields(r);
    hide LatchMaintenance;
  }

  lemma SettleReplies(r: Rt, observed: Observed, completion: Option<Completion>)
    ensures Answers(r.active, Settle(r, observed, completion).0.active, Settle(r, observed, completion).1)
  {
    PressReplies(r, observed.maintenancePressed);
    var pressed := Press(r, observed.maintenancePressed).0;
    if completion.Some? {
      CompleteReplies(pressed, completion.value, observed.now);
    }
    var completed := if completion.Some? then Complete(pressed, completion.value, observed.now).0 else pressed;
    var seen := ObserveUtc(completed, observed.now).0;
    ClockStepKeeps(completed, seen) by { ObserveUtcIsClockStep(completed, observed.now); }
    ClockStepKeeps(seen, TakeClockUpdate(seen, observed.clockUpdate, observed.now)) by {
      TakeClockUpdateIsClockStep(seen, observed.clockUpdate, observed.now);
    }
    hide Press, Complete, ObserveUtc, TakeClockUpdate;
  }

  lemma ClockStepKeeps(a: Rt, b: Rt)
    requires ClockStep(a, b)
    ensures b.active == a.active && b.pending == a.pending && b.replacement == a.replacement
    ensures b.nextTicket == a.nextTicket && b.durable == a.durable && b.storageFailed == a.storageFailed
    ensures b.configuration == a.configuration && b.supervisor == a.supervisor && b.maintenance == a.maintenance
    ensures b.desired == a.desired || b.desired == Suppress(a).desired
  {
  }

  /** Settling never ends maintenance, and a pressed button begins it. */
  lemma SettleKeepsMaintenance(r: Rt, observed: Observed, completion: Option<Completion>)
    requires r.maintenance || observed.maintenancePressed
    ensures Settle(r, observed, completion).0.maintenance
  {
    hide Press, Complete, ObserveUtc, TakeClockUpdate;
    var pressed := Press(r, observed.maintenancePressed).0;
    PressBeginsMaintenance(r, observed.maintenancePressed);
    if completion.Some? {
      CompleteKeepsMaintenance(pressed, completion.value, observed.now);
    }
    var completed := if completion.Some? then Complete(pressed, completion.value, observed.now).0 else pressed;
    var seen := ObserveUtc(completed, observed.now).0;
    ClockStepKeeps(completed, seen) by { ObserveUtcIsClockStep(completed, observed.now); }
    ClockStepKeeps(seen, TakeClockUpdate(seen, observed.clockUpdate, observed.now)) by {
      TakeClockUpdateIsClockStep(seen, observed.clockUpdate, observed.now);
    }
  }

  lemma PressBeginsMaintenance(r: Rt, pressed: bool)
    requires r.maintenance || pressed
    ensures Press(r, pressed).0.maintenance
  {
    LatchedFields(r);
    hide LatchMaintenance;
  }

  lemma CompleteKeepsMaintenance(r: Rt, completion: Completion, now: Millis)
    requires r.maintenance
    ensures Complete(r, completion, now).0.maintenance
  {
  }

  lemma AdmitReplies(r: Rt, observed: Observed, request: Option<Request>)
    requires request.Some? ==> !request.value.command.Toggle?
    ensures var a := Admit(r, observed, request);
      if request.Some? && a.result.None? then
        && r.active.None? && r.pending.None? && a.rt.pending.None?
        && a.rt.active.Some? && a.rt.active.value.id == request.value.id
      else a.rt.active == r.active && a.rt.pending == r.pending
    ensures Admit(r, observed, request).rt.nextTicket == r.nextTicket
  {
    hide Admit;
    AdmitOutcomes(r, observed, request);
  }

  lemma EnsureStoreKeepsActive(r: Rt)
    ensures EnsureStore(r).active == r.active
  {
    hide EnsureStore, LatchMaintenance;
    EnsureStoreOutcomes(r);
    LatchedFields(r.(storageFailed := true));
  }

  /** After the store is started, the commit only ends the request and settles maintenance. */
  lemma CommitFrame(r: Rt, pressed: bool, defers: bool)
    ensures var c := Commit(r, pressed, defers).0;
      c == (if defers then r else EnsureStore(r)).(active := c.active, maintenance := c.maintenance)
  {
    hide EnsureStore;
  }

  /** Starting a store takes a ticket for the desired record or the replacement, or fails and latches for want of one. */
  lemma EnsureStoreOutcomes(r: Rt)
    ensures var e := EnsureStore(r);
      || e == r
      || (r.nextTicket == U64_MAX && r.pending.None? && e == LatchMaintenance(r.(storageFailed := true)))
      || (&& r.nextTicket < U64_MAX && r.pending.None? && !r.storageFailed && e.pending.Some?
          && e == r.(nextTicket := r.nextTicket + 1, pending := e.pending)
          && e.pending.value.ticket == r.nextTicket + 1
          && (e.pending.value.record.RetainedRecord? ==> r.desired == Some(e.pending.value.record.state)))
  {
    hide LatchMaintenance;
  }

  lemma CommitReplies(r: Rt, pressed: bool, defers: bool)
    ensures Answers(r.active, Commit(r, pressed, defers).0.active, Commit(r, pressed, defers).1)
  {
    EnsureStoreKeepsActive(r);
    hide EnsureStore;
  }

  /** The calendar and the recording of an occurrence touch nothing but the desired window. */
  lemma RecordingKeeps(r: Rt, decision: Option<S.Decision>, explicitOff: bool, before: P.Switch, switch: P.Switch)
    ensures var p := Persist(Calendar(r, decision, before).0, decision, explicitOff, switch);
      && p == r.(desired := p.desired)
      && (r.desired.Some? <==> p.desired.Some?)
      && (r.desired.Some? ==>
            && p.desired.value.maintenance == r.desired.value.maintenance
            && p.desired.value.configRevision == r.desired.value.configRevision)
  {
  }

  /** Everything between admission and commit keeps the transaction and maintenance as they were. */
  lemma LateStagesKeep(r: Rt, observed: Observed, request: Option<Request>, completion: Option<Completion>)
    ensures var plan := MakePlan(r, observed, request, completion);
      var a, p := plan.admission.rt, plan.persisted;
      && p.active == a.active && p.pending == a.pending && p.nextTicket == a.nextTicket
      && p.replacement == a.replacement && p.durable == a.durable && p.storageFailed == a.storageFailed
      && p.configuration == a.configuration && p.maintenance == a.maintenance && p.supervisor == a.supervisor
      && (a.desired.Some? <==> p.desired.Some?)
      && (a.desired.Some? ==>
            && p.desired.value.maintenance == a.desired.value.maintenance
            && p.desired.value.configRevision == a.desired.value.configRevision)
  {
    var plan := MakePlan(r, observed, request, completion);
    ClockStepKeeps(plan.admission.rt, plan.seen) by { ObserveUtcIsClockStep(plan.admission.rt, observed.now); }
    RecordingKeeps(plan.seen, plan.decision, plan.explicitOff, plan.admission.switch, plan.switch);
    hide Settle, Admit, ObserveUtc, Decide, Calendar, Persist, Commit, Defers, ControlInputs, Resolve;
  }

  lemma EarlyStages(r: Rt, observed: Observed, request: Option<Request>, completion: Option<Completion>)
    ensures var plan := MakePlan(r, observed, request, completion);
      && plan.request == Resolve(r, request)
      && (plan.settled, plan.superseded) == Settle(r, observed, completion)
      && plan.admission == Admit(plan.settled, observed, plan.request)
  {
    hide Settle, Admit, ObserveUtc, Decide, Calendar, Persist, Commit, Defers, ControlInputs;
  }

  /** Two requests ended in this step; only the later reply leaves it. */
  predicate LosesReply(plan: Plan) {
    plan.superseded.Some? && plan.finished.Some?
  }

  /**
   Reply conservation: requests waiting before the step and taken on during it are
   exactly those answered by it and those still waiting, unless a reply was overwritten.
   */
  lemma RepliesAreConserved(r: Rt, observed: Observed, request: Option<Request>, completion: Option<Completion>)
    requires Inv(r) && MakePlan(r, observed, request, completion).committed.Valid()
    ensures var plan := MakePlan(r, observed, request, completion);
      var out := Step(r, observed, request, completion);
      Waiting(r) + Taken(plan) == Waiting(out.rt) + Answered(out.completedReply)
        + (if LosesReply(plan) then Answered(plan.superseded) else multiset{})
  {
    var plan := MakePlan(r, observed, request, completion);
    WaitingBalance(r, observed, request, completion);
    Balance(Waiting(r), Waiting(plan.settled), Waiting(plan.persisted), Waiting(plan.committed), Taken(plan),
            plan.superseded, plan.finished);
    StepParts(r, observed, request, completion);
    hide *;
  }

  lemma StepParts(r: Rt, observed: Observed, request: Option<Request>, completion: Option<Completion>)
    requires MakePlan(r, observed, request, completion).committed.Valid()
    ensures var plan := MakePlan(r, observed, request, completion);
      var out := Step(r, observed, request, completion);
      && out.rt == Drive(plan.committed, observed.now, plan.inputs)
      && out.rt == plan.committed.(supervisor := out.rt.supervisor)
      && Waiting(out.rt) == Waiting(plan.committed)
      && out.commandReply == Confirm(out.rt, plan.request, plan.admission.result)
      && out.completedReply == Either(plan.finished, plan.superseded)
      && (LosesReply(plan) <==> plan.superseded.Some? && plan.finished.Some?)
  {
    hide MakePlan, P.Updated;
  }

  lemma WaitingBalance(r: Rt, observed: Observed, request: Option<Request>, completion: Option<Completion>)
    ensures var plan := MakePlan(r, observed, request, completion);
      && Waiting(r) == Waiting(plan.settled) + Answered(plan.superseded)
      && Waiting(plan.persisted) == Waiting(plan.settled) + Taken(plan)
      && Waiting(plan.persisted) == Waiting(plan.committed) + Answered(plan.finished)
  {
    var plan := MakePlan(r, observed, request, completion);
    EarlyStages(r, observed, request, completion);
    LateStagesKeep(r, observed, request, completion);
    PlanStages(r, observed, request, completion);
    SettleReplies(r, observed, completion);
    AdmitReplies(plan.settled, observed, plan.request);
    CommitReplies(plan.persisted, observed.maintenancePressed, plan.defers);
    hide MakePlan, Settle, Admit, Commit, Resolve;
    AnswersMultiset(r, plan.settled, plan.superseded);
    AnswersMultiset(plan.persisted, plan.committed, plan.finished);
    hide Answers;
  }

  lemma Balance(before: multiset<u32>, settled: multiset<u32>, persisted: multiset<u32>, after: multiset<u32>, taken: multiset<u32>,
                superseded: Option<Reply>, finished: Option<Reply>)
    requires before == settled + Answered(superseded)
    requires persisted == settled + taken
    requires persisted == after + Answered(finished)
    ensures before + taken == after + Answered(Either(finished, superseded))
      + (if superseded.Some? && finished.Some? then Answered(superseded) else multiset{})
  {
    if superseded.Some? && finished.Some? {
      assert before + taken == persisted + Answered(superseded);
    } else if finished.Some? {
      assert before == settled;
    } else {
      assert persisted == after;
      assert before + taken == persisted + Answered(superseded);
    }
  }

  lemma AnswersMultiset(a: Rt, b: Rt, reply: Option<Reply>)
    requires Answers(a.active, b.active, reply)
    ensures Waiting(a) == Waiting(b) + Answered(reply)
  {
  }

  predicate SavesNext(r: Rt, request: Option<Request>) {
    && request.Some? && request.value.command.SaveConfiguration?
    && request.value.command.config.revision == r.ConfigRevision() + 1
  }

  predicate Matches(r: Rt, completion: Option<Completion>) {
    completion.Some? && r.pending.Some? && completion.value.ticket == r.pending.value.ticket
  }

  /**
   The one family of steps that overwrites a reply: the last ticket completes, its request
   ends, and the same step takes on a new storing request for which no ticket is left.
   */
  predicate LastTicketRace(r: Rt, observed: Observed, request: Option<Request>, completion: Option<Completion>) {
    && r.nextTicket == U64_MAX
    && r.active.Some?
    && Matches(r, completion)
    && (if completion.value.succeeded then
          && observed.maintenancePressed && Leaving(r)
          && (SavesNext(r, request) || (request.Some? && request.value.command.BeginMaintenance?))
        else SavesNext(r, request))
  }

  /** Where a matching completion leaves the settled runtime. */
  lemma SettledFields(r: Rt, observed: Observed, completion: Option<Completion>)
    requires Inv(r) && r.active.Some?
    ensures var (s, reply) := Settle(r, observed, completion);
      && (!Matches(r, completion) ==> s.pending == r.pending)
      && (Matches(r, completion) && !completion.value.succeeded ==>
            && s.pending.None? && s.storageFailed && s.replacement.None? && reply.Some?
            && s.nextTicket == r.nextTicket && s.configuration == r.configuration)
      && (Matches(r, completion) && completion.value.succeeded ==>
            (reply.Some? <==> observed.maintenancePressed && Leaving(r)))
      && (Matches(r, completion) && completion.value.succeeded && reply.Some? ==>
            && s.pending.None? && !s.storageFailed && s.replacement.None?
            && s.nextTicket == r.nextTicket && s.configuration == r.configuration && s.configuration.Some?
            && s.durable.Some? && !s.durable.value.maintenance)
  {
    var pressed := Press(r, observed.maintenancePressed).0;
    LatchedFields(r);
    MatchedCompletion(r, observed.maintenancePressed, completion, observed.now);
    var completed := if completion.Some? then Complete(pressed, completion.value, observed.now).0 else pressed;
    var seen := ObserveUtc(completed, observed.now).0;
    ClockStepKeeps(completed, seen) by { ObserveUtcIsClockStep(completed, observed.now); }
    ClockStepKeeps(seen, TakeClockUpdate(seen, observed.clockUpdate, observed.now)) by {
      TakeClockUpdateIsClockStep(seen, observed.clockUpdate, observed.now);
    }
    hide Press, Complete, ObserveUtc, TakeClockUpdate, LatchMaintenance, PH.Inv, Core;
  }

  /** The button and a matching completion, field by field. */
  lemma MatchedCompletion(r: Rt, pressed: bool, completion: Option<Completion>, now: Millis)
    requires Inv(r) && r.active.Some?
    ensures var (p, superseded) := Press(r, pressed);
      var (s, reply) := if completion.Some? then Complete(p, completion.value, now) else (p, None);
      && (!Matches(r, completion) ==> s == p && s.pending == r.pending)
      && (superseded.Some? <==> pressed && Leaving(r))
      && (Matches(r, completion) && !completion.value.succeeded ==>
            && s.pending.None? && s.storageFailed && s.replacement.None? && (reply.Some? || superseded.Some?)
            && s.nextTicket == r.nextTicket && s.configuration == r.configuration)
      && (Matches(r, completion) && completion.value.succeeded ==> reply.None?)
      && (Matches(r, completion) && completion.value.succeeded && superseded.Some? ==>
            && s.pending.None? && !s.storageFailed && s.replacement.None?
            && s.nextTicket == r.nextTicket && s.configuration == r.configuration && s.configuration.Some?
            && s.durable.Some? && !s.durable.value.maintenance)
  {
    LatchedFields(r);
    var p := Press(r, pressed).0;
    var failed := p.(pending := None, storageFailed := true, replacement := None,
      desired := if p.desired.Some? && p.configuration.Some?
                 then Some(p.desired.value.(configRevision := p.configuration.value.revision))
                 else p.desired);
    LatchedFields(failed);
    hide LatchMaintenance, Enqueue, PH.Inv;
  }

  /** A request taken on with no ticket left fails at once. */
  lemma LastTicketFails(r: Rt, pressed: bool, defers: bool)
    requires r.pending.None? && !r.storageFailed && r.nextTicket == U64_MAX && !defers
    requires r.active.Some? && r.desired.Some? && (r.replacement.Some? || r.desired != r.durable)
    ensures Commit(r, pressed, defers).1.Some?
  {
    LatchedFields(r.(storageFailed := true));
    hide LatchMaintenance;
  }

  /** A request taken on with a ticket left is still waiting after the commit. */
  lemma TicketLeftWaits(r: Rt, pressed: bool, defers: bool)
    requires r.pending.None? && !r.storageFailed && r.nextTicket < U64_MAX && !defers
    requires r.desired.Some? && (r.replacement.Some? || r.desired != r.durable)
    ensures Commit(r, pressed, defers).1.None?
  {
  }

  /** What a save or a maintenance entry taken on leaves for the commit. */
  lemma TakenNeedsStore(r: Rt, observed: Observed, request: Option<Request>)
    requires Core(r) && r.active.None? && r.pending.None?
    requires request.Some? ==> !request.value.command.Toggle?
    ensures var a := Admit(r, observed, request);
      request.Some? && a.result.None? ==>
        && a.rt.desired.Some?
        && !a.rt.storageFailed
        && (SavesNext(r, request) ==> a.rt.replacement.Some?)
        && (!SavesNext(r, request) ==> a.rt.replacement == r.replacement && !r.storageFailed)
        && (request.value.command.BeginMaintenance? ==> a.rt.desired.value.maintenance)
        && a.rt.durable == r.durable
        && (SavesNext(r, request) || request.value.command.BeginMaintenance?
            || (request.value.command.EndMaintenance? && !observed.maintenancePressed))
    ensures SavesNext(r, request) ==> Admit(r, observed, request).result.None?
    ensures request.Some? && request.value.command.BeginMaintenance? && r.configuration.Some? && !r.storageFailed ==>
      Admit(r, observed, request).result.None?
  {
    LatchedFields(r);
    hide PH.Inv, SetClock, InvalidateClock;
  }

  /** The facts about a plan that decide whether a reply is overwritten. */
  ghost predicate RaceFacts(r: Rt, observed: Observed, completion: Option<Completion>, plan: Plan) {
    && Core(plan.settled)
    && (plan.request.Some? ==> !plan.request.value.command.Toggle?)
    && plan.admission == Admit(plan.settled, observed, plan.request)
    && plan.finished == Commit(plan.persisted, observed.maintenancePressed, plan.defers).1
    && Answers(r.active, plan.settled.active, plan.superseded)
    && plan.persisted.active == plan.admission.rt.active
    && plan.persisted.pending == plan.admission.rt.pending
    && plan.persisted.nextTicket == plan.settled.nextTicket
    && plan.persisted.replacement == plan.admission.rt.replacement
    && plan.persisted.durable == plan.admission.rt.durable
    && plan.persisted.storageFailed == plan.admission.rt.storageFailed
    && (plan.admission.rt.desired.Some? ==>
          && plan.persisted.desired.Some?
          && plan.persisted.desired.value.maintenance == plan.admission.rt.desired.value.maintenance)
    && (plan.persisted.active.Some? ==> !plan.defers)
  }

  lemma PlanRaceFacts(r: Rt, observed: Observed, request: Option<Request>, completion: Option<Completion>)
    requires Inv(r)
    ensures RaceFacts(r, observed, completion, MakePlan(r, observed, request, completion))
  {
    var plan := MakePlan(r, observed, request, completion);
    PlanKeepsInv(r, observed, request, completion);
    EarlyStages(r, observed, request, completion);
    LateStagesKeep(r, observed, request, completion);
    PlanStages(r, observed, request, completion);
    SettleReplies(r, observed, completion);
    AdmitReplies(plan.settled, observed, plan.request);
    DefersMeans(plan.persisted, plan.explicitOff, plan.switch);
    hide MakePlan, Settle, Admit, Commit, Core, Advances, Defers, Answers;
  }

  /** Without a waiting request, or with its store still in flight, nothing is overwritten. */
  lemma NoRaceWhileStoring(r: Rt, observed: Observed, completion: Option<Completion>, plan: Plan)
    requires Inv(r) && RaceFacts(r, observed, completion, plan)
    requires plan.settled == Settle(r, observed, completion).0
    requires r.active.None? || !Matches(r, completion)
    ensures !LosesReply(plan)
  {
    AdmitReplies(plan.settled, observed, plan.request);
    CommitReplies(plan.persisted, observed.maintenancePressed, plan.defers);
    if r.active.Some? {
      SettledFields(r, observed, completion);
    }
    hide Settle, Admit, Commit, Core, PH.Inv;
  }

  lemma RaceOnFailure(r: Rt, observed: Observed, completion: Option<Completion>, plan: Plan)
    requires Inv(r) && RaceFacts(r, observed, completion, plan)
    requires (plan.settled, plan.superseded) == Settle(r, observed, completion)
    requires r.active.Some? && Matches(r, completion) && !completion.value.succeeded
    ensures LosesReply(plan) <==> r.nextTicket == U64_MAX && SavesNext(r, plan.request)
  {
    SettledFields(r, observed, completion);
    AdmitReplies(plan.settled, observed, plan.request);
    CommitReplies(plan.persisted, observed.maintenancePressed, plan.defers);
    TakenNeedsStore(plan.settled, observed, plan.request);
    assert SavesNext(plan.settled, plan.request) == SavesNext(r, plan.request);
    hide Settle, Admit, Core, PH.Inv;
    if SavesNext(r, plan.request) {
      if r.nextTicket == U64_MAX {
        LastTicketFails(plan.persisted, observed.maintenancePressed, plan.defers);
      } else {
        TicketLeftWaits(plan.persisted, observed.maintenancePressed, plan.defers);
      }
    }
    hide Commit;
  }

  lemma RaceOnSuccess(r: Rt, observed: Observed, completion: Option<Completion>, plan: Plan)
    requires Inv(r) && RaceFacts(r, observed, completion, plan)
    requires (plan.settled, plan.superseded) == Settle(r, observed, completion)
    requires r.active.Some? && Matches(r, completion) && completion.value.succeeded
    ensures LosesReply(plan) <==>
      && r.nextTicket == U64_MAX && observed.maintenancePressed && Leaving(r)
      && (SavesNext(r, plan.request) || (plan.request.Some? && plan.request.value.command.BeginMaintenance?))
  {
    SettledFields(r, observed, completion);
    AdmitReplies(plan.settled, observed, plan.request);
    CommitReplies(plan.persisted, observed.maintenancePressed, plan.defers);
    if plan.superseded.Some? {
      TakenNeedsStore(plan.settled, observed, plan.request);
      hide Settle, Admit, Core, PH.Inv;
      if plan.request.Some? && plan.admission.result.None? {
        if r.nextTicket == U64_MAX {
          LastTicketFails(plan.persisted, observed.maintenancePressed, plan.defers);
        } else {
          TicketLeftWaits(plan.persisted, observed.maintenancePressed, plan.defers);
        }
      }
      hide Commit;
    }
    hide Settle, Admit, Core, PH.Inv, Commit;
  }

  /** A reply is overwritten exactly in the last-ticket race; with tickets left it never is. */
  lemma ReplyLostExactlyInRace(r: Rt, observed: Observed, request: Option<Request>, completion: Option<Completion>)
    requires Inv(r)
    ensures LosesReply(MakePlan(r, observed, request, completion)) <==> LastTicketRace(r, observed, request, completion)
  {
    var plan := MakePlan(r, observed, request, completion);
    PlanRaceFacts(r, observed, request, completion);
    EarlyStages(r, observed, request, completion);
    assert SavesNext(r, plan.request) == SavesNext(r, request);
    assert (plan.request.Some? && plan.request.value.command.BeginMaintenance?)
        == (request.Some? && request.value.command.BeginMaintenance?);
    hide MakePlan, Settle, Inv, RaceFacts, SavesNext;
    if r.active.None? || !Matches(r, completion) {
      NoRaceWhileStoring(r, observed, completion, plan);
    } else if completion.value.succeeded {
      RaceOnSuccess(r, observed, completion, plan);
    } else {
      RaceOnFailure(r, observed, completion, plan);
    }
  }

  // ------------------------------------------------------------ explicit off

  lemma OffStopsSupervisor(a: P.Arbiter, now: Millis, input: P.Inputs)
    requires PH.Inv(a) && input.switch == P.SwitchOff
    ensures P.Updated(a, now, input).interlock.Relay() == Off
    ensures P.Updated(a, now, input).run.None?
  {
    if now >= a.interlock.lastTick {
      assert P.Arbitrated(a, now, input).run.None?;
    }
    var e := PH.Update(now, input);
    PH.InterlockSimulates(a, e);
    PH.ApplyKeepsInv(a, e);
    hide Interlock.Updated;
  }

  /** An explicit Off reaches the supervisor as an Off whatever the command does. */
  lemma OffReachesInputs(r: Rt, observed: Observed, request: Option<Request>, completion: Option<Completion>)
    requires ExplicitOff(observed, Resolve(r, request))
    ensures MakePlan(r, observed, request, completion).inputs.switch == P.SwitchOff
  {
    var plan := MakePlan(r, observed, request, completion);
    EarlyStages(r, observed, request, completion);
    if plan.request.Some? {
      OffSurvivesAccept(plan.settled, plan.request.value, observed);
    }
    hide Settle, Accept, ObserveUtc, Decide, Persist, Commit, Defers, Resolve;
  }

  lemma OffSurvivesAccept(r: Rt, request: Request, observed: Observed)
    requires !request.command.Toggle?
    ensures Accept(r, request, observed, true, P.SwitchOff).switch == P.SwitchOff
  {
    hide LatchMaintenance, SetClock, InvalidateClock, FromSeconds;
  }

  /** The step is told to switch off: by the pending Off, an Off, or a toggle of an output that is on. */
  predicate AsksOff(r: Rt, observed: Observed, request: Option<Request>) {
    || observed.forceOff
    || (request.Some? && request.value.command.TurnOff?)
    || (request.Some? && request.value.command.Toggle? && r.Relay() == On)
  }

  lemma AsksOffIsExplicit(r: Rt, observed: Observed, request: Option<Request>)
    ensures AsksOff(r, observed, request) <==> ExplicitOff(observed, Resolve(r, request))
  {
  }

  /** An explicit Off turns the output off in the same step and leaves no run behind. */
  lemma OffIsImmediate(r: Rt, observed: Observed, request: Option<Request>, completion: Option<Completion>)
    requires Inv(r) && MakePlan(r, observed, request, completion).committed.Valid()
    requires AsksOff(r, observed, request)
    ensures Step(r, observed, request, completion).rt.Relay() == Off
    ensures Step(r, observed, request, completion).rt.Demand() == NoDemand
  {
    AsksOffIsExplicit(r, observed, request);
    var plan := MakePlan(r, observed, request, completion);
    PlanKeepsInv(r, observed, request, completion);
    OffReachesInputs(r, observed, request, completion);
    hide MakePlan, Core, P.Updated, PH.Inv;
    var c := plan.committed;
    CoreSupervisor(c);
    if c.supervisor.Some? {
      OffStopsSupervisor(c.supervisor.value, observed.now, plan.inputs);
    }
  }
}
