/** What one step of the runtime does to the store in flight and to the records in flash. */
module RuntimeProgress {
  import opened Base
  import opened Runtime
  import opened RuntimeInvariant
  import opened RuntimeSafety
  import PH = PolicyHistory

  /** What one step does to the transaction, given the matching completion if any. */
  ghost predicate Progresses(r: Rt, completion: Option<Completion>, r': Rt) {
    && (Matches(r, completion) && completion.value.succeeded ==>
          match r.pending.value.record
          case RetainedRecord(state) => r'.durable == Some(state) && r'.configuration == r.configuration
          case ConfigurationRecord(config) => r'.durable == r.durable && r'.configuration == Some(config))
    && (!(Matches(r, completion) && completion.value.succeeded) ==>
          r'.durable == r.durable && r'.configuration == r.configuration)
    && (r.pending.Some? && !Matches(r, completion) ==> r'.pending == r.pending)
    && (r.storageFailed || (Matches(r, completion) && !completion.value.succeeded) ==>
          r'.storageFailed || r'.replacement.Some?)
    && (r'.pending.Some? && r'.pending != r.pending ==> NewPending(r, r'))
    && (Matches(r, completion) ==> r'.pending.None? || r'.pending.value.ticket > r.nextTicket)
  }

  /** A store issued in this step has a new ticket and writes the desired record or the replacement. */
  ghost predicate NewPending(r: Rt, r': Rt) {
    && r'.pending.Some?
    && r'.pending.value.ticket > r.nextTicket
    && (r'.pending.value.record.RetainedRecord? ==> r'.desired == Some(r'.pending.value.record.state))
  }

  lemma CompleteProgress(r: Rt, completion: Completion, now: Millis)
    requires Core(r)
    ensures var s := Complete(r, completion, now).0;
      && (!Matches(r, Some(completion)) ==> s == r)
      && (Matches(r, Some(completion)) && completion.succeeded ==>
            match r.pending.value.record
            case RetainedRecord(state) => s.durable == Some(state) && s.configuration == r.configuration
            case ConfigurationRecord(config) => s.durable == r.durable && s.configuration == Some(config))
      && (Matches(r, Some(completion)) && !completion.succeeded ==>
            s.durable == r.durable && s.configuration == r.configuration && s.storageFailed)
      && (r.storageFailed ==> s == r)
      && (s.pending.Some? && s.pending != r.pending ==>
            s.pending.value.ticket > r.nextTicket && s.pending.value.record.ConfigurationRecord?)
      && (Matches(r, Some(completion)) ==> s.pending.None? || s.pending.value.ticket > r.nextTicket)
  {
    hide PH.Inv;
  }

  lemma SettleProgress(r: Rt, observed: Observed, completion: Option<Completion>)
    requires Inv(r)
    ensures var s := Settle(r, observed, completion).0;
      && (Matches(r, completion) && completion.value.succeeded ==>
            match r.pending.value.record
            case RetainedRecord(state) => s.durable == Some(state) && s.configuration == r.configuration
            case ConfigurationRecord(config) => s.durable == r.durable && s.configuration == Some(config))
      && (!(Matches(r, completion) && completion.value.succeeded) ==>
            s.durable == r.durable && s.configuration == r.configuration)
      && (r.pending.Some? && !Matches(r, completion) ==> s.pending == r.pending)
      && (r.storageFailed || (Matches(r, completion) && !completion.value.succeeded) ==> s.storageFailed)
      && (s.pending.Some? && s.pending != r.pending ==>
            s.pending.value.ticket > r.nextTicket && s.pending.value.record.ConfigurationRecord?)
      && (Matches(r, completion) ==> s.pending.None? || s.pending.value.ticket > r.nextTicket)
  {
    hide LatchMaintenance, PH.Inv, Core, Complete, ObserveUtc, TakeClockUpdate;
    var pressed := Press(r, observed.maintenancePressed).0;
    LatchedFields(r);
    PressCore(r, observed.maintenancePressed);
    var now := observed.now;
    if completion.Some? {
      CompleteProgress(pressed, completion.value, now);
    }
    var completed := if completion.Some? then Complete(pressed, completion.value, now).0 else pressed;
    var seen := ObserveUtc(completed, now).0;
    ClockStepKeeps(completed, seen) by { ObserveUtcIsClockStep(completed, now); }
    var after := TakeClockUpdate(seen, observed.clockUpdate, now);
    ClockStepKeeps(seen, after) by { TakeClockUpdateIsClockStep(seen, observed.clockUpdate, now); }
  }

  lemma AdmitProgress(r: Rt, observed: Observed, request: Option<Request>)
    requires request.Some? ==> !request.value.command.Toggle?
    ensures var a := Admit(r, observed, request).rt;
      && a.durable == r.durable && a.configuration == r.configuration && a.nextTicket == r.nextTicket
      && a.pending == r.pending
      && (r.storageFailed ==> a.storageFailed || a.replacement.Some?)
  {
    hide Admit, LatchMaintenance;
    AdmitOutcomes(r, observed, request);
    LatchedFields(r);
  }

  lemma CommitProgress(r: Rt, pressed: bool, defers: bool)
    ensures var c := Commit(r, pressed, defers).0;
      && c.durable == r.durable && c.configuration == r.configuration && c.replacement == r.replacement
      && (r.storageFailed ==> c.storageFailed)
      && (r.pending.Some? ==> c.pending == r.pending)
      && (c.pending.Some? && c.pending != r.pending ==>
            c.pending.value.ticket > r.nextTicket
            && (c.pending.value.record.RetainedRecord? ==> c.desired == Some(c.pending.value.record.state)))
  {
    hide Commit, EnsureStore, LatchMaintenance;
    CommitFrame(r, pressed, defers);
    EnsureStoreOutcomes(r);
    LatchedFields(r.(storageFailed := true));
  }

  lemma StepProgress(r: Rt, observed: Observed, request: Option<Request>, completion: Option<Completion>)
    requires Inv(r) && MakePlan(r, observed, request, completion).committed.Valid()
    ensures Progresses(r, completion, Step(r, observed, request, completion).rt)
  {
    hide MakePlan, Settle, Admit, Commit, Inv, Core, Resolve;
    var plan := MakePlan(r, observed, request, completion);
    EarlyStages(r, observed, request, completion);
    LateStagesKeep(r, observed, request, completion);
    PlanStages(r, observed, request, completion);
    StepParts(r, observed, request, completion);
    SettleProgress(r, observed, completion);
    SettleTickets(r, observed, completion);
    AdmitProgress(plan.settled, observed, plan.request);
    CommitProgress(plan.persisted, observed.maintenancePressed, plan.defers);
  }

  lemma SettleTickets(r: Rt, observed: Observed, completion: Option<Completion>)
    requires Inv(r)
    ensures r.nextTicket <= Settle(r, observed, completion).0.nextTicket
  {
    SettleCore(r, observed, completion);
    hide Settle, Core;
  }
}
