/** The runtime as the firmware runs it: one object whose records change in order. */
module RuntimeMachine {
  import opened Base
  import opened Interlock
  import opened Retained
  import opened Runtime
  import opened SupervisorMachine
  import opened Utc
  import P = Policy
  import S = Schedule
  import SI = ScheduleInterval

  lemma LatchedRecord(r: Rt)
    ensures LatchMaintenance(r) == r.(maintenance := true, desired := LatchMaintenance(r).desired)
  {
  }

  lemma PlanInputs(r: Rt, observed: Observed, request: Option<Request>, completion: Option<Completion>)
    ensures var plan := MakePlan(r, observed, request, completion);
      plan.inputs == ControlInputs(plan.committed, observed, plan.decision, plan.explicitOff, plan.switch, plan.defers)
  {
    hide Runtime.Settle, Admit, Runtime.ObserveUtc, Decide, Calendar, Persist, Commit, Defers, ControlInputs, Resolve;
  }

  class Owner {
    var configuration: Option<Device>
    var supervisor: Supervisor?
    var desired: Option<RetainedState>
    var durable: Option<RetainedState>
    var replacement: Option<Device>
    var pending: Option<StoreRequest>
    var nextTicket: u64
    var activeRequest: Option<ActiveRequest>
    var maintenance: bool
    var storageFailed: bool
    var clock: Option<Clock>
    var clockGeneration: u64
    var clockExhausted: bool

    /** The objects behind this runtime: itself, its supervisor and that supervisor's interlock. */
    ghost function Repr(): set<object>
      reads this
    {
      if supervisor == null then {this} else {this, supervisor, supervisor.interlock}
    }

    ghost function Value(): Rt
      reads this, Repr()
    {
      Rt(configuration, if supervisor == null then None else Some(supervisor.Value()), desired, durable, replacement,
         pending, nextTicket, activeRequest, maintenance, storageFailed, clock, clockGeneration, clockExhausted)
    }

    /** Starts off, in step with flash, with `Open`'s checks already made. */
    constructor (configuration: Option<Device>, retained: Option<RetainedState>, now: Millis)
      requires NewRuntime(configuration, retained, now).Ok?
      ensures NewRuntime(configuration, retained, now) == Ok(Value())
      ensures fresh(Repr())
    {
      this.configuration := configuration;
      desired, durable := retained, retained;
      replacement, pending, activeRequest := None, None, None;
      nextTicket, clockGeneration := 0, 0;
      maintenance := retained.None? || retained.value.maintenance;
      storageFailed, clockExhausted, clock := false, false, None;
      if configuration.Some? {
        supervisor := new Supervisor(configuration.value.settings, now);
      } else {
        supervisor := null;
      }
    }

    /** A runtime only from boot records that agree and hold no eligible window. */
    static method Open(configuration: Option<Device>, retained: Option<RetainedState>, now: Millis)
      returns (r: Result<Owner, Error>)
      ensures NewRuntime(configuration, retained, now)
           == if r.Ok? then Ok(r.value.Value()) else Err(r.error)
      ensures r.Ok? ==> fresh(r.value.Repr())
    {
      if configuration.None? != retained.None? {
        return Err(NeedsRecovery);
      }
      if configuration.Some? {
        var config, state := configuration.value, retained.value;
        if state.configRevision != config.revision || CheckState(state).Err?
           || (state.window.Some? && state.window.value.disposition != Suppressed)
        {
          return Err(NeedsRecovery);
        }
      }
      var owner := new Owner(configuration, retained, now);
      return Ok(owner);
    }

    method Suppress()
      modifies this`desired
      ensures Value() == Runtime.Suppress(old(Value()))
    {
      if desired.Some? && desired.value.window.Some? {
        desired := Some(desired.value.(window := Some(desired.value.window.value.(disposition := Suppressed))));
      }
    }

    method EnterMaintenance()
      modifies this`desired, this`maintenance
      ensures Value() == LatchMaintenance(old(Value()))
    {
      maintenance := true;
      if desired.Some? {
        desired := Some(desired.value.(maintenance := true));
      }
      Suppress();
    }

    method FinishRequest(result: Result<Ack, Error>) returns (reply: Option<Reply>)
      modifies this`activeRequest
      ensures (Value(), reply) == Finish(old(Value()), result)
    {
      reply := if activeRequest.Some? then Some(Reply(activeRequest.value.id, result)) else None;
      activeRequest := None;
    }

    method Enqueue(record: Record)
      modifies this`storageFailed, this`desired, this`maintenance, this`nextTicket, this`pending
      ensures Value() == Runtime.Enqueue(old(Value()), record)
    {
      if nextTicket == U64_MAX {
        storageFailed := true;
        EnterMaintenance();
        return;
      }
      nextTicket := nextTicket + 1;
      pending := Some(StoreRequest(nextTicket, record));
    }

    method EnsureStore()
      modifies this`storageFailed, this`desired, this`maintenance, this`nextTicket, this`pending
      ensures Value() == Runtime.EnsureStore(old(Value()))
    {
      if storageFailed || pending.Some? {
        return;
      }
      if desired != durable {
        if desired.Some? {
          Enqueue(RetainedRecord(desired.value));
        }
      } else if replacement.Some? {
        Enqueue(ConfigurationRecord(replacement.value));
      }
    }

    /** A failed store drops the replacement and keeps the published revision authoritative. */
    method FailStorage() returns (reply: Option<Reply>)
      modifies this
      ensures var r := old(Value());
        (Value(), reply) == Finish(LatchMaintenance(r.(storageFailed := true, replacement := None,
          desired := if r.desired.Some? && r.configuration.Some?
                     then Some(r.desired.value.(configRevision := r.configuration.value.revision))
                     else r.desired)), Err(Error.Storage))
      ensures supervisor == old(supervisor)
    {
      hide LatchMaintenance, Finish;
      storageFailed := true;
      replacement := None;
      if desired.Some? && configuration.Some? {
        desired := Some(desired.value.(configRevision := configuration.value.revision));
      }
      EnterMaintenance();
      reply := FinishRequest(Err(Error.Storage));
    }

    method Complete(completion: Completion, now: Millis) returns (reply: Option<Reply>)
      modifies Repr()
      ensures (Value(), reply) == Runtime.Complete(old(Value()), completion, now)
      ensures fresh(Repr() - old(Repr()))
    {
      if pending.None? || pending.value.ticket != completion.ticket {
        return None;
      }
      var record := pending.value.record;
      pending := None;
      if !completion.succeeded {
        hide LatchMaintenance, Finish;
        reply := FailStorage();
        return;
      }
      hide LatchMaintenance, P.Reconfigured, P.Initial, Finish;
      match record {
        case RetainedRecord(state) =>
          durable := Some(state);
          if replacement.Some? && state.configRevision == replacement.value.revision {
            Enqueue(ConfigurationRecord(replacement.value));
          }
        case ConfigurationRecord(config) =>
          Configure(config, now);
      }
      return None;
    }

    /** A stored replacement becomes the configuration. */
    method Configure(config: Device, now: Millis)
      modifies Repr()
      ensures fresh(Repr() - old(Repr()))
      ensures Value() == old(Value()).(
        configuration := Some(config),
        supervisor := if old(Value()).supervisor.Some?
                      then Some(P.Reconfigured(old(Value()).supervisor.value, config.settings))
                      else Some(P.Initial(config.settings, now)),
        replacement := None)
    {
      hide P.Reconfigured, P.Initial;
      configuration := Some(config);
      if supervisor != null {
        supervisor.Reconfigure(config.settings);
      } else {
        supervisor := new Supervisor(config.settings, now);
      }
      replacement := None;
    }

    predicate SuppressionAlone()
      reads this
    {
      if desired.None? || durable.None? || durable.value.window.None?
         || durable.value.window.value.disposition != Eligible
      then false
      else
        desired.value
        == durable.value.(window := Some(durable.value.window.value.(disposition := Suppressed)))
    }

    // ---------------------------------------------------------------- clock

    method AdvanceClockGeneration() returns (generation: Option<u64>)
      modifies this`clockGeneration, this`clockExhausted
      ensures (Value(), generation) == AdvanceGeneration(old(Value()))
    {
      if clockExhausted {
        return None;
      }
      if clockGeneration == U64_MAX {
        clockExhausted := true;
        return None;
      }
      clockGeneration := clockGeneration + 1;
      return Some(clockGeneration);
    }

    method DropClock()
      modifies this`clockGeneration, this`clockExhausted, this`clock, this`desired
      ensures Value() == InvalidateClock(old(Value()))
    {
      var _ := AdvanceClockGeneration();
      clock := None;
      Suppress();
    }

    predicate HasNetworkClock()
      reads this
    {
      clock.Some? && clock.value.authority.source.Network?
    }

    method SetUtc(sample: Observation, now: Millis, source: Source) returns (result: Result<(), Error>)
      modifies this`clockGeneration, this`clockExhausted, this`clock, this`desired
      ensures (Value(), result) == SetClock(old(Value()), sample, now, source)
    {
      if source.Network? && source.epoch == 0 {
        return Err(InvalidTime);
      }
      var bounds := BoundsAt(sample, now);
      if bounds.None? || configuration.None? {
        return Err(InvalidTime);
      }
      var zone := configuration.value.timezone;
      if zone.civilAt(bounds.value.earliestMs / 1000).None? || zone.civilAt(bounds.value.latestMs / 1000).None? {
        return Err(InvalidTime);
      }
      var generation := AdvanceClockGeneration();
      if generation.None? {
        DropClock();
        return Err(Exhausted);
      }
      clock := Some(Clock(Anchor(Some(sample), now), Authority(sample, generation.value, source)));
      return Ok(());
    }

    method ObserveUtc(now: Millis) returns (utc: Option<Bounds>)
      modifies this`clockGeneration, this`clockExhausted, this`clock, this`desired
      ensures (Value(), utc) == Runtime.ObserveUtc(old(Value()), now)
    {
      if clock.None? {
        return None;
      }
      utc := AnchorBounds(clock.value.anchor, now);
      clock := Some(clock.value.(anchor := AnchorAfter(clock.value.anchor, now)));
      if utc.Some? {
        if desired.Some? && desired.value.window.Some?
           && utc.value.latestMs / 1000 >= desired.value.window.value.endsUtc
        {
          Suppress();
        }
      } else {
        DropClock();
      }
    }

    method UpdateClock(update: ClockUpdate, now: Millis)
      modifies this`clockGeneration, this`clockExhausted, this`clock, this`desired
      ensures Value() == TakeClockUpdate(old(Value()), update, now)
    {
      if update.revokeNetwork && HasNetworkClock() {
        DropClock();
      }
      if update.sample.Some? {
        var sample := update.sample.value;
        var result := SetUtc(sample.observation, now, Network(sample.epoch));
        if result.Err? && HasNetworkClock() {
          DropClock();
        }
      }
    }

    // -------------------------------------------------------------- commands

    /** Revocations come first; the rest wait for any transaction in flight. */
    method Accept(request: Request, observed: Observed, explicitOff: bool, before: P.Switch)
      returns (result: Option<Result<Ack, Error>>, switch: P.Switch)
      requires !request.command.Toggle?
      modifies this
      ensures Admission(Value(), result, switch) == Runtime.Accept(old(Value()), request, observed, explicitOff, before)
      ensures supervisor == old(supervisor)
    {
      switch := before;
      if request.command.ClearUtc? {
        DropClock();
        return Some(Ok(Applied)), switch;
      }
      if request.command.TurnOff? {
        return Some(Ok(Applied)), P.SwitchOff;
      }
      if activeRequest.Some? || pending.Some? {
        return Some(Err(Busy)), switch;
      }
      if storageFailed && !request.command.SaveConfiguration? && !request.command.BeginMaintenance? {
        return Some(Err(NeedsRecovery)), switch;
      }
      result, switch := AcceptIdle(request, observed, explicitOff, before);
    }

    method AcceptIdle(request: Request, observed: Observed, explicitOff: bool, before: P.Switch)
      returns (result: Option<Result<Ack, Error>>, switch: P.Switch)
      requires !request.command.Toggle? && !request.command.ClearUtc? && !request.command.TurnOff?
      requires activeRequest.None? && pending.None?
      requires storageFailed ==> request.command.SaveConfiguration? || request.command.BeginMaintenance?
      modifies this
      ensures Admission(Value(), result, switch) == Runtime.Accept(old(Value()), request, observed, explicitOff, before)
      ensures supervisor == old(supervisor)
    {
      hide LatchMaintenance, SetClock, InvalidateClock, FromSeconds;
      switch := before;
      result := None;
      match request.command {
        case SaveConfiguration(config) =>
          result := BeginSave(request.id, config);
        case TurnOn =>
          if explicitOff {
            result := Some(Err(Superseded));
          } else if configuration.None? {
            result := Some(Err(Unconfigured));
          } else {
            result, switch := Some(Ok(Applied)), P.SwitchOn;
          }
        case BeginMaintenance =>
          EnterMaintenance();
          LatchedRecord(old(Value()));
          if configuration.None? {
            result := Some(Ok(Applied));
          } else if storageFailed {
            result := Some(Err(NeedsRecovery));
          } else {
            activeRequest := Some(ActiveRequest(request.id, ForEntering));
          }
        case EndMaintenance =>
          if observed.maintenancePressed {
            result := Some(Err(Superseded));
          } else if desired.None? {
            result := Some(Err(Unconfigured));
          } else {
            desired := Some(desired.value.(maintenance := false));
            activeRequest := Some(ActiveRequest(request.id, ForLeaving));
          }
        case SetUtc(utc) =>
          var sample := FromSeconds(utc, observed.now);
          if sample.None? {
            result := Some(Err(InvalidTime));
          } else {
            var outcome := SetUtc(sample.value, observed.now, Operator);
            result := Some(TimeResult(outcome));
          }
        case SetUtcObserved(sample) =>
          var outcome := SetUtc(sample, observed.now, Operator);
          result := Some(TimeResult(outcome));
      }
    }

    /** Stage a replacement exactly one revision ahead, held in maintenance. */
    method BeginSave(id: u32, config: Device) returns (result: Option<Result<Ack, Error>>)
      modifies this
      ensures var was := old(Value());
        if was.ConfigRevision() + 1 != config.revision then result == Some(Err(Error.Revision)) && Value() == was
        else
          && result.None?
          && var entered := LatchMaintenance(was);
             var state := if entered.desired.Some?
                          then entered.desired.value.(configRevision := config.revision, maintenance := true)
                          else RetainedState(config.revision, true, None);
             Value() == entered.(desired := Some(state), replacement := Some(config), storageFailed := false,
                                 active := Some(ActiveRequest(id, ForConfiguration)))
      ensures supervisor == old(supervisor)
    {
      var revision := if configuration.Some? then configuration.value.revision else 0;
      if revision + 1 != config.revision {
        return Some(Err(Error.Revision));
      }
      EnterMaintenance();
      var state := if desired.Some? then desired.value else RetainedState(config.revision, true, None);
      desired := Some(state.(configRevision := config.revision, maintenance := true));
      replacement := Some(config);
      storageFailed := false;
      activeRequest := Some(ActiveRequest(id, ForConfiguration));
      return None;
    }

    // ------------------------------------------------------------------ step

    function IsOn(): (on: bool)
      reads this, Repr()
      ensures on <==> Value().Relay() == On
    {
      supervisor != null && supervisor.Status().relay == On
    }

    function HeldDemand(): (d: Demand)
      reads this, Repr()
      ensures d == Value().Demand()
    {
      if supervisor == null then NoDemand else supervisor.Status().demand
    }

    /** The button latches maintenance and supersedes an exit in flight. */
    method PressButton(pressed: bool) returns (reply: Option<Reply>)
      modifies this`desired, this`maintenance, this`activeRequest
      ensures (Value(), reply) == Press(old(Value()), pressed)
    {
      reply := None;
      if pressed {
        EnterMaintenance();
        if activeRequest.Some? && activeRequest.value.purpose == ForLeaving {
          reply := FinishRequest(Err(Superseded));
        }
      }
    }

    method Settle(observed: Observed, completion: Option<Completion>) returns (reply: Option<Reply>)
      modifies Repr()
      ensures (Value(), reply) == Runtime.Settle(old(Value()), observed, completion)
      ensures fresh(Repr() - old(Repr()))
    {
      hide Press, Runtime.Complete, Runtime.ObserveUtc, TakeClockUpdate;
      reply := PressButton(observed.maintenancePressed);
      if completion.Some? {
        var completed := Complete(completion.value, observed.now);
        if completed.Some? {
          reply := completed;
        }
      }
      var _ := ObserveUtc(observed.now);
      UpdateClock(observed.clockUpdate, observed.now);
    }

    method DecideSchedule(now: Millis, utc: Option<Bounds>) returns (decision: Option<S.Decision>)
      ensures decision == Decide(Value(), now, utc)
    {
      if configuration.None? {
        return None;
      }
      var config := configuration.value;
      var civil: Option<SI.Interval> := None;
      if utc.Some? && clock.Some? && clock.value.anchor.observation.Some? && ValidBounds(utc.value) {
        var earliest := config.timezone.civilAt(utc.value.earliestMs / 1000);
        var latest := config.timezone.civilAt(utc.value.latestMs / 1000);
        if earliest.Some? && latest.Some? {
          var interval := SI.NewInterval(utc.value, clock.value.anchor.observation.value.rate, earliest.value, latest.value);
          civil := if interval.Ok? then Some(interval.value) else None;
        }
      }
      var saved := if desired.Some? then desired.value.window else None;
      assert civil == CivilInterval(Value(), utc);
      var verdict := SI.EvaluateInterval(now, civil, config.schedule, config.timezone.resolve, saved);
      return if verdict.Ok? then Some(verdict.value) else None;
    }

    /** Calendar loss suppresses the saved window and turns a suppressed automatic demand off. */
    method LoseCalendar(decision: Option<S.Decision>, before: P.Switch) returns (switch: P.Switch)
      modifies this`desired
      ensures (Value(), switch) == Calendar(old(Value()), decision, before)
    {
      switch := before;
      if decision.None? || decision.value.Inactive? || decision.value.Blocked? {
        Suppress();
      }
      if switch == P.NoSwitch
         && desired.Some? && desired.value.window.Some? && desired.value.window.value.disposition == Suppressed
         && HeldDemand() == Automatic
      {
        switch := P.SwitchOff;
      }
    }

    /** Calendar loss, and the record of a newly active occurrence. */
    method RecordCalendar(decision: Option<S.Decision>, explicitOff: bool, before: P.Switch) returns (switch: P.Switch)
      modifies this`desired
      ensures switch == Calendar(old(Value()), decision, before).1
      ensures Value() == Persist(Calendar(old(Value()), decision, before).0, decision, explicitOff, switch)
    {
      switch := LoseCalendar(decision, before);
      hide Calendar;
      var wasOn := IsOn();
      var manualPending := switch == P.SwitchOn || HeldDemand() == Override;
      if replacement.None? && !storageFailed && decision.Some? && decision.value.PersistBeforeRun? {
        if explicitOff || (!maintenance && !wasOn && !manualPending && pending.None?) {
          if desired.Some? {
            var o := decision.value.occurrence;
            desired := Some(desired.value.(window :=
              Some(RetainedWindow(o.id, o.endsUtc, if explicitOff then Suppressed else Eligible))));
          }
        }
      }
      if explicitOff {
        Suppress();
      }
    }

    /** Start the next store and finish a request that failed or became durable. */
    method CommitRecords(pressed: bool, defers: bool) returns (reply: Option<Reply>, ready: bool)
      modifies this
      ensures (Value(), reply) == Commit(old(Value()), pressed, defers)
      ensures ready == Ready(Value(), defers)
      ensures supervisor == old(supervisor)
    {
      reply := None;
      if !defers {
        EnsureStore();
      }
      assert Value() == if defers then old(Value()) else Runtime.EnsureStore(old(Value()));
      hide Runtime.EnsureStore;
      if storageFailed && activeRequest.Some? {
        reply := FinishRequest(Err(Exhausted));
      }
      ready := !storageFailed && replacement.None? && pending.None? && (desired == durable || defers);
      if ready && !pressed {
        maintenance := desired.None? || desired.value.maintenance;
      }
      if ready && activeRequest.Some? {
        reply := FinishRequest(Ok(Durable));
      }
    }

    method DriveSupervisor(now: Millis, inputs: P.Inputs)
      requires Value().Valid()
      modifies Repr() - {this}
      ensures Value() == Drive(old(Value()), now, inputs)
      ensures Repr() == old(Repr())
    {
      hide P.Updated;
      if supervisor != null {
        supervisor.Update(now, inputs);
      }
    }

    /** Button, completion, clock and command, up to the schedule's decision. */
    method Consider(observed: Observed, request: Option<Request>, completion: Option<Completion>)
      returns (q: Option<Request>, result: Option<Result<Ack, Error>>, reply: Option<Reply>,
               decision: Option<S.Decision>, explicitOff: bool, switch: P.Switch)
      modifies Repr()
      ensures var plan := MakePlan(old(Value()), observed, request, completion);
        && Value() == plan.seen && decision == plan.decision && explicitOff == plan.explicitOff
        && q == plan.request && result == plan.admission.result && switch == plan.admission.switch
        && reply == plan.superseded
      ensures fresh(Repr() - old(Repr()))
    {
      hide Runtime.Settle, Runtime.Accept, Runtime.ObserveUtc, Decide, Calendar, Persist, Commit, Defers, ControlInputs;
      ghost var plan := MakePlan(Value(), observed, request, completion);
      q := request;
      if q.Some? && q.value.command.Toggle? {
        q := Some(q.value.(command := if IsOn() then TurnOff else TurnOn));
      }
      assert q == plan.request;
      reply := Settle(observed, completion);
      assert Value() == plan.settled && reply == plan.superseded;
      explicitOff := observed.forceOff || (q.Some? && q.value.command.TurnOff?);
      switch := if explicitOff then P.SwitchOff else P.NoSwitch;
      result := None;
      if q.Some? {
        result, switch := Accept(q.value, observed, explicitOff, switch);
      }
      assert Admission(Value(), result, switch) == plan.admission;
      var utc := ObserveUtc(observed.now);
      decision := DecideSchedule(observed.now, utc);
    }

    /** Every phase before the supervisor, in order. */
    method Prepare(observed: Observed, request: Option<Request>, completion: Option<Completion>)
      returns (q: Option<Request>, result: Option<Result<Ack, Error>>, reply: Option<Reply>, inputs: P.Inputs)
      modifies Repr()
      ensures var plan := MakePlan(old(Value()), observed, request, completion);
        && Value() == plan.committed
        && q == plan.request && result == plan.admission.result && inputs == plan.inputs
        && reply == Either(plan.finished, plan.superseded)
      ensures fresh(Repr() - old(Repr()))
    {
      hide Runtime.Settle, Admit, Runtime.ObserveUtc, Decide, Calendar, Persist, Commit;
      ghost var plan := MakePlan(Value(), observed, request, completion);
      var decision, explicitOff, switch;
      q, result, reply, decision, explicitOff, switch := Consider(observed, request, completion);
      switch := RecordCalendar(decision, explicitOff, switch);
      assert Value() == plan.persisted && switch == plan.switch;
      var defers := DefersSuppression(explicitOff, switch);
      var finished, ready := CommitRecords(observed.maintenancePressed, defers);
      assert Value() == plan.committed && finished == plan.finished;
      hide MakePlan;
      if finished.Some? {
        reply := finished;
      }
      inputs := GatherInputs(observed, decision, explicitOff, switch, ready);
      PlanInputs(old(Value()), observed, request, completion);
    }

    method DefersSuppression(explicitOff: bool, switch: P.Switch) returns (defers: bool)
      ensures defers == Defers(Value(), explicitOff, switch)
    {
      var manualPending := switch == P.SwitchOn || HeldDemand() == Override;
      defers := && manualPending && !explicitOff && switch != P.SwitchOff
                && activeRequest.None? && replacement.None? && pending.None? && SuppressionAlone();
    }

    /** What the supervisor is told. */
    method GatherInputs(observed: Observed, decision: Option<S.Decision>, explicitOff: bool, switch: P.Switch, ready: bool)
      returns (inputs: P.Inputs)
      ensures forall defers :: ready == Ready(Value(), defers) ==>
        inputs == ControlInputs(Value(), observed, decision, explicitOff, switch, defers)
    {
      var window := if ready && !maintenance && !explicitOff && decision.Some? && decision.value.Active?
                    then Some(decision.value.window) else None;
      var reading := if configuration.Some? && configuration.value.revision == observed.sensorRevision
                        && configuration.value.calibrated
                     then observed.reading else Invalid(Uncalibrated);
      inputs := P.Inputs(reading, window,
                         if maintenance then P.SwitchOff else switch,
                         if maintenance then Interlock.EnterMaintenance else ExitMaintenance,
                         if ready then observed.hardware else P.ForcedOff);
    }

    /** One control step: every phase in order, then the supervisor, then the reply. */
    method Step(observed: Observed, request: Option<Request>, completion: Option<Completion>)
      returns (commandReply: Option<Reply>, completedReply: Option<Reply>)
      requires MakePlan(Value(), observed, request, completion).committed.Valid()
      modifies Repr()
      ensures Outcome(Value(), commandReply, completedReply) == Runtime.Step(old(Value()), observed, request, completion)
      ensures fresh(Repr() - old(Repr()))
    {
      hide MakePlan, Drive;
      var q, result, reply, inputs := Prepare(observed, request, completion);
      completedReply := reply;
      DriveSupervisor(observed.now, inputs);
      commandReply := None;
      if q.Some? && result.Some? {
        var rejected := q.value.command.TurnOn? && result.value == Ok(Applied) && HeldDemand() != Override;
        commandReply := Some(Reply(q.value.id, if rejected then Err(Rejected) else result.value));
      }
    }
  }
}
