/** The invariant of the runtime's records, kept by every phase of every step. */
module RuntimeInvariant {
  import opened Base
  import opened Retained
  import opened Runtime
  import Utc
  import P = Policy
  import PH = PolicyHistory
  import S = Schedule
  import SI = ScheduleInterval

  /** `b` holds a watermark at or above the one in `a`. */
  predicate WindowBelow(a: Option<RetainedWindow>, b: Option<RetainedWindow>) {
    a.Some? ==> b.Some? && a.value.id <= b.value.id
  }

  predicate StateBelow(a: Option<RetainedState>, b: Option<RetainedState>) {
    a.Some? ==> b.Some? && WindowBelow(a.value.window, b.value.window)
  }

  predicate Sound(s: Option<RetainedState>) {
    s.Some? ==> CheckState(s.value).Ok?
  }

  ghost predicate SupervisorInv(r: Rt) {
    && (r.configuration.Some? <==> r.supervisor.Some?)
    && (r.supervisor.Some? ==>
          && PH.Inv(r.supervisor.value)
          && r.supervisor.value.settings == r.configuration.value.settings)
  }

  /** Desired, durable and configured records. */
  ghost predicate RecordInv(r: Rt) {
    && Sound(r.desired) && Sound(r.durable)
    && StateBelow(r.durable, r.desired)
    && (r.configuration.Some? ==> r.durable.Some?)
    && (r.desired.None? || r.desired.value.maintenance ==> r.maintenance)
    && (r.desired.Some? && r.desired.value.maintenance ==> r.desired.value == r.desired.value.Suppress())
    && (r.storageFailed ==> r.maintenance && (r.desired.Some? ==> r.desired.value.maintenance))
    && (r.durable.Some? ==> RevisionOf(r.durable.value, r.ConfigRevision()))
    && (r.durable.Some? && r.durable.value.configRevision != r.ConfigRevision() ==>
          && (r.replacement.Some? || r.storageFailed)
          && r.durable.value == Staged(r.desired.value, r.durable.value.configRevision))
  }

  /** What a save of revision `revision` writes for the desired record `s`. */
  function Staged(s: RetainedState, revision: u32): RetainedState {
    s.(configRevision := revision, maintenance := true).Suppress()
  }

  /** A record belongs to the committed revision, or to the next one in maintenance. */
  predicate RevisionOf(s: RetainedState, revision: u32) {
    || (s.configRevision == revision && revision != 0)
    || (s.configRevision == revision + 1 && s.maintenance)
  }

  /** A staged replacement is one revision ahead and holds maintenance. */
  ghost predicate ReplacementInv(r: Rt) {
    && (r.replacement.Some? ==>
          && r.replacement.value.revision == r.ConfigRevision() + 1
          && r.desired.Some?
          && r.desired.value == Staged(r.desired.value, r.replacement.value.revision)
          && (r.storageFailed || (r.active.Some? && r.active.value.purpose == ForConfiguration)))
    && (r.replacement.None? && r.desired.Some? ==>
          if r.configuration.Some? then r.desired.value.configRevision == r.configuration.value.revision
          else r.desired.value.configRevision == 1 && r.desired.value.maintenance && r.storageFailed)
  }

  /** The one store in flight. */
  ghost predicate PendingInv(r: Rt) {
    r.pending.Some? ==>
      && !r.storageFailed
      && r.pending.value.ticket == r.nextTicket
      && r.desired.Some?
      && match r.pending.value.record
         case RetainedRecord(state) =>
           && CheckState(state).Ok?
           && state.configRevision == r.desired.value.configRevision
           && WindowBelow(state.window, r.desired.value.window)
           && (r.durable.Some? ==> WindowBelow(r.durable.value.window, state.window))
           && (r.durable.Some? ==> r.durable.value.configRevision == r.ConfigRevision())
           && (r.replacement.Some? ==> state == r.desired.value)
         case ConfigurationRecord(config) =>
           && r.replacement == Some(config)
           && r.durable.Some?
           && r.durable.value.configRevision == config.revision
           && r.durable.value.maintenance
  }

  predicate Leaving(r: Rt) {
    r.active.Some? && r.active.value.purpose == ForLeaving
  }

  /** An exit wants, and writes, a record clear of maintenance; any other request wants maintenance. */
  ghost predicate RequestInv(r: Rt) {
    r.active.Some? && !r.storageFailed ==>
      && r.desired.Some? && (r.desired.value.maintenance <==> !Leaving(r))
      && (Leaving(r) && r.pending.Some? ==>
            r.pending.value.record.RetainedRecord? && !r.pending.value.record.state.maintenance)
  }

  /** Holds at every phase of a step. */
  ghost predicate Core(r: Rt) {
    SupervisorInv(r) && RecordInv(r) && ReplacementInv(r) && PendingInv(r) && RequestInv(r)
  }

  /** Holds between steps: requests wait on a store, and an idle runtime is in step with flash. */
  ghost predicate Inv(r: Rt) {
    && Core(r)
    && (r.active.Some? ==> r.pending.Some?)
    && (!r.storageFailed && r.pending.None? ==>
          r.replacement.None? && (r.desired == r.durable || OnlySuppressionPending(r)))
  }

  /** A repaired boot starts in the invariant. */
  lemma NewRuntimeInv(configuration: Option<Device>, retained: Option<RetainedState>, now: Millis)
    requires NewRuntime(configuration, retained, now).Ok?
    ensures Inv(NewRuntime(configuration, retained, now).value)
  {
  }

  /** What no phase ever undoes: watermarks and tickets only grow. */
  predicate Advances(a: Rt, b: Rt) {
    && StateBelow(a.desired, b.desired)
    && StateBelow(a.durable, b.durable)
    && a.nextTicket <= b.nextTicket
  }

  lemma SuppressCore(r: Rt)
    requires Core(r)
    ensures Core(Suppress(r)) && Advances(r, Suppress(r))
  {
  }

  lemma LatchMaintenanceCore(r: Rt)
    requires Core(r) && (Leaving(r) ==> r.storageFailed)
    ensures Core(LatchMaintenance(r)) && Advances(r, LatchMaintenance(r))
  {
    hide PH.Inv;
  }

  /** `b` is `a`, or `a` with its window suppressed, up to the clock. */
  ghost predicate ClockStep(a: Rt, b: Rt) {
    var c := b.(clock := a.clock, clockGeneration := a.clockGeneration, clockExhausted := a.clockExhausted);
    c == a || c == Suppress(a)
  }

  lemma ClockStepCore(a: Rt, b: Rt)
    requires Core(a) && ClockStep(a, b)
    ensures Core(b) && Advances(a, b)
  {
    hide PH.Inv;
    SuppressCore(a);
  }

  lemma ClockStepTransitive(a: Rt, b: Rt, c: Rt)
    requires ClockStep(a, b) && ClockStep(b, c)
    ensures ClockStep(a, c)
  {
  }

  lemma InvalidateClockIsClockStep(r: Rt)
    ensures ClockStep(r, InvalidateClock(r))
  {
  }

  lemma ObserveUtcIsClockStep(r: Rt, now: Millis)
    ensures ClockStep(r, ObserveUtc(r, now).0)
  {
    hide Utc.AnchorBounds, Utc.AnchorAfter;
  }

  lemma SetClockIsClockStep(r: Rt, sample: Utc.Observation, now: Millis, source: Source)
    ensures ClockStep(r, SetClock(r, sample, now, source).0)
  {
    hide Utc.BoundsAt, HasCivilTime;
  }

  lemma TakeClockUpdateIsClockStep(r: Rt, update: ClockUpdate, now: Millis)
    ensures ClockStep(r, TakeClockUpdate(r, update, now))
  {
    hide SetClock, InvalidateClock, ClockStep;
    assert ClockStep(r, r) by { ClockStepReflexive(r); }
    var revoked := if update.revokeNetwork && NetworkClock(r) then InvalidateClock(r) else r;
    InvalidateClockIsClockStep(r);
    if update.sample.Some? {
      var sample := update.sample.value;
      var next := SetClock(revoked, sample.observation, now, Network(sample.epoch)).0;
      SetClockIsClockStep(revoked, sample.observation, now, Network(sample.epoch));
      InvalidateClockIsClockStep(next);
      ClockStepTransitive(r, revoked, next);
      ClockStepTransitive(r, next, InvalidateClock(next));
    }
  }

  lemma ClockStepReflexive(r: Rt)
    ensures ClockStep(r, r)
  {
  }

  lemma FinishCore(r: Rt, result: Result<Ack, Error>)
    requires Core(r)
    requires r.replacement.Some? ==> r.storageFailed
    ensures Core(Finish(r, result).0) && Advances(r, Finish(r, result).0)
  {
    hide PH.Inv;
  }

  lemma PressCore(r: Rt, pressed: bool)
    requires Core(r)
    ensures Core(Press(r, pressed).0) && Advances(r, Press(r, pressed).0)
  {
    hide PH.Inv, LatchMaintenance;
    LatchedFields(r);
    AdvancesReflexive(r);
    if pressed {
      var idle := if Leaving(r) then r.(active := None) else r;
      assert Core(idle);
      LatchMaintenanceCore(idle);
      LatchedFields(idle);
      assert LatchMaintenance(r).(active := idle.active) == LatchMaintenance(idle) by {
        LatchIgnoresActive(r);
      }
    }
  }

  lemma LatchIgnoresActive(r: Rt)
    ensures LatchMaintenance(r.(active := None)) == LatchMaintenance(r).(active := None)
  {
  }

  lemma LatchedFields(r: Rt)
    ensures LatchMaintenance(r) == r.(maintenance := true, desired := LatchMaintenance(r).desired)
  {
  }

  lemma ReconfiguredSupervisor(r: Rt, config: Device, now: Millis)
    requires SupervisorInv(r)
    ensures r.supervisor.Some? ==> PH.Inv(P.Reconfigured(r.supervisor.value, config.settings))
    ensures PH.Inv(P.Initial(config.settings, now))
  {
    if r.supervisor.Some? {
      PH.ApplyKeepsInv(r.supervisor.value, PH.Reconfigure(config.settings));
    }
  }

  lemma EnqueueCore(r: Rt, record: Record)
    requires Core(r) && r.pending.None?
    requires r.nextTicket < U64_MAX ==> PendingInv(Enqueue(r, record)) && RequestInv(Enqueue(r, record))
    requires !r.storageFailed
    ensures Core(Enqueue(r, record)) && Advances(r, Enqueue(r, record))
  {
    hide PH.Inv, LatchMaintenance;
    if r.nextTicket == U64_MAX {
      ExhaustedCore(r);
    }
  }

  lemma ExhaustedCore(r: Rt)
    requires Core(r) && r.pending.None?
    ensures Core(LatchMaintenance(r.(storageFailed := true)))
    ensures Advances(r, LatchMaintenance(r.(storageFailed := true)))
  {
    hide PH.Inv;
  }

  lemma FailedCompletionCore(r: Rt, completion: Completion, now: Millis)
    requires Core(r) && r.pending.Some? && r.pending.value.ticket == completion.ticket && !completion.succeeded
    ensures Core(Complete(r, completion, now).0) && Advances(r, Complete(r, completion, now).0)
  {
    hide PH.Inv;
    var failed := r.(pending := None, storageFailed := true, replacement := None,
      desired := if r.desired.Some? && r.configuration.Some?
                 then Some(r.desired.value.(configRevision := r.configuration.value.revision))
                 else r.desired);
    var latched := LatchMaintenance(failed);
    assert Core(latched) && Advances(r, latched);
    FinishCore(latched, Err(Storage));
    hide LatchMaintenance;
  }

  lemma StoredCompletionCore(r: Rt, completion: Completion, now: Millis)
    requires Core(r) && r.pending.Some? && r.pending.value.ticket == completion.ticket && completion.succeeded
    requires r.pending.value.record.RetainedRecord?
    ensures Core(Complete(r, completion, now).0) && Advances(r, Complete(r, completion, now).0)
  {
    hide PH.Inv, LatchMaintenance;
    var state := r.pending.value.record.state;
    var stored := r.(pending := None, durable := Some(state));
    assert RevisionOf(state, r.ConfigRevision());
    assert Core(stored);
    if r.replacement.Some? {
      EnqueueCore(stored, ConfigurationRecord(r.replacement.value));
    }
  }

  lemma ConfiguredCompletionCore(r: Rt, completion: Completion, now: Millis)
    requires Core(r) && r.pending.Some? && r.pending.value.ticket == completion.ticket && completion.succeeded
    requires r.pending.value.record.ConfigurationRecord?
    ensures Core(Complete(r, completion, now).0) && Advances(r, Complete(r, completion, now).0)
  {
    ReconfiguredSupervisor(r, r.pending.value.record.config, now);
    hide PH.Inv, LatchMaintenance;
  }

  lemma CompleteCore(r: Rt, completion: Completion, now: Millis)
    requires Core(r)
    ensures Core(Complete(r, completion, now).0) && Advances(r, Complete(r, completion, now).0)
  {
    if r.pending.Some? && r.pending.value.ticket == completion.ticket {
      if !completion.succeeded {
        FailedCompletionCore(r, completion, now);
      } else if r.pending.value.record.RetainedRecord? {
        StoredCompletionCore(r, completion, now);
      } else {
        ConfiguredCompletionCore(r, completion, now);
      }
    }
    hide Complete;
  }

  lemma AdvancesTransitive(a: Rt, b: Rt, c: Rt)
    requires Advances(a, b) && Advances(b, c)
    ensures Advances(a, c)
  {
  }

  lemma SettleCore(r: Rt, observed: Observed, completion: Option<Completion>)
    requires Core(r)
    ensures Core(Settle(r, observed, completion).0) && Advances(r, Settle(r, observed, completion).0)
  {
    hide Core, Advances, Press, Complete, ObserveUtc, TakeClockUpdate, ClockStep;
    PressCore(r, observed.maintenancePressed);
    var pressed := Press(r, observed.maintenancePressed).0;
    if completion.Some? {
      CompleteCore(pressed, completion.value, observed.now);
      AdvancesTransitive(r, pressed, Complete(pressed, completion.value, observed.now).0);
    }
    var completed := if completion.Some? then Complete(pressed, completion.value, observed.now).0 else pressed;
    var seen := ObserveUtc(completed, observed.now).0;
    ObserveUtcIsClockStep(completed, observed.now);
    ClockStepCore(completed, seen);
    AdvancesTransitive(r, completed, seen);
    var after := TakeClockUpdate(seen, observed.clockUpdate, observed.now);
    TakeClockUpdateIsClockStep(seen, observed.clockUpdate, observed.now);
    ClockStepCore(seen, after);
    AdvancesTransitive(r, seen, after);
  }

  /** What taking on a save leaves. */
  function Saving(r: Rt, id: u32, config: Device): Rt {
    var entered := LatchMaintenance(r);
    var state := if entered.desired.Some?
                 then entered.desired.value.(configRevision := config.revision, maintenance := true)
                 else RetainedState(config.revision, true, None);
    entered.(desired := Some(state), replacement := Some(config), storageFailed := false,
             active := Some(ActiveRequest(id, ForConfiguration)))
  }

  function Entering(r: Rt, id: u32): Rt {
    LatchMaintenance(r).(active := Some(ActiveRequest(id, ForEntering)))
  }

  function Releasing(r: Rt, id: u32): Rt
    requires r.desired.Some?
  {
    r.(desired := Some(r.desired.value.(maintenance := false)), active := Some(ActiveRequest(id, ForLeaving)))
  }

  /** A request taken on without an answer, and what it leaves. */
  ghost predicate TakenOn(r: Rt, request: Request, pressed: bool, after: Rt) {
    && r.active.None? && r.pending.None?
    && match request.command
       case SaveConfiguration(config) =>
         r.ConfigRevision() + 1 == config.revision && after == Saving(r, request.id, config)
       case BeginMaintenance =>
         r.configuration.Some? && !r.storageFailed && after == Entering(r, request.id)
       case EndMaintenance =>
         !pressed && r.desired.Some? && !r.storageFailed && after == Releasing(r, request.id)
       case _ => false
  }

  /**
   A request answered at once without entering maintenance: only a clock command changes
   anything, and only the clock and the saved window's eligibility, both gone after a revocation.
   */
  ghost predicate Untaken(r: Rt, request: Request, a: Admission) {
    && ClockStep(r, a.rt)
    && (if request.command.ClearUtc? then
          && a.result == Some(Ok(Applied)) && a.rt.clock.None?
          && (a.rt.SavedWindow().Some? ==> a.rt.SavedWindow().value.disposition == Suppressed)
        else request.command.SetUtc? || request.command.SetUtcObserved? || a.rt == r)
  }

  lemma RevokedIsUntaken(r: Rt, request: Request, switch: P.Switch)
    requires request.command.ClearUtc?
    ensures Untaken(r, request, Now(InvalidateClock(r), Ok(Applied), switch))
  {
    InvalidateClockIsClockStep(r);
  }

  /** Every admission answers at once, leaving at most a clock step or an entry, or takes the request on. */
  lemma AcceptOutcomes(r: Rt, request: Request, observed: Observed, explicitOff: bool, switch: P.Switch)
    requires !request.command.Toggle?
    ensures var a := Accept(r, request, observed, explicitOff, switch);
      if a.result.None? then TakenOn(r, request, observed.maintenancePressed, a.rt)
      else if request.command.BeginMaintenance? && a.result != Some(Err(Busy))
      then r.active.None? && r.pending.None? && a.rt == LatchMaintenance(r)
      else Untaken(r, request, a)
  {
    hide SetClock, InvalidateClock, LatchMaintenance, FromSeconds, ClockStep;
    ClockStepReflexive(r);
    match request.command
    case ClearUtc =>
      RevokedIsUntaken(r, request, switch);
    case SetUtc(utc) =>
      var sample := FromSeconds(utc, observed.now);
      if sample.Some? {
        SetClockIsClockStep(r, sample.value, observed.now, Operator);
      }
    case SetUtcObserved(sample) =>
      SetClockIsClockStep(r, sample, observed.now, Operator);
    case _ =>
  }

  ghost predicate Admits(r: Rt, observed: Observed, request: Option<Request>, a: Admission) {
    if request.None? then a.rt == r && a.result.None?
    else if a.result.None? then TakenOn(r, request.value, observed.maintenancePressed, a.rt)
    else if request.value.command.BeginMaintenance? && a.result != Some(Err(Busy))
    then r.active.None? && r.pending.None? && a.rt == LatchMaintenance(r)
    else Untaken(r, request.value, a)
  }

  lemma AdmitOutcomes(r: Rt, observed: Observed, request: Option<Request>)
    requires request.Some? ==> !request.value.command.Toggle?
    ensures Admits(r, observed, request, Admit(r, observed, request))
  {
    if request.Some? {
      AcceptOutcomes(r, request.value, observed, ExplicitOff(observed, request),
                     if ExplicitOff(observed, request) then P.SwitchOff else P.NoSwitch);
    }
    hide Accept, TakenOn, LatchMaintenance, ClockStep;
  }

  lemma SaveCore(r: Rt, id: u32, config: Device)
    requires Core(r) && r.pending.None? && r.active.None? && r.ConfigRevision() + 1 == config.revision
    ensures Core(Saving(r, id, config)) && Advances(r, Saving(r, id, config))
  {
    hide PH.Inv;
  }

  lemma LeaveCore(r: Rt, id: u32)
    requires Core(r) && r.pending.None? && r.active.None? && !r.storageFailed && r.desired.Some?
    ensures Core(Releasing(r, id)) && Advances(r, Releasing(r, id))
  {
    hide PH.Inv;
  }

  lemma EnterCore(r: Rt, id: u32)
    requires Core(r) && r.active.None? && r.configuration.Some?
    ensures Core(Entering(r, id)) && Advances(r, Entering(r, id))
  {
    hide PH.Inv;
  }

  lemma AdvancesReflexive(r: Rt)
    ensures Advances(r, r)
  {
  }

  lemma AcceptCore(r: Rt, request: Request, observed: Observed, explicitOff: bool, switch: P.Switch)
    requires Core(r) && !request.command.Toggle?
    ensures Core(Accept(r, request, observed, explicitOff, switch).rt)
    ensures Advances(r, Accept(r, request, observed, explicitOff, switch).rt)
  {
    hide Accept, Core, Advances, LatchMaintenance, Saving, Entering, Releasing, ClockStep;
    AcceptOutcomes(r, request, observed, explicitOff, switch);
    var a := Accept(r, request, observed, explicitOff, switch);
    if a.result.None? {
      match request.command
      case SaveConfiguration(config) => SaveCore(r, request.id, config);
      case BeginMaintenance => EnterCore(r, request.id);
      case EndMaintenance => LeaveCore(r, request.id);
    } else if request.command.BeginMaintenance? && a.result != Some(Err(Busy)) {
      LatchMaintenanceCore(r);
    } else {
      ClockStepCore(r, a.rt);
    }
  }

  lemma AdmitCore(r: Rt, observed: Observed, request: Option<Request>)
    requires Core(r) && (request.Some? ==> !request.value.command.Toggle?)
    ensures Core(Admit(r, observed, request).rt) && Advances(r, Admit(r, observed, request).rt)
  {
    AdvancesReflexive(r);
    if request.Some? {
      var switch := if ExplicitOff(observed, request) then P.SwitchOff else P.NoSwitch;
      AcceptCore(r, request.value, observed, ExplicitOff(observed, request), switch);
    }
    hide Core, Advances, Accept;
  }

  lemma CalendarCore(r: Rt, decision: Option<S.Decision>, switch: P.Switch)
    requires Core(r)
    ensures Core(Calendar(r, decision, switch).0) && Advances(r, Calendar(r, decision, switch).0)
  {
    SuppressCore(r);
    AdvancesReflexive(r);
    hide Core, Advances, Suppress;
  }

  lemma RecordWindowCore(r: Rt, o: S.Occurrence, disposition: Disposition)
    requires Core(r) && r.desired.Some? && r.replacement.None? && !r.storageFailed
    requires r.desired.value.maintenance ==> disposition == Suppressed
    requires SI.Respects(S.PersistBeforeRun(o), r.SavedWindow())
    ensures var recorded := r.(desired := Some(r.desired.value.(window :=
              Some(RetainedWindow(o.id, o.endsUtc, disposition)))));
      Core(recorded) && Advances(r, recorded)
  {
    hide PH.Inv;
  }

  lemma LatchedRam(r: Rt)
    requires Core(r)
    ensures r.desired.Some? && r.desired.value.maintenance ==> r.maintenance
  {
    hide PH.Inv;
  }

  lemma PersistCore(r: Rt, decision: Option<S.Decision>, explicitOff: bool, switch: P.Switch)
    requires Core(r)
    requires decision.Some? && decision.value.PersistBeforeRun? ==> SI.Respects(decision.value, r.SavedWindow())
    ensures Core(Persist(r, decision, explicitOff, switch)) && Advances(r, Persist(r, decision, explicitOff, switch))
  {
    AdvancesReflexive(r);
    SuppressCore(r);
    if r.desired.Some? && r.replacement.None? && !r.storageFailed && decision.Some? && decision.value.PersistBeforeRun?
       && (explicitOff || !r.maintenance) {
      LatchedRam(r);
      var o := decision.value.occurrence;
      var disposition := if explicitOff then Suppressed else Eligible;
      RecordWindowCore(r, o, disposition);
      var recorded := r.(desired := Some(r.desired.value.(window :=
                           Some(RetainedWindow(o.id, o.endsUtc, disposition)))));
      SuppressCore(recorded);
      AdvancesTransitive(r, recorded, Suppress(recorded));
    }
    hide Core, Advances, Suppress, ManualPending;
  }

  lemma EnsureStoreCore(r: Rt)
    requires Core(r)
    ensures Core(EnsureStore(r)) && Advances(r, EnsureStore(r))
    ensures EnsureStore(r).replacement == r.replacement && EnsureStore(r).active == r.active
    ensures EnsureStore(r).storageFailed || EnsureStore(r).pending.Some?
         || (EnsureStore(r) == r && r.desired == r.durable && r.replacement.None?)
  {
    hide PH.Inv, LatchMaintenance;
    LatchedFields(r.(storageFailed := true));
    AdvancesReflexive(r);
    if !r.storageFailed && r.pending.None? {
      if r.desired != r.durable && r.desired.Some? {
        EnqueueCore(r, RetainedRecord(r.desired.value));
      } else if r.desired == r.durable && r.replacement.Some? {
        EnqueueCore(r, ConfigurationRecord(r.replacement.value));
      }
    }
  }

  lemma RamMaintenanceCore(r: Rt)
    requires Core(r) && !r.storageFailed
    ensures var latched := r.(maintenance := r.desired.None? || r.desired.value.maintenance);
      Core(latched) && Advances(r, latched)
  {
    hide PH.Inv;
  }

  /** Committing ends the step in the full invariant. */
  lemma CommitInv(r: Rt, pressed: bool, defers: bool)
    requires Core(r)
    requires defers ==> r.active.None? && r.replacement.None? && r.pending.None? && OnlySuppressionPending(r)
    ensures Inv(Commit(r, pressed, defers).0) && Advances(r, Commit(r, pressed, defers).0)
  {
    hide PH.Inv;
    EnsureStoreCore(r);
    AdvancesReflexive(r);
    hide EnsureStore, Core, Advances, OnlySuppressionPending;
    var stored := if defers then r else EnsureStore(r);
    assert Core(stored) && Advances(r, stored);
    FinishCoreIfFailed(stored);
    var failed := if stored.storageFailed then Finish(stored, Err(Exhausted)).0 else stored;
    AdvancesTransitive(r, stored, failed);
    if Ready(failed, defers) {
      var latched := if pressed then failed
                     else failed.(maintenance := failed.desired.None? || failed.desired.value.maintenance);
      RamMaintenanceCore(failed);
      AdvancesTransitive(r, failed, latched);
      FinishCore(latched, Ok(Durable));
      AdvancesTransitive(r, latched, Finish(latched, Ok(Durable)).0);
    }
  }

  lemma FinishCoreIfFailed(r: Rt)
    requires Core(r)
    ensures r.storageFailed ==> Core(Finish(r, Err(Exhausted)).0) && Advances(r, Finish(r, Err(Exhausted)).0)
    ensures Advances(r, r)
  {
    AdvancesReflexive(r);
    if r.storageFailed {
      FinishCore(r, Err(Exhausted));
    }
  }

  lemma DriveInv(r: Rt, now: Millis, inputs: P.Inputs)
    requires Inv(r)
    ensures r.Valid() && Inv(Drive(r, now, inputs)) && Advances(r, Drive(r, now, inputs))
  {
    if r.supervisor.Some? {
      PH.ApplyKeepsInv(r.supervisor.value, PH.Update(now, inputs));
      SettingsKept(r.supervisor.value, now, inputs);
    }
    hide PH.Inv, P.Updated;
  }

  lemma SettingsKept(a: P.Arbiter, now: Millis, input: P.Inputs)
    requires a.Valid()
    ensures P.Updated(a, now, input).settings == a.settings
  {
    hide Interlock.Updated;
  }
}
