/** Latched maintenance over whole runs of the runtime: how it is entered, and the only ways out. */
module RuntimeRuns {
  import opened Base
  import opened Interlock
  import opened Retained
  import opened Runtime
  import opened RuntimeInvariant
  import opened RuntimeSafety
  import P = Policy
  import PH = PolicyHistory
  import S = Schedule
  import SI = ScheduleInterval

  datatype Input = Input(observed: Observed, request: Option<Request>, completion: Option<Completion>)

  function PlanOf(r: Rt, input: Input): Plan {
    MakePlan(r, input.observed, input.request, input.completion)
  }

  function Next(r: Rt, input: Input): Rt
    requires PlanOf(r, input).committed.Valid()
  {
    Step(r, input.observed, input.request, input.completion).rt
  }

  /** `rs[i]` is the runtime after the first `i` steps, from any state in the invariant. */
  ghost predicate Steps(inputs: seq<Input>, rs: seq<Rt>) {
    && |rs| == |inputs| + 1
    && Inv(rs[0])
    && forall i :: 0 <= i < |inputs| ==>
         PlanOf(rs[i], inputs[i]).committed.Valid() && rs[i + 1] == Next(rs[i], inputs[i])
  }

  lemma {:induction false} StepsInv(inputs: seq<Input>, rs: seq<Rt>, n: nat)
    requires Steps(inputs, rs) && n <= |inputs|
    ensures Inv(rs[n])
  {
    if n > 0 {
      StepsInv(inputs, rs, n - 1);
      StepKeepsInv(rs[n - 1], inputs[n - 1].observed, inputs[n - 1].request, inputs[n - 1].completion);
    }
  }

  // ------------------------------------------------------ latched maintenance

  predicate Latched(r: Rt) {
    r.desired.Some? && r.desired.value.maintenance
  }

  /** This step takes on an explicit exit. */
  predicate AcceptsExit(r: Rt, input: Input) {
    var plan := PlanOf(r, input);
    plan.request.Some? && plan.request.value.command.EndMaintenance? && plan.admission.result.None?
  }

  /** A store of a record clear of maintenance is in flight. */
  predicate ClearInFlight(r: Rt) {
    && r.pending.Some?
    && r.pending.value.record.RetainedRecord?
    && !r.pending.value.record.state.maintenance
  }

  /** This step learns that the record clear of maintenance is stored. */
  predicate AcksClear(r: Rt, input: Input) {
    ClearInFlight(r) && Matches(r, input.completion) && input.completion.value.succeeded
  }

  /**
   An exit taken on at step `a` and a clear record acknowledged at step `c`: written for
   that exit and acknowledged later, or already in flight and acknowledged in that step.
   */
  predicate Released(inputs: seq<Input>, rs: seq<Rt>, a: nat, c: nat)
    requires a < |inputs| < |rs| && c < |inputs|
  {
    && AcceptsExit(rs[a], inputs[a])
    && AcksClear(rs[c], inputs[c])
    && (a == c || (a < c && rs[c].pending.value.ticket > rs[a].nextTicket))
  }

  /** An exit waits on its own clear record while the stored one still holds maintenance. */
  ghost predicate ExitWaits(r: Rt, before: u64) {
    && r.desired.Some? && !r.desired.value.maintenance
    && r.durable.Some? && r.durable.value.maintenance
    && Leaving(r)
    && ClearInFlight(r) && r.pending.value.ticket > before
  }

  /** Maintenance wanted by the desired record is never dropped except by an accepted exit. */
  lemma LatchHolds(r: Rt, input: Input)
    requires Inv(r) && Latched(r)
    ensures var n := PlanOf(r, input).committed;
      || Latched(n)
      || (AcceptsExit(r, input) && (AcksClear(r, input) || ExitWaits(n, r.nextTicket)))
  {
    var plan := PlanOf(r, input);
    EarlyStages(r, input.observed, input.request, input.completion);
    PlanStages(r, input.observed, input.request, input.completion);
    PlanRaceFacts(r, input.observed, input.request, input.completion);
    LateStagesKeep(r, input.observed, input.request, input.completion);
    LatchedSettles(r, input);
    LatchedAdmits(plan.settled, input.observed, plan.request);
    hide MakePlan, Settle, Admit, Commit, Inv, Core, Answers, Accept;
    if Latched(plan.admission.rt) {
      LatchedCommits(plan.persisted, input.observed.maintenancePressed, plan.defers);
    } else {
      ExitCommits(plan.persisted, input.observed.maintenancePressed, plan.defers);
    }
  }

  /** Settling keeps the latch; idle afterwards, the stored record is latched too unless a clear one was acknowledged. */
  lemma LatchedSettles(r: Rt, input: Input)
    requires Inv(r) && Latched(r)
    ensures var s := Settle(r, input.observed, input.completion).0;
      && Latched(s) && r.nextTicket <= s.nextTicket
      && (s.pending.None? && !s.storageFailed && !AcksClear(r, input) ==>
            s.durable.Some? && s.durable.value.maintenance)
  {
    var pressed := Press(r, input.observed.maintenancePressed).0;
    LatchedFields(r);
    PressCore(r, input.observed.maintenancePressed);
    var now := input.observed.now;
    if input.completion.Some? {
      LatchedCompletes(pressed, input.completion.value, now);
    }
    var completed := if input.completion.Some? then Complete(pressed, input.completion.value, now).0 else pressed;
    assert pressed.pending == r.pending && pressed.durable == r.durable && pressed.storageFailed == r.storageFailed;
    assert r.pending.None? && !r.storageFailed ==> r.durable.Some? && r.durable.value.maintenance;
    var seen := ObserveUtc(completed, now).0;
    ClockStepKeeps(completed, seen) by { ObserveUtcIsClockStep(completed, now); }
    var after := TakeClockUpdate(seen, input.observed.clockUpdate, now);
    ClockStepKeeps(seen, after) by { TakeClockUpdateIsClockStep(seen, input.observed.clockUpdate, now); }
    hide Complete, ObserveUtc, TakeClockUpdate, LatchMaintenance, PH.Inv, Core;
  }

  lemma LatchedCompletes(r: Rt, completion: Completion, now: Millis)
    requires Core(r) && Latched(r)
    ensures var s := Complete(r, completion, now).0;
      && Latched(s) && r.nextTicket <= s.nextTicket
      && (!Matches(r, Some(completion)) ==> s == r)
      && (Matches(r, Some(completion)) && s.pending.None? && !s.storageFailed ==>
            && completion.succeeded && s.durable.Some?
            && (ClearInFlight(r) || s.durable.value.maintenance))
  {
    hide PH.Inv;
  }

  /** `b` took on an exit from the idle latched state `a`. */
  predicate TakesExit(a: Rt, b: Rt) {
    && b.desired.Some? && !b.desired.value.maintenance && Leaving(b)
    && a.pending.None? && b.pending.None? && !a.storageFailed && !b.storageFailed
  }

  /** A request keeps the latch, or is an exit taken on. */
  lemma LatchedAdmits(r: Rt, observed: Observed, request: Option<Request>)
    requires Latched(r) && (request.Some? ==> !request.value.command.Toggle?)
    ensures var a := Admit(r, observed, request);
      && (Latched(a.rt)
          || (request.Some? && request.value.command.EndMaintenance? && a.result.None? && TakesExit(r, a.rt)))
      && a.rt.durable == r.durable && a.rt.nextTicket == r.nextTicket
  {
    hide Admit;
    AdmitOutcomes(r, observed, request);
  }

  lemma LatchedCommits(r: Rt, pressed: bool, defers: bool)
    requires Latched(r)
    ensures Latched(Commit(r, pressed, defers).0)
  {
    hide Commit, EnsureStore;
    CommitFrame(r, pressed, defers);
    EnsureStoreOutcomes(r);
  }

  /** An accepted exit over a stored record in maintenance waits on a new clear record, or relatches. */
  lemma ExitCommits(r: Rt, pressed: bool, defers: bool)
    requires r.pending.None? && !r.storageFailed && Leaving(r)
    requires r.desired.Some? && !r.desired.value.maintenance
    requires defers ==> r.active.None?
    ensures r.durable.Some? && r.durable.value.maintenance ==>
      Latched(Commit(r, pressed, defers).0) || ExitWaits(Commit(r, pressed, defers).0, r.nextTicket)
  {
  }

  /** The step records, as suppressed, an occurrence newer than the saved one because an Off came while it was active. */
  predicate OffRecords(r: Rt, input: Input) {
    var decision := PlanOf(r, input).decision;
    input.observed.forceOff && decision.Some? && decision.value.PersistBeforeRun?
  }

  /**
   When the exit's own record is skipped: an exit taken on in maintenance is answered as
   durable in the same step exactly if that step learns that a record clear of maintenance
   is stored, that record is the very one the exit wants, and no Off records a new
   occurrence on top of it.
   */
  lemma ExitAnsweredAtOnce(r: Rt, input: Input)
    requires Inv(r) && Latched(r) && AcceptsExit(r, input) && PlanOf(r, input).committed.Valid()
    ensures Step(r, input.observed, input.request, input.completion).completedReply
         == Some(Reply(input.request.value.id, Ok(Durable)))
      <==> && AcksClear(r, input)
           && r.pending.value.record.state == r.desired.value.(maintenance := false)
           && !OffRecords(r, input)
  {
    hide PlanOf, Step, Inv, AcceptsExit, OffRecords;
    ExitReplies(r, input);
    if AcksClear(r, input) {
      ExitAgrees(r, input);
    }
  }

  /** The reply of an accepted exit's step is durable exactly if the commit finds the records equal. */
  lemma ExitReplies(r: Rt, input: Input)
    requires Inv(r) && Latched(r) && AcceptsExit(r, input) && PlanOf(r, input).committed.Valid()
    ensures Step(r, input.observed, input.request, input.completion).completedReply
         == Some(Reply(input.request.value.id, Ok(Durable)))
      <==> PlanOf(r, input).persisted.desired == PlanOf(r, input).persisted.durable
    ensures PlanOf(r, input).persisted.desired == PlanOf(r, input).persisted.durable ==> AcksClear(r, input)
  {
    hide MakePlan, Settle, Admit, Inv, Core, Commit, Step, Drive, Confirm, LosesReply, AcksClear, TakesExit;
    var plan := PlanOf(r, input);
    EarlyStages(r, input.observed, input.request, input.completion);
    PlanStages(r, input.observed, input.request, input.completion);
    StepParts(r, input.observed, input.request, input.completion);
    SettledRepliesAreErrors(r, input.observed, input.completion);
    TakenExit(plan.settled, input.observed, plan.request);
    ExitPersists(r, input);
    ExitCommitsIff(plan.persisted, input.observed.maintenancePressed, plan.defers);
  }

  /** What an accepted exit leaves for the commit. */
  lemma ExitPersists(r: Rt, input: Input)
    requires Inv(r) && Latched(r) && AcceptsExit(r, input)
    ensures var p := PlanOf(r, input).persisted;
      && p.pending.None? && !p.storageFailed && p.replacement.None? && Leaving(p) && p.desired.Some?
      && p.active.value.id == input.request.value.id && !PlanOf(r, input).defers
      && (p.desired == p.durable ==> AcksClear(r, input))
  {
    hide MakePlan, Settle, Admit, Inv, Core, Answers, Accept, Commit;
    var plan := PlanOf(r, input);
    EarlyStages(r, input.observed, input.request, input.completion);
    PlanRaceFacts(r, input.observed, input.request, input.completion);
    LateStagesKeep(r, input.observed, input.request, input.completion);
    PlanKeepsInv(r, input.observed, input.request, input.completion);
    LatchedSettles(r, input);
    AdmitReplies(plan.settled, input.observed, plan.request);
    TakenExit(plan.settled, input.observed, plan.request);
    LeavingHasNoReplacement(plan.admission.rt);
  }

  lemma SettledRepliesAreErrors(r: Rt, observed: Observed, completion: Option<Completion>)
    ensures Settle(r, observed, completion).1.Some? ==> Settle(r, observed, completion).1.value.result.Err?
  {
    hide LatchMaintenance, ObserveUtc, TakeClockUpdate, Enqueue, P.Initial, P.Reconfigured;
  }

  /** The records the commit compares, from the state before the step. */
  lemma ExitAgrees(r: Rt, input: Input)
    requires Inv(r) && Latched(r) && AcceptsExit(r, input) && AcksClear(r, input)
    ensures PlanOf(r, input).persisted.desired == PlanOf(r, input).persisted.durable
      <==> r.pending.value.record.state == r.desired.value.(maintenance := false) && !OffRecords(r, input)
  {
    hide MakePlan, Settle, Admit, Inv, Core, Accept, SI.Respects;
    var plan := PlanOf(r, input);
    EarlyStages(r, input.observed, input.request, input.completion);
    LateStagesKeep(r, input.observed, input.request, input.completion);
    PlanKeepsInv(r, input.observed, input.request, input.completion);
    TakenExit(plan.settled, input.observed, plan.request);
    AckedSettles(r, input);
    ClearIsBelow(r);
    ExitRecords(r, input);
  }

  lemma ClearIsBelow(r: Rt)
    requires Inv(r) && Latched(r) && ClearInFlight(r)
    ensures WindowBelow(r.pending.value.record.state.window, r.desired.value.window)
    ensures r.desired.value == r.desired.value.Suppress() && r.replacement.None? && !r.storageFailed && r.maintenance
  {
    hide PH.Inv;
  }

  /** Acknowledging a clear record in maintenance leaves everything idle and the desired record alone. */
  lemma AckedSettles(r: Rt, input: Input)
    requires Inv(r) && Latched(r) && AcksClear(r, input) && !input.observed.maintenancePressed
    ensures var s := Settle(r, input.observed, input.completion).0;
      && s.durable == Some(r.pending.value.record.state) && s.desired == r.desired
      && s.pending.None? && s.replacement.None? && !s.storageFailed && s.maintenance
  {
    ClearIsBelow(r);
    var now := input.observed.now;
    var completed := Complete(r, input.completion.value, now).0;
    assert completed == r.(pending := None, durable := Some(r.pending.value.record.state));
    var seen := ObserveUtc(completed, now).0;
    ClockStepKeeps(completed, seen) by { ObserveUtcIsClockStep(completed, now); }
    var after := TakeClockUpdate(seen, input.observed.clockUpdate, now);
    ClockStepKeeps(seen, after) by { TakeClockUpdateIsClockStep(seen, input.observed.clockUpdate, now); }
    hide Inv, ObserveUtc, TakeClockUpdate;
  }

  /** What the late stages make of the record an exit wants. */
  lemma ExitRecords(r: Rt, input: Input)
    requires Inv(r)
    requires var plan := PlanOf(r, input);
      && plan.request.Some? && plan.request.value.command.EndMaintenance?
      && WantsExit(plan.admission.rt)
    ensures var plan := PlanOf(r, input);
      && (!OffRecords(r, input) ==> plan.persisted.desired == plan.admission.rt.desired)
      && (OffRecords(r, input) ==>
            && plan.persisted.desired.Some? && plan.persisted.desired.value.window.Some?
            && !WindowBelow(plan.persisted.desired.value.window, plan.admission.rt.SavedWindow()))
  {
    hide Inv, Core, Advances, Settle, Admit, ObserveUtc, Decide, Calendar, Persist, Commit, Defers, ControlInputs;
    var plan := PlanOf(r, input);
    PlanKeepsInv(r, input.observed, input.request, input.completion);
    ObserveUtcIsClockStep(plan.admission.rt, input.observed.now);
    RecordingInMaintenance(plan.seen, plan.decision, plan.explicitOff, plan.admission.switch, plan.switch);
  }

  predicate WantsExit(r: Rt) {
    && r.maintenance && r.desired.Some? && r.desired.value == r.desired.value.Suppress()
    && r.replacement.None? && !r.storageFailed
  }

  /** In maintenance only an Off records a new occurrence. */
  lemma RecordingInMaintenance(r: Rt, decision: Option<S.Decision>, explicitOff: bool, before: P.Switch, switch: P.Switch)
    requires WantsExit(r)
    ensures Persist(Calendar(r, decision, before).0, decision, explicitOff, switch).desired
      == if explicitOff && decision.Some? && decision.value.PersistBeforeRun? then
           var o := decision.value.occurrence;
           Some(r.desired.value.(window := Some(RetainedWindow(o.id, o.endsUtc, Suppressed))))
         else r.desired
  {
  }

  lemma TakenExit(r: Rt, observed: Observed, request: Option<Request>)
    requires request.Some? && request.value.command.EndMaintenance? && Admit(r, observed, request).result.None?
    ensures TakesExit(r, Admit(r, observed, request).rt)
    ensures !observed.maintenancePressed && r.desired.Some?
    ensures var a := Admit(r, observed, request).rt;
      && a == r.(active := a.active, desired := Some(r.desired.value.(maintenance := false)))
  {
  }

  lemma LeavingHasNoReplacement(r: Rt)
    requires Core(r) && Leaving(r) && !r.storageFailed
    ensures r.replacement.None?
  {
    hide PH.Inv;
  }

  lemma ExitCommitsIff(r: Rt, pressed: bool, defers: bool)
    requires r.pending.None? && !r.storageFailed && r.replacement.None? && Leaving(r) && r.desired.Some? && !defers
    ensures var reply := Commit(r, pressed, defers).1;
      reply == Some(Reply(r.active.value.id, Ok(Durable))) <==> r.desired == r.durable
  {
    LatchedFields(r.(storageFailed := true));
    hide LatchMaintenance;
  }

  /** An exit in flight waits on, is relatched, or sees its own clear record acknowledged. */
  lemma WaitHolds(r: Rt, input: Input, before: u64)
    requires Inv(r) && ExitWaits(r, before)
    ensures var n := PlanOf(r, input).committed;
      Latched(n) || ExitWaits(n, before) || AcksClear(r, input)
  {
    var plan := PlanOf(r, input);
    EarlyStages(r, input.observed, input.request, input.completion);
    PlanStages(r, input.observed, input.request, input.completion);
    PlanRaceFacts(r, input.observed, input.request, input.completion);
    LateStagesKeep(r, input.observed, input.request, input.completion);
    WaitSettles(r, input, before);
    hide MakePlan, Settle, Inv, Core, Answers, Commit, Admit;
    if !AcksClear(r, input) {
      if Latched(plan.settled) {
        LatchedAdmits(plan.settled, input.observed, plan.request);
        if Latched(plan.admission.rt) {
          LatchedCommits(plan.persisted, input.observed.maintenancePressed, plan.defers);
        }
      } else {
        WaitAdmits(plan.settled, input.observed, plan.request, before);
        WaitCommits(plan.persisted, input.observed.maintenancePressed, plan.defers, before);
      }
    }
  }

  lemma WaitSettles(r: Rt, input: Input, before: u64)
    requires Inv(r) && ExitWaits(r, before)
    ensures var s := Settle(r, input.observed, input.completion).0;
      || AcksClear(r, input)
      || ExitWaits(s, before)
      || (Latched(s) && (s.pending.Some? || s.storageFailed))
  {
    var pressed := Press(r, input.observed.maintenancePressed).0;
    LatchedFields(r);
    assert Latched(pressed) || pressed == r by { hide PH.Inv; }
    var now := input.observed.now;
    if input.completion.Some? {
      WaitCompletes(pressed, input.completion.value, now);
    }
    var completed := if input.completion.Some? then Complete(pressed, input.completion.value, now).0 else pressed;
    var seen := ObserveUtc(completed, now).0;
    ClockStepKeeps(completed, seen) by { ObserveUtcIsClockStep(completed, now); }
    var after := TakeClockUpdate(seen, input.observed.clockUpdate, now);
    ClockStepKeeps(seen, after) by { TakeClockUpdateIsClockStep(seen, input.observed.clockUpdate, now); }
    hide Complete, ObserveUtc, TakeClockUpdate, LatchMaintenance, PH.Inv, Core;
  }

  lemma WaitCompletes(r: Rt, completion: Completion, now: Millis)
    requires r.pending.Some? && r.desired.Some?
    ensures var s := Complete(r, completion, now).0;
      || s == r
      || (Matches(r, Some(completion)) && completion.succeeded)
      || (Latched(s) && s.storageFailed)
  {
  }

  lemma WaitAdmits(r: Rt, observed: Observed, request: Option<Request>, before: u64)
    requires ExitWaits(r, before) && (request.Some? ==> !request.value.command.Toggle?)
    ensures ExitWaits(Admit(r, observed, request).rt, before)
  {
    ClockStepKeeps(r, InvalidateClock(r)) by { InvalidateClockIsClockStep(r); }
    hide InvalidateClock;
  }

  lemma WaitCommits(r: Rt, pressed: bool, defers: bool, before: u64)
    requires ExitWaits(r, before) && !r.storageFailed && (r.active.Some? ==> !defers)
    ensures ExitWaits(Commit(r, pressed, defers).0, before)
  {
  }

  lemma NextRecords(r: Rt, input: Input)
    requires Inv(r) && PlanOf(r, input).committed.Valid()
    ensures Next(r, input) == PlanOf(r, input).committed.(supervisor := Next(r, input).supervisor)
  {
    hide MakePlan, P.Updated;
  }

  /** From a latched state `i` on: still latched, an exit waiting for its clear record, or released. */
  ghost predicate Progress(inputs: seq<Input>, rs: seq<Rt>, i: nat, j: nat)
    requires i <= j < |rs| && |rs| == |inputs| + 1
  {
    || Latched(rs[j])
    || (exists a: nat :: i <= a < j && AcceptsExit(rs[a], inputs[a]) && ExitWaits(rs[j], rs[a].nextTicket))
    || (exists a: nat, c: nat :: i <= a < j && i <= c < j && Released(inputs, rs, a, c))
  }

  lemma LatchStep(r: Rt, input: Input)
    requires Inv(r) && Latched(r) && PlanOf(r, input).committed.Valid()
    ensures var n := Next(r, input);
      Latched(n) || (AcceptsExit(r, input) && (AcksClear(r, input) || ExitWaits(n, r.nextTicket)))
  {
    NextRecords(r, input);
    LatchHolds(r, input);
    hide Inv, AcceptsExit, AcksClear, Next, PlanOf;
  }

  lemma WaitStep(r: Rt, input: Input, before: u64)
    requires Inv(r) && ExitWaits(r, before) && PlanOf(r, input).committed.Valid()
    ensures var n := Next(r, input); Latched(n) || ExitWaits(n, before) || AcksClear(r, input)
  {
    NextRecords(r, input);
    WaitHolds(r, input, before);
    hide Inv, AcceptsExit, AcksClear, Next, PlanOf;
  }

  lemma {:induction false} LatchProgress(inputs: seq<Input>, rs: seq<Rt>, i: nat, j: nat)
    requires Steps(inputs, rs) && i <= j <= |inputs| && Latched(rs[i])
    ensures Progress(inputs, rs, i, j)
    decreases j - i
  {
    hide Inv, AcceptsExit, AcksClear, Next, PlanOf, Latched, ExitWaits;
    if i < j {
      LatchProgress(inputs, rs, i, j - 1);
      StepsInv(inputs, rs, j - 1);
      var r, input := rs[j - 1], inputs[j - 1];
      assert rs[j] == Next(r, input);
      if Latched(r) {
        LatchStep(r, input);
        if AcceptsExit(r, input) && AcksClear(r, input) {
          assert Released(inputs, rs, j - 1, j - 1);
        }
      } else if a: nat :| i <= a < j - 1 && AcceptsExit(rs[a], inputs[a]) && ExitWaits(r, rs[a].nextTicket) {
        WaitStep(r, input, rs[a].nextTicket);
        if AcksClear(r, input) {
          WaitsTicket(r, rs[a].nextTicket);
          assert Released(inputs, rs, a, j - 1);
        }
      } else {
        var a: nat, c: nat :| i <= a < j - 1 && i <= c < j - 1 && Released(inputs, rs, a, c);
        assert Released(inputs, rs, a, c);
      }
    }
  }

  lemma WaitsTicket(r: Rt, before: u64)
    requires ExitWaits(r, before)
    ensures r.pending.Some? && r.pending.value.ticket > before
  {
  }

  /**
   Latched maintenance: once the desired record holds maintenance, by button, command,
   save or failure, the output stays off until a later exit is accepted and a record
   clear of maintenance is acknowledged, its own or one already in flight, whatever the
   button supersedes in between.
   */
  lemma MaintenanceIsLatched(inputs: seq<Input>, rs: seq<Rt>, i: nat, j: nat)
    requires Steps(inputs, rs) && i < j <= |inputs| && Latched(rs[i])
    requires rs[j].Relay() == On
    ensures exists a: nat, c: nat :: i <= a < j && i <= c < j && Released(inputs, rs, a, c)
  {
    hide Inv, AcceptsExit, AcksClear, PlanOf, Next, Released;
    LatchProgress(inputs, rs, i, j);
    StepsInv(inputs, rs, j - 1);
    OnIsReleased(rs[j - 1], inputs[j - 1]);
  }

  lemma OnIsReleased(r: Rt, input: Input)
    requires Inv(r) && PlanOf(r, input).committed.Valid() && Next(r, input).Relay() == On
    ensures !Latched(Next(r, input))
    ensures Next(r, input).durable.Some? && !Next(r, input).durable.value.maintenance
  {
    DurabilityGate(r, input.observed, input.request, input.completion);
    hide Step;
  }

  /** A save taken on, or any maintenance entry not refused as busy. */
  predicate EntersMaintenance(request: Option<Request>, result: Option<Result<Ack, Error>>) {
    && request.Some?
    && ((request.value.command.SaveConfiguration? && result.None?)
        || (request.value.command.BeginMaintenance? && result != Some(Err(Busy))))
  }

  /** The ways into maintenance: button, entry or save, failed store, or failed storage such as no ticket left. */
  predicate Enters(r: Rt, input: Input) {
    || input.observed.maintenancePressed
    || EntersMaintenance(PlanOf(r, input).request, PlanOf(r, input).admission.result)
    || (Matches(r, input.completion) && !input.completion.value.succeeded)
    || PlanOf(r, input).committed.storageFailed
  }

  /** Every way into maintenance latches the desired record, wherever one exists, and nothing else does. */
  lemma EntriesLatch(r: Rt, input: Input)
    requires Inv(r) && PlanOf(r, input).committed.Valid()
    ensures var n := Next(r, input);
      && (n.desired.Some? && Enters(r, input) ==> Latched(n) && n.maintenance)
      && (Latched(n) && !Latched(r) ==> Enters(r, input))
  {
    hide MakePlan, Settle, Admit, Commit, Core, Inv, Step, Next, EntersMaintenance;
    var plan := PlanOf(r, input);
    NextRecords(r, input);
    EarlyStages(r, input.observed, input.request, input.completion);
    PlanStages(r, input.observed, input.request, input.completion);
    LateStagesKeep(r, input.observed, input.request, input.completion);
    PlanKeepsInv(r, input.observed, input.request, input.completion);
    EntrySettles(r, input);
    EntryAdmits(plan.settled, input.observed, plan.request);
    EntryCommits(plan.persisted, input.observed.maintenancePressed, plan.defers);
    FailureIsLatched(plan.committed);
  }

  lemma FailureIsLatched(r: Rt)
    requires Inv(r)
    ensures r.storageFailed && r.desired.Some? ==> Latched(r)
    ensures Latched(r) ==> r.maintenance
  {
    hide PH.Inv;
  }

  lemma EntryCommits(r: Rt, pressed: bool, defers: bool)
    ensures var c := Commit(r, pressed, defers).0;
      && (c.desired.Some? <==> r.desired.Some?)
      && (Latched(r) ==> Latched(c))
      && (r.storageFailed ==> c.storageFailed)
      && (Latched(c) ==> Latched(r) || c.storageFailed)
  {
    hide Commit, EnsureStore;
    CommitFrame(r, pressed, defers);
    EnsureStoreOutcomes(r);
  }

  lemma EntrySettles(r: Rt, input: Input)
    ensures var s := Settle(r, input.observed, input.completion).0;
      var failed := Matches(r, input.completion) && !input.completion.value.succeeded;
      && (input.observed.maintenancePressed || failed ==>
            s.desired.None? || (Latched(s) && (s.storageFailed || input.observed.maintenancePressed)))
      && (Latched(s) ==> Latched(r) || input.observed.maintenancePressed || s.storageFailed)
  {
    hide Complete, ObserveUtc, TakeClockUpdate, Press;
    var pressed := Press(r, input.observed.maintenancePressed).0;
    EntryPresses(r, input.observed.maintenancePressed);
    var now := input.observed.now;
    if input.completion.Some? {
      EntryCompletes(pressed, input.completion.value, now);
    }
    var completed := if input.completion.Some? then Complete(pressed, input.completion.value, now).0 else pressed;
    var seen := ObserveUtc(completed, now).0;
    ClockStepKeeps(completed, seen) by { ObserveUtcIsClockStep(completed, now); }
    var after := TakeClockUpdate(seen, input.observed.clockUpdate, now);
    ClockStepKeeps(seen, after) by { TakeClockUpdateIsClockStep(seen, input.observed.clockUpdate, now); }
  }

  lemma EntryPresses(r: Rt, pressed: bool)
    ensures var p := Press(r, pressed).0;
      && p.pending == r.pending && (p.desired.None? <==> r.desired.None?)
      && (if pressed then p.desired.None? || Latched(p) else p == r)
  {
  }

  lemma EntryCompletes(r: Rt, completion: Completion, now: Millis)
    ensures var s := Complete(r, completion, now).0;
      && (Latched(r) ==> Latched(s)) && (r.desired.None? ==> s.desired.None?)
      && (Matches(r, Some(completion)) && !completion.succeeded ==> s.desired.None? || (Latched(s) && s.storageFailed))
      && (Latched(s) ==> Latched(r) || s.storageFailed)
  {
  }

  lemma EntryAdmits(r: Rt, observed: Observed, request: Option<Request>)
    requires request.Some? ==> !request.value.command.Toggle?
    ensures var a := Admit(r, observed, request);
      && (Latched(r) && (r.storageFailed || observed.maintenancePressed) ==> Latched(a.rt))
      && (EntersMaintenance(request, a.result) ==> a.rt.desired.None? || Latched(a.rt))
      && (r.desired.None? ==> a.rt.desired.None? || Latched(a.rt))
      && (!EntersMaintenance(request, a.result) ==>
            (Latched(a.rt) ==> Latched(r)) && a.rt.storageFailed == r.storageFailed)
  {
    hide Admit;
    AdmitOutcomes(r, observed, request);
  }
}
