/**
 Crash-safe no-rerun: an occurrence that was energised is not energised again after a
 power cut, unless a recovery boot latched maintenance and an explicit exit became durable.
 */
module NoRerun {
  import opened Base
  import opened Interlock
  import opened Occurrences
  import opened Retained
  import opened Runtime
  import opened RuntimeInvariant
  import opened RuntimeSafety
  import opened RuntimeRuns
  import opened RuntimeCalendar
  import opened Flash
  import opened FlashSafety
  import opened RuntimeProgress
  import P = Policy
  import PH = PolicyHistory
  import S = Schedule
  import SI = ScheduleInterval

  // --------------------------------------------------- exposure is durable

  /** A step that leaves an automatic run energised, with the window it was shown. */
  ghost predicate EnergisesAutomatic(r: Rt, input: Input, w: WindowId)
  {
    && PlanOf(r, input).committed.Valid()
    && Next(r, input).Relay() == On
    && Next(r, input).Demand() == Automatic
    && PlanOf(r, input).inputs.window.Some?
    && PlanOf(r, input).inputs.window.value.id == w
  }

  /** A shown window is the saved, eligible one, and the late stages left the record alone. */
  lemma ShownIsSaved(r: Rt, input: Input)
    requires Inv(r) && PlanOf(r, input).inputs.window.Some?
    ensures var plan := PlanOf(r, input);
      && plan.seen.SavedWindow().Some?
      && plan.seen.SavedWindow().value.disposition == Eligible
      && plan.seen.SavedWindow().value.id == plan.inputs.window.value.id
      && plan.persisted.desired == plan.seen.desired
  {
    PlanKeepsInv(r, input.observed, input.request, input.completion);
    hide Inv, Core, Advances, Settle, Admit, ObserveUtc, Decide, Commit, Defers, Resolve;
  }

  lemma ReadyCommitKeepsDesired(r: Rt, pressed: bool, defers: bool)
    requires !Commit(r, pressed, defers).0.storageFailed
    ensures Commit(r, pressed, defers).0.desired == r.desired
  {
    hide LatchMaintenance;
    LatchedFields(r.(storageFailed := true));
  }

  /** Exposure is durable: the window behind an energised automatic run is stored as eligible. */
  lemma ExposureIsDurable(r: Rt, input: Input, w: WindowId)
    requires Inv(r) && EnergisesAutomatic(r, input, w)
    ensures var n := Next(r, input);
      && n.durable.Some? && n.durable.value.window.Some?
      && n.durable.value.window.value.id == w
      && n.durable.value.window.value.disposition == Eligible
  {
    hide Inv, MakePlan, Core, Advances, Commit, PH.Inv, ControlInputs, Step;
    var plan := PlanOf(r, input);
    ShownIsSaved(r, input);
    NextRecords(r, input);
    DurabilityGate(r, input.observed, input.request, input.completion);
    PlanStages(r, input.observed, input.request, input.completion);
    ReadyCommitKeepsDesired(plan.persisted, input.observed.maintenancePressed, plan.defers);
  }

  // --------------------------------------------------------------- barred ids

  /** The record's watermark bars `w`: it is newer, or it is `w` itself, suppressed. */
  predicate Barred(s: Option<RetainedState>, w: WindowId) {
    && s.Some? && s.value.window.Some?
    && (s.value.window.value.id > w
        || (s.value.window.value.id == w && s.value.window.value.disposition == Suppressed))
  }

  predicate BarredRecords(r: Rt, w: WindowId) {
    && Barred(r.desired, w) && Barred(r.durable, w)
    && (r.pending.Some? && r.pending.value.record.RetainedRecord? ==>
          Barred(Some(r.pending.value.record.state), w))
  }

  /** The supervisor has only ever been shown windows newer than `w`. */
  predicate Unexposed(a: P.Arbiter, w: WindowId) {
    && (a.lastWindow.Some? ==> a.lastWindow.value.id > w)
    && (a.run.Some? && a.run.value.demand == Automatic ==>
          a.run.value.windowId.Some? && a.run.value.windowId.value > w)
  }

  predicate Barring(r: Rt, w: WindowId) {
    BarredRecords(r, w) && (r.supervisor.Some? ==> Unexposed(r.supervisor.value, w))
  }

  lemma ClockStepBars(a: Rt, b: Rt, w: WindowId)
    requires ClockStep(a, b) && Barring(a, w)
    ensures Barring(b, w)
  {
  }

  lemma LatchBars(r: Rt, w: WindowId)
    requires Barring(r, w)
    ensures Barring(LatchMaintenance(r), w)
  {
  }

  lemma CompleteBars(r: Rt, completion: Completion, now: Millis, w: WindowId)
    requires Core(r) && Barring(r, w)
    ensures Barring(Complete(r, completion, now).0, w)
  {
    hide PH.Inv;
  }

  lemma SettleBars(r: Rt, observed: Observed, completion: Option<Completion>, w: WindowId)
    requires Inv(r) && Barring(r, w)
    ensures Barring(Settle(r, observed, completion).0, w)
  {
    LatchBars(r, w);
    var pressed := Press(r, observed.maintenancePressed).0;
    PressCore(r, observed.maintenancePressed);
    assert Barring(pressed, w) by { hide LatchMaintenance, Core, PH.Inv; }
    hide Press, Complete, ObserveUtc, TakeClockUpdate, Core, PH.Inv, Barring;
    var now := observed.now;
    if completion.Some? {
      CompleteBars(pressed, completion.value, now, w);
    }
    var completed := if completion.Some? then Complete(pressed, completion.value, now).0 else pressed;
    var seen := ObserveUtc(completed, now).0;
    ClockStepBars(completed, seen, w) by { ObserveUtcIsClockStep(completed, now); }
    ClockStepBars(seen, TakeClockUpdate(seen, observed.clockUpdate, now), w) by {
      TakeClockUpdateIsClockStep(seen, observed.clockUpdate, now);
    }
  }

  lemma AdmitBars(r: Rt, observed: Observed, request: Option<Request>, w: WindowId)
    requires Barring(r, w) && (request.Some? ==> !request.value.command.Toggle?)
    ensures Barring(Admit(r, observed, request).rt, w)
  {
    hide Admit, TakenOn, Barring, ClockStep, LatchMaintenance;
    AdmitOutcomes(r, observed, request);
    LatchBars(r, w);
    var a := Admit(r, observed, request);
    if request.Some? && a.result.None? {
      TakenBars(r, request.value, observed.maintenancePressed, a.rt, w);
    } else if ClockStep(r, a.rt) {
      ClockStepBars(r, a.rt, w);
    }
  }

  lemma TakenBars(r: Rt, request: Request, pressed: bool, after: Rt, w: WindowId)
    requires TakenOn(r, request, pressed, after) && Barring(r, w) && Barring(LatchMaintenance(r), w)
    ensures Barring(after, w)
  {
    LatchedFields(r);
    hide LatchMaintenance, Unexposed;
  }

  lemma LateBars(r: Rt, decision: Option<S.Decision>, explicitOff: bool, switch: P.Switch, switch': P.Switch, w: WindowId)
    requires Barring(r, w)
    requires decision.Some? ==> SI.Respects(decision.value, r.SavedWindow())
    ensures Barring(Persist(Calendar(r, decision, switch).0, decision, explicitOff, switch'), w)
  {
  }

  lemma CommitBars(r: Rt, pressed: bool, defers: bool, w: WindowId)
    requires Barring(r, w)
    ensures Barring(Commit(r, pressed, defers).0, w)
  {
    hide Commit, EnsureStore, LatchMaintenance;
    CommitFrame(r, pressed, defers);
    EnsureStoreOutcomes(r);
    LatchBars(r.(storageFailed := true), w);
  }

  lemma PlanBars(r: Rt, input: Input, w: WindowId)
    requires Inv(r) && Barring(r, w)
    ensures Barring(PlanOf(r, input).seen, w) && Barring(PlanOf(r, input).committed, w)
  {
    var plan := PlanOf(r, input);
    var o := input.observed;
    PlanKeepsInv(r, o, input.request, input.completion);
    EarlyStages(r, o, input.request, input.completion);
    hide Inv, Core, Advances, Barring, Settle, Admit, ObserveUtc, Decide, Calendar, Persist, Commit, Defers,
         ControlInputs, Resolve, SI.Respects;
    SettleBars(r, o, input.completion, w);
    AdmitBars(plan.settled, o, plan.request, w);
    ClockStepBars(plan.admission.rt, plan.seen, w) by { ObserveUtcIsClockStep(plan.admission.rt, o.now); }
    LateBars(plan.seen, plan.decision, plan.explicitOff, plan.admission.switch, plan.switch, w);
    CommitBars(plan.persisted, o.maintenancePressed, plan.defers, w);
  }

  lemma ArbitrationStaysUnexposed(a: P.Arbiter, now: Millis, input: P.Inputs, w: WindowId)
    requires PH.Inv(a) && Unexposed(a, w) && (input.window.Some? ==> input.window.value.id > w)
    ensures Unexposed(P.Arbitrated(a, now, input), w)
  {
    hide Interlock.Updated;
  }

  /** Shown only newer windows, the supervisor stays unexposed. */
  lemma UpdateStaysUnexposed(a: P.Arbiter, now: Millis, input: P.Inputs, w: WindowId)
    requires PH.Inv(a) && Unexposed(a, w) && (input.window.Some? ==> input.window.value.id > w)
    ensures Unexposed(P.Updated(a, now, input), w)
  {
    hide Interlock.Updated, P.Arbitrated, PH.RunInv;
    ArbitrationStaysUnexposed(a, now, input, w);
  }

  lemma StepBars(r: Rt, input: Input, w: WindowId)
    requires Inv(r) && Barring(r, w) && PlanOf(r, input).committed.Valid()
    ensures Barring(Next(r, input), w)
    ensures PlanOf(r, input).inputs.window.Some? ==> PlanOf(r, input).inputs.window.value.id > w
  {
    hide Inv, MakePlan, Core, Advances, PH.Inv, P.Updated;
    var plan := PlanOf(r, input);
    PlanBars(r, input, w);
    if plan.inputs.window.Some? {
      ShownIsSaved(r, input);
    }
    NextRecords(r, input);
    PlanKeepsInv(r, input.observed, input.request, input.completion);
    CoreSupervisor(plan.committed) by { CommittedCore(plan.committed); }
    if plan.committed.supervisor.Some? {
      UpdateStaysUnexposed(plan.committed.supervisor.value, input.observed.now, plan.inputs, w);
    }
  }

  // ------------------------------------------------------ lives of the device

  /** The stored watermark is at or above `w`, or the stored record can no longer be read. */
  predicate Marked(keys: Keys, w: WindowId) {
    && keys.retained.Some?
    && (keys.State().Some? ==> keys.State().value.window.Some? && keys.State().value.window.value.id >= w)
  }

  /** After a power cut: flash remembers `w`, and any runtime started since bars it. */
  ghost predicate Guarded(d: Unit, w: WindowId) {
    Marked(d.keys, w) && (d.rt.Some? ==> Barring(d.rt.value, w))
  }

  /** The stored record holds maintenance, or can no longer be read. */
  predicate HeldKeys(keys: Keys) {
    keys.retained.Some? && (keys.State().Some? ==> keys.State().value.maintenance)
  }

  /** Recovery latched maintenance and no exit has been accepted since. */
  ghost predicate Held(d: Unit) {
    && HeldKeys(d.keys)
    && (d.rt.Some? ==>
          && Latched(d.rt.value) && !ClearInFlight(d.rt.value)
          && d.rt.value.durable.Some? && d.rt.value.durable.value.maintenance)
  }

  /** An exit was accepted but no record clear of maintenance has reached flash. */
  ghost predicate Exiting(d: Unit) {
    && HeldKeys(d.keys)
    && (d.rt.Some? ==> d.rt.value.durable.Some? && d.rt.value.durable.value.maintenance)
  }

  predicate RecoveryBoot(d: Unit, a: Action) {
    a.Start? && Recovers(d.keys)
  }

  ghost predicate TakesOnExit(d: Unit, a: Action) {
    a.Iterate? && d.rt.Some? && AcceptsExit(d.rt.value, Input(a.observed, a.request, d.mailbox))
  }

  /** A record clear of maintenance reaches flash. */
  predicate WritesClear(d: Unit, a: Action) {
    a.Apply? && !a.outcome.FailedBeforeWrite? && d.rt.Some? && ClearInFlight(d.rt.value)
  }

  lemma StartGuarded(d: Unit, a: Action, w: WindowId)
    requires a.Start? && Enabled(d, a) && Sync(d) && Guarded(d, w)
    ensures Guarded(Do(d, a), w) || (RecoveryBoot(d, a) && Held(Do(d, a)))
  {
    hide PH.Inv;
  }

  lemma GuardedStep(d: Unit, a: Action, w: WindowId)
    requires Enabled(d, a) && Sync(d) && Guarded(d, w)
    ensures Guarded(Do(d, a), w) || (RecoveryBoot(d, a) && Held(Do(d, a)))
  {
    match a
    case PowerCut =>
    case Start(_, _) => StartGuarded(d, a, w);
    case Iterate(observed, request) =>
      StepBars(d.rt.value, Input(observed, request, d.mailbox), w);
      hide Inv, MakePlan, Step, Barring;
    case Apply(_) =>
    case Post =>
    case SpoilRecord(_) =>
    case SpoilConfiguration =>
  }

  lemma StartHeld(d: Unit, a: Action)
    requires a.Start? && Enabled(d, a) && Sync(d) && HeldKeys(d.keys)
    ensures Held(Do(d, a))
  {
    hide PH.Inv;
  }

  /** What one iteration does to the durable record, given what flash holds. */
  lemma IterateHeld(d: Unit, a: Action)
    requires a.Iterate? && Enabled(d, a) && Sync(d) && Exiting(d)
    ensures Exiting(Do(d, a))
  {
    var r := d.rt.value;
    StepProgress(r, a.observed, a.request, d.mailbox);
    hide MakePlan, Step, Inv;
  }

  lemma HeldStep(d: Unit, a: Action)
    requires Enabled(d, a) && Sync(d) && Held(d)
    ensures Held(Do(d, a)) || (TakesOnExit(d, a) && Exiting(Do(d, a)))
  {
    match a
    case PowerCut =>
    case Start(_, _) => StartHeld(d, a);
    case Iterate(observed, request) =>
      IterateHeld(d, a);
      var r, input := d.rt.value, Input(observed, request, d.mailbox);
      if !AcceptsExit(r, input) {
        LatchStep(r, input);
        StepProgress(r, observed, request, d.mailbox);
        hide Inv, MakePlan, Step, AcceptsExit, AcksClear;
      }
    case Apply(_) =>
    case Post =>
    case SpoilRecord(_) =>
    case SpoilConfiguration =>
  }

  lemma ExitingStep(d: Unit, a: Action)
    requires Enabled(d, a) && Sync(d) && Exiting(d)
    ensures Exiting(Do(d, a)) || WritesClear(d, a)
  {
    match a
    case PowerCut =>
    case Start(_, _) => StartHeld(d, a);
    case Iterate(_, _) => IterateHeld(d, a);
    case Apply(_) =>
    case Post =>
    case SpoilRecord(_) =>
    case SpoilConfiguration =>
  }

  /** Action `n` leaves an automatic run energised after being shown window `w`. */
  ghost predicate Energises(actions: seq<Action>, ds: seq<Unit>, n: nat, w: WindowId)
    requires n < |actions| && |ds| == |actions| + 1
  {
    && actions[n].Iterate? && ds[n].rt.Some?
    && EnergisesAutomatic(ds[n].rt.value, Input(actions[n].observed, actions[n].request, ds[n].mailbox), w)
  }

  /** A recovery boot at `p` and an exit accepted at `e`, both after `c` and before `n`. */
  ghost predicate ReleasedBetween(actions: seq<Action>, ds: seq<Unit>, c: nat, p: nat, e: nat, n: nat)
    requires n <= |actions| && |ds| == |actions| + 1
  {
    c <= p < e < n && RecoveryBoot(ds[p], actions[p]) && TakesOnExit(ds[e], actions[e])
  }

  /** Since `c`: a recovery boot, then an accepted exit, then a clear record in flash, all before `n`. */
  ghost predicate RecoveredAndReleased(actions: seq<Action>, ds: seq<Unit>, c: nat, n: nat)
    requires n <= |actions| && |ds| == |actions| + 1
  {
    exists p: nat, e: nat, q: nat :: q < n && ReleasedBetween(actions, ds, c, p, e, q) && WritesClear(ds[q], actions[q])
  }

  /** Where the device can be `n` actions into a life in which `w` was exposed before `c`. */
  ghost predicate Outlook(actions: seq<Action>, ds: seq<Unit>, c: nat, n: nat, w: WindowId)
    requires c <= n <= |actions| && |ds| == |actions| + 1
  {
    || Guarded(ds[n], w)
    || (exists p: nat :: c <= p < n && RecoveryBoot(ds[p], actions[p]) && Held(ds[n]))
    || (exists p: nat, e: nat :: ReleasedBetween(actions, ds, c, p, e, n) && Exiting(ds[n]))
    || RecoveredAndReleased(actions, ds, c, n)
  }

  lemma OutlookStep(actions: seq<Action>, ds: seq<Unit>, c: nat, n: nat, w: WindowId)
    requires Life(actions, ds) && c <= n < |actions| && Sync(ds[n])
    requires Outlook(actions, ds, c, n, w)
    ensures Outlook(actions, ds, c, n + 1, w)
  {
    hide Sync, Do, Enabled, Guarded, Held, Exiting, RecoveryBoot, TakesOnExit, WritesClear;
    var d, a := ds[n], actions[n];
    if Guarded(d, w) {
      GuardedStep(d, a, w);
    } else if p: nat :| c <= p < n && RecoveryBoot(ds[p], actions[p]) && Held(d) {
      HeldStep(d, a);
      if !Held(ds[n + 1]) {
        assert ReleasedBetween(actions, ds, c, p, n, n + 1);
      }
    } else if p: nat, e: nat :| ReleasedBetween(actions, ds, c, p, e, n) && Exiting(d) {
      ExitingStep(d, a);
      assert ReleasedBetween(actions, ds, c, p, e, n + 1);
      if !Exiting(ds[n + 1]) {
        assert RecoveredAndReleased(actions, ds, c, n + 1);
      }
    } else {
      var p: nat, e: nat, q: nat :|
        q < n && ReleasedBetween(actions, ds, c, p, e, q) && WritesClear(ds[q], actions[q]);
      assert ReleasedBetween(actions, ds, c, p, e, q);
    }
  }

  lemma {:induction false} OutlookHolds(actions: seq<Action>, ds: seq<Unit>, c: nat, n: nat, w: WindowId)
    requires Life(actions, ds) && Sync(ds[0]) && c <= n <= |actions| && Guarded(ds[c], w)
    ensures Outlook(actions, ds, c, n, w)
    decreases n - c
  {
    hide Sync, Guarded, Held, Exiting, Do, Enabled, RecoveryBoot, TakesOnExit, WritesClear;
    if c < n {
      OutlookHolds(actions, ds, c, n - 1, w);
      LifeSyncs(actions, ds, n - 1);
      OutlookStep(actions, ds, c, n - 1, w);
    }
  }

  /** Within one power cycle flash keeps the watermark of whatever was exposed. */
  ghost predicate Exposed(d: Unit, w: WindowId) {
    && Marked(d.keys, w)
    && (d.rt.Some? ==>
          d.rt.value.durable.Some? && d.rt.value.durable.value.window.Some? && d.rt.value.durable.value.window.value.id >= w)
  }

  lemma EnergisedIsExposed(d: Unit, a: Action, w: WindowId)
    requires Sync(d) && Enabled(d, a) && a.Iterate?
    requires EnergisesAutomatic(d.rt.value, Input(a.observed, a.request, d.mailbox), w)
    ensures Exposed(Do(d, a), w)
  {
    DoSyncs(d, a);
    ExposureIsDurable(d.rt.value, Input(a.observed, a.request, d.mailbox), w);
    hide Inv, MakePlan, Step, EnergisesAutomatic;
  }

  lemma ExposedStep(d: Unit, a: Action, w: WindowId)
    requires Sync(d) && Enabled(d, a) && Exposed(d, w) && d.rt.Some?
    ensures Exposed(Do(d, a), w) && (!a.PowerCut? ==> Do(d, a).rt.Some?)
    ensures a.PowerCut? ==> Guarded(Do(d, a), w)
  {
    if a.Iterate? {
      StepKeepsInv(d.rt.value, a.observed, a.request, d.mailbox);
      hide Inv, MakePlan, Step;
    } else {
      hide PH.Inv;
    }
  }

  /** The first power cut after the exposure leaves the device guarded. */
  lemma {:induction false} CutGuards(actions: seq<Action>, ds: seq<Unit>, i: nat, c: nat, w: WindowId)
    requires Life(actions, ds) && Sync(ds[0]) && i < c < |actions|
    requires Energises(actions, ds, i, w)
    requires actions[c].PowerCut? && forall k :: i < k < c ==> !actions[k].PowerCut?
    ensures Guarded(ds[c + 1], w)
  {
    LifeSyncs(actions, ds, i);
    hide Sync, Exposed, Do, EnergisesAutomatic;
    EnergisedIsExposed(ds[i], actions[i], w);
    assert ds[i + 1].rt.Some? by { EnergisedStarts(ds[i], actions[i]); }
    for k := i + 1 to c
      invariant Exposed(ds[k], w) && ds[k].rt.Some?
    {
      LifeSyncs(actions, ds, k);
      ExposedStep(ds[k], actions[k], w);
    }
    LifeSyncs(actions, ds, c);
    ExposedStep(ds[c], actions[c], w);
  }

  lemma EnergisedStarts(d: Unit, a: Action)
    requires Enabled(d, a) && a.Iterate?
    ensures Do(d, a).rt.Some?
  {
    hide MakePlan, Step;
  }

  lemma HeldIsOff(d: Unit, a: Action)
    requires Sync(d) && Enabled(d, a) && a.Iterate? && Exiting(d)
    ensures Next(d.rt.value, Input(a.observed, a.request, d.mailbox)).Relay() == Off
  {
    var input := Input(a.observed, a.request, d.mailbox);
    IterateHeld(d, a);
    if Next(d.rt.value, input).Relay() == On {
      DurabilityGate(d.rt.value, a.observed, a.request, d.mailbox);
    }
    hide Inv, MakePlan, Step;
  }

  /** An automatic run energised on a guarded device is for a newer occurrence. */
  lemma GuardedRunIsNewer(d: Unit, a: Action, w: WindowId, later: WindowId)
    requires Sync(d) && Enabled(d, a) && a.Iterate? && Guarded(d, w)
    requires EnergisesAutomatic(d.rt.value, Input(a.observed, a.request, d.mailbox), later)
    ensures later > w
    ensures var run := Next(d.rt.value, Input(a.observed, a.request, d.mailbox)).supervisor.value.run;
      run.Some? && run.value.windowId.Some? && run.value.windowId.value > w
  {
    var input := Input(a.observed, a.request, d.mailbox);
    StepBars(d.rt.value, input, w);
    hide Inv, MakePlan, Step;
  }

  /** Action `n` leaves an automatic run energised. */
  ghost predicate EnergisesSome(actions: seq<Action>, ds: seq<Unit>, n: nat)
    requires n < |actions| && |ds| == |actions| + 1
  {
    && actions[n].Iterate? && ds[n].rt.Some?
    && RunsAutomatic(ds[n].rt.value, Input(actions[n].observed, actions[n].request, ds[n].mailbox))
  }

  /** The window iteration `n` shows to the supervisor, if any. */
  ghost function Shown(actions: seq<Action>, ds: seq<Unit>, n: nat): Option<P.Window>
    requires n < |actions| && |ds| == |actions| + 1 && actions[n].Iterate? && ds[n].rt.Some?
  {
    PlanOf(ds[n].rt.value, Input(actions[n].observed, actions[n].request, ds[n].mailbox)).inputs.window
  }

  lemma EnergisedIsShown(actions: seq<Action>, ds: seq<Unit>, n: nat)
    requires Life(actions, ds) && n < |actions| && Sync(ds[n]) && EnergisesSome(actions, ds, n)
    ensures Shown(actions, ds, n).Some? && Energises(actions, ds, n, Shown(actions, ds, n).value.id)
  {
    hide Inv, PlanOf, Next, Do, Enabled;
    AutomaticIsShown(ds[n].rt.value, Input(actions[n].observed, actions[n].request, ds[n].mailbox));
  }

  /** The run held is for an occurrence newer than `w`. */
  predicate RunsNewer(d: Unit, w: WindowId) {
    && d.rt.Some? && d.rt.value.supervisor.Some? && d.rt.value.supervisor.value.run.Some?
    && d.rt.value.supervisor.value.run.value.windowId.Some?
    && d.rt.value.supervisor.value.run.value.windowId.value > w
  }

  /**
   Crash-safe no-rerun: action `i` energises an automatic run while occurrence `w` is
   exposed, power is cut at `c`, and action `j` energises an automatic run again. Then the
   later run and the window it is shown are both newer than `w`, unless, since the first cut
   after `i`, a recovery boot latched maintenance, an exit was accepted after it, and a record
   clear of maintenance then reached flash.
   */
  lemma CrashSafeNoRerun(actions: seq<Action>, ds: seq<Unit>, i: nat, c: nat, j: nat, w: WindowId)
    requires Life(actions, ds) && Sync(ds[0]) && i < c < j < |actions|
    requires Energises(actions, ds, i, w) && actions[c].PowerCut? && EnergisesSome(actions, ds, j)
    ensures || (Shown(actions, ds, j).Some? && Shown(actions, ds, j).value.id > w && RunsNewer(ds[j + 1], w))
            || RecoveredAndReleased(actions, ds, FirstCut(actions, i, c) + 1, j)
  {
    hide Sync, Held, Exiting, RecoveryBoot, TakesOnExit, WritesClear, Guarded, EnergisesAutomatic, RunsAutomatic, PlanOf,
         Do, Enabled;
    var first := FirstCut(actions, i, c);
    CutGuards(actions, ds, i, first, w);
    OutlookHolds(actions, ds, first + 1, j, w);
    LifeSyncs(actions, ds, j);
    EnergisedIsShown(actions, ds, j);
    var later := Shown(actions, ds, j).value.id;
    if Guarded(ds[j], w) {
      GuardedEnergised(actions, ds, j, w, later);
    } else if Exiting(ds[j]) || Held(ds[j]) {
      HeldIsExiting(ds[j]);
      ExitingIsOff(actions, ds, j, later);
    }
  }

  lemma GuardedEnergised(actions: seq<Action>, ds: seq<Unit>, j: nat, w: WindowId, later: WindowId)
    requires Life(actions, ds) && j < |actions| && Sync(ds[j]) && Guarded(ds[j], w)
    requires Energises(actions, ds, j, later)
    ensures later > w && RunsNewer(ds[j + 1], w)
  {
    hide Sync, Guarded, EnergisesAutomatic, MakePlan, Step;
    GuardedRunIsNewer(ds[j], actions[j], w, later);
    assert ds[j + 1].rt == Some(Next(ds[j].rt.value, Input(actions[j].observed, actions[j].request, ds[j].mailbox)));
    EnergisedHasRun(ds[j].rt.value, Input(actions[j].observed, actions[j].request, ds[j].mailbox), later);
  }

  lemma EnergisedHasRun(r: Rt, input: Input, w: WindowId)
    requires EnergisesAutomatic(r, input, w)
    ensures Next(r, input).supervisor.Some? && Next(r, input).supervisor.value.run.Some?
  {
    hide MakePlan, Step;
  }

  lemma ExitingIsOff(actions: seq<Action>, ds: seq<Unit>, j: nat, later: WindowId)
    requires Life(actions, ds) && j < |actions| && Sync(ds[j]) && Exiting(ds[j])
    ensures !Energises(actions, ds, j, later)
  {
    if Energises(actions, ds, j, later) {
      HeldIsOff(ds[j], actions[j]);
    }
    hide Sync, Exiting, MakePlan, Step, Do;
  }

  lemma HeldIsExiting(d: Unit)
    ensures Held(d) ==> Exiting(d)
  {
  }

  function FirstCut(actions: seq<Action>, i: nat, c: nat): (k: nat)
    requires i < c < |actions| && actions[c].PowerCut?
    ensures i < k <= c && actions[k].PowerCut?
    ensures forall m :: i < m < k ==> !actions[m].PowerCut?
    decreases c - i
  {
    if actions[i + 1].PowerCut? then i + 1 else FirstCut(actions, i + 1, c)
  }
}
