/**
 The relay over whole runs of a configured runtime: its supervisor goes through a history of
 supervisor events, one update a step, so the limits proved of such histories bind the runtime.
 */
module RuntimeOutput {
  import opened Base
  import opened Interlock
  import opened Retained
  import opened Runtime
  import opened RuntimeInvariant
  import opened RuntimeRuns
  import opened RuntimeSafety
  import P = Policy
  import PH = PolicyHistory

  /** The step learns that a configuration it is waiting for is stored. */
  predicate Adopts(r: Rt, input: Input) {
    && input.completion.Some? && input.completion.value.succeeded
    && r.pending.Some? && r.pending.value.ticket == input.completion.value.ticket
    && r.pending.value.record.ConfigurationRecord?
  }

  /** The supervisor once the step has adopted what it is to adopt. */
  function Adopted(r: Rt, input: Input): P.Arbiter
    requires r.supervisor.Some?
  {
    if Adopts(r, input) then P.Reconfigured(r.supervisor.value, r.pending.value.record.config.settings)
    else r.supervisor.value
  }

  function UpdateOf(r: Rt, input: Input): (e: PH.Event)
    ensures e.Update? && e.now == input.observed.now
  {
    PH.Update(input.observed.now, PlanOf(r, input).inputs)
  }

  lemma PressKeepsSupervisor(r: Rt, pressed: bool)
    ensures Press(r, pressed).0.supervisor == r.supervisor && Press(r, pressed).0.pending == r.pending
  {
  }

  lemma CompleteAdopts(r: Rt, completion: Completion, now: Millis)
    requires r.supervisor.Some?
    ensures Complete(r, completion, now).0.supervisor == Some(
      if completion.succeeded && r.pending.Some? && r.pending.value.ticket == completion.ticket
         && r.pending.value.record.ConfigurationRecord?
      then P.Reconfigured(r.supervisor.value, r.pending.value.record.config.settings)
      else r.supervisor.value)
  {
    hide P.Reconfigured;
  }

  lemma SettleAdopts(r: Rt, input: Input)
    requires r.supervisor.Some?
    ensures Settle(r, input.observed, input.completion).0.supervisor == Some(Adopted(r, input))
  {
    hide Press, Complete, ObserveUtc, TakeClockUpdate, P.Reconfigured, ClockStep;
    var pressed := Press(r, input.observed.maintenancePressed).0;
    PressKeepsSupervisor(r, input.observed.maintenancePressed);
    if input.completion.Some? {
      CompleteAdopts(pressed, input.completion.value, input.observed.now);
    }
    var completed := if input.completion.Some? then Complete(pressed, input.completion.value, input.observed.now).0 else pressed;
    var seen := ObserveUtc(completed, input.observed.now).0;
    ObserveUtcIsClockStep(completed, input.observed.now);
    ClockStepKeeps(completed, seen);
    TakeClockUpdateIsClockStep(seen, input.observed.clockUpdate, input.observed.now);
    ClockStepKeeps(seen, TakeClockUpdate(seen, input.observed.clockUpdate, input.observed.now));
  }

  lemma AdmitKeepsSupervisor(r: Rt, observed: Observed, request: Option<Request>)
    requires request.Some? ==> !request.value.command.Toggle?
    ensures Admit(r, observed, request).rt.supervisor == r.supervisor
  {
    hide Admit, ClockStep;
    AdmitOutcomes(r, observed, request);
    var a := Admit(r, observed, request);
    if ClockStep(r, a.rt) {
      ClockStepKeeps(r, a.rt);
    }
  }

  /** `n` holds the supervisor of `r` after one update, and one reconfiguration before it where the step adopts. */
  ghost predicate Drives(r: Rt, input: Input, n: Rt) {
    && r.supervisor.Some? && r.supervisor.value.Valid() && Adopted(r, input).Valid()
    && n.supervisor == Some(PH.Apply(Adopted(r, input), UpdateOf(r, input)))
  }

  /** A step drives the supervisor it found by one update, after one reconfiguration where it adopts. */
  lemma StepDrives(r: Rt, input: Input)
    requires Inv(r) && r.supervisor.Some? && PlanOf(r, input).committed.Valid()
    ensures Drives(r, input, Next(r, input))
  {
    var plan := PlanOf(r, input);
    EarlyStages(r, input.observed, input.request, input.completion);
    LateStagesKeep(r, input.observed, input.request, input.completion);
    PlanStages(r, input.observed, input.request, input.completion);
    StepParts(r, input.observed, input.request, input.completion);
    hide Inv, MakePlan, Runtime.Step, Settle, Admit, Commit, Resolve, P.Updated, P.Reconfigured;
    SettleAdopts(r, input);
    AdmitKeepsSupervisor(plan.settled, input.observed, plan.request);
    CommitKeepsDemand(plan.persisted, input.observed.maintenancePressed, plan.defers);
    SupervisorIsValid(r);
  }

  lemma SupervisorIsValid(r: Rt)
    requires Inv(r) && r.supervisor.Some?
    ensures r.supervisor.value.Valid()
  {
  }

  /** The record whose store this step learns has succeeded. */
  ghost predicate Lands(r: Rt, input: Input, record: Record) {
    && input.completion.Some? && input.completion.value.succeeded
    && r.pending == Some(StoreRequest(input.completion.value.ticket, record))
  }

  lemma CompleteLands(r: Rt, input: Input, record: Record)
    requires Lands(r, input, record)
    ensures var c := Complete(r, input.completion.value, input.observed.now).0;
      if record.RetainedRecord? then c.durable == Some(record.state) && c.configuration == r.configuration
      else c.configuration == Some(record.config) && c.durable == r.durable
  {
  }

  lemma AdmitKeepsStored(r: Rt, observed: Observed, request: Option<Request>)
    requires request.Some? ==> !request.value.command.Toggle?
    ensures Admit(r, observed, request).rt.durable == r.durable && Admit(r, observed, request).rt.configuration == r.configuration
  {
    hide Admit, ClockStep;
    AdmitOutcomes(r, observed, request);
    var a := Admit(r, observed, request);
    if ClockStep(r, a.rt) {
      ClockStepKeeps(r, a.rt);
    }
  }

  lemma CommitKeepsStored(r: Rt, pressed: bool, defers: bool)
    ensures var c := Commit(r, pressed, defers).0; c.durable == r.durable && c.configuration == r.configuration
  {
    hide Commit, EnsureStore;
    CommitFrame(r, pressed, defers);
    EnsureStoreOutcomes(r);
  }

  /** A store the step learns has succeeded is, by its end, the durable record or the configuration in force. */
  lemma StoredIsKept(r: Rt, input: Input, record: Record)
    requires Inv(r) && PlanOf(r, input).committed.Valid() && Lands(r, input, record)
    ensures var n := Next(r, input);
      if record.RetainedRecord? then n.durable == Some(record.state) && n.configuration == r.configuration
      else n.configuration == Some(record.config) && n.durable == r.durable
  {
    var plan := PlanOf(r, input);
    EarlyStages(r, input.observed, input.request, input.completion);
    LateStagesKeep(r, input.observed, input.request, input.completion);
    PlanStages(r, input.observed, input.request, input.completion);
    StepParts(r, input.observed, input.request, input.completion);
    hide Inv, MakePlan, Runtime.Step, Settle, Admit, Commit, Resolve;
    SettleLands(r, input, record);
    AdmitKeepsStored(plan.settled, input.observed, plan.request);
    CommitKeepsStored(plan.persisted, input.observed.maintenancePressed, plan.defers);
  }

  lemma SettleLands(r: Rt, input: Input, record: Record)
    requires Lands(r, input, record)
    ensures var s := Settle(r, input.observed, input.completion).0;
      if record.RetainedRecord? then s.durable == Some(record.state) && s.configuration == r.configuration
      else s.configuration == Some(record.config) && s.durable == r.durable
  {
    hide Press, Complete, ObserveUtc, TakeClockUpdate, ClockStep;
    var pressed := Press(r, input.observed.maintenancePressed).0;
    PressKeepsStored(r, input.observed.maintenancePressed);
    CompleteLands(pressed, input, record);
    var completed := Complete(pressed, input.completion.value, input.observed.now).0;
    var seen := ObserveUtc(completed, input.observed.now).0;
    ObserveUtcIsClockStep(completed, input.observed.now);
    ClockStepKeeps(completed, seen);
    TakeClockUpdateIsClockStep(seen, input.observed.clockUpdate, input.observed.now);
    ClockStepKeeps(seen, TakeClockUpdate(seen, input.observed.clockUpdate, input.observed.now));
  }

  lemma PressKeepsStored(r: Rt, pressed: bool)
    ensures var p := Press(r, pressed).0;
      p.durable == r.durable && p.configuration == r.configuration && p.pending == r.pending
  {
  }

  // ------------------------------------------------------------------- history

  ghost predicate Driven(inputs: seq<Input>, rs: seq<Rt>) {
    |rs| == |inputs| + 1 && rs[0].supervisor.Some? && forall i :: 0 <= i < |inputs| ==> Drives(rs[i], inputs[i], rs[i + 1])
  }

  /** Every step of a run from a configured device drives its supervisor. */
  lemma {:induction false} RunDrives(inputs: seq<Input>, rs: seq<Rt>, n: nat)
    requires Steps(inputs, rs) && n <= |inputs| && rs[0].supervisor.Some?
    ensures rs[n].supervisor.Some?
    ensures n < |inputs| ==> Drives(rs[n], inputs[n], rs[n + 1])
  {
    hide Inv, MakePlan, Runtime.Step, Drives;
    StepsInv(inputs, rs, n);
    if n > 0 {
      RunDrives(inputs, rs, n - 1);
      DrivenHasSupervisor(rs[n - 1], inputs[n - 1], rs[n]);
    }
    if n < |inputs| {
      StepDrives(rs[n], inputs[n]);
    }
  }

  lemma DrivenHasSupervisor(r: Rt, input: Input, n: Rt)
    requires Drives(r, input, n)
    ensures n.supervisor.Some?
  {
  }

  lemma AdoptionIsEvent(r: Rt, input: Input)
    requires r.supervisor.Some? && r.supervisor.value.Valid() && Adopts(r, input)
    ensures Adopted(r, input) == PH.Apply(r.supervisor.value, PH.Reconfigure(r.pending.value.record.config.settings))
  {
  }

  function Before(a: P.Arbiter, states: seq<P.Arbiter>, i: nat): P.Arbiter
    requires i <= |states|
  {
    if i == 0 then a else states[i - 1]
  }

  predicate LeadsAt(a: P.Arbiter, events: seq<PH.Event>, states: seq<P.Arbiter>, i: nat)
    requires i < |events| == |states|
  {
    Before(a, states, i).Valid() && states[i] == PH.Apply(Before(a, states, i), events[i])
  }

  /** `events` lead from `a` through `states`. */
  ghost predicate Leads(a: P.Arbiter, events: seq<PH.Event>, states: seq<P.Arbiter>) {
    |events| == |states| && forall i: nat :: i < |events| ==> LeadsAt(a, events, states, i)
  }

  lemma LeadsOn(a: P.Arbiter, events: seq<PH.Event>, states: seq<P.Arbiter>, more: seq<PH.Event>, next: seq<P.Arbiter>)
    requires Leads(a, events, states) && Leads(Before(a, states, |states|), more, next)
    ensures Leads(a, events + more, states + next)
  {
    hide PH.Apply;
    var es, ss := events + more, states + next;
    forall i: nat | i < |es|
      ensures LeadsAt(a, es, ss, i)
    {
      if i < |events| {
        assert LeadsAt(a, events, states, i);
        assert Before(a, ss, i) == Before(a, states, i);
      } else {
        var k := i - |events|;
        assert LeadsAt(Before(a, states, |states|), more, next, k);
        assert Before(a, ss, i) == Before(Before(a, states, |states|), next, k);
      }
    }
  }

  /** One step's events, and the supervisor after each. */
  function StepEvents(r: Rt, input: Input): seq<PH.Event> {
    (if Adopts(r, input) then [PH.Reconfigure(r.pending.value.record.config.settings)] else []) + [UpdateOf(r, input)]
  }

  ghost function StepStates(r: Rt, input: Input, n: Rt): seq<P.Arbiter>
    requires Drives(r, input, n)
  {
    (if Adopts(r, input) then [Adopted(r, input)] else []) + [n.supervisor.value]
  }

  lemma StepLeads(r: Rt, input: Input, n: Rt)
    requires Drives(r, input, n)
    ensures Leads(r.supervisor.value, StepEvents(r, input), StepStates(r, input, n))
  {
    hide UpdateOf, PH.Apply, P.Reconfigured;
    if Adopts(r, input) {
      AdoptionIsEvent(r, input);
    }
  }

  /** The events of the first `n` steps. */
  ghost function EventsOf(inputs: seq<Input>, rs: seq<Rt>, n: nat): seq<PH.Event>
    requires n <= |inputs| < |rs|
  {
    if n == 0 then [] else EventsOf(inputs, rs, n - 1) + StepEvents(rs[n - 1], inputs[n - 1])
  }

  ghost function StatesOf(inputs: seq<Input>, rs: seq<Rt>, n: nat): (states: seq<P.Arbiter>)
    requires Driven(inputs, rs) && n <= |inputs|
    ensures |states| == |EventsOf(inputs, rs, n)|
  {
    if n == 0 then [] else StatesOf(inputs, rs, n - 1) + StepStates(rs[n - 1], inputs[n - 1], rs[n])
  }

  lemma NothingLeads(a: P.Arbiter)
    ensures Leads(a, [], [])
  {
  }

  lemma {:induction false} RunLeads(inputs: seq<Input>, rs: seq<Rt>, n: nat)
    requires Driven(inputs, rs) && n <= |inputs|
    ensures rs[n].supervisor.Some?
    ensures var states := StatesOf(inputs, rs, n);
      && Leads(rs[0].supervisor.value, EventsOf(inputs, rs, n), states)
      && (n == 0 ==> states == [])
      && (n > 0 ==> states != [] && states[|states| - 1] == rs[n].supervisor.value)
  {
    hide Leads, StepEvents, UpdateOf, PH.Apply, Adopts, Adopted;
    if n == 0 {
      NothingLeads(rs[0].supervisor.value);
    } else {
      RunLeads(inputs, rs, n - 1);
      assert Drives(rs[n - 1], inputs[n - 1], rs[n]);
      StepLeads(rs[n - 1], inputs[n - 1], rs[n]);
      LeadsOn(rs[0].supervisor.value, EventsOf(inputs, rs, n - 1), StatesOf(inputs, rs, n - 1),
              StepEvents(rs[n - 1], inputs[n - 1]), StepStates(rs[n - 1], inputs[n - 1], rs[n]));
    }
  }

  /**
   The supervisor of every run from the boot of a configured device goes through a supervisor
   history, whose state after the events of the first `n` steps is the one after step `n`.
   */
  lemma RunIsHistory(inputs: seq<Input>, rs: seq<Rt>, settings: P.Settings, start: Millis)
    requires Steps(inputs, rs) && rs[0].supervisor == Some(P.Initial(settings, start))
    ensures Driven(inputs, rs)
    ensures PH.History(settings, start, EventsOf(inputs, rs, |inputs|),
                       [P.Initial(settings, start)] + StatesOf(inputs, rs, |inputs|))
  {
    forall i | 0 <= i < |inputs|
      ensures Drives(rs[i], inputs[i], rs[i + 1])
    {
      RunDrives(inputs, rs, i);
    }
    hide Steps, Drives, StepEvents, PH.Apply, P.Initial;
    RunLeads(inputs, rs, |inputs|);
    LedIsHistory(settings, start, EventsOf(inputs, rs, |inputs|), StatesOf(inputs, rs, |inputs|));
  }

  lemma LedIsHistory(settings: P.Settings, start: Millis, events: seq<PH.Event>, states: seq<P.Arbiter>)
    requires Leads(P.Initial(settings, start), events, states)
    ensures PH.History(settings, start, events, [P.Initial(settings, start)] + states)
  {
    hide PH.Apply, P.Initial;
    var all := [P.Initial(settings, start)] + states;
    forall i | 0 <= i < |events|
      ensures all[i].Valid() && all[i + 1] == PH.Apply(all[i], events[i])
    {
      assert LeadsAt(P.Initial(settings, start), events, states, i);
      assert all[i + 1] == states[i] && (i > 0 ==> all[i] == states[i - 1]);
    }
  }

  // -------------------------------------------------------------- what it carries

  /** Every state of the history of the first `n` steps, the first one before any event. */
  ghost function AllOf(inputs: seq<Input>, rs: seq<Rt>, n: nat): (states: seq<P.Arbiter>)
    requires Driven(inputs, rs) && n <= |inputs|
    ensures |states| == |EventsOf(inputs, rs, n)| + 1
  {
    [rs[0].supervisor.value] + StatesOf(inputs, rs, n)
  }

  /** How many events the first `n` steps are. */
  ghost function Place(inputs: seq<Input>, rs: seq<Rt>, n: nat): nat
    requires n <= |inputs| < |rs|
  {
    |EventsOf(inputs, rs, n)|
  }

  lemma {:induction false} PlacesGrow(inputs: seq<Input>, rs: seq<Rt>, i: nat, n: nat)
    requires i <= n <= |inputs| < |rs|
    ensures n - i <= Place(inputs, rs, n) - Place(inputs, rs, i)
  {
    hide StepEvents, UpdateOf;
    if i < n {
      PlacesGrow(inputs, rs, i, n - 1);
      StepHasEvents(rs[n - 1], inputs[n - 1]);
    }
  }

  lemma StepHasEvents(r: Rt, input: Input)
    ensures |StepEvents(r, input)| >= 1 && StepEvents(r, input)[|StepEvents(r, input)| - 1] == UpdateOf(r, input)
  {
    hide UpdateOf;
  }

  /** The history of a longer run begins with that of a shorter one. */
  lemma {:induction false} Begins(inputs: seq<Input>, rs: seq<Rt>, i: nat, n: nat)
    requires Driven(inputs, rs) && i <= n <= |inputs|
    ensures EventsOf(inputs, rs, i) <= EventsOf(inputs, rs, n)
    ensures AllOf(inputs, rs, i) <= AllOf(inputs, rs, n)
  {
    hide StepEvents, StepStates, Drives;
    if i < n {
      Begins(inputs, rs, i, n - 1);
      assert Drives(rs[n - 1], inputs[n - 1], rs[n]);
      assert AllOf(inputs, rs, n) == AllOf(inputs, rs, n - 1) + StepStates(rs[n - 1], inputs[n - 1], rs[n]);
    }
  }

  /** The event and the two states of step `i`'s update. */
  lemma UpdatePlace(inputs: seq<Input>, rs: seq<Rt>, i: nat, n: nat)
    requires Driven(inputs, rs) && i < n <= |inputs|
    ensures rs[i].supervisor.Some? && rs[i + 1].supervisor.Some?
    ensures var all, k := AllOf(inputs, rs, n), Place(inputs, rs, i + 1);
      && 0 < k < |all|
      && EventsOf(inputs, rs, n)[k - 1] == UpdateOf(rs[i], inputs[i])
      && all[k - 1] == Adopted(rs[i], inputs[i]) && all[k] == rs[i + 1].supervisor.value
  {
    hide StepEvents, StepStates, Drives, Adopted, StatesOf, EventsOf, UpdateOf;
    UpdateLast(inputs, rs, i);
    Begins(inputs, rs, i + 1, n);
  }

  lemma UpdateLast(inputs: seq<Input>, rs: seq<Rt>, i: nat)
    requires Driven(inputs, rs) && i < |inputs|
    ensures rs[i].supervisor.Some? && rs[i + 1].supervisor.Some?
    ensures var all, events := AllOf(inputs, rs, i + 1), EventsOf(inputs, rs, i + 1);
      && |events| > 0 && events[|events| - 1] == UpdateOf(rs[i], inputs[i])
      && all[|events| - 1] == Adopted(rs[i], inputs[i]) && all[|events|] == rs[i + 1].supervisor.value
  {
    assert Drives(rs[i], inputs[i], rs[i + 1]);
    hide UpdateOf, PH.Apply, P.Reconfigured, Leads, Adopts;
    StepHasEvents(rs[i], inputs[i]);
    RunLeads(inputs, rs, i);
    RunLeads(inputs, rs, i + 1);
  }

  /** While the relay is the same after every step, it is the same in every state between. */
  lemma {:induction false} RelayBetween(inputs: seq<Input>, rs: seq<Rt>, relay: Relay, i: nat, n: nat, m: nat)
    requires Driven(inputs, rs) && i <= n <= m <= |inputs|
    requires forall k :: i <= k <= n ==> rs[k].Relay() == relay
    ensures Place(inputs, rs, i) <= Place(inputs, rs, n) < |AllOf(inputs, rs, m)|
    ensures forall k :: Place(inputs, rs, i) <= k <= Place(inputs, rs, n) ==> AllOf(inputs, rs, m)[k].interlock.Relay() == relay
  {
    hide StepEvents, StepStates, Drives, UpdateOf, Adopted;
    Begins(inputs, rs, n, m);
    PlacesGrow(inputs, rs, i, n);
    StatePlace(inputs, rs, n, m);
    if i < n {
      RelayBetween(inputs, rs, relay, i, n - 1, m);
      UpdatePlace(inputs, rs, n - 1, m);
      AtMostTwo(inputs, rs, n - 1);
      AdoptionKeepsRelay(rs[n - 1], inputs[n - 1]);
    }
  }

  lemma StatePlace(inputs: seq<Input>, rs: seq<Rt>, n: nat, m: nat)
    requires Driven(inputs, rs) && n <= m <= |inputs|
    ensures Place(inputs, rs, n) < |AllOf(inputs, rs, m)|
    ensures rs[n].supervisor == Some(AllOf(inputs, rs, m)[Place(inputs, rs, n)])
  {
    RunLeads(inputs, rs, n);
    Begins(inputs, rs, n, m);
    hide Leads, StatesOf, EventsOf, Drives;
  }

  lemma AtMostTwo(inputs: seq<Input>, rs: seq<Rt>, n: nat)
    requires n < |inputs| < |rs|
    ensures Place(inputs, rs, n) + 1 <= Place(inputs, rs, n + 1) <= Place(inputs, rs, n) + 2
  {
    hide UpdateOf;
  }

  lemma AdoptionKeepsRelay(r: Rt, input: Input)
    requires r.supervisor.Some?
    ensures Adopted(r, input).interlock.Relay() == r.Relay()
  {
  }

  /** The settings a step's update runs under are those of the configuration it leaves. */
  lemma SettingsInForce(r: Rt, input: Input, n: Rt)
    requires Drives(r, input, n) && Inv(n)
    ensures n.configuration.Some? && n.configuration.value.settings == Adopted(r, input).settings
  {
    SettingsKept(Adopted(r, input), input.observed.now, PlanOf(r, input).inputs);
    hide MakePlan, P.Updated;
  }

  lemma HighWaterCovers(settings: P.Settings, start: Millis, events: seq<PH.Event>, states: seq<P.Arbiter>, k: nat)
    requires PH.History(settings, start, events, states) && 0 < k <= |events| && events[k - 1].Update?
    ensures PH.HighWater(start, events, states, k) >= events[k - 1].now
  {
    assert PH.ControlEvents(events, states)[k - 1] == PH.ControlEvent(states[k - 1], events[k - 1]);
    hide P.Arbitrated;
  }

  /**
   The relay rests: over every run from the boot of a configured device, a step that turns the
   relay on comes at least the minimum-off time of the configuration now in force after the
   step that last turned it off, whatever commands, faults, maintenance and saves lie between.
   */
  lemma RelayRests(inputs: seq<Input>, rs: seq<Rt>, settings: P.Settings, start: Millis, i: nat, j: nat)
    requires Steps(inputs, rs) && rs[0].supervisor == Some(P.Initial(settings, start))
    requires i < j < |inputs|
    requires rs[i].Relay() == On && (forall k :: i < k <= j ==> rs[k].Relay() == Off) && rs[j + 1].Relay() == On
    ensures rs[j + 1].configuration.Some?
    ensures inputs[j].observed.now - inputs[i].observed.now
         >= rs[j + 1].configuration.value.settings.interlock.timing.minimumOffMs
  {
    hide Steps, Inv, PH.History, UpdateOf, PH.Apply, Adopts, P.Reconfigured, EventsOf, StatesOf, Place, Drives, P.Initial;
    RunIsHistory(inputs, rs, settings, start);
    StepsInv(inputs, rs, j + 1);
    var m := |inputs|;
    var events, all := EventsOf(inputs, rs, m), AllOf(inputs, rs, m);
    var k, n := Place(inputs, rs, i + 1), Place(inputs, rs, j + 1) - 1;
    UpdatePlace(inputs, rs, i, m);
    UpdatePlace(inputs, rs, j, m);
    RelayBetween(inputs, rs, Off, i + 1, j, m);
    PlacesGrow(inputs, rs, i + 1, j);
    AtMostTwo(inputs, rs, j);
    AdoptionKeepsRelay(rs[i], inputs[i]);
    AdoptionKeepsRelay(rs[j], inputs[j]);
    SettingsInForce(rs[j], inputs[j], rs[j + 1]);
    PH.TurnOnRespectsMinimumOff(settings, start, events, all, k, n);
    HighWaterCovers(settings, start, events, all, k);
  }

  /**
   The run limit: while every step from `i` to `j` leaves the relay on, step `j` lies within
   the run limit of the configuration in force at step `i`, however often the switch is used.
   */
  lemma EnergisedWithinLimit(inputs: seq<Input>, rs: seq<Rt>, settings: P.Settings, start: Millis, i: nat, j: nat)
    requires Steps(inputs, rs) && rs[0].supervisor == Some(P.Initial(settings, start))
    requires i <= j < |inputs| && forall k :: i < k <= j + 1 ==> rs[k].Relay() == On
    ensures rs[i + 1].configuration.Some?
    ensures inputs[j].observed.now < inputs[i].observed.now + rs[i + 1].configuration.value.settings.maxRunMs
  {
    hide Steps, Inv, PH.History, UpdateOf, PH.Apply, Adopts, P.Reconfigured, EventsOf, StatesOf, Place, Drives, P.Initial;
    RunIsHistory(inputs, rs, settings, start);
    StepsInv(inputs, rs, i + 1);
    var m := |inputs|;
    var events, all := EventsOf(inputs, rs, m), AllOf(inputs, rs, m);
    var k, n := Place(inputs, rs, i + 1), Place(inputs, rs, j + 1);
    UpdatePlace(inputs, rs, i, m);
    UpdatePlace(inputs, rs, j, m);
    RelayBetween(inputs, rs, On, i + 1, j + 1, m);
    SettingsInForce(rs[i], inputs[i], rs[i + 1]);
    PH.StretchIsBounded(settings, start, events, all, k - 1, n - 1);
  }
}
