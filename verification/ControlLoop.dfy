/** One iteration of the output owner: observe the gate, step the runtime, write the relay, acknowledge. */
module ControlLoop {
  import opened Base
  import opened Interlock
  import opened Retained
  import opened Runtime
  import opened RuntimeInvariant
  import opened RuntimeMachine
  import D = Dispatch
  import FG = FlashGate
  import IH = IngressHistory
  import IN = Ingress
  import P = Policy
  import RC = RuntimeCalendar
  import RO = RuntimeOutput
  import RS = RuntimeSafety
  import RR = RuntimeRuns

  datatype Sample = Sample(revision: u32, reading: Reading, powerFault: bool, deadline: Option<Millis>)

  /**
   What the hardware and the rest of the firmware present to one iteration. The maintenance
   input is read twice: before a start that has not happened yet, and for the step.
   */
  datatype Presented = Presented(
    now: Millis,
    boot: Option<(Option<Device>, Option<RetainedState>)>,
    sample: Sample,
    pressedAtStart: bool,
    pressed: bool,
    supplyGood: bool,
    sensorGood: bool,
    clockUpdate: ClockUpdate,
    completion: Option<Completion>)

  /** A latched power fault or an overrun transaction makes the sample a bus fault. */
  function EffectiveSample(s: Sample, now: Millis): Reading {
    if s.powerFault || (s.deadline.Some? && now >= s.deadline.value) then Invalid(Bus) else s.reading
  }

  /**
   A sample the relay may be high on: the power fault is not latched, any transaction deadline
   still lies ahead, and the level is fresh and was measured under this calibrated configuration.
   */
  predicate Measured(s: Sample, now: Millis, config: Option<Device>) {
    && !s.powerFault
    && (s.deadline.Some? ==> now < s.deadline.value)
    && s.reading.Valid? && s.reading.observedAt <= now
    && config.Some? && config.value.calibrated && config.value.revision == s.revision
    && now - s.reading.observedAt <= config.value.settings.interlock.maxSampleAgeMs
  }

  /** Boot records are published and a runtime can be made of them. */
  predicate Boots(p: Presented) {
    p.boot.Some? && NewRuntime(p.boot.value.0, p.boot.value.1, p.now).Ok?
  }

  /** What the step of one iteration observes. */
  function Seen(p: Presented, inhibited: bool, button: bool, off: bool): Observed {
    Observed(p.now, p.sample.revision, EffectiveSample(p.sample, p.now),
             if !inhibited && p.supplyGood && p.sensorGood then P.Allowed else P.ForcedOff,
             button, off, p.clockUpdate)
  }

  /** The step of a started runtime on the command its ingress holds next. */
  ghost function Stepped(r: Rt, d: IN.Desk, p: Presented, inhibited: bool, button: bool): Outcome
    requires Inv(r)
  {
    var (_, off, request) := IN.Taken(d);
    var observed := Seen(p, inhibited, button, off);
    StepFacts(r, observed, request, p.completion);
    Runtime.Step(r, observed, request, p.completion)
  }

  function HandedBack(d: IN.Desk, reply: Option<Reply>): IN.Desk {
    if reply.Some? then IN.Completed(d, reply.value) else d
  }

  /** One turn of runtime `r` and desk `d`: take, step, and hand both replies back. */
  ghost function Turned(r: Rt, d: IN.Desk, p: Presented, inhibited: bool, button: bool): (Rt, IN.Desk)
    requires Inv(r)
  {
    var out := Stepped(r, d, p, inhibited, button);
    (out.rt, HandedBack(HandedBack(IN.Taken(d).0, out.commandReply), out.completedReply))
  }

  function Booted(p: Presented): Rt
    requires Boots(p)
  {
    NewRuntime(p.boot.value.0, p.boot.value.1, p.now).value
  }

  /** What one iteration makes of a runtime that may not have started and of its desk. */
  ghost predicate Iterates(r: Option<Rt>, d: IN.Desk, p: Presented, inhibited: bool, remembered: bool,
                           n: Option<Rt>, e: IN.Desk)
  {
    if r.Some? then
      n.Some? && Inv(r.value) && (n.value, e) == Turned(r.value, d, p, inhibited, p.pressed || remembered)
    else if Boots(p) then
      && n.Some? && Inv(Booted(p))
      && (n.value, e) == Turned(Booted(p), d, p, inhibited, p.pressed || remembered || p.pressedAtStart)
    else n.None? && e == d
  }

  /** In maintenance now, and by the record wherever there is one. */
  predicate HoldsMaintenance(r: Rt) {
    r.maintenance && (r.desired.Some? ==> r.desired.value.maintenance)
  }

  class OutputOwner {
    const gate: FG.GateCell
    const ingress: IN.Mailbox
    var runtime: Owner?
    var relay: Relay
    var bootMaintenance: bool

    ghost predicate Valid()
      reads this, gate, ingress, runtime, if runtime == null then {} else runtime.Repr()
    {
      && gate.Value().Valid()
      && (runtime != null ==>
            && Inv(runtime.Value())
            && gate !in runtime.Repr() && ingress !in runtime.Repr() && this !in runtime.Repr())
    }

    /** The value of the runtime, once it has started. */
    ghost function Held(): Option<Rt>
      reads this, runtime, if runtime == null then {} else runtime.Repr()
    {
      if runtime == null then None else Some(runtime.Value())
    }

    /** Dispatched work is exactly what the runtime still has to answer. */
    ghost predicate Linked()
      reads this, ingress, runtime, if runtime == null then {} else runtime.Repr()
    {
      if runtime == null then IH.Inv(ingress.Value()) && D.Out(ingress.Value()) == multiset{}
      else D.Linked(D.Loop(ingress.Value(), runtime.Value(), D.Free))
    }

    /** The same in mid-iteration, with the control loop still holding `hand`. */
    ghost predicate LinkedHolding(hand: D.Hand)
      reads this, ingress, runtime, if runtime == null then {} else runtime.Repr()
    {
      if runtime == null then Linked() && hand == D.Answering([])
      else D.Linked(D.Loop(ingress.Value(), runtime.Value(), hand))
    }

    constructor (gate: FG.GateCell, ingress: IN.Mailbox)
      requires gate.Value().Valid()
      requires IH.Inv(ingress.Value()) && D.Out(ingress.Value()) == multiset{}
      ensures Valid() && relay == Off && runtime == null && this.gate == gate && this.ingress == ingress
      ensures Linked()
    {
      this.gate, this.ingress := gate, ingress;
      runtime, relay, bootMaintenance := null, Off, false;
    }

    /**
     The runtime starts exactly once boot records are published and agree; a button held
     before that is remembered.
     */
    method TryStart(p: Presented)
      requires Valid() && Linked()
      modifies this`runtime, this`bootMaintenance
      ensures Valid() && Linked()
      ensures old(runtime) != null ==> runtime == old(runtime) && bootMaintenance == old(bootMaintenance)
      ensures old(runtime) == null ==> bootMaintenance == (old(bootMaintenance) || p.pressedAtStart)
      ensures old(runtime) == null ==> (runtime != null <==> Boots(p))
      ensures old(runtime) == null && runtime != null ==>
        && fresh(runtime.Repr())
        && Inv(runtime.Value()) && runtime.Value() == Booted(p)
        && runtime.Value().Relay() == Off
      ensures unchanged(gate) && unchanged(ingress)
    {
      if runtime == null {
        if p.pressedAtStart {
          bootMaintenance := true;
        }
        if p.boot.Some? {
          var started := Owner.Open(p.boot.value.0, p.boot.value.1, p.now);
          if started.Ok? {
            NewRuntimeInv(p.boot.value.0, p.boot.value.1, p.now);
            runtime := started.value;
            D.BootIsLinked(ingress.Value(), runtime.Value(), p.boot.value.0, p.boot.value.1, p.now);
          }
        }
      }
    }

    /** Takes the pending Off and the next command. */
    method Fetch() returns (forceOff: bool, request: Option<Request>)
      requires Valid() && runtime != null && Linked()
      modifies ingress
      ensures Valid() && LinkedHolding(D.Asked(forceOff, request))
      ensures (ingress.Value(), forceOff, request) == IN.Taken(old(ingress.Value()))
      ensures forceOff == old(ingress.off) && !ingress.off
      ensures runtime.Value() == old(runtime.Value()) && runtime.Repr() == old(runtime.Repr())
      ensures gate.Value() == old(gate.Value())
    {
      hide Inv, D.Linked, IN.Taken;
      TakenOff(ingress.Value());
      D.TakeKeepsLink(D.Loop(ingress.Value(), runtime.Value(), D.Free));
      forceOff, request := ingress.Take();
    }

    /** Takes the next command and steps the runtime. */
    method StepRuntime(p: Presented, inhibited: bool)
      returns (on: bool, commandReply: Option<Reply>, completedReply: Option<Reply>)
      requires Valid() && runtime != null && Linked()
      modifies runtime.Repr(), ingress, this`bootMaintenance
      ensures LinkedHolding(D.Answering(D.Listed(commandReply) + D.Listed(completedReply)))
      ensures Valid() && runtime == old(runtime) && fresh(runtime.Repr() - old(runtime.Repr()))
      ensures gate.Value() == old(gate.Value())
      ensures on <==> runtime.Value().Relay() == On
      ensures on ==>
        && RS.Gate(runtime.Value())
        && !inhibited && p.supplyGood && p.sensorGood
        && !p.pressed && !old(bootMaintenance) && !old(ingress.off)
        && Measured(p.sample, p.now, runtime.Value().configuration)
      ensures p.pressed || old(bootMaintenance) ==> HoldsMaintenance(runtime.Value())
      ensures !ingress.off && !bootMaintenance
      ensures Outcome(runtime.Value(), commandReply, completedReply)
        == Stepped(old(runtime.Value()), old(ingress.Value()), p, inhibited, p.pressed || old(bootMaintenance))
      ensures ingress.Value() == IN.Taken(old(ingress.Value())).0
    {
      hide Inv, RS.Gate, D.Linked, HoldsMaintenance;
      EffectiveMeans(p.sample, p.now);
      hide EffectiveSample, Measured, MeasuredFor, MakePlan, Runtime.Step, IN.Taken;
      var forceOff, request := Fetch();
      var hardware := if !inhibited && p.supplyGood && p.sensorGood then P.Allowed else P.ForcedOff;
      var observed := Observed(p.now, p.sample.revision, EffectiveSample(p.sample, p.now), hardware,
                               p.pressed || bootMaintenance, forceOff, p.clockUpdate);
      commandReply, completedReply := Advance(observed, request, p.completion);
      bootMaintenance := false;
      on := runtime.IsOn();
    }

    method StepIfStarted(p: Presented, inhibited: bool)
      returns (on: bool, commandReply: Option<Reply>, completedReply: Option<Reply>)
      requires Valid() && Linked()
      modifies ingress, this`bootMaintenance, if runtime == null then {} else runtime.Repr()
      ensures Valid() && runtime == old(runtime) && gate.Value() == old(gate.Value())
      ensures LinkedHolding(D.Answering(D.Listed(commandReply) + D.Listed(completedReply)))
      ensures on ==>
        && runtime != null && runtime.Value().Relay() == On && RS.Gate(runtime.Value())
        && !inhibited && p.supplyGood && p.sensorGood
        && !p.pressed && !old(bootMaintenance) && !old(ingress.off)
        && Measured(p.sample, p.now, runtime.Value().configuration)
      ensures bootMaintenance == (runtime == null && old(bootMaintenance))
      ensures runtime != null ==>
        && Outcome(runtime.Value(), commandReply, completedReply)
           == Stepped(old(runtime.Value()), old(ingress.Value()), p, inhibited, p.pressed || old(bootMaintenance))
        && on == (runtime.Value().Relay() == On)
        && ingress.Value() == IN.Taken(old(ingress.Value())).0
      ensures runtime == null ==> ingress.Value() == old(ingress.Value()) && commandReply.None? && completedReply.None?
      ensures runtime != null && (p.pressed || old(bootMaintenance)) ==> HoldsMaintenance(runtime.Value())
    {
      hide Inv, RS.Gate, HoldsMaintenance, D.Linked, Measured;
      on, commandReply, completedReply := false, None, None;
      if runtime != null {
        on, commandReply, completedReply := StepRuntime(p, inhibited);
      }
    }

    method Advance(observed: Observed, request: Option<Request>, completion: Option<Completion>)
      returns (commandReply: Option<Reply>, completedReply: Option<Reply>)
      requires Valid() && runtime != null && LinkedHolding(D.Asked(observed.forceOff, request))
      modifies runtime.Repr()
      ensures LinkedHolding(D.Answering(D.Listed(commandReply) + D.Listed(completedReply)))
      ensures Valid() && fresh(runtime.Repr() - old(runtime.Repr()))
      ensures MakePlan(old(runtime.Value()), observed, request, completion).committed.Valid()
      ensures Outcome(runtime.Value(), commandReply, completedReply)
        == Runtime.Step(old(runtime.Value()), observed, request, completion)
      ensures runtime.Value().Relay() == On ==>
        && RS.Gate(runtime.Value())
        && observed.hardware == P.Allowed && !observed.maintenancePressed && !observed.forceOff
        && MeasuredFor(observed, runtime.Value().configuration)
      ensures observed.maintenancePressed ==> HoldsMaintenance(runtime.Value())
    {
      hide Inv, MakePlan, Runtime.Step, RS.Gate, D.Linked, HoldsMaintenance, MeasuredFor;
      D.StepLinks(D.Loop(ingress.Value(), runtime.Value(), D.Asked(observed.forceOff, request)), observed, completion);
      StepFacts(runtime.Value(), observed, request, completion);
      commandReply, completedReply := runtime.Step(observed, request, completion);
    }

    /** Hands a reply back to its mailbox slot. */
    method Deliver(reply: Option<Reply>, ghost rest: seq<Reply>)
      requires Valid() && LinkedHolding(D.Answering(D.Listed(reply) + rest))
      requires runtime == null ==> reply.None?
      modifies ingress
      ensures Valid() && LinkedHolding(D.Answering(rest))
      ensures ingress.Value() == HandedBack(old(ingress.Value()), reply)
      ensures ingress.off == old(ingress.off) && gate.Value() == old(gate.Value())
      ensures runtime != null ==> runtime.Value() == old(runtime.Value()) && runtime.Repr() == old(runtime.Repr())
    {
      hide Inv, D.Linked, IN.Completed;
      if reply.Some? {
        D.ReturnLinks(ingress.Value(), runtime.Value(), reply.value, rest);
        CompletedKeepsOff(ingress.Value(), reply.value);
        ingress.Complete(reply.value);
      } else {
        assert D.Listed(reply) + rest == rest;
      }
    }

    method DeliverBoth(commandReply: Option<Reply>, completedReply: Option<Reply>)
      requires Valid() && LinkedHolding(D.Answering(D.Listed(commandReply) + D.Listed(completedReply)))
      modifies ingress
      ensures Valid() && Linked() && gate.Value() == old(gate.Value())
      ensures ingress.Value() == HandedBack(HandedBack(old(ingress.Value()), commandReply), completedReply)
      ensures runtime != null ==> runtime.Value() == old(runtime.Value()) && runtime.Repr() == old(runtime.Repr())
    {
      hide Inv, D.Linked;
      Deliver(commandReply, D.Listed(completedReply));
      assert D.Listed(completedReply) + [] == D.Listed(completedReply);
      Deliver(completedReply, []);
      if runtime != null {
        D.DoneLinks(ingress.Value(), runtime.Value());
      }
    }

    /** Writes the relay, hands out the replies and, last of all, acknowledges the observed ticket. */
    method Publish(on: bool, ticket: Option<FG.Ticket>, commandReply: Option<Reply>, completedReply: Option<Reply>)
      requires Valid() && ticket == gate.active && (on ==> !gate.Value().Inhibited())
      requires LinkedHolding(D.Answering(D.Listed(commandReply) + D.Listed(completedReply)))
      requires runtime == null ==> commandReply.None? && completedReply.None?
      modifies this`relay, gate, ingress
      ensures Valid() && Linked() && relay == if on then On else Off
      ensures ingress.Value() == HandedBack(HandedBack(old(ingress.Value()), commandReply), completedReply)
      ensures runtime != null ==> runtime.Value() == old(runtime.Value()) && runtime.Repr() == old(runtime.Repr())
      ensures gate.Value() == if old(gate.Value()).active.Some?
        then FG.Acknowledged(old(gate.Value()), old(gate.Value()).active.value).0 else old(gate.Value())
      ensures forall t :: gate.Value().MayAccess(t) ==> relay == Off
    {
      hide Inv, D.Linked;
      relay := if on then On else Off;
      DeliverBoth(commandReply, completedReply);
      if ticket.Some? {
        var _ := gate.AcknowledgeOff(ticket.value);
      }
    }

    /**
     One whole iteration. The relay is high afterwards only if the gate was free, the supply,
     sensor and button allow it, no Off was waiting, the sample is usable and fresh, and the
     runtime passes its durability gate; and access to flash is granted only while the relay is low. A button seen now or
     remembered from before the start puts the runtime's first step in maintenance. Every
     request dispatched is owed exactly one answer by the runtime, before and after.
     */
    method Iterate(p: Presented)
      requires Valid() && Linked()
      modifies this, gate, ingress, if runtime == null then {} else runtime.Repr()
      ensures Valid() && Linked()
      ensures relay == On ==>
        && !old(gate.Value()).Inhibited()
        && runtime != null && runtime.Value().Relay() == On && RS.Gate(runtime.Value())
        && p.supplyGood && p.sensorGood && !old(bootMaintenance) && !old(ingress.off)
        && !p.pressed && (old(runtime) == null ==> !p.pressedAtStart)
        && Measured(p.sample, p.now, runtime.Value().configuration)
      ensures relay == On <==> (!old(gate.Value()).Inhibited() && runtime != null && runtime.Value().Relay() == On)
      ensures Iterates(old(Held()), old(ingress.Value()), p, old(gate.Value()).Inhibited(), old(bootMaintenance),
                       Held(), ingress.Value())
      ensures runtime != null <==> old(runtime) != null || Boots(p)
      ensures bootMaintenance == (runtime == null && (old(bootMaintenance) || p.pressedAtStart))
      ensures runtime != null && (old(bootMaintenance) || p.pressed || (old(runtime) == null && p.pressedAtStart)) ==>
        HoldsMaintenance(runtime.Value())
      ensures gate.Value() == if old(gate.Value()).active.Some?
        then FG.Acknowledged(old(gate.Value()), old(gate.Value()).active.value).0 else old(gate.Value())
      ensures forall t :: gate.Value().MayAccess(t) ==> relay == Off
    {
      hide Inv, RS.Gate, Boots, HoldsMaintenance, FG.Acknowledged, D.Linked, Measured, Booted, Stepped, IN.Taken, IN.Completed;
      TryStart(p);
      var inhibited, ticket := gate.Value().Inhibited(), gate.active;
      var on, commandReply, completedReply := StepIfStarted(p, inhibited);
      Publish(!inhibited && on, ticket, commandReply, completedReply);
    }

    /**
     The loop from power-on to the first step of a runtime: it steps first in the iteration
     that finds agreeing boot records, and a button seen by any reading up to that start, or by
     the step's own, leaves that step in maintenance with the relay low.
     */
    method RunUntilStarted(ps: seq<Presented>) returns (n: nat)
      requires Valid() && Linked() && runtime == null && !bootMaintenance
      modifies this, gate, ingress
      ensures Valid() && Linked() && n <= |ps|
      ensures runtime == null ==> n == |ps| && forall k :: 0 <= k < n ==> !Boots(ps[k])
      ensures runtime != null ==>
        && n > 0 && Boots(ps[n - 1]) && (forall k :: 0 <= k < n - 1 ==> !Boots(ps[k]))
        && (ps[n - 1].pressed || SeenPressed(ps[..n]) ==> HoldsMaintenance(runtime.Value()) && relay == Off)
    {
      hide Valid, Linked, Boots, Iterates, HoldsMaintenance, FG.Acknowledged, SeenPressed;
      n := 0;
      NothingSeen();
      while n < |ps| && runtime == null
        invariant Valid() && Linked() && n <= |ps|
        invariant forall k :: 0 <= k < n ==> (Boots(ps[k]) <==> runtime != null && k == n - 1)
        invariant runtime == null ==> bootMaintenance == SeenPressed(ps[..n])
        invariant runtime != null ==> n > 0
        invariant runtime != null && (ps[n - 1].pressed || SeenPressed(ps[..n])) ==>
          HoldsMaintenance(runtime.Value()) && relay == Off
      {
        SeenMore(ps, n);
        Iterate(ps[n]);
        n := n + 1;
      }
    }
  }

  /** Some iteration read the button as pressed before the start. */
  predicate SeenPressed(ps: seq<Presented>) {
    exists k :: 0 <= k < |ps| && ps[k].pressedAtStart
  }

  lemma NothingSeen()
    ensures !SeenPressed([])
  {
  }

  lemma SeenMore(ps: seq<Presented>, n: nat)
    requires n < |ps|
    ensures SeenPressed(ps[..n + 1]) <==> SeenPressed(ps[..n]) || ps[n].pressedAtStart
  {
    if k :| 0 <= k < n && ps[k].pressedAtStart {
      assert ps[..n][k].pressedAtStart && ps[..n + 1][k].pressedAtStart;
    }
    assert ps[..n + 1][n] == ps[n];
    assert forall k :: 0 <= k < n ==> ps[..n + 1][k] == ps[..n][k];
  }

  lemma CompletedKeepsOff(d: IN.Desk, reply: Reply)
    ensures IN.Completed(d, reply).off == d.off
  {
  }

  lemma TakenOff(d: IN.Desk)
    ensures IN.Taken(d).1 == d.off && !IN.Taken(d).0.off
  {
  }

  /** The reading a step saw is fresh and belongs to the calibrated configuration. */
  predicate MeasuredFor(observed: Observed, config: Option<Device>) {
    && config.Some? && config.value.calibrated && config.value.revision == observed.sensorRevision
    && RS.FreshReading(observed.reading, config.value.settings.interlock.maxSampleAgeMs, observed.now)
  }

  /** The step sees a fresh level only from a sample the relay may be high on. */
  lemma EffectiveMeans(s: Sample, now: Millis)
    ensures forall o: Observed, config: Option<Device> ::
      o.now == now && o.sensorRevision == s.revision && o.reading == EffectiveSample(s, now) && MeasuredFor(o, config)
      ==> Measured(s, now, config)
  {
  }

  /** A store reported as done is, after the iteration, the durable record or the configuration in force. */
  lemma TurnLands(r: Rt, d: IN.Desk, p: Presented, inhibited: bool, button: bool, record: Record)
    requires Inv(r) && p.completion.Some? && p.completion.value.succeeded
    requires r.pending == Some(StoreRequest(p.completion.value.ticket, record))
    ensures var n := Turned(r, d, p, inhibited, button).0;
      if record.RetainedRecord? then n.durable == Some(record.state) else n.configuration == Some(record.config)
  {
    hide Inv, MakePlan, Runtime.Step;
    var (_, off, request) := IN.Taken(d);
    var observed := Seen(p, inhibited, button, off);
    StepFacts(r, observed, request, p.completion);
    RO.StoredIsKept(r, RR.Input(observed, request, p.completion), record);
  }

  /** A network clock whose source is revoked, with no newer time at hand, is gone after the iteration. */
  lemma TurnRevokes(r: Rt, d: IN.Desk, p: Presented, inhibited: bool, button: bool)
    requires Inv(r) && r.clock.Some? && r.clock.value.authority.source.Network?
    requires p.clockUpdate.revokeNetwork && p.clockUpdate.sample.None?
    requires var request := IN.Taken(d).2;
      request.Some? ==> !request.value.command.SetUtc? && !request.value.command.SetUtcObserved?
    ensures Turned(r, d, p, inhibited, button).0.clock.None?
  {
    hide Inv, MakePlan, Runtime.Step;
    var (_, off, request) := IN.Taken(d);
    var observed := Seen(p, inhibited, button, off);
    StepFacts(r, observed, request, p.completion);
    RC.NetworkLossTakesClock(r, RR.Input(observed, request, p.completion));
  }

  /** What one runtime step guarantees about its output. */
  lemma StepFacts(r: Rt, observed: Observed, request: Option<Request>, completion: Option<Completion>)
    requires Inv(r)
    ensures MakePlan(r, observed, request, completion).committed.Valid()
    ensures var n := Step(r, observed, request, completion).rt;
      && Inv(n)
      && (n.Relay() == On ==>
            && RS.Gate(n) && observed.hardware == P.Allowed && !observed.maintenancePressed && !observed.forceOff
            && MeasuredFor(observed, n.configuration))
      && (observed.maintenancePressed ==> HoldsMaintenance(n))
  {
    RS.StepKeepsInv(r, observed, request, completion);
    var n := Step(r, observed, request, completion).rt;
    if n.Relay() == On {
      RS.DurabilityGate(r, observed, request, completion);
      if observed.forceOff {
        RS.OffIsImmediate(r, observed, request, completion);
      }
      OnMeansAllowed(r, observed, request, completion);
      RS.OnNeedsSample(r, observed, request, completion);
    }
    if observed.maintenancePressed {
      PressedHolds(r, observed, request, completion);
    }
    hide Inv, MakePlan, Runtime.Step, RS.Gate;
  }

  lemma OnMeansAllowed(r: Rt, observed: Observed, request: Option<Request>, completion: Option<Completion>)
    requires Inv(r) && MakePlan(r, observed, request, completion).committed.Valid()
    requires Step(r, observed, request, completion).rt.Relay() == On
    ensures observed.hardware == P.Allowed && !observed.maintenancePressed
  {
    var plan := MakePlan(r, observed, request, completion);
    RS.PlanKeepsInv(r, observed, request, completion);
    RS.PlanStages(r, observed, request, completion);
    RS.CoreSupervisor(plan.committed) by { hide Core; }
    hide MakePlan, Core, P.Updated;
    RS.OnNeedsPermit(plan.committed.supervisor.value, observed.now, plan.inputs);
    if observed.maintenancePressed {
      PressedStaysInMaintenance(r, observed, request, completion);
    }
  }

  /** A pressed button leaves the runtime in maintenance for the whole step. */
  lemma PressedStaysInMaintenance(r: Rt, observed: Observed, request: Option<Request>, completion: Option<Completion>)
    requires observed.maintenancePressed
    ensures MakePlan(r, observed, request, completion).committed.maintenance
  {
    var plan := MakePlan(r, observed, request, completion);
    RS.EarlyStages(r, observed, request, completion);
    RS.PlanStages(r, observed, request, completion);
    RS.SettleKeepsMaintenance(r, observed, completion);
    AdmitKeepsMaintenance(plan.settled, observed, plan.request);
    RS.LateStagesKeep(r, observed, request, completion);
    CommitKeepsMaintenance(plan.persisted, plan.defers);
    hide MakePlan, Settle, Admit, Commit, Resolve;
  }

  lemma PressedHolds(r: Rt, observed: Observed, request: Option<Request>, completion: Option<Completion>)
    requires Inv(r) && MakePlan(r, observed, request, completion).committed.Valid()
    requires observed.maintenancePressed
    ensures HoldsMaintenance(Step(r, observed, request, completion).rt)
  {
    PressedStaysInMaintenance(r, observed, request, completion);
    RS.StepParts(r, observed, request, completion);
    RR.EntriesLatch(r, RR.Input(observed, request, completion));
    hide Inv, MakePlan, Runtime.Step;
  }

  lemma AdmitKeepsMaintenance(r: Rt, observed: Observed, request: Option<Request>)
    requires r.maintenance && (request.Some? ==> !request.value.command.Toggle?)
    ensures Admit(r, observed, request).rt.maintenance
  {
    hide Admit;
    AdmitOutcomes(r, observed, request);
  }

  lemma CommitKeepsMaintenance(r: Rt, defers: bool)
    requires r.maintenance
    ensures Commit(r, true, defers).0.maintenance
  {
    LatchedFields(r.(storageFailed := true));
    hide LatchMaintenance;
  }
}
