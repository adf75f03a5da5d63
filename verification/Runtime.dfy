/**
 Runtime transactions: a desired and a durable record, at most one store in flight, a
 two-key configuration replacement, the accepted clock and latched maintenance.
 */
module Runtime {
  import opened Base
  import opened Interlock
  import opened Occurrences
  import opened Retained
  import opened Utc
  import S = Schedule
  import SI = ScheduleInterval
  import P = Policy

  /** A timezone as two arbitrary answers: UTC to civil time, and local start to UTC. */
  datatype TimeZone = TimeZone(civilAt: UtcSeconds -> Option<CivilTime>, resolve: S.Resolver)

  datatype RawDevice = Device(
    revision: u32,
    settings: P.Settings,
    schedule: S.Schedule,
    timezone: TimeZone,
    calibrated: bool)

  /** A validated configuration; revision zero is reserved for "none". */
  type Device = d: RawDevice | d.revision != 0 ghost witness
    Device(1, P.Settings(Config(0, 1, 1, Timing(1, 1, 1)), 1), S.Schedule([], 1),
           TimeZone(u => None, (d, s) => S.NoSuchTime), false)

  datatype Source = Operator | Network(epoch: u64)

  datatype NetworkSample = NetworkSample(observation: Observation, epoch: u64)

  datatype ClockUpdate = ClockUpdate(revokeNetwork: bool, sample: Option<NetworkSample>)

  datatype Authority = Authority(observation: Observation, generation: u64, source: Source)

  datatype Clock = Clock(anchor: Anchor, authority: Authority)

  datatype Command =
    | SaveConfiguration(config: Device)
    | TurnOn
    | TurnOff
    | Toggle
    | BeginMaintenance
    | EndMaintenance
    | SetUtc(utc: UtcSeconds)
    | SetUtcObserved(sample: Observation)
    | ClearUtc

  datatype Request = Request(id: u32, command: Command)

  datatype Error =
    | Busy
    | Unconfigured
    | Revision
    | NeedsRecovery
    | Storage
    | Superseded
    | InvalidTime
    | Exhausted
    | Rejected

  datatype Ack = Applied | Durable

  datatype Reply = Reply(id: u32, result: Result<Ack, Error>)

  datatype Record =
    | RetainedRecord(state: RetainedState)
    | ConfigurationRecord(config: Device)

  datatype StoreRequest = StoreRequest(ticket: u64, record: Record)

  datatype Completion = Completion(ticket: u64, succeeded: bool)

  datatype Observed = Observed(
    now: Millis,
    sensorRevision: u32,
    reading: Reading,
    hardware: P.Permit,
    maintenancePressed: bool,
    forceOff: bool,
    clockUpdate: ClockUpdate)

  datatype Purpose = ForConfiguration | ForEntering | ForLeaving

  datatype ActiveRequest = ActiveRequest(id: u32, purpose: Purpose)

  /** The value of a runtime. */
  datatype Rt = Rt(
    configuration: Option<Device>,
    supervisor: Option<P.Arbiter>,
    desired: Option<RetainedState>,
    durable: Option<RetainedState>,
    replacement: Option<Device>,
    pending: Option<StoreRequest>,
    nextTicket: u64,
    active: Option<ActiveRequest>,
    maintenance: bool,
    storageFailed: bool,
    clock: Option<Clock>,
    clockGeneration: u64,
    clockExhausted: bool)
  {
    function Relay(): Relay {
      if supervisor.Some? then supervisor.value.interlock.Relay() else Off
    }

    function Demand(): Demand {
      if supervisor.Some? then supervisor.value.Demand() else NoDemand
    }

    function ConfigRevision(): u32 {
      if configuration.Some? then configuration.value.revision else 0
    }

    function SavedWindow(): Option<RetainedWindow> {
      if desired.Some? then desired.value.window else None
    }

    predicate Valid() {
      supervisor.Some? ==> supervisor.value.Valid()
    }

    /** Administrative permission: everything durable and quiet in maintenance. */
    predicate DurableMaintenance() {
      && configuration.Some?
      && maintenance
      && desired == durable
      && durable.Some? && durable.value.maintenance
      && pending.None? && replacement.None? && active.None?
      && !storageFailed
    }
  }

  /** Boot records must already have been repaired. */
  function NewRuntime(configuration: Option<Device>, retained: Option<RetainedState>, now: Millis): Result<Rt, Error> {
    var agree :=
      if configuration.None? then retained.None?
      else
        && retained.Some?
        && retained.value.configRevision == configuration.value.revision
        && CheckState(retained.value).Ok?
        && (retained.value.window.Some? ==> retained.value.window.value.disposition == Suppressed);
    if !agree then Err(NeedsRecovery)
    else Ok(Rt(
      configuration,
      if configuration.Some? then Some(P.Initial(configuration.value.settings, now)) else None,
      retained, retained, None, None, 0, None,
      retained.None? || retained.value.maintenance,
      false, None, 0, false))
  }

  // ---------------------------------------------------------------- records

  function Suppress(r: Rt): Rt {
    if r.desired.Some? then r.(desired := Some(r.desired.value.Suppress())) else r
  }

  function LatchMaintenance(r: Rt): Rt {
    Suppress(r.(maintenance := true,
                desired := if r.desired.Some? then Some(r.desired.value.(maintenance := true)) else None))
  }

  function Finish(r: Rt, result: Result<Ack, Error>): (Rt, Option<Reply>) {
    if r.active.Some? then (r.(active := None), Some(Reply(r.active.value.id, result))) else (r, None)
  }

  function Enqueue(r: Rt, record: Record): Rt {
    if r.nextTicket == U64_MAX then LatchMaintenance(r.(storageFailed := true))
    else r.(nextTicket := r.nextTicket + 1, pending := Some(StoreRequest(r.nextTicket + 1, record)))
  }

  function EnsureStore(r: Rt): Rt {
    if r.storageFailed || r.pending.Some? then r
    else if r.desired != r.durable then
      if r.desired.Some? then Enqueue(r, RetainedRecord(r.desired.value)) else r
    else if r.replacement.Some? then Enqueue(r, ConfigurationRecord(r.replacement.value))
    else r
  }

  /** Only a completion with the matching ticket advances a transaction. */
  function Complete(r: Rt, completion: Completion, now: Millis): (Rt, Option<Reply>) {
    if r.pending.None? || r.pending.value.ticket != completion.ticket then (r, None)
    else
      var record := r.pending.value.record;
      var idle := r.(pending := None);
      if !completion.succeeded then
        var failed := idle.(storageFailed := true, replacement := None,
          desired := if r.desired.Some? && r.configuration.Some?
                     then Some(r.desired.value.(configRevision := r.configuration.value.revision))
                     else r.desired);
        Finish(LatchMaintenance(failed), Err(Storage))
      else
        match record
        case RetainedRecord(state) =>
          var stored := idle.(durable := Some(state));
          if r.replacement.Some? && state.configRevision == r.replacement.value.revision
          then (Enqueue(stored, ConfigurationRecord(r.replacement.value)), None)
          else (stored, None)
        case ConfigurationRecord(config) =>
          (idle.(configuration := Some(config),
                 supervisor := if r.supervisor.Some?
                               then Some(P.Reconfigured(r.supervisor.value, config.settings))
                               else Some(P.Initial(config.settings, now)),
                 replacement := None), None)
  }

  /** The durable record differs from the desired one in one suppression alone. */
  predicate OnlySuppressionPending(r: Rt) {
    && r.desired.Some? && r.durable.Some?
    && r.durable.value.window.Some?
    && r.durable.value.window.value.disposition == Eligible
    && r.desired.value == r.durable.value.Suppress()
  }

  // ------------------------------------------------------------------ clock

  function AdvanceGeneration(r: Rt): (Rt, Option<u64>) {
    if r.clockExhausted then (r, None)
    else if r.clockGeneration == U64_MAX then (r.(clockExhausted := true), None)
    else (r.(clockGeneration := r.clockGeneration + 1), Some(r.clockGeneration + 1))
  }

  function InvalidateClock(r: Rt): Rt {
    Suppress(AdvanceGeneration(r).0.(clock := None))
  }

  predicate NetworkClock(r: Rt) {
    r.clock.Some? && r.clock.value.authority.source.Network?
  }

  /** Both ends of the interval must have a civil time in the configured timezone. */
  predicate HasCivilTime(r: Rt, b: Bounds) {
    && r.configuration.Some?
    && r.configuration.value.timezone.civilAt(b.earliestMs / 1000).Some?
    && r.configuration.value.timezone.civilAt(b.latestMs / 1000).Some?
  }

  function SetClock(r: Rt, sample: Observation, now: Millis, source: Source): (Rt, Result<(), Error>) {
    var bounds := BoundsAt(sample, now);
    if source == Network(0) || bounds.None? || !HasCivilTime(r, bounds.value) then (r, Err(InvalidTime))
    else
      var (advanced, generation) := AdvanceGeneration(r);
      if generation.None? then (InvalidateClock(advanced), Err(Exhausted))
      else (advanced.(clock := Some(Clock(Anchor(Some(sample), now),
                                          Authority(sample, generation.value, source)))), Ok(()))
  }

  /** Age the clock; an expired occurrence or a lost clock suppresses the saved window. */
  function ObserveUtc(r: Rt, now: Millis): (Rt, Option<Bounds>) {
    if r.clock.None? then (r, None)
    else
      var bounds := AnchorBounds(r.clock.value.anchor, now);
      var aged := r.(clock := Some(r.clock.value.(anchor := AnchorAfter(r.clock.value.anchor, now))));
      if bounds.None? then (InvalidateClock(aged), None)
      else if r.SavedWindow().Some? && bounds.value.latestMs / 1000 >= r.SavedWindow().value.endsUtc
      then (Suppress(aged), bounds)
      else (aged, bounds)
  }

  function TakeClockUpdate(r: Rt, update: ClockUpdate, now: Millis): Rt {
    var revoked := if update.revokeNetwork && NetworkClock(r) then InvalidateClock(r) else r;
    if update.sample.None? then revoked
    else
      var (next, result) := SetClock(revoked, update.sample.value.observation, now, Network(update.sample.value.epoch));
      if result.Err? && NetworkClock(next) then InvalidateClock(next) else next
  }

  // ---------------------------------------------------------------- commands

  /** A request's outcome: the new runtime, an immediate result if any, and the switch. */
  datatype Admission = Admission(rt: Rt, result: Option<Result<Ack, Error>>, switch: P.Switch)

  function Begin(r: Rt, id: u32, purpose: Purpose, switch: P.Switch): Admission {
    Admission(r.(active := Some(ActiveRequest(id, purpose))), None, switch)
  }

  function Now(r: Rt, result: Result<Ack, Error>, switch: P.Switch): Admission {
    Admission(r, Some(result), switch)
  }

  function TimeResult(result: Result<(), Error>): Result<Ack, Error> {
    if result.Ok? then Ok(Applied) else Err(result.error)
  }

  function FromSeconds(utc: UtcSeconds, now: Millis): Option<Observation> {
    if utc * 1000 > MAX_UNIX_MS || now >= 0x7FFF_FFFF_FFFF_FFFF then None
    else Some(Observation(Bounds(utc * 1000, utc * 1000), now, Rate(0, 0)))
  }

  function Accept(r: Rt, request: Request, observed: Observed, explicitOff: bool, switch: P.Switch): Admission
    requires !request.command.Toggle?
  {
    if request.command.ClearUtc? then Now(InvalidateClock(r), Ok(Applied), switch)
    else if request.command.TurnOff? then Now(r, Ok(Applied), P.SwitchOff)
    else if r.active.Some? || r.pending.Some? then Now(r, Err(Busy), switch)
    else if r.storageFailed && !request.command.SaveConfiguration? && !request.command.BeginMaintenance?
    then Now(r, Err(NeedsRecovery), switch)
    else
      match request.command
      case SaveConfiguration(config) =>
        if r.ConfigRevision() + 1 != config.revision then Now(r, Err(Revision), switch)
        else
          var entered := LatchMaintenance(r);
          var state := if entered.desired.Some?
                       then entered.desired.value.(configRevision := config.revision, maintenance := true)
                       else RetainedState(config.revision, true, None);
          Begin(entered.(desired := Some(state), replacement := Some(config), storageFailed := false),
                request.id, ForConfiguration, switch)
      case TurnOn =>
        if explicitOff then Now(r, Err(Superseded), switch)
        else if r.configuration.None? then Now(r, Err(Unconfigured), switch)
        else Now(r, Ok(Applied), P.SwitchOn)
      case BeginMaintenance =>
        var entered := LatchMaintenance(r);
        if r.configuration.None? then Now(entered, Ok(Applied), switch)
        else if r.storageFailed then Now(entered, Err(NeedsRecovery), switch)
        else Begin(entered, request.id, ForEntering, switch)
      case EndMaintenance =>
        if observed.maintenancePressed then Now(r, Err(Superseded), switch)
        else if r.desired.None? then Now(r, Err(Unconfigured), switch)
        else Begin(r.(desired := Some(r.desired.value.(maintenance := false))), request.id, ForLeaving, switch)
      case SetUtc(utc) =>
        var sample := FromSeconds(utc, observed.now);
        if sample.None? then Now(r, Err(InvalidTime), switch)
        else
          var (next, result) := SetClock(r, sample.value, observed.now, Operator);
          Now(next, TimeResult(result), switch)
      case SetUtcObserved(sample) =>
        var (next, result) := SetClock(r, sample, observed.now, Operator);
        Now(next, TimeResult(result), switch)
  }

  // -------------------------------------------------------------------- step

  /** A toggle is resolved against the output commanded now. */
  function Resolve(r: Rt, request: Option<Request>): (q: Option<Request>)
    ensures q.Some? ==> !q.value.command.Toggle?
  {
    if request.Some? && request.value.command.Toggle?
    then Some(request.value.(command := if r.Relay() == On then TurnOff else TurnOn))
    else request
  }

  predicate ExplicitOff(observed: Observed, request: Option<Request>) {
    observed.forceOff || (request.Some? && request.value.command.TurnOff?)
  }

  /** The button latches maintenance and supersedes an exit in flight. */
  function Press(r: Rt, pressed: bool): (Rt, Option<Reply>) {
    if !pressed then (r, None)
    else
      var entered := LatchMaintenance(r);
      if entered.active.Some? && entered.active.value.purpose == ForLeaving
      then Finish(entered, Err(Superseded))
      else (entered, None)
  }

  function Either(later: Option<Reply>, earlier: Option<Reply>): Option<Reply> {
    if later.Some? then later else earlier
  }

  /** Button, completion and clock, before any command. */
  function Settle(r: Rt, observed: Observed, completion: Option<Completion>): (Rt, Option<Reply>) {
    var (pressed, superseded) := Press(r, observed.maintenancePressed);
    var (completed, reply) := if completion.Some? then Complete(pressed, completion.value, observed.now)
                              else (pressed, None);
    var seen := ObserveUtc(completed, observed.now).0;
    (TakeClockUpdate(seen, observed.clockUpdate, observed.now), Either(reply, superseded))
  }

  /** Commands. */
  function Admit(r: Rt, observed: Observed, request: Option<Request>): Admission
    requires request.Some? ==> !request.value.command.Toggle?
  {
    var switch := if ExplicitOff(observed, request) then P.SwitchOff else P.NoSwitch;
    if request.None? then Admission(r, None, switch)
    else Accept(r, request.value, observed, ExplicitOff(observed, request), switch)
  }

  function CivilInterval(r: Rt, bounds: Option<Bounds>): (i: Option<SI.Interval>)
    ensures i.Some? ==> i.value.Consistent()
  {
    if bounds.None? || r.configuration.None? || r.clock.None? || r.clock.value.anchor.observation.None?
       || !ValidBounds(bounds.value) then None
    else
      var zone := r.configuration.value.timezone;
      var earliest, latest := zone.civilAt(bounds.value.earliestMs / 1000), zone.civilAt(bounds.value.latestMs / 1000);
      if earliest.None? || latest.None? then None
      else
        var i := SI.NewInterval(bounds.value, r.clock.value.anchor.observation.value.rate, earliest.value, latest.value);
        if i.Ok? then Some(i.value) else None
  }

  /** The schedule's verdict, or nothing when it cannot be evaluated. */
  function Decide(r: Rt, now: Millis, bounds: Option<Bounds>): Option<S.Decision> {
    if r.configuration.None? then None
    else
      var zone := r.configuration.value.timezone;
      var d := SI.EvaluateInterval(now, CivilInterval(r, bounds), r.configuration.value.schedule, zone.resolve, r.SavedWindow());
      if d.Ok? then Some(d.value) else None
  }

  predicate LosesCalendar(d: Option<S.Decision>) {
    d.None? || d.value.Inactive? || d.value.Blocked?
  }

  predicate SavedSuppressed(r: Rt) {
    r.SavedWindow().Some? && r.SavedWindow().value.disposition == Suppressed
  }

  /** Calendar loss suppresses the saved window and revokes automatic demand. */
  function Calendar(r: Rt, decision: Option<S.Decision>, switch: P.Switch): (Rt, P.Switch) {
    var seen := if LosesCalendar(decision) then Suppress(r) else r;
    (seen, if switch == P.NoSwitch && SavedSuppressed(seen) && seen.Demand() == Automatic then P.SwitchOff else switch)
  }

  predicate ManualPending(r: Rt, switch: P.Switch) {
    switch == P.SwitchOn || r.Demand() == Override
  }

  /** Record a newly active occurrence: eligible while idle, or suppressed by an Off. */
  function Persist(r: Rt, decision: Option<S.Decision>, explicitOff: bool, switch: P.Switch): Rt {
    var idle := !r.maintenance && r.Relay() == Off && !ManualPending(r, switch) && r.pending.None?;
    var recorded :=
      if r.replacement.None? && !r.storageFailed && decision.Some? && decision.value.PersistBeforeRun?
         && (explicitOff || idle) && r.desired.Some?
      then
        var o := decision.value.occurrence;
        r.(desired := Some(r.desired.value.(window :=
          Some(RetainedWindow(o.id, o.endsUtc, if explicitOff then Suppressed else Eligible)))))
      else r;
    if explicitOff then Suppress(recorded) else recorded
  }

  /** A lone suppression may wait for a manual lease: writing flash would force the relay off. */
  predicate Defers(r: Rt, explicitOff: bool, switch: P.Switch) {
    && ManualPending(r, switch)
    && !explicitOff
    && switch != P.SwitchOff
    && r.active.None? && r.replacement.None? && r.pending.None?
    && OnlySuppressionPending(r)
  }

  predicate Ready(r: Rt, defers: bool) {
    !r.storageFailed && r.replacement.None? && r.pending.None? && (r.desired == r.durable || defers)
  }

  /** Start the next store, then finish a request that failed or became durable. */
  function Commit(r: Rt, pressed: bool, defers: bool): (Rt, Option<Reply>) {
    var stored := if defers then r else EnsureStore(r);
    var (failed, exhausted) := if stored.storageFailed then Finish(stored, Err(Exhausted)) else (stored, None);
    if Ready(failed, defers) then
      var latched := if pressed then failed
                     else failed.(maintenance := failed.desired.None? || failed.desired.value.maintenance);
      var (finished, durable) := Finish(latched, Ok(Durable));
      (finished, Either(durable, exhausted))
    else (failed, exhausted)
  }

  /** What the supervisor is told once records and maintenance are settled. */
  function ControlInputs(r: Rt, observed: Observed, decision: Option<S.Decision>, explicitOff: bool, switch: P.Switch, defers: bool)
    : P.Inputs
  {
    var ready := Ready(r, defers);
    var reading :=
      if r.configuration.Some? && r.configuration.value.revision == observed.sensorRevision
         && r.configuration.value.calibrated
      then observed.reading else Invalid(Uncalibrated);
    var window :=
      if ready && !r.maintenance && !explicitOff && decision.Some? && decision.value.Active?
      then Some(decision.value.window) else None;
    P.Inputs(
      reading,
      window,
      if r.maintenance then P.SwitchOff else switch,
      if r.maintenance then Interlock.EnterMaintenance else ExitMaintenance,
      if ready then observed.hardware else P.ForcedOff)
  }

  function Drive(r: Rt, now: Millis, inputs: P.Inputs): Rt
    requires r.Valid()
  {
    if r.supervisor.Some? then r.(supervisor := Some(P.Updated(r.supervisor.value, now, inputs))) else r
  }

  /** On is accepted only if an override lease survived every rule of this step. */
  function Confirm(r: Rt, request: Option<Request>, result: Option<Result<Ack, Error>>): Option<Reply> {
    if request.None? || result.None? then None
    else if request.value.command.TurnOn? && result.value == Ok(Applied) && r.Demand() != Override
    then Some(Reply(request.value.id, Err(Rejected)))
    else Some(Reply(request.value.id, result.value))
  }

  /** The intermediate values of one step, named. */
  datatype Plan = Plan(
    request: Option<Request>,
    settled: Rt,
    superseded: Option<Reply>,
    admission: Admission,
    seen: Rt,
    decision: Option<S.Decision>,
    explicitOff: bool,
    switch: P.Switch,
    persisted: Rt,
    defers: bool,
    committed: Rt,
    finished: Option<Reply>,
    inputs: P.Inputs)

  function MakePlan(r: Rt, observed: Observed, request: Option<Request>, completion: Option<Completion>): Plan {
    var q := Resolve(r, request);
    var (settled, superseded) := Settle(r, observed, completion);
    var admission := Admit(settled, observed, q);
    var (seen, bounds) := ObserveUtc(admission.rt, observed.now);
    var decision := Decide(seen, observed.now, bounds);
    var explicitOff := ExplicitOff(observed, q);
    var (calendar, switch) := Calendar(seen, decision, admission.switch);
    var persisted := Persist(calendar, decision, explicitOff, switch);
    var defers := Defers(persisted, explicitOff, switch);
    var (committed, finished) := Commit(persisted, observed.maintenancePressed, defers);
    Plan(q, settled, superseded, admission, seen, decision, explicitOff, switch, persisted, defers, committed,
         finished, ControlInputs(committed, observed, decision, explicitOff, switch, defers))
  }

  datatype Outcome = Outcome(rt: Rt, commandReply: Option<Reply>, completedReply: Option<Reply>)

  /** One control step. */
  function Step(r: Rt, observed: Observed, request: Option<Request>, completion: Option<Completion>): Outcome
    requires MakePlan(r, observed, request, completion).committed.Valid()
  {
    var plan := MakePlan(r, observed, request, completion);
    var after := Drive(plan.committed, observed.now, plan.inputs);
    Outcome(after, Confirm(after, plan.request, plan.admission.result), Either(plan.finished, plan.superseded))
  }
}
