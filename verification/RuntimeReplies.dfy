/**
 Every waiting request is answered exactly once: when a completed store leaves it waiting,
 how often that can happen, and the balance of requests and replies over whole runs.
 */
module RuntimeReplies {
  import opened Base
  import opened Occurrences
  import opened Retained
  import opened Runtime
  import opened RuntimeInvariant
  import opened RuntimeSafety
  import opened RuntimeRuns
  import opened RuntimeProgress
  import P = Policy
  import PH = PolicyHistory
  import S = Schedule
  import SI = ScheduleInterval

  /** A reply to the waiting request leaves this step. */
  predicate Ends(r: Rt, input: Input) {
    PlanOf(r, input).superseded.Some? || PlanOf(r, input).finished.Some?
  }

  /** The first of a save's two keys is in flight. */
  predicate FirstKey(r: Rt) {
    r.replacement.Some? && r.pending.Some? && r.pending.value.record.RetainedRecord?
  }

  /** The retained record in flash once the store in flight has succeeded. */
  function StoredBy(r: Rt): Option<RetainedState> {
    if r.pending.Some? && r.pending.value.record.RetainedRecord? then Some(r.pending.value.record.state) else r.durable
  }

  predicate Superseding(r: Rt, input: Input) {
    input.observed.maintenancePressed && Leaving(r)
  }

  /** A settled runtime after a matching success that no button superseded. */
  lemma SuccessSettles(r: Rt, input: Input)
    requires Inv(r) && r.active.Some? && Matches(r, input.completion) && input.completion.value.succeeded
    requires !Superseding(r, input)
    ensures var (s, reply) := Settle(r, input.observed, input.completion);
      && reply.None? && s.active == r.active && (s.desired.Some? <==> r.desired.Some?)
      && (s.desired == r.desired || s.desired == Suppress(r).desired || s.storageFailed)
      && (FirstKey(r) && r.nextTicket == U64_MAX ==> s.storageFailed)
      && (FirstKey(r) && r.nextTicket < U64_MAX ==>
            s.pending.Some? && s.pending.value.record.ConfigurationRecord? && !s.storageFailed)
      && (!FirstKey(r) ==>
            && s.pending.None? && s.replacement.None? && !s.storageFailed
            && s.durable == StoredBy(r) && s.nextTicket == r.nextTicket)
  {
    var now := input.observed.now;
    var pressed := Press(r, input.observed.maintenancePressed).0;
    PressKeepsRequest(r, input);
    var completed := Complete(pressed, input.completion.value, now).0;
    SuccessCompletes(pressed, input.completion.value, now);
    var seen := ObserveUtc(completed, now).0;
    ClockStepKeeps(completed, seen) by { ObserveUtcIsClockStep(completed, now); }
    var after := TakeClockUpdate(seen, input.observed.clockUpdate, now);
    ClockStepKeeps(seen, after) by { TakeClockUpdateIsClockStep(seen, input.observed.clockUpdate, now); }
    hide Inv, Press, Complete, ObserveUtc, TakeClockUpdate;
  }

  /** The button leaves alone what any request but an exit already latched. */
  lemma PressKeepsRequest(r: Rt, input: Input)
    requires Inv(r) && r.active.Some? && r.pending.Some? && !Superseding(r, input)
    ensures Press(r, input.observed.maintenancePressed) == (r, None)
  {
    hide PH.Inv;
  }

  lemma SuccessCompletes(r: Rt, completion: Completion, now: Millis)
    requires r.active.Some? && Matches(r, Some(completion)) && completion.succeeded
    requires PendingInv(r) && ReplacementInv(r)
    ensures var (s, reply) := Complete(r, completion, now);
      && reply.None? && s.active == r.active && (s.desired.Some? <==> r.desired.Some?)
      && (s.desired == r.desired || s.storageFailed)
      && (FirstKey(r) && r.nextTicket == U64_MAX ==> s.storageFailed)
      && (FirstKey(r) && r.nextTicket < U64_MAX ==>
            s.pending.Some? && s.pending.value.record.ConfigurationRecord? && !s.storageFailed)
      && (!FirstKey(r) ==>
            && s.pending.None? && s.replacement.None? && !s.storageFailed
            && s.durable == StoredBy(r) && s.nextTicket == r.nextTicket)
  {
    hide P.Reconfigured, P.Initial;
  }

  /** While a request waits, no other is taken on. */
  lemma BusyAdmits(r: Rt, observed: Observed, request: Option<Request>)
    requires r.active.Some? && (request.Some? ==> !request.value.command.Toggle?)
    ensures ClockStep(r, Admit(r, observed, request).rt)
  {
    hide Admit, ClockStep;
    ClockStepReflexive(r);
    AdmitOutcomes(r, observed, request);
  }

  /** What the commit makes of a waiting request. */
  lemma CommitEnds(r: Rt, pressed: bool, defers: bool)
    requires r.active.Some? && !defers
    ensures var (c, reply) := Commit(r, pressed, defers);
      && (r.storageFailed ==> reply.Some?)
      && (!r.storageFailed && r.pending.Some? ==> reply.None?)
      && (!r.storageFailed && r.pending.None? && r.replacement.None? && r.nextTicket < U64_MAX ==>
            (reply.None? <==> r.desired != r.durable))
      && (!r.storageFailed && r.pending.None? && r.replacement.None? && r.nextTicket == U64_MAX && r.desired.Some? ==>
            reply.Some?)
      && (!r.storageFailed && r.nextTicket < U64_MAX ==> c.desired == r.desired && !c.storageFailed)
      && (if c.storageFailed then reply.Some? else c.desired == r.desired)
      && c.replacement == r.replacement
  {
    LatchedFields(r.(storageFailed := true));
    hide LatchMaintenance;
  }

  /** The plan of a step in which a request waits and its store succeeds. */
  lemma SuccessPlan(r: Rt, input: Input)
    requires Inv(r) && r.active.Some? && Matches(r, input.completion) && input.completion.value.succeeded
    requires !Superseding(r, input) && PlanOf(r, input).committed.Valid()
    ensures Ends(r, input) <==> PlanOf(r, input).finished.Some?
    ensures Ends(r, input) <==>
      !(r.nextTicket < U64_MAX && (FirstKey(r) || Next(r, input).desired != StoredBy(r)))
    ensures !Ends(r, input) ==> !FirstKey(Next(r, input))
  {
    hide MakePlan, Settle, Admit, Commit, Inv, Core, Next, ClockStep;
    var plan := PlanOf(r, input);
    EarlyStages(r, input.observed, input.request, input.completion);
    PlanStages(r, input.observed, input.request, input.completion);
    PlanRaceFacts(r, input.observed, input.request, input.completion);
    LateStagesKeep(r, input.observed, input.request, input.completion);
    SuccessSettles(r, input);
    BusyAdmits(plan.settled, input.observed, plan.request);
    ClockStepKeeps(plan.settled, plan.admission.rt);
    WaitingDesired(r);
    CommitEnds(plan.persisted, input.observed.maintenancePressed, plan.defers);
    CommitProgress(plan.persisted, input.observed.maintenancePressed, plan.defers);
    NextRecords(r, input);
  }

  lemma WaitingDesired(r: Rt)
    requires Inv(r) && r.active.Some?
    ensures r.pending.Some? && r.desired.Some? && !r.storageFailed && r.pending.value.ticket == r.nextTicket
  {
    hide PH.Inv;
  }

  /**
   A waiting request always has a store in flight. A completion of that store leaves it
   waiting exactly if the store succeeded, no button superseded an exit, a ticket is left,
   and either that was the first of a save's two keys or the desired record is by now
   another than the one just stored; the wait then goes on with a newer store.
   */
  lemma WaitingMakesProgress(r: Rt, input: Input)
    requires Inv(r) && r.active.Some? && PlanOf(r, input).committed.Valid()
    ensures r.pending.Some?
    ensures Matches(r, input.completion) ==>
      (!Ends(r, input)
       <==> && input.completion.value.succeeded && !Superseding(r, input) && r.nextTicket < U64_MAX
            && (FirstKey(r) || Next(r, input).desired != StoredBy(r)))
    ensures var n := Next(r, input);
      !Ends(r, input) ==>
        && n.active == r.active && n.pending.Some?
        && (Matches(r, input.completion) ==> n.pending.value.ticket > r.pending.value.ticket)
  {
    hide Ends, Inv, PlanOf, Next, FirstKey, StoredBy, Superseding;
    WaitingDesired(r);
    EndsIsReply(r, input);
    if Matches(r, input.completion) {
      if input.completion.value.succeeded && !Superseding(r, input) {
        SuccessPlan(r, input);
      } else {
        OtherwiseEnds(r, input);
      }
    }
    WaitHasStore(r, input);
  }

  predicate Fails(r: Rt, input: Input) {
    Matches(r, input.completion) && !input.completion.value.succeeded
  }

  lemma OtherwiseEnds(r: Rt, input: Input)
    requires Inv(r) && r.active.Some? && (Fails(r, input) || Superseding(r, input))
    ensures Ends(r, input)
  {
    SettledFields(r, input.observed, input.completion);
    EarlyStages(r, input.observed, input.request, input.completion);
    SupersedingReplies(r, input);
    hide MakePlan, Settle, Admit, Inv;
  }

  lemma SupersedingReplies(r: Rt, input: Input)
    ensures Superseding(r, input) ==> Settle(r, input.observed, input.completion).1.Some?
  {
    LatchedFields(r);
    hide LatchMaintenance, Complete, ObserveUtc, TakeClockUpdate;
  }

  /** A reply to the waiting request carries its id, unless the last-ticket race overwrites it. */
  lemma EndsIsReply(r: Rt, input: Input)
    requires Inv(r) && r.active.Some? && PlanOf(r, input).committed.Valid()
    ensures var reply := Step(r, input.observed, input.request, input.completion).completedReply;
      && (reply.Some? <==> Ends(r, input))
      && (Ends(r, input) && !LastTicketRace(r, input.observed, input.request, input.completion) ==>
            reply.value.id == r.active.value.id)
    ensures !Ends(r, input) ==> Next(r, input).active == r.active
  {
    hide MakePlan, Settle, Admit, Commit, Inv, Core, Step, LastTicketRace;
    var plan := PlanOf(r, input);
    PlanRaceFacts(r, input.observed, input.request, input.completion);
    PlanStages(r, input.observed, input.request, input.completion);
    StepParts(r, input.observed, input.request, input.completion);
    ReplyLostExactlyInRace(r, input.observed, input.request, input.completion);
    CommitReplies(plan.persisted, input.observed.maintenancePressed, plan.defers);
    AdmitReplies(plan.settled, input.observed, plan.request);
  }

  lemma WaitHasStore(r: Rt, input: Input)
    requires Inv(r) && r.active.Some? && PlanOf(r, input).committed.Valid()
    ensures var n := Next(r, input);
      n.active.Some? ==>
        n.pending.Some? && (Matches(r, input.completion) ==> n.pending.value.ticket > r.pending.value.ticket)
  {
    StepProgress(r, input.observed, input.request, input.completion);
    StepKeepsInv(r, input.observed, input.request, input.completion);
    WaitingDesired(r);
    hide MakePlan, Step, PH.Inv;
  }

  // ---------------------------------------------------- how long a wait can be

  function SavedId(r: Rt): Option<WindowId> {
    if r.SavedWindow().Some? then Some(r.SavedWindow().value.id) else None
  }

  /** The step records no new occurrence. */
  predicate RecordsNothing(r: Rt, input: Input)
    requires PlanOf(r, input).committed.Valid()
  {
    SavedId(Next(r, input)) == SavedId(r)
  }

  /** `b` is `a`, or `a` with its window suppressed. */
  predicate UpToSuppression(a: Option<RetainedState>, b: Option<RetainedState>) {
    b == a || (a.Some? && b == Some(a.value.Suppress()))
  }

  lemma ClockStepSuppresses(a: Rt, b: Rt)
    requires ClockStep(a, b)
    ensures UpToSuppression(a.desired, b.desired) && SavedId(b) == SavedId(a)
  {
  }

  lemma RecordingSuppresses(r: Rt, decision: Option<S.Decision>, explicitOff: bool, before: P.Switch, switch: P.Switch)
    requires decision.Some? ==> SI.Respects(decision.value, r.SavedWindow())
    ensures var p := Persist(Calendar(r, decision, before).0, decision, explicitOff, switch);
      SavedId(p) == SavedId(r) ==> UpToSuppression(r.desired, p.desired)
  {
  }

  lemma WaitSettled(r: Rt, input: Input)
    requires Inv(r) && r.active.Some? && !Superseding(r, input)
    requires Matches(r, input.completion) ==> input.completion.value.succeeded
    ensures var s := Settle(r, input.observed, input.completion).0;
      !s.storageFailed ==>
        && UpToSuppression(r.desired, s.desired) && SavedId(s) == SavedId(r)
        && (!Matches(r, input.completion) ==> s.replacement == r.replacement && s.pending == r.pending)
  {
    if Matches(r, input.completion) {
      SuccessSettles(r, input);
    } else {
      WaitingDesired(r);
      PressKeepsRequest(r, input);
      var now := input.observed.now;
      var seen := ObserveUtc(r, now).0;
      ClockStepKeeps(r, seen) by { ObserveUtcIsClockStep(r, now); }
      var after := TakeClockUpdate(seen, input.observed.clockUpdate, now);
      ClockStepKeeps(seen, after) by { TakeClockUpdateIsClockStep(seen, input.observed.clockUpdate, now); }
      hide Press, ObserveUtc, TakeClockUpdate, Inv;
    }
    hide Settle, Inv;
  }

  /** While a request keeps waiting and no occurrence is recorded, the desired record can only lose its window's eligibility. */
  lemma WaitSuppresses(r: Rt, input: Input)
    requires Inv(r) && r.active.Some? && PlanOf(r, input).committed.Valid()
    requires !Ends(r, input) && RecordsNothing(r, input)
    ensures UpToSuppression(r.desired, Next(r, input).desired)
    ensures Next(r, input).replacement == r.replacement || Matches(r, input.completion)
  {
    hide MakePlan, Settle, Admit, Commit, Inv, Core, Next, ClockStep, Persist, Calendar, UpToSuppression, SI.Respects;
    var plan := PlanOf(r, input);
    if Superseding(r, input) || Fails(r, input) {
      OtherwiseEnds(r, input);
    } else {
      EarlyStages(r, input.observed, input.request, input.completion);
      WaitSettled(r, input);
      WaitPlan(r, input);
      SuppressionComposes(r.desired, plan.settled.desired, plan.persisted.desired);
    }
  }

  lemma SuppressionComposes(a: Option<RetainedState>, b: Option<RetainedState>, c: Option<RetainedState>)
    requires UpToSuppression(a, b) && UpToSuppression(b, c)
    ensures UpToSuppression(a, c)
  {
  }

  lemma WaitRecords(r: Rt, input: Input)
    requires Inv(r) && ClockStep(PlanOf(r, input).settled, PlanOf(r, input).admission.rt)
    ensures var plan := PlanOf(r, input);
      SavedId(plan.persisted) == SavedId(plan.settled) ==> UpToSuppression(plan.settled.desired, plan.persisted.desired)
  {
    hide Inv, Core, Advances, Settle, Admit, ObserveUtc, Decide, Calendar, Persist, Commit, Defers, ControlInputs,
         ClockStep, SI.Respects, UpToSuppression, SavedId;
    var plan := PlanOf(r, input);
    PlanKeepsInv(r, input.observed, input.request, input.completion);
    ClockStepSuppresses(plan.settled, plan.admission.rt);
    ClockStepSuppresses(plan.admission.rt, plan.seen) by { ObserveUtcIsClockStep(plan.admission.rt, input.observed.now); }
    RecordingSuppresses(plan.seen, plan.decision, plan.explicitOff, plan.admission.switch, plan.switch);
    SuppressionComposes(plan.settled.desired, plan.admission.rt.desired, plan.seen.desired);
    if UpToSuppression(plan.seen.desired, plan.persisted.desired) {
      SuppressionComposes(plan.settled.desired, plan.seen.desired, plan.persisted.desired);
    }
  }

  /** The stages after settling, in a step that leaves the request waiting. */
  lemma WaitPlan(r: Rt, input: Input)
    requires Inv(r) && r.active.Some? && PlanOf(r, input).committed.Valid() && !Ends(r, input)
    ensures var plan := PlanOf(r, input);
      && !plan.settled.storageFailed && ClockStep(plan.settled, plan.admission.rt)
      && SavedId(plan.persisted) == SavedId(Next(r, input)) && Next(r, input).desired == plan.persisted.desired
      && Next(r, input).replacement == plan.settled.replacement
      && (SavedId(plan.persisted) == SavedId(plan.settled) ==>
            UpToSuppression(plan.settled.desired, plan.persisted.desired))
  {
    hide MakePlan, Settle, Admit, Commit, Inv, Core, Next, ClockStep, UpToSuppression, SI.Respects;
    var plan := PlanOf(r, input);
    WaitingDesired(r);
    PlanRaceFacts(r, input.observed, input.request, input.completion);
    PlanStages(r, input.observed, input.request, input.completion);
    LateStagesKeep(r, input.observed, input.request, input.completion);
    NextRecords(r, input);
    BusyAdmits(plan.settled, input.observed, plan.request);
    ClockStepKeeps(plan.settled, plan.admission.rt);
    WaitRecords(r, input);
    CommitEnds(plan.persisted, input.observed.maintenancePressed, plan.defers);
  }

  /** In maintenance, a waiting request sees a new occurrence recorded only by an Off while it is active. */
  lemma OnlyOffRecords(r: Rt, input: Input)
    requires Inv(r) && r.active.Some? && r.maintenance && PlanOf(r, input).committed.Valid()
    requires !Ends(r, input) && !RecordsNothing(r, input)
    ensures AsksOff(r, input.observed, input.request)
    ensures PlanOf(r, input).decision.Some? && PlanOf(r, input).decision.value.PersistBeforeRun?
  {
    AsksOffIsExplicit(r, input.observed, input.request);
    hide MakePlan, Settle, Admit, Inv, Core, Next, ClockStep, SavedId;
    var plan := PlanOf(r, input);
    EarlyStages(r, input.observed, input.request, input.completion);
    if Superseding(r, input) || Fails(r, input) {
      OtherwiseEnds(r, input);
    } else {
      WaitSettled(r, input);
      WaitPlan(r, input);
      WaitRecordsOff(r, input);
    }
  }

  lemma WaitRecordsOff(r: Rt, input: Input)
    requires r.maintenance && ClockStep(PlanOf(r, input).settled, PlanOf(r, input).admission.rt)
    ensures var plan := PlanOf(r, input);
      || SavedId(plan.persisted) == SavedId(plan.settled)
      || (plan.explicitOff && plan.decision.Some? && plan.decision.value.PersistBeforeRun?)
    ensures PlanOf(r, input).explicitOff == ExplicitOff(input.observed, PlanOf(r, input).request)
  {
    hide Settle, Admit, ObserveUtc, Decide, Calendar, Persist, Commit, Defers, ControlInputs, ClockStep, SavedId;
    var plan := PlanOf(r, input);
    EarlyStages(r, input.observed, input.request, input.completion);
    SettleKeepsMaintenance(r, input.observed, input.completion);
    ClockStepKeeps(plan.settled, plan.admission.rt);
    ClockStepSuppresses(plan.settled, plan.admission.rt);
    ObserveUtcIsClockStep(plan.admission.rt, input.observed.now);
    ClockStepKeeps(plan.admission.rt, plan.seen);
    ClockStepSuppresses(plan.admission.rt, plan.seen);
    MaintenanceRecords(plan.seen, plan.decision, plan.explicitOff, plan.admission.switch, plan.switch);
  }

  lemma MaintenanceRecords(r: Rt, decision: Option<S.Decision>, explicitOff: bool, before: P.Switch, switch: P.Switch)
    requires r.maintenance
    ensures || SavedId(Persist(Calendar(r, decision, before).0, decision, explicitOff, switch)) == SavedId(r)
            || (explicitOff && decision.Some? && decision.value.PersistBeforeRun?)
  {
  }

  predicate Eligible(r: Rt) {
    r.SavedWindow().Some? && r.SavedWindow().value.disposition == Disposition.Eligible
  }

  /** The retained record in flight is no longer the desired one. */
  predicate Stale(r: Rt) {
    r.pending.Some? && r.pending.value.record.RetainedRecord? && r.desired != Some(r.pending.value.record.state)
  }

  /** How many more completions can leave a waiting request waiting. */
  function Rank(r: Rt): nat {
    (if FirstKey(r) then 1 else 0) + (if Eligible(r) then 1 else 0) + (if Stale(r) then 1 else 0)
  }

  lemma RankIsSmall(r: Rt)
    requires Inv(r)
    ensures Rank(r) <= 2 && (!Stale(r) ==> Rank(r) <= 1)
  {
    hide PH.Inv;
  }

  /** Each completion that leaves a request waiting uses up rank, and nothing else adds any. */
  lemma RankFalls(r: Rt, input: Input)
    requires Inv(r) && r.active.Some? && PlanOf(r, input).committed.Valid()
    requires !Ends(r, input) && RecordsNothing(r, input)
    ensures Rank(Next(r, input)) + (if Matches(r, input.completion) then 1 else 0) <= Rank(r)
  {
    hide MakePlan, Step, Inv, Ends;
    WaitingMakesProgress(r, input);
    WaitSuppresses(r, input);
    StepProgress(r, input.observed, input.request, input.completion);
    WaitingRecords(r);
    if Matches(r, input.completion) {
      SuccessPlan(r, input);
    }
  }

  /** A save's second key is written over a record equal to the desired one. */
  lemma WaitingRecords(r: Rt)
    requires Inv(r) && r.active.Some?
    ensures r.pending.Some? && (r.pending.value.record.ConfigurationRecord? ==> r.durable == r.desired && !Eligible(r))
    ensures r.pending.value.ticket == r.nextTicket
  {
    hide PH.Inv;
  }

  // ------------------------------------------------------------- over whole runs

  /** Steps `i` to `j` answer no waiting request and record no new occurrence. */
  ghost predicate StillWaiting(inputs: seq<Input>, rs: seq<Rt>, i: nat, j: nat)
    requires Steps(inputs, rs) && j <= |inputs|
  {
    forall k :: i <= k < j ==> !Ends(rs[k], inputs[k]) && RecordsNothing(rs[k], inputs[k])
  }

  /** The stores that complete in steps `i` to `j`. */
  function Completions(inputs: seq<Input>, rs: seq<Rt>, i: nat, j: nat): nat
    requires |rs| == |inputs| + 1 && j <= |inputs|
  {
    if j <= i then 0
    else Completions(inputs, rs, i, j - 1) + (if Matches(rs[j - 1], inputs[j - 1].completion) then 1 else 0)
  }

  lemma {:induction false} WaitUsesRank(inputs: seq<Input>, rs: seq<Rt>, i: nat, j: nat)
    requires Steps(inputs, rs) && i <= j <= |inputs|
    requires rs[i].active.Some? && StillWaiting(inputs, rs, i, j)
    ensures rs[j].active == rs[i].active
    ensures Completions(inputs, rs, i, j) + Rank(rs[j]) <= Rank(rs[i])
    decreases j
  {
    hide Inv, Ends, RecordsNothing, PlanOf, Next, Rank, Matches;
    if i < j {
      WaitUsesRank(inputs, rs, i, j - 1);
      StepsInv(inputs, rs, j - 1);
      WaitingMakesProgress(rs[j - 1], inputs[j - 1]);
      RankFalls(rs[j - 1], inputs[j - 1]);
    }
  }

  /** This step takes a request on without answering it. */
  predicate TakesOn(r: Rt, input: Input) {
    PlanOf(r, input).request.Some? && PlanOf(r, input).admission.result.None?
  }

  /** A request just taken on waits on a store of the desired record or of the second key. */
  lemma TakenIsFresh(r: Rt, input: Input)
    requires Inv(r) && TakesOn(r, input) && PlanOf(r, input).committed.Valid()
    ensures Next(r, input).active.Some? ==> !Stale(Next(r, input))
  {
    hide MakePlan, Settle, Admit, Commit, Inv, Core, Step, ClockStep;
    var plan := PlanOf(r, input);
    EarlyStages(r, input.observed, input.request, input.completion);
    StepProgress(r, input.observed, input.request, input.completion);
    SettleProgress(r, input.observed, input.completion);
    AdmitReplies(plan.settled, input.observed, plan.request);
    PendingIsNewest(r);
  }

  lemma PendingIsNewest(r: Rt)
    requires Inv(r)
    ensures r.pending.Some? ==> r.pending.value.ticket == r.nextTicket
  {
    hide PH.Inv;
  }

  /**
   The second store completed after a request is taken on answers it at the latest, when no
   new occurrence is recorded meanwhile: a save writes two keys, and otherwise only one
   suppression can make a first store come too late. The answer carries the request's id,
   unless the last ticket of all was lost to the race that overwrites it.
   */
  lemma SecondCompletionAnswers(inputs: seq<Input>, rs: seq<Rt>, i: nat, j: nat) returns (k: nat)
    requires Steps(inputs, rs) && i < j <= |inputs|
    requires TakesOn(rs[i], inputs[i]) && rs[i + 1].active.Some?
    requires forall m :: i < m < j ==> RecordsNothing(rs[m], inputs[m])
    requires Completions(inputs, rs, i + 1, j) >= 2
    ensures i < k < j && Completions(inputs, rs, i + 1, k) <= 1
    ensures rs[k].active == rs[i + 1].active && PlanOf(rs[k], inputs[k]).committed.Valid()
    ensures var reply := Step(rs[k], inputs[k].observed, inputs[k].request, inputs[k].completion).completedReply;
      && reply.Some?
      && (!LastTicketRace(rs[k], inputs[k].observed, inputs[k].request, inputs[k].completion) ==>
            reply.value.id == rs[i + 1].active.value.id)
  {
    hide Inv, Ends, RecordsNothing, PlanOf, Next, Step, Rank, Matches, LastTicketRace, TakesOn, Stale;
    StepsInv(inputs, rs, i);
    StepsInv(inputs, rs, i + 1);
    TakenIsFresh(rs[i], inputs[i]);
    RankIsSmall(rs[i + 1]);
    k := i + 1;
    while k < j && !Ends(rs[k], inputs[k])
      invariant i < k <= j && StillWaiting(inputs, rs, i + 1, k)
    {
      k := k + 1;
    }
    WaitUsesRank(inputs, rs, i + 1, k);
    StepsInv(inputs, rs, k);
    EndsIsReply(rs[k], inputs[k]);
  }

  /** The requests taken on in steps `i` to `j`. */
  ghost function TakenOver(inputs: seq<Input>, rs: seq<Rt>, i: nat, j: nat): multiset<u32>
    requires Steps(inputs, rs) && j <= |inputs|
  {
    if j <= i then multiset{}
    else TakenOver(inputs, rs, i, j - 1) + Taken(PlanOf(rs[j - 1], inputs[j - 1]))
  }

  ghost function ReplyOf(r: Rt, input: Input): Option<Reply>
    requires PlanOf(r, input).committed.Valid()
  {
    Step(r, input.observed, input.request, input.completion).completedReply
  }

  /** The waiting requests answered in steps `i` to `j`. */
  ghost function AnsweredOver(inputs: seq<Input>, rs: seq<Rt>, i: nat, j: nat): multiset<u32>
    requires Steps(inputs, rs) && j <= |inputs|
  {
    if j <= i then multiset{}
    else AnsweredOver(inputs, rs, i, j - 1) + Answered(ReplyOf(rs[j - 1], inputs[j - 1]))
  }

  predicate Races(r: Rt, input: Input) {
    LastTicketRace(r, input.observed, input.request, input.completion)
  }

  /**
   Over any run without the last-ticket race, the requests waiting at its start and those
   taken on during it are exactly those it answered and those still waiting at its end.
   */
  lemma {:induction false} RepliesBalance(inputs: seq<Input>, rs: seq<Rt>, i: nat, j: nat)
    requires Steps(inputs, rs) && i <= j <= |inputs|
    requires forall k :: i <= k < j ==> !Races(rs[k], inputs[k])
    ensures Waiting(rs[i]) + TakenOver(inputs, rs, i, j) == Waiting(rs[j]) + AnsweredOver(inputs, rs, i, j)
    decreases j
  {
    hide Inv, PlanOf, Next, Races, Waiting, Taken, Answered, ReplyOf;
    if i < j {
      RepliesBalance(inputs, rs, i, j - 1);
      StepsInv(inputs, rs, j - 1);
      StepBalance(rs[j - 1], inputs[j - 1]);
      BalancesAdd(Waiting(rs[i]), TakenOver(inputs, rs, i, j - 1), Waiting(rs[j - 1]), AnsweredOver(inputs, rs, i, j - 1),
                  Taken(PlanOf(rs[j - 1], inputs[j - 1])), Waiting(rs[j]), Answered(ReplyOf(rs[j - 1], inputs[j - 1])));
    }
  }

  lemma BalancesAdd(first: multiset<u32>, taken: multiset<u32>, before: multiset<u32>, answered: multiset<u32>,
                    newlyTaken: multiset<u32>, after: multiset<u32>, newlyAnswered: multiset<u32>)
    requires first + taken == before + answered && before + newlyTaken == after + newlyAnswered
    ensures first + (taken + newlyTaken) == after + (answered + newlyAnswered)
  {
    assert first + (taken + newlyTaken) == before + answered + newlyTaken == before + newlyTaken + answered;
    hide *;
  }

  lemma StepBalance(r: Rt, input: Input)
    requires Inv(r) && PlanOf(r, input).committed.Valid() && !Races(r, input)
    ensures Waiting(r) + Taken(PlanOf(r, input)) == Waiting(Next(r, input)) + Answered(ReplyOf(r, input))
  {
    RepliesAreConserved(r, input.observed, input.request, input.completion);
    ReplyLostExactlyInRace(r, input.observed, input.request, input.completion);
    hide MakePlan, Step, Inv, Waiting, Taken, Answered, LosesReply, LastTicketRace;
    NoneLost(Waiting(r) + Taken(PlanOf(r, input)), Waiting(Next(r, input)) + Answered(ReplyOf(r, input)),
             PlanOf(r, input));
  }

  lemma NoneLost(before: multiset<u32>, after: multiset<u32>, plan: Plan)
    requires before == after + (if LosesReply(plan) then Answered(plan.superseded) else multiset{})
    requires !LosesReply(plan)
    ensures before == after
  {
    hide *;
  }
}
