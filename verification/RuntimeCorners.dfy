/** Concrete runs from a boot behind the two corner cases of the runtime's promises. */
module RuntimeCorners {
  import opened Base
  import opened Interlock
  import opened Occurrences
  import opened Retained
  import opened Runtime
  import opened RuntimeInvariant
  import opened RuntimeSafety
  import opened RuntimeRuns
  import Utc
  import P = Policy
  import S = Schedule
  import SI = ScheduleInterval

  function PlainDevice(revision: u32): (d: Device)
    requires revision != 0
    ensures d.revision == revision
  {
    Device(revision, P.Settings(Config(0, 1, 1, Timing(1, 1, 1)), 1), S.Schedule([], 1),
           TimeZone((u: UtcSeconds) => None, (d: u32, s: int) => S.NoSuchTime), false)
  }

  function Plain(maintenance: bool): RetainedState {
    RetainedState(1, maintenance, None)
  }

  /** A runtime just booted at revision 1, in maintenance or out of it. */
  function Booted(maintenance: bool): Rt {
    Rt(Some(PlainDevice(1)), Some(P.Initial(PlainDevice(1).settings, 0)), Some(Plain(maintenance)),
       Some(Plain(maintenance)), None, None, 0, None, maintenance, false, None, 0, false)
  }

  lemma BootedStarts(maintenance: bool)
    ensures NewRuntime(Some(PlainDevice(1)), Some(Plain(maintenance)), 0) == Ok(Booted(maintenance))
    ensures Inv(Booted(maintenance)) && Idle(Booted(maintenance), maintenance, 0)
  {
    NewRuntimeInv(Some(PlainDevice(1)), Some(Plain(maintenance)), 0);
  }

  // Everything below is up to the supervisor, which these steps leave to itself.

  /** Nothing in flight after `ticket` stores. */
  ghost predicate Idle(r: Rt, maintenance: bool, ticket: u64) {
    r == Booted(maintenance).(supervisor := r.supervisor, nextTicket := ticket)
  }

  /** An entry, or an exit, waits on its own store. */
  ghost predicate Changing(r: Rt, maintenance: bool, ticket: u64) {
    r == Booted(!maintenance).(
      supervisor := r.supervisor, nextTicket := ticket, maintenance := true, desired := Some(Plain(maintenance)),
      pending := Some(StoreRequest(ticket, RetainedRecord(Plain(maintenance)))),
      active := Some(ActiveRequest(6, if maintenance then ForEntering else ForLeaving)))
  }

  /** The button superseded an exit while its clear record was still in flight. */
  ghost predicate Superseded(r: Rt) {
    r == Booted(true).(supervisor := r.supervisor, nextTicket := 1,
                       pending := Some(StoreRequest(1, RetainedRecord(Plain(false)))))
  }

  function Calm(): Observed {
    Observed(0, 1, Invalid(Uncalibrated), P.Allowed, false, false, ClockUpdate(false, None))
  }

  function Ask(maintenance: bool): Input {
    Input(Calm(), Some(Request(6, if maintenance then BeginMaintenance else EndMaintenance)), None)
  }

  function Stored(ticket: u64): Input {
    Input(Calm(), None, Some(Completion(ticket, true)))
  }

  function Button(): Input {
    Input(Calm().(maintenancePressed := true), None, None)
  }

  function AskAgain(): Input {
    Input(Calm(), Some(Request(7, EndMaintenance)), Some(Completion(1, true)))
  }

  function SaveAfterFailure(): Input {
    Input(Calm(), Some(Request(4, SaveConfiguration(PlainDevice(2)))), Some(Completion(U64_MAX, false)))
  }

  lemma NextIsInv(r: Rt, input: Input)
    requires Inv(r)
    ensures PlanOf(r, input).committed.Valid() && Inv(Next(r, input))
  {
    hide Inv, MakePlan, Step;
    StepKeepsInv(r, input.observed, input.request, input.completion);
  }

  lemma ChangeBegins(r: Rt, maintenance: bool, ticket: u64)
    requires Inv(r) && Idle(r, !maintenance, ticket) && ticket < U64_MAX
    ensures PlanOf(r, Ask(maintenance)).committed.Valid() && Changing(Next(r, Ask(maintenance)), maintenance, ticket + 1)
  {
    hide Inv, P.Updated, P.Initial, PlainDevice, Utc.AnchorBounds, Utc.AnchorAfter;
    NextIsInv(r, Ask(maintenance));
  }

  lemma ChangeEnds(r: Rt, maintenance: bool, ticket: u64)
    requires Inv(r) && Changing(r, maintenance, ticket)
    ensures PlanOf(r, Stored(ticket)).committed.Valid() && Idle(Next(r, Stored(ticket)), maintenance, ticket)
  {
    hide Inv, P.Updated, P.Initial, PlainDevice, Utc.AnchorBounds, Utc.AnchorAfter;
    NextIsInv(r, Stored(ticket));
  }

  // ------------------------------------------------- an older acknowledgement

  lemma ButtonSupersedes(r: Rt)
    requires Inv(r) && Changing(r, false, 1)
    ensures PlanOf(r, Button()).committed.Valid() && Superseded(Next(r, Button()))
  {
    hide Inv, P.Updated, P.Initial, PlainDevice, Utc.AnchorBounds, Utc.AnchorAfter;
    NextIsInv(r, Button());
  }

  lemma StaleClearAnswers(r: Rt)
    requires Inv(r) && Superseded(r)
    ensures PlanOf(r, AskAgain()).committed.Valid()
    ensures Latched(r) && AcceptsExit(r, AskAgain()) && AcksClear(r, AskAgain())
    ensures Step(r, AskAgain().observed, AskAgain().request, AskAgain().completion).completedReply
         == Some(Reply(7, Ok(Durable)))
    ensures var n := Next(r, AskAgain());
      !n.maintenance && n.desired == n.durable && n.pending.None? && n.nextTicket == r.nextTicket
  {
    hide Inv, P.Updated, P.Initial, PlainDevice, Utc.AnchorBounds, Utc.AnchorAfter, SI.EvaluateInterval;
    NextIsInv(r, AskAgain());
  }

  /**
   Reached from a boot: the button supersedes an exit whose clear record is in flight, and an
   exit taken on in the very step that acknowledges that record is answered at once.
   Maintenance ends with no record written for the exit that ended it.
   */
  lemma StaleClearReleases() returns (rs: seq<Rt>)
    ensures Steps([Ask(false), Button(), AskAgain()], rs)
    ensures NewRuntime(Some(PlainDevice(1)), Some(Plain(true)), 0) == Ok(rs[0])
    ensures Latched(rs[2]) && AcceptsExit(rs[2], AskAgain()) && AcksClear(rs[2], AskAgain())
    ensures Step(rs[2], AskAgain().observed, AskAgain().request, AskAgain().completion).completedReply
         == Some(Reply(7, Ok(Durable)))
    ensures !rs[3].maintenance && rs[3].durable == rs[3].desired && rs[3].nextTicket == rs[2].nextTicket
  {
    hide Inv, PlanOf, Next, Step, AcceptsExit, AcksClear, NewRuntime, Booted, PlainDevice, Plain,
         Idle, Changing, Superseded, Latched, Ask, Button, AskAgain;
    BootedStarts(true);
    var booted := Booted(true);
    ChangeBegins(booted, false, 0);
    NextIsInv(booted, Ask(false));
    var waiting := Next(booted, Ask(false));
    ButtonSupersedes(waiting);
    NextIsInv(waiting, Button());
    var superseded := Next(waiting, Button());
    StaleClearAnswers(superseded);
    rs := [booted, waiting, superseded, Next(superseded, AskAgain())];
  }

  // --------------------------------------------------- the last ticket of all

  lemma Extend(inputs: seq<Input>, rs: seq<Rt>, input: Input)
    requires Steps(inputs, rs) && PlanOf(rs[|inputs|], input).committed.Valid()
    ensures Steps(inputs + [input], rs + [Next(rs[|inputs|], input)])
  {
    hide Inv, PlanOf, Next;
  }

  /** One maintenance change, begun and stored, takes a run one ticket further. */
  lemma OneTicketMore(inputs: seq<Input>, rs: seq<Rt>, maintenance: bool, ticket: u64)
    returns (inputs': seq<Input>, rs': seq<Rt>)
    requires Steps(inputs, rs) && Idle(rs[|inputs|], !maintenance, ticket) && ticket < U64_MAX
    ensures Steps(inputs', rs') && rs'[0] == rs[0] && Idle(rs'[|inputs'|], maintenance, ticket + 1)
  {
    hide Inv, PlanOf, Next, Idle, Changing, Ask, Stored;
    StepsInv(inputs, rs, |inputs|);
    var r := rs[|inputs|];
    ChangeBegins(r, maintenance, ticket);
    NextIsInv(r, Ask(maintenance));
    Extend(inputs, rs, Ask(maintenance));
    inputs', rs' := inputs + [Ask(maintenance)], rs + [Next(r, Ask(maintenance))];
    var changing := rs'[|inputs'|];
    ChangeEnds(changing, maintenance, ticket + 1);
    Extend(inputs', rs', Stored(ticket + 1));
    inputs', rs' := inputs' + [Stored(ticket + 1)], rs' + [Next(changing, Stored(ticket + 1))];
  }

  /** Entering and leaving maintenance over and over uses up any even number of tickets. */
  lemma {:induction false} TicketsRunOut(n: nat) returns (inputs: seq<Input>, rs: seq<Rt>)
    requires 2 * n < U64_MAX
    ensures Steps(inputs, rs) && rs[0] == Booted(false) && Idle(rs[|inputs|], false, 2 * n)
  {
    hide Inv, PlanOf, Next, Idle, Booted;
    if n == 0 {
      BootedStarts(false);
      inputs, rs := [], [Booted(false)];
    } else {
      inputs, rs := TicketsRunOut(n - 1);
      inputs, rs := OneTicketMore(inputs, rs, true, 2 * (n - 1));
      inputs, rs := OneTicketMore(inputs, rs, false, 2 * n - 1);
    }
  }

  /** The failed entry's reply is overwritten by the save that finds no ticket left. */
  lemma LastTicketFailsBoth(r: Rt)
    requires Inv(r) && Changing(r, true, U64_MAX)
    ensures var plan := PlanOf(r, SaveAfterFailure());
      && plan.superseded == Some(Reply(6, Err(Storage)))
      && plan.finished == Some(Reply(4, Err(Exhausted)))
  {
    hide Inv, P.Updated, P.Initial, Utc.AnchorBounds, Utc.AnchorAfter, SI.EvaluateInterval;
  }

  /**
   The runtime on its own, stepped with whatever requests one likes, reaches the lost reply
   from a boot: maintenance is entered and left until one ticket is left, an entry takes it,
   and in the step that learns of its failure a save is submitted.
   */
  lemma LastTicketLosesReply() returns (inputs: seq<Input>, rs: seq<Rt>)
    ensures Steps(inputs, rs) && NewRuntime(Some(PlainDevice(1)), Some(Plain(false)), 0) == Ok(rs[0])
    ensures var r := rs[|inputs|];
      var plan := PlanOf(r, SaveAfterFailure());
      && r.active.Some?
      && plan.superseded == Some(Reply(r.active.value.id, Err(Storage)))
      && plan.finished == Some(Reply(4, Err(Exhausted)))
      && LosesReply(plan)
  {
    hide Inv, PlanOf, Next, Idle, Booted, NewRuntime, PlainDevice, Plain;
    BootedStarts(false);
    inputs, rs := TicketsRunOut((U64_MAX - 1) / 2);
    var r := rs[|inputs|];
    StepsInv(inputs, rs, |inputs|);
    ChangeBegins(r, true, U64_MAX - 1);
    NextIsInv(r, Ask(true));
    Extend(inputs, rs, Ask(true));
    inputs, rs := inputs + [Ask(true)], rs + [Next(r, Ask(true))];
    LastTicketFailsBoth(rs[|inputs|]);
  }
}
