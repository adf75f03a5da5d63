/**
 The runtime behind its ingress: producers, the control loop's take, step and hand-back, and
 arbitrary store completions, interleaved one critical section at a time.
 */
module Dispatch {
  import opened Base
  import opened Retained
  import opened Runtime
  import opened RuntimeInvariant
  import opened RuntimeSafety
  import opened RuntimeRuns
  import opened RuntimeReplies
  import IN = Ingress
  import IH = IngressHistory

  /** What the control loop holds between two critical sections. */
  datatype Hand =
    | Free
    | Asked(off: bool, request: Option<Request>)
    | Answering(replies: seq<Reply>)

  datatype Loop = Loop(desk: IN.Desk, rt: Rt, hand: Hand)

  datatype Event =
    | Produce(event: IH.Event)
    | Take
    | Step(observed: Observed, completion: Option<Completion>)
    | Return

  /** The step's input is the request and the Off that were taken. */
  function InputOf(s: Loop, e: Event): Input
    requires e.Step? && s.hand.Asked?
  {
    Input(e.observed, s.hand.request, e.completion)
  }

  ghost predicate Enabled(s: Loop, e: Event) {
    match e
    case Produce(event) => !event.Take? && !event.Complete?
    case Take => s.hand.Free?
    case Step(observed, _) =>
      s.hand.Asked? && observed.forceOff == s.hand.off && PlanOf(s.rt, InputOf(s, e)).committed.Valid()
    case Return => s.hand.Answering?
  }

  function Listed(reply: Option<Reply>): seq<Reply> {
    if reply.Some? then [reply.value] else []
  }

  ghost function OutcomeOf(r: Rt, input: Input): Outcome
    requires PlanOf(r, input).committed.Valid()
  {
    Runtime.Step(r, input.observed, input.request, input.completion)
  }

  /** Both replies of a step, in the order they are handed back. */
  ghost function RepliesOf(r: Rt, input: Input): seq<Reply>
    requires PlanOf(r, input).committed.Valid()
  {
    Listed(OutcomeOf(r, input).commandReply) + Listed(OutcomeOf(r, input).completedReply)
  }

  ghost function Do(s: Loop, e: Event): Loop
    requires Enabled(s, e)
  {
    match e
    case Produce(event) => s.(desk := IH.Apply(s.desk, event))
    case Take =>
      var (desk, off, request) := IN.Taken(s.desk);
      s.(desk := desk, hand := Asked(off, request))
    case Step(_, _) =>
      s.(rt := Next(s.rt, InputOf(s, e)), hand := Answering(RepliesOf(s.rt, InputOf(s, e))))
    case Return =>
      if s.hand.replies == [] then s.(hand := Free)
      else s.(desk := IN.Completed(s.desk, s.hand.replies[0]), hand := Answering(s.hand.replies[1..]))
  }

  /** An empty ingress and a runtime just booted; what producers submit before the boot is submitted here. */
  ghost predicate Starts(s: Loop) {
    && s.desk == IN.NEW_DESK && s.hand.Free?
    && exists configuration, retained, now :: NewRuntime(configuration, retained, now) == Ok(s.rt)
  }

  ghost predicate Run(es: seq<Event>, ss: seq<Loop>) {
    && |ss| == |es| + 1
    && Starts(ss[0])
    && forall i :: 0 <= i < |es| ==> Enabled(ss[i], es[i]) && ss[i + 1] == Do(ss[i], es[i])
  }

  // -------------------------------------------------------------------- the link

  function SlotOut(s: IN.Slot): multiset<u32> {
    if s.Dispatched? then multiset{s.route.token.generation} else multiset{}
  }

  function RevocationOut(s: IN.RevocationSlot): multiset<u32> {
    if s.InFlight? then multiset{s.route.token.generation} else multiset{}
  }

  /** The generations dispatched and not yet completed. */
  function Out(d: IN.Desk): multiset<u32> {
    SlotOut(d.slot) + RevocationOut(d.clear) + RevocationOut(d.offReply)
  }

  function Ids(replies: seq<Reply>): multiset<u32> {
    if replies == [] then multiset{} else multiset{replies[0].id} + Ids(replies[1..])
  }

  function Asking(request: Option<Request>): multiset<u32> {
    if request.Some? then multiset{request.value.id} else multiset{}
  }

  function InHand(h: Hand): multiset<u32> {
    match h
    case Free => multiset{}
    case Asked(_, request) => Asking(request)
    case Answering(replies) => Ids(replies)
  }

  /** The generations the control loop still owes an answer: in the runtime or in its hand. */
  function Owed(s: Loop): multiset<u32> {
    Waiting(s.rt) + InHand(s.hand)
  }

  /** Only the one request slot holds requests that can wait. */
  predicate FromSlot(d: IN.Desk, id: u32) {
    d.slot.Dispatched? && d.slot.route.token.generation == id
  }

  predicate Revokes(request: Request) {
    request.command.ClearUtc? || request.command.TurnOff?
  }

  /**
   What is dispatched is exactly what is owed, each once, and whatever waits in the runtime
   came from the request slot.
   */
  ghost predicate Linked(s: Loop) {
    && Inv(s.rt) && IH.Inv(s.desk)
    && Out(s.desk) == Owed(s)
    && (s.rt.active.Some? ==> FromSlot(s.desk, s.rt.active.value.id))
    && (s.hand.Asked? && s.hand.request.Some? && !Revokes(s.hand.request.value) ==>
          FromSlot(s.desk, s.hand.request.value.id))
  }

  lemma OutIsDistinct(d: IN.Desk, g: u32)
    requires IH.Inv(d)
    ensures Out(d)[g] <= 1 && (g in Out(d) <==> IH.Outstanding(d, g))
  {
  }

  /** A request that can wait is taken only while none waits in the runtime. */
  lemma OneAtATime(s: Loop)
    requires Linked(s) && s.hand.Asked? && s.hand.request.Some? && !Revokes(s.hand.request.value)
    ensures s.rt.active.None?
  {
    OutIsDistinct(s.desk, s.hand.request.value.id);
    OwedTwice(s);
    hide Inv, IH.Inv, Owed, Out;
  }

  lemma OwedTwice(s: Loop)
    ensures s.hand.Asked? && s.hand.request.Some? && s.rt.active.Some? && s.rt.active.value.id == s.hand.request.value.id ==>
      Owed(s)[s.hand.request.value.id] == 2
  {
  }

  /** So the ingress never hands the runtime what the overwritten reply needs. */
  lemma LinkedNeverRaces(s: Loop, e: Event)
    requires Linked(s) && e.Step? && s.hand.Asked?
    ensures !Races(s.rt, InputOf(s, e))
  {
    if s.hand.request.Some? && !Revokes(s.hand.request.value) {
      OneAtATime(s);
    }
    hide Linked;
  }

  /** A dispatched request keeps its slot. */
  predicate KeepsSlot(d: IN.Desk, e: IN.Desk) {
    d.slot.Dispatched? ==> e.slot.Dispatched? && e.slot.route == d.slot.route
  }

  /** The same routes are dispatched from the same slots. */
  predicate SameOut(d: IN.Desk, e: IN.Desk) {
    && (d.slot.Dispatched? <==> e.slot.Dispatched?) && KeepsSlot(d, e)
    && (d.clear.InFlight? <==> e.clear.InFlight?) && (d.clear.InFlight? ==> e.clear.route == d.clear.route)
    && (d.offReply.InFlight? <==> e.offReply.InFlight?) && (d.offReply.InFlight? ==> e.offReply.route == d.offReply.route)
  }

  lemma SubmitKeepsOut(d: IN.Desk, producer: IN.Producer, request: Request)
    ensures SameOut(d, IN.Submitted(d, producer, request).0)
  {
    var overtaken := IN.Overtaken(d, request.command);
    assert SameOut(d, overtaken);
    if !IN.Refused(overtaken, producer, request.command) {
      assert SameOut(overtaken, IN.Admitted(overtaken, producer, request).0);
    }
    hide IN.Overtaken, IN.Admitted, IN.Refused;
  }

  lemma CancelKeepsOut(d: IN.Desk, token: IN.Token)
    ensures SameOut(d, IN.Cancelled(d, token))
  {
  }

  lemma CollectKeepsOut(d: IN.Desk, token: IN.Token)
    ensures SameOut(d, IN.Collected(d, token).0)
  {
  }

  lemma ProduceKeepsOut(d: IN.Desk, event: IH.Event)
    requires !event.Take? && !event.Complete?
    ensures KeepsSlot(d, IH.Apply(d, event)) && Out(IH.Apply(d, event)) == Out(d)
  {
    hide IN.Submitted, IN.Collected, IN.Cancelled, IN.ConsoleToken, Out, SameOut;
    SameOutReflexive(d);
    match event {
      case Submit(producer, request) => SubmitKeepsOut(d, producer, request);
      case Collect(token) => CollectKeepsOut(d, token);
      case CollectConsole =>
        if IN.ConsoleToken(d).Some? {
          CollectKeepsOut(d, IN.ConsoleToken(d).value);
        }
      case Cancel(token) => CancelKeepsOut(d, token);
      case Reserve(_) =>
    }
    SameOutCounts(d, IH.Apply(d, event));
  }

  lemma SameOutReflexive(d: IN.Desk)
    ensures SameOut(d, d) && forall active :: SameOut(d, d.(reserved := active))
  {
  }

  lemma SameOutCounts(d: IN.Desk, e: IN.Desk)
    requires SameOut(d, e)
    ensures Out(e) == Out(d) && KeepsSlot(d, e)
  {
    assert SlotOut(e.slot) == SlotOut(d.slot);
    assert RevocationOut(e.clear) == RevocationOut(d.clear);
    assert RevocationOut(e.offReply) == RevocationOut(d.offReply);
    hide SlotOut, RevocationOut, SameOut;
  }

  lemma TakeAddsOut(d: IN.Desk)
    requires IH.Inv(d)
    ensures var (desk, _, request) := IN.Taken(d);
      && Out(desk) == Out(d) + Asking(request) && KeepsSlot(d, desk)
      && (request.Some? && !Revokes(request.value) ==> FromSlot(desk, request.value.id))
  {
    var (desk, _, request) := IN.Taken(d);
    if d.clear.Queued? {
      assert RevocationOut(desk.clear) == RevocationOut(d.clear) + Asking(request);
      Move(RevocationOut(d.clear), RevocationOut(desk.clear), Asking(request), SlotOut(d.slot), RevocationOut(d.offReply));
    } else if d.offReply.Queued? {
      assert RevocationOut(desk.offReply) == RevocationOut(d.offReply) + Asking(request);
      Move(RevocationOut(d.offReply), RevocationOut(desk.offReply), Asking(request), SlotOut(d.slot), RevocationOut(d.clear));
    } else {
      assert SlotOut(desk.slot) == SlotOut(d.slot) + Asking(request);
      Move(SlotOut(d.slot), SlotOut(desk.slot), Asking(request), RevocationOut(d.clear), RevocationOut(d.offReply));
    }
    hide SlotOut, RevocationOut, Asking;
  }

  lemma Move(before: multiset<u32>, after: multiset<u32>, moved: multiset<u32>, x: multiset<u32>, y: multiset<u32>)
    requires after == before + moved
    ensures after + x + y == before + x + y + moved
    ensures x + after + y == x + before + y + moved
    ensures x + y + after == x + y + before + moved
  {
    hide *;
  }

  /** A completion changes just the one slot it names, which is dispatched no longer. */
  lemma CompletedFields(d: IN.Desk, reply: Reply)
    requires IH.Outstanding(d, reply.id)
    ensures var e := IN.Completed(d, reply);
      || (d.clear.InFlight? && d.clear.route.token.generation == reply.id && !e.clear.InFlight? && e == d.(clear := e.clear))
      || (d.offReply.InFlight? && d.offReply.route.token.generation == reply.id && !e.offReply.InFlight?
          && e == d.(offReply := e.offReply))
      || (FromSlot(d, reply.id) && !e.slot.Dispatched? && e == d.(slot := e.slot))
  {
  }

  lemma DropsOne(d: IN.Desk, e: IN.Desk)
    ensures d.slot.Dispatched? ==> SlotOut(d.slot) == multiset{d.slot.route.token.generation}
    ensures d.clear.InFlight? ==> RevocationOut(d.clear) == multiset{d.clear.route.token.generation}
    ensures d.offReply.InFlight? ==> RevocationOut(d.offReply) == multiset{d.offReply.route.token.generation}
    ensures !e.slot.Dispatched? ==> SlotOut(e.slot) == multiset{}
    ensures !e.clear.InFlight? ==> RevocationOut(e.clear) == multiset{}
    ensures !e.offReply.InFlight? ==> RevocationOut(e.offReply) == multiset{}
  {
  }

  lemma CompleteRemovesOut(d: IN.Desk, reply: Reply)
    requires IH.Outstanding(d, reply.id)
    ensures Out(d) == Out(IN.Completed(d, reply)) + multiset{reply.id}
    ensures FromSlot(d, reply.id) || KeepsSlot(d, IN.Completed(d, reply))
  {
    hide IN.Completed, IH.Outstanding, SlotOut, RevocationOut;
    CompletedFields(d, reply);
    DropsOne(d, IN.Completed(d, reply));
    var e := IN.Completed(d, reply);
    if FromSlot(d, reply.id) && !e.slot.Dispatched? && e == d.(slot := e.slot) {
      Move(SlotOut(e.slot), SlotOut(d.slot), multiset{reply.id}, RevocationOut(d.clear), RevocationOut(d.offReply));
    } else if d.clear.InFlight? && !e.clear.InFlight? && e == d.(clear := e.clear) {
      Move(RevocationOut(e.clear), RevocationOut(d.clear), multiset{reply.id}, SlotOut(d.slot), RevocationOut(d.offReply));
    } else {
      Move(RevocationOut(e.offReply), RevocationOut(d.offReply), multiset{reply.id}, SlotOut(d.slot), RevocationOut(d.clear));
    }
  }

  lemma DeskKeepsInv(d: IN.Desk, event: IH.Event)
    requires IH.Inv(d)
    ensures IH.Inv(IH.Apply(d, event))
  {
    IH.ApplyKeepsInv(d, event);
    hide IH.Inv, IH.Live, IH.Apply;
  }

  // ---------------------------------------------------------------- one step

  /** A request is taken on or answered by the command reply, never both. */
  lemma AskIsAnsweredOrTaken(r: Rt, input: Input)
    requires PlanOf(r, input).committed.Valid()
    ensures Asking(input.request) == Taken(PlanOf(r, input)) + Answered(OutcomeOf(r, input).commandReply)
  {
    hide MakePlan, Runtime.Step, Settle, Admit, Confirm, Taken, Answered, Asking;
    var plan := PlanOf(r, input);
    EarlyStages(r, input.observed, input.request, input.completion);
    StepParts(r, input.observed, input.request, input.completion);
    NoRequestNoResult(plan.settled, input.observed, plan.request);
    ConfirmAnswers(input.request, PlanOf(r, input), OutcomeOf(r, input));
  }

  lemma ConfirmAnswers(request: Option<Request>, plan: Plan, out: Outcome)
    requires plan.request.Some? <==> request.Some?
    requires request.Some? ==> plan.request.value.id == request.value.id
    requires plan.request.None? ==> plan.admission.result.None?
    requires out.commandReply == Confirm(out.rt, plan.request, plan.admission.result)
    ensures Asking(request) == Taken(plan) + Answered(out.commandReply)
  {
  }

  lemma NoRequestNoResult(r: Rt, observed: Observed, request: Option<Request>)
    requires request.Some? ==> !request.value.command.Toggle?
    ensures request.None? ==> Admit(r, observed, request).result.None?
  {
  }

  /** Requests waiting before a step and asked of it are those it answers and those still waiting. */
  lemma StepConserves(r: Rt, input: Input)
    requires Inv(r) && PlanOf(r, input).committed.Valid() && !Races(r, input)
    ensures Waiting(r) + Asking(input.request) == Waiting(Next(r, input)) + Ids(RepliesOf(r, input))
  {
    hide Inv, PlanOf, Next, Races, Waiting, Taken, Answered, Runtime.Step, Asking;
    StepBalance(r, input);
    AskIsAnsweredOrTaken(r, input);
    var out := OutcomeOf(r, input);
    IdsOfBoth(out.commandReply, out.completedReply);
    Exchange(Waiting(r), Taken(PlanOf(r, input)), Waiting(Next(r, input)), Answered(out.completedReply),
             Asking(input.request), Answered(out.commandReply));
  }

  lemma IdsOfOne(reply: Option<Reply>)
    ensures Ids(Listed(reply)) == Answered(reply)
  {
  }

  lemma IdsOfBoth(first: Option<Reply>, second: Option<Reply>)
    ensures Ids(Listed(first) + Listed(second)) == Answered(first) + Answered(second)
  {
    IdsOfOne(second);
    var both := Listed(first) + Listed(second);
    if first.Some? {
      assert both[1..] == Listed(second);
    } else {
      assert both == Listed(second);
    }
  }

  lemma Exchange(before: multiset<u32>, taken: multiset<u32>, after: multiset<u32>, completed: multiset<u32>,
                 asked: multiset<u32>, commanded: multiset<u32>)
    requires before + taken == after + completed && asked == taken + commanded
    ensures before + asked == after + (commanded + completed)
  {
    assert before + asked == (before + taken) + commanded;
    hide *;
  }

  /** What waits after a step waited before it or is the request just taken on, which revokes nothing. */
  lemma WaitersComeFromSlot(r: Rt, input: Input)
    requires Inv(r) && PlanOf(r, input).committed.Valid()
    ensures var n := Next(r, input);
      n.active.Some? ==>
        || (r.active.Some? && n.active.value.id == r.active.value.id)
        || (input.request.Some? && !Revokes(input.request.value) && n.active.value.id == input.request.value.id)
  {
    hide MakePlan, Settle, Admit, Commit, Inv, Core, Runtime.Step, ClockStep, Saving, Entering, Releasing;
    var plan := PlanOf(r, input);
    EarlyStages(r, input.observed, input.request, input.completion);
    PlanRaceFacts(r, input.observed, input.request, input.completion);
    PlanStages(r, input.observed, input.request, input.completion);
    StepParts(r, input.observed, input.request, input.completion);
    AdmitReplies(plan.settled, input.observed, plan.request);
    AdmitOutcomes(plan.settled, input.observed, plan.request);
    CommitReplies(plan.persisted, input.observed.maintenancePressed, plan.defers);
  }

  // -------------------------------------------------------- the link in every run

  /** A runtime just booted owes nothing, so it links to any desk with nothing dispatched. */
  lemma BootIsLinked(d: IN.Desk, r: Rt, configuration: Option<Device>, retained: Option<RetainedState>, now: Millis)
    requires IH.Inv(d) && Out(d) == multiset{} && NewRuntime(configuration, retained, now) == Ok(r)
    ensures Linked(Loop(d, r, Free))
  {
    NewRuntimeInv(configuration, retained, now);
    hide Inv, IH.Inv, Out;
  }

  lemma StartIsLinked(s: Loop)
    requires Starts(s)
    ensures Linked(s)
  {
    var configuration, retained, now :| NewRuntime(configuration, retained, now) == Ok(s.rt);
    NothingOutAtFirst(s);
    BootIsLinked(s.desk, s.rt, configuration, retained, now);
    hide Linked, Out, NewRuntime;
  }

  lemma NothingOutAtFirst(s: Loop)
    requires Starts(s)
    ensures Out(s.desk) == multiset{} && IH.Inv(s.desk)
  {
  }

  lemma ProduceKeepsLink(s: Loop, e: Event)
    requires Linked(s) && e.Produce? && Enabled(s, e)
    ensures Linked(Do(s, e)) && Owed(Do(s, e)) == Owed(s)
  {
    hide Inv, IH.Inv, IH.Apply, Out;
    DeskKeepsInv(s.desk, e.event);
    ProduceKeepsOut(s.desk, e.event);
  }

  lemma TakeKeepsLink(s: Loop)
    requires Linked(s) && Enabled(s, Take)
    ensures Linked(Do(s, Take))
    ensures Owed(Do(s, Take)) == Owed(s) + Asking(IN.Taken(s.desk).2)
  {
    hide Inv, IH.Inv, IN.Taken, Out;
    DeskTakeKeepsInv(s.desk);
    TakeAddsOut(s.desk);
  }

  lemma DeskTakeKeepsInv(d: IN.Desk)
    requires IH.Inv(d)
    ensures IH.Inv(IN.Taken(d).0)
  {
    IH.TakeKeeps(d);
    hide IH.Inv, IH.Live, IN.Taken;
  }

  lemma StepKeepsLink(s: Loop, e: Event)
    requires Linked(s) && e.Step? && Enabled(s, e)
    ensures Linked(Do(s, e)) && Owed(Do(s, e)) == Owed(s)
  {
    hide Inv, IH.Inv, PlanOf, Next, Races, RepliesOf, Waiting, Out, Ids;
    var input := InputOf(s, e);
    LinkedNeverRaces(s, e);
    StepConserves(s.rt, input);
    NextKeepsInv(s.rt, input);
    WaitersComeFromSlot(s.rt, input);
  }

  lemma NextKeepsInv(r: Rt, input: Input)
    requires Inv(r) && PlanOf(r, input).committed.Valid()
    ensures Inv(Next(r, input))
  {
    hide Inv, MakePlan, Runtime.Step;
    StepKeepsInv(r, input.observed, input.request, input.completion);
  }

  /** The next reply to hand back names work that is still outstanding. */
  lemma ReplyIsOutstanding(s: Loop)
    requires Linked(s) && s.hand.Answering? && s.hand.replies != []
    ensures IH.Outstanding(s.desk, s.hand.replies[0].id)
    ensures s.rt.active.Some? ==> s.rt.active.value.id != s.hand.replies[0].id
  {
    var g := s.hand.replies[0].id;
    OutIsDistinct(s.desk, g);
    assert Ids(s.hand.replies)[g] >= 1;
    if s.rt.active.Some? && s.rt.active.value.id == g {
      OwedAgain(s);
    }
    hide Inv, IH.Inv, Out;
  }

  lemma OwedAgain(s: Loop)
    requires s.hand.Answering? && s.hand.replies != []
    requires s.rt.active.Some? && s.rt.active.value.id == s.hand.replies[0].id
    ensures Owed(s)[s.hand.replies[0].id] >= 2
  {
  }

  lemma ReturnKeepsLink(s: Loop)
    requires Linked(s) && Enabled(s, Return)
    ensures Linked(Do(s, Return))
  {
    hide Inv, IH.Inv, IN.Completed, Out, IH.Outstanding, Owed;
    ReturnSettles(s);
    if s.hand.replies != [] {
      ReplyIsOutstanding(s);
      DeskCompleteKeepsInv(s.desk, s.hand.replies[0]);
      CompleteRemovesOut(s.desk, s.hand.replies[0]);
    }
  }

  /** Handing a reply back settles exactly the work it names. */
  lemma ReturnSettles(s: Loop)
    requires Linked(s) && Enabled(s, Return)
    ensures Out(Do(s, Return).desk) == Owed(Do(s, Return))
  {
    hide Inv, IH.Inv, IN.Completed, Out, IH.Outstanding, Waiting;
    if s.hand.replies != [] {
      ReplyIsOutstanding(s);
      CompleteRemovesOut(s.desk, s.hand.replies[0]);
      OneLess(Out(s.desk), Out(Do(s, Return).desk), Waiting(s.rt), Ids(s.hand.replies[1..]), multiset{s.hand.replies[0].id});
    }
  }

  lemma OneLess(out: multiset<u32>, left: multiset<u32>, waiting: multiset<u32>, ids: multiset<u32>, one: multiset<u32>)
    requires out == left + one && out == waiting + (one + ids)
    ensures left == waiting + ids
  {
    assert left == out - one;
    hide *;
  }

  lemma DeskCompleteKeepsInv(d: IN.Desk, reply: Reply)
    requires IH.Inv(d)
    ensures IH.Inv(IN.Completed(d, reply))
  {
    IH.CompleteKeeps(d, reply);
    hide IH.Inv, IH.Live, IN.Completed;
  }

  lemma DoKeepsLink(s: Loop, e: Event)
    requires Linked(s) && Enabled(s, e)
    ensures Linked(Do(s, e))
  {
    hide Linked, Do, Enabled, Owed;
    match e {
      case Produce(_) => ProduceKeepsLink(s, e);
      case Take => TakeKeepsLink(s);
      case Step(_, _) => StepKeepsLink(s, e);
      case Return => ReturnKeepsLink(s);
    }
  }

  /** The three transitions of an iteration, as the control loop performs them. */
  lemma StepLinks(s: Loop, observed: Observed, completion: Option<Completion>)
    requires Linked(s) && s.hand.Asked? && observed.forceOff == s.hand.off
    ensures MakePlan(s.rt, observed, s.hand.request, completion).committed.Valid()
    ensures var out := Runtime.Step(s.rt, observed, s.hand.request, completion);
      Linked(Loop(s.desk, out.rt, Answering(Listed(out.commandReply) + Listed(out.completedReply))))
  {
    var e := Step(observed, completion);
    RunsOn(s, observed, completion);
    StepKeepsLink(s, e);
    assert Do(s, e) == Loop(s.desk, Next(s.rt, InputOf(s, e)), Answering(RepliesOf(s.rt, InputOf(s, e))));
    hide Linked, MakePlan, Runtime.Step;
  }

  lemma RunsOn(s: Loop, observed: Observed, completion: Option<Completion>)
    requires Linked(s) && s.hand.Asked?
    ensures MakePlan(s.rt, observed, s.hand.request, completion).committed.Valid()
  {
    StepKeepsInv(s.rt, observed, s.hand.request, completion);
    hide Inv, IH.Inv, MakePlan, Runtime.Step;
  }

  lemma ReturnLinks(d: IN.Desk, r: Rt, reply: Reply, rest: seq<Reply>)
    requires Linked(Loop(d, r, Answering([reply] + rest)))
    ensures Linked(Loop(IN.Completed(d, reply), r, Answering(rest)))
  {
    hide Linked, IN.Completed;
    var s := Loop(d, r, Answering([reply] + rest));
    assert s.hand.replies[1..] == rest;
    ReturnKeepsLink(s);
  }

  lemma DoneLinks(d: IN.Desk, r: Rt)
    requires Linked(Loop(d, r, Answering([])))
    ensures Linked(Loop(d, r, Free))
  {
    hide Linked;
    ReturnKeepsLink(Loop(d, r, Answering([])));
  }

  /** At every point of every run, dispatched work is exactly what the control loop still owes. */
  lemma {:induction false} LinkedAlways(es: seq<Event>, ss: seq<Loop>, n: nat)
    requires Run(es, ss) && n <= |es|
    ensures Linked(ss[n])
  {
    hide Linked, Do, Enabled, Starts;
    if n == 0 {
      StartIsLinked(ss[0]);
    } else {
      LinkedAlways(es, ss, n - 1);
      DoKeepsLink(ss[n - 1], es[n - 1]);
    }
  }

  /** Behind the ingress no reply of the runtime is ever overwritten. */
  lemma NoReplyIsLost(es: seq<Event>, ss: seq<Loop>, n: nat)
    requires Run(es, ss) && n < |es| && es[n].Step?
    ensures !LosesReply(PlanOf(ss[n].rt, InputOf(ss[n], es[n])))
  {
    LinkedAlways(es, ss, n);
    LinkedNeverRaces(ss[n], es[n]);
    var input := InputOf(ss[n], es[n]);
    ReplyLostExactlyInRace(ss[n].rt, input.observed, input.request, input.completion);
    hide Inv, IH.Inv, MakePlan, LastTicketRace, LosesReply, Do, Starts, Out, Owed;
  }
}
