/**
 Exactly one answer for every dispatched request, over every run of the runtime behind its
 ingress: the balance of work, no answer twice, and when the answer comes.
 */
module DispatchReplies {
  import opened Base
  import opened Runtime
  import opened RuntimeInvariant
  import opened RuntimeSafety
  import opened RuntimeRuns
  import opened RuntimeReplies
  import opened Dispatch
  import IN = Ingress
  import IH = IngressHistory

  // --------------------------------------------------------------- the balance

  ghost predicate Dispatches(s: Loop, e: Event, g: u32) {
    e.Take? && IN.Taken(s.desk).2.Some? && IN.Taken(s.desk).2.value.id == g
  }

  /** A reply under generation `g` is handed back to the ingress. */
  ghost predicate Returns(s: Loop, e: Event, g: u32) {
    e.Return? && s.hand.Answering? && s.hand.replies != [] && s.hand.replies[0].id == g
  }

  ghost function Dispatched(s: Loop, e: Event): multiset<u32> {
    if e.Take? then Asking(IN.Taken(s.desk).2) else multiset{}
  }

  ghost function Returned(s: Loop, e: Event): multiset<u32> {
    if e.Return? && s.hand.Answering? && s.hand.replies != [] then multiset{s.hand.replies[0].id} else multiset{}
  }

  ghost function DispatchedOver(es: seq<Event>, ss: seq<Loop>, i: nat, j: nat): multiset<u32>
    requires |ss| == |es| + 1 && j <= |es|
  {
    if j <= i then multiset{} else DispatchedOver(es, ss, i, j - 1) + Dispatched(ss[j - 1], es[j - 1])
  }

  ghost function ReturnedOver(es: seq<Event>, ss: seq<Loop>, i: nat, j: nat): multiset<u32>
    requires |ss| == |es| + 1 && j <= |es|
  {
    if j <= i then multiset{} else ReturnedOver(es, ss, i, j - 1) + Returned(ss[j - 1], es[j - 1])
  }

  lemma DoBalances(s: Loop, e: Event)
    requires Linked(s) && Enabled(s, e)
    ensures Owed(s) + Dispatched(s, e) == Owed(Do(s, e)) + Returned(s, e)
  {
    hide Linked, Do, Owed, Asking;
    match e {
      case Produce(_) => ProduceKeepsLink(s, e);
      case Take => TakeKeepsLink(s);
      case Step(_, _) => StepKeepsLink(s, e);
      case Return => ReturnBalances(s);
    }
  }

  lemma ReturnBalances(s: Loop)
    requires Enabled(s, Return)
    ensures Owed(s) + multiset{} == Owed(Do(s, Return)) + Returned(s, Return)
  {
    hide Waiting, IN.Completed;
    if s.hand.replies != [] {
      var rest := Ids(s.hand.replies[1..]);
      assert Owed(s) == Waiting(s.rt) + (multiset{s.hand.replies[0].id} + rest);
      assert Owed(Do(s, Return)) == Waiting(s.rt) + rest;
    }
  }

  /**
   Over any stretch of any run, what was owed and what is dispatched is exactly what is handed
   back and what is still owed: nothing is lost, nothing is answered twice.
   */
  lemma {:induction false} RunBalances(es: seq<Event>, ss: seq<Loop>, i: nat, j: nat)
    requires Run(es, ss) && i <= j <= |es|
    ensures Owed(ss[i]) + DispatchedOver(es, ss, i, j) == Owed(ss[j]) + ReturnedOver(es, ss, i, j)
    decreases j
  {
    hide Linked, Do, Enabled, Starts, Owed, Dispatched, Returned;
    if i < j {
      RunBalances(es, ss, i, j - 1);
      LinkedAlways(es, ss, j - 1);
      DoBalances(ss[j - 1], es[j - 1]);
      BalancesAdd(Owed(ss[i]), DispatchedOver(es, ss, i, j - 1), Owed(ss[j - 1]), ReturnedOver(es, ss, i, j - 1),
                  Dispatched(ss[j - 1], es[j - 1]), Owed(ss[j]), Returned(ss[j - 1], es[j - 1]));
    }
  }

  // ------------------------------------------------------------- exactly once

  /** Generation `g` was issued and no longer waits to be dispatched. */
  predicate Begun(d: IN.Desk, g: u32) {
    && g <= d.generation
    && (d.slot.Waiting? ==> d.slot.route.token.generation != g)
    && (d.clear.Queued? ==> d.clear.route.token.generation != g)
    && (d.offReply.Queued? ==> d.offReply.route.token.generation != g)
  }

  lemma SubmitKeepsBegun(d: IN.Desk, producer: IN.Producer, request: Request, g: u32)
    requires Begun(d, g)
    ensures Begun(IN.Submitted(d, producer, request).0, g)
  {
    hide IN.Overtaken, IN.Admitted, IN.Refused;
    var overtaken := IN.Overtaken(d, request.command);
    OvertakenKeepsBegun(d, request.command, g);
    if !IN.Refused(overtaken, producer, request.command) {
      AdmittedKeepsBegun(overtaken, producer, request, g);
    }
  }

  lemma OvertakenKeepsBegun(d: IN.Desk, c: Command, g: u32)
    requires Begun(d, g)
    ensures Begun(IN.Overtaken(d, c), g)
  {
  }

  lemma AdmittedKeepsBegun(d: IN.Desk, producer: IN.Producer, request: Request, g: u32)
    requires Begun(d, g) && !IN.Refused(d, producer, request.command)
    ensures Begun(IN.Admitted(d, producer, request).0, g)
  {
  }

  lemma ProduceKeepsBegun(d: IN.Desk, event: IH.Event, g: u32)
    requires Begun(d, g) && !event.Take? && !event.Complete?
    ensures Begun(IH.Apply(d, event), g)
  {
    hide IN.Submitted;
    match event {
      case Submit(producer, request) => SubmitKeepsBegun(d, producer, request, g);
      case _ =>
    }
  }

  lemma TakeKeepsBegun(d: IN.Desk, g: u32)
    requires IH.Inv(d)
    ensures var (desk, _, request) := IN.Taken(d);
      var asked := request.Some? && request.value.id == g;
      && (Begun(d, g) ==> Begun(desk, g) && !asked)
      && (asked ==> Begun(desk, g) && IH.Outstanding(desk, g) && !IH.Outstanding(d, g))
  {
  }

  lemma CompleteKeepsBegun(d: IN.Desk, reply: Reply, g: u32)
    requires Begun(d, g)
    ensures Begun(IN.Completed(d, reply), g)
  {
  }

  /** Once dispatched, a generation is never dispatched again, and once settled it stays settled. */
  lemma BegunStays(s: Loop, e: Event, g: u32)
    requires Linked(s) && Enabled(s, e) && Begun(s.desk, g)
    ensures Begun(Do(s, e).desk, g) && !Dispatches(s, e, g)
    ensures g !in Out(s.desk) ==> g !in Out(Do(s, e).desk)
  {
    hide Inv, IH.Inv, Begun, PlanOf, Next, RepliesOf, Out, Owed, IN.Taken, IN.Completed, IH.Apply, IH.Outstanding;
    match e {
      case Produce(event) =>
        ProduceKeepsBegun(s.desk, event, g);
        ProduceKeepsOut(s.desk, event);
      case Take =>
        TakeKeepsBegun(s.desk, g);
        TakeAddsOut(s.desk);
      case Step(_, _) =>
      case Return =>
        if s.hand.replies != [] {
          CompleteKeepsBegun(s.desk, s.hand.replies[0], g);
          ReplyIsOutstanding(s);
          CompleteRemovesOut(s.desk, s.hand.replies[0]);
        }
    }
  }

  lemma DispatchBegins(s: Loop, e: Event, g: u32)
    requires Linked(s) && Enabled(s, e) && Dispatches(s, e, g)
    ensures Begun(Do(s, e).desk, g) && g in Out(Do(s, e).desk)
  {
    TakeKeepsBegun(s.desk, g);
    DeskTakeKeepsInv(s.desk);
    OutIsDistinct(IN.Taken(s.desk).0, g);
    hide Inv, IH.Inv, Begun, Out, IN.Taken, Owed;
  }

  /** A reply is handed back only for dispatched work, which it settles. */
  lemma ReturnEnds(s: Loop, e: Event, g: u32)
    requires Linked(s) && Enabled(s, e) && Returns(s, e, g)
    ensures g in Out(s.desk) && Begun(s.desk, g) && g !in Out(Do(s, e).desk)
  {
    hide Inv, Begun, Out, IN.Completed, Owed, IH.Outstanding;
    ReplyIsOutstanding(s);
    OutIsDistinct(s.desk, g);
    CompleteRemovesOut(s.desk, s.hand.replies[0]);
    OutstandingIsBegun(s.desk, g);
  }

  lemma OutstandingIsBegun(d: IN.Desk, g: u32)
    requires IH.Inv(d) && IH.Outstanding(d, g)
    ensures Begun(d, g)
  {
  }

  lemma {:induction false} SettledForGood(es: seq<Event>, ss: seq<Loop>, c: nat, n: nat, g: u32)
    requires Run(es, ss) && c < n <= |es| && Returns(ss[c], es[c], g)
    ensures Begun(ss[n].desk, g) && g !in Out(ss[n].desk)
    decreases n
  {
    hide Linked, Do, Enabled, Starts, Begun, Out, Returns;
    LinkedAlways(es, ss, n - 1);
    if n == c + 1 {
      ReturnEnds(ss[c], es[c], g);
    } else {
      SettledForGood(es, ss, c, n - 1, g);
    }
    BegunStays(ss[n - 1], es[n - 1], g);
  }

  /** Two hand-backs never carry the same generation. */
  lemma ReturnsOnce(es: seq<Event>, ss: seq<Loop>, c: nat, n: nat, g: u32)
    requires Run(es, ss) && c < n < |es| && Returns(ss[c], es[c], g)
    ensures !Returns(ss[n], es[n], g)
  {
    hide Linked, Do, Enabled, Starts, Begun, Out, Returns;
    LinkedAlways(es, ss, n);
    SettledForGood(es, ss, c, n, g);
    if Returns(ss[n], es[n], g) {
      ReturnEnds(ss[n], es[n], g);
    }
  }

  lemma {:induction false} BegunForGood(es: seq<Event>, ss: seq<Loop>, i: nat, n: nat, g: u32)
    requires Run(es, ss) && i < n <= |es| && Dispatches(ss[i], es[i], g)
    ensures Begun(ss[n].desk, g)
    decreases n
  {
    hide Linked, Do, Enabled, Starts, Begun, Out, Dispatches;
    LinkedAlways(es, ss, n - 1);
    if n == i + 1 {
      DispatchBegins(ss[i], es[i], g);
    } else {
      BegunForGood(es, ss, i, n - 1, g);
      BegunStays(ss[n - 1], es[n - 1], g);
    }
  }

  /** Two dispatches never carry the same generation. */
  lemma DispatchesOnce(es: seq<Event>, ss: seq<Loop>, i: nat, n: nat, g: u32)
    requires Run(es, ss) && i < n < |es| && Dispatches(ss[i], es[i], g)
    ensures !Dispatches(ss[n], es[n], g)
  {
    hide Linked, Do, Enabled, Starts, Begun, Out, Dispatches;
    LinkedAlways(es, ss, n);
    BegunForGood(es, ss, i, n, g);
    BegunStays(ss[n], es[n], g);
  }

  /** Whatever is outstanding was dispatched earlier. */
  lemma {:induction false} OutWasDispatched(es: seq<Event>, ss: seq<Loop>, n: nat, g: u32) returns (i: nat)
    requires Run(es, ss) && n <= |es| && g in Out(ss[n].desk)
    ensures i < n && Dispatches(ss[i], es[i], g)
    decreases n
  {
    hide Linked, Enabled, Owed, Do, Out;
    if n == 0 {
      NothingOutAtFirst(ss[0]);
    } else if g in Out(ss[n - 1].desk) {
      i := OutWasDispatched(es, ss, n - 1, g);
    } else {
      LinkedAlways(es, ss, n - 1);
      i := n - 1;
      NewOutIsDispatched(ss[i], es[i], g);
    }
  }

  lemma NewOutIsDispatched(s: Loop, e: Event, g: u32)
    requires Linked(s) && Enabled(s, e) && g !in Out(s.desk) && g in Out(Do(s, e).desk)
    ensures Dispatches(s, e, g)
  {
    hide Inv, IH.Inv, PlanOf, Next, RepliesOf, Out, Owed, IN.Taken, IN.Completed, IH.Apply, IH.Outstanding;
    match e {
      case Produce(event) => ProduceKeepsOut(s.desk, event);
      case Take => TakeAddsOut(s.desk);
      case Step(_, _) =>
      case Return =>
        if s.hand.replies != [] {
          ReplyIsOutstanding(s);
          CompleteRemovesOut(s.desk, s.hand.replies[0]);
        }
    }
  }

  // -------------------------------------------------------------------- in time

  predicate Finishes(r: Rt, e: Event) {
    e.Step? && Matches(r, e.completion)
  }

  /** The stores that complete in the steps among events `i` to `j`. */
  function Stores(es: seq<Event>, ss: seq<Loop>, i: nat, j: nat): nat
    requires |ss| == |es| + 1 && j <= |es|
  {
    if j <= i then 0 else Stores(es, ss, i, j - 1) + (if Finishes(ss[j - 1].rt, es[j - 1]) then 1 else 0)
  }

  /** Event `e` records no new occurrence. */
  ghost predicate Unrecorded(s: Loop, e: Event)
    requires Enabled(s, e)
  {
    e.Step? ==> RecordsNothing(s.rt, InputOf(s, e))
  }

  /** A reply under `g` is on its way back. */
  predicate OnItsWay(h: Hand, g: u32) {
    h.Answering? && g in Ids(h.replies)
  }

  predicate WaitsInRuntime(r: Rt, g: u32) {
    r.active.Some? && r.active.value.id == g
  }

  /** What event `n` does to a waiting request of generation `g`: it waits on at the cost of rank, or its reply is on its way. */
  lemma WaitAdvances(s: Loop, e: Event, g: u32)
    requires Linked(s) && Enabled(s, e) && WaitsInRuntime(s.rt, g) && Unrecorded(s, e)
    ensures || OnItsWay(Do(s, e).hand, g)
            || (WaitsInRuntime(Do(s, e).rt, g)
                && Rank(Do(s, e).rt) + (if Finishes(s.rt, e) then 1 else 0) <= Rank(s.rt))
  {
    hide Inv, IH.Inv, PlanOf, Next, Ends, Rank, Matches, RecordsNothing, LastTicketRace, Ids, Out, Owed, Runtime.Step;
    if e.Step? {
      LinkedNeverRaces(s, e);
      var input := InputOf(s, e);
      EndsIsReply(s.rt, input);
      var out := OutcomeOf(s.rt, input);
      if Ends(s.rt, input) {
        LastIsOnItsWay(out.commandReply, out.completedReply.value);
      } else {
        RankFalls(s.rt, input);
      }
    }
  }

  lemma LastIsOnItsWay(first: Option<Reply>, second: Reply)
    ensures second.id in Ids(Listed(first) + Listed(Some(second)))
  {
    IdsOfBoth(first, Some(second));
  }

  /** A reply on its way stays so until it is handed back. */
  lemma ReplyAdvances(s: Loop, e: Event, g: u32)
    requires Enabled(s, e) && OnItsWay(s.hand, g)
    ensures OnItsWay(Do(s, e).hand, g) || Returns(s, e, g)
  {
    hide PlanOf, Next, RepliesOf, IN.Taken, IN.Completed, IH.Apply;
  }

  /** A step answers the request it was asked, or leaves it waiting on one more store at most. */
  lemma StepBegins(s: Loop, e: Event, g: u32)
    requires Linked(s) && Enabled(s, e) && e.Step?
    requires s.hand.request.Some? && s.hand.request.value.id == g
    ensures OnItsWay(Do(s, e).hand, g) || (WaitsInRuntime(Do(s, e).rt, g) && Rank(Do(s, e).rt) <= 1)
  {
    hide Inv, IH.Inv, PlanOf, Next, Races, Ids, Out, Rank, TakesOn, Runtime.Step;
    var input := InputOf(s, e);
    LinkedNeverRaces(s, e);
    StepConserves(s.rt, input);
    AskedIsNew(s);
    assert g in Waiting(s.rt) + Asking(input.request);
    if !OnItsWay(Do(s, e).hand, g) {
      assert g in Waiting(Next(s.rt, input));
      NewWaiterIsFresh(s.rt, input, g);
    }
  }

  lemma AskedIsNew(s: Loop)
    requires Linked(s) && s.hand.Asked? && s.hand.request.Some?
    ensures s.hand.request.value.id !in Waiting(s.rt)
  {
    OutIsDistinct(s.desk, s.hand.request.value.id);
    OwedTwice(s);
    hide Inv, IH.Inv, Owed, Out;
  }

  lemma NewWaiterIsFresh(r: Rt, input: Input, g: u32)
    requires Inv(r) && PlanOf(r, input).committed.Valid() && !Races(r, input)
    requires g !in Waiting(r) && g in Waiting(Next(r, input))
    ensures Rank(Next(r, input)) <= 1
  {
    hide Inv, PlanOf, Next, Races, Rank, Stale, Runtime.Step;
    StepBalance(r, input);
    assert g in Waiting(r) + Taken(PlanOf(r, input));
    TakenIsFresh(r, input);
    NextKeepsInv(r, input);
    RankIsSmall(Next(r, input));
  }

  /** Where generation `g` can be after its step: handed back, on its way back, or waiting with the stores left to it. */
  ghost predicate Underway(es: seq<Event>, ss: seq<Loop>, k: nat, n: nat, g: u32)
    requires |ss| == |es| + 1 && k < n <= |es|
  {
    || (exists c: nat :: k < c < n && Returns(ss[c], es[c], g))
    || OnItsWay(ss[n].hand, g)
    || (WaitsInRuntime(ss[n].rt, g) && Stores(es, ss, k + 1, n) + Rank(ss[n].rt) <= 1)
  }

  lemma {:induction false} UnderwayHolds(es: seq<Event>, ss: seq<Loop>, k: nat, n: nat, g: u32)
    requires Run(es, ss) && k < n <= |es| && es[k].Step?
    requires ss[k].hand.request.Some? && ss[k].hand.request.value.id == g
    requires forall m :: k < m < n ==> Unrecorded(ss[m], es[m])
    ensures Underway(es, ss, k, n, g)
    decreases n
  {
    hide Linked, Do, Enabled, Starts, Returns, OnItsWay, WaitsInRuntime, Unrecorded, Rank, Finishes;
    LinkedAlways(es, ss, n - 1);
    var s, e := ss[n - 1], es[n - 1];
    if n == k + 1 {
      StepBegins(s, e, g);
    } else {
      UnderwayHolds(es, ss, k, n - 1, g);
      if c: nat :| k < c < n - 1 && Returns(ss[c], es[c], g) {
      } else if OnItsWay(s.hand, g) {
        ReplyAdvances(s, e, g);
      } else {
        WaitAdvances(s, e, g);
      }
    }
  }

  /** From its dispatch to the next step the control loop holds the request. */
  lemma {:induction false} AskedUntilStep(es: seq<Event>, ss: seq<Loop>, i: nat, k: nat, g: u32)
    requires Run(es, ss) && i < k <= |es| && Dispatches(ss[i], es[i], g)
    requires forall m :: i < m < k ==> !es[m].Step?
    ensures ss[k].hand.Asked? && ss[k].hand.request.Some? && ss[k].hand.request.value.id == g
    decreases k
  {
    hide IN.Taken, Linked, Starts, IH.Apply, IN.Completed, PlanOf, Next, RepliesOf;
    if k == i + 1 {
      assert ss[k] == Do(ss[i], es[i]);
    } else {
      AskedUntilStep(es, ss, i, k - 1, g);
      assert ss[k] == Do(ss[k - 1], es[k - 1]) && Enabled(ss[k - 1], es[k - 1]);
    }
  }

  /**
   Exactly one answer: a request dispatched at `i` and stepped at `k` has its terminal reply
   handed back under its own generation exactly once in the whole run, and by `j`, if by then
   the control loop has finished an iteration after `k` and either two stores have completed
   since, none of them recording a new occurrence, or the request no longer waits.
   */
  lemma AnsweredExactlyOnce(es: seq<Event>, ss: seq<Loop>, i: nat, k: nat, j: nat, g: u32) returns (c: nat)
    requires Run(es, ss) && i < k < j <= |es| && Dispatches(ss[i], es[i], g)
    requires es[k].Step? && forall m :: i < m < k ==> !es[m].Step?
    requires ss[j].hand.Free?
    requires forall m :: k < m < j ==> Unrecorded(ss[m], es[m])
    requires Stores(es, ss, k + 1, j) >= 2 || !WaitsInRuntime(ss[j].rt, g)
    ensures k < c < j && Returns(ss[c], es[c], g)
    ensures forall m :: 0 <= m < |es| && Returns(ss[m], es[m], g) ==> m == c
    ensures forall m :: 0 <= m < |es| && Dispatches(ss[m], es[m], g) ==> m == i
  {
    hide Linked, Do, Starts, Returns, Dispatches, WaitsInRuntime, Unrecorded, Rank, Finishes;
    AskedUntilStep(es, ss, i, k, g);
    UnderwayHolds(es, ss, k, j, g);
    c :| k < c < j && Returns(ss[c], es[c], g);
    forall m: nat | m < |es| && Returns(ss[m], es[m], g)
      ensures m == c
    {
      if m < c {
        ReturnsOnce(es, ss, m, c, g);
      } else if c < m {
        ReturnsOnce(es, ss, c, m, g);
      }
    }
    forall m: nat | m < |es| && Dispatches(ss[m], es[m], g)
      ensures m == i
    {
      if m < i {
        DispatchesOnce(es, ss, m, i, g);
      } else if i < m {
        DispatchesOnce(es, ss, i, m, g);
      }
    }
  }

  predicate Abandoned(d: IN.Desk, g: u32) {
    || (d.slot.Dispatched? && d.slot.route.token.generation == g && d.slot.abandoned)
    || (d.clear.InFlight? && d.clear.route.token.generation == g && d.clear.abandoned)
    || (d.offReply.InFlight? && d.offReply.route.token.generation == g && d.offReply.abandoned)
  }

  /**
   A handed-back reply always answers an earlier dispatch, and reaches the slot that holds it:
   there it waits for its producer under its own route with the runtime's result, or, if the
   producer cancelled, the slot is freed.
   */
  lemma ReturnReachesSlot(es: seq<Event>, ss: seq<Loop>, c: nat, g: u32) returns (i: nat, route: IN.Route)
    requires Run(es, ss) && c < |es| && Returns(ss[c], es[c], g)
    ensures i < c && Dispatches(ss[i], es[i], g)
    ensures IH.Holds(ss[c].desk, route) && route.token.generation == g
    ensures if Abandoned(ss[c].desk, g) then !IH.Live(ss[c + 1].desk, g)
            else IH.HasResult(ss[c + 1].desk, route, ss[c].hand.replies[0].result)
  {
    hide Linked, Starts, Out, Enabled, Dispatches, IH.Outstanding, IH.Holds, IH.Live, IH.HasResult, Abandoned,
         IN.Completed, PlanOf, Next, RepliesOf;
    LinkedAlways(es, ss, c);
    assert Enabled(ss[c], es[c]);
    ReturnEnds(ss[c], es[c], g);
    i := OutWasDispatched(es, ss, c, g);
    LinkedReturn(ss[c]);
    route := CompletionReachesSlot(ss[c].desk, ss[c].hand.replies[0]);
    assert ss[c + 1] == Do(ss[c], es[c]);
  }

  lemma LinkedReturn(s: Loop)
    requires Linked(s) && s.hand.Answering? && s.hand.replies != []
    ensures IH.Inv(s.desk) && IH.Outstanding(s.desk, s.hand.replies[0].id)
  {
    ReplyIsOutstanding(s);
    hide Inv, IH.Inv;
  }

  lemma CompletionReachesSlot(d: IN.Desk, reply: Reply) returns (route: IN.Route)
    requires IH.Inv(d) && IH.Outstanding(d, reply.id)
    ensures IH.Holds(d, route) && route.token.generation == reply.id
    ensures if Abandoned(d, reply.id) then !IH.Live(IN.Completed(d, reply), reply.id)
            else IH.HasResult(IN.Completed(d, reply), route, reply.result)
  {
    route := if d.clear.InFlight? && d.clear.route.token.generation == reply.id then d.clear.route
             else if d.offReply.InFlight? && d.offReply.route.token.generation == reply.id then d.offReply.route
             else d.slot.route;
  }
}
