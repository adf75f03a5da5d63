/** What the ingress guarantees over every interleaving of producers and the control loop. */
module IngressHistory {
  import opened Base
  import opened Runtime
  import opened Ingress

  datatype Event =
    | Submit(producer: Producer, request: Request)
    | Take
    | Complete(reply: Reply)
    | Collect(token: Token)
    | CollectConsole
    | Cancel(token: Token)
    | Reserve(active: bool)

  function Apply(d: Desk, e: Event): Desk {
    match e
    case Submit(producer, request) => Submitted(d, producer, request).0
    case Take => Taken(d).0
    case Complete(reply) => Completed(d, reply)
    case Collect(token) => Collected(d, token).0
    case CollectConsole => if ConsoleToken(d).Some? then Collected(d, ConsoleToken(d).value).0 else d
    case Cancel(token) => Cancelled(d, token)
    case Reserve(active) => d.(reserved := active)
  }

  ghost predicate History(events: seq<Event>, ds: seq<Desk>) {
    && |ds| == |events| + 1
    && ds[0] == NEW_DESK
    && forall i :: 0 <= i < |events| ==> ds[i + 1] == Apply(ds[i], events[i])
  }

  predicate SlotOwns(s: Slot, g: u32) {
    !s.Vacant? && s.route.token.generation == g
  }

  predicate RevocationOwns(s: RevocationSlot, g: u32) {
    !s.Empty? && s.route.token.generation == g
  }

  /** Generation `g` is still owned by some slot. */
  predicate Live(d: Desk, g: u32) {
    SlotOwns(d.slot, g) || RevocationOwns(d.clear, g) || RevocationOwns(d.offReply, g)
  }

  /** Live generations are distinct and already issued, and a waiting request carries its own. */
  predicate Inv(d: Desk) {
    && (!d.slot.Vacant? ==>
          && 0 < d.slot.route.token.generation <= d.generation
          && !RevocationOwns(d.clear, d.slot.route.token.generation)
          && !RevocationOwns(d.offReply, d.slot.route.token.generation))
    && (!d.clear.Empty? ==>
          0 < d.clear.route.token.generation <= d.generation && !RevocationOwns(d.offReply, d.clear.route.token.generation))
    && (!d.offReply.Empty? ==> 0 < d.offReply.route.token.generation <= d.generation)
    && (d.slot.Waiting? ==>
          && d.slot.request.id == d.slot.route.token.generation
          && !d.slot.request.command.TurnOff? && !d.slot.request.command.ClearUtc?)
    && (d.slot.Answered? ==> d.slot.reply.id == d.slot.route.correlation)
    && (d.clear.Replied? ==> d.clear.reply.id == d.clear.route.correlation)
    && (d.offReply.Replied? ==> d.offReply.reply.id == d.offReply.route.correlation)
  }

  /** `b` keeps the invariant, and every old generation live in it was live in `a`. */
  ghost predicate Keeps(a: Desk, b: Desk) {
    Inv(b) && a.generation <= b.generation && forall g: u32 :: Live(b, g) && g <= a.generation ==> Live(a, g)
  }

  lemma OvertakenKeeps(d: Desk, c: Command)
    requires Inv(d)
    ensures Keeps(d, Overtaken(d, c)) && Overtaken(d, c).generation == d.generation
  {
  }

  lemma AdmittedKeeps(d: Desk, producer: Producer, request: Request)
    requires Inv(d) && !Refused(d, producer, request.command)
    ensures Keeps(d, Admitted(d, producer, request).0)
  {
  }

  lemma SubmitKeeps(d: Desk, producer: Producer, request: Request)
    requires Inv(d)
    ensures Keeps(d, Submitted(d, producer, request).0)
  {
    OvertakenKeeps(d, request.command);
    var overtaken := Overtaken(d, request.command);
    if !Refused(overtaken, producer, request.command) {
      AdmittedKeeps(overtaken, producer, request);
    }
    hide Overtaken, Admitted, Refused, Inv, Live;
  }

  lemma CompleteKeeps(d: Desk, reply: Reply)
    requires Inv(d)
    ensures Keeps(d, Completed(d, reply))
  {
  }

  lemma CollectKeeps(d: Desk, token: Token)
    requires Inv(d)
    ensures Keeps(d, Collected(d, token).0)
  {
  }

  lemma CancelKeeps(d: Desk, token: Token)
    requires Inv(d)
    ensures Keeps(d, Cancelled(d, token))
  {
  }

  lemma TakeKeeps(d: Desk)
    requires Inv(d)
    ensures Keeps(d, Taken(d).0)
  {
  }

  lemma ApplyKeepsInv(d: Desk, e: Event)
    requires Inv(d)
    ensures Keeps(d, Apply(d, e))
  {
    match e
    case Submit(producer, request) => SubmitKeeps(d, producer, request);
    case Take => TakeKeeps(d);
    case Complete(reply) => CompleteKeeps(d, reply);
    case Collect(token) => CollectKeeps(d, token);
    case CollectConsole =>
      if ConsoleToken(d).Some? {
        CollectKeeps(d, ConsoleToken(d).value);
      }
    case Cancel(token) => CancelKeeps(d, token);
    case Reserve(_) =>
  }

  lemma {:induction false} HistoryInv(events: seq<Event>, ds: seq<Desk>, n: nat)
    requires History(events, ds) && n <= |events|
    ensures Inv(ds[n])
  {
    if n > 0 {
      HistoryInv(events, ds, n - 1);
      ApplyKeepsInv(ds[n - 1], events[n - 1]);
    }
  }

  // --------------------------------------------------------------- lossless Off

  /**
   Lossless Off: however an Off is answered, even Busy or with no generation left, the next
   take forces the output off.
   */
  lemma {:induction false} OffIsLossless(events: seq<Event>, ds: seq<Desk>, i: nat, j: nat)
    requires History(events, ds) && i < j < |events|
    requires events[i].Submit? && events[i].request.command.TurnOff?
    requires events[j].Take? && forall k :: i < k < j ==> !events[k].Take?
    ensures Taken(ds[j]).1
  {
    for k := i + 1 to j
      invariant ds[k].off
    {
    }
  }

  /** What one event dispatches. */
  function Dispatches(d: Desk, e: Event): Option<Request> {
    if e.Take? then Taken(d).2 else None
  }

  /** Event `e` was accepted under `token`. */
  predicate Accepts(d: Desk, e: Event, token: Token) {
    e.Submit? && Submitted(d, e.producer, e.request).1 == Some(token)
  }

  /** The waiting request, if any, was submitted in exactly this form. */
  lemma {:induction false} WaitingWasSubmitted(events: seq<Event>, ds: seq<Desk>, n: nat) returns (k: nat)
    requires History(events, ds) && n <= |events| && ds[n].slot.Waiting?
    ensures k < n && Accepts(ds[k], events[k], ds[n].slot.route.token)
    ensures events[k].request.command == ds[n].slot.request.command
    ensures events[k].request.id == ds[n].slot.route.correlation
    ensures forall m :: k < m <= n ==> ds[m].slot == ds[n].slot
  {
    if ds[n - 1].slot == ds[n].slot {
      k := WaitingWasSubmitted(events, ds, n - 1);
    } else {
      k := n - 1;
    }
  }

  /**
   An On, a Toggle or either clock setting dispatched after an Off was submitted after it,
   however the Off itself was answered.
   */
  lemma NoStartSurvivesOff(events: seq<Event>, ds: seq<Desk>, i: nat, j: nat) returns (k: nat)
    requires History(events, ds) && i < j < |events|
    requires events[i].Submit? && events[i].request.command.TurnOff?
    requires Dispatches(ds[j], events[j]).Some?
    requires var c := Dispatches(ds[j], events[j]).value.command; c.TurnOn? || c.Toggle? || c.SetUtc? || c.SetUtcObserved?
    ensures i < k < j && events[k].Submit?
    ensures events[k].request.command == Dispatches(ds[j], events[j]).value.command
    ensures Accepts(ds[k], events[k], Token(Dispatches(ds[j], events[j]).value.id, events[k].producer))
  {
    HistoryInv(events, ds, j);
    k := WaitingWasSubmitted(events, ds, j);
    assert ds[i + 1].slot.Waiting? ==> !Starts(ds[i + 1].slot.request.command);
  }

  /** A clock setting dispatched after an accepted revocation was submitted after it. */
  lemma NoClockSurvivesClear(events: seq<Event>, ds: seq<Desk>, i: nat, j: nat, token: Token) returns (k: nat)
    requires History(events, ds) && i < j < |events|
    requires Accepts(ds[i], events[i], token) && events[i].request.command.ClearUtc?
    requires Dispatches(ds[j], events[j]).Some?
    requires var c := Dispatches(ds[j], events[j]).value.command; c.SetUtc? || c.SetUtcObserved?
    ensures i < k < j && events[k].Submit?
    ensures events[k].request.command == Dispatches(ds[j], events[j]).value.command
  {
    HistoryInv(events, ds, j);
    k := WaitingWasSubmitted(events, ds, j);
    assert ds[i + 1].slot.Waiting? ==> !SetsUtc(ds[i + 1].slot.request.command);
  }

  // -------------------------------------------------------------- one submission

  /** A waiting request answered as overtaken, still under its own route. */
  predicate IsSuperseded(before: Slot, after: Slot) {
    before.Waiting? && after == Answered(Reply(before.route.correlation, Err(Superseded)), before.route)
  }

  /** An Off overtakes a waiting On, Toggle or clock setting, and nothing else in the slot. */
  lemma OffOvertakes(d: Desk, producer: Producer, request: Request)
    requires request.command.TurnOff?
    ensures var e := Submitted(d, producer, request).0;
      && e.off && e.clear == d.clear
      && (if d.slot.Waiting? && (d.slot.request.command.TurnOn? || d.slot.request.command.Toggle?
                                 || d.slot.request.command.SetUtc? || d.slot.request.command.SetUtcObserved?)
          then IsSuperseded(d.slot, e.slot) else e.slot == d.slot)
  {
  }

  /** An accepted revocation overtakes a waiting clock setting, and nothing else in the slot. */
  lemma ClearOvertakes(d: Desk, producer: Producer, request: Request)
    requires request.command.ClearUtc? && Submitted(d, producer, request).1.Some?
    ensures var e := Submitted(d, producer, request).0;
      && e.off == d.off && e.offReply == d.offReply
      && (if d.slot.Waiting? && (d.slot.request.command.SetUtc? || d.slot.request.command.SetUtcObserved?)
          then IsSuperseded(d.slot, e.slot) else e.slot == d.slot)
  {
  }

  /** Which slot a command needs free. */
  predicate HasRoom(d: Desk, c: Command) {
    match c
    case ClearUtc => d.clear.Empty?
    case TurnOff => d.offReply.Empty?
    case _ => d.slot.Vacant?
  }

  /**
   A submission is accepted exactly if no reservation shuts its producer out, its own slot is
   free and a generation is left; it then waits in that slot under the next generation with the
   user's own id kept in its route. Refused, it leaves nothing but what an Off overtakes.
   */
  lemma SubmissionTable(d: Desk, producer: Producer, request: Request)
    ensures var (e, token) := Submitted(d, producer, request);
      var c := request.command;
      var shut := d.reserved && (producer == Usb || producer == Settings) && !c.TurnOff?;
      && (token.Some? <==> !shut && HasRoom(d, c) && d.generation < U32_MAX)
      && e.reserved == d.reserved && e.off == (d.off || c.TurnOff?)
      && (token.None? ==> e.generation == d.generation && e.clear == d.clear && e.offReply == d.offReply)
      && (token.None? && !c.TurnOff? ==> e == d)
      && (token.Some? ==>
            var route := Route(Token(d.generation + 1, producer), request.id);
            && token.value == route.token && e.generation == d.generation + 1
            && e.clear == (if c.ClearUtc? then Queued(route) else d.clear)
            && e.offReply == (if c.TurnOff? then Queued(route) else d.offReply)
            && (!c.ClearUtc? && !c.TurnOff? ==> e.slot == Waiting(Request(d.generation + 1, c), route)))
  {
  }

  /** A take consumes the Off and dispatches one request: a revocation before an Off before the slot. */
  lemma TakeTable(d: Desk)
    ensures var (e, off, request) := Taken(d);
      && off == d.off && e == d.(off := false, clear := e.clear, offReply := e.offReply, slot := e.slot)
      && (if d.clear.Queued? then
            && request == Some(Request(d.clear.route.token.generation, ClearUtc))
            && e.clear == InFlight(d.clear.route, false) && e.offReply == d.offReply && e.slot == d.slot
          else if d.offReply.Queued? then
            && request == Some(Request(d.offReply.route.token.generation, TurnOff))
            && e.offReply == InFlight(d.offReply.route, false) && e.clear == d.clear && e.slot == d.slot
          else if d.slot.Waiting? then
            && request == Some(d.slot.request)
            && e.slot == Dispatched(d.slot.route, false) && e.clear == d.clear && e.offReply == d.offReply
          else request.None? && e == d.(off := false))
  {
  }

  // ---------------------------------------------------------- exactly-once replies

  /** The reply event `e` hands out, with the token it belongs to. */
  function Delivers(d: Desk, e: Event): Option<(Token, Reply)> {
    match e
    case Collect(token) =>
      var reply := Collected(d, token).1;
      if reply.Some? then Some((token, reply.value)) else None
    case CollectConsole =>
      if ConsoleToken(d).None? then None
      else
        var reply := Collected(d, ConsoleToken(d).value).1;
        if reply.Some? then Some((ConsoleToken(d).value, reply.value)) else None
    case _ => None
  }

  lemma {:induction false} GoneForGood(events: seq<Event>, ds: seq<Desk>, i: nat, j: nat, g: u32)
    requires History(events, ds) && i <= j <= |events|
    requires g <= ds[i].generation && !Live(ds[i], g)
    ensures g <= ds[j].generation && !Live(ds[j], g)
    decreases j - i
  {
    if i < j {
      GoneForGood(events, ds, i, j - 1, g);
      HistoryInv(events, ds, j - 1);
      ApplyKeepsInv(ds[j - 1], events[j - 1]);
    }
  }

  lemma DeliveryEndsToken(d: Desk, e: Event)
    requires Inv(d) && Delivers(d, e).Some?
    ensures var g := Delivers(d, e).value.0.generation;
      && Live(d, g) && g <= Apply(d, e).generation && !Live(Apply(d, e), g)
  {
  }

  /** At most one reply leaves the ingress for any token. */
  lemma RepliesAtMostOnce(events: seq<Event>, ds: seq<Desk>, i: nat, j: nat)
    requires History(events, ds) && i < j < |events|
    requires Delivers(ds[i], events[i]).Some? && Delivers(ds[j], events[j]).Some?
    ensures Delivers(ds[i], events[i]).value.0.generation != Delivers(ds[j], events[j]).value.0.generation
  {
    HistoryInv(events, ds, i);
    HistoryInv(events, ds, j);
    DeliveryEndsToken(ds[i], events[i]);
    DeliveryEndsToken(ds[j], events[j]);
    GoneForGood(events, ds, i + 1, j, Delivers(ds[i], events[i]).value.0.generation);
  }

  /** A route held by some slot of `d`. */
  predicate Holds(d: Desk, route: Route) {
    || (!d.slot.Vacant? && d.slot.route == route)
    || (!d.clear.Empty? && d.clear.route == route)
    || (!d.offReply.Empty? && d.offReply.route == route)
  }

  /** Every held route was issued by the submission it correlates. */
  lemma {:induction false} RouteWasSubmitted(events: seq<Event>, ds: seq<Desk>, n: nat, route: Route) returns (k: nat)
    requires History(events, ds) && n <= |events| && Holds(ds[n], route)
    ensures k < n && Accepts(ds[k], events[k], route.token)
    ensures events[k].request.id == route.correlation && events[k].producer == route.token.producer
  {
    if Holds(ds[n - 1], route) {
      k := RouteWasSubmitted(events, ds, n - 1, route);
    } else {
      k := n - 1;
      NewRouteIsSubmitted(ds[k], events[k], route);
    }
  }

  lemma NewRouteIsSubmitted(d: Desk, e: Event, route: Route)
    requires !Holds(d, route) && Holds(Apply(d, e), route)
    ensures Accepts(d, e, route.token) && e.request.id == route.correlation && e.producer == route.token.producer
  {
  }

  /** The slot holding `route` has a reply with this result. */
  predicate HasResult(d: Desk, route: Route, result: Result<Ack, Error>) {
    || (d.slot.Answered? && d.slot.route == route && d.slot.reply.result == result)
    || (d.clear.Replied? && d.clear.route == route && d.clear.reply.result == result)
    || (d.offReply.Replied? && d.offReply.route == route && d.offReply.reply.result == result)
  }

  /** A result comes from the completion of that very generation, or from an overtaking revocation. */
  predicate Resolves(e: Event, route: Route, result: Result<Ack, Error>) {
    || e == Complete(Reply(route.token.generation, result))
    || (e.Submit? && (e.request.command.TurnOff? || e.request.command.ClearUtc?) && result == Err(Superseded))
  }

  lemma {:induction false} ResultHasCause(events: seq<Event>, ds: seq<Desk>, n: nat, route: Route, result: Result<Ack, Error>)
    returns (c: nat)
    requires History(events, ds) && n <= |events| && HasResult(ds[n], route, result)
    ensures c < n && Resolves(events[c], route, result) && Holds(ds[c], route)
  {
    if HasResult(ds[n - 1], route, result) {
      c := ResultHasCause(events, ds, n - 1, route, result);
    } else {
      c := n - 1;
      NewResultIsCaused(ds[c], events[c], route, result);
    }
  }

  lemma NewResultIsCaused(d: Desk, e: Event, route: Route, result: Result<Ack, Error>)
    requires !HasResult(d, route, result) && HasResult(Apply(d, e), route, result)
    ensures Resolves(e, route, result) && Holds(d, route)
  {
  }

  lemma DeliveryMeans(d: Desk, e: Event) returns (route: Route)
    requires Inv(d) && Delivers(d, e).Some?
    ensures var (token, reply) := Delivers(d, e).value;
      && route.token == token && reply.id == route.correlation && Holds(d, route) && HasResult(d, route, reply.result)
      && (e.CollectConsole? ==> token.producer.Usb?)
  {
    var token := Delivers(d, e).value.0;
    route := if d.clear.Replied? && d.clear.route.token == token then d.clear.route
             else if d.offReply.Replied? && d.offReply.route.token == token then d.offReply.route
             else d.slot.route;
  }

  /**
   Replies are answers: a delivered reply belongs to the token of an earlier accepted
   submission, carries that submission's own id, goes to its producer, and reports either
   the completion of that very request or that a revocation overtook it.
   */
  lemma RepliesAreAnswers(events: seq<Event>, ds: seq<Desk>, j: nat) returns (k: nat, c: nat, route: Route)
    requires History(events, ds) && j < |events| && Delivers(ds[j], events[j]).Some?
    ensures var (token, reply) := Delivers(ds[j], events[j]).value;
      && k < j && Accepts(ds[k], events[k], token)
      && events[k].producer == token.producer
      && reply.id == events[k].request.id
      && route.token == token
      && k < c < j && Resolves(events[c], route, reply.result)
      && (events[j].CollectConsole? ==> events[k].producer.Usb?)
  {
    HistoryInv(events, ds, j);
    route := DeliveryMeans(ds[j], events[j]);
    k := RouteWasSubmitted(events, ds, j, route);
    c := ResultHasCause(events, ds, j, route, Delivers(ds[j], events[j]).value.1.result);
    if c <= k {
      HistoryInv(events, ds, c);
      HistoryInv(events, ds, k);
      GenerationsGrow(events, ds, c, k);
    }
  }

  lemma {:induction false} GenerationsGrow(events: seq<Event>, ds: seq<Desk>, i: nat, j: nat)
    requires History(events, ds) && i <= j <= |events|
    ensures ds[i].generation <= ds[j].generation
    decreases j - i
  {
    if i < j {
      GenerationsGrow(events, ds, i, j - 1);
      HistoryInv(events, ds, j - 1);
      ApplyKeepsInv(ds[j - 1], events[j - 1]);
    }
  }

  /** A generation dispatched and not yet completed. */
  predicate Outstanding(d: Desk, g: u32) {
    || (d.slot.Dispatched? && d.slot.route.token.generation == g)
    || (d.clear.InFlight? && d.clear.route.token.generation == g)
    || (d.offReply.InFlight? && d.offReply.route.token.generation == g)
  }

  /** A completion changes something exactly when it names a dispatched request, and never twice. */
  lemma StaleCompletionsDoNothing(d: Desk, reply: Reply)
    requires Inv(d)
    ensures Completed(d, reply) == d <==> !Outstanding(d, reply.id)
    ensures !Outstanding(Completed(d, reply), reply.id)
  {
  }

  /** Cancelling never undoes a dispatch: the generation stays outstanding until it completes. */
  lemma CancelKeepsDispatch(d: Desk, token: Token, g: u32)
    requires Inv(d)
    ensures Outstanding(d, g) <==> Outstanding(Cancelled(d, token), g)
    ensures Live(d, g) && g != token.generation ==> Live(Cancelled(d, token), g)
    ensures Cancelled(d, token).off == d.off
  {
  }
}
