/** Bounded command ingress: one request slot, and small reserved slots for Off and clock revocation. */
module Ingress {
  import opened Base
  import opened Runtime

  datatype Producer = Usb | Matter | Provisioning | Settings

  /** One submission of one producer; user correlation ids are separate. */
  datatype Token = Token(generation: u32, producer: Producer)

  datatype Route = Route(token: Token, correlation: u32)

  datatype Slot =
    | Vacant
    | Waiting(request: Request, route: Route)
    | Dispatched(route: Route, abandoned: bool)
    | Answered(reply: Reply, route: Route)

  /** A revocation carries no request, only its route. */
  datatype RevocationSlot =
    | Empty
    | Queued(route: Route)
    | InFlight(route: Route, abandoned: bool)
    | Replied(reply: Reply, route: Route)

  /** The value of an ingress. */
  datatype Desk = Desk(
    slot: Slot,
    clear: RevocationSlot,
    offReply: RevocationSlot,
    off: bool,
    generation: u32,
    reserved: bool)

  const NEW_DESK: Desk := Desk(Vacant, Empty, Empty, false, 0, false)

  predicate SetsUtc(c: Command) {
    c.SetUtc? || c.SetUtcObserved?
  }

  /** What an Off overtakes while it still waits. */
  predicate Starts(c: Command) {
    c.TurnOn? || c.Toggle? || SetsUtc(c)
  }

  function SupersededSlot(slot: Slot): Slot
    requires slot.Waiting?
  {
    Answered(Reply(slot.route.correlation, Err(Superseded)), slot.route)
  }

  /** Off takes effect before any admission check. */
  function Overtaken(d: Desk, c: Command): Desk {
    if !c.TurnOff? then d
    else d.(off := true,
            slot := if d.slot.Waiting? && Starts(d.slot.request.command) then SupersededSlot(d.slot) else d.slot)
  }

  predicate Refused(d: Desk, producer: Producer, c: Command) {
    || (d.reserved && (producer.Usb? || producer.Settings?) && !c.TurnOff?)
    || (if c.ClearUtc? then !d.clear.Empty? else if c.TurnOff? then !d.offReply.Empty? else !d.slot.Vacant?)
    || d.generation == U32_MAX
  }

  function Admitted(d: Desk, producer: Producer, request: Request): (Desk, Token)
    requires !Refused(d, producer, request.command)
  {
    var token := Token(d.generation + 1, producer);
    var route := Route(token, request.id);
    var counted := d.(generation := d.generation + 1);
    if request.command.ClearUtc? then
      (counted.(clear := Queued(route),
                slot := if d.slot.Waiting? && SetsUtc(d.slot.request.command) then SupersededSlot(d.slot) else d.slot),
       token)
    else if request.command.TurnOff? then (counted.(offReply := Queued(route)), token)
    else (counted.(slot := Waiting(request.(id := token.generation), route)), token)
  }

  function Submitted(d: Desk, producer: Producer, request: Request): (Desk, Option<Token>) {
    var overtaken := Overtaken(d, request.command);
    if Refused(overtaken, producer, request.command) then (overtaken, None)
    else
      var (admitted, token) := Admitted(overtaken, producer, request);
      (admitted, Some(token))
  }

  /** The pending Off, and the next request: revocations first. */
  function Taken(d: Desk): (Desk, bool, Option<Request>) {
    var quiet := d.(off := false);
    if d.clear.Queued? then
      (quiet.(clear := InFlight(d.clear.route, false)), d.off, Some(Request(d.clear.route.token.generation, ClearUtc)))
    else if d.offReply.Queued? then
      (quiet.(offReply := InFlight(d.offReply.route, false)), d.off,
       Some(Request(d.offReply.route.token.generation, TurnOff)))
    else if d.slot.Waiting? then
      (quiet.(slot := Dispatched(d.slot.route, false)), d.off, Some(d.slot.request))
    else (quiet, d.off, None)
  }

  function CompletedRevocation(s: RevocationSlot, reply: Reply): RevocationSlot
    requires s.InFlight?
  {
    if s.abandoned then Empty else Replied(reply.(id := s.route.correlation), s.route)
  }

  /** A completion reaches only the dispatched request it names. */
  function Completed(d: Desk, reply: Reply): Desk {
    if d.clear.InFlight? && d.clear.route.token.generation == reply.id then
      d.(clear := CompletedRevocation(d.clear, reply))
    else if d.offReply.InFlight? && d.offReply.route.token.generation == reply.id then
      d.(offReply := CompletedRevocation(d.offReply, reply))
    else if d.slot.Dispatched? && d.slot.route.token.generation == reply.id then
      d.(slot := if d.slot.abandoned then Vacant
                 else Answered(reply.(id := d.slot.route.correlation), d.slot.route))
    else d
  }

  function Collected(d: Desk, token: Token): (Desk, Option<Reply>) {
    if d.clear.Replied? && d.clear.route.token == token then (d.(clear := Empty), Some(d.clear.reply))
    else if d.offReply.Replied? && d.offReply.route.token == token then (d.(offReply := Empty), Some(d.offReply.reply))
    else if d.slot.Answered? && d.slot.route.token == token then (d.(slot := Vacant), Some(d.slot.reply))
    else (d, None)
  }

  /** The token whose reply the serial console collects next, if any. */
  function ConsoleToken(d: Desk): Option<Token> {
    if d.clear.Replied? && d.clear.route.token.producer.Usb? then Some(d.clear.route.token)
    else if d.offReply.Replied? && d.offReply.route.token.producer.Usb? then Some(d.offReply.route.token)
    else if d.slot.Answered? && d.slot.route.token.producer.Usb? then Some(d.slot.route.token)
    else None
  }

  function CancelledRevocation(s: RevocationSlot, token: Token): RevocationSlot {
    if s.Empty? || s.route.token != token then s
    else if s.InFlight? then s.(abandoned := true)
    else Empty
  }

  /** Removes a waiting request; once dispatched only its reply is abandoned. */
  function Cancelled(d: Desk, token: Token): Desk {
    d.(clear := CancelledRevocation(d.clear, token),
       offReply := CancelledRevocation(d.offReply, token),
       slot := if d.slot.Vacant? || d.slot.route.token != token then d.slot
               else if d.slot.Dispatched? then d.slot.(abandoned := true)
               else Vacant)
  }

  /** The ingress as the firmware keeps it behind one critical section. */
  class Mailbox {
    var slot: Slot
    var clear: RevocationSlot
    var offReply: RevocationSlot
    var off: bool
    var generation: u32
    var reserved: bool

    ghost function Value(): Desk
      reads this
    {
      Desk(slot, clear, offReply, off, generation, reserved)
    }

    constructor ()
      ensures Value() == NEW_DESK
    {
      slot, clear, offReply := Vacant, Empty, Empty;
      off, generation, reserved := false, 0, false;
    }

    method Supersede()
      requires slot.Waiting?
      modifies this`slot
      ensures slot == SupersededSlot(old(slot))
    {
      slot := Answered(Reply(slot.route.correlation, Err(Superseded)), slot.route);
    }

    method SubmitFrom(producer: Producer, request: Request) returns (token: Option<Token>)
      modifies this
      ensures (Value(), token) == Submitted(old(Value()), producer, request)
    {
      var turningOff := request.command.TurnOff?;
      if turningOff {
        off := true;
        if slot.Waiting? && Starts(slot.request.command) {
          Supersede();
        }
      }
      if reserved && (producer.Usb? || producer.Settings?) && !turningOff {
        return None;
      }
      var clearing := request.command.ClearUtc?;
      if if clearing then !clear.Empty? else if turningOff then !offReply.Empty? else !slot.Vacant? {
        return None;
      }
      if generation == U32_MAX {
        return None;
      }
      generation := generation + 1;
      var issued := Token(generation, producer);
      var route := Route(issued, request.id);
      if clearing {
        if slot.Waiting? && SetsUtc(slot.request.command) {
          Supersede();
        }
        clear := Queued(route);
      } else if turningOff {
        offReply := Queued(route);
      } else {
        slot := Waiting(request.(id := generation), route);
      }
      return Some(issued);
    }

    method Take() returns (forceOff: bool, request: Option<Request>)
      modifies this
      ensures (Value(), forceOff, request) == Taken(old(Value()))
    {
      forceOff := off;
      off := false;
      if clear.Queued? {
        var route := clear.route;
        clear := InFlight(route, false);
        return forceOff, Some(Request(route.token.generation, ClearUtc));
      }
      if offReply.Queued? {
        var route := offReply.route;
        offReply := InFlight(route, false);
        return forceOff, Some(Request(route.token.generation, TurnOff));
      }
      request := None;
      if slot.Waiting? {
        request := Some(slot.request);
        slot := Dispatched(slot.route, false);
      }
    }

    method Complete(reply: Reply)
      modifies this
      ensures Value() == Completed(old(Value()), reply)
    {
      if clear.InFlight? && clear.route.token.generation == reply.id {
        clear := if clear.abandoned then Empty else Replied(reply.(id := clear.route.correlation), clear.route);
        return;
      }
      if offReply.InFlight? && offReply.route.token.generation == reply.id {
        offReply := if offReply.abandoned then Empty else Replied(reply.(id := offReply.route.correlation), offReply.route);
        return;
      }
      if slot.Dispatched? && slot.route.token.generation == reply.id {
        slot := if slot.abandoned then Vacant else Answered(reply.(id := slot.route.correlation), slot.route);
      }
    }

    method TakeReplyFor(token: Token) returns (reply: Option<Reply>)
      modifies this
      ensures (Value(), reply) == Collected(old(Value()), token)
    {
      if clear.Replied? && clear.route.token == token {
        reply := Some(clear.reply);
        clear := Empty;
        return;
      }
      if offReply.Replied? && offReply.route.token == token {
        reply := Some(offReply.reply);
        offReply := Empty;
        return;
      }
      if !slot.Answered? || slot.route.token != token {
        return None;
      }
      reply := Some(slot.reply);
      slot := Vacant;
    }

    method TakeReply() returns (reply: Option<Reply>)
      modifies this
      ensures (Value(), reply) == var token := ConsoleToken(old(Value()));
        if token.Some? then Collected(old(Value()), token.value) else (old(Value()), None)
    {
      reply := None;
      if clear.Replied? && clear.route.token.producer.Usb? {
        reply := TakeReplyFor(clear.route.token);
      } else if offReply.Replied? && offReply.route.token.producer.Usb? {
        reply := TakeReplyFor(offReply.route.token);
      } else if slot.Answered? && slot.route.token.producer.Usb? {
        reply := TakeReplyFor(slot.route.token);
      }
    }

    method Cancel(token: Token)
      modifies this
      ensures Value() == Cancelled(old(Value()), token)
    {
      match clear {
        case Empty =>
        case InFlight(route, _) =>
          if route.token == token { clear := InFlight(route, true); }
        case _ =>
          if clear.route.token == token { clear := Empty; }
      }
      match offReply {
        case Empty =>
        case InFlight(route, _) =>
          if route.token == token { offReply := InFlight(route, true); }
        case _ =>
          if offReply.route.token == token { offReply := Empty; }
      }
      match slot {
        case Vacant =>
        case Dispatched(route, _) =>
          if route.token == token { slot := Dispatched(route, true); }
        case _ =>
          if slot.route.token == token { slot := Vacant; }
      }
    }

    method ReserveProvisioning(active: bool)
      modifies this`reserved
      ensures Value() == old(Value()).(reserved := active)
    {
      reserved := active;
    }
  }
}
