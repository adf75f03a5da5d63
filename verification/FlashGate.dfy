/** The ticket state machine that grants flash access after an output-off iteration. */
module FlashGate {
  import opened Base

  type Ticket = u64

  datatype GateError = Busy | StaleTicket | Exhausted

  /** The value of a gate. */
  datatype Gate = Gate(generation: u64, active: Option<Ticket>, acknowledged: bool, exhausted: bool) {
    predicate Inhibited() {
      active.Some? || exhausted
    }

    predicate MayAccess(t: Ticket) {
      !exhausted && active == Some(t) && acknowledged
    }

    /** The active ticket is the newest one, and only an active ticket is acknowledged. */
    predicate Valid() {
      && (active.Some? ==> active.value == generation)
      && (acknowledged ==> active.Some? && !exhausted)
    }
  }

  const NEW_GATE: Gate := Gate(0, None, false, false)

  function Issued(g: Gate): (Gate, Result<Ticket, GateError>) {
    if g.generation == U64_MAX then (g.(exhausted := true, acknowledged := false), Err(Exhausted))
    else (Gate(g.generation + 1, Some(g.generation + 1), false, g.exhausted), Ok(g.generation + 1))
  }

  function Requested(g: Gate): (Gate, Result<Ticket, GateError>) {
    if g.exhausted then (g, Err(Exhausted))
    else if g.active.Some? then (g, Err(Busy))
    else Issued(g)
  }

  /** A new ticket while the output stays inhibited, so the next chunk waits for its own iteration. */
  function Checkpointed(g: Gate, t: Ticket): (Gate, Result<Ticket, GateError>) {
    if g.active != Some(t) then (g, Err(StaleTicket)) else Issued(g)
  }

  function Acknowledged(g: Gate, observed: Ticket): (Gate, bool) {
    if g.exhausted || g.active != Some(observed) then (g, false) else (g.(acknowledged := true), true)
  }

  function Released(g: Gate, t: Ticket): (Gate, bool) {
    if g.active != Some(t) then (g, false) else (g.(active := None, acknowledged := false), true)
  }

  /** The gate as the firmware keeps it: one object changed inside a short critical section. */
  class GateCell {
    var generation: u64
    var active: Option<Ticket>
    var acknowledged: bool
    var exhausted: bool

    function Value(): (g: Gate)
      reads this
    {
      Gate(generation, active, acknowledged, exhausted)
    }

    constructor ()
      ensures Value() == NEW_GATE
    {
      generation, active, acknowledged, exhausted := 0, None, false, false;
    }

    method Request() returns (r: Result<Ticket, GateError>)
      modifies this
      ensures (Value(), r) == Requested(old(Value()))
    {
      if exhausted {
        return Err(Exhausted);
      }
      if active.Some? {
        return Err(Busy);
      }
      r := Issue();
    }

    method Checkpoint(ticket: Ticket) returns (r: Result<Ticket, GateError>)
      modifies this
      ensures (Value(), r) == Checkpointed(old(Value()), ticket)
    {
      if active != Some(ticket) {
        return Err(StaleTicket);
      }
      r := Issue();
    }

    method Issue() returns (r: Result<Ticket, GateError>)
      modifies this
      ensures (Value(), r) == Issued(old(Value()))
    {
      if generation == U64_MAX {
        exhausted := true;
        acknowledged := false;
        return Err(Exhausted);
      }
      generation := generation + 1;
      active := Some(generation);
      acknowledged := false;
      return Ok(generation);
    }

    method AcknowledgeOff(observed: Ticket) returns (accepted: bool)
      modifies this`acknowledged
      ensures (Value(), accepted) == Acknowledged(old(Value()), observed)
    {
      if exhausted || active != Some(observed) {
        return false;
      }
      acknowledged := true;
      return true;
    }

    method Release(ticket: Ticket) returns (released: bool)
      modifies this`active, this`acknowledged
      ensures (Value(), released) == Released(old(Value()), ticket)
    {
      if active != Some(ticket) {
        return false;
      }
      active := None;
      acknowledged := false;
      return true;
    }
  }
}
