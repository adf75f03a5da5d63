/**
 Flash exclusion under every interleaving of permit holders and the control loop. The
 loop observes the gate, writes the relay, and only then acknowledges the ticket it
 observed; holders request, wait, access, checkpoint and drop at any point in between.
 */
module GateProtocol {
  import opened Base
  import opened Interlock
  import opened FlashGate

  type Holder = nat

  /** A live permit: its ticket, and whether its latest wait saw access granted. */
  datatype Permit = Permit(ticket: Ticket, granted: bool)

  datatype Phase =
    | Resting
    | Seen(inhibited: bool, ticket: Option<Ticket>)
    | Wrote(ticket: Option<Ticket>)

  datatype World = World(gate: Gate, relay: Relay, phase: Phase, permits: map<Holder, Permit>)

  datatype Action =
    | Acquire(h: Holder)
    | Poll(h: Holder)
    | Renew(h: Holder)
    | Drop(h: Holder)
    | Observe
    | WriteRelay(demanded: Relay)
    | AcknowledgeOff

  predicate Enabled(w: World, a: Action) {
    match a
    case Acquire(h) => h !in w.permits
    case Poll(h) => h in w.permits && !w.permits[h].granted && w.gate.MayAccess(w.permits[h].ticket)
    case Renew(h) => h in w.permits
    case Drop(h) => h in w.permits
    case Observe => w.phase.Resting?
    case WriteRelay(_) => w.phase.Seen?
    case AcknowledgeOff => w.phase.Wrote?
  }

  function Do(w: World, a: Action): World
    requires Enabled(w, a)
  {
    match a
    case Acquire(h) =>
      var (gate, r) := Requested(w.gate);
      if r.Ok? then w.(gate := gate, permits := w.permits[h := Permit(r.value, false)]) else w.(gate := gate)
    case Poll(h) => w.(permits := w.permits[h := w.permits[h].(granted := true)])
    case Renew(h) =>
      var (gate, r) := Checkpointed(w.gate, w.permits[h].ticket);
      w.(gate := gate, permits := w.permits[h := Permit(if r.Ok? then r.value else w.permits[h].ticket, false)])
    case Drop(h) =>
      w.(gate := Released(w.gate, w.permits[h].ticket).0, permits := w.permits - {h})
    case Observe => w.(phase := Seen(w.gate.Inhibited(), w.gate.active))
    case WriteRelay(demanded) =>
      w.(relay := if w.phase.inhibited then Off else demanded, phase := Wrote(w.phase.ticket))
    case AcknowledgeOff =>
      w.(gate := if w.phase.ticket.Some? then Acknowledged(w.gate, w.phase.ticket.value).0 else w.gate, phase := Resting)
  }

  const RESTING: World := World(NEW_GATE, Off, Resting, map[])

  ghost predicate Run(actions: seq<Action>, ws: seq<World>) {
    && |ws| == |actions| + 1
    && ws[0] == RESTING
    && forall i :: 0 <= i < |actions| ==> Enabled(ws[i], actions[i]) && ws[i + 1] == Do(ws[i], actions[i])
  }

  /** The holder of every permit holds the active ticket, so there is at most one. */
  ghost predicate PermitInv(w: World) {
    && (forall h :: h in w.permits ==>
          w.gate.active == Some(w.permits[h].ticket) && (w.permits[h].granted ==> w.gate.MayAccess(w.permits[h].ticket)))
    && (forall h, k :: h in w.permits && k in w.permits ==> h == k)
  }

  predicate PhaseInv(w: World) {
    match w.phase
    case Resting => true
    case Seen(inhibited, ticket) => ticket.Some? ==> inhibited && ticket.value <= w.gate.generation
    case Wrote(ticket) => ticket.Some? ==> w.relay == Off && ticket.value <= w.gate.generation
  }

  ghost predicate Inv(w: World) {
    && w.gate.Valid()
    && PermitInv(w)
    && PhaseInv(w)
    && (w.gate.acknowledged ==> w.relay == Off && (w.phase.Seen? ==> w.phase.inhibited))
  }

  lemma StepKeepsInv(w: World, a: Action)
    requires Inv(w) && Enabled(w, a)
    ensures Inv(Do(w, a))
    ensures w.gate.generation <= Do(w, a).gate.generation
  {
  }

  lemma {:induction false} RunInv(actions: seq<Action>, ws: seq<World>, n: nat)
    requires Run(actions, ws) && n <= |actions|
    ensures Inv(ws[n])
  {
    if n > 0 {
      RunInv(actions, ws, n - 1);
      StepKeepsInv(ws[n - 1], actions[n - 1]);
    }
  }

  /** Access is exclusive: a granted holder is the only holder, and the relay is low. */
  lemma GrantIsExclusive(actions: seq<Action>, ws: seq<World>, n: nat, h: Holder)
    requires Run(actions, ws) && n <= |actions|
    requires h in ws[n].permits && ws[n].permits[h].granted
    ensures ws[n].relay == Off
    ensures ws[n].gate.MayAccess(ws[n].permits[h].ticket)
    ensures ws[n].permits.Keys == {h}
  {
    RunInv(actions, ws, n);
  }

  // --------------------------------------------------------------- histories

  /** Action `i` issued ticket `t`. */
  predicate Issues(ws: seq<World>, i: nat, t: Ticket)
    requires i + 1 < |ws|
  {
    ws[i].gate.generation < t && ws[i + 1].gate.generation == t && ws[i + 1].gate.active == Some(t)
  }

  lemma {:induction false} IssuedAt(actions: seq<Action>, ws: seq<World>, n: nat, t: Ticket) returns (i: nat)
    requires Run(actions, ws) && n <= |actions| && 0 < t <= ws[n].gate.generation
    ensures i < n && Issues(ws, i, t)
  {
    if t <= ws[n - 1].gate.generation {
      i := IssuedAt(actions, ws, n - 1, t);
    } else {
      i := n - 1;
    }
  }

  /** Ticket `t` was observed by the loop iteration now in progress. */
  predicate Carries(w: World, t: Ticket) {
    (w.phase.Seen? && w.phase.ticket == Some(t)) || (w.phase.Wrote? && w.phase.ticket == Some(t))
  }

  /** Where the iteration carrying ticket `t` observed it. */
  lemma {:induction false} ObservedAt(actions: seq<Action>, ws: seq<World>, n: nat, t: Ticket) returns (o: nat)
    requires Run(actions, ws) && n <= |actions| && Carries(ws[n], t)
    ensures o < n && actions[o] == Observe && ws[o].gate.active == Some(t)
    ensures forall m :: o < m <= n ==> Carries(ws[m], t)
    ensures forall m :: o < m < n ==> actions[m] != Observe && actions[m] != AcknowledgeOff
  {
    if Carries(ws[n - 1], t) {
      o := ObservedAt(actions, ws, n - 1, t);
    } else {
      o := n - 1;
    }
  }

  /** Where an iteration that has written the relay wrote it. */
  lemma {:induction false} WrittenAt(actions: seq<Action>, ws: seq<World>, n: nat, t: Ticket) returns (k: nat)
    requires Run(actions, ws) && n <= |actions| && ws[n].phase == Wrote(Some(t))
    ensures k < n && actions[k].WriteRelay? && ws[k].phase.Seen? && ws[k].phase.ticket == Some(t)
    ensures forall m :: k < m <= n ==> ws[m].relay == Off
  {
    RunInv(actions, ws, n);
    if ws[n - 1].phase.Wrote? {
      k := WrittenAt(actions, ws, n - 1, t);
    } else {
      k := n - 1;
    }
  }

  /**
   One complete control iteration for ticket `t`, all before `n`: issued at `i`, observed
   at `o`, relay written at `k` and low ever since, acknowledged at `a`.
   */
  predicate OwnIteration(actions: seq<Action>, ws: seq<World>, i: nat, o: nat, k: nat, a: nat, n: nat, t: Ticket)
    requires |ws| == |actions| + 1
  {
    && i < o < k < a < n <= |actions|
    && Issues(ws, i, t)
    && actions[o] == Observe && ws[o].gate.active == Some(t)
    && actions[k].WriteRelay? && ws[k].phase == Seen(true, Some(t))
    && actions[a] == AcknowledgeOff && ws[a].phase == Wrote(Some(t))
    && (forall m :: k < m <= n ==> ws[m].relay == Off)
    && (forall m :: a < m <= n ==> ws[m].gate.MayAccess(t))
  }

  /**
   Flash exclusion: whenever access is granted for a ticket, the relay is low and was
   written low in a complete control iteration that began after the ticket was issued,
   and it has not been raised since.
   */
  lemma {:induction false} AccessHistory(actions: seq<Action>, ws: seq<World>, n: nat, t: Ticket)
    returns (i: nat, o: nat, k: nat, a: nat)
    requires Run(actions, ws) && n <= |actions| && ws[n].gate.MayAccess(t)
    ensures OwnIteration(actions, ws, i, o, k, a, n, t)
  {
    RunInv(actions, ws, n);
    if ws[n - 1].gate.MayAccess(t) {
      i, o, k, a := AccessHistory(actions, ws, n - 1, t);
    } else {
      a := n - 1;
      assert actions[a] == AcknowledgeOff && ws[a].phase == Wrote(Some(t)) by { GrantedByAcknowledge(ws[a], actions[a], t); }
      RunInv(actions, ws, a);
      k := WrittenAt(actions, ws, a, t);
      RunInv(actions, ws, k);
      o := ObservedAt(actions, ws, k, t);
      RunInv(actions, ws, o);
      TicketsArePositive(actions, ws, o, t);
      i := IssuedAt(actions, ws, o, t);
    }
  }

  /** Access to a ticket starts only by acknowledging that very ticket. */
  lemma GrantedByAcknowledge(w: World, a: Action, t: Ticket)
    requires Enabled(w, a) && !w.gate.MayAccess(t) && Do(w, a).gate.MayAccess(t)
    ensures a == AcknowledgeOff && w.phase == Wrote(Some(t))
  {
  }

  lemma {:induction false} TicketsArePositive(actions: seq<Action>, ws: seq<World>, n: nat, t: Ticket)
    requires Run(actions, ws) && n <= |actions| && ws[n].gate.active == Some(t)
    ensures t > 0
  {
    if ws[n - 1].gate.active == Some(t) {
      TicketsArePositive(actions, ws, n - 1, t);
    }
  }

  lemma {:induction false} GenerationGrows(actions: seq<Action>, ws: seq<World>, i: nat, j: nat)
    requires Run(actions, ws) && i <= j <= |actions|
    ensures ws[i].gate.generation <= ws[j].gate.generation
    decreases j - i
  {
    if i < j {
      GenerationGrows(actions, ws, i, j - 1);
    }
  }

  /** Tickets are never reused: every later issue is of a greater ticket. */
  lemma TicketsAreFresh(actions: seq<Action>, ws: seq<World>, i: nat, j: nat, t: Ticket, u: Ticket)
    requires Run(actions, ws) && i < j < |actions|
    requires Issues(ws, i, t) && Issues(ws, j, u)
    ensures t < u
  {
    GenerationGrows(actions, ws, i + 1, j);
  }

  /** Every chunk has its own iteration: the one for a newer ticket starts after the older one ended. */
  lemma IterationsAreSeparate(actions: seq<Action>, ws: seq<World>,
                              i1: nat, o1: nat, k1: nat, a1: nat, n1: nat, t: Ticket,
                              i2: nat, o2: nat, k2: nat, a2: nat, n2: nat, u: Ticket)
    requires Run(actions, ws)
    requires OwnIteration(actions, ws, i1, o1, k1, a1, n1, t) && OwnIteration(actions, ws, i2, o2, k2, a2, n2, u)
    requires t < u
    ensures n1 <= i2 && a1 < o2
  {
    RunInv(actions, ws, n1);
    if i2 < n1 {
      GenerationGrows(actions, ws, i2 + 1, n1);
    }
  }

  /** Once access was granted the relay stays low until the permit is dropped, through every renewal. */
  lemma {:induction false} RelayHeldUntilDrop(actions: seq<Action>, ws: seq<World>, n: nat, j: nat, t: Ticket)
    requires Run(actions, ws) && n <= j <= |actions| && ws[n].gate.MayAccess(t)
    requires forall m :: n <= m <= j ==> ws[m].gate.active.Some?
    ensures ws[j].relay == Off && (ws[j].phase.Seen? ==> ws[j].phase.inhibited)
    decreases j - n
  {
    RunInv(actions, ws, n);
    if n < j {
      RelayHeldUntilDrop(actions, ws, n, j - 1, t);
    }
  }

  // -------------------------------------------------------------- exhaustion

  lemma {:induction false} ExhaustionLasts(actions: seq<Action>, ws: seq<World>, i: nat, n: nat)
    requires Run(actions, ws) && i <= n <= |actions| && ws[i].gate.exhausted
    ensures ws[n].gate.exhausted
    decreases n - i
  {
    if i < n {
      ExhaustionLasts(actions, ws, i, n - 1);
    }
  }

  lemma {:induction false} ObservedInhibited(actions: seq<Action>, ws: seq<World>, i: nat, o: nat, n: nat)
    requires Run(actions, ws) && i <= o < n <= |actions| && ws[i].gate.exhausted && actions[o] == Observe
    ensures ws[n].phase.Seen? ==> ws[n].phase.inhibited
    decreases n - o
  {
    ExhaustionLasts(actions, ws, i, n - 1);
    if o + 1 < n {
      ObservedInhibited(actions, ws, i, o, n - 1);
    }
  }

  /**
   Exhaustion inhibits for good: no ticket is issued or granted again, and from the first
   relay write of an iteration that observed it the relay is never high again.
   */
  lemma {:induction false} ExhaustionInhibits(actions: seq<Action>, ws: seq<World>, i: nat, o: nat, k: nat, n: nat)
    requires Run(actions, ws) && i <= o < k < n <= |actions| && ws[i].gate.exhausted
    requires actions[o] == Observe && actions[k].WriteRelay?
    ensures ws[n].relay == Off
    ensures forall t :: !ws[n].gate.MayAccess(t)
    ensures ws[n].gate.generation == ws[i].gate.generation
    decreases n - k
  {
    ExhaustionLasts(actions, ws, i, n);
    ObservedInhibited(actions, ws, i, o, n - 1);
    ExhaustedGeneration(actions, ws, i, n);
    if k + 1 < n {
      ExhaustionInhibits(actions, ws, i, o, k, n - 1);
    }
  }

  lemma {:induction false} ExhaustedGeneration(actions: seq<Action>, ws: seq<World>, i: nat, n: nat)
    requires Run(actions, ws) && i <= n <= |actions| && ws[i].gate.exhausted
    ensures ws[n].gate.generation == ws[i].gate.generation
    decreases n - i
  {
    ExhaustedIsLast(actions, ws, i);
    GenerationGrows(actions, ws, i, n);
  }

  lemma {:induction false} ExhaustedIsLast(actions: seq<Action>, ws: seq<World>, n: nat)
    requires Run(actions, ws) && n <= |actions| && ws[n].gate.exhausted
    ensures ws[n].gate.generation == U64_MAX
  {
    if ws[n - 1].gate.exhausted {
      ExhaustedIsLast(actions, ws, n - 1);
    }
  }

  /** The gate opens: one undisturbed iteration after a request lets its holder through. */
  lemma IterationGrants(w: World, h: Holder, demanded: Relay)
    requires Inv(w) && h in w.permits && !w.gate.exhausted && w.phase == Resting && !w.permits[h].granted
    ensures var seen := Do(w, Observe);
      && Enabled(seen, WriteRelay(demanded))
      && var wrote := Do(seen, WriteRelay(demanded));
      && Enabled(wrote, AcknowledgeOff)
      && Enabled(Do(wrote, AcknowledgeOff), Poll(h))
  {
  }

  /** A ticket that is not the active one changes nothing, whatever it is used for. */
  lemma StaleTicketsDoNothing(g: Gate, t: Ticket)
    requires g.active != Some(t)
    ensures Checkpointed(g, t) == (g, Err(StaleTicket))
    ensures Acknowledged(g, t) == (g, false) && Released(g, t) == (g, false)
    ensures !g.MayAccess(t)
  {
  }

  /** One holder at a time: a second one is refused and disturbs nothing. */
  lemma SecondIsRefused(w: World, h: Holder, k: Holder)
    requires Inv(w) && h in w.permits && h != k
    ensures k !in w.permits && Enabled(w, Acquire(k)) && Do(w, Acquire(k)) == w
  {
  }

  /** Dropping the permit frees the gate: the output is no longer held back, and the next holder gets a ticket of its own. */
  lemma DropFrees(w: World, h: Holder, k: Holder)
    requires Inv(w) && h in w.permits && !w.gate.exhausted
    ensures var v := Do(w, Drop(h));
      && v.permits == map[] && v.gate.active.None? && !v.gate.Inhibited()
      && (w.gate.generation < U64_MAX ==>
            Do(v, Acquire(k)).permits == map[k := Permit(w.gate.generation + 1, false)])
  {
    var v := Do(w, Drop(h));
    assert v.permits == map[];
  }
}
