/**
 The two halves of a run of the runtime behind its ingress: a history of the ingress and a
 run of the runtime, so that what is proved of either holds of both together.
 */
module DispatchHalves {
  import opened Runtime
  import opened RuntimeInvariant
  import opened RuntimeSafety
  import opened RuntimeRuns
  import opened RuntimeReplies
  import opened Dispatch
  import IN = Ingress
  import IH = IngressHistory

  /** What event `e` does to the ingress, if anything. */
  ghost function OpOf(s: Loop, e: Event): seq<IH.Event> {
    match e
    case Produce(event) => [event]
    case Take => [IH.Take]
    case Step(_, _) => []
    case Return => if s.hand.Answering? && s.hand.replies != [] then [IH.Complete(s.hand.replies[0])] else []
  }

  ghost function Ops(es: seq<Event>, ss: seq<Loop>, n: nat): seq<IH.Event>
    requires n <= |es| < |ss|
  {
    if n == 0 then [] else Ops(es, ss, n - 1) + OpOf(ss[n - 1], es[n - 1])
  }

  ghost function Desks(es: seq<Event>, ss: seq<Loop>, n: nat): seq<IN.Desk>
    requires n <= |es| < |ss|
  {
    if n == 0 then [ss[0].desk]
    else Desks(es, ss, n - 1) + (if OpOf(ss[n - 1], es[n - 1]) == [] then [] else [ss[n].desk])
  }

  lemma OpApplies(s: Loop, e: Event)
    requires Enabled(s, e)
    ensures |OpOf(s, e)| <= 1
    ensures Do(s, e).desk == if OpOf(s, e) == [] then s.desk else IH.Apply(s.desk, OpOf(s, e)[0])
  {
    hide PlanOf, Next, RepliesOf, IN.Taken, IN.Completed;
    match e {
      case Produce(_) =>
      case Take =>
      case Step(_, _) =>
      case Return =>
    }
  }

  /** The ingress half of every run is one of its histories, so whatever holds of those holds here. */
  lemma {:induction false} DeskHistory(es: seq<Event>, ss: seq<Loop>, n: nat)
    requires Run(es, ss) && n <= |es|
    ensures IH.History(Ops(es, ss, n), Desks(es, ss, n))
    ensures Desks(es, ss, n)[|Ops(es, ss, n)|] == ss[n].desk
  {
    hide Do, Enabled, OpOf, IH.Apply, PlanOf;
    if n > 0 {
      DeskHistory(es, ss, n - 1);
      OpApplies(ss[n - 1], es[n - 1]);
      assert Enabled(ss[n - 1], es[n - 1]) && ss[n] == Do(ss[n - 1], es[n - 1]);
    }
  }

  ghost function Inputs(es: seq<Event>, ss: seq<Loop>, n: nat): seq<Input>
    requires Run(es, ss) && n <= |es|
  {
    if n == 0 then []
    else Inputs(es, ss, n - 1) + (if es[n - 1].Step? then [InputOf(ss[n - 1], es[n - 1])] else [])
  }

  ghost function Runtimes(es: seq<Event>, ss: seq<Loop>, n: nat): seq<Rt>
    requires Run(es, ss) && n <= |es|
  {
    if n == 0 then [ss[0].rt] else Runtimes(es, ss, n - 1) + (if es[n - 1].Step? then [ss[n].rt] else [])
  }

  lemma StepApplies(s: Loop, e: Event)
    requires Enabled(s, e)
    ensures !e.Step? ==> Do(s, e).rt == s.rt
    ensures e.Step? ==>
      && s.hand.Asked?
      && PlanOf(s.rt, InputOf(s, e)).committed.Valid()
      && Do(s, e).rt == Next(s.rt, InputOf(s, e))
  {
    hide PlanOf, Next, RepliesOf, IN.Taken, IN.Completed, IH.Apply;
  }

  /** The runtime half of every run is a run of the runtime, and one without the last-ticket race. */
  lemma {:induction false} RuntimeHistory(es: seq<Event>, ss: seq<Loop>, n: nat)
    requires Run(es, ss) && n <= |es|
    ensures Steps(Inputs(es, ss, n), Runtimes(es, ss, n))
    ensures Runtimes(es, ss, n)[|Inputs(es, ss, n)|] == ss[n].rt
    ensures forall k :: 0 <= k < |Inputs(es, ss, n)| ==> !Races(Runtimes(es, ss, n)[k], Inputs(es, ss, n)[k])
  {
    hide Do, Enabled, Inv, PlanOf, Next, Races, InputOf, Linked, Starts;
    if n == 0 {
      LinkedAlways(es, ss, 0);
      LinkedInv(ss[0]);
    } else {
      RuntimeHistory(es, ss, n - 1);
      var s, e := ss[n - 1], es[n - 1];
      LinkedAlways(es, ss, n - 1);
      StepApplies(s, e);
      if e.Step? {
        LinkedNeverRaces(s, e);
      }
    }
  }

  lemma LinkedInv(s: Loop)
    requires Linked(s)
    ensures Inv(s.rt)
  {
    hide Inv, IH.Inv;
  }

  /** Behind the ingress, from a boot on, every request the runtime took on was answered or still waits. */
  lemma RuntimeBalances(es: seq<Event>, ss: seq<Loop>, n: nat)
    requires Run(es, ss) && n <= |es|
    ensures Steps(Inputs(es, ss, n), Runtimes(es, ss, n))
    ensures var inputs, rs := Inputs(es, ss, n), Runtimes(es, ss, n);
      TakenOver(inputs, rs, 0, |inputs|) == Waiting(ss[n].rt) + AnsweredOver(inputs, rs, 0, |inputs|)
  {
    RuntimeHistory(es, ss, n);
    var inputs, rs := Inputs(es, ss, n), Runtimes(es, ss, n);
    RepliesBalance(inputs, rs, 0, |inputs|);
    FirstRuntime(es, ss, n);
    NothingWaitsAtFirst(ss[0]);
    hide Steps, Run, Waiting, TakenOver, AnsweredOver;
  }

  lemma {:induction false} FirstRuntime(es: seq<Event>, ss: seq<Loop>, n: nat)
    requires Run(es, ss) && n <= |es|
    ensures |Runtimes(es, ss, n)| > 0 && Runtimes(es, ss, n)[0] == ss[0].rt
  {
    if n > 0 {
      FirstRuntime(es, ss, n - 1);
    }
    hide Do, Enabled, Starts;
  }

  lemma NothingWaitsAtFirst(s: Loop)
    requires Starts(s)
    ensures Waiting(s.rt) == multiset{}
  {
  }
}
