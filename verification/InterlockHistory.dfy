/**
 What the interlock guarantees over a whole run: any sequence of iterations and
 retunings, through faults, maintenance and backwards clocks.
 */
module InterlockHistory {
  import opened Base
  import opened Interlock

  datatype Event =
    | Tick(now: Millis, reading: Reading, command: Command, demand: Demand)
    | Retune(config: Config)

  /** A changed interlock configuration drops confirmations in progress. */
  function Retuned(c: Control, config: Config): Control {
    if config == c.config then c
    else c.(config := config, lowSince := None, recoverySince := None)
  }

  function Apply(c: Control, e: Event): Control
    requires c.Valid()
  {
    match e
    case Tick(now, reading, command, demand) => Updated(c, now, reading, command, demand)
    case Retune(config) => Retuned(c, config)
  }

  lemma ApplyValid(c: Control, e: Event)
    requires c.Valid()
    ensures Apply(c, e).Valid()
    ensures Apply(c, e).lastTick == (if e.Tick? then Max(c.lastTick, e.now) else c.lastTick)
    ensures Apply(c, e).config == (if e.Tick? then c.config else e.config)
  {
    if e.Tick? {
      UpdatedValid(c, e.now, e.reading, e.command, e.demand);
    }
    hide Updated;
  }

  lemma UpdatedValid(c: Control, now: Millis, reading: Reading, command: Command, demand: Demand)
    requires c.Valid()
    ensures var d := Updated(c, now, reading, command, demand);
      d.Valid() && d.lastTick == Max(c.lastTick, now) && d.config == c.config
  {
    var entered := if command == EnterMaintenance then Stopped(c, Max(now, c.lastTick), Maintenance) else c;
    if now >= c.lastTick {
      var ticked := entered.(lastTick := now);
      var exited := if command == ExitMaintenance && ticked.state == Maintenance
                    then Stopped(ticked, now, Boot) else ticked;
      assert exited.Valid();
      if Fresh(c.config, now, reading) {
        DemandedValid(exited, now, reading.level, reading.observedAt, demand);
      }
    }
    hide Demanded;
  }

  lemma DemandedValid(c: Control, now: Millis, level: Level, observedAt: Millis, demand: Demand)
    requires c.Valid() && c.lastTick == now && observedAt <= now
    ensures var d := Demanded(c, now, level, observedAt, demand);
      d.Valid() && d.lastTick == now && d.config == c.config
  {
  }

  /** `cs[i]` is the controller after the first `i` events since boot at `start`. */
  ghost predicate History(config: Config, start: Millis, events: seq<Event>, cs: seq<Control>) {
    && |cs| == |events| + 1
    && cs[0] == Initial(config, start)
    && forall i :: 0 <= i < |events| ==> cs[i].Valid() && cs[i + 1] == Apply(cs[i], events[i])
  }

  /** The newest time any of the first `n` events carried; a clock stepping back does not lower it. */
  function HighWater(start: Millis, events: seq<Event>, n: nat): Millis
    requires n <= |events|
  {
    if n == 0 then start
    else
      var before := HighWater(start, events, n - 1);
      if events[n - 1].Tick? then Max(before, events[n - 1].now) else before
  }

  lemma {:induction false} LastTickIsHighWater(config: Config, start: Millis, events: seq<Event>, cs: seq<Control>, n: nat)
    requires History(config, start, events, cs) && n <= |events|
    ensures cs[n].lastTick == HighWater(start, events, n)
    ensures cs[n].Valid()
  {
    if n > 0 {
      LastTickIsHighWater(config, start, events, cs, n - 1);
      ApplyValid(cs[n - 1], events[n - 1]);
    }
  }

  /** The output first went off after `k` events and stayed off up to `n`. */
  ghost predicate OffFrom(cs: seq<Control>, k: nat, n: nat)
    requires k <= n < |cs|
  {
    && (k == 0 || cs[k - 1].Relay() == On)
    && forall i :: k <= i <= n ==> cs[i].Relay() == Off
  }

  lemma OffStep(c: Control, e: Event)
    requires c.Valid() && Apply(c, e).Relay() == Off
    ensures Apply(c, e).offSince == (if c.Relay() == Off then c.offSince else Apply(c, e).lastTick)
  {
  }

  /** While the output is off, `offSince` is the high-water clock of the turn-off. */
  lemma {:induction false} OffSinceMarksTurnOff(config: Config, start: Millis, events: seq<Event>, cs: seq<Control>, k: nat, n: nat)
    requires History(config, start, events, cs) && k <= n <= |events| && OffFrom(cs, k, n)
    ensures cs[n].offSince == HighWater(start, events, k)
    decreases n - k
  {
    assert cs[n].Relay() == Off;
    if k < n {
      OffSinceMarksTurnOff(config, start, events, cs, k, n - 1);
      assert cs[n - 1].Relay() == Off;
      OffStep(cs[n - 1], events[n - 1]);
    } else if k > 0 {
      OffStep(cs[k - 1], events[k - 1]);
      LastTickIsHighWater(config, start, events, cs, k);
    }
  }

  /**
   Minimum off: a tick that turns the output on comes at least `minimumOffMs` after
   the high-water clock of the turn-off it ends (or of boot).
   */
  lemma MinimumOff(config: Config, start: Millis, events: seq<Event>, cs: seq<Control>, k: nat, n: nat)
    requires History(config, start, events, cs) && k <= n < |events|
    requires OffFrom(cs, k, n) && cs[n + 1].Relay() == On
    ensures events[n].Tick?
    ensures events[n].now >= HighWater(start, events, n)
    ensures events[n].now - HighWater(start, events, k) >= cs[n].config.timing.minimumOffMs
  {
    OffSinceMarksTurnOff(config, start, events, cs, k, n);
    LastTickIsHighWater(config, start, events, cs, n);
    assert cs[n].Relay() == Off;
  }

  /** An event that keeps an automatic recovery in progress. */
  ghost predicate Evidence(c: Control, e: Event) {
    match e
    case Tick(now, reading, command, demand) =>
      && c.lastTick <= now <= c.lastTick + c.config.maxSampleAgeMs
      && Fresh(c.config, now, reading)
      && reading.level >= c.config.restart
      && demand == Automatic
      && command != EnterMaintenance
    case Retune(config) => config == c.config
  }

  /** `i` starts an unbroken series of recovery evidence reaching `n`. */
  ghost predicate EvidenceFrom(events: seq<Event>, cs: seq<Control>, i: nat, n: nat)
    requires n <= |events| < |cs|
  {
    && i < n
    && events[i].Tick?
    && forall k :: i <= k < n ==> Evidence(cs[k], events[k])
  }

  /** A recovery mark is either kept by evidence or set by this very tick. */
  lemma RecoveryStep(c: Control, e: Event)
    requires c.Valid() && Apply(c, e).recoverySince.Some?
    ensures Evidence(c, e)
    ensures c.recoverySince == Apply(c, e).recoverySince
         || (e.Tick? && e.now == Apply(c, e).recoverySince.value)
  {
  }

  lemma {:induction false} RecoveryMarksEvidence(config: Config, start: Millis, events: seq<Event>, cs: seq<Control>, n: nat)
    returns (i: nat)
    requires History(config, start, events, cs) && n <= |events|
    requires cs[n].recoverySince.Some?
    ensures EvidenceFrom(events, cs, i, n)
    ensures events[i].now == cs[n].recoverySince.value
  {
    RecoveryStep(cs[n - 1], events[n - 1]);
    if cs[n - 1].recoverySince == cs[n].recoverySince {
      i := RecoveryMarksEvidence(config, start, events, cs, n - 1);
    } else {
      i := n - 1;
    }
  }

  /**
   Recovery evidence: an automatic turn-on ends an unbroken series of ticks, each
   with a fresh level at or above restart, and the newest acquisition lies at least
   `recoveryMs` after the first tick of the series.
   */
  lemma AutomaticNeedsRecovery(config: Config, start: Millis, events: seq<Event>, cs: seq<Control>, n: nat)
    returns (i: nat)
    requires History(config, start, events, cs) && n < |events|
    requires cs[n].Relay() == Off && cs[n + 1].Relay() == On
    requires events[n].Tick? && events[n].demand == Automatic
    ensures EvidenceFrom(events, cs, i, n + 1)
    ensures events[n].reading.Valid?
    ensures events[n].reading.observedAt - events[i].now >= cs[n].config.timing.recoveryMs
  {
    assert Evidence(cs[n], events[n]);
    assert cs[n].recoverySince.Some?;
    i := RecoveryMarksEvidence(config, start, events, cs, n);
  }

  // ------------------------------------------------------------- low water

  /** An event that keeps a low confirmation in progress. */
  ghost predicate LowEvidence(c: Control, e: Event) {
    match e
    case Tick(now, reading, command, demand) =>
      && c.lastTick <= now <= c.lastTick + c.config.maxSampleAgeMs
      && Fresh(c.config, now, reading)
      && reading.level <= c.config.stop
      && demand == Automatic
      && command != EnterMaintenance
    case Retune(config) => config == c.config
  }

  /** `i` starts an unbroken series of low evidence reaching `n`, with the output on. */
  ghost predicate LowFrom(events: seq<Event>, cs: seq<Control>, i: nat, n: nat)
    requires n <= |events| < |cs|
  {
    && i < n
    && events[i].Tick?
    && forall k :: i <= k < n ==> LowEvidence(cs[k], events[k]) && cs[k].Relay() == On
  }

  /** A low mark exists only while running; it is kept by evidence or set by this very tick. */
  lemma LowStep(c: Control, e: Event)
    requires c.Valid() && (c.lowSince.Some? ==> c.Relay() == On)
    ensures Apply(c, e).lowSince.Some? ==>
      && Apply(c, e).Relay() == On && c.Relay() == On
      && LowEvidence(c, e)
      && (c.lowSince == Apply(c, e).lowSince || (e.Tick? && e.now == Apply(c, e).lowSince.value))
    ensures c.Relay() == On && Apply(c, e).Relay() == On && LowEvidence(c, e) ==>
      if e.Tick? then
        Apply(c, e).lowSince == Some(if c.lowSince.Some? then c.lowSince.value else e.now)
      else Apply(c, e).lowSince == c.lowSince
  {
  }

  lemma {:induction false} LowOnlyWhileOn(config: Config, start: Millis, events: seq<Event>, cs: seq<Control>, n: nat)
    requires History(config, start, events, cs) && n <= |events|
    ensures cs[n].lowSince.Some? ==> cs[n].Relay() == On
  {
    if n > 0 {
      LowOnlyWhileOn(config, start, events, cs, n - 1);
      LowStep(cs[n - 1], events[n - 1]);
    }
  }

  lemma {:induction false} LowMarksEvidence(config: Config, start: Millis, events: seq<Event>, cs: seq<Control>, n: nat)
    returns (i: nat)
    requires History(config, start, events, cs) && n <= |events| && cs[n].lowSince.Some?
    ensures LowFrom(events, cs, i, n) && events[i].now == cs[n].lowSince.value
  {
    hide Apply;
    LowOnlyWhileOn(config, start, events, cs, n - 1);
    LowStep(cs[n - 1], events[n - 1]);
    if cs[n - 1].lowSince == cs[n].lowSince {
      i := LowMarksEvidence(config, start, events, cs, n - 1);
    } else {
      i := n - 1;
    }
  }

  /**
   Debounce: a running output is stopped for low water only after an unbroken series of
   fresh levels at or below stop whose newest acquisition lies at least the confirmation
   time after the series' first tick.
   */
  lemma LowStopNeedsConfirmation(config: Config, start: Millis, events: seq<Event>, cs: seq<Control>, n: nat)
    returns (i: nat)
    requires History(config, start, events, cs) && n < |events|
    requires cs[n].Relay() == On && cs[n + 1].state == Low
    ensures i <= n && events[i].Tick? && events[n].Tick? && events[n].reading.Valid?
    ensures forall k :: i <= k <= n ==> LowEvidence(cs[k], events[k])
    ensures SatSub(events[n].reading.observedAt, events[i].now) >= cs[n].config.timing.lowConfirmationMs
  {
    assert LowEvidence(cs[n], events[n]);
    if cs[n].lowSince.Some? {
      i := LowMarksEvidence(config, start, events, cs, n);
    } else {
      i := n;
    }
  }

  lemma {:induction false} LowSeriesMarks(config: Config, start: Millis, events: seq<Event>, cs: seq<Control>, i: nat, n: nat)
    requires History(config, start, events, cs) && n <= |events| && LowFrom(events, cs, i, n) && cs[n].Relay() == On
    ensures cs[n].lowSince.Some? && cs[n].lowSince.value <= events[i].now
    decreases n - i
  {
    LowOnlyWhileOn(config, start, events, cs, n - 1);
    LowStep(cs[n - 1], events[n - 1]);
    LastTickIsHighWater(config, start, events, cs, n - 1);
    if i + 1 < n {
      LowSeriesMarks(config, start, events, cs, i, n - 1);
    }
  }

  /** And such a series always stops it: an automatic run never pumps on past a confirmed low. */
  lemma ConfirmedLowStops(config: Config, start: Millis, events: seq<Event>, cs: seq<Control>, i: nat, n: nat)
    requires History(config, start, events, cs) && i <= n < |events|
    requires events[i].Tick? && events[n].Tick? && events[n].reading.Valid?
    requires forall k :: i <= k <= n ==> LowEvidence(cs[k], events[k])
    requires SatSub(events[n].reading.observedAt, events[i].now) >= cs[n].config.timing.lowConfirmationMs
    ensures exists k :: i <= k <= n + 1 && cs[k].Relay() == Off
  {
    if forall k :: i <= k <= n ==> cs[k].Relay() == On {
      if i < n {
        LowSeriesMarks(config, start, events, cs, i, n);
      } else {
        LastTickIsHighWater(config, start, events, cs, n);
      }
      assert cs[n + 1].Relay() == Off;
    }
  }
}
