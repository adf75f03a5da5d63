/** What one tick makes of the output, reason by reason, and that enough recovery always starts it. */
module InterlockTicks {
  import opened Base
  import opened Interlock
  import opened InterlockHistory

  /** The tick is accepted for demand: on time, out of maintenance and with a usable sample. */
  predicate Usable(c: Control, now: Millis, reading: Reading, command: Command) {
    && command != EnterMaintenance
    && (c.state == Maintenance ==> command == ExitMaintenance)
    && c.lastTick <= now && now - c.lastTick <= c.config.maxSampleAgeMs
    && reading.Valid? && reading.observedAt <= now && now - reading.observedAt <= c.config.maxSampleAgeMs
  }

  /** A tick that is not usable leaves the output off, and the state names the first reason. */
  lemma UnusableTick(c: Control, now: Millis, reading: Reading, command: Command, demand: Demand)
    requires c.Valid() && !Usable(c, now, reading, command)
    ensures var d := Updated(c, now, reading, command, demand);
      && d.Relay() == Off
      && (c.state != Maintenance || command == EnterMaintenance ==> d.lowSince.None? && d.recoverySince.None?)
      && d.lastTick == Max(c.lastTick, now)
      && d.state == if command == EnterMaintenance then Maintenance
                    else if c.state == Maintenance && (now < c.lastTick || command != ExitMaintenance) then Maintenance
                    else if now < c.lastTick then Faulted(ClockWentBackwards)
                    else if now - c.lastTick > c.config.maxSampleAgeMs then Faulted(ControlGap)
                    else if reading.Invalid? then Faulted(reading.fault)
                    else if reading.observedAt > now then Faulted(FutureSample)
                    else Faulted(Stale)
  {
    hide Demanded;
  }

  /** Long enough off, and for an automatic start long enough at or above restart. */
  predicate Rested(c: Control, now: Millis) {
    now - c.offSince >= c.config.timing.minimumOffMs
  }

  /** A usable tick turns the output on, keeps it on or leaves it off exactly as the demand says. */
  lemma UsableTick(c: Control, now: Millis, reading: Reading, command: Command, demand: Demand)
    requires c.Valid() && Usable(c, now, reading, command)
    ensures var d := Updated(c, now, reading, command, demand);
      var on := c.Relay() == On;
      && d.lastTick == now && d.config == c.config
      && match demand
         case NoDemand => d.state == Idle
         case Override => d.state == if on || Rested(c, now) then Running else Recovering
         case Automatic =>
           if on then
             var since := if c.lowSince.Some? then c.lowSince.value else now;
             if reading.level > c.config.stop then d.state == Running && d.lowSince.None?
             else if reading.observedAt - since >= c.config.timing.lowConfirmationMs then d.state == Low
             else d.state == Running && d.lowSince == Some(since)
           else if reading.level < c.config.restart then d.state == Low && d.recoverySince.None?
           else
             var since := if c.recoverySince.Some? then c.recoverySince.value else now;
             if reading.observedAt - since >= c.config.timing.recoveryMs && Rested(c, now) then d.state == Running
             else d.state == Recovering && d.recoverySince == Some(since)
  {
  }

  /** Recovery evidence that the output can act on: not held in maintenance. */
  ghost predicate Recovers(c: Control, e: Event) {
    && Evidence(c, e)
    && (e.Tick? ==> c.state != Maintenance || e.command == ExitMaintenance)
  }

  lemma RecoveryGoesOn(c: Control, e: Event)
    requires c.Valid() && c.Relay() == Off && Recovers(c, e) && Apply(c, e).Relay() == Off
    ensures e.Tick? ==> Apply(c, e).recoverySince == Some(if c.recoverySince.Some? then c.recoverySince.value else e.now)
    ensures !e.Tick? ==> Apply(c, e).recoverySince == c.recoverySince
  {
  }

  lemma {:induction false} RecoverySeriesMarks(config: Config, start: Millis, events: seq<Event>, cs: seq<Control>, i: nat, n: nat)
    requires History(config, start, events, cs) && i < n <= |events| && events[i].Tick?
    requires forall k :: i <= k < n ==> Recovers(cs[k], events[k])
    requires forall k :: i <= k <= n ==> cs[k].Relay() == Off
    ensures cs[n].recoverySince.Some? && cs[n].recoverySince.value <= events[i].now
    decreases n
  {
    hide Apply, Recovers;
    LastTickIsHighWater(config, start, events, cs, n - 1);
    assert cs[n] == Apply(cs[n - 1], events[n - 1]);
    RecoveryGoesOn(cs[n - 1], events[n - 1]);
    if i < n - 1 {
      RecoverySeriesMarks(config, start, events, cs, i, n - 1);
    } else {
      MarksArePast(cs[i], events[i]);
    }
  }

  lemma MarksArePast(c: Control, e: Event)
    requires c.Valid() && e.Tick? && Recovers(c, e)
    ensures c.recoverySince.Some? ==> c.recoverySince.value <= e.now
  {
  }

  lemma OffWithin(cs: seq<Control>, k: nat, i: nat, n: nat)
    requires k <= i <= n < |cs| && OffFrom(cs, k, n)
    ensures forall m :: i <= m <= n ==> cs[m].Relay() == Off
  {
  }

  /**
   Enough recovery always starts the output: off since the high-water clock of the turn-off at
   `k` for the minimum-off time, an unbroken series of usable automatic ticks at or above
   restart whose newest acquisition lies the recovery time past its first tick turns it on.
   */
  lemma RecoveredStarts(config: Config, start: Millis, events: seq<Event>, cs: seq<Control>, k: nat, i: nat, n: nat)
    requires History(config, start, events, cs) && k <= i <= n < |events| && OffFrom(cs, k, n)
    requires events[i].Tick? && events[n].Tick? && events[n].reading.Valid?
    requires forall m :: i <= m <= n ==> Recovers(cs[m], events[m])
    requires events[n].reading.observedAt - events[i].now >= cs[n].config.timing.recoveryMs
    requires events[n].now - HighWater(start, events, k) >= cs[n].config.timing.minimumOffMs
    ensures cs[n + 1].Relay() == On
  {
    hide Apply, Updated;
    assert Recovers(cs[n], events[n]);
    OffSinceMarksTurnOff(config, start, events, cs, k, n);
    LastTickIsHighWater(config, start, events, cs, n);
    OffWithin(cs, k, i, n);
    if i == n {
      // One tick cannot span a recovery time.
      assert false;
    }
    RecoverySeriesMarks(config, start, events, cs, i, n);
    RecoveredTick(cs[n], events[n]);
  }

  lemma RecoveredTick(c: Control, e: Event)
    requires c.Valid() && c.Relay() == Off && e.Tick? && Recovers(c, e) && Rested(c, e.now)
    requires e.reading.observedAt - (if c.recoverySince.Some? then c.recoverySince.value else e.now) >= c.config.timing.recoveryMs
    ensures Apply(c, e).Relay() == On
  {
    UsableTick(c, e.now, e.reading, e.command, e.demand);
    hide Updated;
  }
}
