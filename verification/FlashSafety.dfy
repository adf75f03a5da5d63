/** Two-key consistency and what every power cut boots to, over every life of the device. */
module FlashSafety {
  import opened Base
  import opened Interlock
  import opened Runtime
  import opened RuntimeInvariant
  import opened RuntimeSafety
  import opened RuntimeProgress
  import opened Flash
  import PH = PolicyHistory

  /**
   The two keys agree, or the retained record is exactly one revision ahead in
   maintenance; before the first configuration there is at most that one record.
   */
  predicate TwoKey(keys: Keys) {
    match keys.config
    case NoConfig => keys.retained.None? || (keys.State().Some? && RevisionOf(keys.State().value, 0))
    case BadConfig => false
    case Stored(config) => keys.State().Some? && RevisionOf(keys.State().value, config.revision)
  }

  /** Every stored record passes validation. */
  predicate SoundKeys(keys: Keys) {
    Sound(keys.State())
  }

  // ----------------------------------------------------------------- flash sync

  function Outstanding(d: Unit): Option<Completion> {
    if d.mailbox.Some? then d.mailbox else d.result
  }

  /** The configuration key holds the runtime's configuration, or the replacement it staged. */
  ghost predicate ConfigSync(keys: Keys, r: Rt) {
    || (if r.configuration.Some? then keys.config == Stored(r.configuration.value) else keys.config.NoConfig?)
    || (&& keys.config.Stored? && keys.config.config.revision == r.ConfigRevision() + 1
        && r.durable.Some? && r.durable.value.configRevision == r.ConfigRevision() + 1)
  }

  /** The retained key lies between the durable and the desired record, and differs only while a write may have. */
  ghost predicate RetainedSync(keys: Keys, r: Rt) {
    && (keys.retained.Some? ==> keys.State().Some?)
    && SoundKeys(keys)
    && (keys.State().Some? ==> RevisionOf(keys.State().value, r.ConfigRevision()))
    && StateBelow(r.durable, keys.State())
    && StateBelow(keys.State(), r.desired)
    && (r.pending.Some? && r.pending.value.record.RetainedRecord? ==>
          StateBelow(keys.State(), Some(r.pending.value.record.state)))
    && (keys.State() != r.durable ==>
          && (r.durable.Some? ==> r.durable.value.configRevision == r.ConfigRevision())
          && (r.storageFailed || (r.pending.Some? && r.pending.value.record.RetainedRecord?)))
  }

  /** A success still to be delivered belongs to a record that is in flash. */
  ghost predicate OwnerSync(d: Unit, r: Rt) {
    && (d.mailbox.None? || d.result.None?)
    && d.lastTicket <= r.nextTicket
    && (Outstanding(d).Some? ==>
          && Outstanding(d).value.ticket == d.lastTicket
          && r.pending.Some? && r.pending.value.ticket == d.lastTicket
          && (Outstanding(d).value.succeeded ==>
                match r.pending.value.record
                case RetainedRecord(state) => d.keys.State() == Some(state)
                case ConfigurationRecord(config) => d.keys.config == Stored(config)))
  }

  /** Flash, owner and runtime agree. */
  ghost predicate Sync(d: Unit) {
    match d.rt
    case None => d.mailbox.None? && d.result.None? && SoundKeys(d.keys)
    case Some(r) => Inv(r) && ConfigSync(d.keys, r) && RetainedSync(d.keys, r) && OwnerSync(d, r)
  }

  lemma SyncIsTwoKey(d: Unit)
    requires Sync(d)
    ensures d.rt.Some? ==> TwoKey(d.keys)
  {
    hide PH.Inv;
  }

  lemma BootSyncs(d: Unit, now: Millis, outcome: WriteOutcome)
    requires Sync(d) && d.rt.None?
    ensures Sync(Do(d, Start(now, outcome)))
    ensures TwoKey(d.keys) ==> TwoKey(Do(d, Start(now, outcome)).keys)
  {
    var after := Do(d, Start(now, outcome));
    if after.rt.Some? {
      var boot := ReadBoot(d.keys).value;
      var retained := if boot.retained.Some? then Some(boot.retained.value.state) else None;
      NewRuntimeInv(boot.configuration, retained, now);
      assert after.keys.State() == retained;
      hide PH.Inv;
    } else {
      hide PH.Inv;
    }
  }

  lemma WriteSyncs(d: Unit, outcome: WriteOutcome)
    requires Sync(d) && Enabled(d, Apply(outcome))
    ensures Sync(Do(d, Apply(outcome)))
  {
    hide PH.Inv;
    var r := d.rt.value;
    var after := Do(d, Apply(outcome));
  }

  lemma IterateSyncs(d: Unit, observed: Observed, request: Option<Request>)
    requires Sync(d) && Enabled(d, Iterate(observed, request))
    ensures Sync(Do(d, Iterate(observed, request)))
  {
    var r := d.rt.value;
    StepKeepsInv(r, observed, request, d.mailbox);
    StepProgress(r, observed, request, d.mailbox);
    var r' := Step(r, observed, request, d.mailbox).rt;
    hide MakePlan, Step, PH.Inv;
    ProgressSyncs(d, r');
  }

  /** Any runtime that progressed from a synced one is synced once the mailbox is taken. */
  lemma ProgressSyncs(d: Unit, r': Rt)
    requires Sync(d) && d.rt.Some?
    requires Inv(r') && Progresses(d.rt.value, d.mailbox, r') && Advances(d.rt.value, r')
    ensures Sync(d.(rt := Some(r'), mailbox := None))
  {
    hide PH.Inv;
    var r := d.rt.value;
    var after := d.(rt := Some(r'), mailbox := None);
    ProgressSyncsRetained(d, r');
    assert ConfigSync(after.keys, r');
    assert OwnerSync(after, r');
  }

  lemma ProgressSyncsRetained(d: Unit, r': Rt)
    requires Sync(d) && d.rt.Some?
    requires Inv(r') && Progresses(d.rt.value, d.mailbox, r') && Advances(d.rt.value, r')
    ensures RetainedSync(d.keys, r')
  {
    hide PH.Inv;
    var r := d.rt.value;
    if Matches(r, d.mailbox) && d.mailbox.value.succeeded {
      assert d.keys.State() == r'.durable;
    }
  }

  lemma DoSyncs(d: Unit, a: Action)
    requires Sync(d) && Enabled(d, a)
    ensures Sync(Do(d, a))
    ensures Do(d, a).rt.Some? || (TwoKey(d.keys) && !Spoils(a)) ==> TwoKey(Do(d, a).keys)
  {
    match a {
      case PowerCut =>
      case Start(now, outcome) => BootSyncs(d, now, outcome);
      case Iterate(observed, request) => IterateSyncs(d, observed, request);
      case Apply(outcome) => WriteSyncs(d, outcome);
      case Post =>
      case SpoilRecord(_) =>
      case SpoilConfiguration =>
    }
    SyncIsTwoKey(Do(d, a));
  }

  lemma {:induction false} LifeSyncs(actions: seq<Action>, ds: seq<Unit>, n: nat)
    requires Life(actions, ds) && Sync(ds[0]) && n <= |actions|
    ensures Sync(ds[n])
  {
    hide Sync, Do, TwoKey, Enabled;
    if n > 0 {
      LifeSyncs(actions, ds, n - 1);
      DoSyncs(ds[n - 1], actions[n - 1]);
    }
  }

  /** A device that has never held anything. */
  ghost predicate Blank(d: Unit) {
    d == Unit(Keys(NoConfig, None), None, 0, None, None)
  }

  /** A record was spoilt before `n` and no runtime has started since. */
  ghost predicate SpoiltSince(actions: seq<Action>, ds: seq<Unit>, n: nat)
    requires n <= |actions| < |ds|
  {
    exists m: nat :: m < n && Spoils(actions[m]) && forall k :: m < k <= n ==> ds[k].rt.None?
  }

  /**
   Two-key consistency: in every life of a blank device, at every point and whatever each
   write reported, the retained revision equals the configuration revision or is exactly
   one ahead in maintenance, until damage to a stored record, and again once a runtime starts.
   */
  lemma {:induction false} TwoKeyAlways(actions: seq<Action>, ds: seq<Unit>, n: nat)
    requires Life(actions, ds) && Blank(ds[0]) && n <= |actions|
    ensures TwoKey(ds[n].keys) || SpoiltSince(actions, ds, n)
  {
    hide Sync, Do, TwoKey, Enabled;
    BlankIsSynced(ds[0]);
    if n > 0 {
      TwoKeyAlways(actions, ds, n - 1);
      LifeSyncs(actions, ds, n - 1);
      DoSyncs(ds[n - 1], actions[n - 1]);
      if ds[n].rt.None? && Spoils(actions[n - 1]) {
        assert SpoiltSince(actions, ds, n);
      } else if ds[n].rt.None? && !TwoKey(ds[n - 1].keys) {
        var m: nat :| m < n - 1 && Spoils(actions[m]) && forall k :: m < k <= n - 1 ==> ds[k].rt.None?;
        assert SpoiltSince(actions, ds, n);
      }
    }
  }

  lemma BlankIsSynced(d: Unit)
    requires Blank(d)
    ensures Sync(d) && TwoKey(d.keys)
  {
  }

  predicate LatchedOff(r: Rt) {
    r.Relay() == Off && r.maintenance && (r.desired.Some? ==> r.desired.value.maintenance)
  }

  /** This boot writes a repaired record before anything starts. */
  predicate Repairs(keys: Keys) {
    var read := ReadBoot(keys);
    read.Ok? && read.value.retained.Some? && read.value.retained.value.mustStore
  }

  /** What a boot makes of consistent keys, whatever its repair write reports. */
  lemma BootOutcomes(keys: Keys, now: Millis, outcome: WriteOutcome)
    requires TwoKey(keys) && SoundKeys(keys)
    ensures var (after, rt) := BootUp(keys, now, outcome);
      && TwoKey(after) && SoundKeys(after)
      && (rt.Some? ==> rt.value.Relay() == Off)
      && match keys.config
         case NoConfig =>
           if keys.retained.None? then rt.Some? && rt.value.configuration.None? && rt.value.maintenance else rt.None?
         case Stored(config) =>
           && (rt.None? <==> Repairs(keys) && outcome != Done)
           && (Repairs(keys) <==> Recovers(keys) || keys.State().value != keys.State().value.Suppress())
           && (Recovers(keys) <==> keys.State().value.configRevision != config.revision)
           && after.Revision() == config.revision
           && (rt.Some? ==>
                 && rt.value.configuration == Some(config)
                 && after.State() == rt.value.desired && rt.value.desired.Some?
                 && rt.value.desired.value.configRevision == config.revision
                 && (if Recovers(keys) then LatchedOff(rt.value)
                     else rt.value.desired == Some(keys.State().value.Suppress())))
  {
  }

  /** A repair that fails changes nothing about what the next successful boot starts, for any keys. */
  lemma FailedRepairIsHarmless(keys: Keys, now: Millis, outcome: WriteOutcome)
    ensures BootUp(BootUp(keys, now, outcome).0, now, Done) == BootUp(keys, now, Done)
  {
  }

  /**
   Every crash point of a save: cutting power while a replacement is staged boots to the
   old committed pair, to latched maintenance, or to no runtime at all, which is a repair
   that failed or a device that had no configuration yet; the output is off in each case.
   */
  lemma CrashDuringSave(d: Unit, now: Millis, outcome: WriteOutcome)
    requires Sync(d) && d.rt.Some? && d.rt.value.replacement.Some?
    ensures var prior := d.rt.value;
      var (after, rt) := BootUp(d.keys, now, outcome);
      match rt
      case None => prior.configuration.None? || (Repairs(d.keys) && outcome != Done)
      case Some(r) =>
        && r.Relay() == Off
        && (LatchedOff(r)
            || (r.configuration == prior.configuration
                && r.desired.Some? && r.desired.value.configRevision == prior.ConfigRevision()))
  {
    SyncIsTwoKey(d);
    BootOutcomes(d.keys, now, outcome);
    SaveKeys(d);
    hide BootUp, PH.Inv, Inv, Repairs, Recovers;
  }

  /** What administration relies on: a power cut in durable maintenance only leads back to latched maintenance. */
  lemma DurableMaintenanceSurvives(d: Unit, now: Millis, outcome: WriteOutcome)
    requires Sync(d) && d.rt.Some? && d.rt.value.DurableMaintenance()
    ensures var rt := BootUp(d.keys, now, outcome).1; rt.Some? ==> LatchedOff(rt.value)
  {
    SyncIsTwoKey(d);
    BootOutcomes(d.keys, now, outcome);
    DurableIsStored(d);
    hide BootUp, PH.Inv, Inv, Repairs, Recovers;
  }

  lemma DurableIsStored(d: Unit)
    requires Sync(d) && d.rt.Some? && d.rt.value.DurableMaintenance()
    ensures d.keys.State() == d.rt.value.durable && d.keys.State().value.maintenance
    ensures d.keys.config.Stored?
  {
    hide PH.Inv;
  }

  /** While a save is staged the keys hold the old pair, or a record in maintenance. */
  lemma SaveKeys(d: Unit)
    requires Sync(d) && d.rt.Some? && d.rt.value.replacement.Some?
    ensures var prior := d.rt.value;
      && (d.keys.config.NoConfig? ==> prior.configuration.None?)
      && (d.keys.config.Stored? && d.keys.config.config.revision == d.keys.State().value.configRevision ==>
            || d.keys.State().value.maintenance
            || prior.configuration == Some(d.keys.config.config))
  {
    SyncIsTwoKey(d);
    hide PH.Inv;
  }
}
