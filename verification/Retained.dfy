/** Retained safety state and the rules a boot applies to whatever flash holds. */
module Retained {
  import opened Base
  import opened Occurrences

  datatype Disposition = Eligible | Suppressed

  datatype RetainedWindow = RetainedWindow(id: WindowId, endsUtc: UtcSeconds, disposition: Disposition) {
    function Suppress(): RetainedWindow { this.(disposition := Disposition.Suppressed) }
  }

  datatype RetainedState = RetainedState(configRevision: u32, maintenance: bool, window: Option<RetainedWindow>) {
    /** The state with any window suppressed. */
    function Suppress(): RetainedState {
      if window.Some? then this.(window := Some(window.value.Suppress())) else this
    }
  }

  datatype RetainedError =
    | Missing
    | UnexpectedRecord
    | ZeroRevision
    | RevisionMismatch
    | Length
    | Magic
    | Version
    | Flags
    | Checksum
    | NonCanonical
    | ZeroWindowId
    | InvalidWindowId
    | ZeroWindowEnd

  function CheckWindow(w: RetainedWindow): Result<(), RetainedError> {
    if w.id == 0 then Err(ZeroWindowId)
    else if !ValidOccurrenceId(w.id) then Err(InvalidWindowId)
    else if w.endsUtc == 0 then Err(ZeroWindowEnd)
    else Ok(())
  }

  function CheckState(s: RetainedState): Result<(), RetainedError> {
    if s.configRevision == 0 then Err(ZeroRevision)
    else if s.window.Some? then CheckWindow(s.window.value)
    else Ok(())
  }

  /** The id is the packing of some day, start second and entry. */
  ghost predicate Names(id: WindowId) {
    exists day: u32, e: Entry :: id == OccurrenceId(day, e)
  }

  lemma NamesIff(id: WindowId)
    ensures Names(id) <==> id != 0 && ValidOccurrenceId(id)
  {
    if ValidOccurrenceId(id) {
      ValidOccurrenceIdUnpacks(id);
      var e: Entry := Entry(id % ENTRY_RANGE, 1, (id / ENTRY_RANGE) % SECOND_RANGE);
      assert id == OccurrenceId(id / (SECOND_RANGE * ENTRY_RANGE), e);
    }
    if Names(id) {
      var day: u32, e: Entry :| id == OccurrenceId(day, e);
      OccurrenceIdIsValid(day, e);
    }
  }

  /** A record is storable exactly with a revision and, for a window, the name of an occurrence and an end; else the first flaw is named. */
  lemma CheckStateTable(s: RetainedState)
    ensures CheckState(s) ==
      if s.configRevision == 0 then Err(ZeroRevision)
      else if s.window.Some? && s.window.value.id == 0 then Err(ZeroWindowId)
      else if s.window.Some? && !Names(s.window.value.id) then Err(InvalidWindowId)
      else if s.window.Some? && s.window.value.endsUtc == 0 then Err(ZeroWindowEnd)
      else Ok(())
  {
    if s.window.Some? {
      NamesIff(s.window.value.id);
    }
    hide Names, ValidOccurrenceId;
  }

  datatype Lifecycle = NeverConfigured | Configured(revision: u32)

  datatype LoadDisposition =
    | Restored
    | InterruptedWindowSuppressed
    | RecoveryRequired(error: RetainedError)

  datatype Loaded = Loaded(state: RetainedState, disposition: LoadDisposition, mustStore: bool)

  function RecoveryState(revision: u32, error: RetainedError): Loaded {
    Loaded(RetainedState(revision, true, None), RecoveryRequired(error), true)
  }

  /** A stored record that decodes and belongs to the committed revision. */
  predicate Usable(slot: Option<Result<RetainedState, RetainedError>>, revision: u32) {
    slot.Some? && slot.value.Ok? && slot.value.value.configRevision == revision
  }

  /** Why a record that is not usable was refused. */
  function Unusable(slot: Option<Result<RetainedState, RetainedError>>): RetainedError {
    if slot.None? then Missing else if slot.value.Err? then slot.value.error else RevisionMismatch
  }

  /**
   The boot rules over an already decoded slot: `None` is an absent record, otherwise
   what decoding the stored bytes gave.
   */
  function LoadSlot(slot: Option<Result<RetainedState, RetainedError>>, lifecycle: Lifecycle)
    : (r: Result<Option<Loaded>, RetainedError>)
    ensures lifecycle.NeverConfigured? ==> (r == Ok(None) <==> slot.None?)
    ensures r.Err? <==> (if lifecycle.NeverConfigured? then slot.Some? else lifecycle.revision == 0)
    ensures r.Err? ==> r.error == if lifecycle.NeverConfigured? then UnexpectedRecord else ZeroRevision
    ensures r.Ok? && lifecycle.Configured? ==> r.value.Some?
    ensures r.Ok? && r.value.Some? ==>
      var loaded := r.value.value;
      && lifecycle.Configured?
      && loaded.state.configRevision == lifecycle.revision
      && (loaded.state.window.Some? ==> loaded.state.window.value.disposition == Suppressed)
      && (loaded.disposition.RecoveryRequired? <==> !Usable(slot, lifecycle.revision))
      && (loaded.disposition.RecoveryRequired? ==>
            && loaded.state.maintenance && loaded.state.window.None?
            && loaded.disposition.error == Unusable(slot))
      && (!loaded.disposition.RecoveryRequired? ==>
            slot.Some? && slot.value.Ok? && loaded.state == slot.value.value.Suppress())
      && (loaded.mustStore <==> slot != Some(Ok(loaded.state)))
      && (loaded.disposition == Restored <==> slot == Some(Ok(loaded.state)))
  {
    match lifecycle
    case NeverConfigured => if slot.None? then Ok(None) else Err(UnexpectedRecord)
    case Configured(revision) =>
      if revision == 0 then Err(ZeroRevision)
      else
        var decoded := if slot.Some? then slot.value else Err(Missing);
        if decoded.Err? then Ok(Some(RecoveryState(revision, decoded.error)))
        else if decoded.value.configRevision != revision then
          Ok(Some(RecoveryState(revision, RevisionMismatch)))
        else
          var state := decoded.value;
          if state.window.Some? && state.window.value.disposition == Eligible
          then Ok(Some(Loaded(state.Suppress(), InterruptedWindowSuppressed, true)))
          else Ok(Some(Loaded(state, Restored, false)))
  }
}
