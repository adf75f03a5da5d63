# Crystal shim safety core

A Dafny model of the hardware-independent core that decides when a mains relay may be energised, and of
the thin firmware code that composes it: the output owner's loop, flash exclusion, the boot store, and
the update client. All time is injected, all integers carry their machine bounds, and every saturating,
checked or truncating operation of the firmware is written out.

The model has two halves that are proved against each other. *Values*: each stateful component is a
datatype with functions that give its next value (`Interlock`, `Policy`, `Runtime`, `FlashGate`,
`Ingress`, `Acquisition`, `Flash`). *Machines*: where the firmware changes fields in order, a class does
the same (`InterlockMachine`, `SupervisorMachine`, `RuntimeMachine`, `FlashGate.GateCell`,
`Ingress.Mailbox`, `Acquisition.CalibrationStage`, `ConfigurationBuffers`, `NorFlash`, `OtaFlash`,
`StorageAccess`, `Partitions`, `BootStore`, `ControlLoop`), and each method's new state is proved equal to
the value function or to a stated property. The theorems about whole runs are then proved over the values:
a run is a sequence of states in which each is the next value of the one before, under arbitrary inputs.

| layer | files |
|---|---|
| interlock and demand arbitration | `Interlock`, `InterlockHistory`, `InterlockTicks`, `Policy`, `PolicyHistory`, `PolicyRuns`, `Controller`, `Supervisor` |
| calendar | `Occurrences`, `Utc`, `Schedule`, `ScheduleInterval` |
| records and runtime | `Retained`, `Runtime`, `RuntimeInvariant`, `RuntimeSafety`, `RuntimeProgress`, `RuntimeRuns`, `RuntimeReplies`, `RuntimeCalendar`, `RuntimeCommands`, `RuntimeStarts`, `RuntimeDecisions`, `RuntimeOutput`, `RuntimeLeases`, `RuntimeCorners`, `RuntimeMachine` |
| power cuts | `Flash`, `FlashSafety`, `NoRerun`, `BootStore` |
| flash exclusion and the loop | `FlashGate`, `GateProtocol`, `ControlLoop` |
| measurement | `Calibration`, `Acquisition`, `Measures` |
| commands | `Ingress`, `IngressHistory`, `Dispatch`, `DispatchReplies`, `DispatchHalves` |
| bytes | `Crc`, `Bytes`, `ByteReader`, `RetainedCodec`, `Configuration`, `ConfigurationFields`, `ConfigurationCodec`, `ConfigurationBuffers`, `RecordLayout` |
| flash drivers | `NorFlash`, `OtaFlash`, `StorageAccess`, `Partitions` |

The timezone is an arbitrary function: its answers are constrained only by the one-day check the
scheduler makes. The timezone grammar is an arbitrary verdict on the rule's bytes. Writing one key is
atomic, and a write that reports failure may or may not have happened. Stored records may also become
undecodable; since only boots read them, this is an event of an unpowered device.

## Findings

Three places where a function does not meet the broad form of a promise. Each has the exact condition, and
the code is modelled as it is.

- `Runtime::step` on its own can overwrite a reply when two requests end in one step.
  `RuntimeSafety.ReplyLostExactlyInRace` proves this happens exactly when the completed store used the last
  ticket of all and the same step takes on a request for which no ticket is left;
  `RuntimeCorners.LastTicketLosesReply` reaches it from a boot. It takes a caller that submits a save or an
  entry while another request waits. The firmware steps the runtime only with what its ingress dispatches,
  and that excludes it: `Dispatch.Linked` is the condition a caller can check, it holds at every point of
  every run behind the ingress (`Dispatch.LinkedAlways`, and in the loop itself by
  `ControlLoop.OutputOwner.Iterate`), and under it no reply is overwritten (`Dispatch.NoReplyIsLost`) and
  every dispatched request is answered exactly once (`DispatchReplies.AnsweredExactlyOnce`).
- Maintenance can end without a record written for the exit that ended it. `RuntimeRuns.ExitAnsweredAtOnce`
  proves when an exit taken on in maintenance is answered in its own step: exactly if the step learns that
  a record clear of maintenance is stored, that record is the very one the exit wants, and no Off in the
  step records a newly active occurrence. `RuntimeCorners.StaleClearReleases` reaches such a step from a
  boot: the button supersedes an exit whose record is in flight, and a second exit arrives with its
  acknowledgement. `RuntimeRuns.MaintenanceIsLatched` states both ways out, and the stored record is clear
  of maintenance in each.
- At the last representable millisecond a new run's saturated deadline equals the current time.
  `PolicyHistory.DeadlineLiesAhead` proves that whatever run an accepted tick holds ends after that tick if
  and only if the tick is not that last millisecond; `PolicyHistory.LastMillisecondEnergises` is a device
  that is energised by such a run until the next tick.

## Model

| member | source | states |
|---|---|---|
| InterlockMachine.Controller.UpdateWithDemand | firmware/core/src/lib.rs:222-314 | the object's fields after one control iteration are exactly the interlock value's, in every branch: maintenance, backwards clock, gap, faults, demand |
| InterlockMachine.Controller.Stop | firmware/core/src/lib.rs:206-213 | stopping records the off time only when it was running and drops both timers |
| InterlockMachine.Controller.Regulate | firmware/core/src/lib.rs:292-313 | debounced stop and confirmed recovery as fields change in order |
| InterlockHistory.MinimumOff | firmware/core/src/lib.rs:272-312 | over every run of ticks and reconfigurations, a turn-on comes at least the minimum-off time after the highest clock reading at the turn-off, through faults, maintenance and backwards clocks |
| InterlockHistory.OffSinceMarksTurnOff | firmware/core/src/lib.rs:206-213 | while off, the off mark is the high-water clock of the turn-off |
| InterlockHistory.AutomaticNeedsRecovery | firmware/core/src/lib.rs:292-313 | an automatic turn-on ends an unbroken series of fresh levels at or above restart whose newest acquisition is the recovery time past the first tick |
| InterlockHistory.RecoveryMarksEvidence | firmware/core/src/lib.rs:301-312 | a recovery mark is always the time of the tick that started the unbroken series it belongs to |
| InterlockHistory.LowStopNeedsConfirmation | firmware/core/src/lib.rs:292-300 | a running output is stopped for low water only after an unbroken series of fresh low levels that spans the confirmation time |
| InterlockHistory.ConfirmedLowStops | firmware/core/src/lib.rs:292-300 | such a series always stops it |
| InterlockTicks.UnusableTick | firmware/core/src/lib.rs:229-271 | a tick that is early, late, in maintenance or without a fresh level leaves the output off, in the state of its first reason, and restarts both series |
| InterlockTicks.UsableTick | firmware/core/src/lib.rs:272-313 | a usable tick turns the output on, keeps it on or stops it exactly as demand, thresholds, debounce and minimum-off time say |
| InterlockTicks.RecoveredStarts | firmware/core/src/lib.rs:301-312 | the converse of the recovery rule, over every run: an unbroken recovery series of the full span, past the minimum-off time, ends with the output on |
| SupervisorMachine.Supervisor.Reconfigure | firmware/core/src/policy.rs:115-129 | new settings clamp a run from its original request and reset both timers only when the interlock settings change |
| SupervisorMachine.Supervisor.ActiveWindow | firmware/core/src/policy.rs:131-148 | windows older than the watermark are dropped and one id's end only shrinks |
| SupervisorMachine.Supervisor.Update | firmware/core/src/policy.rs:165-258 | one supervisor update, forwards or backwards in time, leaves exactly the arbitration value |
| SupervisorMachine.Supervisor.ExpireRun | firmware/core/src/policy.rs:190-204 | an automatic run is clamped to the shown window, and an expired run ends and suppresses its occurrence |
| SupervisorMachine.Supervisor.ApplySwitch | firmware/core/src/policy.rs:206-229 | off drops the run and suppresses; on converts an energised run or starts one bounded override |
| SupervisorMachine.Supervisor.StartScheduled | firmware/core/src/policy.rs:231-239 | an automatic run starts only for a shown window that is not suppressed, capped by limit and window |
| PolicyHistory.HistoryInv | firmware/core/src/policy.rs:81-88 | at every point of every run the relay is on only with a live run, and an automatic run is newer than whatever is suppressed |
| PolicyHistory.DeadlineLiesAhead | firmware/core/src/policy.rs:156-239 | the run an accepted tick holds, new or kept, ends after that tick if and only if the tick is not the last representable millisecond |
| PolicyHistory.LastMillisecondEnergises | firmware/core/src/policy.rs:156-163 | a concrete tick at the last millisecond that energises with a deadline already reached, ended by the next tick |
| PolicyHistory.InterlockSimulates | firmware/core/src/policy.rs:240-252 | every supervisor event drives the interlock by one definite interlock event, so its history theorems carry over |
| PolicyHistory.StretchIsBounded | firmware/core/src/policy.rs:115-258 | if every event from tick i to tick j leaves the relay on, the run is one and the same, its deadline never grows, and tick j lies within the limit in force at tick i |
| PolicyHistory.WatermarksAdvance | firmware/core/src/policy.rs:131-154 | along every run the window id and the suppressed id never decrease and one id's end never moves later |
| PolicyHistory.OffIsFinal | firmware/core/src/policy.rs:171-238 | after an off, no later state holds an automatic run for the newest window known then or any older one, even if the window is withheld or the clock ran backwards at the off |
| PolicyHistory.TurnOnRespectsMinimumOff | firmware/core/src/policy.rs:165-258 | the minimum-off theorem for whole supervisor runs |
| PolicyHistory.AutomaticTurnOnNeedsRecovery | firmware/core/src/policy.rs:165-258 | the recovery theorem for whole supervisor runs, under one interlock configuration and with the hardware permitting |
| PolicyRuns.SeenIsPresented | firmware/core/src/policy.rs:131-148 | the window a tick acts on is exactly one no older than the newest known, ending no later than it was known to, and not over |
| PolicyRuns.RunTable | firmware/core/src/policy.rs:189-239 | which run an accepted tick asks for, case by case: expiry and off end it, a manual run keeps or gets its one lease, an automatic one is cut to its window or begun for it |
| PolicyRuns.SuppressionTable | firmware/core/src/policy.rs:195-229 | what an accepted tick suppresses: the window of an automatic run that reached its limit, the window seen for a manual one, the newest live window at an off, else what was suppressed |
| PolicyRuns.TickTable | firmware/core/src/policy.rs:240-253 | the interlock is asked for that run, an automatic one only while a window is seen; a fault or maintenance ends a manual run and suppresses the window seen |
| PolicyRuns.BackwardsTable | firmware/core/src/policy.rs:171-188 | a tick before the newest one starts nothing and ends a manual run; off still ends any run and suppresses the newest live window |
| PolicyRuns.ExpiryBlocks | firmware/core/src/policy.rs:195-204 | the tick that ends an automatic run at its limit leaves its window blocked |
| PolicyRuns.ExpiryIsFinal | firmware/core/src/policy.rs:195-239 | over every run of the supervisor, once a tick at or past a run's deadline ends its window, no later state holds an automatic run for that window or an older one |
| PolicyRuns.EnergisedAutomaticIsSeen | firmware/core/src/policy.rs:231-252 | an automatic run is energised only on a tick that sees a window, and its deadline never lies past that window's end |
| PolicyRuns.ManualStarts | firmware/core/src/policy.rs:206-246 | an on energises at once, recovery or not, given a usable sample and the minimum-off time |
| PolicyRuns.ReconfigureTable | firmware/core/src/policy.rs:115-129 | new settings only ever cut a run, from its own request, and restart the series exactly when the interlock settings change |
| Occurrences.OccurrenceIdFields | firmware/core/src/schedule.rs:407-413 | day, second and entry number can be read back from the packed id |
| Occurrences.OccurrenceIdIsValid | firmware/core/src/schedule.rs:400-413 | every packed id passes the validity check |
| Occurrences.ValidOccurrenceIdUnpacks | firmware/core/src/schedule.rs:400-405 | every id that passes the check is the packing of a definite day, second and entry |
| Occurrences.OccurrenceIdOrder | firmware/core/src/schedule.rs:407-413 | ids are ordered by day, then second, then entry, and are equal only when all three are |
| Occurrences.CivilIsReading | firmware/core/src/schedule.rs:60-96 | a civil time is the reading of its instant at its offset, within a day of it |
| Occurrences.EveryReadingIsCivil | firmware/core/src/schedule.rs:60-96 | and every instant has one at every offset of up to a day that leaves its day countable |
| Occurrences.WeekdayIsCalendarDay | firmware/core/src/schedule.rs:98-111 | the weekday computed for a day is the calendar's: Thursday on day 0, and each next day the weekday after |
| Occurrences.MaskIsItsDays | firmware/core/src/schedule.rs:113-137 | a day mask is the sum of its days' bits, Monday the lowest and Sunday the seventh |
| Utc.SafeDurationIsSafe | firmware/core/src/utc_bounds.rs:88-107 | no timer delta within a nonzero safe duration can take longer than the budget under the clock-rate contract |
| Utc.SafeDurationIsLongest | firmware/core/src/utc_bounds.rs:97-107 | it is the longest: one more millisecond of timer may outlast the budget |
| Utc.ElapsedIsOutward | firmware/core/src/utc_bounds.rs:88-95 | whatever real time the clock-rate contract lets pass lies within the elapsed bounds |
| Utc.ElapsedIsTight | firmware/core/src/utc_bounds.rs:88-95 | and those bounds are tight to the millisecond |
| Utc.ProjectionIsSafe | firmware/core/src/utc_bounds.rs:46-52 | a projected observation keeps every true time the contract allows, and is less than an hour old in real time |
| Utc.ProjectionExpires | firmware/core/src/utc.rs:63-73 | it is refused exactly for a timer out of range or gone back, an hour of age, or an unrepresentable time |
| Utc.AnchorLatches | firmware/core/src/utc.rs:99-108 | over every run of reads, the anchor gives the original observation's projection until the first read that is too old or goes back, and nothing ever after |
| Schedule.NewSchedule | firmware/core/src/schedule.rs:192-211 | a schedule is accepted exactly when it is small enough, its duration is legal and its ids are distinct; otherwise the first failing check is reported |
| Schedule.FindActive | firmware/core/src/schedule.rs:330-393 | the nested day and entry loops compute the scan, stopping at the first resolution error |
| Schedule.BoundedScanIsComplete | firmware/core/src/schedule.rs:330-393 | at most four days are visited; the scan fails exactly when one of them breaks the one-day rule; otherwise it returns the earliest-starting active occurrence of all local days whatsoever |
| Schedule.ActiveDaysAreVisited | firmware/core/src/schedule.rs:335-348 | an occurrence active now starts on a day the scan visits |
| Schedule.OccursOnItsDays | firmware/core/src/schedule.rs:349-376 | an entry has an occurrence on exactly the days whose calendar weekday its mask holds and whose start the timezone resolves, then and for the schedule's duration |
| Schedule.OccursOnNoOtherDay | firmware/core/src/schedule.rs:349-376 | it has none on any other day or for a start that does not exist, and fails only by the one-day rule |
| Schedule.SelectionIsUnique | firmware/core/src/schedule.rs:377-390 | the (start, id) minimum is unique |
| Schedule.OccurrenceNeverOverflows | firmware/core/src/schedule.rs:371-376 | the overflow error of adding the duration to a resolved start cannot occur, so that branch is unreachable |
| Schedule.ActiveNeverOverflows | firmware/core/src/schedule.rs:330-393 | so the scan for an active occurrence never reports it |
| Schedule.PointVerdict | firmware/core/src/schedule.rs:268-313 | the decision at one instant, from the chosen occurrence and the saved one: save a newer one first, block an older, suppressed or ended one, else run until the earlier of the two ends |
| ScheduleInterval.NewInterval | firmware/core/src/schedule_interval.rs:19-46 | an interval is accepted exactly when both civil endpoints are consistent and are those of the bounds, holds just what it was given, and is otherwise refused as an invalid civil time |
| ScheduleInterval.IntervalVerdict | firmware/core/src/schedule_interval.rs:53-97 | over an interval the same occurrence must be chosen at both ends, and then compares with the saved one as at the latest instant |
| ScheduleInterval.RunVerdict | firmware/core/src/schedule_interval.rs:72-97 | the saved occurrence then runs for the longest timer delta safe against the earlier of its two ends |
| ScheduleInterval.SelectionIsConvex | firmware/core/src/schedule_interval.rs:53-80 | an occurrence selected at both ends is selected at every instant between, through folds, overlaps and midnight |
| ScheduleInterval.IntervalAgreesWithEveryPoint | firmware/core/src/schedule_interval.rs:53-97 | an active interval decision names the occurrence point evaluation selects at every true time in the interval, where it can only fail by overflow |
| ScheduleInterval.DeadlineNeverOutlives | firmware/core/src/schedule_interval.rs:72-97 | up to the exposed deadline no true time, in real time under the clock-rate contract, lies past the occurrence's end or the originally saved end |
| ScheduleInterval.DecisionRespectsSaved | firmware/core/src/schedule.rs:288-304 | a decision to record is for a newer id than the saved one, and a decision to run is for the saved, eligible one, ending no later |
| Retained.LoadSlot | firmware/core/src/retained.rs:200-259 | boot rules: refused exactly for an unexpected record of a never-configured device or a zero revision; recovery, maintenance with no window, exactly when the record is absent, undecodable or of another revision, with that error; otherwise the decoded state with its window suppressed; stored again exactly when flash does not hold that state |
| Retained.CheckStateTable | firmware/core/src/retained.rs:35-46 | a record is storable exactly with a revision and, for a window, the packed name of some occurrence and an end; otherwise the first flaw is named |
| RuntimeMachine.Owner.Open | firmware/core/src/runtime.rs:154-185 | a runtime starts exactly from boot records that agree and hold no eligible window |
| RuntimeMachine.Owner.Complete | firmware/core/src/runtime.rs:734-770 | only the matching completion advances a transaction; failure latches maintenance and drops the replacement; the second key follows the first |
| RuntimeMachine.Owner.EnsureStore | firmware/core/src/runtime.rs:719-732 | at most one store is started, for the desired record first and the replacement after it |
| RuntimeMachine.Owner.Enqueue | firmware/core/src/runtime.rs:709-717 | a store takes the next ticket, and exhaustion latches failure and maintenance |
| RuntimeMachine.Owner.SetUtc | firmware/core/src/runtime.rs:615-654 | a clock is accepted only with valid bounds and civil time at both ends, under a fresh generation |
| RuntimeMachine.Owner.ObserveUtc | firmware/core/src/runtime.rs:664-683 | ageing the clock suppresses a saved window that has ended and drops a clock that has expired |
| RuntimeMachine.Owner.Accept | firmware/core/src/runtime.rs:471-574 | admission of every command: revocations first, then busy, recovery, and each command's own rule |
| RuntimeMachine.Owner.BeginSave | firmware/core/src/runtime.rs:503-521 | a save is staged exactly one revision ahead and holds maintenance |
| RuntimeMachine.Owner.RecordCalendar | firmware/core/src/runtime.rs:323-379 | calendar loss suppresses; a new occurrence is recorded only while idle, or suppressed by an off |
| RuntimeMachine.Owner.CommitRecords | firmware/core/src/runtime.rs:390-407 | the store, the failed or durable reply, and when maintenance follows the record |
| RuntimeMachine.Owner.Step | firmware/core/src/runtime.rs:222-469 | one control step leaves exactly the runtime value and the two replies, phase by phase |
| RuntimeInvariant.CompleteCore | firmware/core/src/runtime.rs:734-770 | every completion keeps the record invariant, and watermarks and tickets only grow |
| RuntimeInvariant.AcceptOutcomes | firmware/core/src/runtime.rs:471-574 | every admission answers at once or takes the request on from idle, leaving what that command alone stages; at once, a clock setting changes at most the clock and the saved window's eligibility, a revocation takes the clock and that eligibility, an entry enters maintenance from idle, and any other command changes nothing |
| RuntimeInvariant.AcceptCore | firmware/core/src/runtime.rs:471-574 | every command keeps the record invariant, and watermarks and tickets only grow |
| RuntimeInvariant.CommitInv | firmware/core/src/runtime.rs:380-407 | after the commit a waiting request has a store in flight and an idle runtime agrees with flash up to one suppression |
| RuntimeSafety.StepKeepsInv | firmware/core/src/runtime.rs:222-469 | every step keeps the runtime invariant, and watermarks and tickets only grow |
| RuntimeSafety.DurabilityGate | firmware/core/src/runtime.rs:380-450 | the relay is on after a step only with nothing in flight, no failure, no maintenance in either record, and desired equal to durable up to one suppression deferred under an override |
| RuntimeSafety.OffIsImmediate | firmware/core/src/runtime.rs:282-296 | a pending off, an off, or a toggle of an output that is on turns the relay off in the same step, whatever else the step does, and leaves no run |
| RuntimeSafety.OnNeedsSample | firmware/core/src/runtime.rs:415-450 | the relay is on after a step only with a level fresh by the calibrated configuration now in force and measured under it |
| RuntimeCommands.CommandReply | firmware/core/src/runtime.rs:228-295 | what every command is answered in its own step, in the runtime it meets: busy, recovery and each command's own refusals in order, and an on exactly as the supervisor ends up holding it |
| RuntimeCommands.OffSuppresses | firmware/core/src/runtime.rs:353-379 | by the end of a step told to switch off no saved window may start a run, and an occurrence just found is saved as suppressed |
| RuntimeCommands.AcceptedTimeIsKept | firmware/core/src/runtime.rs:552-567 | a clock setting answered as applied is the clock after the step, under a generation of its own |
| RuntimeCommands.MaintenanceEndsRuns | firmware/core/src/runtime.rs:424-446 | a step that ends in maintenance ends every run, manual and automatic, so none survives a later exit, and applies no on |
| RuntimeStarts.OnEnergises | firmware/core/src/runtime.rs:332-450 | an on turns the relay on in its own step on a healthy runtime with nothing holding the output back, whatever the calendar, the clock and a suppression still to be stored say, and asks for no store |
| RuntimeStarts.OccurrenceIsRecorded | firmware/core/src/runtime.rs:356-392 | a newly found occurrence becomes the saved window, eligible, and exactly that record is sent to flash under the next ticket, with the relay off meanwhile |
| RuntimeStarts.RecordedIff | firmware/core/src/runtime.rs:347-379 | the saved window changes to another occurrence exactly when the schedule found a newer one and either the runtime is idle or the step is told to switch off, and is then that one |
| RuntimeStarts.SavedOccurrenceRuns | firmware/core/src/runtime.rs:397-450 | a saved occurrence the schedule decides for is taken on as an automatic run bounded by limit and window, and energised once the level has recovered |
| RuntimeDecisions.DecisionIsTimed | firmware/core/src/runtime.rs:297-322 | any decision but a loss of the calendar is the schedule's over the accepted observation projected to now and resolved at both ends |
| RuntimeDecisions.TimedIsDecided | firmware/core/src/runtime.rs:297-322 | and while that time stands, the schedule's verdict over it is the decision |
| RuntimeDecisions.LossRevokes | firmware/core/src/runtime.rs:323-346 | without a decision, with an inactive schedule or a blocked occurrence, a step leaves no eligible window and no automatic run energised, and ends the run of the saved window |
| RuntimeDecisions.AutomaticEndsInTime | firmware/core/src/runtime.rs:297-450 | an automatic run ends in true time: for every instant the accepted observation allows and every real time the clock-rate contract lets pass, the run's deadline comes no later than the saved end |
| RuntimeDecisions.AutomaticHasTime | firmware/core/src/runtime.rs:297-450 | and it always has such an observation, read in that very step |
| RuntimeCalendar.SetClockTable | firmware/core/src/runtime.rs:615-654 | a clock is accepted exactly with usable bounds, a civil time at both ends and a generation left, and what each outcome leaves |
| RuntimeCalendar.NetworkSampleIsTaken | firmware/core/src/runtime.rs:264-280 | an acceptable network sample becomes the clock under its own epoch |
| RuntimeCalendar.RevocationTakesClock | firmware/core/src/runtime.rs:478-482 | a step that takes a revocation, whatever is in flight, ends without a clock, an eligible window or an energised automatic run, and answers it as applied |
| RuntimeCalendar.NetworkLossTakesClock | firmware/core/src/runtime.rs:261-263 | so does a step that learns the network lost its authority over a network clock, unless the step brings a newer clock |
| RuntimeCalendar.AgeTakesClock | firmware/core/src/runtime.rs:664-683 | and so does a step by whose time the clock has aged out or the timer stepped back |
| RuntimeCalendar.NoClockNoRun | firmware/core/src/runtime.rs:297-331 | a step that ends without a clock ends without an eligible window and without an energised automatic run |
| RuntimeCalendar.AuthorityNeverReturns | firmware/core/src/runtime.rs:590-613 | over every run, a clock that has gone never comes back: any later one has a generation not issued before |
| RuntimeCalendar.NoClockAfterExhaustion | firmware/core/src/runtime.rs:590-613 | and once the generations are used up no clock is ever accepted again |
| RuntimeSafety.RepliesAreConserved | firmware/core/src/runtime.rs:242-407 | requests waiting before a step and taken on by it are those answered by it and those still waiting, up to an overwritten reply |
| RuntimeSafety.ReplyLostExactlyInRace | firmware/core/src/runtime.rs:390-406 | a reply is overwritten if and only if the last ticket completes and the same step takes on a request that needs another |
| RuntimeCorners.LastTicketLosesReply | firmware/core/src/runtime.rs:390-406 | a run of the runtime alone, from a boot through every ticket there is, to a step that overwrites a reply |
| RuntimeReplies.WaitingMakesProgress | firmware/core/src/runtime.rs:380-407 | a waiting request always has a store in flight; a completion of it leaves the request waiting exactly if it succeeded, no button superseded an exit, a ticket is left, and it was the first of a save's two keys or the desired record is no longer the one stored; the wait then goes on with a newer store |
| RuntimeReplies.RankFalls | firmware/core/src/runtime.rs:719-770 | while no occurrence is recorded, each completion that leaves a request waiting uses up one of at most two reasons to wait on: the second key, or a suppression |
| RuntimeReplies.SecondCompletionAnswers | firmware/core/src/runtime.rs:719-770 | over a whole run, the second store completed after a request is taken on answers it at the latest, under its own id, when no occurrence is recorded meanwhile |
| RuntimeReplies.OnlyOffRecords | firmware/core/src/runtime.rs:353-379 | in maintenance, a waiting request sees a new occurrence recorded only by an Off in a step that finds one active |
| RuntimeReplies.RepliesBalance | firmware/core/src/runtime.rs:242-407 | over any run of the runtime alone without the last-ticket race, the requests waiting at its start and taken on during it are exactly those it answered and those still waiting |
| RuntimeRuns.MaintenanceIsLatched | firmware/core/src/runtime.rs:656-662 | once the desired record holds maintenance, the relay is on again only after a later exit was accepted and a clear record acknowledged, whatever the button supersedes in between |
| RuntimeRuns.EntriesLatch | firmware/core/src/runtime.rs:242-257 | a button, a save taken on, an entry not refused as busy, a failed store, or storage failed for want of a ticket all leave the record in maintenance, and a record not in maintenance enters it in no other way |
| RuntimeRuns.LatchHolds | firmware/core/src/runtime.rs:542-550 | within one step only an accepted exit clears the desired record, and it then waits on its own store or saw one acknowledged |
| RuntimeRuns.ExitAnsweredAtOnce | firmware/core/src/runtime.rs:390-406 | an exit taken on in maintenance is answered as durable in its own step if and only if the step acknowledges a clear record in flight, that record is the desired one with maintenance cleared, and no Off records a newly active occurrence |
| RuntimeCorners.StaleClearReleases | firmware/core/src/runtime.rs:542-550 | a run from a boot in which a superseded exit's acknowledgement answers the next exit, with no record written for it |
| RuntimeLeases.OverrideIsLeased | firmware/core/src/runtime.rs:332-413 | any step that ends with an override ends with nothing stored, staged, failed or in maintenance |
| RuntimeLeases.QuietStepKeepsLease | firmware/core/src/runtime.rs:380-450 | one quiet step leaves the lease and deadline exactly as they were, stays ready and asks for no store |
| RuntimeLeases.LeaseOutlastsBookkeeping | firmware/core/src/runtime.rs:332-413 | so does any run of quiet steps before the deadline, through clock loss, revocation, expiry and calendar change |
| RuntimeLeases.LeaseEndsAtDeadline | firmware/core/src/policy.rs:190-204 | the first quiet step at the deadline ends the lease and turns the relay off |
| RuntimeOutput.RunIsHistory | firmware/core/src/runtime.rs:424-450 | the supervisor of every run from the boot of a configured device goes through a supervisor history, one update a step after one reconfiguration where a save completes, so the supervisor's theorems bind the runtime |
| RuntimeOutput.RelayRests | firmware/core/src/runtime.rs:222-469 | over every such run the relay turns on at least the minimum-off time of the configuration in force after the step that last turned it off, whatever commands, faults, maintenance and saves lie between |
| RuntimeOutput.EnergisedWithinLimit | firmware/core/src/runtime.rs:222-469 | while every step leaves the relay on, the last lies within the run limit in force at the first, however often the switch is used |
| RuntimeOutput.StoredIsKept | firmware/core/src/runtime.rs:734-770 | a store a step learns has succeeded is by its end the durable record or the configuration in force |
| FlashSafety.DoSyncs | firmware/app/src/storage.rs:113-141 | flash, the storage owner and the runtime stay in step across every boot, write outcome, iteration, power cut and damage to a stored record |
| FlashSafety.TwoKeyAlways | firmware/core/src/runtime.rs:503-520 | at every point of every life of a blank device the retained revision equals the configuration revision or is one ahead in maintenance, except between damage to a stored record and the next start of a runtime |
| FlashSafety.BootOutcomes | firmware/app/src/storage.rs:113-141 | what each consistent pair of keys boots to, with the relay off, whatever the repair write reports; with a configuration, no runtime starts exactly when a repair was needed and failed, and the keys stay consistent |
| FlashSafety.FailedRepairIsHarmless | firmware/app/src/storage.rs:126-141 | for any keys, a boot whose repair write failed leaves the next successful boot with exactly the same keys and runtime |
| FlashSafety.DurableMaintenanceSurvives | firmware/core/src/runtime.rs:211-220 | a power cut while maintenance is reported durable only boots back into latched maintenance with the relay off |
| FlashSafety.CrashDuringSave | firmware/core/src/runtime.rs:503-520 | cutting power anywhere in a save boots to the old committed pair, to latched maintenance, or to no runtime, which is a failed repair or a first configuration |
| NoRerun.ExposureIsDurable | firmware/core/src/runtime.rs:407-413 | a window behind an energised automatic run is stored as eligible |
| NoRerun.StepBars | firmware/core/src/schedule.rs:288-304 | a runtime whose records bar an occurrence never shows it, or an older one, to the supervisor |
| NoRerun.GuardedStep | firmware/core/src/retained.rs:200-247 | flash and every runtime started from it keep barring an exposed occurrence, except across a recovery boot, which holds maintenance |
| NoRerun.CrashSafeNoRerun | firmware/app/src/storage.rs:113-141 | after an automatic run energised while w was exposed and a power cut, any later automatic run and the window shown to it are newer than w, unless since the first cut a recovery boot, then an accepted exit, then a clear record in flash came between |
| FlashGate.GateCell.Request | firmware/core/src/flash_gate.rs:32-40 | a ticket is issued only when none is active and none were exhausted |
| FlashGate.GateCell.Checkpoint | firmware/core/src/flash_gate.rs:44-49 | the active ticket is replaced by a new, unacknowledged one |
| FlashGate.GateCell.AcknowledgeOff | firmware/core/src/flash_gate.rs:73-79 | only the active ticket can be acknowledged |
| FlashGate.GateCell.Release | firmware/core/src/flash_gate.rs:85-92 | only the active ticket can be released |
| GateProtocol.GrantIsExclusive | firmware/app/src/flash_gate.rs:72-119 | a granted holder is the only holder and the relay is low |
| GateProtocol.AccessHistory | firmware/app/src/control.rs:34-125 | whenever access is granted for a ticket, a complete control iteration that began after it was issued wrote the relay low, and it has been low since |
| GateProtocol.IterationsAreSeparate | firmware/core/src/flash_gate.rs:42-62 | every ticket has an iteration of its own: the one for a newer ticket starts after the older one ended |
| GateProtocol.RelayHeldUntilDrop | firmware/app/src/control.rs:34-82 | the relay stays low through every renewal until the permit is dropped |
| GateProtocol.TicketsAreFresh | firmware/core/src/flash_gate.rs:51-62 | tickets are never reused |
| GateProtocol.ExhaustionInhibits | firmware/core/src/flash_gate.rs:51-83 | after exhaustion no access is ever granted and, from the first write of an iteration that observed it, the relay is never high |
| GateProtocol.IterationGrants | firmware/app/src/flash_gate.rs:72-105 | one undisturbed iteration lets a waiting holder through |
| GateProtocol.StaleTicketsDoNothing | firmware/core/src/flash_gate.rs:44-92 | a ticket that is not the active one renews, acknowledges, releases and opens nothing |
| GateProtocol.SecondIsRefused | firmware/core/src/flash_gate.rs:32-40 | while one holder has a permit a second is refused and disturbs nothing |
| GateProtocol.DropFrees | firmware/app/src/flash_gate.rs:113-119 | dropping the permit stops holding the output back, and the next holder gets a ticket of its own |
| ControlLoop.OutputOwner.Iterate | firmware/app/src/control.rs:24-129 | one iteration takes the next command, steps the runtime on it and hands both replies back, started or just booted; the relay is high after it exactly if the gate was free and the runtime asks for it, and then only with supply, sensor and both readings of the button allowing it, no off waiting, no latched power fault, a transaction deadline still ahead, a fresh level of the calibrated configuration, and the durability gate passed; a button held at either reading or remembered leaves a running runtime in maintenance; dispatched work is again exactly what the runtime owes; the observed ticket is acknowledged last; granted access implies a low relay |
| ControlLoop.OutputOwner.TryStart | firmware/app/src/control.rs:26-33 | the runtime starts exactly when boot records are published and agree, as the value they make, with the relay off; a button held before the start is remembered |
| ControlLoop.OutputOwner.RunUntilStarted | firmware/app/src/control.rs:20-82 | from power-on, the first step comes in the first iteration with agreeing boot records, and a button seen by any reading up to then leaves it in maintenance with the relay low |
| ControlLoop.StepFacts | firmware/app/src/control.rs:34-78 | a step turns the relay on only with the hardware allowed, neither button nor off pending, and a fresh level of the calibrated configuration |
| ControlLoop.TurnLands | firmware/app/src/control.rs:47-78 | a store reported as done is after the iteration the durable record or the configuration in force |
| ControlLoop.TurnRevokes | firmware/app/src/control.rs:47-78 | a network clock whose source is revoked, with no newer time at hand, is gone after the iteration |
| BootStore.Store.LoadBoot | firmware/app/src/storage.rs:113-141 | reading, repairing and starting from stored bytes is exactly the boot of the safety model, whatever the repair write reports |
| BootStore.EncodedWrites | firmware/app/src/storage.rs:132-133 | storing a record's encoding is the key write the safety model speaks of |
| BootStore.EncodedConfigures | firmware/core/src/configuration.rs:436-492 | storing a configuration's encoding is the key write the safety model speaks of |
| BootStore.DeviceMatches | firmware/core/src/configuration.rs:317-384 | the runtime is given what was configured: thresholds and timing, a run limit of the schedule's seconds in milliseconds, and every entry in order with its own days and start |
| BootStore.DamagedRecordRecovers | firmware/app/src/storage.rs:127-128 | a damaged retained record makes a configured device boot to recovery |
| BootStore.DamagedConfigurationStops | firmware/app/src/storage.rs:114-118 | a damaged configuration leaves no runtime |
| Calibration.IntermediatesFit | firmware/core/src/calibration.rs:334-358 | no intermediate of construction or normalisation reaches 2^83 and the denominator cast loses nothing |
| Calibration.LevelIsNearest | firmware/core/src/calibration.rs:334-358 | a level is accepted exactly when the exact rational lies in the supported domain, and is then the one nearest integer to it, halves up, inside that domain |
| Calibration.LevelIsMonotone | firmware/core/src/calibration.rs:334-358 | a larger response ratio never gives a smaller level |
| Calibration.EndpointsAreExact | firmware/core/src/calibration.rs:218-287 | the measured endpoints map to exactly 0 and 1000, exactly when the domain admits them |
| Calibration.MirrorKeepsLevels | firmware/core/src/calibration.rs:296-332 | negating every count and flipping the reference sign gives the same calibration and the same levels |
| Measures.ResponseIff | firmware/core/src/calibration.rs:296-332 | a response is taken exactly from counts inside converter and envelope and a reference that has moved far enough, in the commissioned direction |
| Measures.LevelIsFraction | firmware/core/src/calibration.rs:334-358 | in real numbers, the level is the response's place between the two measured endpoints in thousandths, rounded halves up, and is given exactly when that place lies in the supported domain |
| Measures.AcceptedIff | firmware/core/src/calibration.rs:218-287 | calibration data is accepted exactly when every limit is usable and the endpoints' responses are in order and far enough apart |
| Acquisition.CalibrationStage.Process | firmware/core/src/calibration.rs:394-415 | the stage after a frame, accepted or not, and the reading it publishes |
| Acquisition.CalibrationStage.Validate | firmware/core/src/calibration.rs:417-511 | the checks in order, which marks move on rejection, and that no subtraction underflows |
| Acquisition.AnyTwoReadingsFollow | firmware/core/src/calibration.rs:394-511 | any two readings of a stream are ordered by sequence and time, do not overlap, and differ by no more than every slew limit allows for the time between them |
| Measures.ReadingIff | firmware/core/src/calibration.rs:417-511 | a frame becomes a reading exactly when it is newer than all before it, complete, not overlapping, short and young enough, measurable and within every slew limit; the reading is its level as of its start |
| Measures.FaultTable | firmware/core/src/calibration.rs:417-511 | and which fault the interlock is told when it does not |
| Measures.MarksAreHighest | firmware/core/src/calibration.rs:424-434 | over every run of arrivals, the time and sequence marks are the highest of all of them, accepted or not |
| Ingress.Mailbox.SubmitFrom | firmware/core/src/runtime_ingress.rs:79-153 | an off is noted and overtakes waiting starts before any refusal; an accepted request gets a new generation and its own slot |
| Ingress.Mailbox.Take | firmware/core/src/runtime_ingress.rs:164-194 | the pending off is consumed and revocations are dispatched first |
| Ingress.Mailbox.Complete | firmware/core/src/runtime_ingress.rs:196-244 | a completion reaches only the dispatched request it names and restores the user's id |
| Ingress.Mailbox.TakeReplyFor | firmware/core/src/runtime_ingress.rs:266-288 | a reply leaves its slot once, to its own token |
| Ingress.Mailbox.TakeReply | firmware/core/src/runtime_ingress.rs:246-264 | the console collects only its own replies, revocations first |
| Ingress.Mailbox.Cancel | firmware/core/src/runtime_ingress.rs:293-326 | a waiting request is removed, a dispatched one only loses its reply |
| Ingress.Mailbox.ReserveProvisioning | firmware/core/src/runtime_ingress.rs:156-158 | reserving changes nothing but the reservation |
| IngressHistory.OffIsLossless | firmware/core/src/runtime_ingress.rs:79-101 | however an off is answered, the next take forces the output off |
| IngressHistory.NoStartSurvivesOff | firmware/core/src/runtime_ingress.rs:79-104 | an On, a toggle or a clock setting dispatched after an off was submitted after it |
| IngressHistory.NoClockSurvivesClear | firmware/core/src/runtime_ingress.rs:125-146 | a clock setting dispatched after an accepted revocation was submitted after it |
| IngressHistory.OffOvertakes | firmware/core/src/runtime_ingress.rs:86-101 | an off answers a waiting On, toggle or clock setting as superseded, and leaves every other waiting command alone |
| IngressHistory.ClearOvertakes | firmware/core/src/runtime_ingress.rs:125-146 | an accepted revocation answers a waiting clock setting as superseded, and leaves every other waiting command alone |
| IngressHistory.SubmissionTable | firmware/core/src/runtime_ingress.rs:79-153 | when a submission is refused and where an accepted one waits, under which generation |
| IngressHistory.TakeTable | firmware/core/src/runtime_ingress.rs:164-194 | what each take gives, revocations and offs before the request slot, and what it leaves |
| IngressHistory.RepliesAtMostOnce | firmware/core/src/runtime_ingress.rs:246-288 | at most one reply leaves the ingress for any token |
| IngressHistory.RepliesAreAnswers | firmware/core/src/runtime_ingress.rs:196-288 | a delivered reply carries its submission's own id to its own producer and reports that request's completion or a revocation that overtook it |
| IngressHistory.StaleCompletionsDoNothing | firmware/core/src/runtime_ingress.rs:196-244 | a completion changes something exactly when it names a dispatched request, and never twice |
| IngressHistory.CancelKeepsDispatch | firmware/core/src/runtime_ingress.rs:290-326 | cancelling keeps dispatched work outstanding and leaves other tokens and the off alone |
| Dispatch.OneAtATime | firmware/core/src/runtime_ingress.rs:164-194 | a request that can wait is dispatched only while none waits in the runtime |
| Dispatch.LinkedAlways | firmware/app/src/control.rs:47-78 | at every point of every interleaving of producers, dispatch, step and hand-back, from an empty ingress and a boot, the dispatched requests are exactly those the control loop still owes an answer, each once, and what waits in the runtime holds the request slot |
| Dispatch.LinkedNeverRaces | firmware/core/src/runtime.rs:390-406 | so a step never gets the request that would overwrite a reply |
| Dispatch.NoReplyIsLost | firmware/core/src/runtime.rs:390-406 | and no step of any such run overwrites one |
| DispatchReplies.RunBalances | firmware/core/src/runtime_ingress.rs:164-244 | over any stretch of any run, what was owed and what is dispatched is what is handed back and what is still owed, with no hypothesis on tickets |
| DispatchReplies.AnsweredExactlyOnce | firmware/app/src/control.rs:47-121 | a request is dispatched once and handed back once in the whole run, and by the end of any iteration after its step by which it no longer waits in the runtime or two stores have completed with no occurrence recorded |
| DispatchReplies.ReturnReachesSlot | firmware/core/src/runtime_ingress.rs:196-244 | every reply handed back answers an earlier dispatch of its generation and reaches the slot that holds it, with the runtime's result under that route, or frees the slot of a cancelled request |
| DispatchHalves.DeskHistory | firmware/core/src/runtime_ingress.rs:79-326 | the ingress half of every run is a history of the ingress, so the ingress theorems hold of it |
| DispatchHalves.RuntimeHistory | firmware/app/src/control.rs:47-78 | the runtime half of every run is a run of the runtime without the last-ticket race, so the runtime theorems hold of it |
| DispatchHalves.RuntimeBalances | firmware/core/src/runtime.rs:242-407 | from a boot on, every request the runtime took on was answered or still waits |
| Crc.ComputeCrc32 | firmware/core/src/retained.rs:261-271 | the byte and bit loops compute the register function |
| Crc.ByteStepIsBijection | firmware/core/src/configuration.rs:865-875 | for each byte the register step is a bijection |
| Crc.FourBytes | firmware/core/src/retained.rs:261-271 | four bytes act on the register as one little-endian word |
| Crc.SealedIffResidue | firmware/core/src/retained.rs:91-92 | a blob carries its own checksum exactly when the register over all of it is one fixed residue |
| Crc.BurstIsDetected | firmware/core/src/retained.rs:111-114 | for any length, no two different checksummed blobs agree outside four consecutive bytes |
| Crc.SingleByteIsBurst | firmware/core/src/retained.rs:111-114 | so a change of one byte is always detected |
| Crc.CheckValue | firmware/core/src/retained.rs:261-271 | the checksum of the digits one to nine is the published check value |
| Bytes.LeBijection | firmware/core/src/configuration.rs:798-862 | an integer and its little-endian bytes determine each other |
| Bytes.LeDigits | firmware/core/src/configuration.rs:798-812 | byte i is the base-256 digit of weight 256 to the i |
| RetainedCodec.EncodeBlob | firmware/core/src/retained.rs:69-92 | filling the buffer field by field gives the canonical blob, or the validation error |
| RetainedCodec.EncodeDecode | firmware/core/src/retained.rs:69-142 | decoding an encoded state gives it back |
| RetainedCodec.DecodeEncode | firmware/core/src/retained.rs:94-142 | only the canonical blob of a state decodes to it |
| RetainedCodec.DamageIsRejected | firmware/core/src/retained.rs:94-114 | a record damaged within four consecutive bytes never decodes |
| RetainedCodec.DamageBootsToMaintenance | firmware/core/src/retained.rs:200-259 | and boots a configured device into maintenance with nothing scheduled |
| RetainedCodec.IntactRecordLoads | firmware/core/src/retained.rs:223-247 | an intact record of the committed revision comes back whole with its window suppressed |
| RecordLayout.RetainedLayout | firmware/core/src/retained.rs:69-92 | where every field of the retained record lies: magic, version, flag bits, length, revision, window id and end, and checksum at their byte offsets |
| Configuration.FromRawInOrder | firmware/core/src/configuration.rs:317-384 | the validation loops report the first failing rule in order |
| Configuration.FromRawIff | firmware/core/src/configuration.rs:317-384 | a raw configuration is accepted exactly when every part is valid for the code that uses it, and only its entries are reordered |
| Configuration.FromRawIsCanonical | firmware/core/src/configuration.rs:337-384 | an accepted configuration is in strict order of entry id and validates to itself |
| Configuration.SortSorts | firmware/core/src/configuration.rs:345-345 | sorting keeps the entries and orders their ids |
| Configuration.SortKeepsDistinct | firmware/core/src/configuration.rs:345-347 | ids are distinct after sorting exactly when they were before |
| ConfigurationFields.CalibrationIff | firmware/core/src/configuration.rs:671-748 | reading a calibration succeeds with x exactly when the bytes are those writing x produces |
| ConfigurationFields.EntriesIff | firmware/core/src/configuration.rs:545-557 | the entry loop accepts exactly the written entries in strict order of id |
| ConfigurationFields.PushoverIff | firmware/core/src/configuration.rs:567-607 | credentials read back exactly, with padding and text checked |
| ConfigurationCodec.BodyIff | firmware/core/src/configuration.rs:525-610 | the whole body reads back exactly, in the shape its header announces |
| ConfigurationCodec.DecodeRawIff | firmware/core/src/configuration.rs:494-610 | a blob decodes to a raw configuration exactly when it is that configuration's canonical blob |
| ConfigurationCodec.EncodeDecode | firmware/core/src/configuration.rs:436-625 | every validated configuration encodes within the size limit and decodes to itself |
| ConfigurationCodec.DecodeEncode | firmware/core/src/configuration.rs:494-625 | a decoded blob is the canonical blob of a canonical configuration, byte for byte |
| ConfigurationCodec.DamageIsRejected | firmware/core/src/configuration.rs:507-519 | a configuration damaged within four consecutive bytes never decodes |
| RecordLayout.ConfigurationLayout | firmware/core/src/configuration.rs:436-492 | where every field of the configuration record lies, header, thresholds, token, entries, timezone, calibration and credentials, at its byte offset |
| ConfigurationBuffers.EncodeBlob | firmware/core/src/configuration.rs:436-492 | the writer, with its patched length, produces the canonical blob |
| ConfigurationBuffers.DecodeBlob | firmware/core/src/configuration.rs:494-625 | the reader and its loops compute the decoding, with the same errors |
| ConfigurationBuffers.Writer.Bytes | firmware/core/src/configuration.rs:780-792 | all bytes are appended when they fit, nothing otherwise |
| ConfigurationBuffers.Reader.Take | firmware/core/src/configuration.rs:825-836 | the next bytes, or an error past the end |
| NorFlash.PagesTile | firmware/app/src/ota_flash.rs:136-145 | program calls cover each byte of the request once, none outside, each inside one page |
| NorFlash.SectorsTile | firmware/app/src/ota_flash.rs:155-161 | erase calls cover the request sector by sector |
| NorFlash.ChunksTile | firmware/app/src/storage.rs:172-177 | read chunks cover the request exactly |
| NorFlash.Device.ProgramPages | firmware/app/src/storage.rs:189-199 | success programs exactly the request, each call after its own grant; failure leaves a programmed prefix and disturbs nothing outside the request |
| NorFlash.Device.EraseSectors | firmware/app/src/storage.rs:205-211 | the same for erasing |
| NorFlash.ProgramAfterErase | firmware/app/src/ota_flash.rs:130-163 | programming an erased range stores exactly the bytes given |
| OtaFlash.Client.Read | firmware/app/src/ota_flash.rs:93-119 | reads of the client's own ranges are the bytes now in flash despite the cache; failures in the loop keep the cache coherent |
| OtaFlash.Client.Write | firmware/app/src/ota_flash.rs:130-147 | only the permitted request can change, the cache is dropped, and success programs exactly the request |
| OtaFlash.Client.Erase | firmware/app/src/ota_flash.rs:149-163 | only the permitted sectors can change, the cache is dropped, and success erases exactly the request |
| OtaFlash.Check | firmware/app/src/ota_flash.rs:52-62 | a range passes exactly when aligned, representable and inside flash |
| StorageAccess.Borrowed.Read | firmware/app/src/storage.rs:169-179 | the buffer gets exactly the flash bytes, chunk by chunk; a bad range touches nothing |
| StorageAccess.Borrowed.Write | firmware/app/src/storage.rs:187-201 | success programs exactly the request; nothing outside it ever changes |
| StorageAccess.Borrowed.Erase | firmware/app/src/storage.rs:202-213 | success erases exactly the sectors; nothing outside them ever changes |
| StorageAccess.CheckRange | firmware/app/src/storage.rs:217-230 | a range passes exactly when aligned and inside flash |
| Partitions.NvsRange | firmware/app/src/partition.rs:14-58 | the store's range is found exactly when the first such entry is usable and alone on its range |
| Partitions.FindOtaRegions | firmware/app/src/partition.rs:78-149 | the writable ranges are found exactly when the layout is valid and one slot is running, and are the update record and the other slot |
| Partitions.WritableIsDisjoint | firmware/app/src/partition.rs:123-149 | for every table both selectors accept, the writable ranges overlap neither store, running slot, table nor each other |
| Partitions.UpdatesLeaveTheRestAlone | firmware/app/src/ota_flash.rs:64-74 | so no byte of the store, the running slot or the table belongs to the update client |
| Partitions.StoreWritesKeepTheCache | firmware/app/src/ota_flash.rs:64-74 | and writes of the store in its own range never make a block cached by the update client untrue |

## Left out

- The water monitor: it reads the supervisor and never feeds back into control (firmware/core/src/policy.rs:166).
- The timezone grammar and rules, the update manifest, and the clock mailbox between the network and the runtime: they appear as arbitrary functions and arbitrary per-step clock updates.
- The serial line framer and parser, and the text of any protocol: bytes in, one request out.
- Network, USB, Matter, TLS, HTTP, radio and notification code, and the driver internals of the flash and key-value libraries: one key write is atomic with a nondeterministic failure.
- Wakers, spin waits, the 100 ms wait limit and watchdog timing: only the order of gate transitions and relay writes is modelled, and a wait may end at any point.
- Wiping of volatile memory, redacted debug output and credential comparison.
- The standard library's in-place sort: the entries are sorted by a function with the same result for distinct ids.
- The published status fields of a supervisor or runtime beyond relay, demand and deadline.
- NorFlash.Device.Program: a failed call may leave anything in the bytes it was given and nothing else, which is the most the driver's interface allows to be said.
