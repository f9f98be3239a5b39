# Verified model of the DPS-150 backend's control and data logic

The repository drives a DPS-150 laboratory power supply: three run engines (battery charger, programmable
sequences, I-V tracer) compete for one output, an auto-stop engine watches the telemetry, and a database
keeps history, charge sessions and traced components. This project models those state machines and
computations in Dafny and proves what they keep over every input and every run.

Conventions. Times and durations are integers (nanoseconds in the engines, unix milliseconds in the
history); converting a float to a duration truncates, as in Go. Voltages, currents and counters are
`real`: rounding is not modelled. Clocks, replies of the device, database failures and the order in which
events arrive are parameters: a *feed* of inputs, a set of failing writes, a schedule of atomic steps. A
feed that has run out leaves a run pending, so every statement also covers runs still in progress. Code
that changes fields step by step is a class whose methods are proved equal to a specification function;
the theorems are about that function over whole series of calls.

| module | models |
|---|---|
| `OutputInterlock`, `RunProtocol`, `RunLiveness` | the single-owner interlock, the output-off retry, the interleaving of the engines' calls, and what starts and stops lead to |
| `ChargePlan`, `ChargeRun`, `ChargeSafety`, `ChargeTiming`, `ChargePhases`, `ChargeFaults` | compiling a charge, pre-flight, the tick loop, what every run keeps, and when and how it ends |
| `SequenceProgram`, `SequenceSteps`, `SequenceRun` | the program validator, hold and ramp steps, the tree interpreter |
| `AutoStop`, `PausedClock`, `Debounce` | the auto-stop rules and the two clocks behind them |
| `MinuteHistory`, `CsvExport` | minute roll-ups with retention, keyset-paged exports |
| `IVLibrary`, `SessionStore`, `BatteryHealth`, `HealthMap` | reference pins of traced components, charge-session rows, battery-health aggregates |
| `LeastSquares`, `CurveMetrics`, `ComponentMetrics`, `IVSweep` | the line fit, the metrics read off a curve, the sweep itself |
| `HubReplica`, `HubProtection`, `Throttle` | the hub's cache with the browser's replica, what the replica shows of the protection, the notification throttle |

## Findings

Where the code surprises, or does less than its comments say, a lemma shows it, next to the exact
condition under which the expected property holds.

- The whole-run charge timeout is enforced only through the phases, and the slack of 1e-9 A in the rate
  check lets through capacities so small that the main phase gets no timeout at all. With a precharge
  phase the run can then outlast `Limits.Timeout` without end; otherwise the timeout is kept
  (`ChargeTiming.TimeoutKeptIffBounded`, condition: charge current at most capacity per nanosecond, or no
  precharge).
- `Compile` bounds neither the trickle current of the precharge phase by the requested current nor by the
  supply's 5 A (`ChargePlan.TrickleBounds`, `ChargePlan.TrickleCanExceedTheSupply`).
- A `scope=always` rule that fired fires again on the first on tick after the output was off, if the
  condition holds on it: the firing does not clear its clock, while the package comment says progress
  accumulates only until the rule fires (`backend/internal/automation/engine.go:24-25`). That is so whatever
  on ticks follow the firing and however long the output stays off; a first on tick on which the condition
  fails clears the clock (`AutoStop.AlwaysRefiresAfterOff`; four ticks that show it:
  `AutoStop.RefiringExample`). When exactly a rule fires, over runs with any number of firings, is
  `AutoStop.AlwaysFiresOnCountedOnTime`.
- `sequence.Start` frees the interlock without an output-off when its own output-on write fails. With a
  free interlock an output-on write has been followed by an output-off of the same call if and only if it
  is not that of such a failed start (`RunProtocol.FreeMeansAnsweredOrFailedStart`,
  `RunProtocol.FailedSequenceStartLeavesOutputUnanswered`).
- The SQL eligibility predicates admit sessions of an unknown chemistry that the Go predicates refuse, at
  or below -1 V per cell and at or above 1e9 V per cell (`BatteryHealth.CapacityPredicatesAgree`,
  `BatteryHealth.RintPredicatesAgree`). No run stores such a session: on everything a run can store the
  predicates agree (`BatteryHealth.StoredSessionsAgree`).
- `UpdateChargeSession` reads the row and saves it in two statements without a transaction. An onset that a
  run's detached writer records in between is lost, and a battery deleted in between comes back as a dangling
  assignment (`SessionStore.OnsetInTheGapIsLost`, `SessionStore.DeletedBatteryComesBack`). For a run that
  finalises its own session the two statements act as one if and only if, in between, no onset arrives that
  is still missing and the session's battery is not deleted (`SessionStore.RunningFinishIsAtomicIff`; for any
  operations in between, `SessionStore.SplitFinishIsAtomicIff`); assignments stay in order if and only if that
  battery is not deleted (`SessionStore.GapKeepsInvIff`). As one step the method keeps measurements and
  assignments (`SessionStore.MeasurementsSurvive`, `SessionStore.AssignmentsStayMatched`).
- A reference pin the user cleared comes back when an unrelated sweep leaves the component, exactly when
  members remain (`IVLibrary.ClearedReferenceComesBack`, `IVLibrary.ClearedReferenceExample`).
- A sample that arrives when a bucket lies at or after its minute is never counted. In a minute already
  rolled up the bucket stays as it was; a minute the roll-up has passed over gets no bucket any more, and
  retention deletes the raw sample (`MinuteHistory.LateSampleIsNeverCounted`,
  `MinuteHistory.LateSampleIsLost`). The buckets equal one roll-up of everything inserted if and only if no
  sample of a live minute came that late (`MinuteHistory.SweepsEqualOneRollUp`).
- A protection that recovers is not announced (`HubProtection.RecoveryIsSilent`). A browser that shows a
  state and has been sent everything shows the hub's protection if and only if every silent recovery was followed by an update
  that carries the protection, or by the browser's snapshot with no such update waiting behind it
  (`HubProtection.ShowsProtectionIffRefreshed`); a trip that was waiting is replayed over the newer
  snapshot (`HubProtection.StaleTripIsShown`). Output and mode have no such gap.

## Model

| member | source | states |
|---|---|---|
| `OutputInterlock.Interlock.Acquire` | backend/internal/device/safety.go:75-83 | wins exactly when nobody holds the interlock, and only then changes the owner |
| `OutputInterlock.Interlock.Release` | backend/internal/device/safety.go:87-93 | frees the interlock only for the tag that holds it |
| `OutputInterlock.SafeOutputOff` | backend/internal/device/safety.go:40-70 | writes nothing but "off", at most three times, stops at the first write that succeeds, and succeeds exactly when one of the next three would |
| `RunProtocol.OneHolder` | backend/internal/charger/manager.go:388-541 | in every interleaving of any number of Start, Stop, pre-flight and boot calls at most one call is between its Acquire and its Release, and the owner names its engine |
| `RunProtocol.RecheckIsUnreachable` | backend/internal/charger/manager.go:444-449 | the second look at the active slot after a won Acquire never finds a run |
| `RunProtocol.LaunchedRunsReleaseSwitchedOff` | backend/internal/charger/run.go:58-87 | every launched run releases right after its output-off returned; a charge or sweep not marked output_off_failed saw an off report in between, and nobody else acted meanwhile |
| `RunProtocol.FreeMeansAnsweredOrFailedStart` | backend/internal/ivtrace/manager.go:340-423 | while the interlock is free, an output-on write in the log has been followed by an output-off of the same call if and only if it is not that of a failed sequence start |
| `RunProtocol.FailedSequenceStartLeavesOutputUnanswered` | backend/internal/sequence/manager.go:250-262 | the exception happens: a schedule that ends with a free interlock after a failed output-on write that nobody answered |
| `RunProtocol.StepKeepsInv` | backend/internal/sequence/manager.go:212-307 | every atomic step of every call keeps exclusivity, the active slots, the record of releases and the duty to switch off |
| `RunProtocol.StepsAreTheInterlocks` | backend/internal/device/safety.go:75-93 | the acquire and release steps of the schedule are those of the interlock object under the engines' own tags |
| `RunLiveness.StopIsObeyed` | backend/internal/charger/manager.go:564-576 | a running call that is stopped leaves Running for its output-off with its next step, whatever that step brings |
| `RunLiveness.StopMarks` | backend/internal/charger/manager.go:564-576 | a Stop reaches whoever is in the active slot, also one just launching, and is not forgotten |
| `RunLiveness.StoppedRunReleases` | backend/internal/charger/run.go:58-87 | whatever other calls do, a stopped run that gets its steps (three tries, then a deciding report) logs its output-off and then its release as a launched run |
| `RunLiveness.UnstoppedRunGoesOn` | backend/internal/charger/run.go:58-97 | a run that nobody stops and that does not end by itself stays Running and logs nothing |
| `RunLiveness.StartRuns` | backend/internal/charger/manager.go:424-541 | a Start on a free interlock whose steps succeed logs its output-on write and runs; on a held interlock it ends without a trace |
| `RunLiveness.OnlyStartsEnergise` | backend/internal/charger/manager.go:388-541 | every output-on write is that of a Start of the engine it names |
| `RunLiveness.FailedChecksNeverEnergise` | backend/internal/charger/manager.go:451-500 | a charge or sweep whose checks fail, and a pre-flight, only releases the interlock |
| `RunLiveness.PreflightChecksAndReleases` | backend/internal/charger/manager.go:388-414 | a pre-flight on a free interlock claims it and releases it, and logs nothing else |
| `RunLiveness.EnergisingGoesEitherWay` | backend/internal/charger/manager.go:544-562 | a start order logs its output-on write unless it failed before, and leads to an output-off unless the write succeeded |
| `RunLiveness.ConfirmingGoesEitherWay` | backend/internal/charger/run.go:58-87 | a run waiting for its off report is concluded by it, failed by the time-out, and waits on otherwise |
| `RunLiveness.BootCutLeavesRunsAlone` | backend/internal/charger/manager.go:341-350 | the boot-time cut ends without a trace while its engine has a run or the interlock is held |
| `RunLiveness.BootCutSwitchesOff` | backend/internal/charger/manager.go:344-356 | otherwise it claims the interlock, switches off with up to three tries, and releases |
| `ChargePlan.AcceptedIffChargeable` | backend/internal/charger/charge.go:98-146 | a request is accepted exactly when chemistry, cell count (at most 6, 7 or 11), capacity, rate, current and BMS attestation are in order; the 150 W check and the margin check never decide |
| `ChargePlan.AcceptedPlanIsSafe` | backend/internal/charger/charge.go:148-204 | every phase regulates below the abort ceiling, that below OVP, that within 30 V; all but the precharge stay within OCP, OPP, 5 A and 150 W |
| `ChargePlan.PhaseOrder` | backend/internal/charger/charge.go:152-184 | exactly one main phase; before it at most a one-hour precharge, and only for lithium; after it only an endless float, and only for lead-acid |
| `ChargePlan.TrickleBounds` | backend/internal/charger/charge.go:154-163 | when the trickle is below the charge current, below the hardware limit and below 5 A: exact conditions on capacity and current |
| `ChargePlan.TrickleCanExceedTheSupply` | backend/internal/charger/charge.go:158 | an accepted request whose precharge asks for 6 A |
| `ChargePlan.MainPhaseIsBounded` | backend/internal/charger/charge.go:148-150 | the main phase has a timeout exactly when the fill time is at least one nanosecond |
| `ChargePlan.MainPhaseCanBeUnbounded` | backend/internal/charger/charge.go:117-121 | an accepted request whose main phase has no timeout |
| `ChargePlan.PassesIffNear` | backend/internal/charger/charge.go:213-244 | pre-flight passes exactly when the voltage is plausible per cell and within half a nominal cell of cells times nominal |
| `ChargePlan.SuggestionIsNearest` | backend/internal/charger/presets.go:86-92 | the suggested cell count is the one with the nearest nominal pack voltage, ties upward, never below one |
| `ChargePlan.OneCellCountPasses` | backend/internal/charger/charge.go:233-234 | a voltage passes for at most one cell count of a chemistry |
| `ChargePlan.ConfirmationNeeded` | backend/internal/charger/charge.go:236-241 | the deep-discharge confirmation is asked for exactly on passing lithium packs of one or two cells below the precharge threshold |
| `ChargePlan.ShortStringCanNeedIt` | backend/internal/charger/charge.go:236-241 | both lithium chemistries can need it |
| `ChargePlan.LithiumPlan` | backend/internal/charger/charge.go:148-184 | the two phases of each lithium chemistry in figures |
| `ChargePlan.LeadAcidPlan` | backend/internal/charger/charge.go:164-184 | the main and float phase of lead-acid in figures |
| `ChargePlan.PlanLimits` | backend/internal/charger/charge.go:186-204 | ceiling, cap and protections of each chemistry in figures |
| `ChargePlan.PlanTimeouts` | backend/internal/charger/charge.go:148-184 | the main timeout from the fill time, and the run timeout from the bounded phases |
| `ChargePlan.WhyRefused` | backend/internal/charger/charge.go:98-146 | a refused request is refused for the first of the listed reasons that applies, and none but these |
| `ChargePlan.WhyFailed` | backend/internal/charger/charge.go:226-235 | a failed pre-flight gives the first of the listed reasons that applies |
| `ChargeRun.Run.Admit` | backend/internal/charger/run.go:118-156 | a tick is accepted or refused by counter reset, ceiling, capacity cap and phase timeout, in that order; only an accepted tick changes the recorded status |
| `ChargeRun.Run.MaybeCaptureCCOnset` | backend/internal/charger/run.go:291-316 | the onset gate as a step of the run state |
| `ChargeRun.Run.RunPhase` | backend/internal/charger/run.go:102-183 | one phase leaves the run exactly where the specification of its inputs puts it: still waiting, failed, or at the entry of the next phase |
| `ChargeRun.Run.Drive` | backend/internal/charger/run.go:90-97 | the whole run ends, and records, what the specification says of the whole feed |
| `ChargeRun.EndedStays` | backend/internal/charger/run.go:102-183 | inputs after the end change nothing |
| `ChargeSafety.RunIsRecorded` | backend/internal/charger/run.go:241-264 | in every run the recorded charge and time are those between the first and the last accepted tick, and the recorded peak is the highest accepted voltage |
| `ChargeSafety.RecordedWithinLimits` | backend/internal/charger/run.go:378-400 | however a charge ends, recorded charge is at most the cap, peak at most ceiling below OVP within 30 V, and charge at least -0.001 mAh per tick after the first |
| `ChargeSafety.SlippingDrains` | backend/internal/charger/run.go:124-130 | that lower bound is reached: a counter may slip by its slack at every tick without a fault |
| `ChargeTiming.PhaseTimeoutsBoundTheRun` | backend/internal/charger/run.go:147-149 | with ticks at most a tenth of the bounded time apart, every tick of a precharge or main phase comes within the whole-run timeout of the first |
| `ChargeTiming.TimeoutKeptIffBounded` | backend/internal/charger/charge.go:148-184 | that holds on every feed exactly when there is no precharge or the main phase is bounded |
| `ChargeTiming.UnboundedMainBreaksTimeout` | backend/internal/charger/charge.go:148-184 | otherwise a feed that breaks it |
| `ChargePhases.PhasesEndByTheirRule` | backend/internal/charger/run.go:158-181 | over every run each finished phase ended at the first accepted tick that met its rule, and the current one has met none: target voltage for precharge, a full unbroken taper window for main, never for float |
| `ChargePhases.OnlyLithiumCompletes` | backend/internal/charger/run.go:158-181 | a run completes only on lithium and only by a held taper; a lead-acid charge never ends by itself |
| `ChargePhases.OnsetIsFirstSteadyTick` | backend/internal/charger/run.go:274-316 | the kept operating point is that of the first main-phase tick in CC mode that, like its predecessor, carries 0.9 of the charge current; without one none is kept |
| `ChargeFaults.InterruptionsEndRun` | backend/internal/charger/run.go:185-213 | over every feed, a live run ends with Protection, Stale or Aborted exactly on a trip, silence or the cancellation; a live run has taken in every tick |
| `ChargeFaults.TicksEndRun` | backend/internal/charger/run.go:102-183 | over every feed, in raw readings: on a tick a live run ends by a counter reset, the ceiling, the cap or the phase timeout, in that order, or else by the failing setpoints of the next phase or completed if the tick ends the phase, and goes on otherwise |
| `ChargeFaults.StartOfRun` | backend/internal/charger/run.go:90-112 | before any input it has ended exactly when the first setpoints cannot be written |
| `SequenceProgram.Validator.Validate` | backend/internal/sequence/program.go:94-106 | accepts exactly the programs with a non-blank name, a step, repeat at least 1, depth at most 5, at most 200 nodes and every node valid; the threaded counter ends at the number of nodes |
| `SequenceProgram.Validator.ValidateNodes` | backend/internal/sequence/program.go:110-124 | the same for a sibling list at a depth, counting on from what was counted before |
| `SequenceProgram.Validator.ValidateNode` | backend/internal/sequence/program.go:126-169 | the same for one node |
| `SequenceProgram.ChainsFitHeight` | backend/internal/sequence/program.go:42-48 | no chain of nested nodes is longer than the height the validator bounds |
| `SequenceProgram.LongestChain` | backend/internal/sequence/program.go:42-48 | and some chain is exactly that long |
| `SequenceProgram.RunnableInFigures` | backend/internal/sequence/program.go:94-124 | the limits of five levels and two hundred nodes |
| `SequenceProgram.ValidLeafInFigures` | backend/internal/sequence/program.go:126-169 | what a leaf may ask for: 30 V, 5 A, a condition with its own positive threshold, a ramp that takes time |
| `SequenceSteps.AdvanceState.Observe` | backend/internal/sequence/manager.go:468-497 | one observation as a step of the evaluator |
| `SequenceSteps.HoldsIffMet` | backend/internal/sequence/manager.go:463-497 | the evaluator reports a condition at exactly the ticks at which it is met: counters and time since the hold's first tick, current below without a break for the whole window |
| `SequenceSteps.ObservesFirst` | backend/internal/sequence/manager.go:361-369 | it reports the first such tick |
| `SequenceSteps.RampFollowsLine` | backend/internal/sequence/manager.go:376-420 | every ramp write lies on the line at its tick's elapsed time, non-final writes are at least 100 ms apart, and the ramp stops with the first tick at or past its duration |
| `SequenceSteps.RampStaysBetween` | backend/internal/sequence/manager.go:376-420 | every write lies between the endpoints and a finished ramp ends exactly on its target |
| `SequenceSteps.RampIsMonotone` | backend/internal/sequence/manager.go:376-420 | with non-decreasing tick times each write is at least as near the target as every earlier one |
| `SequenceSteps.RampIsStraight` | backend/internal/sequence/manager.go:376-420 | every write is on the straight line between the endpoints at its elapsed time |
| `SequenceSteps.RampWritesWhenDue` | backend/internal/sequence/manager.go:398-415 | the first tick is written, and every later one that comes 100 ms after the last write or ends the ramp; only ticks that are not due are skipped |
| `SequenceRun.Run.RunSetHold` | backend/internal/sequence/manager.go:353-370 | writes voltage then current and ends on exactly the first tick that meets the condition, or by the trip or cancellation that came before it |
| `SequenceRun.Run.RunRamp` | backend/internal/sequence/manager.go:376-420 | writes exactly the ramp of the ticks it consumed, all but the last write if that one failed |
| `SequenceRun.Run.RunNodes` | backend/internal/sequence/manager.go:321-330 | enters and finishes the nodes of a list in order, or breaks off inside the leaf entered last |
| `SequenceRun.Run.RunNode` | backend/internal/sequence/manager.go:332-349 | the same for one node and the repetitions of a loop; every leaf entered is executed and on account |
| `SequenceRun.Run.Drive` | backend/internal/sequence/manager.go:310-370 | the leaves are executed in the order of the full unrolling, all of them exactly on success; each takes the feed up where the one before stopped, a hold is done on the first tick that meets its condition and a ramp on arrival; the setpoints are what the leaves wrote, one after the other; a run that ends early does so by the outcome of its last leaf, under that leaf's path |
| `SequenceRun.EventsUnroll` | backend/internal/sequence/manager.go:310-349 | the leaves entered and the leaves finished over all events are the unrolling of repeats and nested loops |
| `SequenceRun.EventsAreAddressed` | backend/internal/sequence/manager.go:321-330 | every event carries the path of its node in the step tree |
| `SequenceRun.RampInFigures` | backend/internal/sequence/manager.go:376-420 | an executed ramp wrote the setpoint it names on the straight line between its own endpoints, at the ticks a write was due |
| `SequenceRun.RampEndsOnTarget` | backend/internal/sequence/manager.go:402-415 | a finished ramp wrote its end value last |
| `SequenceRun.RampTakesItsTime` | backend/internal/sequence/manager.go:385-415 | a ramp is done exactly when a tick comes at or past its duration |
| `AutoStop.Engine.HandleTelemetry` | backend/internal/automation/engine.go:338-353 | ticks while the link is down or a run owns the output change nothing; otherwise every enabled rule takes its step, in whatever order, and exactly the rules that fire are reported |
| `AutoStop.Engine.EvaluateRule` | backend/internal/automation/engine.go:357-426 | one rule's turn leaves its state and firing as specified and touches no other rule |
| `AutoStop.Engine.HandleStatus` | backend/internal/automation/engine.go:330-335 | a link report discards all progress |
| `AutoStop.Engine.ReloadRules` | backend/internal/automation/engine.go:293-315 | a reload keeps progress exactly for rules still enabled, and a failed one changes nothing |
| `AutoStop.AlwaysFiresOnCountedOnTime` | backend/internal/automation/engine.go:357-426 | over any run, a scope=always rule fires on a tick exactly when the output has been off since its last firing and the gaps that start at an on tick of the current unbroken holding streak of the ticks it heard add up to the required time, whatever off gaps and firings lie in between |
| `AutoStop.AwaitsOffIffWaiting` | backend/internal/automation/engine.go:364-387 | the waiting flag is set exactly when the rule has fired and no off tick came since |
| `AutoStop.AlwaysRefiresAfterOff` | backend/internal/automation/engine.go:364-425 | after a firing, any ignored on ticks and any off gap, the next on tick fires it exactly when the condition holds, and clears the clock when it does not |
| `AutoStop.RefiringExample` | backend/internal/automation/engine.go:364-425 | a two-second rule fires at 2 s and, after an off tick at 3 s, again at 4 s |
| `AutoStop.SessionFiresOnFullWindow` | backend/internal/automation/engine.go:357-426 | over any run, a scope=session rule fires exactly when it has not fired since the output came on and the unbroken window of holding on ticks of this output session spans the required time |
| `AutoStop.RefiringNeedsRearming` | backend/internal/automation/engine.go:293-335 | a rule fires again only after an evaluated off tick, a link report, or a reload that found it disabled or gone |
| `AutoStop.EngineFiresAsRule` | backend/internal/automation/engine.go:293-353 | while no link report comes and reloads keep the rule, the engine fires it on exactly the unsuppressed ticks on which the rule fires by itself on the unsuppressed ticks since its state was cleared |
| `AutoStop.EngineCountsOnTime` | backend/internal/automation/engine.go:357-426 | so the engine reports a scope=always rule exactly when the counted on time of the current streak reaches the required time |
| `AutoStop.EngineWatchesSession` | backend/internal/automation/engine.go:357-426 | and a scope=session rule exactly on a full unbroken window of the session |
| `AutoStop.MarksInFigures` | backend/internal/automation/engine.go:428-446 | in readings of the ticks: a heard tick counts as holding exactly when the current is below the threshold, or the charge, energy or time since the first on tick is above it |
| `AutoStop.SessionInFigures` | backend/internal/automation/engine.go:428-446 | the same for session rules, since the first tick of the session |
| `AutoStop.NothingFiresWithLinkDown` | backend/internal/automation/engine.go:330-345 | after a report that the link is down nothing fires until the next report |
| `AutoStop.ReportStartsAfresh` | backend/internal/automation/engine.go:293-335 | a link-up report, and a reload that enables a rule, start the rule afresh; a reload keeps no state of a rule it does not find enabled |
| `PausedClock.ClockCountsStreak` | backend/internal/automation/engine.go:401-417 | shifting the start of the hold over off gaps counts exactly the on time of the current streak |
| `PausedClock.CountedTime` | backend/internal/automation/engine.go:401-425 | at a holding on tick the clock has counted the sum of the gaps that start at an on tick |
| `Debounce.ClosesOnFullWindow` | backend/internal/charger/run.go:166-181 | the timer closes exactly at an observation that ends an unbroken window spanning the required time |
| `Debounce.ClosesOnAnyStretch` | backend/internal/sequence/manager.go:476-486 | with non-decreasing times any qualifying stretch of that length will do |
| `MinuteHistory.History.Aggregate` | backend/internal/history/jobs.go:36-71 | rolls up from after the last bucket to before the minute still filling, and keeps the buckets there are |
| `MinuteHistory.History.Retain` | backend/internal/history/jobs.go:75-92 | deletes expired raw rows, then expired buckets; a failure in between leaves the rest |
| `MinuteHistory.History.Sweep` | backend/internal/history/jobs.go:187-202 | a failed aggregation skips the retention |
| `MinuteHistory.MinuteStaysSound` | backend/internal/history/jobs.go:20-92 | through any series of inserts and sweeps, faulty ones included, a live minute without late samples is rolled up with all its samples, or still ahead of the roll-up with all of them stored |
| `MinuteHistory.SweepsEqualOneRollUp` | backend/internal/history/jobs.go:36-92 | after any series of inserts and sweeps, a sweep that runs through leaves exactly the buckets of one roll-up of all samples ever inserted, minus the expired, if and only if no sample of a live minute came when a bucket lay at or after its minute |
| `MinuteHistory.MinuteIsRightIffNoneLate` | backend/internal/history/jobs.go:36-71 | the same for each minute by itself, whatever came late in others |
| `MinuteHistory.NoSampleLostBeforeRollUp` | backend/internal/history/jobs.go:183-202 | no sweep deletes a live sample of a minute without late samples unless its minute has a bucket that counts them all |
| `MinuteHistory.BucketsAreFinal` | backend/internal/history/jobs.go:36-71 | over any series of operations, no live bucket at or before another changes, and no live minute passed over gets one |
| `MinuteHistory.InsertKeepsBucketIff` | backend/internal/history/jobs.go:20-31 | an insert leaves a bucket the aggregate of all samples of its minute exactly when it brings no new sample for it |
| `MinuteHistory.LateSampleIsNeverCounted` | backend/internal/history/jobs.go:36-92 | after a late sample its minute never again has the bucket of all its samples, as long as it is live |
| `MinuteHistory.LateSampleIsLost` | backend/internal/history/jobs.go:36-92 | a series in which a late sample, in the rolled-up minute or in one passed over, is stored, not counted and deleted |
| `MinuteHistory.ExtremesAreRight` | backend/internal/history/jobs.go:20-31 | minimum and maximum of a bucket are attained and bound every row |
| `MinuteHistory.SumAnyOrder` | backend/internal/history/jobs.go:20-31 | sum and average do not depend on the order of rows |
| `MinuteHistory.BucketSummarises` | backend/internal/history/jobs.go:20-31 | field by field: minimum and maximum of voltage, current and power are attained and bound every row, each average times the count is the sum, the temperature average too, and the count is the number of rows |
| `MinuteHistory.SweptBucketsSummarise` | backend/internal/history/jobs.go:20-71 | after a sweep that ran through, the bucket of every complete live minute without late samples summarises so the samples ever inserted in its 60 seconds |
| `MinuteHistory.EverIsFirst` | backend/internal/history/recorder.go:130-148 | what counts as inserted under a timestamp is the first sample that came |
| `MinuteHistory.RawRowsAfterSweep` | backend/internal/history/jobs.go:75-85 | a sweep that runs through leaves exactly the raw samples of the last thirty days |
| `MinuteHistory.SweepBreaksOff` | backend/internal/history/jobs.go:183-202 | a sweep that fails has done its work up to the failing statement |
| `IVLibrary.Library.AssignSweepComponent` | backend/internal/storage/iv.go:542-604 | assignment, first pin and the fix-up of the component left happen together or, on any error, not at all |
| `IVLibrary.Library.RemoveSweep` | backend/internal/storage/iv.go:612-639 | deletion and fix-up happen together or, for an unknown or running sweep, not at all |
| `IVLibrary.Library.UpdateIVComponent` | backend/internal/storage/iv.go:429-476 | an invalid kind or pin changes nothing |
| `IVLibrary.Library.ValidateRefPin` | backend/internal/storage/iv.go:483-501 | a pin is allowed exactly for a completed member whose type fits |
| `IVLibrary.Library.DeleteIVComponent` | backend/internal/storage/iv.go:509-531 | unassigns the members, then removes the component |
| `IVLibrary.Library.RefixComponentRef` | backend/internal/storage/iv.go:648-684 | a pin that is still a completed member stays, any other goes to the newest member or 0 |
| `IVLibrary.HistoryKeepsInv` | backend/internal/storage/iv.go:429-684 | after any series of operations every assigned sweep is completed and fits the kind of an existing component, and every reference names a sweep of its component |
| `IVLibrary.ReferencesStayValid` | backend/internal/storage/iv.go:641-684 | every reference would pass the pin validation again, although the fix-up checks no type |
| `IVLibrary.ReferenceAfterLeaving` | backend/internal/storage/iv.go:590-604 | when a sweep leaves: another pin stays; a stranded or missing one goes to the newest remaining member by (started_at, id) and is 0 exactly when none remains; other components keep theirs, except that a joined one without a pin takes the sweep |
| `IVLibrary.SweepsSurvive` | backend/internal/storage/iv.go:503-639 | through any series of operations a sweep keeps its row, type, start and final state until that sweep itself is deleted |
| `IVLibrary.StateIsFirstEnd` | backend/internal/storage/iv.go:198-238 | a sweep is in the state of its first finalise, or failed if the clean-up at boot came first, or running |
| `IVLibrary.ComponentsSurvive` | backend/internal/storage/iv.go:398-476 | a component keeps its kind until it is deleted |
| `IVLibrary.UpdateEffect` | backend/internal/storage/iv.go:429-501 | an update succeeds exactly for an unchanged kind and a pin that is none or a fitting completed member, and sets just the pin |
| `IVLibrary.FinishKeepsInvIff` | backend/internal/storage/iv.go:214-238 | finalising a row keeps the invariant exactly when the row is unassigned or ends completed, and a running row is always unassigned |
| `IVLibrary.ClearedReferenceComesBack` | backend/internal/storage/iv.go:656-684 | a cleared pin is set again by an unrelated member leaving, exactly when members remain |
| `IVLibrary.ClearedReferenceExample` | backend/internal/storage/iv.go:612-684 | operations from the empty library after which a cleared pin names another sweep |
| `SessionStore.Store.UpdateChargeSession` | backend/internal/storage/charge.go:314-340 | a finalise takes only state and charge from the caller, everything else from the stored row |
| `SessionStore.Store.RecordChargeCCOnset` | backend/internal/storage/charge.go:351-366 | an onset is written once |
| `SessionStore.Store.AssignSessionBattery` | backend/internal/storage/battery.go:224-269 | a finalised session joins only a battery of its chemistry and cell count; on any error nothing changes |
| `SessionStore.Store.UpdateBattery` | backend/internal/storage/battery.go:141-184 | chemistry and cell count cannot change |
| `SessionStore.Store.DeleteBattery` | backend/internal/storage/battery.go:191-213 | unassigns the sessions, then removes the battery |
| `SessionStore.AssignmentsStayMatched` | backend/internal/storage/battery.go:141-269 | after any series of operations every assigned session matches the chemistry and cell count of a battery that exists |
| `SessionStore.MeasurementsSurvive` | backend/internal/storage/charge.go:303-366 | whatever follows, a session keeps its chemistry, cells and start voltage, and its onset is the first one recorded |
| `SessionStore.ResultIsLastGiven` | backend/internal/storage/charge.go:303-340 | state and delivered charge are those of the last finalise; the clean-up at boot fails running sessions only |
| `SessionStore.AssignmentSucceedsIff` | backend/internal/storage/battery.go:224-269 | an assignment succeeds exactly for a finalised session and a matching battery or none |
| `SessionStore.BatteryIsLastGiven` | backend/internal/storage/battery.go:113-184 | a battery keeps chemistry and cells and has the rated capacity given last until it is deleted |
| `SessionStore.SplitFinishIsAtomicIff` | backend/internal/storage/charge.go:314-340 | with any operations between its read and its save, a finalise is that of one step exactly when none of them brings the session its missing onset and the battery it was given last, unless deleted since, is the one read |
| `SessionStore.RunningFinishIsAtomicIff` | backend/internal/storage/charge.go:314-366 | for a running session that nothing else ends meanwhile: exactly when no onset arrives that is still missing and its battery is not deleted |
| `SessionStore.SplitFinishKeepsInvIff` | backend/internal/storage/charge.go:314-340 | the save keeps assignments in order exactly when the battery it read is still there |
| `SessionStore.GapKeepsInvIff` | backend/internal/storage/charge.go:314-338 | over the operations in between: the save keeps every assignment in order exactly when the battery of the session is not deleted |
| `SessionStore.OnsetInTheGapIsLost` | backend/internal/storage/charge.go:314-338 | operations from the empty store after which an onset recorded in between is gone |
| `SessionStore.DeletedBatteryComesBack` | backend/internal/storage/charge.go:314-338 | operations from the empty store after which a battery deleted in between is still assigned |
| `BatteryHealth.CapacityPredicatesAgree` | backend/internal/storage/battery.go:279-285 | under NULL-aware evaluation the SQL and Go capacity predicates differ exactly on completed sessions of an unknown chemistry that started at or below -1 V per cell |
| `BatteryHealth.RintPredicatesAgree` | backend/internal/storage/battery.go:299-306 | the resistance predicates differ exactly on sessions of an unknown chemistry at or above 1e9 V per cell |
| `BatteryHealth.StoredSessionsAgree` | backend/internal/charger/manager.go:664-683 | on every session a run stores, of an accepted request at a pack voltage that passed pre-flight, the SQL and Go predicates agree |
| `BatteryHealth.RintIsPositive` | backend/internal/storage/charge.go:170-199 | an eligible session has a positive resistance |
| `BatteryHealth.LongLithiumIsNeverFromEmpty` | backend/internal/storage/charge.go:149-158 | a charge that passed pre-flight on three or more lithium cells is never a capacity data point |
| `HealthMap.KnownChemistriesAgree` | backend/internal/storage/battery.go:271-306 | where all chemistries are known the rows SQL keeps are the sessions Go counts |
| `HealthMap.NumberOneIsFirst` | backend/internal/storage/battery.go:369-376 | row number 1 is exactly the newest, or oldest, row of its battery |
| `HealthMap.FamilyGrows` | backend/internal/storage/battery.go:386-407 | taking in a row, whichever it is, keeps count, best and newest right for the rows seen |
| `HealthMap.BatteryHealthMap` | backend/internal/storage/battery.go:336-488 | for every order of the rows, and for one battery or all, the map holds exactly the batteries in scope with their health by direct definition |
| `HealthMap.HealthIsUnique` | backend/internal/storage/battery.go:325-336 | a battery has one health, so the single-battery query equals the full map's entry |
| `HealthMap.DegradationInRange` | backend/internal/storage/battery.go:490-530 | capacity figures appear exactly with a full cycle; degradation lies in [0, 100) and is 0 exactly when the latest capacity is the best |
| `HealthMap.SumInAnyOrder` | backend/internal/storage/battery.go:410-429 | the grouped sums do not depend on the order of rows |
| `HealthMap.CapacityInFigures` | backend/internal/storage/battery.go:498-530 | in rows: latest, first and best capacity, the state of health in percent of the rated or best capacity, the degradation in percent of the best |
| `HealthMap.ThroughputInFigures` | backend/internal/storage/battery.go:498-530 | energy and equivalent cycles are the sums over all completed sessions |
| `HealthMap.ResistanceInFigures` | backend/internal/storage/battery.go:431-470 | latest and least resistance of the sessions that measured one |
| `HealthMap.ValueIsMilliohms` | backend/internal/storage/battery.go:299-323 | the resistance SQL computes is voltage step over current per cell in milliohms, the same as in Go |
| `CsvExport.GetEventsCSV` | backend/internal/api/export.go:105-144 | a complete event file is the whole filtered query in order, one cut short by a failed fetch a beginning of it, and no file is started when the first fetch fails |
| `CsvExport.GetHistoryCSV` | backend/internal/api/export.go:32-95 | the same for the history tables |
| `CsvExport.StreamCSVPages` | backend/internal/api/export.go:162-184 | the file is the whole one-shot result, after n / page size further fetches also when n is an exact multiple; after a failed fetch it is a prefix of whole pages |
| `CsvExport.EventCursorServes` | backend/internal/storage/events.go:97-122 | the (ts, id) cursor skips and repeats nothing whatever timestamps collide |
| `CsvExport.FirstEventPage` | backend/internal/api/export.go:125-131 | the cursor (-1, -1) starts at the beginning |
| `CsvExport.HistoryCursorServes` | backend/internal/history/reader.go:34-67 | the ts + 1 cursor does so on tables keyed by ts |
| `CsvExport.SortedIsUnique` | backend/internal/storage/events.go:113 | a filtered, ordered query has one result |
| `LeastSquares.LinearFit` | backend/internal/ivtrace/analyze.go:351-380 | accepts exactly paired samples spread on both axes; then no other line has a smaller squared error, residuals cancel and are orthogonal to x, and R² lies in [0, 1], 1 exactly when the samples lie on a line |
| `LeastSquares.NormalIsLeast` | backend/internal/ivtrace/analyze.go:344-380 | the normal equations minimise the squared error over all lines |
| `LeastSquares.LeastSquaresLineIsUnique` | backend/internal/ivtrace/analyze.go:344-380 | only one line does |
| `CurveMetrics.InterpVAtI` | backend/internal/ivtrace/analyze.go:385-395 | reports a voltage exactly when some segment crosses the current, on the first such segment |
| `CurveMetrics.ReachedIffStraddled` | backend/internal/ivtrace/analyze.go:382-395 | which is when some current is at or below the target, some at or above, and not all equal to it |
| `CurveMetrics.AnalyzeResistor` | backend/internal/ivtrace/analyze.go:235-268 | resistance, R², deviation and quality in terms of the least-squares line; unreliable exactly when no rising fit exists |
| `CurveMetrics.ExactLineIsRecovered` | backend/internal/ivtrace/analyze.go:235-268 | a part measured exactly on a line is reported with that conductance, a perfect fit and no deviation |
| `ComponentMetrics.TopByCurrent` | backend/internal/ivtrace/analyze.go:399-418 | a share of the unclamped conducting points, rounded up and at least two, sorted, none with less current than a point left out |
| `ComponentMetrics.SeriesResistance` | backend/internal/ivtrace/analyze.go:203-216 | the slope of the least-squares line of V over I on that top, if it rises |
| `ComponentMetrics.Ideality` | backend/internal/ivtrace/analyze.go:175-201 | from the least-squares slope of ln I over V, with at least eight points |
| `ComponentMetrics.ExactExponentialIsRecovered` | backend/internal/ivtrace/analyze.go:175-201 | a junction measured exactly on its exponential, whose logarithm rises by 1 / (n * vt) per volt, is reported with its own n |
| `ComponentMetrics.RegionMembers` | backend/internal/ivtrace/analyze.go:150-201 | the region fitted holds exactly the points from 1 mA up to the current limit |
| `ComponentMetrics.AnalyzeZener` | backend/internal/ivtrace/analyze.go:273-308 | the breakdown voltage is reported exactly when the curve crosses the test current, so the peak-current gate before it decides nothing more |
| `ComponentMetrics.BreakdownMembers` | backend/internal/ivtrace/analyze.go:273-308 | the breakdown region holds exactly the points from half the test current on, by default 5 mA |
| `IVSweep.AcceptedIffSweepable` | backend/internal/ivtrace/sweep.go:81-127 | a sweep is accepted exactly when its bounds lie in the device's range; the power check never decides |
| `IVSweep.ProtectionsCover` | backend/internal/ivtrace/sweep.go:107-133 | the protections lie at or above every point the sweep can reach and inside the device |
| `IVSweep.BuildSetpoints` | backend/internal/ivtrace/sweep.go:157-164 | fills the list of evenly spaced setpoints |
| `IVSweep.SetpointsRise` | backend/internal/ivtrace/sweep.go:155-164 | they rise strictly from start to stop |
| `IVSweep.AcceptedSweepIsSafe` | backend/internal/ivtrace/sweep.go:81-164 | every setpoint of an accepted sweep, and the power at the other axis' compliance, lies below the protections and inside the device |
| `IVSweep.Sweeper.SampleStep` | backend/internal/ivtrace/run.go:93-119 | a sample is the first tick at least a dwell after the previous sample, or after the first tick of all |
| `IVSweep.Sweeper.Drive` | backend/internal/ivtrace/run.go:75-85 | a completed sweep has one settled sample per setpoint; one that ends early keeps its samples and has written at most one setpoint more |
| `IVSweep.CompletedSweepSpan` | backend/internal/ivtrace/run.go:87-119 | it has exactly the requested points and lasts at least steps times dwell and at most the sweep timeout |
| `IVSweep.PlanInFigures` | backend/internal/ivtrace/sweep.go:81-164 | the compiled plan in figures: even spacing, dwell, timeout, and the protections |
| `HubReplica.DeviceHub.ApplyLocked` | backend/internal/device/apply.go:11-103 | folds an event into the cache and offers every subscriber exactly the updates it causes, dropping at a full buffer |
| `HubReplica.DeviceHub.ApplyDumpLocked` | backend/internal/device/apply.go:110-168 | replaces the cache, brings the link up, and announces changes against the state before, then the snapshot |
| `HubReplica.StatusAlternates` | backend/internal/device/hub.go:216-227 | link-status updates strictly alternate, up first, and a connected hub has a state |
| `HubReplica.EmittedKeepsAgreement` | frontend/src/hooks/useDeviceState.ts:36-107 | what an event emits brings an agreeing replica along |
| `HubReplica.SnapshotThenReplayAgrees` | backend/internal/api/ws.go:46-50 | replaying updates older than the snapshot over it does no harm |
| `HubReplica.DrainedClientAgrees` | backend/internal/api/ws.go:46-78 | in every interleaving of hub events, subscription, snapshot and sending, a client that has been sent everything with nothing dropped shows the hub's link, output, mode and measurements, and a state while the device is connected |
| `HubReplica.LastReportStands` | backend/internal/device/apply.go:11-103 | the cache holds the last report on every subject |
| `HubReplica.LastDumpStands` | backend/internal/device/apply.go:110-168 | a dump stands in full until the next report, and the link is up from a dump until the session ends |
| `HubReplica.DropsIffFull` | backend/internal/device/hub.go:648-665 | an update is dropped exactly when 64 are waiting |
| `HubProtection.RecoveryIsSilent` | backend/internal/device/apply.go:72-79 | equal protections of hub and client stay equal after every event but a report that ends a trip, and an event that carries the protection always makes them equal |
| `HubProtection.ShowsProtectionIffRefreshed` | backend/internal/api/ws.go:46-78 | in every interleaving, a client that shows a state and has been sent everything with nothing dropped shows the hub's protection exactly when every silent recovery was followed by an update that carries the protection, or by its snapshot with no such update waiting behind it |
| `HubProtection.StaleTripIsShown` | backend/internal/api/ws.go:46-50 | a schedule that ends with the hub fine and a drained client tripped, which had never shown the trip before its snapshot |
| `Throttle.Service.ThrottleNotify` | backend/internal/notify/throttle.go:30-56 | sends at once in an open window with nothing pending, otherwise counts and keeps one timer |
| `Throttle.Service.FlushKind` | backend/internal/notify/throttle.go:61-82 | sends what is pending as one message and opens the next window |
| `Throttle.Service.StopThrottle` | backend/internal/notify/throttle.go:85-95 | cancels every timer |
| `Throttle.MessagesKeepCooldown` | backend/internal/notify/throttle.go:8-17 | two messages of a kind are at least one cooldown apart if timers never fire early |
| `Throttle.NothingIsLost` | backend/internal/notify/throttle.go:30-82 | every notification before the stop was sent at once, is counted in one flushed message, or is pending; the text sent or kept last is the latest; a timer is set exactly while something is pending |
| `Throttle.StoppedIsFinal` | backend/internal/notify/throttle.go:85-95 | after a stop, whatever comes, nothing more is sent and no timer is left |
| `Throttle.SentAtOnceIff` | backend/internal/notify/throttle.go:30-45 | a notification is sent at once exactly when nothing of its kind is held back and the last message is at least a cooldown old |
| `Throttle.HeldBackGoesOut` | backend/internal/notify/throttle.go:45-82 | what is held back is sent as one message by a timer set for exactly the end of the cooldown |

## Left out

- Floating-point rounding: all arithmetic is over `real`; int64 overflow of absurdly long durations is not modelled.
- RunProtocol.LaunchedRunsReleaseSwitchedOff: panics are excluded; a run that panics inside its teardown can finish, and release, twice.
- RunProtocol.OneHolder: commands that bypass the interlock (MQTT, the plain output routes, whose conflict check is check-then-act) are outside the model.
- RunProtocol.StepKeepsInv: the managers are modelled as steps of concurrent calls rather than as objects, because the property is about their interleaving.
- The charge start order (protections, setpoints, output on) is one step of `RunProtocol`; its individual writes are not logged.
- ChargeRun.Run.Drive: of the status only charge, peak voltage and elapsed time are kept; the live measurement, the time estimate, periodic refresh and progress broadcasts are left out.
- ChargeFaults.InterruptionsEndRun: a trip event and telemetry that carries a trip are one kind of input.
- ChargePlan.AcceptedPlanIsSafe: says nothing about the current of the precharge phase, which the compiler does not bound; the hub's own limit on current writes is not part of it.
- SessionStore.AssignmentsStayMatched: assumes that a battery preselected at the start of a run exists and fits when the row is inserted; the check happens earlier, in a handler.
- SessionStore.GapKeepsInvIff: assumes that the key of a deleted battery is not given out again.
- SequenceRun.Run.Drive: requires a program the validator accepts, as `Start` guarantees; the unreachable branch for unknown node types is therefore dropped.
- MinuteHistory.SweepsEqualOneRollUp: assumes that sweeps come at non-decreasing times.
- IVLibrary.HistoryKeepsInv: assumes fresh keys for new rows and that only a running row is finalised; names, notes and timestamps of the rows are left out.
- HealthMap.BatteryHealthMap: the aggregates are values in a map instead of shared pointers, so aliasing between them is not modelled.
- CsvExport.HistoryCursorServes: takes from the schema that ts is the key of both history tables.
- CsvExport.GetEventsCSV: the table does not change while it is paged through, and event times are not negative.
- ComponentMetrics.TopByCurrent: sorts by insertion; ties keep no particular order.
- ComponentMetrics.Ideality: logarithms are a given function; saturation current (`exp`), dynamic resistance and the lamp metrics are left out as direct formulas.
- Throttle.NothingIsLost: what happens to a message after it was handed to the queue is not modelled; the repeat suffix is a number here, not text.
- HubReplica.DrainedClientAgrees: claims nothing about settings, which are only sent in snapshots, leaves protection to `HubProtection`, and excludes clients with dropped updates; journal entries are assumed not to reuse the three device event kinds.
- HTTP handlers, authentication, MQTT, Telegram transport, the wire protocol and its parser, write pacing, reconnect backoff, the user interface.
