# Verified model of the argus-manager decision pipeline and simulator

The manager watches memory, temperature and latency, asks a policy script what to do, filters the answers and sends
directives to an inference engine. A deterministic simulator exercises the same policies. This project models that
path and proves properties of whole runs: unbounded sequences of readings, calls, ticks, and interleaved steps.

Conventions. One module per source file, further modules for long arguments about it. Code that updates fields is a
class whose methods are proved equal to functions on values (`View()`); the results about runs are lemmas about those
functions. Floating point is `real`, a `Duration` is a whole number of nanoseconds, the 32-bit warm-up counter and the
32-bit frame header wrap as in the source. A hash map that the source iterates is a map whose keys are taken in an
order left open, so what is proved holds for every order.

| file | models |
|---|---|
| `Evaluator.dfy` | the threshold state machine with hysteresis, in both directions |
| `Triggers.dfy` | the enter/exit triggers and the time-between-tokens tracker |
| `DefaultPolicy.dfy` | the reference policy script with its relief windows |
| `LuaPolicy.dfy` | parsing of what a script returns, the fallback and its latch; a VM call is a given outcome |
| `Deduplicator.dfy` | suppression of repeated directives with a cooldown |
| `Pipeline.dfy` | script, parser and deduplicator composed as in the main loop, with failures and reloads |
| `Clock.dfy` | virtual clock and event queue; the heap is kept as the sequence in which it would be popped |
| `Harness.dfy` | the simulator: preloading, ticks, directives that schedule observations, runs |
| `HarnessOrder.dfy`, `HarnessWindow.dfy`, `HarnessSlices.dfy`, `HarnessRepeat.dfy`, `HarnessTick.dfy`, `HarnessTold.dfy` | order and exactly-once firing; what a run fires; cutting a run in pieces; repeats after an early stop; the limit on the tick; what a trajectory says about polls, directives and observations |
| `Compose.dfy`, `ComposeMeaning.dfy`, `ComposeOrder.dfy`, `ComposeState.dfy` | composition of action effects over hash maps; what it comes to for a field; when the order of the actions matters to what is gathered, and when to the state |
| `Physics.dfy` | lag, frequency scaling, heating and thermal coupling; exponential and power are given functions |
| `Config.dfy` | `extends` loading and the merge of documents |
| `Framing.dfy` | length-prefixed frames and the reading code |
| `Channel.dfy`, `ChannelSafety.dfy`, `ChannelLiveness.dfy` | the engine channel as interleaved steps of peers, reader threads and main thread: what every interleaving keeps, and what the steps achieve (the Unix and the TCP channel share it) |
| `Delivery.dfy` | deduplicator and channel composed: what is remembered as sent and what was sent |
| `Wrappers.dfy`, `Commands.dfy`, `Numbers.dfy`, `Sequences.dfy` | what several modules share |

Where the code does less than one might expect, the model keeps the code and the exact condition is proved:

- Giving the cache back does not mean every axis is under its enter threshold: the script returns before it looks for
  the worst axis. It does mean that exactly out of windows in which every axis is being relieved
  (`DefaultPolicy.RestoreMeansHeadroomIffAllRelieved`; two readings that show it in `RestoreUnderPressureHappens`).
  The comment on line 146 speaks of headroom everywhere; that holds for the nil of line 147, not for the restore nor
  for the nil of line 154 (`NothingWithoutWindowMeansHeadroom`, `RatchetIsSilentUnderPressure`).
- The budget in force serves the worst axis, which need not be the one that asks for the smallest budget. It does for
  another axis exactly when its span from enter to full pressure is no wider, so for all of them only when the GPU is
  worst (`DefaultPolicy.WorstServesIffNarrower`, `OnlyGpuServesAll`; a reading in `WorstAxisNeedNotAskForLeast`).
- A run whose length the tick does not divide overshoots. The next run skips what was due in the overshoot, and reaches
  as much further past the end of the whole, where it fires what one run would not
  (`HarnessSlices.CutRunMatchesIffGapIsEmpty`; a heartbeat that is lost in `OvershootIsSkipped`).
- A conditional run preloads at most sixty seconds. One that runs longer fires no scenario event after them; one that
  stops earlier leaves the rest waiting, and the next run schedules it again (`HarnessRepeat.ConditionalRunFires`,
  `NextRunRepeatsTheHorizon`; a heartbeat that fires twice in `HeartbeatIsRepeated`).
- With ticks over three seconds observations fire after later snapshots (`HarnessTick.OrderHoldsIffTickIsShort`).
- Merging is not associative when the middle document replaces a mapping by a leaf
  (`Config.MergeIsAssociativeIffHarmless`).
- Only the first operation seen for a dimension is kept, so the order of the active actions can matter. It does for
  what is gathered exactly when their effects compete (`ComposeOrder.OrderIrrelevantIffAgree`), and for the state
  exactly under the conditions of `ComposeState.OrderUnseenIffHarmless` and `TextUnseenIffOne`, over all states for
  given outcomes of conditions and expressions; a pair of actions for which it does is in
  `ComposeOrder.FirstOperationDecides`.
- The comment on `wait_for_client` promises true for a successful connection; the code also answers true when the
  accepted stream cannot be cloned and the channel ends up disconnected (`Channel.WaitConnectsIffCloned`; a list of
  polls in `UnclonedClientIsReported`).
- When the wait at the start of the Unix channel accepts nobody, the manager goes on, but the channel listens for ever
  and drops every directive: it can be connected later exactly when that wait accepted a client, even one that could
  not be cloned (`ChannelSafety.ConnectsIffWaitAccepted`).
- The deduplicator remembers a directive before the channel has tried to send it. What it remembers is what the engine
  was sent last exactly when the channel is connected; otherwise a suppressed retry is lost, and the channel does not
  even try to reconnect (`Delivery.RememberedIsInForceIffConnected`, `SuppressedIsInForceIffConnected`; a run in
  `ReturningEngineIsNotTold`).
- It also outlives the script: after a reload the first request can be suppressed as a repeat
  (`Pipeline.OnlyTheFirstOfAStretchIsSuppressed`, `ReloadedScriptRepeats`).
- Frames are written without a look at the cap the reader enforces (`Framing.DecodeAllIffFits`,
  `ChannelSafety.EngineReadsWhatWasEmitted`).

`dafny verify dfyconfig.toml` checks everything.

## Model

| member | source | states |
|---|---|---|
| Evaluator.ThresholdEvaluator.constructor | src/evaluator.rs:33-39 | a new evaluator is at the normal level with the thresholds it was given |
| Evaluator.ThresholdEvaluator.Evaluate | src/evaluator.rs:42-67 | the level moves as the direction's level function says, and a level is reported exactly when it changed |
| Evaluator.AscendingIsClamp | src/evaluator.rs:76-120 | for ordered thresholds one step is the current level clamped between the memoryless level at the thresholds and the memoryless level at the thresholds lowered by the hysteresis |
| Evaluator.DescendingIsNegatedAscending | src/evaluator.rs:123-167 | a whole descending run is the ascending run on negated values with negated thresholds, ordered or not |
| Evaluator.RunIsMonotone | src/evaluator.rs:76-120 | pointwise larger inputs from a level at least as bad never give a better level anywhere in the run |
| Evaluator.ZeroHysteresisIsMemoryless | src/evaluator.rs:76-120 | with no hysteresis every level of a run is the memoryless level of its own input |
| Evaluator.SimulatorLevelsAreZeroHysteresisRuns | src/monitor/memory.rs:18-29 | the simulator's stateless memory and thermal level functions are runs of the evaluator at the default thresholds without hysteresis, from any level |
| Evaluator.ReversalNeedsTravel | src/evaluator.rs:76-120 | a turn of the level history needs the input to have moved at least the hysteresis from the value that justified the previous move |
| Evaluator.ReversalsBoundedByVariation | src/evaluator.rs:42-167 | in either direction, hysteresis times the number of direction reversals of the level history is at most the total variation of the input |
| Evaluator.NotificationsBoundedByVariation | src/evaluator.rs:42-167 | hysteresis times the number of reported changes is at most three times the total variation plus three hystereses |
| Triggers.TbtTracker.constructor | src/policy/common/state.rs:96-103 | a new tracker has seen nothing and has no baseline |
| Triggers.TbtTracker.Observe | src/policy/common/state.rs:105-116 | the average, the wrapping counter and the baseline after an observation |
| Triggers.TriggerEngine.constructor | src/policy/common/state.rs:132-138 | a new engine has a fresh tracker of its own and all triggers off |
| Triggers.TriggerEngine.UpdateTbtMs | src/policy/common/state.rs:145-161 | readings that are not finite or not positive change nothing; others are observed and toggle the latency trigger once a baseline exists |
| Triggers.TriggerEngine.UpdateMem | src/policy/common/state.rs:163-171 | only the memory trigger changes, and by its own enter and exit thresholds |
| Triggers.TriggerEngine.UpdateTemp | src/policy/common/state.rs:173-181 | only the temperature trigger changes, and by its own enter and exit thresholds |
| Triggers.BandNeverDegrades | src/policy/common/state.rs:105-161 | readings within [lo, hi] with hi <= lo (1 + enter) never raise the latency trigger at any point of any run |
| Triggers.BandIsSafeIffNarrow | src/policy/common/state.rs:105-161 | from a fresh start no run of readings in [lo, hi] ever raises the latency trigger exactly when hi <= lo (1 + enter) |
| Triggers.BaselineIsFrozen | src/policy/common/state.rs:105-116 | the baseline is absent exactly while fewer than the warm-up number of observations were made, and never changes once it exists |
| Triggers.ExcessDecays | src/policy/common/state.rs:105-116 | n observations at the baseline shrink the excess to (7/8)^n of itself, and to no more than that if the counter wraps |
| Triggers.DecayedBound | src/policy/common/state.rs:105-116 | (7/8)^n x (7 + n) is at most 7 x, the step from geometric decay to a reading count |
| Triggers.RecoveryBound | src/policy/common/state.rs:105-161 | after degrading with ratio r, any n >= 7 r / exit observations at the baseline clear the trigger |
| Triggers.BaselineIsTheWeightedAverage | src/policy/common/state.rs:105-116 | through the warm-up the average is the sum of all readings, each weighted 1/8 (the first fully) and shrunk by 7/8 for each later one, and the baseline is that average once the warm-up is over, whatever the readings |
| Triggers.OnlyPositiveReadingsCount | src/policy/common/state.rs:145-161 | a reading that is not finite or not positive changes nothing, every other one is counted modulo 2^32 |
| Triggers.ToggleInBetween | src/policy/common/state.rs:145-181 | a trigger is on afterwards exactly when the input is strictly over enter, or it was on and the input is not under exit |
| Triggers.FlipsBoundedByVariation | src/policy/common/state.rs:145-181 | every flip of a trigger after the first costs the gap between enter and exit in movement of its input |
| DefaultPolicy.FindMostStressed | scripts/policy_default.lua:86-97 | the loop returns the axis of largest excess, the first listed among equals |
| DefaultPolicy.MostStressed | scripts/policy_default.lua:86-97 | no axis exceeds its enter threshold by more than the one named, and no earlier one by as much |
| DefaultPolicy.QuantizeIsOnRamp | scripts/policy_default.lua:99-108 | every budget is one of the fourteen rungs from 0.25 to 0.90 |
| DefaultPolicy.BudgetIsAntitone | scripts/policy_default.lua:99-108 | more pressure on an axis never asks to keep more of the cache |
| DefaultPolicy.BudgetIsNearest | scripts/policy_default.lua:99-108 | the budget is a multiple of 0.05 in [0.25, 0.90] within half a step of 0.90 - 0.65 x the share of the way from enter to full pressure, rounded up from the middle |
| DefaultPolicy.FirstBudget | scripts/policy_default.lua:99-158 | in the script's own numbers: from a closed window nothing happens under 0.80, 0.85, 0.75 and 0.30, and else the axis furthest over its number gets the nearest twentieth to what it asks for |
| DefaultPolicy.ExitThresholds | scripts/policy_default.lua:120-142 | a window of one axis is given back exactly when that axis falls under 0.80, 0.60, 0.55 or 0.10 |
| DefaultPolicy.UnseenIsSilent | scripts/policy_default.lua:110-116 | before the first heartbeat nothing is asked for and nothing forgotten |
| DefaultPolicy.Policy.constructor | scripts/policy_default.lua:49-73 | the script starts with no relief window open |
| DefaultPolicy.Policy.Decide | scripts/policy_default.lua:110-158 | the sweep over the axes, the exit, the choice of the worst axis and the ratchet: new upvalues and result of one call |
| DefaultPolicy.StepKeepsConsistent | scripts/policy_default.lua:110-158 | a budget is in force exactly while some axis is relieved, and it is a rung of the ramp |
| DefaultPolicy.RestoreIffEveryRelievedAxisCooled | scripts/policy_default.lua:120-142 | the cache is given back exactly when a window is open and every relieved axis is under its own exit threshold; no window latches |
| DefaultPolicy.StepServesTheWorstAxis | scripts/policy_default.lua:110-158 | after a call relieved axes are at or over exit, and unless the cache was given back an axis at or over enter means the worst axis is relieved with a budget no looser than it asks |
| DefaultPolicy.RestoreMeansHeadroomIffAllRelieved | scripts/policy_default.lua:120-142 | giving the cache back out of a window always means that every axis is under its enter threshold exactly when every axis is being relieved in it (or the window is closed and gives nothing back) |
| DefaultPolicy.RestoreReopensIffUnderPressure | scripts/policy_default.lua:138-158 | after giving the cache back, the same reading opens a new window exactly when some axis is at or over enter |
| DefaultPolicy.RestoreUnderPressureHappens | scripts/policy_default.lua:138-142 | two readings from a fresh start: a memory spike, and then a restore while the GPU axis is over its enter threshold |
| DefaultPolicy.NothingWithoutWindowMeansHeadroom | scripts/policy_default.lua:144-155 | the nil of line 147 means every axis is under enter; the nil of line 154 means the budget in force is already at least as tight as the worst axis asks |
| DefaultPolicy.RatchetIsSilentUnderPressure | scripts/policy_default.lua:152-155 | a concrete nil under memory pressure of 0.95 |
| DefaultPolicy.WorstServesIffNarrower | scripts/policy_default.lua:86-108 | for every pair of axes, what the worst one asks is always tight enough for the other exactly when its span from enter to full pressure is no wider |
| DefaultPolicy.OnlyGpuServesAll | scripts/policy_default.lua:86-108 | of the four axes only the GPU, when worst, always serves every other |
| DefaultPolicy.WorstAxisNeedNotAskForLeast | scripts/policy_default.lua:86-108 | a concrete reading whose worst axis asks for a looser budget than another axis over enter |
| DefaultPolicy.RunEmitsWindows | scripts/policy_default.lua:110-158 | the results of any run, from any window, are windows of compressions at strictly falling rungs, each closed by one restore |
| DefaultPolicy.WindowEmitsAtMostFourteen | scripts/policy_default.lua:69-73 | any stretch of results without a restore has at most fourteen compressions, strictly tightening, all in [0.25, 0.90] |
| DefaultPolicy.FourteenIsReached | scripts/policy_default.lua:69-73 | fourteen rising memory readings give fourteen compressions in one window |
| DefaultPolicy.NeighboursDiffer | scripts/policy_default.lua:110-158 | two results in a row are never the same command |
| Deduplicator.DirectiveDeduplicator.constructor | src/pipeline.rs:105-116 | a new deduplicator remembers nothing |
| Deduplicator.DirectiveDeduplicator.Process | src/pipeline.rs:121-140 | a request is suppressed exactly when it repeats the last commands within the cooldown; otherwise it is emitted and remembered |
| Deduplicator.LatestRequestIsInForce | src/pipeline.rs:121-140 | after any run the remembered commands, and the last ones sent, are those of the latest request |
| Deduplicator.EqualNeighboursAreSpaced | src/pipeline.rs:121-140 | equal consecutive emissions are at least the cooldown apart |
| Deduplicator.SentIsIdempotent | src/pipeline.rs:121-140 | run on its own output the deduplicator drops nothing |
| Deduplicator.SentIsChangesPlusRepeats | src/pipeline.rs:121-140 | the number sent is exactly the changes plus repeats, and the repeats fit one cooldown each into the elapsed time |
| Deduplicator.SentIsBounded | src/pipeline.rs:121-140 | the number sent is at most 1 + changes + floor(elapsed / cooldown) |
| Deduplicator.MemoryIsTheLastEmission | src/pipeline.rs:121-140 | after any run the remembered commands and time are those of the last emission |
| Deduplicator.GetsThroughIff | src/pipeline.rs:121-140 | after any run one more request gets through exactly when nothing was sent before, or it differs from what was sent last, or at least the cooldown has passed since then |
| Deduplicator.RepeatsAreSentAgain | src/pipeline.rs:121-140 | in a stretch of equal requests with gaps of at most g consecutive emissions are less than cooldown + g apart, and the last one is less than the cooldown ago |
| LuaPolicy.ParseActions | src/lua_policy.rs:405-498 | every entry of a result is either a command, in order and within the contract's ranges, or counted as dropped |
| LuaPolicy.ParsedIff | src/lua_policy.rs:425-498 | each command is parsed from its own name and no other, exactly when its argument is there and within the contract |
| LuaPolicy.AcceptedOfConcat | src/lua_policy.rs:405-423 | the commands of a result are those of its parts in order |
| LuaPolicy.RequestedIs | src/lua_policy.rs:405-423 | nil asks for nothing, a table for one entry, a list for its entries, and anything else is one entry that cannot be used |
| LuaPolicy.FallbackAnswers | src/lua/fallback.rs:17-30 | memory pressure alone is answered, with 0.85, 0.50 and 0.25 of the cache as it gets worse and a restore when normal |
| LuaPolicy.Policy.constructor | src/lua_policy.rs:114-154 | a new policy has no errors and is not in fallback |
| LuaPolicy.Policy.CallDecide | src/lua_policy.rs:194-236 | commands, error counter, latch and drop counter after a call, by outcome |
| LuaPolicy.Policy.ReloadScript | src/lua_policy.rs:371-393 | a reload that succeeds clears the counter and the latch; one that fails changes nothing |
| LuaPolicy.ShellFollowsHistory | src/lua_policy.rs:194-236 | the latch is set exactly when three calls in a row failed since the last successful reload, and else the counter is the length of the current run of failures |
| LuaPolicy.AnswersFollowHistory | src/lua_policy.rs:194-236 | a further call is answered by the script exactly when the latch is not set and the call does not fail, and by the fallback otherwise |
| LuaPolicy.DroppedCountsUnusable | src/lua_policy.rs:194-236 | over failures and reloads the drop counter is the number of entries that could not be used in the calls the script answered |
| LuaPolicy.LatchHolds | src/lua_policy.rs:194-236 | once latched nothing but a successful reload ends the fallback |
| Pipeline.SignalIsTheScript | src/lua_policy.rs:260-305 | with a script that does not fail, one signal yields exactly the script's action as one command, and nothing is dropped |
| Pipeline.RequestsAreTheScripts | src/main.rs:261-282 | over any run of calls that succeed the requests are the script's actions one for one, whatever happened before |
| Pipeline.NothingIsSuppressed | src/main.rs:261-282 | for any pressures, times and cooldown the deduplicator suppresses nothing the reference script asks for and the parser drops nothing |
| Pipeline.StretchNeverRepeats | scripts/policy_default.lua:110-158 | a stretch of calls that succeed never asks for the same thing twice in a row, from any window |
| Pipeline.OnlyTheFirstOfAStretchIsSuppressed | src/main.rs:205-282 | after any history of calls, failures and reloads, of a stretch of successful calls only the first request can be suppressed, exactly when it repeats the last request before it within the cooldown |
| Pipeline.ReloadedScriptRepeats | src/lua_policy.rs:371-393 | a reload restarts the script's variables while the deduplicator remembers: the same reading after it within the cooldown is suppressed |
| Clock.VirtualClock.constructor | src/sim/clock.rs:81-87 | a new clock is at zero with no events |
| Clock.VirtualClock.Schedule | src/sim/clock.rs:100-105 | the event gets the next id and its place in the queue |
| Clock.VirtualClock.SchedulePeriodic | src/sim/clock.rs:110-122 | the loop schedules first, first + period, ... up to the limit, in that order |
| Clock.VirtualClock.DrainUntil | src/sim/clock.rs:127-138 | exactly the events due by the target leave the queue, in (time, id) order |
| Clock.VirtualClock.Advance | src/sim/clock.rs:141-143 | only the present time moves |
| Clock.InsertKeepsSorted | src/sim/clock.rs:50-63 | scheduling keeps the queue in firing order behind everything already fired |
| Clock.ScheduleAllAdds | src/sim/clock.rs:100-105 | scheduling a plan adds one event per entry with consecutive ids and loses none |
| Clock.PeriodicTimesAreTheMultiples | src/sim/clock.rs:110-122 | the periodic times are exactly the multiples of the period in range, and there are end/p - start/p of them |
| Harness.Simulator.constructor | src/sim/harness.rs:91-110 | a new simulator is at time zero with an empty queue and trajectory |
| Harness.Simulator.SchedulePeriodicFrom | src/sim/harness.rs:440-457 | periodic events are scheduled from the first multiple after now; a zero period schedules nothing |
| Harness.Simulator.PreloadInjections | src/sim/harness.rs:239-256 | injection starts and ends in (now, until] are scheduled, in order |
| Harness.Simulator.PreloadEvents | src/sim/harness.rs:183-257 | the five periodic sources and the injections are scheduled in source order |
| Harness.Simulator.ApplyDirective | src/sim/harness.rs:411-434 | one observation per observable command is scheduled three seconds ahead |
| Harness.Simulator.HandleEvent | src/sim/harness.rs:268-336 | a signal event asks the policy, and a directive is recorded and applied before the event is recorded |
| Harness.Simulator.HandleEvents | src/sim/harness.rs:268-336 | the drained events are handled in order |
| Harness.Simulator.RunTick | src/sim/harness.rs:264-367 | one tick: drain, handle, snapshot, advance |
| Harness.Simulator.RunForDuration | src/sim/harness.rs:374-382 | preload, then whole ticks until the end is reached |
| Harness.Simulator.RunUntilPredicate | src/sim/harness.rs:385-405 | preload at most sixty seconds, then ticks until the predicate holds or the time is up, and whether it held |
| HarnessOrder.TickKeepsSettled | src/sim/harness.rs:264-367 | one tick of at most three seconds keeps fired events and queue one ordered ledger of all ids, for any policy |
| HarnessOrder.TickExtends | src/sim/harness.rs:264-367 | a tick loses no event, only appends to what has fired, and creates nothing but observations |
| HarnessOrder.RunTicksIsOrderly | src/sim/harness.rs:374-382 | a run of ticks keeps the ledger and extends the history |
| HarnessWindow.PreloadPlanCovers | src/sim/harness.rs:183-257 | preloading plans exactly the occurrences due in (now, until], each once |
| HarnessWindow.PreloadKeepsSettled | src/sim/harness.rs:183-257 | preloading never schedules into the past and keeps the ledger |
| HarnessWindow.DoAllIsOrderly | src/sim/harness.rs:264-405 | any sequence of ticks, runs and conditional runs keeps the ledger and loses nothing |
| HarnessWindow.EveryEventFiresOnceInOrder | src/sim/harness.rs:264-405 | for ticks of at most three seconds and any policy, everything fires in (time, id) order with nondecreasing stamps, ids are unique, and each event whose time was reached fired exactly once or is an observation due at this very instant |
| HarnessTold.EveryEntryIsExplained | src/sim/harness.rs:264-367 | for every policy, tick and sequence of operations: every memory, compute, thermal and energy poll and no other event is put to the policy with the trajectory so far and the start of the tick, a directive stands right before its event exactly when there was an answer, and snapshots are one tick apart |
| HarnessTold.DirectivesArePolls | src/sim/harness.rs:268-336 | with a policy that always answers such a trajectory has one directive per fired poll of the four kinds |
| HarnessTold.OneDirectivePerPoll | src/sim/harness.rs:268-382 | so a run of d from the start records d/memory + d/compute + d/thermal + d/energy directives, an interval of zero giving none |
| HarnessTold.ObservationsAreThePromised | src/sim/harness.rs:411-434 | for every policy, tick and sequence of operations the observations fired or waiting are, with multiplicity, one per compression directed, three seconds after the tick in which it was |
| HarnessSlices.RunEndIsCeiling | src/sim/harness.rs:374-382 | a run ends at the first whole tick at or after its nominal end |
| HarnessSlices.RunForFiresItsWindow | src/sim/harness.rs:374-382 | from an idle start a run fires exactly the scenario's occurrences in (start, nominal end], by time and then source order, whatever the policy answers |
| HarnessSlices.CutRunMatchesIffGapIsEmpty | src/sim/harness.rs:183-257 | a run of a then b fires the same scenario events in the same order as one run of a + b exactly when nothing is due in the gap: the overshoot of the cut, which the second run skips, and the stretch past the end of the whole that it then reaches; for any two policies |
| HarnessSlices.AlignedCutIsInvisible | src/sim/harness.rs:374-382 | when the tick divides a the cut leaves no trace |
| HarnessSlices.OvershootIsSkipped | src/sim/harness.rs:374-382 | a concrete scenario whose heartbeat falls into the overshoot of a cut run |
| HarnessSlices.PeriodCount | src/sim/harness.rs:440-457 | a source of period p fires exactly floor(end/p) - floor(start/p) times |
| HarnessRepeat.OccurrenceFiresOnceIffNotWaiting | src/sim/harness.rs:183-257 | from any reached state a run fires an occurrence of its window exactly once exactly when no event for it was already waiting |
| HarnessRepeat.ConditionalRunFires | src/sim/harness.rs:385-405 | whenever it stops, a conditional run from an idle state fires exactly the occurrences up to its end or sixty seconds after its start, and leaves waiting exactly the preloaded ones later than its end |
| HarnessRepeat.ConditionalRunStops | src/sim/harness.rs:385-405 | a conditional run reports a stop exactly when its predicate holds where it ends, else it reaches its limit, and a predicate that holds at once ends it before the first tick |
| HarnessRepeat.NextRunRepeatsTheHorizon | src/sim/harness.rs:385-405 | the run after a conditional run fires an occurrence of its window exactly once exactly when it lies beyond what the conditional run preloaded |
| HarnessRepeat.StoppedRunIsRepeated | src/sim/harness.rs:385-405 | from any settled state, idle or not, a conditional run that stops at once makes the next run repeat everything both cover |
| HarnessRepeat.HeartbeatIsRepeated | src/sim/harness.rs:385-405 | a concrete scenario whose heartbeat fires twice |
| HarnessTick.SlowTickBreaksOrder | src/sim/harness.rs:411-434 | for every tick over three seconds a concrete scenario and policy put the trajectory out of time order |
| HarnessTick.OrderHoldsIffTickIsShort | src/sim/harness.rs:264-405 | time stamps are in order for every scenario, policy and sequence of operations exactly when the tick is at most three seconds |
| Config.DeepMerge | src/sim/config.rs:722-742 | the loop over the override's keys, in any order, gives the merged document |
| Config.MergeIsIdempotent | src/sim/config.rs:722-742 | a document merged with itself is itself |
| Config.EmptyMappingIsIdentity | src/sim/config.rs:722-742 | the empty mapping changes no mapping from either side |
| Config.MergeAtPath | src/sim/config.rs:722-742 | at every path the child wins where it speaks, mappings are merged, and the parent shows through where the child is silent and has put no leaf above |
| Config.MergeIsOuterIffCovers | src/sim/config.rs:722-742 | merging under a document changes nothing exactly when it already holds every key, at every depth |
| Config.MergeIsAssociativeIffHarmless | src/sim/config.rs:722-742 | grouping does not matter exactly when no leaf of the middle document hides keys the last one lacks |
| Config.MergeIsNotAssociative | src/sim/config.rs:722-742 | three concrete documents for which grouping matters |
| Config.Loader.constructor | src/sim/config.rs:651-660 | a load starts with no file visited |
| Config.Loader.Load | src/sim/config.rs:676-719 | the recursive load with its visited set: the result, and on success the set restored |
| Config.FileOutcome | src/sim/config.rs:676-719 | what loading one file comes to in terms of the file itself: visited, missing, unparsable, extending nothing, extending no name, or laid over what its parent gives |
| Config.LoadFollowsChain | src/sim/config.rs:676-719 | the loader's answer is the outcome of the chain of files: a left fold of merges from the root ancestor, or the error at its end |
| Config.LoadingIsTheChain | src/sim/config.rs:676-719 | loading always ends; it is circular exactly when the readable chain revisits a file, and succeeds exactly when the chain reaches a file without a parent |
| Config.LoadedHasNoExtends | src/sim/config.rs:676-719 | no loaded mapping still has a top-level extends key |
| Physics.LagStays | src/sim/physics.rs:43-48 | first-order lag never leaves an interval that holds the value and its target |
| Physics.LagLeavesExponential | src/sim/physics.rs:43-48 | exp(-dt/tau) of the distance to the target is left after a step, and nothing without a time constant |
| Physics.LagComposes | src/sim/physics.rs:43-48 | two steps towards one target are one step of both lengths: the result does not depend on how time is cut |
| Physics.DvfsTargetInRange | src/sim/physics.rs:154-171 | the frequency target lies between the minimum and maximum for every temperature, threshold and gain |
| Physics.DvfsTargetIsAntitone | src/sim/physics.rs:154-171 | with a gain that is not negative a hotter cluster never gets a higher target |
| Physics.DvfsTargetOnTheRamp | src/sim/physics.rs:154-171 | between soft and hard the target is the maximum less the gain times the share of the way, cut off at minimum and maximum |
| Physics.CouplingConservesHeat | src/sim/physics.rs:234-246 | coupling keeps the sum of the temperatures and scales their gap by 1 - 2 (cpu_to_gpu + gpu_to_cpu) dt |
| Physics.CouplingKeepsBandsIff | src/sim/physics.rs:234-246 | coupling keeps every band holding both clusters exactly when (cpu_to_gpu + gpu_to_cpu) dt is in [0, 1] |
| Physics.HeatTargetIsBounded | src/sim/physics.rs:183-217 | an equilibrium temperature lies between the baseline and the baseline plus the load's share plus ten degrees |
| Physics.HeatTargetParts | src/sim/physics.rs:183-217 | each percent of load adds the coefficient, and a frequency share whose power exceeds one half adds twenty degrees times the excess |
| Physics.PhysicalState.constructor | src/sim/state.rs:67-93 | the state starts with the temperatures and frequencies it is given |
| Physics.PhysicalState.UpdateDvfs | src/sim/physics.rs:116-147 | both frequencies lag towards their targets, and the temperatures do not change |
| Physics.PhysicalState.UpdateThermal | src/sim/physics.rs:177-246 | both temperatures lag towards their equilibria and are then coupled, and the frequencies do not change |
| Physics.DvfsIsPerCluster | src/sim/physics.rs:116-147 | each frequency closes in on the target of its own cluster by its own time constant |
| Physics.HeatIsPerCluster | src/sim/physics.rs:177-246 | without coupling each temperature closes in on the equilibrium of its own load and frequency |
| Physics.StepHeatsAfterScaling | src/sim/physics.rs:116-246 | the heat of a step follows the frequencies the same step has just set |
| Physics.ThermalKeepsBand | src/sim/physics.rs:177-246 | for any targets in [lo, hi] and (cpu_to_gpu + gpu_to_cpu) dt in [0, 1] both temperatures stay in [lo, hi] |
| Physics.RunKeepsBand | src/sim/physics.rs:116-246 | over whole runs both temperatures stay in the band of equilibria and both frequencies in their range, for any loads up to a maximum |
| Physics.RunKeepsFreqsInRange | src/sim/physics.rs:116-147 | over whole runs the frequencies never leave [min, max], without any condition on the coupling |
| Compose.Collector.constructor | src/sim/compose.rs:55-61 | the three maps start empty |
| Compose.Collector.CollectEffect | src/sim/compose.rs:260-270 | the value is appended under the first operation ever seen for the dimension, and no other dimension changes |
| Compose.Collector.TakeAction | src/sim/compose.rs:81-148 | what one effect of an action does to its dimension, case by case, and to no other |
| Compose.Collector.TakeInteraction | src/sim/compose.rs:160-204 | what one effect of an interaction does to its dimension: only literals are set, by the dimension's own max or min rule |
| Compose.Collector.TakeActionEffects | src/sim/compose.rs:81-148 | for every order in which the map yields its dimensions each one absorbs its own effect once |
| Compose.Collector.TakeInteractionEffects | src/sim/compose.rs:160-204 | the same for the effects of an interaction |
| Compose.Collector.TakeActions | src/sim/compose.rs:63-149 | each dimension ends with the fold of its own contributions in action order; unknown actions and actions whose condition fails contribute nothing |
| Compose.Collector.TakeInteractions | src/sim/compose.rs:152-205 | interactions whose actions are all active contribute after the actions, in order |
| Compose.Collector.Gather | src/sim/compose.rs:63-205 | what is gathered for every dimension is its specification, whatever the iteration orders |
| Compose.PhysicalState.ApplyNumbers | src/sim/compose.rs:208-240 | every known dimension settles by its own gathered effects alone; the others keep their value |
| Compose.PhysicalState.ApplyTexts | src/sim/compose.rs:243-251 | only the text for kv_dtype reaches the state |
| Compose.PhysicalState.ApplyActions | src/sim/compose.rs:40-254 | the final state is one function of the inputs for every iteration order of every map, and nothing happens without active actions |
| ComposeMeaning.FieldFollowsWhatIsSaid | src/sim/compose.rs:208-240 | a field no number speaks about keeps its value; any other lags to where the first operation takes it with the product, the sum, the greatest or the least of all operands, at the last strong time constant or else the first weak one |
| ComposeMeaning.TextFollowsWhatIsSaid | src/sim/compose.rs:243-251 | kv_dtype becomes the last text said about it |
| ComposeMeaning.UnspokenIsUnchanged | src/sim/compose.rs:40-254 | a field that no active action whose condition holds and no interaction with all its actions active has an effect on keeps its value |
| ComposeMeaning.OneActionDecides | src/sim/compose.rs:63-149 | when one active action alone has an effect on a field, the field goes where that effect takes it: the value set, the product, the sum, or nowhere |
| ComposeMeaning.OneInteractionDecides | src/sim/compose.rs:152-205 | likewise for one interaction, except that it sets only literal numbers and no text |
| ComposeMeaning.WhoseTimeConstant | src/sim/compose.rs:81-148 | of two actions in a row the second gives the time constant when it carries one and sets, or the first carries none |
| ComposeMeaning.SetsTakeTheLarger | src/sim/compose.rs:87-122 | of two numbers set by actions the larger one counts, whatever the dimension's rule |
| ComposeMeaning.SetsOfInteractionsFollowTheRule | src/sim/compose.rs:187-199 | of two numbers set by interactions the smaller one counts where the dimension's rule, or else the default, is the minimum, and the larger one everywhere else |
| ComposeMeaning.UnmatchedInteractionIsInert | src/sim/compose.rs:152-159 | an interaction that names one action which is not active changes no state, wherever it stands among the others |
| ComposeMeaning.MatchedInteractionComesLast | src/sim/compose.rs:152-205 | a last interaction whose actions are all active has its effects absorbed after everything else, and leaves what it does not name as it was |
| ComposeMeaning.MatchedInteractionSaysLast | src/sim/compose.rs:152-205 | what is said about a dimension grows by exactly that effect, at the end |
| ComposeOrder.FoldIsWitnessed | src/sim/compose.rs:63-149 | every part of what is gathered was said by some contribution, and is absent only when none speaks of it |
| ComposeOrder.OrderIrrelevantIffAgree | src/sim/compose.rs:63-149 | what is gathered from the actions about a dimension is the same in every order exactly when no two contributions to it compete (operation, text or time constant) |
| ComposeOrder.AgreeingFieldIgnoresOrder | src/sim/compose.rs:40-254 | then the dimension's value is the same in every order of the actions, with every interaction |
| ComposeOrder.ScalingIgnoresOrder | src/sim/compose.rs:124-132 | a dimension that is only scaled, with one time constant, is invariant under permuting the active actions |
| ComposeOrder.FirstOperationDecides | src/sim/compose.rs:260-270 | two concrete actions give 60 or 15 from 10, depending on which became active first |
| ComposeState.PullAlikeIff | src/sim/compose.rs:208-240 | two ways to settle a dimension agree on every value exactly when they are the same operation at the same share of the way, when both are zero, or when neither changes anything |
| ComposeState.OrderUnseenIffHarmless | src/sim/compose.rs:40-254 | for given outcomes of conditions and expressions, over all states, the order of the active actions cannot be seen in a dimension exactly when there is no operand, or every operation that can lead is neutral on the operands, or all that can lead do the same and the time constants agree |
| ComposeState.TextUnseenIffOne | src/sim/compose.rs:243-251 | for given outcomes of conditions and expressions, over all states, the order cannot be seen in kv_dtype exactly when the active actions set at most one text on it |
| ComposeState.StateUnseenIff | src/sim/compose.rs:40-254 | for given outcomes of conditions and expressions no state shows the order of the active actions exactly when both hold for all its dimensions and its text |
| ComposeState.HarmlessEverywhereIsUnseen | src/sim/compose.rs:40-254 | with outcomes evaluated anew in every state, being harmless in each of them is enough |
| Framing.HeaderRoundTrip | src/channel/unix_socket.rs:164-170 | a 32-bit length survives its four big-endian bytes |
| Framing.HeaderIsBigEndian | src/channel/unix_socket.rs:164-170 | the most significant byte of the length comes first |
| Framing.ReadEncoded | src/channel/unix_socket.rs:164-175 | what the reader makes of an encoded payload of any length: the header carries it modulo 2^32, and the cap decides |
| Framing.DecodeAllIffFits | src/channel/unix_socket.rs:326-343 | decoding gives back the list that was encoded exactly when every payload is at most 65536 bytes |
| Framing.StopsAtFirstTooLong | src/channel/unix_socket.rs:326-336 | the reader stops at the first oversize frame, having yielded exactly the payloads before it |
| Framing.MessagesOfEncoded | src/channel/unix_socket.rs:326-343 | of encoded payloads that fit the reader yields the parsed messages up to the first that does not parse |
| Framing.MessagesGrow | src/channel/unix_socket.rs:287-316 | bytes that arrive later never change or reorder the messages already read |
| Framing.Stream.ReadExact | src/channel/unix_socket.rs:327-339 | exactly n bytes are taken, or the stream ended first |
| Framing.Stream.ReadEngineMessage | src/channel/unix_socket.rs:326-343 | one read yields the parsed payload of the next frame, or nothing for a short, oversize or malformed one |
| Framing.Stream.ReadMessages | src/channel/unix_socket.rs:287-316 | the reader's loop hands on exactly the messages of the stream, in order |
| Channel.EngineChannel.constructor | src/channel/unix_socket.rs:77-90 | a new channel is listening, with no connection |
| Channel.EngineChannel.Disconnect | src/channel/unix_socket.rs:258-274 | leaving a connection drops its inbox |
| Channel.EngineChannel.TransitionToConnected | src/channel/unix_socket.rs:141-161 | a new connection replaces the old one with an empty inbox and a new reader; a stream that cannot be cloned leaves the channel disconnected |
| Channel.EngineChannel.WaitForClient | src/channel/unix_socket.rs:95-119 | the poll loop answers true exactly when a connection was accepted before shutdown, timeout or an error, even when it could not be cloned |
| Channel.WaitConnectsIffCloned | src/channel/unix_socket.rs:95-161 | after an accept the channel is connected exactly when the stream could be cloned, and else disconnected, while the answer is true in both cases |
| Channel.WaitIff | src/channel/unix_socket.rs:95-119 | the wait accepts exactly when a client arrives after polls that only found nobody, in time |
| Channel.UnclonedClientIsReported | src/channel/unix_socket.rs:95-161 | a concrete list of polls that answers true and leaves the channel disconnected |
| Channel.EngineChannel.TryReconnect | src/channel/unix_socket.rs:122-138 | only a disconnected channel accepts |
| Channel.EngineChannel.EmitPayload | src/channel/unix_socket.rs:224-248 | one frame is written on the current connection, or the connection is left, or nothing happens |
| Channel.EngineChannel.TryReceive | src/channel/tcp.rs:246-262 | the oldest message is handed over; only an empty inbox whose reader is gone disconnects |
| ChannelSafety.ReadingKeepsLink | src/channel/unix_socket.rs:287-316 | a read by the reader thread keeps delivered + inbox + held equal to the messages parsed |
| ChannelSafety.PushingKeepsLink | src/channel/unix_socket.rs:287-316 | so do a push into the bounded inbox and an I/O error |
| ChannelSafety.ReceivingKeepsOk | src/channel/unix_socket.rs:258-274 | so does a receive by the main thread |
| ChannelSafety.EmittingKeepsOk | src/channel/unix_socket.rs:224-248 | so does an emission, with or without a reconnect or a write error |
| ChannelSafety.StepKeepsOk | src/channel/unix_socket.rs:95-311 | every step of every party keeps the protocol's invariant |
| ChannelSafety.RunKeepsOk | src/channel/unix_socket.rs:95-311 | every interleaving keeps the protocol's invariant |
| ChannelSafety.DeliveredIsPrefix | src/channel/unix_socket.rs:258-311 | over all interleavings what a connection delivered is an in-order prefix of the messages its peer sent, and the inbox never exceeds 64 |
| ChannelSafety.LossIsReportedAfterDraining | src/channel/unix_socket.rs:258-274 | loss is reported only with the inbox drained and everything parsed delivered, and without an I/O error everything sent before the end or the first bad frame was delivered |
| ChannelSafety.WellFormedPeerIsHeard | src/channel/tcp.rs:246-331 | a peer that sends frames within the cap is heard in full, in order, once, when its loss is reported |
| ChannelSafety.NothingFromOldConnections | src/channel/unix_socket.rs:122-161 | from any reached state on, only the newest connection or later ones deliver |
| ChannelLiveness.ReceivesHandOverTheInbox | src/channel/unix_socket.rs:258-274 | from any connected state, with the reader running or not, as many receives as there are messages in the inbox hand over exactly these, in order and from this connection, and the channel stays connected |
| ChannelLiveness.LossIsNoticed | src/channel/unix_socket.rs:258-316 | when the reader meets an I/O error, the end of the stream, an oversize or an unparsable frame, one receive more than there are messages in the inbox hands these over and then reports the loss |
| ChannelLiveness.PushIntoInbox | src/channel/unix_socket.rs:287-316 | a message in hand joins the end of an inbox of fewer than 64, waits in hand otherwise, and is lost without a receiving end |
| ChannelLiveness.EverythingSentCanBeDelivered | src/channel/unix_socket.rs:258-316 | from every reached state with a living reader its steps and receives alone lead to a state in which every message the peer has sent is delivered |
| ChannelLiveness.EmissionIsWritten | src/channel/unix_socket.rs:122-248 | on a live connection an emission adds its header and payload, on a lost one after a client was accepted it is the first that client gets, a listening channel writes nothing, and a failing write sends a part and leaves the connection |
| ChannelSafety.EngineReadsWhatWasEmitted | src/channel/unix_socket.rs:164-175 | the bytes written on a live connection decode to the payloads emitted on it exactly when all fit the cap |
| ChannelSafety.ListeningHearsNobody | src/channel/unix_socket.rs:122-138 | a channel that never had a client stays listening whatever is emitted on it afterwards |
| ChannelSafety.ConnectsIffWaitAccepted | src/main.rs:353-370 | after the start the channel can ever be connected exactly when the start's wait accepted a client |
| Delivery.RememberedIsInForceIffConnected | src/main.rs:191-282 | after any start, including directives emitted past the deduplicator, and any interleaving in the loop, what the deduplicator remembers is what the engine was sent last exactly when the channel is connected and anything is remembered |
| Delivery.SuppressedIsInForceIffConnected | src/main.rs:264-281 | a suppressed request asks for what the engine was sent last exactly when the channel is connected; suppressing it changes nothing and does not try to reconnect |
| Delivery.DroppedDirectiveIsNotRetried | src/channel/unix_socket.rs:224-231 | a directive dropped while disconnected is remembered; its retry within the cooldown leaves an engine that waits to be accepted waiting |
| Delivery.ReturningEngineIsNotTold | src/channel/unix_socket.rs:224-231 | a concrete run: the engine goes away, a directive is dropped, and its retry does not reach the engine that came back |
| ChannelSafety.FailedWriteLosesIffPending | src/channel/unix_socket.rs:224-248 | a failing write loses parsed messages exactly when the inbox or the reader still held some |

## Left out

- Floating-point rounding, NaN and infinities: arithmetic is over `real`, except that a latency reading may be non-finite.
- Overflow of `u64` nanoseconds, of 64-bit ids and of sequence numbers.
- The Lua VM, its sandbox and the `sys.*` helpers: a call of `decide` is a given outcome.
- LuaPolicy.Policy.ReloadScript: the VM that is replaced is outside this class; that a reload restarts the script's variables is modelled in Pipeline.
- argus_shared is not part of this model: the largest `gpu.yield` interval is a parameter.
- Monitors, `/proc`, sysfs and D-Bus reading: only the thresholding they call.
- JSON, YAML and TOML text: payloads are bytes with a given parser, YAML is a tree whose mapping keys are strings.
- `evalexpr`: an expression's outcome in the tick's fixed context is given, so conditions and values arrive evaluated.
- `exp` and `powf`: given functions of which only range and, where the order of actions is decided, growth are used.
- ComposeState.OrderUnseenIffHarmless: the outcomes of conditions and expressions are held fixed while the state varies; for outcomes that follow the state only the sufficient half is stated, in HarmlessEverywhereIsUnseen.
- ComposeState.TextUnseenIffOne: the outcomes that yield texts are held fixed in the same way.
- ComposeState.StateUnseenIff: the same outcomes are held fixed.
- Binary heap internals: the queue is kept in popping order, so the heap's own sift steps are not captured.
- Zero tick length: every run requires a positive tick, as the source would not terminate otherwise.
- Harness.Simulator.constructor: physical state, engine state, random source and the default tick of fifty milliseconds are not fields of the model.
- Harness.Simulator.HandleEvent: signal and level-transition entries of the trajectory are not modelled; signal, policy, dedup and physics together are one arbitrary function of what was recorded, the event and the clock.
- Harness.Simulator.RunTick: observation-overrun entries and errors of the physics step that abort a tick are not modelled.
- Harness.Simulator.RunUntilPredicate: the predicate is a function of clock and trajectory; the source's may keep state of its own and look at the physical state.
- KV-cache growth, external injection of load, `derived.rs`, noise, and `pressure_with_thermal`: they would add order-dependent or one-branch members only.
- Physics.PhysicalState.UpdateDvfs: requires a positive maximum frequency not under the minimum, as the source's clamp panics otherwise.
- Physics.RunKeepsBand: external injections and action effects between two thermal steps are not part of the run.
- Channel.EngineChannel.WaitForClient: the polls are given as a finite list, and time, sleeping and the shutdown flag appear only as what each poll sees.
- Fairness of the channel: that a step eventually happens is not stated, only what steps achieve and what holds whenever they happen. Sending of signals shares the steps of sending directives, and Delivery has directives only.
- Socket files, logging, session summaries, command line, timelines and the mock binaries.
