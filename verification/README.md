# IR bicycle wheel speed sensor: verified models

This project models the parts of the sensor whose correctness spans many steps,
and proves what they promise over whole runs.

* **Pattern learner** (`Ranking`, `Inference`, `Table`, `Learner`, `Runs`,
  `Observability`, `EventStream`, `Pattern`, `Pipeline`).  The learner keeps a 104-slot ring of
  inter-spoke intervals, scores every spoke count from 16 to 48, locks once and
  then adapts a per-spoke table.  `Learner.Learn` gives its state as a function
  of all accepted intervals; the class `SpokePattern` updates fields and arrays
  in place, and its invariant equates them with that function of every edge it
  was ever given.  The run theorems are about the function.
* **Receive path** (`Timeline`, `Adapter`, `RmtAdapter`, `Pacing`).  The capture
  callback rebuilds event times backwards from the clock and fills a queue of 32;
  the receive task drains it and reports revolutions.  `Adapter` describes every
  step of task, callback and host stack on values; the class `Receiver` takes the
  same steps in place.
* **Cycling Speed and Cadence service** (`CscMeasurement`, `CscService`,
  `ControlProcedure`, `Composition`).  Event time, payload and wheel total (section 3.1) and the
  control point procedure (section 3.4 of the Bluetooth Cycling Speed and Cadence
  Service 1.0.1).  Every critical section is one step; the host stack, the link
  and the other task may act between any two.
* **Simulated front end** (`SignalChain`).  Filters, comparator, delay and
  carrier detector as array loops, and their composition.
* **Routing signature** (`RouteScanner`, `RouteDocument`, `RouteSignature`).
  The quote-aware expression scanner against printed balanced items.

`Reals`, `Rounds` and `Words` hold shared arithmetic, `Latches` the flag that remembers.

## Conventions

Scores, table cells, periods and voltages are exact reals.  Machine integers wrap
where the code's do: counters modulo 2^32, timestamp differences modulo 2^64.
Durations of a capture are the 15-bit fields of its symbol words.  A validated
configuration supplies the resolution range 200 kHz to 80 MHz.  One armed receive
yields one callback.  The digest is an arbitrary function of the joined text.

Intervals of a run are listed oldest first. `Visits(r, k, n)` is r * n + k
(`Rounds.VisitsIsProduct`), the number of table visits in r rounds and k more.
At a lock the table is filled one cell early: the newest interval sits in the
last cell and is then fed to cell 0; the telescoping results account for that
offset.

## Where code and expectation part

* The table is meant to follow the wheel, but a cell whose interval lies outside
  its gate is frozen for ever, on uneven wheels from the lock on
  (`Observability.UnevenWheelIsWrong`) and after an abrupt change of speed.  The
  published period is right at revolutions, and in the limit, if and only if the
  distances of the frozen cells cancel (`Runs.PeriodAtRevolution`,
  `Runs.EndsRightExactly`).
* Counts from 16 through 48 are to be inferred, with a uniform pattern as the
  only exception.  No exactly repeating wheel of 24 spokes or fewer is ever
  learned, even or uneven, while every larger count can be
  (`Observability.CountsAbove24`).
* The service header promises at most one notification a second.  Consecutive
  attempts keep a second apart exactly as long as no timestamp falls back behind
  the last attempt by less than a second (`CscService.SpacedExactly`;
  `CscService.FallbackIsNotSpaced` is a failing run, and
  `CscService.SpacedIsNotPairwise` shows that only neighbours are meant).  Captures
  that do not overlap in time never fall back (`Pacing.PacedCapturesKeepTheRate`).
* The handler of indication reports does not look at the report's status, and a
  disconnection clears the flag of a write that is still being answered.  A run
  never reaches a point from which two procedures can overlap if and only if
  neither happens: reports for the procedure in progress are acknowledgements
  (unless the handler is giving up anyway), and no disconnection comes between a
  write's busy test and its answer (`ControlProcedure.OneProcedureExactly`).
  `ControlProcedure.PrematureReportOverlaps` and
  `ControlProcedure.ReconnectionOverlaps` show that each condition is needed.
* The scanner takes a pattern hidden in the quoted text of another item for
  routing; `RouteSignature.ScannerExact` gives the exact condition.
* A control point write keeps the value it set even when its indication cannot be
  sent; `CscService.NimbleService.Access` states this.

## Model

| member | source | states |
|---|---|---|
| `Ranking.LockMeansClearWinner` | firmware/components/ir_spoke_core/ir_spoke_pattern.c:24-39 | The lock decision holds if and only if some candidate scores below 0.035 and every other one is worse by more than eight percent of its own score; the one-pass ranking then picks exactly that candidate |
| `Ranking.FirstLeastIsFirstAndLeast` | firmware/components/ir_spoke_core/ir_spoke_pattern.c:24-26 | The best candidate is the first one with the least score |
| `Ranking.SecondIsAttained` | firmware/components/ir_spoke_core/ir_spoke_pattern.c:26-28 | The runner-up is the least score among the other candidates and is attained by one of them, so the sentinel never survives |
| `Ranking.ConfidenceExactly` | firmware/components/ir_spoke_core/ir_spoke_pattern.c:30-30 | The confidence lies in [0, 1] and is the runner-up's lead as a share of the runner-up's score, or of 1e-6 if that is larger |
| `Inference.ScoreBounded` | firmware/components/ir_spoke_core/ir_spoke_pattern.c:17-23 | On in-band intervals the floor on the mean is inactive and every score lies in [0, 3), far below the starting sentinel |
| `Inference.ScoreExactly` | firmware/components/ir_spoke_core/ir_spoke_pattern.c:17-23 | The score times the total of the newest 2n intervals is 2 * (1 + 0.001 n) times the total distance between each of the newest n and the one n earlier |
| `Inference.StepScore` | firmware/components/ir_spoke_core/ir_spoke_pattern.c:17-23 | Right after a step in speed by a factor c the true count scores 2 * |c - 1| / (c + 1) * (1 + 0.001 n) |
| `Inference.StepLocksExactly` | firmware/components/ir_spoke_core/ir_spoke_pattern.c:17-39 | A wheel whose speed has just stepped by c locks, with its count, if and only if every rival is clearly worse and 2 * |c - 1| * (1 + 0.001 n) is below 0.035 * (c + 1) |
| `Inference.LocksOn` | firmware/components/ir_spoke_core/ir_spoke_pattern.c:24-39 | The lock falls on a candidate if and only if it scores below 0.035 and every other one is worse by more than eight percent of its own score |
| `Inference.LargerCountsPay` | firmware/components/ir_spoke_core/ir_spoke_pattern.c:23-23 | A candidate scores better than every larger one whose relative error is no smaller, and equally well only if both fit perfectly |
| `Inference.ChosenCountIsEarned` | firmware/components/ir_spoke_core/ir_spoke_pattern.c:23-28 | A count is chosen over a smaller one, of which it may be a multiple, only when its relative error is strictly smaller |
| `Inference.TwoPeriodsNeverLock` | firmware/components/ir_spoke_core/ir_spoke_pattern.c:15-33 | A window that repeats under two candidate counts gets confidence 0 and no lock |
| `Inference.RepeatingLocksExactly` | firmware/components/ir_spoke_core/ir_spoke_pattern.c:15-33 | A window repeating exactly under one count locks, with that count, if and only if every other candidate scores above 8e-8 |
| `Inference.RepeatingConfidence` | firmware/components/ir_spoke_core/ir_spoke_pattern.c:30-39 | If every other candidate scores at least 1e-6 that lock has confidence exactly 1 |
| `Inference.GrainedLocksExactly` | firmware/components/ir_spoke_core/ir_spoke_pattern.c:15-39 | For whole-microsecond intervals a window repeating under one candidate count locks, with that count and confidence exactly 1, if and only if it repeats under no other |
| `Inference.RoughScore` | firmware/components/ir_spoke_core/ir_spoke_pattern.c:17-23 | A window that repeats only up to some share of its shortest interval scores at most that share, with the handicap |
| `Inference.RoughRepeatLocks` | firmware/components/ir_spoke_core/ir_spoke_pattern.c:15-39 | Such a window locks, with that count, when the score this allows is below 0.035 and every rival exceeds it by the margin of a lock |
| `Inference.JitterRepeatsWithin` | firmware/components/ir_spoke_core/ir_spoke_pattern.c:17-23 | Intervals within d of an exactly repeating window repeat within 2d |
| `Inference.SpeedInvariance` | firmware/components/ir_spoke_core/ir_spoke_pattern.c:15-39 | Scaling all intervals by one positive factor inside the band changes no score, nor the count, confidence or decision |
| `Pattern.SpokePattern.constructor` | firmware/components/ir_spoke_core/ir_spoke_pattern.c:57-59 | A fresh learner stands for the empty run of edges |
| `Pattern.SpokePattern.Recent` | firmware/components/ir_spoke_core/ir_spoke_pattern.c:7-10 | The ring read returns the n-th most recent accepted interval |
| `Pattern.SpokePattern.ScoreCandidate` | firmware/components/ir_spoke_core/ir_spoke_pattern.c:17-23 | The inner loop computes the score of one candidate over the two most recent spans |
| `Pattern.SpokePattern.Rank` | firmware/components/ir_spoke_core/ir_spoke_pattern.c:13-29 | The single pass over 16..48 yields the first minimiser and the least of the others; it requires a full ring, so no candidate is skipped |
| `Pattern.SpokePattern.InferCount` | firmware/components/ir_spoke_core/ir_spoke_pattern.c:12-40 | One inference changes confidence, count, lock, table and index exactly as the decision on the recent intervals says |
| `Pattern.SpokePattern.UpdateMap` | firmware/components/ir_spoke_core/ir_spoke_pattern.c:42-55 | One adaptation updates one cell, advances the spoke and republishes period and frequency; nothing else changes |
| `Pattern.SpokePattern.Push` | firmware/components/ir_spoke_core/ir_spoke_pattern.c:68-71 | Storing an interval keeps the ring equal to the newest 104 of the run and the 32-bit event counter equal to its length modulo 2^32 |
| `Pattern.SpokePattern.IngestEdge` | firmware/components/ir_spoke_core/ir_spoke_pattern.c:61-76 | After any edge every field is the function of all edges so far that the simple specification gives; the result says whether an interval was accepted |
| `EventStream.IntervalsStep` | firmware/components/ir_spoke_core/ir_spoke_pattern.c:62-67 | The step with one remembered edge refines: drop zero edges, take consecutive differences modulo 2^64, keep 70..15000 |
| `EventStream.PulseExactly` | firmware/components/ir_spoke_core/ir_spoke_detector.c:12-19 | A pulse gives an edge if and only if it lasted 70 to 600 microseconds |
| `EventStream.EdgeExactly` | firmware/components/ir_spoke_core/ir_spoke_pattern.c:62-67 | An edge gives an interval if and only if neither it nor the last edge is at zero and their difference modulo 2^64 is 70 to 15000 microseconds, and then exactly that difference |
| `EventStream.EveryIntervalCounts` | firmware/components/ir_spoke_core/ir_spoke_pattern.c:61-71 | If neighbouring edges are always 70 to 15000 microseconds apart, the accepted intervals are exactly their differences, none lost and none added |
| `EventStream.IntervalsGrained` | firmware/components/ir_spoke_core/ir_spoke_pattern.c:65-69 | Accepted intervals are whole microseconds, so any two are equal or at least one microsecond apart |
| `Learner.LockIsPermanent` | firmware/components/ir_spoke_core/ir_spoke_pattern.c:72-74 | Once locked, always locked, with the same count and confidence |
| `Learner.NothingBefore192` | firmware/components/ir_spoke_core/ir_spoke_pattern.c:72-73 | Nothing is inferred before the 192nd accepted interval |
| `Learner.LocksExactly` | firmware/components/ir_spoke_core/ir_spoke_pattern.c:72-73 | Any run locks if and only if after some number of intervals, at least 192 modulo 2^32, the scores decide on a lock |
| `Learner.LockIsFirst` | firmware/components/ir_spoke_core/ir_spoke_pattern.c:72-73 | The locking interval is the first such one, and count and confidence are those of its window |
| `Learner.UnlockedState` | firmware/components/ir_spoke_core/ir_spoke_pattern.c:33-39 | Before the lock count, spoke number, table, period and frequency are all zero |
| `Learner.LockedFrom` | firmware/components/ir_spoke_core/ir_spoke_pattern.c:72-74 | The prefixes of a run that are locked are exactly those reaching its locking interval |
| `Learner.LockedState` | firmware/components/ir_spoke_core/ir_spoke_pattern.c:33-55 | In every locked state of every run: count in 16..48, active cells within the range of the accepted intervals, period equal to the table's sum and positive, current spoke equal to the index below the count |
| `Pattern.SpokePattern.LockedFields` | firmware/components/ir_spoke_core/ir_spoke_pattern.c:33-55 | In every locked learner the count is a candidate, every active cell lies in 70..15000, the period is the cells' positive total, period times frequency is exactly 1e6, and the spoke number is the index below the count |
| `Table.AdaptationIsBounded` | firmware/components/ir_spoke_core/ir_spoke_pattern.c:42-48 | An interval moves a filled cell if and only if it differs from it by at most 80 microseconds or 28 percent of the cell, and then to 0.92 of the cell plus 0.08 of the interval |
| `Table.EmptyCellAdapts` | firmware/components/ir_spoke_core/ir_spoke_pattern.c:44-48 | An empty cell takes eight percent of whatever comes |
| `Table.SettledStep` | firmware/components/ir_spoke_core/ir_spoke_pattern.c:44-48 | A repeated interval either keeps being accepted, shrinking the distance by 0.92 each time, or never changes the cell |
| `Table.TelescopingTotal` | firmware/components/ir_spoke_core/ir_spoke_pattern.c:36-54 | After r rounds and k visits the table's total is the true period plus exactly 0.08 * 0.92^r * (p[0] - p[k]) plus what the frozen cells keep back, whichever those are |
| `Table.CapturedTotal` | firmware/components/ir_spoke_core/ir_spoke_pattern.c:42-54 | With every cell inside its gate only the telescoped term remains, and nothing at a round boundary |
| `Table.BoundaryTotal` | firmware/components/ir_spoke_core/ir_spoke_pattern.c:42-54 | At a round boundary after the first round the total is right if and only if the distances of the frozen cells cancel |
| `Runs.TableIsFed` | firmware/components/ir_spoke_core/ir_spoke_pattern.c:36-50 | After a lock the table is the captured one with every interval since, the locking one first, fed to the cells in turn |
| `Runs.RepeatingTable` | firmware/components/ir_spoke_core/ir_spoke_pattern.c:42-50 | On a repeating stream each cell independently closes in geometrically or stays frozen for ever |
| `Runs.SpeedChange` | firmware/components/ir_spoke_core/ir_spoke_pattern.c:42-50 | From any locked state, whatever led there: once the stream repeats, each cell closes in on its new interval by a factor of 0.92 a visit, or stays frozen for ever |
| `Runs.PeriodConverges` | firmware/components/ir_spoke_core/ir_spoke_pattern.c:42-55 | After any change of speed, cells left outside their gates included, the published period converges to the true one plus the distances of the frozen cells: after r wraps of the spoke number it is off that limit by at most the first total distance of the cells that follow, shrunk r - 1 times |
| `Runs.EndsRightExactly` | firmware/components/ir_spoke_core/ir_spoke_pattern.c:42-55 | Within some number of wraps the published period is as close to the true one as wanted if the frozen distances cancel, and wrong for ever if they do not |
| `Runs.RepeatingPeriod` | firmware/components/ir_spoke_core/ir_spoke_pattern.c:36-55 | On a stream repeating from the captured intervals on, the published period is the true one plus the telescoped deviation plus what frozen cells keep back |
| `Runs.PeriodAtRevolution` | firmware/components/ir_spoke_core/ir_spoke_pattern.c:36-55 | At a revolution boundary it is off by the frozen cells' total distance times 1 - 0.92^r, so it is exact if and only if those distances cancel |
| `Runs.PeriodicRide` | firmware/components/ir_spoke_core/ir_spoke_pattern.c:12-76 | A periodic ride without rival counts locks at the 192nd interval with the right count and ever after publishes the true period up to the telescoped deviation and what frozen cells keep back; at revolutions it is exact if and only if their distances cancel |
| `Runs.AmbiguousNeverLocks` | firmware/components/ir_spoke_core/ir_spoke_pattern.c:72-74 | A run periodic under two candidate counts never locks and keeps confidence 0 |
| `Runs.ShortPeriodNeverLocks` | requirements/requirements.yaml:52-53 | Any stream with a period of 24 or less, uniform spacing included, stays unlocked for ever |
| `Runs.PeriodicLocksAt192` | firmware/components/ir_spoke_core/ir_spoke_pattern.c:71-73 | An exactly periodic stream is locked after 192 intervals if and only if no other candidate scores 8e-8 or less there |
| `Runs.PeriodicStaysLocked` | firmware/components/ir_spoke_core/ir_spoke_pattern.c:71-74 | Such a stream locks at precisely the 192nd interval, in runs of any length |
| `Observability.PeriodicLocksExactly` | firmware/components/ir_spoke_core/ir_spoke_pattern.c:71-73 | A periodic run of whole microseconds, of any length, locks if and only if at some number of intervals at which inference is due the window repeats under no other candidate count; it locks at the first such interval, with the right count and confidence exactly 1 |
| `Observability.PeriodicEdgesLockExactly` | firmware/components/ir_spoke_core/ir_spoke_pattern.c:61-74 | The same for the accepted intervals of any run of edges |
| `Observability.ObservableRide` | firmware/components/ir_spoke_core/ir_spoke_pattern.c:12-76 | Whenever such a ride locks, the same holds of its published period |
| `Observability.OneOddSpokeLocks` | firmware/components/ir_spoke_core/ir_spoke_pattern.c:12-40 | A wheel of 25 to 48 spokes with one gap at least a microsecond off locks with the right count and confidence 1 at the 192nd interval if the odd gap is among the newest 32 then, and otherwise exactly when it next passes; so the bound of 24 on unobservable periods is sharp |
| `Observability.CountsAbove24` | requirements/requirements.yaml:52-53 | A count from 16 to 48 can be learned from some exactly repeating wheel if and only if it is above 24 |
| `Observability.OneOddPeriod` | firmware/components/ir_spoke_core/ir_spoke_pattern.c:42-55 | A wheel with one odd gap publishes the true period at revolutions if and only if each of the two intervals passes the other's gate, or neither does |
| `Observability.UnevenWheelIsWrong` | firmware/components/ir_spoke_core/ir_spoke_pattern.c:42-55 | A concrete wheel of 30 spokes, locked with the right count, whose first full revolution is published 24 microseconds short |
| `Runs.SpeedInvariantRun` | firmware/components/ir_spoke_core/ir_spoke_pattern.c:61-76 | Over a whole run lock, count, confidence and spoke number do not depend on the riding speed |
| `Runs.SnapshotScales` | firmware/components/ir_spoke_core/ir_spoke_pattern.c:36-37 | The table captured at the lock scales with the intervals |
| `Pipeline.Detector.Ingest` | firmware/components/ir_spoke_core/ir_spoke_detector.c:10-22 | A pulse is classified by the width gate and exactly one 32-bit counter advances |
| `Pipeline.ClassesExactly` | firmware/components/ir_spoke_core/ir_spoke_detector.c:12-19 | Short means below 70, long above 600 microseconds |
| `Pipeline.TalliesConserve` | firmware/components/ir_spoke_core/ir_spoke_detector.c:12-20 | Accepted, short and long tallies add up to all pulses, and the accepted ones are the edges |
| `Pipeline.SpokePipeline.constructor` | firmware/components/ir_spoke_core/ir_spoke_pipeline.c:3-8 | The pipeline starts with the generated width limits and no pulses |
| `Pipeline.SpokePipeline.Ingest` | firmware/components/ir_spoke_core/ir_spoke_pipeline.c:10-18 | After any pulse sequence the learner stands exactly where the simple specification of that sequence says |
| `Pipeline.ReportsAreRevolutions` | firmware/main/ir_spoke_rmt_adapter.c:119-126 | Rejected pulses and out-of-range intervals neither add nor lose a revolution |
| `Pipeline.RevolutionConservation` | firmware/main/ir_spoke_rmt_adapter.c:185-196 | Once locked, count * reported revolutions + current spoke equals the accepted intervals since and including the locking one; none are reported before |
| `Learner.RevolutionsConserve` | firmware/components/ir_spoke_core/ir_spoke_pattern.c:49-50 | The same conservation at the level of accepted intervals |
| `Timeline.ConversionRounds` | firmware/main/ir_spoke_rmt_adapter.c:37-40 | For every validated resolution tick conversion does not truncate and yields the nearest microsecond, the larger of two equally near ones |
| `Timeline.SymbolFits` | firmware/main/ir_spoke_rmt_adapter.c:68-68 | The 32-bit addition of a symbol's two converted phases never wraps |
| `Timeline.DriftIsBounded` | firmware/main/ir_spoke_rmt_adapter.c:48-52 | Over k phases the accumulated conversion error is at most k half-microseconds |
| `Timeline.NoDriftAtOneMegahertz` | firmware/main/ir_spoke_rmt_adapter.c:37-40 | At 1 MHz there is no conversion error at all |
| `Timeline.CaptureInOrder` | firmware/main/ir_spoke_rmt_adapter.c:53-69 | Reconstructed blockages are ordered and pairwise disjoint; the capture ends at the callback time if and only if its length does not exceed the clock value |
| `Timeline.StartsCountBack` | firmware/main/ir_spoke_rmt_adapter.c:53-69 | When the capture is no longer than the clock value, every blockage starts at the callback time minus the converted durations from its phase on |
| `Timeline.EveryPhaseHasItsBlockage` | firmware/main/ir_spoke_rmt_adapter.c:54-67 | Conversely every low phase of nonzero converted length has its event, with that length and at its place in the capture |
| `Timeline.PhasesInOrder` | firmware/main/ir_spoke_rmt_adapter.c:55-61 | A symbol's first phase precedes its second, symbol by symbol |
| `RmtAdapter.Receiver.CapturedUs` | firmware/main/ir_spoke_rmt_adapter.c:48-52 | The first loop computes the converted length of the whole capture |
| `RmtAdapter.Receiver.SendFromIsr` | firmware/main/ir_spoke_rmt_adapter.c:63-65 | A full queue refuses, otherwise the event is appended |
| `RmtAdapter.Receiver.EnqueuePhases` | firmware/main/ir_spoke_rmt_adapter.c:54-69 | The second loop queues the non-empty low phases that fit and counts the rest |
| `RmtAdapter.Receiver.RxDone` | firmware/main/ir_spoke_rmt_adapter.c:42-74 | The callback finds the queue empty, keeps exactly the first 32 blockages of the capture and adds the excess to the drop counter |
| `RmtAdapter.Receiver.Arm` | firmware/main/ir_spoke_rmt_adapter.c:91-93 | Re-arming happens with the queue empty |
| `RmtAdapter.Receiver.DrainOne` | firmware/main/ir_spoke_rmt_adapter.c:119-197 | Draining takes the oldest event through the pipeline and advances the wheel exactly when a revolution was completed |
| `RmtAdapter.Receiver.DrainAll` | firmware/main/ir_spoke_rmt_adapter.c:119-198 | One drain empties the queue in order and advances the wheel by the revolutions it contained |
| `RmtAdapter.Receiver.Serve` | firmware/main/ir_spoke_rmt_adapter.c:91-199 | Over any number of captures the learner has seen exactly the kept blockages in order, and the wheel has advanced by exactly the reported revolutions, saturating |
| `RmtAdapter.Receiver.Act` | firmware/main/ir_spoke_rmt_adapter.c:91-199 | One step of receive task, callback or host stack takes the whole state, task, flags, queue, counters, processed events and service, exactly where the step function says |
| `RmtAdapter.Receiver.Run` | firmware/main/ir_spoke_rmt_adapter.c:91-199 | Any interleaving of such steps, client writes while draining included, takes it exactly where those steps lead one after the other |
| `Adapter.StepKeepsSound` | firmware/main/ir_spoke_rmt_adapter.c:42-199 | Every step keeps the books of the hand-off and the account of the wheel |
| `Adapter.FirstInFirstOut` | firmware/main/ir_spoke_rmt_adapter.c:42-119 | After any interleaving the kept blockages are processed first in, first out; every captured one is processed, queued or counted as dropped; and the queue is empty whenever the receiver is armed |
| `Adapter.WheelTotal` | firmware/components/ir_spoke_ble_csc/include/csc_measurement.hpp:33-37 | After any interleaving the wheel is at the value a client last set plus the revolutions since, saturating |
| `Adapter.WheelTurns` | firmware/main/ir_spoke_rmt_adapter.c:185-197 | After any interleaving the revolutions that reached the wheel are, in order, the reported ones, and the notification clock is the last attempt among them |
| `Adapter.WheelEventTime` | firmware/components/ir_spoke_ble_csc/include/csc_measurement.hpp:33-36 | After any interleaving the wheel's event time is that of the last reported revolution, in 1/1024 s modulo 65536 |
| `Adapter.TurnCompletes` | firmware/main/ir_spoke_rmt_adapter.c:91-199 | The actions of one turn take a task about to arm to a task about to arm, with the capture filed, its excess counted and the kept blockages processed |
| `Adapter.QueueKeeps32` | firmware/main/ir_spoke_rmt_adapter.c:63-65 | The queue keeps the earliest 32 blockages of a capture; the rest are the excess |
| `RmtAdapter.Receiver.ClockStands` | firmware/components/ir_spoke_ble_csc/csc_nimble_service.cpp:329-336 | In every valid state the revolutions that reached the wheel are, in order, those the receive task reported, and the rate limit's clock is the last attempt among them |
| `Adapter.KeptAndDropped` | firmware/main/ir_spoke_rmt_adapter.c:63-66 | Kept and dropped blockages add up to all captured ones |
| `Pacing.CapturesInOrder` | firmware/main/ir_spoke_rmt_adapter.c:47-69 | If every callback comes at least its own captured length after the one before, all rebuilt blockages of all captures are ordered and disjoint, and so are the kept ones |
| `Pacing.PacedCapturesKeepTheRate` | firmware/components/ir_spoke_ble_csc/csc_nimble_service.cpp:329-336 | Such captures keep notification attempts in order and at least a second apart, none later than it need be |
| `CscMeasurement.EventTimeIsModular` | firmware/components/ir_spoke_ble_csc/include/csc_measurement.hpp:15-19 | The reduce-first formula equals the exact tick count modulo 65536 for every timestamp, without 64-bit overflow |
| `CscMeasurement.DifferenceWithinOneTick` | firmware/components/ir_spoke_ble_csc/include/csc_measurement.hpp:15-19 | The 16-bit difference of two event times is within one tick of the true elapsed time if and only if fewer than 65536 ticks passed |
| `CscMeasurement.ShortElapsedIsEnough` | firmware/components/ir_spoke_ble_csc/include/csc_measurement.hpp:15-19 | Less than 64 s minus one tick is always short enough, across any rollover |
| `CscMeasurement.MeasurementRoundTrip` | firmware/components/ir_spoke_ble_csc/include/csc_measurement.hpp:21-29 | Decoding the payload gives back revolutions and event time |
| `CscMeasurement.PayloadRoundTrip` | firmware/components/ir_spoke_ble_csc/include/csc_measurement.hpp:21-29 | Every seven-byte payload with the wheel flag is the encoding of what it decodes to |
| `CscMeasurement.PayloadLayout` | firmware/components/ir_spoke_ble_csc/include/csc_measurement.hpp:21-29 | Flags 1, then four bytes of revolutions and two of event time, least significant byte first |
| `CscMeasurement.WheelState.OnRevolution` | firmware/components/ir_spoke_ble_csc/include/csc_measurement.hpp:33-36 | A revolution advances the total unless it is at its maximum, and records the event time |
| `CscMeasurement.WheelState.SetCumulativeValue` | firmware/components/ir_spoke_ble_csc/include/csc_measurement.hpp:37-37 | Setting replaces the total and keeps the event time |
| `CscMeasurement.TotalSaturates` | firmware/components/ir_spoke_ble_csc/include/csc_measurement.hpp:33-37 | Over any history the total is the value last set plus the revolutions since, capped at 2^32 - 1 |
| `CscMeasurement.EventTimeIsLastTurn` | firmware/components/ir_spoke_ble_csc/include/csc_measurement.hpp:33-37 | Over any history the event time is the tick count of the last revolution modulo 65536, whatever values were set since |
| `CscService.NimbleService.BeginControlProcedure` | firmware/components/ir_spoke_ble_csc/csc_nimble_service.cpp:226-235 | Acquires the procedure for a connection exactly when none is in progress |
| `CscService.NimbleService.CancelControlProcedure` | firmware/components/ir_spoke_ble_csc/csc_nimble_service.cpp:237-242 | Releases the procedure |
| `CscService.NimbleService.ControlIndicationsEnabled` | firmware/components/ir_spoke_ble_csc/csc_nimble_service.cpp:244-250 | Only the current connection with indications enabled may write |
| `CscService.NimbleService.OnDisconnect` | firmware/components/ir_spoke_ble_csc/csc_nimble_service.cpp:169-179 | A disconnection clears connection, procedure and subscriptions |
| `CscService.NimbleService.OnNotifyTx` | firmware/components/ir_spoke_ble_csc/csc_nimble_service.cpp:181-191 | An indication report for the control point releases the procedure of that connection and no other |
| `CscService.NimbleService.OnSubscribe` | firmware/components/ir_spoke_ble_csc/csc_nimble_service.cpp:192-208 | Each subscription change reaches its own flag only |
| `CscService.NimbleService.Access` | firmware/components/ir_spoke_ble_csc/csc_nimble_service.cpp:32-82 | Result code, response and final state of one control point write, with every way it can fail |
| `CscService.NimbleService.OnHostEvent` | firmware/components/ir_spoke_ble_csc/csc_nimble_service.cpp:155-208 | Every event from the host stack has exactly its stated effect on the service's fields |
| `CscService.WrittenValueIsSet` | firmware/components/ir_spoke_ble_csc/csc_nimble_service.cpp:53-69 | A little-endian write sets exactly the value written and reports success; a request answered otherwise leaves the wheel alone |
| `CscService.ResponseExactly` | firmware/components/ir_spoke_ble_csc/csc_nimble_service.cpp:53-69 | The response is 1 if and only if the request sets a value, 2 for any other operation and 4 for a value request of the wrong size, and only the first changes anything |
| `CscService.HistoryExactly` | firmware/components/ir_spoke_ble_csc/csc_nimble_service.cpp:155-208 | Over any history of host events each subscription is on if and only if it was switched on and neither off nor cut off by a lost link since, and the connection is the last one made unless lost |
| `CscService.NimbleService.Notify` | firmware/components/ir_spoke_ble_csc/csc_nimble_service.cpp:252-275 | A measurement goes only to a connected subscriber and carries the snapshot taken inside the lock |
| `CscService.HandedExactly` | firmware/components/ir_spoke_ble_csc/csc_nimble_service.cpp:252-275 | A measurement is handed over if and only if a peer is connected and subscribed and memory is found, to that peer, and it decodes to the wheel's state |
| `CscService.NimbleService.OnWheelRevolution` | firmware/components/ir_spoke_ble_csc/csc_nimble_service.cpp:329-336 | A revolution is always counted; a notification is attempted exactly when a second has passed in unsigned 64-bit arithmetic |
| `CscService.EarlyExactlyOnFallback` | firmware/components/ir_spoke_ble_csc/csc_nimble_service.cpp:332-335 | An attempt comes within a second of the last one if and only if the timestamp fell back by less than a second |
| `CscService.SpacedExactly` | firmware/components/ir_spoke_ble_csc/csc_nimble_service.cpp:332-335 | Over any run, consecutive attempts are at least a second apart if and only if no timestamp falls back behind the last attempt by less than a second |
| `CscService.FallbackIsNotSpaced` | firmware/components/ir_spoke_ble_csc/csc_nimble_service.cpp:332-335 | A concrete run whose second attempt comes half a second after the first |
| `CscService.SpacedIsNotPairwise` | firmware/components/ir_spoke_ble_csc/csc_nimble_service.cpp:332-335 | A concrete run without such a fallback in which two attempts that are not neighbours lie half a second apart |
| `CscService.RateIsLimited` | firmware/components/ir_spoke_ble_csc/include/ir_spoke_ble_csc.h:14-16 | With timestamps that never run backwards attempts are at least a second apart, and none is later than it need be |
| `ControlProcedure.ProcedureNeverStuck` | firmware/components/ir_spoke_ble_csc/csc_nimble_service.cpp:41-82 | In every reachable state between writes, under any interleaving, a procedure is in progress exactly when a connection is stored for it, that connection is the live one, and an indication on it is unacknowledged |
| `ControlProcedure.OneProcedureAtATime` | firmware/components/ir_spoke_ble_csc/csc_nimble_service.cpp:44-44 | In runs where reports of the procedure's indication are acknowledgements and no disconnection falls between a write's busy test and its answer, at most one indication is ever unacknowledged and a new procedure starts exactly when there is none |
| `ControlProcedure.OrderlyIsExclusive` | firmware/components/ir_spoke_ble_csc/csc_nimble_service.cpp:165-207 | In every state where the flag means that an indication is due or unacknowledged, a step keeps that meaning if and only if it is no premature report of that procedure and no disconnection while its answer is due |
| `ControlProcedure.DisorderOverlaps` | firmware/components/ir_spoke_ble_csc/csc_nimble_service.cpp:169-190 | After any step of those two kinds, orderly steps alone can leave two indications unacknowledged at once |
| `ControlProcedure.OneProcedureExactly` | firmware/components/ir_spoke_ble_csc/csc_nimble_service.cpp:41-82 | A run never reaches a point from which two procedures can overlap if and only if it is orderly throughout |
| `ControlProcedure.PrematureReportOverlaps` | firmware/components/ir_spoke_ble_csc/csc_nimble_service.cpp:181-190 | A concrete run on an undisturbed link in which reports of mere transmission leave two indications unacknowledged |
| `ControlProcedure.ReconnectionOverlaps` | firmware/components/ir_spoke_ble_csc/csc_nimble_service.cpp:169-179 | A concrete run without any report in which a reconnection in the middle of a write leaves two indications unacknowledged |
| `ControlProcedure.WriteStepsAreAccess` | firmware/components/ir_spoke_ble_csc/csc_nimble_service.cpp:32-82 | Without interference the steps of the state machine add up to the handler's contract |
| `ControlProcedure.ResultExactly` | firmware/components/ir_spoke_ble_csc/csc_nimble_service.cpp:41-82 | Each result of a write belongs to exactly one way in which the handler ends it |
| `Composition.EventIsRun` | firmware/components/ir_spoke_ble_csc/csc_nimble_service.cpp:155-208 | Each host event has exactly the effect of its steps in the procedure's state machine |
| `Composition.RunIsMirrored` | firmware/main/ir_spoke_rmt_adapter.c:91-199 | In any interleaving of the whole receiver the service runs like that state machine |
| `Composition.ReceiverNeverStuck` | firmware/components/ir_spoke_ble_csc/csc_nimble_service.cpp:41-82 | So there, too, a procedure is in progress exactly when a connection is stored for it, and that connection is the live one |
| `SignalChain.RcLowpass` | simulation/ir_spoke_sim.py:33-40 | The filter loop fills the output with the accumulator after each sample |
| `SignalChain.RcHighpass` | simulation/ir_spoke_sim.py:43-45 | The input minus a low-pass started on the first sample |
| `SignalChain.RunComparator` | simulation/ir_spoke_sim.py:236-265 | The hysteresis loop produces the comparator output sample by sample |
| `SignalChain.ComparatorExactly` | simulation/ir_spoke_sim.py:256-265 | The output is on if and only if the signal was above the upper threshold at some sample and never below the lower one since |
| `SignalChain.NodeBalances` | simulation/ir_spoke_sim.py:243-252 | Each threshold is where the summing node meets the reference for its output rail, moved out by half the internal hysteresis |
| `SignalChain.DelayedLogic` | simulation/ir_spoke_sim.py:69-76 | Samples shifted later, the first one repeated, for any delay, even beyond the array |
| `SignalChain.RmtCarrierRemove` | simulation/ir_spoke_sim.py:48-66 | The retriggerable countdown loop |
| `SignalChain.Simulate` | simulation/ir_spoke_sim.py:218-275 | The composition from photocurrent to band-pass and blocked output |
| `SignalChain.HighpassIgnoresOffset` | simulation/ir_spoke_sim.py:43-45 | A constant offset does not appear behind the AC coupling |
| `SignalChain.LowpassEquation` | simulation/ir_spoke_sim.py:33-40 | The filter obeys tau * (y[i] - y[i-1]) = dt * (x[i] - y[i]) from its initial value on |
| `SignalChain.HighpassEquation` | simulation/ir_spoke_sim.py:43-45 | The high-pass starts at zero and takes away what follows the input by the same equation |
| `SignalChain.StageEquations` | simulation/ir_spoke_sim.py:218-232 | The transimpedance output falls below the reference by the low-passed product of current and resistance, settled at the first sample; the coupled signal is what the coupling's own equation leaves of it; the band-pass is the reference plus the low-passed amplified signal, held 40 mV inside the rails |
| `SignalChain.ConstantLightIsRejected` | simulation/ir_spoke_sim.py:218-275 | Adding any constant to the photocurrent leaves AC-coupled signal, band-pass, comparator and blocked output identical at every sample |
| `SignalChain.CarrierIsRecentTransition` | simulation/ir_spoke_sim.py:48-66 | Carrier is reported at a sample if and only if the input changed within the last hold samples |
| `SignalChain.QuietBandIsBlocked` | simulation/ir_spoke_sim.py:256-275 | While the band-pass stays inside the hysteresis band from a to b the output is blocked from a + delay + hold - 1 to b + delay |
| `SignalChain.ClearExactly` | simulation/ir_spoke_sim.py:256-275 | The output is clear if and only if the comparator, delay samples earlier, changed within the last hold samples |
| `SignalChain.CarrierIsClear` | simulation/ir_spoke_sim.py:256-275 | A signal that crosses from below the lower to above the upper threshold within the hold time is not reported as blocked |
| `SignalChain.AntiChatter` | simulation/ir_spoke_sim.py:238-265 | k comparator toggles cost the signal a total variation of at least k - 1 times the supply share plus the internal hysteresis, on any input |
| `RouteScanner.ScanBlock` | hardware/ir_spoke_link/layout_integrity.py:50-74 | The inner loop ends where the scan specification says, on any text |
| `RouteScanner.ScanEndExactly` | hardware/ir_spoke_link/layout_integrity.py:50-74 | On any text, balanced or not, the scan ends behind the first unquoted parenthesis that leaves none open, or else at the end of the text |
| `RouteScanner.FindBlocks` | hardware/ir_spoke_link/layout_integrity.py:44-76 | The search loop terminates on every text and returns the blocks at the specified spans |
| `RouteDocument.ScanItem` | hardware/ir_spoke_link/layout_integrity.py:51-74 | Started at a printed balanced item the scan ends exactly behind it: quoted parentheses and escaped quotes do not mislead it, whatever follows |
| `RouteSignature.ScannerExact` | hardware/ir_spoke_link/layout_integrity.py:43-76 | On a printed board the spans found are exactly those of the items with the keyword, if and only if the pattern is hidden in no other item and not in the tail |
| `RouteSignature.QuotedPatternMisleads` | hardware/ir_spoke_link/layout_integrity.py:47-50 | A concrete item whose quoted text is reported as routing |
| `RouteSignature.BlocksAreRoutedItems` | hardware/ir_spoke_link/layout_integrity.py:42-76 | On a clean board every segment, via and arc item is extracted as often as it occurs, and nothing else |
| `RouteSignature.RoutedExactly` | hardware/ir_spoke_link/layout_integrity.py:42-44 | Routed are the items whose first line is a tab, a parenthesis and segment, via or arc, and nothing more |
| `RouteSignature.RouteTextSignature` | hardware/ir_spoke_link/layout_integrity.py:41-81 | The digest of the joined sorted blocks, or the error when there are none |
| `RouteSignature.OrderedUnique` | hardware/ir_spoke_link/layout_integrity.py:79-81 | There is one sorted arrangement of given blocks |
| `RouteSignature.OrderExactly` | hardware/ir_spoke_link/layout_integrity.py:80-80 | Sorting is by code point: at the first difference the smaller character comes first, and a prefix before what it begins |
| `RouteSignature.JoinOneMore` | hardware/ir_spoke_link/layout_integrity.py:80-80 | Joining puts exactly one new line between neighbours |
| `RouteSignature.JoinedExactly` | hardware/ir_spoke_link/layout_integrity.py:79-81 | The digested text of extracted items is the same if and only if they are the same, each as often |
| `RouteSignature.DigestExactly` | hardware/ir_spoke_link/layout_integrity.py:79-81 | The digest is that of the ordered blocks joined, whichever way they were ordered |
| `RouteSignature.SignatureIgnoresOrder` | hardware/ir_spoke_link/layout_integrity.py:77-81 | Clean boards, where the pattern is hidden nowhere, have the same signature if they have the same items in any order |
| `RouteSignature.SignatureExactly` | hardware/ir_spoke_link/layout_integrity.py:41-81 | With a digest that never collides, two clean boards have the same signature if and only if every routed item occurs equally often on both |
| `RouteSignature.NoRoutesExactly` | hardware/ir_spoke_link/layout_integrity.py:77-78 | On a clean board the error is raised exactly when nothing is routed |

## Left out

- IEEE rounding: all arithmetic on measured values is exact, so nothing is claimed bit for bit about `float` or numpy doubles; the large-value sentinel is modelled as the largest finite single.
- Null pointers: the model's objects always exist, so the null checks of the C functions have no counterpart.
- Host stack, operating system and driver calls: allocation, indication and queue primitives appear as parameters or as their stated effect; logging, the debug LED, CAN telemetry and the link monitor have no effect on the modelled state.
- Failed connections, characteristic reads and writes to other attributes: they leave the modelled service state unchanged.
- Advertising and service registration: setup calls without state to reason about.
- Waiting and wake-up in the receive loop: the endless loop is modelled as any finite number of turns, and a blocked task as one that has not taken its next step.
- Control point writes between drained events: one step in `RmtAdapter`, because only one of their critical sections touches the wheel; `ControlProcedure` interleaves all of them.
- Numeric attribute error codes: the answers of the control point are named cases; only the response codes inside the indication are numbers.
- Hold and delay in samples: the rounding of microseconds to samples in the simulator is not modelled; the sample counts are parameters, the hold at least one.
- Optics, noise generation, power and robustness sweep of the simulator: formula evaluation; the photocurrent, noise included, is an arbitrary array.
- Sorting in the routing signature: the library sort is modelled by an insertion sort with the same order.
- `routing_signature` and all board, BOM, release and web tools: they depend on libraries that are not part of this model.
