# Tiller autopilot: a verified model

A tiller autopilot steers a boat by short impulses. This project models its controller and the
software around it, and proves what holds over every run.

* **Controller** (`RegulationConfig`, `HeadingError`, `OrderStatistics`, `Evidence`, `SteeringGuard`,
  `ControllerSpec`, `ObservationBuffer`, `CoreSteeringController`, `ControllerRuns`). The controller samples
  the wrapped heading error, collects it in an evidence buffer of three fixed arrays, and decides between no
  action, a regular impulse and a counter impulse. The arrays and registers are classes. `ControllerSpec` is
  the same machine over one list, the observations since the last reset, and `DriveController` shows that both
  give the same answer and the same debug values on every tick of every run. A `History` adds what the
  controller itself forgets: every accepted error, every impulse and the evidence behind it.
* **Properties of every run** (`ExactTicks`, `ImpulseSpacing`, `EvidenceMeaning`, `ErrorRate`, `ImpulseLaw`, `ImpulseFilter`,
  `Progress`, `SteadyRuns`, `GuardRedundancy`, `CooldownBypass`, `CompassRotation`). Clocks are unbounded; the
  controller sees their low 32 bits, and subtraction wraps as on `uint32_t`.
* **Closed loop** (`BoatModel`, `ClosedLoop`, `HeadingUnwrap`). The simulated boat, the loop of boat and
  controller, and the script function that undoes the wrapping of the recorded headings.
* **NMEA 0183 path** (`NmeaFramer`, `NmeaPipeline`, `LogRouter`). From GPS bytes through the framer, the
  bounded queue between two tasks and the serial log to the datagrams of the router.
* **Display** (`PixelGrid`, `PackedBits`, `Framebuffer`). The packed 1-bit buffer, its drawing loops and the
  adapter to colours, against a plain grid of pixels.

`MachineInts` and `RealProducts` hold the integer widths, C++ division and the arithmetic facts behind the
proofs.

## Conventions

* Floats are reals. `int16_t`, `uint8_t` and `uint32_t` arithmetic is written out wherever it can wrap.
* A configuration is an immutable record. Its field types are the ranges the configuration notes and the
  simulator's loader demand.
* The controller's `Left` and `Right` are called `Portside` and `Starboard`, the names of
  `include/types/steeringTypes.h`.
* The sine is any function with values in -1..1. `std::sort` is an insertion sort: sorted permutations are
  unique, so every sorting algorithm leaves the same array. A `char` is one byte.
* Deleting a time guard means setting its time to zero.
* That the statements about impulses speak of something is itself proved: `ActsIff` says exactly which
  controllers act at all, and `CounterRunCountersIff` gives a run with an impulse of each kind.
* Statements such as `hide F;` keep a definition out of one proof. They change no meaning.

## Where code and documentation differ

The model follows the code.

* `include/READMES/SteeringControllerConfig.md` calls the steering cooldown the least time between two impulses,
  and adds that the counter is decided before the guards. So a counter impulse ignores the cooldown:
  `CounterBreaksCooldown` is a run that breaks it, `TickKeepsCooldownIff` says exactly which ticks do, and
  `CooldownBreaksIff` for which controllers some run does: those whose counter evidence takes less time than the
  cooldown.
* The simulator's loader accepts a minimum sample size equal to the buffer capacity. Such a controller never
  acts (`CapacityStarvesImpulses`, `LoaderAcceptsStarvedConfig`).
* A comment in `csc.cpp` says that 60 percent of omega is countered; the code maps 50 percent.
* A comment in `uiContent.cpp` says that letter spacing scales with the text. A scale outside 1..9 draws glyphs
  at scale 1, but the spacing still uses the scale that was asked for.
* `calculateError` is declared over all 16-bit courses but is the shortest rotation only where
  `ErrorShortestIff` says.

## Model

| member | source | states |
|---|---|---|
| HeadingError.ErrorIsShortestRotation | src/core/steering/csc/headingErrorCalculator.cpp:3-14 | on compass courses the error is in -180..179, congruent to target minus heading modulo 360, and of least magnitude in its class |
| HeadingError.ErrorShortestIff | src/core/steering/csc/headingErrorCalculator.cpp:3-14 | over all 16-bit inputs, the exact condition under which the narrowed arithmetic still gives the shortest rotation |
| HeadingError.ErrorRotationInvariant | src/core/steering/csc/headingErrorCalculator.cpp:3-14 | turning heading and target by one angle leaves the error as it is |
| OrderStatistics.SortIsSortedPermutation | src/core/steering/csc/observationBuffer.cpp:31-33 | the sort yields a sorted permutation of its input |
| OrderStatistics.OrderStatistic | src/core/steering/csc/observationBuffer.cpp:31-36 | the k-th sorted value is below v exactly when more than k values are: the median slot is a true order statistic |
| OrderStatistics.SortAfterSort | src/core/steering/csc/observationBuffer.cpp:25-33 | appending to the sorted array and sorting again equals sorting all arrivals |
| OrderStatistics.NegativesCounted | src/core/steering/csc/observationBuffer.cpp:38-43 | the negatives are as many as the positions that hold a value below zero |
| OrderStatistics.PositivesCounted | src/core/steering/csc/observationBuffer.cpp:38-47 | the positives are as many as the positions that hold a value above zero |
| OrderStatistics.BelowCounted | src/core/steering/csc/observationBuffer.cpp:35-36 | the values below v are as many as the positions that hold one |
| OrderStatistics.WithinCounted | src/core/steering/csc/observationBuffer.cpp:35-36 | the values in lo..hi are as many as the positions that hold one |
| Evidence.MedianIsUpperMiddle | src/core/steering/csc/observationBuffer.cpp:35-51 | zero where the signs balance, and else the upper middle value: below v exactly when more than half of the errors, rounded down, are |
| ObservationBuffers.SortPrefix | src/core/steering/csc/observationBuffer.cpp:31-33 | in-place sort of the written prefix; the rest of the array is untouched |
| ObservationBuffers.ObservationBuffer.constructor | src/core/steering/csc/observationBuffer.cpp:5-6 | a new buffer is valid and empty |
| ObservationBuffers.ObservationBuffer.Update | src/core/steering/csc/observationBuffer.cpp:18-57 | keeps median array a sorted permutation of the arrivals, the median with its symmetric guard, and zeroes past the count; the list grows by one, or is consumed when the active capacity is reached |
| ObservationBuffers.ObservationBuffer.Append | src/core/steering/csc/observationBuffer.cpp:26-33 | stores error and time at the end of the list and sorts the median array |
| ObservationBuffers.ObservationBuffer.CountSigns | src/core/steering/csc/observationBuffer.cpp:38-47 | counting signs in the sorted array counts the signs of the arrivals |
| ObservationBuffers.ObservationBuffer.Reset | src/core/steering/csc/observationBuffer.cpp:85-94 | empties the list and clears every slot |
| ObservationBuffers.ObservationBuffer.GetMedian | src/core/steering/csc/observationBuffer.cpp:8-8 | the median of the list; zero where the signs of the arrivals balance, and else their upper middle value |
| ObservationBuffers.ObservationBuffer.GetSampleSize | src/core/steering/csc/observationBuffer.cpp:81-83 | the length of the list |
| ObservationBuffers.ObservationBuffer.GetSmoothedCurrentError | src/core/steering/csc/observationBuffer.cpp:59-79 | the truncated mean of the last arrivals in the window |
| ObservationBuffers.ObservationBuffer.GetOmega | src/core/steering/csc/observationBuffer.cpp:96-142 | the negated error rate over the last robust samples, zero where there are too few or time stands still |
| CoreSteeringControllers.CoreSteeringController.constructor | src/core/steering/csc/csc.cpp:11-13 | a new controller is the initial state |
| CoreSteeringControllers.CoreSteeringController.CurrentHDG | src/core/steering/csc/csc.cpp:15-17 | sets the heading only |
| CoreSteeringControllers.CoreSteeringController.SetInternalTarget | src/core/steering/csc/csc.cpp:19-21 | sets the target only |
| CoreSteeringControllers.CoreSteeringController.Tick | src/core/steering/csc/csc.cpp:31-116 | one tick over arrays and registers equals one tick of the list machine: same state, same debug values, same intent |
| CoreSteeringControllers.CoreSteeringController.TakeObservation | src/core/steering/csc/csc.cpp:48-75 | discards evidence near the target on a sign flip, stores the error, reads median, count and omega |
| CoreSteeringControllers.CoreSteeringController.TakeDecision | src/core/steering/csc/csc.cpp:77-115 | counter intent before the guards, guards before the regular intent, and the bookkeeping of each |
| CoreSteeringControllers.CoreSteeringController.CounterIntentNecessary | src/core/steering/csc/csc.cpp:165-200 | the early returns amount to the conjunction of all counter conditions |
| CoreSteeringControllers.CoreSteeringController.CounterIntent | src/core/steering/csc/csc.cpp:202-221 | opposite to the last intent, with half of omega as a clamped percentage |
| CoreSteeringControllers.CoreSteeringController.CalculateIntentFromObs | src/core/steering/csc/csc.cpp:118-163 | direction from the median, strength from the smoothed error |
| ControllerRuns.DriveController | src/core/steering/csc/csc.cpp:31-116 | refinement: over every sequence of inputs the array-based controller returns and shows what the list machine does |
| ControllerRuns.StepEmitsAtMostOne | src/core/steering/csc/csc.cpp:82-115 | a tick adds at most one impulse, of at most 100 percent |
| ControllerRuns.RunExplained | src/core/steering/csc/csc.cpp:31-116 | in every reachable state the registers digest the history, and every impulse ever emitted is justified by evidence of its own that no other impulse used |
| ExactTicks.TicksObeyLaw | src/core/steering/csc/csc.cpp:31-116 | after every run, for every input, in terms of the history: exactly when the error is accepted, exactly which evidence is kept or discarded, exactly when a counter is emitted on either side, exactly when a regular impulse is, what is returned and what the debug values show, every condition written out |
| MachineInts.ElapsedNeverOverstates | src/core/steering/csc/steeringGuard.cpp:6-20 | modular subtraction never reports more time than passed and is exact below 2^32 |
| ImpulseSpacing.RunTimed | src/core/steering/csc/steeringGuard.cpp:6-37 | through any number of wraparounds, accepted observations keep the minimum time, and each impulse keeps the distance of its kind from the one before it |
| ImpulseSpacing.ImpulseRateBound | src/core/steering/csc/csc.cpp:42-114 | in every stretch of every run the gaps of the regular and counter impulses add up to no more than the elapsed time |
| ImpulseSpacing.ImpulsesInHorizon | src/core/steering/csc/csc.cpp:42-114 | a horizon of T milliseconds holds at most 1 + T / gap impulses |
| ImpulseSpacing.CountersKeepCooldown | src/core/steering/csc/csc.cpp:180-183 | any two counter impulses are the counter cooldown apart, whatever lies between |
| ImpulseSpacing.SpanIsProduct | src/core/steering/csc/steeringGuard.cpp:9-13 | the least time of n observations is n times the minimum time |
| GuardRedundancy.CooldownRedundant | src/core/steering/csc/steeringGuard.cpp:30-37 | deleting the cooldown check changes no run before the clock wraps if evidence takes as long |
| GuardRedundancy.CooldownMattersIff | src/core/steering/csc/steeringGuard.cpp:30-37 | for every configuration, the cooldown changes some run before the clock wraps exactly when the controller can act and the cooldown is longer than the evidence takes |
| GuardRedundancy.FlipFlopGuardRedundant | src/core/steering/csc/csc.cpp:174-179 | deleting the flip-flop guard changes no run before the clock wraps if the evidence of a counter takes as long |
| GuardRedundancy.FlipFlopMattersIff | src/core/steering/csc/csc.cpp:165-200 | for a controller that can counter before it acts again, the guard changes some run exactly when it is longer than the least distance of a counter |
| GuardRedundancy.DefaultGuardsAreRedundant | include/config/config.h:11-31 | with the firmware's settings neither time guard changes any run before the clock wraps |
| SteadyRuns.SteadyActsIff | src/core/steering/csc/steeringGuard.cpp:22-66 | a steady error beyond the tolerance, sampled as early as allowed, leads to a regular impulse toward its side exactly when the cooldown is over |
| SteadyRuns.CounterRunCountersIff | src/core/steering/csc/csc.cpp:165-200 | for every controller that can counter, an explicit run ends in a counter at the least distance from the impulse before it, exactly when the flip-flop guard allows it |
| GuardRedundancy.ActsIff | src/core/steering/csc/csc.cpp:31-116 | some run on a monotone clock acts at all exactly when the needed samples fit below the capacity and an error can exceed the tolerance |
| CooldownBypass.TickKeepsCooldownIff | src/core/steering/csc/csc.cpp:77-97 | within the cooldown a tick emits nothing exactly when its observation is blocked or no counter is due |
| CooldownBypass.CooldownBreaksIff | src/core/steering/csc/csc.cpp:77-97 | for every controller that can counter, some run has two impulses within the cooldown exactly when the least distance of a counter is shorter than the cooldown |
| CooldownBypass.CounterBreaksCooldown | src/core/steering/csc/csc.cpp:77-89 | default settings with a cooldown of eight seconds: a run with a counter impulse five seconds after a regular one |
| CooldownBypass.SlowCountersKeepCooldown | src/core/steering/csc/csc.cpp:77-97 | if counter evidence takes as long as the cooldown, all impulses keep it |
| EvidenceMeaning.MedianPositiveIff | src/core/steering/csc/observationBuffer.cpp:31-51 | median > 0 iff positives reach half of the samples, rounded up, and outnumber negatives |
| EvidenceMeaning.MedianNegativeIff | src/core/steering/csc/observationBuffer.cpp:31-51 | median < 0 iff negatives are more than half of the samples |
| EvidenceMeaning.MedianIsRobust | src/core/steering/csc/observationBuffer.cpp:31-51 | if more than half of the errors lie in lo..hi, so does the median, or it is 0 |
| EvidenceMeaning.RegularFollowsMajority | src/core/steering/csc/csc.cpp:118-137 | every regular impulse of every run points with the strict sign majority of its evidence, of which at least half is beyond the tolerance |
| EvidenceMeaning.QuietRunIsSilent | src/core/steering/csc/deadband.cpp:6-10 | a run from boot with every error in tolerance emits nothing |
| EvidenceMeaning.FillingTickIsSilent | src/core/steering/csc/observationBuffer.cpp:53-56 | the tick that fills the window emits nothing |
| EvidenceMeaning.CapacityIsNearest | src/core/steering/csc/observationBuffer.cpp:10-16 | the active capacity is the number in 1..70 nearest to the configured one |
| EvidenceMeaning.CountStaysBelowCapacity | src/core/steering/csc/observationBuffer.cpp:18-56 | after every input of every run the sample count is strictly below the active capacity |
| EvidenceMeaning.CapacityStarvesImpulses | src/core/steering/csc/steeringGuard.cpp:35-37 | if the minimum sample size reaches the capacity, no run emits an impulse of either kind |
| EvidenceMeaning.LoaderAcceptsStarvedConfig | sim/headingSimulator.cpp:303-308 | the loader accepts a configuration under which no run ever acts |
| EvidenceMeaning.CountersOpposeLastImpulse | src/core/steering/csc/csc.cpp:165-208 | the first impulse is regular; a counter opposes the impulse before it, and within the flip-flop guard also the median |
| EvidenceMeaning.RegistersRemember | src/core/steering/csc/csc.cpp:82-114 | in every reachable state the registers hold the last impulse, its time, and the error at the last regular impulse |
| ErrorRate.OmegaIsLocal | src/core/steering/csc/observationBuffer.cpp:109-121 | omega depends on the last robust samples only |
| ErrorRate.OmegaIsRate | src/core/steering/csc/observationBuffer.cpp:96-142 | omega times the milliseconds between the ends of the robust samples is minus a thousand times the change of the error; zero for fewer than two samples or where time stands still |
| ErrorRate.OmegaMeasuresErrorRate | src/core/steering/csc/observationBuffer.cpp:96-142 | in every run before the clock wraps omega has the sign of the error's decrease and, times the least time, is at most 359 degrees per thousand milliseconds |
| ErrorRate.RegularOnlyOutsideRecovery | src/core/steering/csc/steeringGuard.cpp:45-63 | every regular impulse is issued while the error shrinks no faster than the deadband |
| ImpulseLaw.SmoothedErrorBetween | src/core/steering/csc/observationBuffer.cpp:59-79 | the smoothed error lies between bounds of the arrivals it averages |
| ImpulseLaw.SmoothedErrorIsMean | src/core/steering/csc/observationBuffer.cpp:71-78 | the smoothed error is the quotient of the sum of the last arrivals by their number, cut toward zero |
| ImpulseLaw.SumAdds | src/core/steering/csc/observationBuffer.cpp:74-76 | the sum is additive over concatenation and keeps single values |
| ImpulseLaw.MeanWindowAsConfigured | src/core/steering/csc/observationBuffer.cpp:66-69 | the window is the configured one below 256, and else what a byte keeps of it |
| ImpulseLaw.RegularImpulseLaw | src/core/steering/csc/csc.cpp:143-162 | the strength is min(100, floor(100 abs(m) / W)) for every smoothed error m and window W |
| ImpulseLaw.RegularImpulseMonotone | src/core/steering/csc/csc.cpp:143-162 | a larger error never gives a weaker impulse |
| ImpulseLaw.RegularImpulseOfRun | src/core/steering/csc/csc.cpp:128-163 | every regular impulse of every run has the strength of the truncated mean of its latest evidence, which never exceeds the largest error of the evidence in magnitude |
| ImpulseLaw.CounterImpulseLaw | src/core/steering/csc/csc.cpp:215-218 | the strength is min(100, floor(50 abs(omega))) |
| ImpulseLaw.CounterImpulseMonotone | src/core/steering/csc/csc.cpp:215-218 | a faster change never gives a weaker counter |
| ImpulseLaw.CounterImpulseOfRate | src/core/steering/csc/csc.cpp:215-218 | for a change of the error over a span of milliseconds the strength is min(100, 50000 abs(change) / span) in whole numbers |
| ImpulseLaw.CounterImpulseOfRun | src/core/steering/csc/csc.cpp:202-221 | every counter of every run has the strength of the change between the ends of its robust samples over the time between them |
| ImpulseFilter.FilterOnlyDampens | src/core/steering/impulseFilter.cpp:15-45 | keeps the direction, never raises the impulse, keeps its minimal share |
| ImpulseFilter.FilterLaw | src/core/steering/impulseFilter.cpp:15-45 | without a valid speed the impulse passes unchanged; else it is divided by one plus the weighted squared speed, or scaled by the least or greatest factor where the quotient would leave them, and cut to a whole number; the direction and the duty cycle of 100 are fixed |
| ImpulseFilter.DefaultFilterKeepsShare | src/core/steering/impulseFilter.cpp:27-45 | with the firmware's settings at least 35 percent of every impulse, rounded down, get through |
| ImpulseFilter.FilterMonotoneInImpulse | src/core/steering/impulseFilter.cpp:27-45 | a stronger impulse never comes out weaker |
| ImpulseFilter.FilterAntitoneInSpeed | src/core/steering/impulseFilter.cpp:27-45 | more speed through the water, in either direction, never strengthens an impulse |
| Progress.EvidencePilesUp | src/core/steering/csc/csc.cpp:58-97 | below the needed count, one-sided errors that never shrink all stay in the window and nothing is emitted |
| Progress.OneSidedEvidenceActsIff | src/core/steering/csc/csc.cpp:58-114 | on any clock, through wraparounds, and for any cooldown: from an empty window, one-sided errors that never shrink emit nothing before the needed accepted observation, and there a regular impulse toward their side if and only if the cooldown is over on the 32-bit counter |
| Progress.OneSidedEvidenceActs | src/core/steering/csc/csc.cpp:58-114 | on a clock that has not wrapped, a cooldown covered by the evidence time is over there, so the impulse is certain |
| CompassRotation.RotationChangesNothing | src/core/steering/csc/csc.cpp:48-66 | one offset on all headings and targets of a run changes no output, no accepted error and no impulse |
| BoatModels.NormalizeHeading | sim/headingSimulator.cpp:558-566 | the loops terminate in the representative in [0, 360) |
| BoatModels.NormalizeAngleSigned | sim/headingSimulator.cpp:568-576 | the loops terminate in the representative in (-180, 180] |
| BoatModels.SignedWrappedIsSameAngle | sim/headingSimulator.cpp:568-576 | that representative is in its range and is the same direction |
| BoatModels.BootModel.constructor | sim/headingSimulator.cpp:496-508 | the boat starts at rest on the wrapped initial heading |
| BoatModels.BootModel.ApplyIntent | sim/headingSimulator.cpp:510-517 | moves the clamped tiller and nothing else |
| BoatModels.BootModel.ComputeWindYawAccel | sim/headingSimulator.cpp:583-602 | the push of the wind at the signed relative angle, none without wind or windage |
| BoatModels.BootModel.Update | sim/headingSimulator.cpp:519-544 | one explicit Euler step whose summands are the recorded accelerations |
| BoatModels.MovedIsEulerStep | sim/headingSimulator.cpp:519-544 | one step written out: wind at the angle from bow to wind, the tiller's share of its gain and the damping over the inertia change the rate, and the new rate turns the heading up to whole turns |
| BoatModels.VoyageBounded | sim/headingSimulator.cpp:510-544 | for every impulse sequence and every bound at which damping balances the drive and one step is short, the yaw rate stays within the bound, the tiller within its stops, the heading in [0, 360) |
| ClosedLoop.SimulationEngine.Tick | sim/headingSimulator.cpp:608-625 | rounded compass course to the controller, its intent to the tiller, one step of the boat |
| ClosedLoop.RunSimulation | sim/headingSimulator.cpp:604-625 | refinement: the controller and boat objects driven together record the headings of the loop model, pass by pass |
| ClosedLoop.LoopIsRunAndVoyage | sim/headingSimulator.cpp:608-625 | in every loop run the controller makes a run, on courses in 0..359 if the target is one, and the boat a voyage, so the results on both apply |
| ClosedLoop.LoopStartsAtRest | sim/headingSimulator.cpp:496-508 | a loop run starts at rest, the tiller amidships, on the initial heading up to whole turns |
| ClosedLoop.CompassIsNearest | sim/headingSimulator.cpp:609-612 | the course given to the controller is the nearest degree on the circle, half degrees up |
| ClosedLoop.PassesObeyLaw | sim/headingSimulator.cpp:608-625 | every pass of every loop run: a tick on the nearest course; a starboard impulse of strength n moves the tiller n steps up and a port one n steps down, as far as the stops; then one Euler step under the tiller so moved |
| ClosedLoop.LoopBounded | sim/headingSimulator.cpp:510-544 | every loop run keeps the boat within every rate bound that meets the limit |
| ClosedLoop.TillerMovesWithImpulses | sim/headingSimulator.cpp:604-625 | between any two moments the tiller moves by at most 100 steps per impulse emitted between them |
| HeadingUnwrap.UnwrapDegrees | sim/plots/plot_drift.py:80-96 | the loop computes every value plus the sum of its jump corrections |
| HeadingUnwrap.UnwrapRecoversIff | sim/plots/plot_drift.py:80-96 | unwrapping returns the track exactly when every step is shorter than a half turn, or is a half turn that did not cross north |
| HeadingUnwrap.UnwrapRecoversVoyage | sim/plots/plot_drift.py:80-96 | for every voyage below a half turn per pass, unwrapping gives first heading plus the sum of omega times dt |
| HeadingUnwrap.BoundedVoyageIsRecoverable | sim/headingSimulator.cpp:541-543 | the rate limit and a short time step make every voyage recoverable |
| NmeaFramer.SentenceBuffer.constructor | src/drivers/gpsDriver.cpp:162-209 | an empty framer waits for a sentence to begin |
| NmeaFramer.SentenceBuffer.ConsumeByte | src/drivers/gpsDriver.cpp:162-209 | one byte over the fixed buffer equals one step of the framer; every write stays inside the 128 bytes |
| NmeaFramer.SentenceBuffer.ConsumeUartData | src/drivers/gpsDriver.cpp:149-159 | one read is the bytes fed one by one |
| NmeaFramer.ReceiveAll | src/drivers/gpsDriver.cpp:149-209 | the deliveries depend on the concatenation of the chunks only |
| NmeaFramer.Chunks | src/drivers/gpsDriver.cpp:149-159 | state and deliveries compose over concatenation |
| NmeaFramer.FramerDeliversSentences | src/drivers/gpsDriver.cpp:162-209 | for arbitrary bytes the deliveries are those of a definition that cuts the whole stream at every '$', with no state; over-long and cut-off sentences are dropped whole |
| NmeaFramer.EncodedSentencesArrive | src/drivers/gpsDriver.cpp:162-209 | round trip: encoded sentences with noise between them arrive as exactly that list |
| NmeaFramer.SentenceArrivesIff | src/drivers/gpsDriver.cpp:162-209 | a sentence arrives exactly if it has at most 126 characters after the '$' |
| NmeaFramer.SplitSentence | src/drivers/gpsDriver.cpp:184-197 | a carriage return inside a sentence does not count, and a NUL ends what is handed on |
| NmeaFramer.CutOffIsDropped | src/drivers/gpsDriver.cpp:170-182 | what was begun before a new '$' is dropped, and so are bytes outside of sentences |
| NmeaFramer.DeliveriesWellFramed | src/drivers/gpsDriver.cpp:162-209 | whatever the stream, every delivery starts with '$', fits the buffer and holds no CR, LF, NUL or second '$' |
| NmeaPipeline.NmeaQueue.SendToBack | src/drivers/gpsDriver.cpp:103-106 | appends unless ten are queued |
| NmeaPipeline.NmeaQueue.Receive | src/logging/logger.cpp:49-52 | takes the oldest, if any |
| NmeaPipeline.ConsumeSentence | src/drivers/gpsDriver.cpp:98-106 | only a checked sentence that meets room enters the queue |
| NmeaPipeline.Logger.ReadQueues | src/logging/logger.cpp:40-54 | undisturbed, one round moves the whole queue in order into the held sentences |
| NmeaPipeline.Logger.Log | src/logging/logger.cpp:56-81 | prints the status, every held sentence on a tagged line, and the rule; nothing when logging is switched off |
| NmeaPipeline.Logger.Round | src/logging/logger.cpp:7-14 | one undisturbed round prints what was queued, unless logging is switched off, and leaves the queue empty |
| NmeaPipeline.ConsumeGpsByte | src/drivers/gpsDriver.cpp:162-209 | the GPS task's code does the byte step of the two-task model to its buffer and the queue |
| NmeaPipeline.UndisturbedRound | src/logging/logger.cpp:40-81 | the logger's steps of the two-task model, undisturbed, print the text of one round of its code and empty the queue |
| NmeaPipeline.OffersAreDelivered | src/drivers/gpsDriver.cpp:90-209 | under every interleaving of bytes and logger steps, the queue is offered the checked ones of the framer's deliveries |
| NmeaPipeline.NothingElseIsLost | src/logging/logger.cpp:40-81 | under every interleaving, printed then held then queued sentences are the offered ones in order, each once, without those that met a full queue |
| NmeaPipeline.TakenSnoc | src/drivers/gpsDriver.cpp:103-106 | only an offer that met ten waiting sentences is lost |
| NmeaPipeline.PrintedText | src/logging/logger.cpp:75-80 | every held sentence is printed as its own line after the tag, before a rule of sixty signs |
| NmeaPipeline.RouterSendsPrinted | logRouter/logRouter.cpp:115-140 | the router sends exactly the printed sentences, in order, whatever the interleaving |
| NmeaPipeline.RoundIsRouted | src/logging/logger.cpp:56-81 | one undisturbed round of the logger is routed as exactly the sentences it held |
| NmeaPipeline.BytesToDatagrams | src/drivers/gpsDriver.cpp:90-209 | end to end, for every interleaving of GPS bytes with logger steps: the offers are the checked sentences of the byte stream, only those that met a full queue are lost, and the datagrams are the printed ones in order |
| LogRouter.ExtractNmea | logRouter/logRouter.cpp:52-79 | the trimming loop and the cut after the checksum compute the extraction function |
| LogRouter.Route | logRouter/logRouter.cpp:112-140 | the loop with its line buffer sends what a line-by-line definition of the whole stream says |
| LogRouter.ExtractRecoversIff | logRouter/logRouter.cpp:52-79 | a tagged sentence comes out unchanged exactly when it ends in no padding and within two characters of its first star |
| LogRouter.FindIsFirst | logRouter/logRouter.cpp:54-60 | the tag is found wherever there is one, at its first occurrence |
| LogRouter.ChecksumEndsSentence | logRouter/logRouter.cpp:54-76 | text before the tag and after the checksum is dropped |
| LogRouter.PaddingIsDropped | logRouter/logRouter.cpp:62-76 | a sentence without text after its checksum, or without one, is kept up to the padding after it |
| LogRouter.OtherTextIsDropped | logRouter/logRouter.cpp:67-70 | tagged text that begins with neither '$' nor '!' yields nothing |
| LogRouter.LineLaw | logRouter/logRouter.cpp:123-139 | a line that has not ended is held back, carriage returns do not count, and lines are worth what each is worth alone |
| LogRouter.PrintedLineIsRecovered | logRouter/logRouter.cpp:52-79 | such a printed line is worth exactly its sentence, whatever follows |
| LogRouter.QuietTextIsSkipped | logRouter/logRouter.cpp:54-58 | complete lines without the tag are worth nothing |
| PixelGrid.BlockAt | src/ui/uiContent.cpp:327-341 | a block shows its colour inside its box as far as on the screen and leaves every other pixel |
| PixelGrid.ColumnsAt | src/ui/uiContent.cpp:343-357 | drawn column by column it shows the same |
| PixelGrid.GlyphAt | src/ui/uiContent.cpp:285-305 | a drawn glyph shows its scaled bits in its box, clipped to the screen, and leaves every other pixel |
| PixelGrid.TextAt | src/ui/uiContent.cpp:307-325 | for every ASCII text and scale, a pixel shows the glyph bit computed from its offset alone if it lies in a glyph box, and is unchanged otherwise: no later character overwrites an earlier box |
| PixelGrid.DotIsShown | src/ui/uiContent.cpp:285-325 | in numbers: with the scale for 1..9 and else 1 as dot, every pixel of dot (col, row) of the k-th character, k times 16 dots plus three times the asked scale to the right, shows bit col of row of its glyph |
| PixelGrid.OtherPixelIsKept | src/ui/uiContent.cpp:307-325 | every pixel outside those boxes of sixteen dots by sixteen is as it was |
| PackedBits.SetBit | src/ui/uiContent.cpp:279-280 | setting a packed bit lights its pixel and no other of the byte |
| PackedBits.ClearBit | src/ui/uiContent.cpp:281-282 | clearing a packed bit darkens its pixel and no other of the byte |
| PackedBits.LitIsMasked | include/ui/framebufferAdapter.h:26-28 | the pixels of a byte are its bits from the highest to the lowest |
| PackedBits.UnpackWritten | src/ui/uiContent.cpp:270-282 | writing one bit changes exactly one pixel of the unpacked image |
| Framebuffer.PixelIsPainted | src/ui/uiContent.cpp:270-282 | the byte and bit of a pixel are inside the buffer, and writing them paints that pixel of the grid |
| Framebuffer.UIContent.constructor | src/ui/uiContent.cpp:12-18 | the buffer has room for every pixel and is blank |
| Framebuffer.UIContent.Clear | src/ui/uiContent.cpp:68-72 | the grid is blank |
| Framebuffer.UIContent.SetPixel | src/ui/uiContent.cpp:265-283 | paints one pixel of the grid, off-screen coordinates none |
| Framebuffer.UIContent.DrawChar | src/ui/uiContent.cpp:285-305 | the four nested loops paint the scaled glyph |
| Framebuffer.UIContent.DrawText | src/ui/uiContent.cpp:307-325 | the cursor loop paints the text |
| Framebuffer.UIContent.DrawHorizontalLine | src/ui/uiContent.cpp:327-341 | paints the block row by row; a negative size paints nothing |
| Framebuffer.UIContent.DrawVerticalLine | src/ui/uiContent.cpp:343-357 | paints the block column by column; a negative size paints nothing |
| Framebuffer.ARGBAdapter.constructor | include/ui/framebufferAdapter.h:10-14 | an opaque black image of the right size |
| Framebuffer.ARGBAdapter.Convert | include/ui/framebufferAdapter.h:16-33 | white exactly at the lit bits, in order; with too few bytes the image stays as it was |
| Framebuffer.PictureAt | src/ui/uiContent.cpp:265-357 | after any list of drawing commands a pixel shows what the last command covering it says, and is dark if none does |
| Framebuffer.EraseShows | src/ui/uiContent.cpp:68-72 | after an erasure every pixel is dark |
| Framebuffer.HorizontalLineShows | src/ui/uiContent.cpp:327-341 | in numbers, the pixels that one more horizontal line changes |
| Framebuffer.VerticalLineShows | src/ui/uiContent.cpp:343-357 | in numbers, the pixels that one more vertical line changes |
| Framebuffer.TextShows | src/ui/uiContent.cpp:307-325 | in numbers, what every dot of one more text shows |
| Framebuffer.Render | src/ui/uiContent.cpp:53-66 | drawing any list of commands into the packed buffer and converting it makes every pixel opaque white where the last command covering it lights it, and opaque black elsewhere |

## Left out

- Hardware and operating system calls (ESP-IDF, FreeRTOS tasks, UART, I2C, LEDC, SDL, serial and UDP sockets).
  The queue is a bounded FIFO, one read of the UART is a parameter, and the checksum library is a predicate of
  which only this is assumed, where it is needed: an accepted sentence ends in its only star and two
  hexadecimal digits.
- A UART read that fails and is treated as a byte count, and reads longer than the UART buffer.
- The dispatch on sentence types after the queue and the telemetry it fills; the parsing is library code.
- The logger's status message: its lines are a parameter that holds no sentence tag. In the model of both tasks
  logging is switched on. The router's echo to its own console.
- Float rounding, infinities, NaN, and loops that would not end on floats. `std::isfinite` is always true on reals.
- The sine itself, and time steps that change during a run.
- JSON loading, CSV and snapshot writing, plotting and dependency installation; only the loader's range checks
  appear, as types and validity predicates.
- Diagnostics, source handling, the system controller, the data store, sensor models and the PWM driver: small
  decision tables, pass-throughs or unfinished code.
- The contents of the font table, the screen layout, and text that is not ASCII, for which the font has no glyph.
- Overflow of the `int` cursor on very long texts.
- The `update` overload of the observation buffer that is declared but never defined.
- Turning the filtered impulse into pulse durations.
- NmeaPipeline.Logger.ReadQueues: leaves out the peek at the status message, and states the round that the GPS task
  does not disturb; disturbed rounds are steps of the two-task model.
- NmeaPipeline.Logger.Log: takes the status lines as a parameter, because their content comes from sensor data
  outside this model.
- GuardRedundancy.ActsIff: is stated where the times of its witness run fit the 32-bit clock.
- GuardRedundancy.FlipFlopMattersIff: covers controllers whose counter is due on a fall of the error from 179 to 0
  over the fewest samples; a counter that only longer evidence or another fall could trigger is not covered. The
  times of its witness run fit the 32-bit clock.
- CooldownBypass.CooldownBreaksIff: covers the same controllers, on the same clock.
