/** Runs built on purpose: observations as early as the guards allow them, first of one error
    until a regular impulse is due, then of a falling one until a counter impulse is due. */
module SteadyRuns {
  import opened MachineInts
  import opened RealProducts
  import opened RegulationConfig
  import opened HeadingError
  import opened OrderStatistics
  import opened Evidence
  import opened SteeringGuard
  import opened ControllerSpec
  import opened ControllerRuns
  import opened ImpulseSpacing
  import opened ErrorRate
  import opened EvidenceMeaning
  import opened Progress

  type CompassError = e: int | -180 <= e <= 179

  /** An input at this time with this heading error. */
  function CourseAt(clock: nat, e: CompassError): (i: Input)
    ensures i.heading < 360 && i.target < 360 && i.clock == clock
  {
    Input(clock, 180, 180 + e)
  }

  lemma {:induction false} CourseHasError(clock: nat, e: CompassError)
    ensures ErrorOf(CourseAt(clock, e)) == e
  {
    hide CalculateError;
    ErrorIsShortestRotation(180, 180 + e);
    HalfOpenTurnIsUnique(CalculateError(180, 180 + e), e, e, e, 0);
  }

  lemma {:induction false} RunOfSnoc(cfg: Config, front: seq<Input>, clock: nat, e: CompassError)
    ensures Run(cfg, front + [CourseAt(clock, e)]) == StepOn(cfg, Run(cfg, front), CourseAt(clock, e), e)
  {
    hide StepOn, CourseAt, ErrorOf;
    RunAppend(cfg, front, CourseAt(clock, e));
    CourseHasError(clock, e);
  }

  lemma {:induction false} MonotoneSnoc(front: seq<Input>, i: Input)
    requires Monotone(front) && (front != [] ==> front[|front| - 1].clock <= i.clock)
    ensures Monotone(front + [i])
  {
  }

  function SideOf(e: int): Direction {
    if e > 0 then Starboard else Portside
  }

  // ---- Up to the first impulse

  /** The controller can act on this error. */
  ghost predicate CanActOn(cfg: Config, e: int) {
    Needed(cfg) < cfg.ActiveBufferSize() && Abs(e) > cfg.steeringTolerance
  }

  /** The first n observations after a delay, each at its earliest time. */
  function Steady(cfg: Config, e: CompassError, delay: nat, n: nat): (inputs: seq<Input>)
    ensures |inputs| == n
  {
    if n == 0 then [] else Steady(cfg, e, delay, n - 1) + [CourseAt(delay + EvidenceTime(cfg, n), e)]
  }

  lemma {:induction false} SteadyInputs(cfg: Config, e: CompassError, delay: nat, n: nat)
    ensures Monotone(Steady(cfg, e, delay, n)) && CompassInputs(Steady(cfg, e, delay, n))
    ensures n > 0 ==> Steady(cfg, e, delay, n)[n - 1].clock == delay + EvidenceTime(cfg, n)
  {
    hide EvidenceTime, Monotone;
    if n > 1 {
      SteadyInputs(cfg, e, delay, n - 1);
      EvidenceTimeMonotone(cfg, n - 1, n);
      MonotoneSnoc(Steady(cfg, e, delay, n - 1), CourseAt(delay + EvidenceTime(cfg, n), e));
    } else {
      ShortIsMonotone(Steady(cfg, e, delay, n));
    }
  }

  lemma {:induction false} ShortIsMonotone(inputs: seq<Input>)
    requires |inputs| <= 1
    ensures Monotone(inputs)
  {
  }

  /** n errors of this size accepted, all in the window, none acted on. */
  ghost predicate Idle(e: int, n: nat, h: History) {
    && h.emissions == [] && |h.state.window| == n
    && (forall k :: 0 <= k < n ==> h.state.window[k].error == e)
  }

  ghost predicate OnTime(cfg: Config, delay: nat, n: nat, h: History) {
    n > 0 ==> AcceptedClock(h.accepted) == delay + EvidenceTime(cfg, n)
  }

  lemma {:induction false} SteadyUnblocked(cfg: Config, e: int, delay: nat, n: nat, h: History)
    requires Idle(e, n, h) && OnTime(cfg, delay, n, h) && Digest(h)
    requires n == 0 ==> h.accepted == []
    requires delay + EvidenceTime(cfg, n + 1) < WORD
    ensures !ObservationBlocked(cfg, h.state.lastObsUpdate, h.state.lastIntent, Low32(delay + EvidenceTime(cfg, n + 1)))
  {
    var clock := delay + EvidenceTime(cfg, n + 1);
    EvidenceTimeMonotone(cfg, 1, n + 1);
    if n > 0 {
      assert clock == AcceptedClock(h.accepted) + cfg.minimumTimeBtwObs;
    }
    ElapsedNeverOverstates(AcceptedClock(h.accepted), clock);
    ElapsedNeverOverstates(0, clock);
  }

  lemma {:induction false} IdleObserves(cfg: Config, e: int, n: nat, h: History, i: Input)
    requires Idle(e, n, h) && n + 1 < cfg.ActiveBufferSize() && Abs(e) > cfg.steeringTolerance
    ensures var s := Observed(cfg, Feed(h.state, i), e, Low32(i.clock));
            && s.window == h.state.window + [Observation(e, Low32(i.clock))]
            && s.lastIntent == h.state.lastIntent
            && OneSided(cfg, SideOf(e), Errors(s.window))
  {
    hide MedianOf;
  }

  /** One more such error acts if and only if it completes the evidence and the cooldown,
      counted from the start of the clock, is over. */
  lemma {:induction false} IdleDecides(cfg: Config, e: int, n: nat, h: History, i: Input)
    requires Idle(e, n, h) && Digest(h) && i.clock < WORD && n < Needed(cfg) && CanActOn(cfg, e)
    ensures var d := Decide(cfg, Observed(cfg, Feed(h.state, i), e, Low32(i.clock)), Low32(i.clock));
            if n + 1 == Needed(cfg) && i.clock >= cfg.steeringCooldown
            then d.Regular? && d.intent.dir == SideOf(e) else d.NoIntent?
  {
    hide RegularImpulse, RateOver, MedianOf, Choose, OneSided;
    var s := Observed(cfg, Feed(h.state, i), e, Low32(i.clock));
    IdleObserves(cfg, e, n, h, i);
    ElapsedNeverOverstates(0, i.clock);
    OneSidedDecision(cfg, SideOf(e), s, Low32(i.clock));
  }

  lemma {:induction false} IdleStep(cfg: Config, e: int, n: nat, h: History, i: Input)
    requires Idle(e, n, h) && Digest(h) && i.clock < WORD && n + 1 < Needed(cfg) && CanActOn(cfg, e)
    requires !ObservationBlocked(cfg, h.state.lastObsUpdate, h.state.lastIntent, Low32(i.clock))
    ensures var after := StepOn(cfg, h, i, e);
            Idle(e, n + 1, after) && AcceptedClock(after.accepted) == i.clock
  {
    hide RegularImpulse, RateOver, MedianOf, Choose;
    IdleObserves(cfg, e, n, h, i);
    IdleDecides(cfg, e, n, h, i);
  }

  /** One regular impulse toward this side at this time, and the window consumed by it. */
  ghost predicate Fired(side: Direction, clock: nat, h: History) {
    && FirstImpulse(side, clock, h.emissions)
    && h.state.window == [] && AcceptedClock(h.accepted) == clock
  }

  ghost predicate FirstImpulse(side: Direction, clock: nat, e: seq<Emission>) {
    |e| == 1 && e[0].clock == clock && e[0].decision.Regular? && e[0].decision.intent.dir == side
  }

  lemma {:induction false} LastIdleStep(cfg: Config, e: int, h: History, i: Input)
    requires Idle(e, Needed(cfg) - 1, h) && Digest(h) && i.clock < WORD && CanActOn(cfg, e)
    requires !ObservationBlocked(cfg, h.state.lastObsUpdate, h.state.lastIntent, Low32(i.clock))
    ensures if i.clock >= cfg.steeringCooldown then Fired(SideOf(e), i.clock, StepOn(cfg, h, i, e))
            else StepOn(cfg, h, i, e).emissions == []
  {
    hide RegularImpulse, RateOver, MedianOf, Choose;
    IdleDecides(cfg, e, Needed(cfg) - 1, h, i);
  }

  /** Below the needed count the steady run has every observation accepted and acts on none. */
  ghost predicate Piling(cfg: Config, e: int, delay: nat, n: nat, h: History) {
    && Idle(e, n, h) && OnTime(cfg, delay, n, h) && Digest(h)
    && (n == 0 ==> h.accepted == [])
  }

  lemma {:induction false} SteadyPiles(cfg: Config, e: CompassError, delay: nat, n: nat)
    requires n < Needed(cfg) && CanActOn(cfg, e)
    requires n > 0 ==> delay + EvidenceTime(cfg, n) < WORD
    ensures Piling(cfg, e, delay, n, Run(cfg, Steady(cfg, e, delay, n)))
    decreases n, 0
  {
    hide StepOn, Step, EvidenceTime, Digest, Idle, CanActOn;
    RunExplained(cfg, Steady(cfg, e, delay, n));
    if n == 0 {
      BootIsIdle(e);
    } else {
      SteadyPilesBefore(cfg, e, delay, n);
      var front, clock := Steady(cfg, e, delay, n - 1), delay + EvidenceTime(cfg, n);
      SteadyUnblocked(cfg, e, delay, n - 1, Run(cfg, front));
      IdleStep(cfg, e, n - 1, Run(cfg, front), CourseAt(clock, e));
      RunOfSnoc(cfg, front, clock, e);
    }
  }

  lemma {:induction false} SteadyPilesBefore(cfg: Config, e: CompassError, delay: nat, n: nat)
    requires 1 <= n <= Needed(cfg) && CanActOn(cfg, e)
    requires delay + EvidenceTime(cfg, n) < WORD
    ensures Piling(cfg, e, delay, n - 1, Run(cfg, Steady(cfg, e, delay, n - 1)))
    decreases n - 1, 1
  {
    hide Run, Steady, Piling, CanActOn, EvidenceTime;
    if n > 1 {
      EvidenceTimeMonotone(cfg, n - 1, n);
    }
    SteadyPiles(cfg, e, delay, n - 1);
  }

  lemma {:induction false} BootIsIdle(e: int)
    ensures Idle(e, 0, BOOT)
  {
  }

  /** The time of the impulse of a steady run. */
  function ImpulseTime(cfg: Config, delay: nat): nat {
    delay + EvidenceTime(cfg, Needed(cfg))
  }

  /** The Needed-th steady observation acts if and only if the cooldown is over. */
  lemma {:induction false} SteadyActsIff(cfg: Config, e: CompassError, delay: nat)
    requires CanActOn(cfg, e) && ImpulseTime(cfg, delay) < WORD
    ensures var h := Run(cfg, Steady(cfg, e, delay, Needed(cfg)));
            if ImpulseTime(cfg, delay) >= cfg.steeringCooldown then Fired(SideOf(e), ImpulseTime(cfg, delay), h)
            else h.emissions == []
  {
    hide StepOn, Run, EvidenceTime, Digest, Idle, Fired;
    var n, clock := Needed(cfg), ImpulseTime(cfg, delay);
    var front := Steady(cfg, e, delay, n - 1);
    SteadyPilesBefore(cfg, e, delay, n);
    SteadyUnblocked(cfg, e, delay, n - 1, Run(cfg, front));
    LastIdleStep(cfg, e, Run(cfg, front), CourseAt(clock, e));
    RunOfSnoc(cfg, front, clock, e);
  }

  // ---- From the first impulse to a counter impulse

  /** Omega over the samples a counter needs spans this time at least. */
  function OmegaTime(cfg: Config): (t: nat)
    requires cfg.omegaRobust >= 2
    ensures t > 0
  {
    Max(1, Span(cfg, Min(CounterNeeded(cfg), cfg.omegaRobust) - 1))
  }

  /** Both kinds of evidence fit below the capacity, errors of both sides can exceed the
      tolerance, and a fall of the error from 179 to 0 is fast enough for a counter. */
  ghost predicate CanCounter(cfg: Config) {
    && Needed(cfg) < cfg.ActiveBufferSize() && CounterNeeded(cfg) < cfg.ActiveBufferSize()
    && cfg.steeringTolerance < 179 && cfg.omegaRobust >= 2
    && cfg.omegaThresholdForCounter * OmegaTime(cfg) as real <= 179000.0
  }

  /** No regular impulse can come before the counter. */
  ghost predicate CounterComesFirst(cfg: Config) {
    CounterNeeded(cfg) <= Needed(cfg) || CounterGap(cfg) < cfg.steeringCooldown
  }

  /** m errors of 179 after an impulse, each as early as allowed. */
  function Burst(cfg: Config, impulse: nat, m: nat): (w: Window)
    ensures |w| == m
  {
    seq(m, j requires 0 <= j < m => Observation(179, Low32(impulse + EvidenceTime(cfg, j + 1))))
  }

  /** They are in the window, and nothing was emitted since the impulse. */
  ghost predicate Waiting(cfg: Config, side: Direction, impulse: nat, m: nat, h: History) {
    && FirstImpulse(side, impulse, h.emissions)
    && h.state.window == Burst(cfg, impulse, m)
    && AcceptedClock(h.accepted) == impulse + if m == 0 then 0 else EvidenceTime(cfg, m)
  }

  lemma {:induction false} WaitingUnblocked(cfg: Config, side: Direction, impulse: nat, m: nat, h: History, clock: nat)
    requires Waiting(cfg, side, impulse, m, h) && Digest(h)
    requires impulse + EvidenceTime(cfg, m + 1) <= clock < WORD
    ensures !ObservationBlocked(cfg, h.state.lastObsUpdate, h.state.lastIntent, Low32(clock))
  {
    EvidenceTimeMonotone(cfg, 1, m + 1);
    ElapsedNeverOverstates(AcceptedClock(h.accepted), clock);
    ElapsedNeverOverstates(impulse, clock);
  }

  lemma {:induction false} WaitingObserves(cfg: Config, side: Direction, impulse: nat, m: nat, h: History)
    requires Waiting(cfg, side, impulse, m, h) && CanCounter(cfg) && m + 1 < CounterNeeded(cfg)
    ensures var i := CourseAt(impulse + EvidenceTime(cfg, m + 1), 179);
            var s := Observed(cfg, Feed(h.state, i), 179, Low32(i.clock));
            && s.window == Burst(cfg, impulse, m + 1) && s.lastIntent == h.state.lastIntent
            && OneSided(cfg, Starboard, Errors(s.window))
  {
    hide MedianOf, EvidenceTime;
    var i := CourseAt(impulse + EvidenceTime(cfg, m + 1), 179);
    assert Burst(cfg, impulse, m + 1) == Burst(cfg, impulse, m) + [Observation(179, Low32(i.clock))];
  }

  lemma {:induction false} WaitingStep(cfg: Config, side: Direction, impulse: nat, m: nat, h: History)
    requires Waiting(cfg, side, impulse, m, h) && Digest(h)
    requires CanCounter(cfg) && CounterComesFirst(cfg) && m + 1 < CounterNeeded(cfg)
    requires impulse + EvidenceTime(cfg, m + 1) < WORD
    ensures Waiting(cfg, side, impulse, m + 1,
                    StepOn(cfg, h, CourseAt(impulse + EvidenceTime(cfg, m + 1), 179), 179))
  {
    hide RegularImpulse, RateOver, MedianOf, Choose, OneSided, EvidenceTime, CanCounter, Burst, ObservationBlocked;
    var i := CourseAt(impulse + EvidenceTime(cfg, m + 1), 179);
    WaitingUnblocked(cfg, side, impulse, m, h, i.clock);
    WaitingObserves(cfg, side, impulse, m, h);
    WaitingIsNotDue(cfg, impulse, m);
    OneSidedDecision(cfg, Starboard, Observed(cfg, Feed(h.state, i), 179, Low32(i.clock)), Low32(i.clock));
  }

  lemma {:induction false} WaitingIsNotDue(cfg: Config, impulse: nat, m: nat)
    requires CounterComesFirst(cfg) && m + 1 < CounterNeeded(cfg)
    requires impulse + EvidenceTime(cfg, m + 1) < WORD
    ensures m + 1 < cfg.minimumSampleSize
         || Elapsed(Low32(impulse + EvidenceTime(cfg, m + 1)), Low32(impulse)) < cfg.steeringCooldown
  {
    ElapsedNeverOverstates(impulse, impulse + EvidenceTime(cfg, m + 1));
    SpanMonotone(cfg, m, CounterNeeded(cfg) - 1);
  }

  /** A steady run to a first impulse, then m errors of 179 as early as allowed. */
  function Story(cfg: Config, e: CompassError, delay: nat, m: nat): (inputs: seq<Input>) {
    if m == 0 then Steady(cfg, e, delay, Needed(cfg))
    else Story(cfg, e, delay, m - 1) + [CourseAt(ImpulseTime(cfg, delay) + EvidenceTime(cfg, m), 179)]
  }

  /** The delay lets every cooldown that counts from the start of the clock pass, and all times
      fit the 32-bit clock. */
  ghost predicate StoryFits(cfg: Config, delay: nat) {
    && cfg.steeringCooldown <= ImpulseTime(cfg, delay)
    && cfg.counterCooldown <= ImpulseTime(cfg, delay)
    && ImpulseTime(cfg, delay) + CounterGap(cfg) < WORD
  }

  lemma {:induction false} StoryWaits(cfg: Config, e: CompassError, delay: nat, m: nat)
    requires CanCounter(cfg) && CounterComesFirst(cfg) && Abs(e) > cfg.steeringTolerance
    requires StoryFits(cfg, delay) && m < CounterNeeded(cfg)
    ensures Waiting(cfg, SideOf(e), ImpulseTime(cfg, delay), m, Run(cfg, Story(cfg, e, delay, m)))
  {
    hide StepOn, Run, EvidenceTime, Digest, Waiting, ImpulseTime, CounterComesFirst, Steady;
    var impulse := ImpulseTime(cfg, delay);
    if m == 0 {
      SteadyActsIff(cfg, e, delay);
      FiredWaits(cfg, SideOf(e), impulse, Run(cfg, Steady(cfg, e, delay, Needed(cfg))));
    } else {
      var front := Story(cfg, e, delay, m - 1);
      StoryWaits(cfg, e, delay, m - 1);
      RunExplained(cfg, front);
      GapCovers(cfg, m);
      WaitingStep(cfg, SideOf(e), impulse, m - 1, Run(cfg, front));
      RunOfSnoc(cfg, front, impulse + EvidenceTime(cfg, m), 179);
    }
  }

  lemma {:induction false} FiredWaits(cfg: Config, side: Direction, impulse: nat, h: History)
    requires Fired(side, impulse, h)
    ensures Waiting(cfg, side, impulse, 0, h)
  {
  }

  lemma {:induction false} GapCovers(cfg: Config, m: nat)
    requires 1 <= m < CounterNeeded(cfg)
    ensures EvidenceTime(cfg, m) + cfg.minimumTimeBtwObs <= EvidenceTime(cfg, m + 1) <= CounterGap(cfg)
  {
    SpanMonotone(cfg, m, CounterNeeded(cfg) - 1);
  }

  /** The whole run: the last error is 0. */
  function CounterRun(cfg: Config, e: CompassError, delay: nat): seq<Input> {
    Story(cfg, e, delay, CounterNeeded(cfg) - 1) + [CourseAt(ImpulseTime(cfg, delay) + CounterGap(cfg), 0)]
  }

  /** The samples of the counter run fall fast enough, ending on target. */
  lemma {:induction false} FallingBurst(cfg: Config, impulse: nat)
    requires CanCounter(cfg) && impulse + CounterGap(cfg) < WORD
    ensures var w := Burst(cfg, impulse, CounterNeeded(cfg) - 1) + [Observation(0, Low32(impulse + CounterGap(cfg)))];
            && Median(w) > 0
            && Omega(cfg.omegaRobust, w) > 0.0 && Omega(cfg.omegaRobust, w) >= cfg.omegaThresholdForCounter
  {
    hide MedianOf, RateOver, EvidenceTime, CanCounter, CounterGap;
    var n := CounterNeeded(cfg);
    var w := Burst(cfg, impulse, n - 1) + [Observation(0, Low32(impulse + CounterGap(cfg)))];
    AlmostAllPositive(Errors(w));
    MedianPositiveIff(Errors(w));
    FallIsFast(cfg, impulse, w);
  }

  lemma {:induction false} AlmostAllPositive(errors: seq<int>)
    requires |errors| >= 2 && errors[|errors| - 1] == 0
    requires forall i :: 0 <= i < |errors| - 1 ==> errors[i] > 0
    ensures Positives(errors) == |errors| - 1 && Negatives(errors) == 0
  {
    var front := errors[..|errors| - 1];
    BelowEmpty(front, 1);
    BelowEmpty(errors, 0);
  }

  lemma {:induction false} FallIsFast(cfg: Config, impulse: nat, w: Window)
    requires CanCounter(cfg) && impulse + CounterGap(cfg) < WORD
    requires w == Burst(cfg, impulse, CounterNeeded(cfg) - 1) + [Observation(0, Low32(impulse + CounterGap(cfg)))]
    ensures Omega(cfg.omegaRobust, w) > 0.0 && Omega(cfg.omegaRobust, w) >= cfg.omegaThresholdForCounter
  {
    hide Rate, RateOver, OmegaTime, CounterGap, EvidenceTime;
    var recent := Last(w, cfg.omegaRobust);
    var first := |w| - |recent|;
    assert recent[0] == Burst(cfg, impulse, CounterNeeded(cfg) - 1)[first];
    assert recent[|recent| - 1] == Observation(0, Low32(impulse + CounterGap(cfg)));
    FallTime(cfg, first + 1);
    LowIsExact(impulse + EvidenceTime(cfg, first + 1));
    LowIsExact(impulse + CounterGap(cfg));
    RateOverEnds(recent);
    RateOfFall(OmegaTime(cfg), cfg.omegaThresholdForCounter);
  }

  lemma {:induction false} LowIsExact(clock: nat)
    requires clock < WORD
    ensures Low32(clock) == clock
  {
  }

  lemma {:induction false} FallTime(cfg: Config, j: nat)
    requires cfg.omegaRobust >= 2 && j == CounterNeeded(cfg) - Min(CounterNeeded(cfg), cfg.omegaRobust) + 1
    ensures CounterGap(cfg) - EvidenceTime(cfg, j) == OmegaTime(cfg)
  {
    SpanAdds(cfg, j - 1, Min(CounterNeeded(cfg), cfg.omegaRobust) - 1);
    SpanOfNothing(cfg, CounterNeeded(cfg) - 1);
    SpanOfNothing(cfg, j - 1);
  }

  lemma {:induction false} SpanAdds(cfg: Config, a: nat, b: nat)
    ensures Span(cfg, a + b) == Span(cfg, a) + Span(cfg, b)
  {
    if b > 0 {
      SpanAdds(cfg, a, b - 1);
    }
  }

  lemma {:induction false} SpanOfNothing(cfg: Config, n: nat)
    ensures if cfg.minimumTimeBtwObs == 0 then Span(cfg, n) == 0 else n > 0 ==> Span(cfg, n) >= 1
  {
    if n > 0 {
      SpanOfNothing(cfg, n - 1);
    }
  }

  lemma {:induction false} RateOfFall(span: nat, threshold: real)
    requires span > 0 && threshold * span as real <= 179000.0
    ensures Rate(-179, span) > 0.0 && Rate(-179, span) >= threshold
  {
    var rate := Rate(-179, span);
    assert rate * span as real == 179000.0;
    SignOfProduct(rate, span as real);
    CancelFactor(threshold, rate, span as real);
  }

  /** Past the counter cooldown, the last error of the counter run calls for a counter impulse,
      unless it comes within the flip-flop guard of an impulse to port. */
  lemma {:induction false} CounterIsDue(cfg: Config, side: Direction, impulse: nat, s: State)
    requires CanCounter(cfg) && impulse + CounterGap(cfg) < WORD && cfg.counterCooldown <= impulse
    requires s.window == Burst(cfg, impulse, CounterNeeded(cfg) - 1) + [Observation(0, Low32(impulse + CounterGap(cfg)))]
    requires s.lastIntent == Low32(impulse) && s.lastCounterIntent == 0 && s.debug.error == 0
    requires s.lastIntentValue.Some? && s.lastIntentValue.value.dir == side
    ensures Decide(cfg, s, Low32(impulse + CounterGap(cfg))).Counter?
       <==> side == Starboard || cfg.counterTimerGuard <= CounterGap(cfg)
  {
    hide RegularImpulse, Median, RateOver, Omega, CanCounter, CounterGap, SmoothedError, IntentBlocked;
    FallingBurst(cfg, impulse);
    ElapsedNeverOverstates(impulse, impulse + CounterGap(cfg));
    ElapsedNeverOverstates(0, impulse + CounterGap(cfg));
  }

  lemma {:induction false} LastWaitingObserves(cfg: Config, side: Direction, impulse: nat, h: History)
    requires Waiting(cfg, side, impulse, CounterNeeded(cfg) - 1, h) && Digest(h) && CanCounter(cfg)
    ensures var i := CourseAt(impulse + CounterGap(cfg), 0);
            var s := Observed(cfg, Feed(h.state, i), 0, Low32(i.clock));
            && s.window == Burst(cfg, impulse, CounterNeeded(cfg) - 1) + [Observation(0, Low32(i.clock))]
            && s.lastIntent == Low32(impulse) && s.lastCounterIntent == 0 && s.debug.error == 0
            && s.lastIntentValue.Some? && s.lastIntentValue.value.dir == side
  {
    hide MedianOf, EvidenceTime, CounterGap, Burst, CounterClock, IntentValue;
    OneImpulse(side, impulse, h.emissions);
  }

  lemma {:induction false} OneImpulse(side: Direction, clock: nat, e: seq<Emission>)
    requires FirstImpulse(side, clock, e)
    ensures EmissionClock(e) == clock && CounterClock(e) == 0
    ensures IntentValue(e).Some? && IntentValue(e).value.dir == side
  {
  }

  /** The second impulse is a counter at this time. */
  ghost predicate Countered(clock: nat, e: seq<Emission>) {
    |e| == 2 && e[1].clock == clock && e[1].decision.Counter?
  }

  lemma {:induction false} LastWaitingStep(cfg: Config, side: Direction, impulse: nat, h: History)
    requires Waiting(cfg, side, impulse, CounterNeeded(cfg) - 1, h) && Digest(h)
    requires CanCounter(cfg) && impulse + CounterGap(cfg) < WORD && cfg.counterCooldown <= impulse
    ensures var e := StepOn(cfg, h, CourseAt(impulse + CounterGap(cfg), 0), 0).emissions;
            && h.emissions <= e
            && (Countered(impulse + CounterGap(cfg), e)
                <==> side == Starboard || cfg.counterTimerGuard <= CounterGap(cfg))
  {
    hide RegularImpulse, RateOver, MedianOf, Choose, EvidenceTime, CanCounter, Burst, ObservationBlocked, CounterGap, Digest;
    GapAfterBurst(cfg);
    WaitingUnblocked(cfg, side, impulse, CounterNeeded(cfg) - 1, h, impulse + CounterGap(cfg));
    LastWaitingObserves(cfg, side, impulse, h);
    var i := CourseAt(impulse + CounterGap(cfg), 0);
    CounterIsDue(cfg, side, impulse, Observed(cfg, Feed(h.state, i), 0, Low32(i.clock)));
  }

  lemma {:induction false} GapAfterBurst(cfg: Config)
    ensures EvidenceTime(cfg, CounterNeeded(cfg)) <= CounterGap(cfg)
  {
  }

  /** For every controller that can counter: the counter run ends in a counter impulse, at the
      least distance from the impulse before it, unless the flip-flop guard forbids it. */
  lemma {:induction false} CounterRunCountersIff(cfg: Config, e: CompassError, delay: nat)
    requires CanCounter(cfg) && CounterComesFirst(cfg) && Abs(e) > cfg.steeringTolerance && StoryFits(cfg, delay)
    ensures var emissions := Run(cfg, CounterRun(cfg, e, delay)).emissions;
            && |emissions| >= 1 && FirstImpulse(SideOf(e), ImpulseTime(cfg, delay), emissions[..1])
            && (Countered(ImpulseTime(cfg, delay) + CounterGap(cfg), emissions)
                <==> e > 0 || cfg.counterTimerGuard <= CounterGap(cfg))
  {
    hide Run, CanCounter, CounterComesFirst, EvidenceTime, CounterGap, ImpulseTime, StepOn, Story, Digest;
    var impulse, front := ImpulseTime(cfg, delay), Story(cfg, e, delay, CounterNeeded(cfg) - 1);
    StoryWaits(cfg, e, delay, CounterNeeded(cfg) - 1);
    RunExplained(cfg, front);
    LastWaitingStep(cfg, SideOf(e), impulse, Run(cfg, front));
    RunOfSnoc(cfg, front, impulse + CounterGap(cfg), 0);
  }

  lemma {:induction false} StoryInputs(cfg: Config, e: CompassError, delay: nat, m: nat)
    requires m < CounterNeeded(cfg)
    ensures var inputs := Story(cfg, e, delay, m);
            && Monotone(inputs) && CompassInputs(inputs) && inputs != []
            && inputs[|inputs| - 1].clock <= ImpulseTime(cfg, delay) + if m == 0 then 0 else EvidenceTime(cfg, m)
  {
    hide EvidenceTime, Monotone, Steady;
    if m == 0 {
      SteadyInputs(cfg, e, delay, Needed(cfg));
    } else {
      StoryInputs(cfg, e, delay, m - 1);
      if m > 1 {
        GapCovers(cfg, m - 1);
      }
      MonotoneSnoc(Story(cfg, e, delay, m - 1), CourseAt(ImpulseTime(cfg, delay) + EvidenceTime(cfg, m), 179));
    }
  }

  lemma {:induction false} CounterRunInputs(cfg: Config, e: CompassError, delay: nat)
    requires ImpulseTime(cfg, delay) + CounterGap(cfg) < WORD
    ensures var inputs := CounterRun(cfg, e, delay);
            Monotone(inputs) && CompassInputs(inputs) && BeforeWrap(inputs)
  {
    hide EvidenceTime, Monotone, Story, CounterGap, ImpulseTime;
    var front, i := Story(cfg, e, delay, CounterNeeded(cfg) - 1), CourseAt(ImpulseTime(cfg, delay) + CounterGap(cfg), 0);
    StoryInputs(cfg, e, delay, CounterNeeded(cfg) - 1);
    GapCovers(cfg, CounterNeeded(cfg) - 1);
    MonotoneSnoc(front, i);
    EndsBeforeWrap(front + [i]);
  }

  lemma {:induction false} EndsBeforeWrap(inputs: seq<Input>)
    requires Monotone(inputs) && inputs != [] && inputs[|inputs| - 1].clock < WORD
    ensures BeforeWrap(inputs)
  {
    var last := inputs[|inputs| - 1].clock;
    assert forall i :: 0 <= i < |inputs| ==> i == |inputs| - 1 || inputs[i].clock <= last;
  }

  // ---- What the times of these runs depend on

  ghost predicate SameTiming(a: Config, b: Config) {
    && a.minimumTimeBtwObs == b.minimumTimeBtwObs
    && a.pauseForValidObsAfterImpulse == b.pauseForValidObsAfterImpulse
    && a.minimumSampleSize == b.minimumSampleSize
    && a.counterOmegaMinSampleSize == b.counterOmegaMinSampleSize
  }

  lemma {:induction false} SameSpan(a: Config, b: Config, n: nat)
    requires SameTiming(a, b)
    ensures Span(a, n) == Span(b, n)
    ensures n >= 1 ==> EvidenceTime(a, n) == EvidenceTime(b, n)
  {
    if n > 0 {
      SameSpan(a, b, n - 1);
    }
  }

  lemma {:induction false} SameSteady(a: Config, b: Config, e: CompassError, delay: nat, n: nat)
    requires SameTiming(a, b)
    ensures Steady(a, e, delay, n) == Steady(b, e, delay, n)
  {
    hide EvidenceTime;
    if n > 0 {
      SameSteady(a, b, e, delay, n - 1);
      SameSpan(a, b, n);
    }
  }

  lemma {:induction false} SameGaps(a: Config, b: Config, delay: nat)
    requires SameTiming(a, b)
    ensures CounterNeeded(a) == CounterNeeded(b) && CounterGap(a) == CounterGap(b)
    ensures Needed(a) == Needed(b) && ImpulseTime(a, delay) == ImpulseTime(b, delay)
  {
    hide EvidenceTime;
    SameSpan(a, b, CounterNeeded(a) - 1);
    SameSpan(a, b, Needed(a));
  }

  lemma {:induction false} SameStory(a: Config, b: Config, e: CompassError, delay: nat, m: nat)
    requires SameTiming(a, b)
    ensures Story(a, e, delay, m) == Story(b, e, delay, m)
  {
    hide EvidenceTime, ImpulseTime, Steady, SameTiming;
    SameGaps(a, b, delay);
    if m > 0 {
      SameStory(a, b, e, delay, m - 1);
      SameSpan(a, b, m);
    } else {
      SameSteady(a, b, e, delay, Needed(a));
    }
  }

  lemma {:induction false} SameCounterRun(a: Config, b: Config, e: CompassError, delay: nat)
    requires SameTiming(a, b)
    ensures CounterRun(a, e, delay) == CounterRun(b, e, delay)
  {
    hide Story, ImpulseTime, CounterGap, CounterNeeded, SameTiming;
    SameGaps(a, b, delay);
    SameStory(a, b, e, delay, CounterNeeded(a) - 1);
  }
}
