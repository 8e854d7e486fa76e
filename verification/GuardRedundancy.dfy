/** When a guard can be deleted: a deleted guard is one whose time is zero. */
module GuardRedundancy {
  import opened MachineInts
  import opened RegulationConfig
  import opened HeadingError
  import opened Evidence
  import opened SteeringGuard
  import opened ControllerSpec
  import opened ControllerRuns
  import opened ImpulseSpacing
  import opened ErrorRate
  import opened EvidenceMeaning
  import opened Progress
  import opened SteadyRuns

  /** Equal up to the two time guards. */
  ghost predicate SameButGuards(a: Config, b: Config) {
    a.(steeringCooldown := 0, counterTimerGuard := 0) == b.(steeringCooldown := 0, counterTimerGuard := 0)
  }

  lemma {:induction false} ObservesAlike(a: Config, b: Config, s: State, error: int, now: uint32)
    requires SameButGuards(a, b)
    ensures ObservationBlocked(a, s.lastObsUpdate, s.lastIntent, now)
         == ObservationBlocked(b, s.lastObsUpdate, s.lastIntent, now)
    ensures Observed(a, s, error, now) == Observed(b, s, error, now)
  {
    hide Median;
  }

  /** Such controllers step alike if they decide alike. */
  lemma {:induction false} StepsAlike(a: Config, b: Config, h: History, i: Input, error: int)
    requires SameButGuards(a, b)
    requires !ObservationBlocked(a, h.state.lastObsUpdate, h.state.lastIntent, Low32(i.clock)) ==>
      var s := Observed(a, Feed(h.state, i), error, Low32(i.clock));
      Decide(a, s, Low32(i.clock)) == Decide(b, s, Low32(i.clock))
    ensures StepOn(a, h, i, error) == StepOn(b, h, i, error)
  {
    hide Observed, ObservationBlocked, Decide, Record, Emitted, SameButGuards;
    ObservesAlike(a, b, Feed(h.state, i), error, Low32(i.clock));
  }

  /** On a clock that has not wrapped, the cooldown check changes no run if the evidence for an
      impulse takes at least as long. */
  lemma {:induction false} CooldownRedundant(cfg: Config, inputs: seq<Input>)
    requires Monotone(inputs) && BeforeWrap(inputs)
    requires cfg.steeringCooldown <= EvidenceTime(cfg, Needed(cfg))
    ensures Run(cfg.(steeringCooldown := 0), inputs) == Run(cfg, inputs)
  {
    hide StepOn, ErrorOf, EvidenceTime;
    if inputs != [] {
      var front, i := inputs[..|inputs| - 1], inputs[|inputs| - 1];
      CooldownRedundant(cfg, front);
      RunTimed(cfg, front);
      RunExplained(cfg, front);
      CooldownRedundantStep(cfg, Run(cfg, front), i, ErrorOf(i));
    }
  }

  lemma {:induction false} CooldownRedundantStep(cfg: Config, h: History, i: Input, error: int)
    requires Digest(h) && Timed(cfg, h) && AcceptedClock(h.accepted) <= i.clock < WORD
    requires cfg.steeringCooldown <= EvidenceTime(cfg, Needed(cfg))
    ensures StepOn(cfg.(steeringCooldown := 0), h, i, error) == StepOn(cfg, h, i, error)
  {
    hide StepOn, Decide, Median, Digest, Timed, EvidenceTime;
    var now := Low32(i.clock);
    if !ObservationBlocked(cfg, h.state.lastObsUpdate, h.state.lastIntent, now) {
      var s := Observed(cfg, Feed(h.state, i), error, now);
      if |s.window| >= Needed(cfg) {
        EvidenceTimeMonotone(cfg, Needed(cfg), |h.state.window| + 1);
        CooldownIsOver(cfg, h, i, error);
      }
      CooldownUnused(cfg, s, now);
    }
    StepsAlike(cfg, cfg.(steeringCooldown := 0), h, i, error);
  }

  lemma {:induction false} CooldownUnused(cfg: Config, s: State, now: uint32)
    requires |s.window| >= Needed(cfg) ==> Elapsed(now, s.lastIntent) >= cfg.steeringCooldown
    ensures Decide(cfg.(steeringCooldown := 0), s, now) == Decide(cfg, s, now)
  {
    ChooseIgnoresCooldown(cfg, s, Median(s.window), |s.window|, Omega(cfg.omegaRobust, s.window),
      RegularImpulse(cfg.smoothedMeanApplicationWindow, SmoothedError(cfg.MeanWindow(), s.window)), now);
  }

  lemma {:induction false} ChooseIgnoresCooldown(cfg: Config, s: State, median: int, size: nat, omega: real,
                                                 impulse: uint8, now: uint32)
    requires size >= Needed(cfg) ==> Elapsed(now, s.lastIntent) >= cfg.steeringCooldown
    requires size == 0 ==> median == 0
    ensures Choose(cfg.(steeringCooldown := 0), s, median, size, omega, impulse, now)
         == Choose(cfg, s, median, size, omega, impulse, now)
  {
  }

  /** The flip-flop guard never bites if the evidence of a counter takes at least as long. */
  lemma {:induction false} FlipFlopGuardRedundant(cfg: Config, inputs: seq<Input>)
    requires Monotone(inputs) && BeforeWrap(inputs)
    requires cfg.counterTimerGuard <= CounterGap(cfg)
    ensures Run(cfg.(counterTimerGuard := 0), inputs) == Run(cfg, inputs)
  {
    hide StepOn, ErrorOf, EvidenceTime, CounterGap;
    if inputs != [] {
      var front, i := inputs[..|inputs| - 1], inputs[|inputs| - 1];
      FlipFlopGuardRedundant(cfg, front);
      RunTimed(cfg, front);
      RunExplained(cfg, front);
      FlipFlopRedundantStep(cfg, Run(cfg, front), i, ErrorOf(i));
    }
  }

  lemma {:induction false} FlipFlopRedundantStep(cfg: Config, h: History, i: Input, error: int)
    requires Digest(h) && Timed(cfg, h) && AcceptedClock(h.accepted) <= i.clock < WORD
    requires cfg.counterTimerGuard <= CounterGap(cfg)
    ensures StepOn(cfg.(counterTimerGuard := 0), h, i, error) == StepOn(cfg, h, i, error)
  {
    hide StepOn, Omega, Observed, Decide, CounterGap, CounterNeeded, Digest, Timed;
    var now := Low32(i.clock);
    if !ObservationBlocked(cfg, h.state.lastObsUpdate, h.state.lastIntent, now) {
      var s := Observed(cfg, Feed(h.state, i), error, now);
      if |s.window| >= CounterNeeded(cfg) && Omega(cfg.omegaRobust, s.window) != 0.0 {
        CounterEvidenceIsLate(cfg, h, i, error);
      }
      ObservingKeepsIntent(cfg, Feed(h.state, i), error, now);
      FlipFlopUnused(cfg, s, now);
    }
    StepsAlike(cfg, cfg.(counterTimerGuard := 0), h, i, error);
  }

  lemma {:induction false} ObservingKeepsIntent(cfg: Config, s: State, error: int, now: uint32)
    ensures Observed(cfg, s, error, now).lastIntent == s.lastIntent
  {
    hide Median;
  }

  /** A window that a counter could rest on is complete only after the counter gap. */
  lemma {:induction false} CounterEvidenceIsLate(cfg: Config, h: History, i: Input, error: int)
    requires Digest(h) && Timed(cfg, h) && AcceptedClock(h.accepted) <= i.clock < WORD
    requires !ObservationBlocked(cfg, h.state.lastObsUpdate, h.state.lastIntent, Low32(i.clock))
    requires var w := Observed(cfg, Feed(h.state, i), error, Low32(i.clock)).window;
             |w| >= CounterNeeded(cfg) && Omega(cfg.omegaRobust, w) != 0.0
    ensures Elapsed(Low32(i.clock), h.state.lastIntent) >= CounterGap(cfg)
  {
    hide Omega, Median, CounterGap, CounterNeeded, StepOn, ObservationsApart, SettledFrom;
    var accepted := h.accepted + [Accepted(error, i.clock)];
    var n := |Observed(cfg, Feed(h.state, i), error, Low32(i.clock)).window|;
    StepAcceptsError(cfg, h, i, error);
    StepAccepts(cfg, h, i, error);
    WindowIsSuffix(cfg, h, i, error);
    assert Last(accepted, n) == accepted[|accepted| - n..|accepted|];
    CounterEvidenceTakesTime(cfg, accepted, Seen(h.emissions), EmissionClock(h.emissions), |accepted| - n, |accepted|);
    ElapsedNeverOverstates(EmissionClock(h.emissions), i.clock);
  }

  lemma {:induction false} FlipFlopUnused(cfg: Config, s: State, now: uint32)
    requires |s.window| >= CounterNeeded(cfg) && Omega(cfg.omegaRobust, s.window) != 0.0
             ==> Elapsed(now, s.lastIntent) >= cfg.counterTimerGuard
    ensures Decide(cfg.(counterTimerGuard := 0), s, now) == Decide(cfg, s, now)
  {
    hide Omega, Choose, Median, RegularImpulse;
    if |s.window| < 2 {
      ShortShowsNoMotion(cfg.omegaRobust, s.window);
    }
    ChooseIgnoresFlipFlop(cfg, s, Median(s.window), |s.window|, Omega(cfg.omegaRobust, s.window),
      RegularImpulse(cfg.smoothedMeanApplicationWindow, SmoothedError(cfg.MeanWindow(), s.window)), now);
  }

  lemma {:induction false} ShortShowsNoMotion(robust: nat, w: Window)
    requires |w| < 2
    ensures Omega(robust, w) == 0.0
  {
  }

  lemma {:induction false} ChooseIgnoresFlipFlop(cfg: Config, s: State, median: int, size: nat, omega: real,
                                                 impulse: uint8, now: uint32)
    requires size >= cfg.counterOmegaMinSampleSize && omega != 0.0 ==> Elapsed(now, s.lastIntent) >= cfg.counterTimerGuard
    ensures Choose(cfg.(counterTimerGuard := 0), s, median, size, omega, impulse, now)
         == Choose(cfg, s, median, size, omega, impulse, now)
  {
  }

  // ---- Exactly when the controller can act, and when its cooldown matters

  ghost predicate CanAct(cfg: Config, inputs: seq<Input>) {
    Monotone(inputs) && CompassInputs(inputs) && Run(cfg, inputs).emissions != []
  }

  /** Some compass run on a monotone clock emits an impulse exactly when the needed samples fit below the capacity
      and an error can exceed the tolerance (as far as the times fit the 32-bit clock). */
  lemma {:induction false} ActsIff(cfg: Config)
    requires Max(EvidenceTime(cfg, Needed(cfg)), cfg.steeringCooldown) < WORD
    ensures (exists inputs :: CanAct(cfg, inputs))
       <==> Needed(cfg) < cfg.ActiveBufferSize() && cfg.steeringTolerance < 180
  {
    if Needed(cfg) < cfg.ActiveBufferSize() && cfg.steeringTolerance < 180 {
      var delay := Max(0, cfg.steeringCooldown - EvidenceTime(cfg, Needed(cfg)));
      SteadyActsIff(cfg, -180, delay);
      SteadyInputs(cfg, -180, delay, Needed(cfg));
      assert CanAct(cfg, Steady(cfg, -180, delay, Needed(cfg)));
    } else {
      forall inputs | CompassInputs(inputs)
        ensures Run(cfg, inputs).emissions == []
      {
        NeverActs(cfg, inputs);
      }
    }
  }

  lemma {:induction false} NeverActs(cfg: Config, inputs: seq<Input>)
    requires CompassInputs(inputs)
    requires !(Needed(cfg) < cfg.ActiveBufferSize() && cfg.steeringTolerance < 180)
    ensures Run(cfg, inputs).emissions == []
  {
    if cfg.steeringTolerance >= 180 {
      forall i | 0 <= i < |inputs|
        ensures Abs(CalculateError(inputs[i].heading, inputs[i].target)) <= cfg.steeringTolerance
      {
        ErrorIsShortestRotation(inputs[i].heading, inputs[i].target);
      }
      QuietRunIsSilent(cfg, inputs);
    } else if cfg.minimumSampleSize >= cfg.ActiveBufferSize() {
      CapacityStarvesImpulses(cfg, inputs);
    } else {
      SingleSlotIsSilent(cfg, inputs);
    }
  }

  /** A window of one slot is consumed by the observation that fills it. */
  lemma {:induction false} SingleSlotIsSilent(cfg: Config, inputs: seq<Input>)
    requires cfg.ActiveBufferSize() == 1
    ensures Run(cfg, inputs).emissions == []
  {
    RunExplained(cfg, inputs);
    var h := Run(cfg, inputs);
    if h.emissions != [] {
      assert h.emissions[..0] == [];
      EvidenceNeedsSlots(cfg, h.emissions[0], h.accepted);
    }
  }

  lemma {:induction false} EvidenceNeedsSlots(cfg: Config, e: Emission, accepted: seq<Accepted>)
    requires cfg.ActiveBufferSize() == 1 && OwnEvidence(e, [], accepted)
    ensures !Justified(cfg, e, [])
  {
  }

  ghost predicate CooldownMatters(cfg: Config, inputs: seq<Input>) {
    && Monotone(inputs) && BeforeWrap(inputs) && CompassInputs(inputs)
    && Run(cfg.(steeringCooldown := 0), inputs) != Run(cfg, inputs)
  }

  /** The cooldown changes some compass run before the clock wraps exactly when the controller
      can act and the cooldown is longer than the evidence for an impulse takes. */
  lemma {:induction false} CooldownMattersIff(cfg: Config)
    ensures (exists inputs :: CooldownMatters(cfg, inputs))
       <==> && Needed(cfg) < cfg.ActiveBufferSize() && cfg.steeringTolerance < 180
            && cfg.steeringCooldown > EvidenceTime(cfg, Needed(cfg))
  {
    hide Run, Steady, Monotone, CompassInputs, EvidenceTime;
    if Needed(cfg) < cfg.ActiveBufferSize() && cfg.steeringTolerance < 180
       && cfg.steeringCooldown > EvidenceTime(cfg, Needed(cfg)) {
      SteadyTellsApart(cfg);
    } else {
      forall inputs | Monotone(inputs) && BeforeWrap(inputs) && CompassInputs(inputs)
        ensures Run(cfg.(steeringCooldown := 0), inputs) == Run(cfg, inputs)
      {
        if cfg.steeringCooldown <= EvidenceTime(cfg, Needed(cfg)) {
          CooldownRedundant(cfg, inputs);
        } else {
          SilentIgnoresCooldown(cfg, inputs);
        }
      }
    }
  }

  /** Where no run acts, none is changed. */
  lemma {:induction false} SilentIgnoresCooldown(cfg: Config, inputs: seq<Input>)
    requires CompassInputs(inputs)
    requires !(Needed(cfg) < cfg.ActiveBufferSize() && cfg.steeringTolerance < 180)
    ensures Run(cfg.(steeringCooldown := 0), inputs) == Run(cfg, inputs)
  {
    hide StepOn, ErrorOf;
    if inputs != [] {
      var front, i := inputs[..|inputs| - 1], inputs[|inputs| - 1];
      SilentIgnoresCooldown(cfg, front);
      NeverActs(cfg.(steeringCooldown := 0), front);
      NeverActs(cfg.(steeringCooldown := 0), inputs);
      SilentStep(cfg, Run(cfg, front), i, ErrorOf(i));
    }
  }

  /** What does not act without the cooldown does not act with it. */
  lemma {:induction false} SilentStep(cfg: Config, h: History, i: Input, error: int)
    requires StepOn(cfg.(steeringCooldown := 0), h, i, error).emissions == h.emissions
    ensures StepOn(cfg.(steeringCooldown := 0), h, i, error) == StepOn(cfg, h, i, error)
  {
    hide Observed, Decide, ObservationBlocked;
    var free, now := cfg.(steeringCooldown := 0), Low32(i.clock);
    ObservesAlike(cfg, free, Feed(h.state, i), error, now);
    SilentDecision(cfg, Observed(cfg, Feed(h.state, i), error, now), now);
    StepsAlike(cfg, free, h, i, error);
  }

  lemma {:induction false} SilentDecision(cfg: Config, s: State, now: uint32)
    ensures Decide(cfg.(steeringCooldown := 0), s, now).NoIntent? ==> Decide(cfg, s, now).NoIntent?
  {
    hide RegularImpulse, Omega, Median, SmoothedError;
  }

  lemma {:induction false} SteadyTellsApart(cfg: Config)
    requires Needed(cfg) < cfg.ActiveBufferSize() && cfg.steeringTolerance < 180
    requires cfg.steeringCooldown > EvidenceTime(cfg, Needed(cfg))
    ensures CooldownMatters(cfg, Steady(cfg, -180, 0, Needed(cfg)))
  {
    hide Run, Steady, Monotone, CompassInputs, EvidenceTime;
    var free := cfg.(steeringCooldown := 0);
    SameSpan(cfg, free, Needed(cfg));
    SameSteady(cfg, free, -180, 0, Needed(cfg));
    SteadyActsIff(cfg, -180, 0);
    SteadyActsIff(free, -180, 0);
    SteadyInputs(cfg, -180, 0, Needed(cfg));
    EndsBeforeWrap(Steady(cfg, -180, 0, Needed(cfg)));
  }

  // ---- Exactly when the flip-flop guard matters

  ghost predicate FlipFlopMatters(cfg: Config, inputs: seq<Input>) {
    && Monotone(inputs) && BeforeWrap(inputs) && CompassInputs(inputs)
    && Run(cfg.(counterTimerGuard := 0), inputs) != Run(cfg, inputs)
  }

  /** The least delay after which the cooldowns no longer count from the start of the clock. */
  function CoolDelay(cfg: Config): (delay: nat)
    ensures cfg.steeringCooldown <= ImpulseTime(cfg, delay) && cfg.counterCooldown <= ImpulseTime(cfg, delay)
  {
    Max(0, Max(cfg.steeringCooldown, cfg.counterCooldown) - EvidenceTime(cfg, Needed(cfg)))
  }

  /** For a controller that can counter before it acts again, the flip-flop guard changes some
      compass run exactly when it is longer than the counter gap (as far as the times fit the
      32-bit clock). */
  lemma {:induction false} FlipFlopMattersIff(cfg: Config)
    requires CanCounter(cfg) && CounterComesFirst(cfg) && StoryFits(cfg, CoolDelay(cfg))
    ensures (exists inputs :: FlipFlopMatters(cfg, inputs)) <==> cfg.counterTimerGuard > CounterGap(cfg)
  {
    hide Run, CounterRun, Monotone, CounterGap, CoolDelay, CanCounter, CounterComesFirst, StoryFits;
    if cfg.counterTimerGuard > CounterGap(cfg) {
      CounterRunTellsApart(cfg, CoolDelay(cfg));
    } else {
      forall inputs | Monotone(inputs) && BeforeWrap(inputs)
        ensures Run(cfg.(counterTimerGuard := 0), inputs) == Run(cfg, inputs)
      {
        FlipFlopGuardRedundant(cfg, inputs);
      }
    }
  }

  lemma {:induction false} CounterRunTellsApart(cfg: Config, delay: nat)
    requires CanCounter(cfg) && CounterComesFirst(cfg) && StoryFits(cfg, delay)
    requires cfg.counterTimerGuard > CounterGap(cfg)
    ensures FlipFlopMatters(cfg, CounterRun(cfg, -180, delay))
  {
    hide Run, CounterRun, Monotone, CounterGap, ImpulseTime, EvidenceTime, CounterNeeded, Countered, OmegaTime;
    var free := cfg.(counterTimerGuard := 0);
    SameCanCounter(cfg, free);
    SameGaps(cfg, free, delay);
    SameCounterRun(cfg, free, -180, delay);
    CounterRunCountersIff(cfg, -180, delay);
    CounterRunCountersIff(free, -180, delay);
    CounterRunInputs(cfg, -180, delay);
  }

  lemma {:induction false} SameCanCounter(a: Config, b: Config)
    requires CanCounter(a) && b == a.(counterTimerGuard := 0)
    ensures CanCounter(b)
  {
    SameSpan(a, b, Min(CounterNeeded(a), a.omegaRobust) - 1);
  }

  /** With the firmware's own settings neither guard changes any run before the clock wraps. */
  lemma {:induction false} DefaultGuardsAreRedundant(inputs: seq<Input>)
    requires Monotone(inputs) && BeforeWrap(inputs)
    ensures Run(DEFAULT_CONFIG.(counterTimerGuard := 0, steeringCooldown := 0), inputs) == Run(DEFAULT_CONFIG, inputs)
  {
    hide Run;
    var free := DEFAULT_CONFIG.(counterTimerGuard := 0);
    SpanIsProduct(DEFAULT_CONFIG, 2);
    FlipFlopGuardRedundant(DEFAULT_CONFIG, inputs);
    SpanIsProduct(free, 9);
    CooldownRedundant(free, inputs);
  }
}
