/** The configuration notes call steeringCooldown the least time between two impulses. Regular
    impulses keep it; a counter impulse is decided before the guards and need not. */
module CooldownBypass {
  import opened MachineInts
  import opened RegulationConfig
  import opened Evidence
  import opened SteeringGuard
  import opened ControllerSpec
  import opened ControllerRuns
  import opened ImpulseSpacing
  import opened ErrorRate
  import opened SteadyRuns
  import opened GuardRedundancy

  /** A tick breaks the cooldown exactly when it is a counter impulse that is due too early. */
  lemma {:induction false} TickKeepsCooldownIff(cfg: Config, s: State, error: int, now: uint32)
    requires Elapsed(now, s.lastIntent) < cfg.steeringCooldown
    ensures TickOn(cfg, s, error, now).1.NoIntent?
       <==> (ObservationBlocked(cfg, s.lastObsUpdate, s.lastIntent, now)
             || var o := Observed(cfg, s, error, now);
                !CounterNecessary(cfg, o, o.debug.median, o.debug.sampleSize, Omega(cfg.omegaRobust, o.window), now))
  {
    hide RegularImpulse, RateOver, MedianOf, SmoothedError;
  }

  /** If the evidence of a counter takes as long as the cooldown, all impulses keep it. */
  lemma {:induction false} SlowCountersKeepCooldown(cfg: Config, inputs: seq<Input>, k: nat)
    requires Monotone(inputs) && CounterGap(cfg) >= cfg.steeringCooldown
    requires k + 1 < |Run(cfg, inputs).emissions|
    ensures Run(cfg, inputs).emissions[k + 1].clock >= Run(cfg, inputs).emissions[k].clock + cfg.steeringCooldown
  {
    hide Run, CounterGap;
    RunTimed(cfg, inputs);
    SpacedAt(cfg, Run(cfg, inputs).emissions, k + 1);
  }

  /** Two impulses in a row closer than the cooldown. */
  ghost predicate BreaksCooldown(cfg: Config, inputs: seq<Input>) {
    && Monotone(inputs) && CompassInputs(inputs)
    && exists k: nat :: k + 1 < |Run(cfg, inputs).emissions|
         && TooClose(cfg, Run(cfg, inputs).emissions[k], Run(cfg, inputs).emissions[k + 1])
  }

  ghost predicate TooClose(cfg: Config, e: Emission, f: Emission) {
    f.clock < e.clock + cfg.steeringCooldown
  }

  /** For every controller that can counter, some run breaks the cooldown exactly when a counter
      can follow an impulse faster (as far as the times fit the 32-bit clock). */
  lemma {:induction false} CooldownBreaksIff(cfg: Config)
    requires CanCounter(cfg) && StoryFits(cfg, CoolDelay(cfg))
    ensures (exists inputs :: BreaksCooldown(cfg, inputs)) <==> CounterGap(cfg) < cfg.steeringCooldown
  {
    hide Run, CounterRun, CounterGap, CoolDelay, CanCounter, StoryFits;
    if CounterGap(cfg) < cfg.steeringCooldown {
      CounterRunBreaksCooldown(cfg, CoolDelay(cfg));
    } else {
      forall inputs
        ensures !BreaksCooldown(cfg, inputs)
      {
        SlowCountersBreakNothing(cfg, inputs);
      }
    }
  }

  lemma {:induction false} SlowCountersBreakNothing(cfg: Config, inputs: seq<Input>)
    requires CounterGap(cfg) >= cfg.steeringCooldown
    ensures !BreaksCooldown(cfg, inputs)
  {
    hide Run, CounterGap, Monotone;
    if Monotone(inputs) {
      forall k: nat | k + 1 < |Run(cfg, inputs).emissions|
        ensures !TooClose(cfg, Run(cfg, inputs).emissions[k], Run(cfg, inputs).emissions[k + 1])
      {
        SlowCountersKeepCooldown(cfg, inputs, k);
      }
    }
  }

  lemma {:induction false} CounterRunBreaksCooldown(cfg: Config, delay: nat)
    requires CanCounter(cfg) && StoryFits(cfg, delay) && CounterGap(cfg) < cfg.steeringCooldown
    ensures BreaksCooldown(cfg, CounterRun(cfg, 179, delay))
  {
    hide Run, CounterRun, CounterGap, ImpulseTime, Monotone;
    CounterRunCountersIff(cfg, 179, delay);
    CounterRunInputs(cfg, 179, delay);
    var e := Run(cfg, CounterRun(cfg, 179, delay)).emissions;
    assert TooClose(cfg, e[0], e[0 + 1]);
  }

  // The default settings with the longest cooldown that the configuration notes call usual.
  const CAUTIOUS := DEFAULT_CONFIG.(steeringCooldown := 8000)

  /** Under it, ten errors of 179 a second apart, an impulse, two more of them three seconds
      later and then an error of 0 end in a counter impulse five seconds after the first. */
  lemma {:induction false} CounterBreaksCooldown()
    ensures LoaderAccepts(CAUTIOUS) && Monotone(CounterRun(CAUTIOUS, 179, 0))
    ensures var e := Run(CAUTIOUS, CounterRun(CAUTIOUS, 179, 0)).emissions;
            && |e| == 2 && e[0].decision.Regular? && e[1].decision.Counter?
            && e[0].clock == 12000 && e[1].clock == 17000 < e[0].clock + CAUTIOUS.steeringCooldown
  {
    hide Run, CounterRun, Monotone;
    SpanIsProduct(CAUTIOUS, 2);
    SpanIsProduct(CAUTIOUS, 9);
    CounterRunCountersIff(CAUTIOUS, 179, 0);
    CounterRunInputs(CAUTIOUS, 179, 0);
  }
}
