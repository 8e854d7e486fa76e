/** What every tick does, in terms of the history alone and with every condition written out. */
module ExactTicks {
  import opened MachineInts
  import opened RegulationConfig
  import opened HeadingError
  import opened Evidence
  import opened SteeringGuard
  import opened ControllerSpec
  import opened ControllerRuns
  import opened EvidenceMeaning

  /** Both times since the last observation and since the last impulse have passed. */
  ghost predicate Acceptable(cfg: Config, h: History, clock: nat) {
    && Elapsed(Low32(clock), Low32(AcceptedClock(h.accepted))) >= cfg.minimumTimeBtwObs
    && Elapsed(Low32(clock), Low32(EmissionClock(h.emissions))) >= cfg.pauseForValidObsAfterImpulse
  }

  /** An error in tolerance on the other side than the error at the last regular impulse. */
  ghost predicate Overshoots(cfg: Config, h: History, error: int) {
    var acted := RegularError(h.emissions);
    && -(cfg.steeringTolerance as int) <= error <= cfg.steeringTolerance
    && ((error > 0 && acted < 0) || (error < 0 && acted > 0))
  }

  /** The window with one more accepted error: an overshoot stands alone, any other error joins
      all there is, and a full window is consumed. */
  ghost function Gathered(cfg: Config, h: History, error: int, clock: nat): (w: Window) {
    var capacity := cfg.ActiveBufferSize();
    var o := Observation(error, Low32(clock));
    if Overshoots(cfg, h, error) then if capacity == 1 then [] else [o]
    else if |h.state.window| + 1 == capacity then []
    else h.state.window + [o]
  }

  /** A counter is called for: enough samples, the boat turning toward the target faster than
      the threshold, the error near the target, and both time guards passed. */
  ghost predicate CounterDue(cfg: Config, prior: seq<Emission>, error: int, clock: nat, w: Window) {
    var median, omega := Median(w), Omega(cfg.omegaRobust, w);
    && |w| >= cfg.counterOmegaMinSampleSize
    && ((median > 0 && omega > 0.0 && omega >= cfg.omegaThresholdForCounter)
        || (median < 0 && omega < 0.0 && -omega >= cfg.omegaThresholdForCounter))
    && -(cfg.counterNearTargetWindow as int) <= error <= cfg.counterNearTargetWindow
    && Elapsed(Low32(clock), Low32(CounterClock(prior))) >= cfg.counterCooldown
    && match IntentValue(prior)
       case None => false
       case Some(last) =>
         || Elapsed(Low32(clock), Low32(EmissionClock(prior))) >= cfg.counterTimerGuard
         || (last.dir == Starboard && median > 0)
         || (last.dir == Portside && median < 0)
  }

  /** A regular impulse is called for toward this side: enough samples, a median beyond the
      tolerance, the error not shrinking faster than the deadband, and the cooldown over. */
  ghost predicate RegularDue(cfg: Config, side: Direction, prior: seq<Emission>, clock: nat, w: Window) {
    var median, omega := Median(w), Omega(cfg.omegaRobust, w);
    && |w| >= cfg.minimumSampleSize
    && Elapsed(Low32(clock), Low32(EmissionClock(prior))) >= cfg.steeringCooldown
    && match side
       case Starboard => median > cfg.steeringTolerance && omega <= cfg.omegaDeadband
       case Portside => median < -(cfg.steeringTolerance as int) && -omega <= cfg.omegaDeadband
  }

  /** One more impulse, of this kind and side, resting on this window. */
  ghost predicate Emits(h: History, after: History, i: Input, error: int, w: Window, counter: bool, side: Direction) {
    && |after.emissions| == |h.emissions| + 1 && h.emissions <= after.emissions
    && var e := after.emissions[|h.emissions|];
       && e.clock == i.clock && e.error == error && Stamped(e.evidence) == w
       && (if counter then e.decision.Counter? else e.decision.Regular?)
       && e.decision.intent.dir == side
  }

  ghost predicate Impulse(cfg: Config, h: History, after: History, i: Input, error: int, w: Window) {
    if CounterDue(cfg, h.emissions, error, i.clock, w) then
      Emits(h, after, i, error, w, true, if IntentValue(h.emissions).value.dir == Portside then Starboard else Portside)
    else if RegularDue(cfg, Starboard, h.emissions, i.clock, w) then Emits(h, after, i, error, w, false, Starboard)
    else if RegularDue(cfg, Portside, h.emissions, i.clock, w) then Emits(h, after, i, error, w, false, Portside)
    else after.emissions == h.emissions
  }

  /** The whole tick: what is accepted, what is emitted, what is kept, and what is shown. */
  ghost predicate TickLaw(cfg: Config, h: History, after: History, i: Input, error: int) {
    if !Acceptable(cfg, h, i.clock) then
      && after.accepted == h.accepted && after.emissions == h.emissions && after.state.window == h.state.window
      && after.state.debug == h.state.debug.(observationBlocked := true, intentBlocked := false)
    else
      var w := Gathered(cfg, h, error, i.clock);
      var silent := after.emissions == h.emissions;
      && after.accepted == h.accepted + [Accepted(error, i.clock)]
      && Impulse(cfg, h, after, i, error, w)
      && after.state.window == (if silent then w else [])
      && after.state.debug == Debug(error, Median(w), |w|, false, silent)
  }

  /** In every run every tick obeys the law, and returns the impulse it emits and nothing else. */
  lemma {:induction false} TicksObeyLaw(cfg: Config, inputs: seq<Input>, i: Input)
    ensures TickLaw(cfg, Run(cfg, inputs), Run(cfg, inputs + [i]), i, ErrorOf(i))
    ensures i.heading < 360 && i.target < 360 ==> IsShortestRotation(ErrorOf(i), i.heading, i.target)
    ensures var h, after := Run(cfg, inputs), Run(cfg, inputs + [i]);
            Outputs(cfg, inputs + [i]) == Outputs(cfg, inputs)
              + [(if after.emissions == h.emissions then None else IntentValue(after.emissions), after.state.debug)]
  {
    hide Run, StepOn, TickLaw, ErrorOf, Explained, IsShortestRotation;
    ErrorTurnsShortest(i);
    RunExplained(cfg, inputs);
    CountStaysBelowCapacity(cfg, inputs);
    RunAppend(cfg, inputs, i);
    StepObeysLaw(cfg, Run(cfg, inputs), i, ErrorOf(i));
    OutputOfStep(cfg, inputs, i, ErrorOf(i));
  }

  lemma {:induction false} ErrorTurnsShortest(i: Input)
    ensures i.heading < 360 && i.target < 360 ==> IsShortestRotation(ErrorOf(i), i.heading, i.target)
  {
    hide CalculateError, IsShortestRotation;
    if i.heading < 360 && i.target < 360 {
      ErrorIsShortestRotation(i.heading, i.target);
    }
  }

  lemma {:induction false} StepObeysLaw(cfg: Config, h: History, i: Input, error: int)
    requires Digest(h) && |h.state.window| < cfg.ActiveBufferSize()
    ensures TickLaw(cfg, h, StepOn(cfg, h, i, error), i, error)
  {
    hide ObservationBlocked, Observed, Decide, Digest, Impulse, Gathered, Median;
    AcceptsExactly(cfg, h, i);
    if Acceptable(cfg, h, i.clock) {
      GathersExactly(cfg, h, i, error);
      ActsExactly(cfg, h, i, error);
    }
  }

  lemma {:induction false} AcceptsExactly(cfg: Config, h: History, i: Input)
    requires Digest(h)
    ensures Acceptable(cfg, h, i.clock)
       <==> !ObservationBlocked(cfg, h.state.lastObsUpdate, h.state.lastIntent, Low32(i.clock))
  {
  }

  lemma {:induction false} GathersExactly(cfg: Config, h: History, i: Input, error: int)
    requires Digest(h) && |h.state.window| < cfg.ActiveBufferSize()
    ensures var s := Observed(cfg, Feed(h.state, i), error, Low32(i.clock));
            && s.window == Gathered(cfg, h, error, i.clock)
            && s.debug == Debug(error, Median(s.window), |s.window|, false, false)
            && s.lastIntent == h.state.lastIntent && s.lastCounterIntent == h.state.lastCounterIntent
            && s.lastIntentValue == h.state.lastIntentValue
  {
    hide Median;
  }

  lemma {:induction false} ActsExactly(cfg: Config, h: History, i: Input, error: int)
    requires Digest(h) && Acceptable(cfg, h, i.clock) && |h.state.window| < cfg.ActiveBufferSize()
    ensures Impulse(cfg, h, StepOn(cfg, h, i, error), i, error, Gathered(cfg, h, error, i.clock))
  {
    hide Digest, Decide, StepOn, Observed, Gathered, CounterDue, RegularDue, Median;
    var s, after := Observed(cfg, Feed(h.state, i), error, Low32(i.clock)), StepOn(cfg, h, i, error);
    AcceptsExactly(cfg, h, i);
    GathersExactly(cfg, h, i, error);
    DigestedRegisters(h);
    DecidesExactly(cfg, s, h.emissions, i.clock);
    EmitsDecision(cfg, h, i, error);
  }

  lemma {:induction false} DigestedRegisters(h: History)
    requires Digest(h)
    ensures h.state.lastIntent == Low32(EmissionClock(h.emissions))
    ensures h.state.lastCounterIntent == Low32(CounterClock(h.emissions))
    ensures h.state.lastIntentValue == IntentValue(h.emissions)
  {
  }

  lemma {:induction false} DecidesExactly(cfg: Config, s: State, prior: seq<Emission>, clock: nat)
    requires s.lastIntent == Low32(EmissionClock(prior)) && s.lastCounterIntent == Low32(CounterClock(prior))
    requires s.lastIntentValue == IntentValue(prior)
    ensures var d, error := Decide(cfg, s, Low32(clock)), s.debug.error;
            if CounterDue(cfg, prior, error, clock, s.window) then
              && d.Counter? && IntentValue(prior).Some?
              && d.intent.dir == (if IntentValue(prior).value.dir == Portside then Starboard else Portside)
            else if RegularDue(cfg, Starboard, prior, clock, s.window) then d.Regular? && d.intent.dir == Starboard
            else if RegularDue(cfg, Portside, prior, clock, s.window) then d.Regular? && d.intent.dir == Portside
            else d.NoIntent?
  {
    hide Median, Omega, RegularImpulse, CounterImpulse, SmoothedError, CounterClock, EmissionClock, IntentValue, Elapsed;
  }

  /** A step emits what it decides, resting on the window it decided on. */
  lemma {:induction false} EmitsDecision(cfg: Config, h: History, i: Input, error: int)
    requires Digest(h)
    requires !ObservationBlocked(cfg, h.state.lastObsUpdate, h.state.lastIntent, Low32(i.clock))
    ensures var s, after := Observed(cfg, Feed(h.state, i), error, Low32(i.clock)), StepOn(cfg, h, i, error);
            var d := Decide(cfg, s, Low32(i.clock));
            if d.NoIntent? then after.emissions == h.emissions
            else Emits(h, after, i, error, s.window, d.Counter?, d.intent.dir)
  {
    hide Decide, Digest, ObservationBlocked, Median;
    var accepted := h.accepted + [Accepted(error, i.clock)];
    WindowIsSuffix(cfg, h, i, error);
  }

  lemma {:induction false} OutputOfStep(cfg: Config, inputs: seq<Input>, i: Input, error: int)
    requires error == ErrorOf(i)
    ensures var h, after := Run(cfg, inputs), StepOn(cfg, Run(cfg, inputs), i, error);
            Outputs(cfg, inputs + [i]) == Outputs(cfg, inputs)
              + [(if after.emissions == h.emissions then None else IntentValue(after.emissions), after.state.debug)]
  {
    hide TickOn, Run;
    assert (inputs + [i])[..|inputs|] == inputs;
  }
}
