/** The controller as a pure state machine whose only evidence is the list of observations
    since the last reset. */
module ControllerSpec {
  import opened MachineInts
  import opened RealProducts
  import opened RegulationConfig
  import opened HeadingError
  import opened Evidence
  import opened SteeringGuard

  datatype Option<+T> = None | Some(value: T)

  // Named Left and Right in the controller's code.
  datatype Direction = Portside | Starboard
  {
    function Opposite(): Direction {
      if this == Portside then Starboard else Portside
    }
  }

  datatype Intent = Intent(dir: Direction, abstractImpulse: uint8)

  datatype Debug = Debug(error: int, median: int, sampleSize: nat, observationBlocked: bool, intentBlocked: bool)

  datatype State = State(
    currentCourse: uint16,
    internalTarget: uint16,
    lastError: int,
    lastObsUpdate: uint32,
    lastIntent: uint32,
    lastCounterIntent: uint32,
    lastIntentValue: Option<Intent>,
    window: Window,
    debug: Debug)

  const INITIAL := State(0, 0, 0, 0, 0, 0, None, [], Debug(0, 0, 0, false, false))

  datatype Decision = NoIntent | Regular(intent: Intent) | Counter(intent: Intent)
  {
    function ToOption(): Option<Intent> {
      if NoIntent? then None else Some(intent)
    }
  }

  function DetermineDirection(median: int): Direction {
    if median < 0 then Portside else if median > 0 then Starboard else Portside
  }

  /** An observation near the target on the other side than the last acted-on error discards
      the evidence. */
  predicate DiscardsEvidence(cfg: Config, lastError: int, error: int) {
    Abs(error) <= cfg.steeringTolerance && ((error < 0 < lastError) || (lastError < 0 < error))
  }

  predicate CounterNecessary(cfg: Config, s: State, median: int, sampleSize: nat, omega: real, now: uint32) {
    && s.lastIntentValue.Some?
    && !(Elapsed(now, s.lastIntent) < cfg.counterTimerGuard && s.lastIntentValue.value.dir != DetermineDirection(median))
    && !(Elapsed(now, s.lastCounterIntent) < cfg.counterCooldown)
    && !(sampleSize < cfg.counterOmegaMinSampleSize || AbsReal(omega) < cfg.omegaThresholdForCounter)
    && Abs(s.debug.error) <= cfg.counterNearTargetWindow
    && ((median < 0 && omega < 0.0) || (median > 0 && omega > 0.0))
  }

  /** Half of |omega| as a percentage, at most 100. */
  function CounterImpulse(omega: real): (impulse: uint8)
    ensures impulse <= 100
  {
    var mapped := AbsReal(omega) * 100.0 * 0.5;
    if mapped > 100.0 then 100 else mapped.Floor
  }

  /** The full impulse outside the application window, a linear share of it inside. */
  function RegularImpulse(limit: PositiveInt8, smoothed: int): (impulse: uint8)
    ensures impulse <= 100
  {
    if smoothed < -(limit as int) || smoothed > limit then 100
    else
      Percentage(Abs(smoothed) as real / limit as real, limit as real, Abs(smoothed) as real);
      (100.0 * (Abs(smoothed) as real / limit as real)).Floor
  }

  /** The state right after the observation of this error is stored. */
  function Observed(cfg: Config, s: State, error: int, now: uint32): State {
    var evidence := if DiscardsEvidence(cfg, s.lastError, error) then [] else s.window;
    var window := Observe(cfg.ActiveBufferSize(), evidence, Observation(error, now));
    s.(lastObsUpdate := now, window := window, debug := Debug(error, Median(window), |window|, false, false))
  }

  function Decide(cfg: Config, s: State, now: uint32): Decision {
    Choose(cfg, s, Median(s.window), |s.window|, Omega(cfg.omegaRobust, s.window),
           RegularImpulse(cfg.smoothedMeanApplicationWindow, SmoothedError(cfg.MeanWindow(), s.window)), now)
  }

  /** The choice between a counter impulse, no impulse and a regular impulse of this strength. */
  function Choose(cfg: Config, s: State, median: int, sampleSize: nat, omega: real, impulse: uint8, now: uint32): Decision {
    if CounterNecessary(cfg, s, median, sampleSize, omega, now) then
      Counter(Intent(s.lastIntentValue.value.dir.Opposite(), CounterImpulse(omega)))
    else if IntentBlocked(cfg, s.lastIntent, median, sampleSize, omega, now) then NoIntent
    else Regular(Intent(DetermineDirection(median), impulse))
  }

  /** The bookkeeping after a decision on an observed state. */
  function Record(s: State, decision: Decision, now: uint32): State {
    match decision
    case NoIntent => s.(debug := s.debug.(intentBlocked := true))
    case Regular(intent) =>
      s.(lastIntent := now, lastIntentValue := Some(intent), lastError := s.debug.error, window := [])
    case Counter(intent) =>
      s.(lastIntent := now, lastIntentValue := Some(intent), lastCounterIntent := now, window := [])
  }

  /** A tick at which the heading error is this. */
  function TickOn(cfg: Config, s: State, error: int, now: uint32): (State, Decision) {
    if ObservationBlocked(cfg, s.lastObsUpdate, s.lastIntent, now) then
      (s.(debug := s.debug.(observationBlocked := true, intentBlocked := false)), NoIntent)
    else
      var observed := Observed(cfg, s, error, now);
      var decision := Decide(cfg, observed, now);
      (Record(observed, decision, now), decision)
  }

  function Tick(cfg: Config, s: State, now: uint32): (State, Decision) {
    TickOn(cfg, s, CalculateError(s.currentCourse, s.internalTarget), now)
  }
}
