/** The controller over its arrays, proved to do on every tick what the state machine does. */
module CoreSteeringControllers {
  import opened MachineInts
  import opened RealProducts
  import opened RegulationConfig
  import opened HeadingError
  import opened OrderStatistics
  import opened Evidence
  import opened ObservationBuffers
  import opened SteeringGuard
  import opened ControllerSpec

  class CoreSteeringController {
    const config: Config
    const observationBuffer: ObservationBuffer
    var currentCourse: uint16
    var internalTarget: uint16
    var lastError: int
    var lastObsUpdate: uint32
    var lastIntent: uint32
    var lastCounterIntent: uint32
    var lastIntentValue: Option<Intent>
    var debug: Debug

    ghost function Repr(): set<object> {
      {this} + observationBuffer.Repr()
    }

    ghost predicate Valid()
      reads Repr()
    {
      && this !in observationBuffer.Repr()
      && observationBuffer.config == config
      && observationBuffer.Valid()
    }

    /** The state of the specification machine this object stands for. */
    ghost function Model(): State
      requires Valid()
      reads Repr()
    {
      State(currentCourse, internalTarget, lastError, lastObsUpdate, lastIntent, lastCounterIntent,
            lastIntentValue, observationBuffer.Window(), debug)
    }

    constructor (config: Config)
      ensures Valid() && fresh(Repr()) && this.config == config && Model() == INITIAL
    {
      this.config := config;
      observationBuffer := new ObservationBuffer(config);
      currentCourse, internalTarget, lastError := 0, 0, 0;
      lastObsUpdate, lastIntent, lastCounterIntent := 0, 0, 0;
      lastIntentValue := None;
      debug := Debug(0, 0, 0, false, false);
    }

    method CurrentHDG(current: uint16)
      requires Valid()
      modifies this`currentCourse
      ensures Valid() && Model() == old(Model()).(currentCourse := current)
    {
      currentCourse := current;
    }

    method SetInternalTarget(target: uint16)
      requires Valid()
      modifies this`internalTarget
      ensures Valid() && Model() == old(Model()).(internalTarget := target)
    {
      internalTarget := target;
    }

    method Tick(loopTimestamp: uint32) returns (result: Option<Intent>)
      requires Valid()
      modifies Repr()
      ensures Valid()
      ensures var (after, decision) := ControllerSpec.Tick(config, old(Model()), loopTimestamp);
              Model() == after && result == decision.ToOption()
    {
      debug := debug.(observationBlocked := false, intentBlocked := false);
      if ObservationBlocked(config, lastObsUpdate, lastIntent, loopTimestamp) {
        debug := debug.(observationBlocked := true);
        return None;
      }
      var error := CalculateError(currentCourse, internalTarget);
      var omega := TakeObservation(error, loopTimestamp);
      result := TakeDecision(omega, loopTimestamp);
    }

    /** The part of tick between the error and the decisions. */
    method TakeObservation(error: int, loopTimestamp: uint32) returns (omega: real)
      requires Valid() && !debug.observationBlocked && !debug.intentBlocked
      modifies Repr()
      ensures Valid() && Model() == Observed(config, old(Model()), error, loopTimestamp)
      ensures omega == Omega(config.omegaRobust, Model().window)
    {
      debug := debug.(error := error);
      Store(error, loopTimestamp);
      lastObsUpdate := loopTimestamp;
      omega := Measure(loopTimestamp);
    }

    /** Reads the buffer and shows median and sample size. */
    method Measure(loopTimestamp: uint32) returns (omega: real)
      requires Valid()
      modifies this`debug
      ensures Valid() && omega == Omega(config.omegaRobust, Model().window)
      ensures Model() == old(Model()).(debug :=
        old(debug).(median := Median(old(Model()).window), sampleSize := |old(Model()).window|))
    {
      hide Median, Omega, MedianOf, Positives, Negatives, Below;
      var median := observationBuffer.GetMedian();
      var sampleSize := observationBuffer.GetSampleSize();
      omega := observationBuffer.GetOmega(loopTimestamp);
      debug := debug.(median := median, sampleSize := sampleSize);
    }

    method Store(error: int, loopTimestamp: uint32)
      requires Valid()
      modifies observationBuffer.Repr()
      ensures Valid()
      ensures Model() == old(Model()).(window :=
        Observe(config.ActiveBufferSize(), if DiscardsEvidence(config, lastError, error) then [] else old(Model()).window,
                Observation(error, loopTimestamp)))
    {
      var insideNoActionBand := Abs(error) <= config.steeringTolerance;
      var signFlip := (error < 0 && lastError > 0) || (error > 0 && lastError < 0);
      if insideNoActionBand && signFlip {
        observationBuffer.Reset();
      }
      observationBuffer.Update(error, loopTimestamp);
    }

    /** The part of tick after the observation: counter intent, guards, regular intent. */
    method TakeDecision(omega: real, loopTimestamp: uint32) returns (result: Option<Intent>)
      requires Valid() && omega == Omega(config.omegaRobust, Model().window)
      requires debug.median == Median(Model().window) && debug.sampleSize == |Model().window|
      modifies Repr()
      ensures Valid()
      ensures var decision := Decide(config, old(Model()), loopTimestamp);
              Model() == Record(old(Model()), decision, loopTimestamp) && result == decision.ToOption()
    {
      hide Median, Omega, SmoothedError, RegularImpulse, CounterImpulse, CounterNecessary, IntentBlocked;
      var counterDue := CounterIntentNecessary(debug.median, debug.sampleSize, omega, loopTimestamp);
      if counterDue {
        var counter := CounterIntent(omega);
        lastCounterIntent := loopTimestamp;
        lastIntent := loopTimestamp;
        lastIntentValue := Some(counter);
        observationBuffer.Reset();
        return Some(counter);
      }
      if IntentBlocked(config, lastIntent, debug.median, debug.sampleSize, omega, loopTimestamp) {
        debug := debug.(intentBlocked := true);
        return None;
      }
      var intent := CalculateIntentFromObs();
      lastIntent := loopTimestamp;
      observationBuffer.Reset();
      lastIntentValue := Some(intent);
      lastError := debug.error;
      return Some(intent);
    }

    method CounterIntentNecessary(median: int, sampleSize: nat, omega: real, loopTimestamp: uint32)
      returns (necessary: bool)
      requires Valid()
      ensures necessary == CounterNecessary(config, Model(), median, sampleSize, omega, loopTimestamp)
      ensures necessary ==> lastIntentValue.Some?
    {
      if lastIntentValue.None? {
        return false;
      }
      if Elapsed(loopTimestamp, lastIntent) < config.counterTimerGuard
         && lastIntentValue.value.dir != DetermineDirection(median) {
        return false;
      }
      if Elapsed(loopTimestamp, lastCounterIntent) < config.counterCooldown {
        return false;
      }
      if sampleSize < config.counterOmegaMinSampleSize || AbsReal(omega) < config.omegaThresholdForCounter {
        return false;
      }
      var nearTarget := Abs(debug.error) <= config.counterNearTargetWindow;
      if median < 0 && omega < 0.0 && nearTarget {
        return true;
      } else if median > 0 && omega > 0.0 && nearTarget {
        return true;
      } else {
        return false;
      }
    }

    method CounterIntent(omega: real) returns (intent: Intent)
      requires Valid() && lastIntentValue.Some?
      ensures intent == Intent(lastIntentValue.value.dir.Opposite(), CounterImpulse(omega))
    {
      var dir := if lastIntentValue.value.dir == Portside then Starboard else Portside;
      var mappedImpulse := AbsReal(omega) * 100.0 * 0.5;
      var clampedImpulse := if mappedImpulse < 0.0 then 0.0 else if mappedImpulse > 100.0 then 100.0 else mappedImpulse;
      return Intent(dir, clampedImpulse.Floor);
    }

    method CalculateIntentFromObs() returns (intent: Intent)
      requires Valid()
      ensures var w := observationBuffer.Window();
              intent == Intent(DetermineDirection(Median(w)),
                               RegularImpulse(config.smoothedMeanApplicationWindow, SmoothedError(config.MeanWindow(), w)))
    {
      hide Median, MedianOf, Positives, Negatives, Below;
      var median := observationBuffer.GetMedian();
      intent := Intent(DetermineDirection(median), 100);
      var currentError := observationBuffer.GetSmoothedCurrentError();
      var limit := config.smoothedMeanApplicationWindow;
      if currentError < -(limit as int) || currentError > limit {
        return;
      }
      var errorPercentage := Abs(currentError) as real / limit as real;
      Percentage(errorPercentage, limit as real, Abs(currentError) as real);
      var impulse := (100.0 * errorPercentage).Floor;
      intent := intent.(abstractImpulse := impulse);
    }
  }
}
