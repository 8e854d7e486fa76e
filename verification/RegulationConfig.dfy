/** The regulation settings of the core steering controller (SteeringRegulationConfig). */
module RegulationConfig {
  import opened MachineInts

  // The loader accepts 1..127 here, and the configuration notes ask for more than zero.
  type PositiveInt8 = x: int | 1 <= x <= 127 witness 20
  // "Must be >= 0" in the configuration notes, and checked by the loader.
  type NonNegative = x: real | 0.0 <= x

  const OBSERVATION_BUFFER_SIZE: uint8 := 70

  // Times are in milliseconds, angles in degrees, rates in degrees per second.
  datatype Config = Config(
    steeringTolerance: uint8,
    counterNearTargetWindow: uint8,
    smoothedMeanApplicationWindow: PositiveInt8,
    calculationWindowSmoothedMean: uint32,
    omegaDeadband: NonNegative,
    activeObservationBufferSize: uint8,
    minimumSampleSize: uint8,
    omegaRobust: uint8,
    omegaThresholdForCounter: real,
    counterOmegaMinSampleSize: uint8,
    minimumTimeBtwObs: uint32,
    pauseForValidObsAfterImpulse: uint32,
    steeringCooldown: uint32,
    counterTimerGuard: uint32,
    counterCooldown: uint32)
  {
    /** getActiveBufferSize. */
    function ActiveBufferSize(): (size: nat)
      ensures 1 <= size <= OBSERVATION_BUFFER_SIZE
    {
      if activeObservationBufferSize == 0 then 1
      else Min(activeObservationBufferSize, OBSERVATION_BUFFER_SIZE)
    }

    /** The window of the smoothed mean after it is stored in a uint8_t. */
    function MeanWindow(): uint8 {
      calculationWindowSmoothedMean % 0x100
    }
  }

  const DEFAULT_CONFIG := Config(1, 2, 20, 4, 0.2, 70, 10, 3, 0.02, 3, 1000, 3000, 2000, 2000, 7000)

  /** The range checks the simulator's loader adds to the types of the fields. */
  predicate LoaderAccepts(cfg: Config) {
    && 1 <= cfg.counterNearTargetWindow
    && 1 <= cfg.counterOmegaMinSampleSize
    && 1 <= cfg.activeObservationBufferSize <= OBSERVATION_BUFFER_SIZE
    && cfg.minimumSampleSize <= cfg.activeObservationBufferSize
    && 0.0 <= cfg.omegaThresholdForCounter
  }
}
