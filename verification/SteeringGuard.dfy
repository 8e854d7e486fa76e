/** The deadband and the guards that gate observations and regular intents. */
module SteeringGuard {
  import opened MachineInts
  import opened RegulationConfig

  predicate ErrorSignificant(cfg: Config, error: int) {
    error > cfg.steeringTolerance || error < -(cfg.steeringTolerance as int)
  }

  predicate ObservationBlocked(cfg: Config, lastUpdate: uint32, lastIntent: uint32, now: uint32) {
    || Elapsed(now, lastUpdate) < cfg.minimumTimeBtwObs
    || Elapsed(now, lastIntent) < cfg.pauseForValidObsAfterImpulse
  }

  predicate IntentBlocked(cfg: Config, lastIntent: uint32, median: int, sampleSize: nat, omega: real, now: uint32) {
    || Elapsed(now, lastIntent) < cfg.steeringCooldown
    || sampleSize < cfg.minimumSampleSize
    || !ErrorSignificant(cfg, median)
    || (median < 0 && omega < 0.0 - cfg.omegaDeadband)
    || (median > 0 && omega > 0.0 + cfg.omegaDeadband)
  }
}
