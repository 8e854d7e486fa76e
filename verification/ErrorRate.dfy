/** What omega means on a clock that has not wrapped. */
module ErrorRate {
  import opened MachineInts
  import opened RealProducts
  import opened RegulationConfig
  import opened HeadingError
  import opened Evidence
  import opened ControllerSpec
  import opened ControllerRuns
  import opened ImpulseSpacing

  ghost predicate CompassInputs(inputs: seq<Input>) {
    forall i :: 0 <= i < |inputs| ==> inputs[i].heading < 360 && inputs[i].target < 360
  }

  ghost predicate BeforeWrap(inputs: seq<Input>) {
    forall i :: 0 <= i < |inputs| ==> inputs[i].clock < WORD
  }

  ghost predicate SaneSamples(a: seq<Accepted>) {
    forall k :: 0 <= k < |a| ==> a[k].clock < WORD && -180 <= a[k].error <= 179
  }

  /** Omega looks at the last omegaRobust samples only. */
  lemma {:induction false} OmegaIsLocal(robust: nat, v: Window, w: Window)
    requires |v| >= robust && |w| >= robust
    requires v[|v| - robust..] == w[|w| - robust..]
    ensures Omega(robust, v) == Omega(robust, w)
  {
    assert Last(v, robust) == Last(w, robust);
  }

  /** Omega times the milliseconds from the first to the last of the robust samples is minus a
      thousand times the change of the error; without two samples in order of time it is zero. */
  lemma {:induction false} OmegaIsRate(robust: nat, w: Window)
    ensures var n, omega := Min(|w|, robust), Omega(robust, w);
            if n < 2 then omega == 0.0
            else
              var first, last := w[|w| - n], w[|w| - 1];
              if last.time <= first.time then omega == 0.0
              else Mul(omega, (last.time - first.time) as real) == -1000.0 * (last.error - first.error) as real
  {
    hide Mul, Omega, Rate;
    if Min(|w|, robust) < 2 {
      OmegaOfFew(robust, w);
    } else {
      OmegaOfEnds(robust, w);
      var first, last := w[|w| - Min(|w|, robust)], w[|w| - 1];
      if last.time > first.time {
        RateTimesTime(last.error - first.error, last.time - first.time);
      }
    }
  }

  lemma {:induction false} RateTimesTime(change: int, span: nat)
    requires span > 0
    ensures Mul(Rate(change, span), span as real) == -1000.0 * change as real
  {
  }

  /** The rate over recent samples is positive exactly when the error fell, negative exactly
      when it rose, and bounded by the largest change per shortest time. */
  ghost predicate MeasuresTheRate(cfg: Config, recent: seq<Accepted>, omega: real) {
    if |recent| < 2 then omega == 0.0
    else
      RateOfChange(recent[|recent| - 1].error - recent[0].error, Span(cfg, |recent| - 1), omega)
  }

  ghost predicate RateOfChange(change: int, leastTime: nat, omega: real) {
    && (omega > 0.0 <==> change < 0)
    && (omega < 0.0 <==> change > 0)
    && AbsReal(omega) * leastTime as real <= 359000.0
  }

  /** Every evidence window of every such run, and hence every emission's. */
  lemma {:induction false} OmegaMeasuresErrorRate(cfg: Config, inputs: seq<Input>, from: nat, to: nat)
    requires Monotone(inputs) && CompassInputs(inputs) && BeforeWrap(inputs)
    requires cfg.minimumTimeBtwObs > 0
    requires from <= to <= |Run(cfg, inputs).accepted|
    ensures ObservationsApart(cfg, Run(cfg, inputs).accepted)
    ensures var evidence := Run(cfg, inputs).accepted[from..to];
            MeasuresTheRate(cfg, Last(evidence, cfg.omegaRobust), Omega(cfg.omegaRobust, Stamped(evidence)))
  {
    RunTimed(cfg, inputs);
    RunSane(cfg, inputs);
    SliceIsMeasured(cfg, Run(cfg, inputs).accepted, from, to);
  }

  lemma {:induction false} SliceIsMeasured(cfg: Config, a: seq<Accepted>, from: nat, to: nat)
    requires ObservationsApart(cfg, a) && SaneSamples(a)
    requires cfg.minimumTimeBtwObs > 0 && from <= to <= |a|
    ensures MeasuresTheRate(cfg, Last(a[from..to], cfg.omegaRobust), Omega(cfg.omegaRobust, Stamped(a[from..to])))
  {
    var recent := Last(a[from..to], cfg.omegaRobust);
    assert Stamped(recent) == Last(Stamped(a[from..to]), cfg.omegaRobust);
    assert recent == a[to - |recent|..to];
    if |recent| >= 2 {
      ApartAddsUp(cfg, a, to - |recent|, to - 1);
      RateIsMeasured(cfg, recent);
    }
  }

  lemma {:induction false} RateIsMeasured(cfg: Config, recent: seq<Accepted>)
    requires |recent| >= 2 && cfg.minimumTimeBtwObs > 0 && SaneSamples(recent)
    requires recent[|recent| - 1].clock >= recent[0].clock + Span(cfg, |recent| - 1)
    ensures RateOfChange(recent[|recent| - 1].error - recent[0].error, Span(cfg, |recent| - 1), RateOver(Stamped(recent)))
  {
    hide RateOver, Rate, RateOfChange;
    var change, span := recent[|recent| - 1].error - recent[0].error, recent[|recent| - 1].clock - recent[0].clock;
    SpanMonotone(cfg, 1, |recent| - 1);
    RateOverEnds(Stamped(recent));
    RateBound(change, span, Span(cfg, |recent| - 1));
  }

  lemma {:induction false} RateBound(change: int, span: nat, least: nat)
    requires -359 <= change <= 359 && 0 < least <= span
    ensures RateOfChange(change, least, Rate(change, span))
  {
    var rate := Rate(change, span);
    assert rate * span as real == -(change as real * 1000.0);
    SignOfProduct(rate, span as real);
    ProductMonotone(AbsReal(rate), least as real, span as real);
    AbsProduct(rate, span as real);
  }

  lemma {:induction false} RunSane(cfg: Config, inputs: seq<Input>)
    requires CompassInputs(inputs) && BeforeWrap(inputs)
    ensures SaneSamples(Run(cfg, inputs).accepted)
  {
    if inputs != [] {
      var front, i := inputs[..|inputs| - 1], inputs[|inputs| - 1];
      RunSane(cfg, front);
      StepAcceptsError(cfg, Run(cfg, front), i, ErrorOf(i));
      ErrorIsShortestRotation(i.heading, i.target);
    }
  }

  /** In every run every regular impulse is issued while the error shrinks no faster than the
      omega deadband. */
  lemma {:induction false} RegularOnlyOutsideRecovery(cfg: Config, inputs: seq<Input>, k: nat)
    requires k < |Run(cfg, inputs).emissions| && Run(cfg, inputs).emissions[k].decision.Regular?
    ensures var e := Run(cfg, inputs).emissions[k];
            var omega := Omega(cfg.omegaRobust, Stamped(e.evidence));
            if e.decision.intent.dir == Starboard then omega <= cfg.omegaDeadband
            else -omega <= cfg.omegaDeadband
  {
    RunExplained(cfg, inputs);
    assert Justified(cfg, Run(cfg, inputs).emissions[k], Run(cfg, inputs).emissions[..k]);
  }
}
