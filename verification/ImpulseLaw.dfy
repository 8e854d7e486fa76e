/** From the stored errors to the strength of a regular impulse. */
module ImpulseLaw {
  import opened MachineInts
  import opened RealProducts
  import opened RegulationConfig
  import opened Evidence
  import opened ControllerSpec
  import opened ControllerRuns

  /** The smoothed error lies between the bounds of the errors it averages. */
  lemma {:induction false} SmoothedErrorBetween(window: nat, w: Window, lo: int, hi: int)
    requires w != [] && window > 0
    requires forall i :: |w| - Min(|w|, window) <= i < |w| ==> lo <= w[i].error <= hi
    ensures lo <= SmoothedError(window, w) <= hi
  {
    var recent := Last(Errors(w), window);
    SumBetween(recent, lo, hi);
    TruncDivBounds(Sum(recent), |recent|, lo, hi);
  }

  /** It is the sum over the last arrivals divided by their number, cut toward zero. */
  lemma {:induction false} SmoothedErrorIsMean(window: nat, w: Window)
    requires w != [] && window > 0
    ensures var n, m := Min(|w|, window), SmoothedError(window, w);
            var sum := Sum(Errors(w)[|w| - n..]);
            if sum >= 0 then m * n <= sum < (m + 1) * n else (m - 1) * n < sum <= m * n
  {
    var recent := Last(Errors(w), window);
    var sum, n := Sum(recent), |recent|;
    if sum >= 0 {
      QuotientBounds(sum, n);
    } else {
      QuotientBounds(-sum, n);
      assert (-TruncDiv(sum, n)) * n == -(TruncDiv(sum, n) * n);
      assert (-TruncDiv(sum, n) + 1) * n == -((TruncDiv(sum, n) - 1) * n);
    }
  }

  lemma {:induction false} SumAdds(a: seq<int>, b: seq<int>)
    ensures Sum(a + b) == Sum(a) + Sum(b)
    ensures |b| == 1 ==> Sum(b) == b[0]
  {
    if b == [] {
      assert a + b == a;
    } else {
      var front, last := b[..|b| - 1], b[|b| - 1];
      SumAdds(a, front);
      assert (a + b)[..|a + b| - 1] == a + front && (a + b)[|a + b| - 1] == last;
    }
  }

  /** The window is the configured one, as far as it fits a byte, and then what is left of it. */
  lemma {:induction false} MeanWindowAsConfigured(cfg: Config)
    ensures cfg.calculationWindowSmoothedMean < 256 ==> cfg.MeanWindow() == cfg.calculationWindowSmoothedMean
    ensures cfg.MeanWindow() < 256 && exists k: nat :: cfg.calculationWindowSmoothedMean == cfg.MeanWindow() + 256 * k
  {
    assert cfg.calculationWindowSmoothedMean == cfg.MeanWindow() + 256 * (cfg.calculationWindowSmoothedMean / 256);
  }

  lemma {:induction false} SumBetween(s: seq<int>, lo: int, hi: int)
    requires forall i :: 0 <= i < |s| ==> lo <= s[i] <= hi
    ensures lo * |s| <= Sum(s) <= hi * |s|
  {
    if s != [] {
      SumBetween(s[..|s| - 1], lo, hi);
      assert lo * |s| == lo * (|s| - 1) + lo && hi * |s| == hi * (|s| - 1) + hi;
    }
  }

  /** The regular impulse is min(100, floor(100 |m| / W)). */
  lemma {:induction false} RegularImpulseLaw(limit: PositiveInt8, m: int)
    ensures RegularImpulse(limit, m) == Min(100, 100 * Abs(m) / limit)
  {
    QuotientBounds(100 * Abs(m), limit);
    if Abs(m) > limit {
      MulCancel(100, 100 * Abs(m) / limit + 1, limit);
    } else {
      FloorOfShare(Abs(m), limit);
      MulCancel(100 * Abs(m) / limit, 101, limit);
    }
  }

  lemma {:induction false} FloorOfShare(part: nat, whole: nat)
    requires 0 < whole
    ensures (100.0 * (part as real / whole as real)).Floor == 100 * part / whole
  {
    hide Mul;
    var share := part as real / whole as real;
    HundredFold(share, part as real, whole as real);
    FloorOfQuotient(100.0 * share, 100 * part, whole);
  }

  lemma {:induction false} HundredFold(share: real, part: real, whole: real)
    requires whole != 0.0 && share == part / whole
    ensures Mul(100.0 * share, whole) == 100.0 * part
  {
    QuotientTimes(part, whole);
    Associate(100.0, share, whole);
  }

  lemma {:induction false} Associate(c: real, x: real, y: real)
    ensures Mul(c * x, y) == c * (x * y)
  {
  }

  lemma {:induction false} FloorOfQuotient(x: real, a: nat, n: nat)
    requires 0 < n && Mul(x, n as real) == a as real
    ensures x.Floor == a / n
  {
    QuotientBounds(a, n);
    QuotientIsNatural(a, n);
    FloorFromProducts(x, a / n, a, n);
  }

  lemma {:induction false} QuotientIsNatural(a: nat, n: nat)
    requires 0 < n
    ensures a / n >= 0
  {
    QuotientBounds(a, n);
    MulCancel(0, a / n + 1, n);
  }

  lemma {:induction false} FloorFromProducts(x: real, q: nat, a: nat, whole: nat)
    requires 0 < whole && x * whole as real == a as real
    requires q * whole <= a < (q + 1) * whole
    ensures x.Floor == q
  {
    RealOfProduct(q, whole);
    RealOfProduct(q + 1, whole);
    assert (q * whole) as real <= a as real < ((q + 1) * whole) as real;
    FloorBetween(q, x, whole as real);
  }

  lemma {:induction false} FloorBetween(q: int, x: real, w: real)
    requires w > 0.0 && q as real * w <= x * w < (q + 1) as real * w
    ensures x.Floor == q
  {
    CancelFactor(q as real, x, w);
    CancelFactor(x, (q + 1) as real, w);
  }

  lemma {:induction false} RealOfProduct(a: nat, b: nat)
    ensures (a * b) as real == a as real * b as real
  {
    if a > 0 {
      RealOfProduct(a - 1, b);
      assert a * b == (a - 1) * b + b;
    }
  }

  lemma {:induction false} RegularImpulseMonotone(limit: PositiveInt8, m: int, n: int)
    requires Abs(m) <= Abs(n)
    ensures RegularImpulse(limit, m) <= RegularImpulse(limit, n) <= 100
  {
    RegularImpulseLaw(limit, m);
    RegularImpulseLaw(limit, n);
    QuotientBounds(100 * Abs(m), limit);
    QuotientBounds(100 * Abs(n), limit);
    MulCancel(100 * Abs(m) / limit, 100 * Abs(n) / limit + 1, limit);
  }

  /** In every run every regular impulse has the strength of the truncated mean of its latest
      evidence, which is no larger than the largest error in it. */
  lemma {:induction false} RegularImpulseOfRun(cfg: Config, inputs: seq<Input>, k: nat, peak: nat)
    requires k < |Run(cfg, inputs).emissions| && Run(cfg, inputs).emissions[k].decision.Regular?
    requires forall a :: a in Run(cfg, inputs).emissions[k].evidence ==> Abs(a.error) <= peak
    ensures var e := Run(cfg, inputs).emissions[k];
            var recent := Last(ErrorsOf(e.evidence), cfg.MeanWindow());
            var m := if recent == [] then 0 else TruncDiv(Sum(recent), |recent|);
            && e.decision.intent.abstractImpulse == Min(100, 100 * Abs(m) / cfg.smoothedMeanApplicationWindow)
            && Abs(m) <= peak
  {
    RunExplained(cfg, inputs);
    var e := Run(cfg, inputs).emissions[k];
    assert Justified(cfg, e, Run(cfg, inputs).emissions[..k]);
    assert OwnEvidence(e, Run(cfg, inputs).emissions[..k], Run(cfg, inputs).accepted);
    MeanOfEvidence(cfg, e.evidence, peak);
  }

  lemma {:induction false} MeanOfEvidence(cfg: Config, evidence: seq<Accepted>, peak: int)
    requires evidence != [] && peak >= 0
    requires forall a :: a in evidence ==> Abs(a.error) <= peak
    ensures var m := SmoothedError(cfg.MeanWindow(), Stamped(evidence));
            && Abs(m) <= peak
            && RegularImpulse(cfg.smoothedMeanApplicationWindow, m)
                 == Min(100, 100 * Abs(m) / cfg.smoothedMeanApplicationWindow)
  {
    var w := Stamped(evidence);
    RegularImpulseLaw(cfg.smoothedMeanApplicationWindow, SmoothedError(cfg.MeanWindow(), w));
    if cfg.MeanWindow() > 0 {
      forall i | 0 <= i < |w|
        ensures -peak <= w[i].error <= peak
      {
        assert evidence[i] in evidence;
      }
      SmoothedErrorBetween(cfg.MeanWindow(), w, -peak, peak);
    }
  }

  // ---- Counter impulses

  /** The counter impulse is min(100, floor(50 |omega|)). */
  lemma {:induction false} CounterImpulseLaw(omega: real)
    ensures CounterImpulse(omega) == Min(100, (50.0 * AbsReal(omega)).Floor)
  {
  }

  lemma {:induction false} CounterImpulseMonotone(v: real, w: real)
    requires AbsReal(v) <= AbsReal(w)
    ensures CounterImpulse(v) <= CounterImpulse(w) <= 100
  {
    CounterImpulseLaw(v);
    CounterImpulseLaw(w);
  }

  /** For a change of the error over a span of milliseconds it is a share in whole numbers. */
  lemma {:induction false} CounterImpulseOfRate(change: int, span: nat)
    requires span > 0
    ensures CounterImpulse(Rate(change, span)) == Min(100, 50000 * Abs(change) / span)
  {
    hide CounterImpulse, Rate, Mul;
    var rate := Rate(change, span);
    CounterImpulseLaw(rate);
    RateTimesSpan(change, span);
    FloorOfQuotient(50.0 * AbsReal(rate), 50000 * Abs(change), span);
  }

  lemma {:induction false} RateTimesSpan(change: int, span: nat)
    requires span > 0
    ensures Mul(50.0 * AbsReal(Rate(change, span)), span as real) == (50000 * Abs(change)) as real
  {
    hide Mul;
    var rate := Rate(change, span);
    RateIsQuotient(change, span);
    AbsProduct(rate, span as real);
    Associate(50.0, AbsReal(rate), span as real);
  }

  lemma {:induction false} RateIsQuotient(change: int, span: nat)
    requires span > 0
    ensures Rate(change, span) * span as real == -(change as real * 1000.0)
  {
    QuotientTimes(change as real * 1000.0, span as real);
  }

  lemma {:induction false} QuotientTimes(x: real, y: real)
    requires y != 0.0
    ensures x / y * y == x && -(x / y) * y == -x
  {
  }

  /** In every run every counter impulse has the strength of the change between the first and
      the last of its robust samples, over the time between them. */
  lemma {:induction false} CounterImpulseOfRun(cfg: Config, inputs: seq<Input>, k: nat)
    requires k < |Run(cfg, inputs).emissions| && Run(cfg, inputs).emissions[k].decision.Counter?
    ensures CounterOfEvidence(cfg, Run(cfg, inputs).emissions[k])
  {
    hide Run;
    RunExplained(cfg, inputs);
    CounterMeasures(cfg, Run(cfg, inputs).emissions[k], Run(cfg, inputs).emissions[..k]);
  }

  ghost predicate CounterOfEvidence(cfg: Config, e: Emission)
    requires e.decision.Counter?
  {
    var recent := Stamped(Last(e.evidence, cfg.omegaRobust));
    && |recent| >= 2 && recent[0].time < recent[|recent| - 1].time
    && e.decision.intent.abstractImpulse ==
         Min(100, 50000 * Abs(recent[|recent| - 1].error - recent[0].error)
                  / (recent[|recent| - 1].time - recent[0].time))
  }

  lemma {:induction false} CounterMeasures(cfg: Config, e: Emission, prior: seq<Emission>)
    requires e.decision.Counter? && Justified(cfg, e, prior)
    ensures CounterOfEvidence(cfg, e)
  {
    hide CounterImpulse, RateOver, Justified;
    assert Stamped(Last(e.evidence, cfg.omegaRobust)) == Last(Stamped(e.evidence), cfg.omegaRobust);
    JustifiedCounter(cfg, e, prior);
    CounterOfSamples(Stamped(Last(e.evidence, cfg.omegaRobust)));
  }

  lemma {:induction false} JustifiedCounter(cfg: Config, e: Emission, prior: seq<Emission>)
    requires e.decision.Counter? && Justified(cfg, e, prior)
    ensures var omega := RateOver(Last(Stamped(e.evidence), cfg.omegaRobust));
            omega != 0.0 && e.decision.intent.abstractImpulse == CounterImpulse(omega)
  {
    hide CounterImpulse, RateOver, MedianOf;
  }

  lemma {:induction false} CounterOfSamples(recent: Window)
    requires RateOver(recent) != 0.0
    ensures |recent| >= 2 && recent[0].time < recent[|recent| - 1].time
    ensures CounterImpulse(RateOver(recent))
         == Min(100, 50000 * Abs(recent[|recent| - 1].error - recent[0].error)
                     / (recent[|recent| - 1].time - recent[0].time))
  {
    hide CounterImpulse, Rate;
    CounterImpulseOfRate(recent[|recent| - 1].error - recent[0].error, recent[|recent| - 1].time - recent[0].time);
  }
}
