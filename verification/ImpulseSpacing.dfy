/** How far apart impulses are: on a monotone true clock, of which the controller only sees
    the low 32 bits, through any number of wraparounds. */
module ImpulseSpacing {
  import opened MachineInts
  import opened RegulationConfig
  import opened Evidence
  import opened SteeringGuard
  import opened ControllerSpec
  import opened ControllerRuns

  ghost predicate Monotone(inputs: seq<Input>) {
    forall i, j :: 0 <= i < j < |inputs| ==> inputs[i].clock <= inputs[j].clock
  }

  /** From an impulse to the next observation. */
  function Settle(cfg: Config): nat {
    Max(cfg.pauseForValidObsAfterImpulse, cfg.minimumTimeBtwObs)
  }

  /** The least time n further observations take: n * minimumTimeBtwObs. */
  function Span(cfg: Config, n: nat): nat {
    if n == 0 then 0 else Span(cfg, n - 1) + cfg.minimumTimeBtwObs
  }

  lemma {:induction false} SpanIsProduct(cfg: Config, n: nat)
    ensures Span(cfg, n) == n * cfg.minimumTimeBtwObs
  {
    if n > 0 {
      SpanIsProduct(cfg, n - 1);
      Distribute(n - 1, cfg.minimumTimeBtwObs);
    }
  }

  lemma {:induction false} SpanMonotone(cfg: Config, n: nat, m: nat)
    requires n <= m
    ensures Span(cfg, n) <= Span(cfg, m)
  {
    if n < m {
      SpanMonotone(cfg, n, m - 1);
    }
  }

  /** From an impulse to the n-th observation after it. */
  function EvidenceTime(cfg: Config, n: nat): nat
    requires n >= 1
  {
    Settle(cfg) + Span(cfg, n - 1)
  }

  function RegularGap(cfg: Config): nat {
    Max(EvidenceTime(cfg, Max(1, cfg.minimumSampleSize)), cfg.steeringCooldown)
  }

  /** The samples a counter impulse needs. */
  function CounterNeeded(cfg: Config): (n: nat)
    ensures n >= 2
  {
    Max(2, cfg.counterOmegaMinSampleSize)
  }

  /** Its evidence also takes a millisecond at least, or it would show no motion. */
  function CounterGap(cfg: Config): (gap: nat)
    ensures gap > 0
  {
    Settle(cfg) + Max(1, Span(cfg, CounterNeeded(cfg) - 1))
  }

  function Gap(cfg: Config, d: Decision): nat {
    if d.Counter? then CounterGap(cfg) else RegularGap(cfg)
  }

  ghost predicate Timed(cfg: Config, h: History) {
    && EmissionClock(h.emissions) <= AcceptedClock(h.accepted)
    && ObservationsApart(cfg, h.accepted)
    && SettledFrom(cfg, h.accepted, Seen(h.emissions), EmissionClock(h.emissions))
  }

  ghost predicate ObservationsApart(cfg: Config, a: seq<Accepted>) {
    forall k :: 0 < k < |a| ==> a[k].clock >= a[k - 1].clock + cfg.minimumTimeBtwObs
  }

  ghost predicate SettledFrom(cfg: Config, a: seq<Accepted>, from: nat, clock: nat) {
    forall k :: from <= k < |a| ==> a[k].clock >= clock + Settle(cfg)
  }

  /** Each impulse keeps its distance from the one before it, or from the start of the clock. */
  ghost predicate Spaced(cfg: Config, e: seq<Emission>) {
    forall k :: 0 <= k < |e| ==>
      && e[k].clock >= EmissionClock(e[..k]) + Gap(cfg, e[k].decision)
      && (e[k].decision.Counter? ==> e[k].clock >= CounterClock(e[..k]) + cfg.counterCooldown)
  }

  lemma {:induction false} RunTimed(cfg: Config, inputs: seq<Input>)
    requires Monotone(inputs)
    ensures var h := Run(cfg, inputs); Timed(cfg, h) && Spaced(cfg, h.emissions)
    ensures AcceptedClock(Run(cfg, inputs).accepted) <= if inputs == [] then 0 else inputs[|inputs| - 1].clock
  {
    hide StepOn, ErrorOf;
    if inputs != [] {
      var front, i := inputs[..|inputs| - 1], inputs[|inputs| - 1];
      RunTimed(cfg, front);
      RunExplained(cfg, front);
      StepTimed(cfg, Run(cfg, front), i, ErrorOf(i));
    }
  }

  lemma {:induction false} StepTimed(cfg: Config, h: History, i: Input, error: int)
    requires Digest(h) && Timed(cfg, h) && Spaced(cfg, h.emissions)
    requires AcceptedClock(h.accepted) <= i.clock
    ensures var after := StepOn(cfg, h, i, error);
            Timed(cfg, after) && Spaced(cfg, after.emissions) && AcceptedClock(after.accepted) <= i.clock
  {
    var after := StepOn(cfg, h, i, error);
    if ObservationBlocked(cfg, h.state.lastObsUpdate, h.state.lastIntent, Low32(i.clock)) {
      assert after.accepted == h.accepted && after.emissions == h.emissions;
    } else {
      StepAccepts(cfg, h, i, error);
      StepAfterAccept(cfg, h, i, error);
    }
  }

  lemma {:induction false} StepAccepts(cfg: Config, h: History, i: Input, error: int)
    requires Digest(h) && Timed(cfg, h)
    requires AcceptedClock(h.accepted) <= i.clock
    requires !ObservationBlocked(cfg, h.state.lastObsUpdate, h.state.lastIntent, Low32(i.clock))
    ensures Timed(cfg, h.(accepted := StepOn(cfg, h, i, error).accepted))
    ensures AcceptedClock(StepOn(cfg, h, i, error).accepted) == i.clock
  {
    hide StepOn, ObservationsApart, SettledFrom;
    ElapsedNeverOverstates(AcceptedClock(h.accepted), i.clock);
    ElapsedNeverOverstates(EmissionClock(h.emissions), i.clock);
    StepAcceptsError(cfg, h, i, error);
    var accepted := StepOn(cfg, h, i, error).accepted;
    assert |accepted| == |h.accepted| + 1 && accepted[|h.accepted|].clock == i.clock;
    AcceptTimed(cfg, h, accepted, i.clock);
  }

  lemma {:induction false} StepAfterAccept(cfg: Config, h: History, i: Input, error: int)
    requires Digest(h) && Spaced(cfg, h.emissions)
    requires Timed(cfg, h.(accepted := StepOn(cfg, h, i, error).accepted))
    ensures Timed(cfg, StepOn(cfg, h, i, error)) && Spaced(cfg, StepOn(cfg, h, i, error).emissions)
  {
    var emissions := StepOn(cfg, h, i, error).emissions;
    if emissions != h.emissions {
      var e := emissions[|h.emissions|];
      assert emissions == h.emissions + [e];
      StepEmissionTimed(cfg, h, i, error, e);
    }
  }

  lemma {:induction false} StepEmissionTimed(cfg: Config, h: History, i: Input, error: int, e: Emission)
    requires Digest(h) && Spaced(cfg, h.emissions)
    requires StepOn(cfg, h, i, error).emissions == h.emissions + [e]
    requires Timed(cfg, h.(accepted := StepOn(cfg, h, i, error).accepted))
    ensures Timed(cfg, StepOn(cfg, h, i, error)) && Spaced(cfg, h.emissions + [e])
  {
    EmissionShape(cfg, h, i, error, e);
    EmissionExplained(cfg, h, i, error, e);
    EmissionTimed(cfg, h.emissions, e, StepOn(cfg, h, i, error).accepted);
    EmissionSpaced(cfg, h.emissions, e);
  }

  lemma {:induction false} AcceptTimed(cfg: Config, h: History, accepted: seq<Accepted>, clock: nat)
    requires Timed(cfg, h)
    requires |accepted| == |h.accepted| + 1 && accepted[..|h.accepted|] == h.accepted
    requires accepted[|h.accepted|].clock == clock
    requires clock >= AcceptedClock(h.accepted) + cfg.minimumTimeBtwObs
    requires clock >= EmissionClock(h.emissions) + cfg.pauseForValidObsAfterImpulse
    ensures Timed(cfg, h.(accepted := accepted))
  {
    assert forall k :: 0 <= k < |h.accepted| ==> accepted[k] == h.accepted[k];
  }

  lemma {:induction false} ApartAddsUp(cfg: Config, a: seq<Accepted>, i: nat, j: nat)
    requires ObservationsApart(cfg, a) && i <= j < |a|
    ensures a[j].clock >= a[i].clock + Span(cfg, j - i)
  {
    if i < j {
      ApartAddsUp(cfg, a, i, j - 1);
    }
  }

  lemma {:induction false} EmissionTimed(cfg: Config, prior: seq<Emission>, e: Emission, accepted: seq<Accepted>)
    requires ObservationsApart(cfg, accepted)
    requires SettledFrom(cfg, accepted, Seen(prior), EmissionClock(prior))
    requires Justified(cfg, e, prior) && OwnEvidence(e, prior, accepted)
    ensures e.clock >= EmissionClock(prior) + Gap(cfg, e.decision)
  {
    hide Justified, OwnEvidence, ObservationsApart, SettledFrom, CounterGap, RegularGap, EvidenceTime;
    if e.decision.Counter? {
      CounterTimed(cfg, prior, e, accepted);
    } else {
      EvidenceOfOne(e, prior, accepted);
      EvidenceTakesTime(cfg, prior, e, accepted);
      RegularTimed(cfg, prior, e);
    }
  }

  lemma {:induction false} EvidenceOfOne(e: Emission, prior: seq<Emission>, accepted: seq<Accepted>)
    requires OwnEvidence(e, prior, accepted)
    ensures |e.evidence| >= 1
  {
  }

  lemma {:induction false} CounterTimed(cfg: Config, prior: seq<Emission>, e: Emission, accepted: seq<Accepted>)
    requires ObservationsApart(cfg, accepted)
    requires SettledFrom(cfg, accepted, Seen(prior), EmissionClock(prior))
    requires Justified(cfg, e, prior) && OwnEvidence(e, prior, accepted) && e.decision.Counter?
    ensures e.clock >= EmissionClock(prior) + CounterGap(cfg)
  {
    hide Justified, ObservationsApart, SettledFrom, CounterGap, CounterNeeded, Omega;
    JustifiedCounterSamples(cfg, e, prior);
    CounterEvidenceTakesTime(cfg, accepted, Seen(prior), EmissionClock(prior), e.seen - |e.evidence|, e.seen);
  }

  lemma {:induction false} JustifiedCounterSamples(cfg: Config, e: Emission, prior: seq<Emission>)
    requires Justified(cfg, e, prior) && e.decision.Counter?
    ensures |e.evidence| >= CounterNeeded(cfg) && Omega(cfg.omegaRobust, Stamped(e.evidence)) != 0.0
  {
    hide MedianOf, Omega;
  }

  lemma {:induction false} RegularTimed(cfg: Config, prior: seq<Emission>, e: Emission)
    requires Justified(cfg, e, prior) && !e.decision.Counter? && |e.evidence| >= 1
    requires e.clock >= EmissionClock(prior) + EvidenceTime(cfg, |e.evidence|)
    ensures e.clock >= EmissionClock(prior) + RegularGap(cfg)
  {
    hide MedianOf, Omega, EvidenceTime, RegularImpulse;
    EvidenceTimeMonotone(cfg, Max(1, cfg.minimumSampleSize), |e.evidence|);
    ElapsedNeverOverstates(EmissionClock(prior), e.clock);
  }

  /** As many settled samples as a counter needs, showing motion, take the counter gap. */
  lemma {:induction false} CounterEvidenceTakesTime(cfg: Config, a: seq<Accepted>, settled: nat, clock: nat, from: nat, to: nat)
    requires ObservationsApart(cfg, a) && SettledFrom(cfg, a, settled, clock)
    requires settled <= from && from + CounterNeeded(cfg) <= to <= |a|
    requires Omega(cfg.omegaRobust, Stamped(a[from..to])) != 0.0
    ensures a[to - 1].clock >= clock + CounterGap(cfg)
  {
    hide Omega;
    ApartAddsUp(cfg, a, from, to - 1);
    SpanMonotone(cfg, CounterNeeded(cfg) - 1, to - 1 - from);
    MotionTakesTime(cfg, a, from, to);
  }

  lemma {:induction false} MotionTakesTime(cfg: Config, a: seq<Accepted>, from: nat, to: nat)
    requires ObservationsApart(cfg, a) && from + 2 <= to <= |a|
    requires Omega(cfg.omegaRobust, Stamped(a[from..to])) != 0.0
    ensures a[to - 1].clock > a[from].clock
  {
    hide RateOver, ObservationsApart;
    var w := Stamped(a[from..to]);
    var recent := Last(w, cfg.omegaRobust);
    var first := to - |recent|;
    MotionIsMeasured(recent);
    assert recent[0] == w[|w| - |recent|] && recent[|recent| - 1] == w[|w| - 1];
    ApartAddsUp(cfg, a, from, first);
    ApartAddsUp(cfg, a, first, to - 1);
  }

  lemma {:induction false} EvidenceTakesTime(cfg: Config, prior: seq<Emission>, e: Emission, accepted: seq<Accepted>)
    requires ObservationsApart(cfg, accepted)
    requires SettledFrom(cfg, accepted, Seen(prior), EmissionClock(prior))
    requires OwnEvidence(e, prior, accepted)
    ensures e.clock >= EmissionClock(prior) + EvidenceTime(cfg, |e.evidence|)
  {
    ApartAddsUp(cfg, accepted, e.seen - |e.evidence|, e.seen - 1);
  }

  lemma {:induction false} EvidenceTimeMonotone(cfg: Config, n: nat, m: nat)
    requires 1 <= n <= m
    ensures EvidenceTime(cfg, n) <= EvidenceTime(cfg, m)
  {
    SpanMonotone(cfg, n - 1, m - 1);
  }

  lemma {:induction false} EmissionSpaced(cfg: Config, prior: seq<Emission>, e: Emission)
    requires Spaced(cfg, prior) && Justified(cfg, e, prior)
    requires e.clock >= EmissionClock(prior) + Gap(cfg, e.decision)
    ensures Spaced(cfg, prior + [e])
  {
    var all := prior + [e];
    LastCounterIsPast(cfg, prior);
    ElapsedNeverOverstates(CounterClock(prior), e.clock);
    forall k | 0 <= k < |all|
      ensures all[k].clock >= EmissionClock(all[..k]) + Gap(cfg, all[k].decision)
      ensures all[k].decision.Counter? ==> all[k].clock >= CounterClock(all[..k]) + cfg.counterCooldown
    {
      if k < |prior| {
        assert all[..k] == prior[..k];
      } else {
        assert all[..k] == prior;
      }
    }
  }

  lemma {:induction false} LastCounterIsPast(cfg: Config, e: seq<Emission>)
    requires Spaced(cfg, e)
    ensures CounterClock(e) <= EmissionClock(e)
  {
    if e != [] {
      SpacedPrefix(cfg, e);
      LastCounterIsPast(cfg, e[..|e| - 1]);
    }
  }

  lemma {:induction false} SpacedPrefix(cfg: Config, e: seq<Emission>)
    requires Spaced(cfg, e) && e != []
    ensures Spaced(cfg, e[..|e| - 1])
  {
    forall k | 0 <= k < |e| - 1
      ensures e[..|e| - 1][..k] == e[..k]
    {
    }
  }

  // ---- What the spacing means over any stretch of a run

  function RegularCount(e: seq<Emission>): nat {
    if e == [] then 0 else RegularCount(e[..|e| - 1]) + if e[|e| - 1].decision.Counter? then 0 else 1
  }

  function CounterCount(e: seq<Emission>): nat {
    if e == [] then 0 else CounterCount(e[..|e| - 1]) + if e[|e| - 1].decision.Counter? then 1 else 0
  }

  /** The gaps of all these impulses, one after the other. */
  function GapSum(cfg: Config, e: seq<Emission>): nat {
    if e == [] then 0 else GapSum(cfg, e[..|e| - 1]) + Gap(cfg, e[|e| - 1].decision)
  }

  lemma {:induction false} GapsFit(cfg: Config, e: seq<Emission>, i: nat, j: nat)
    requires Spaced(cfg, e) && i <= j < |e|
    ensures GapSum(cfg, e[i + 1..j + 1]) <= e[j].clock - e[i].clock
  {
    hide Gap, GapSum, Spaced;
    if i < j {
      GapsFit(cfg, e, i, j - 1);
      GapSumSnoc(cfg, e, i + 1, j);
      SpacedAt(cfg, e, j);
    } else {
      GapSumEmpty(cfg, e[i + 1..j + 1]);
    }
  }

  lemma {:induction false} SpacedAt(cfg: Config, e: seq<Emission>, j: nat)
    requires Spaced(cfg, e) && 0 < j < |e|
    ensures e[j].clock >= e[j - 1].clock + Gap(cfg, e[j].decision)
  {
    assert EmissionClock(e[..j]) == e[j - 1].clock;
  }

  lemma {:induction false} GapSumEmpty(cfg: Config, e: seq<Emission>)
    requires e == []
    ensures GapSum(cfg, e) == 0
  {
  }

  lemma {:induction false} GapSumSnoc(cfg: Config, e: seq<Emission>, i: nat, j: nat)
    requires i <= j < |e|
    ensures GapSum(cfg, e[i..j + 1]) == GapSum(cfg, e[i..j]) + Gap(cfg, e[j].decision)
  {
    var longer := e[i..j + 1];
    assert longer[..|longer| - 1] == e[i..j];
  }

  lemma {:induction false} GapSumByKind(cfg: Config, e: seq<Emission>)
    ensures GapSum(cfg, e) == RegularCount(e) * RegularGap(cfg) + CounterCount(e) * CounterGap(cfg)
    ensures RegularCount(e) + CounterCount(e) == |e|
  {
    if e != [] {
      var front := e[..|e| - 1];
      GapSumByKind(cfg, front);
      Distribute(CounterCount(front), CounterGap(cfg));
      Distribute(RegularCount(front), RegularGap(cfg));
    }
  }

  lemma {:induction false} Distribute(n: nat, g: nat)
    ensures (n + 1) * g == n * g + g
  {
  }

  /** Every run, every stretch of it: regular and counter impulses share the elapsed time. */
  lemma {:induction false} ImpulseRateBound(cfg: Config, inputs: seq<Input>, i: nat, j: nat)
    requires Monotone(inputs) && i <= j < |Run(cfg, inputs).emissions|
    ensures (var e := Run(cfg, inputs).emissions;
             RegularCount(e[i + 1..j + 1]) * RegularGap(cfg) + CounterCount(e[i + 1..j + 1]) * CounterGap(cfg)
             <= e[j].clock - e[i].clock)
  {
    RunTimed(cfg, inputs);
    GapsFit(cfg, Run(cfg, inputs).emissions, i, j);
    GapSumByKind(cfg, Run(cfg, inputs).emissions[i + 1..j + 1]);
  }

  /** A horizon of T milliseconds holds at most 1 + T / gap impulses, gap being the smaller
      of the two distances. */
  lemma {:induction false} ImpulsesInHorizon(cfg: Config, inputs: seq<Input>, i: nat, j: nat, horizon: nat)
    requires Monotone(inputs) && i <= j < |Run(cfg, inputs).emissions|
    requires Run(cfg, inputs).emissions[j].clock - Run(cfg, inputs).emissions[i].clock <= horizon
    requires RegularGap(cfg) > 0
    ensures j - i + 1 <= 1 + horizon / Min(RegularGap(cfg), CounterGap(cfg))
  {
    RunTimed(cfg, inputs);
    StretchInHorizon(cfg, Run(cfg, inputs).emissions, i, j, horizon);
  }

  lemma {:induction false} StretchInHorizon(cfg: Config, e: seq<Emission>, i: nat, j: nat, horizon: nat)
    requires Spaced(cfg, e) && i <= j < |e| && e[j].clock - e[i].clock <= horizon
    requires RegularGap(cfg) > 0
    ensures j - i + 1 <= 1 + horizon / Min(RegularGap(cfg), CounterGap(cfg))
  {
    hide GapSum, Spaced, RegularGap, CounterGap;
    GapsFit(cfg, e, i, j);
    GapSumAtLeast(cfg, e[i + 1..j + 1]);
    QuotientAtLeast(j - i, Min(RegularGap(cfg), CounterGap(cfg)), horizon);
  }

  lemma {:induction false} GapSumAtLeast(cfg: Config, e: seq<Emission>)
    ensures |e| * Min(RegularGap(cfg), CounterGap(cfg)) <= GapSum(cfg, e)
  {
    if e != [] {
      GapSumAtLeast(cfg, e[..|e| - 1]);
      Distribute(|e| - 1, Min(RegularGap(cfg), CounterGap(cfg)));
    }
  }

  lemma {:induction false} QuotientAtLeast(n: nat, g: nat, t: nat)
    requires g > 0 && n * g <= t
    ensures n <= t / g
  {
    QuotientBounds(t, g);
    MulCancel(n, t / g + 1, g);
  }

  /** Any two counter impulses keep the counter cooldown, whatever lies between them. */
  lemma {:induction false} CountersKeepCooldown(cfg: Config, inputs: seq<Input>, i: nat, j: nat)
    requires Monotone(inputs) && i < j < |Run(cfg, inputs).emissions|
    requires Run(cfg, inputs).emissions[i].decision.Counter? && Run(cfg, inputs).emissions[j].decision.Counter?
    ensures Run(cfg, inputs).emissions[j].clock >= Run(cfg, inputs).emissions[i].clock + cfg.counterCooldown
  {
    RunTimed(cfg, inputs);
    CounterClockCovers(cfg, Run(cfg, inputs).emissions, i, j);
  }

  lemma {:induction false} CounterClockCovers(cfg: Config, e: seq<Emission>, i: nat, j: nat)
    requires Spaced(cfg, e) && i < j <= |e| && e[i].decision.Counter?
    ensures CounterClock(e[..j]) >= e[i].clock
  {
    hide Spaced, CounterClock;
    CounterClockNext(e, j - 1);
    if j - 1 > i {
      CounterClockCovers(cfg, e, i, j - 1);
      CounterAfterCounters(cfg, e, j - 1);
    }
  }

  lemma {:induction false} CounterClockNext(e: seq<Emission>, j: nat)
    requires j < |e|
    ensures CounterClock(e[..j + 1]) == if e[j].decision.Counter? then e[j].clock else CounterClock(e[..j])
  {
    assert e[..j + 1][..j] == e[..j];
  }

  lemma {:induction false} CounterAfterCounters(cfg: Config, e: seq<Emission>, j: nat)
    requires Spaced(cfg, e) && j < |e|
    ensures e[j].decision.Counter? ==> e[j].clock >= CounterClock(e[..j])
  {
  }
}
