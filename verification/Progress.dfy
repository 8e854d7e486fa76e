/** When the controller is certain to act: one-sided evidence that does not shrink. */
module Progress {
  import opened MachineInts
  import opened RegulationConfig
  import opened OrderStatistics
  import opened Evidence
  import opened SteeringGuard
  import opened ControllerSpec
  import opened ControllerRuns
  import opened ImpulseSpacing
  import opened ErrorRate

  /** Every error is beyond the tolerance on this side, and none is smaller than an earlier one. */
  ghost predicate OneSided(cfg: Config, side: Direction, errors: seq<int>) {
    && (forall i :: 0 <= i < |errors| ==> Abs(errors[i]) > cfg.steeringTolerance && (errors[i] > 0 <==> side == Starboard))
    && (forall i, j :: 0 <= i < j < |errors| ==> Abs(errors[i]) <= Abs(errors[j]))
  }

  /** The samples a regular impulse needs. */
  function Needed(cfg: Config): nat {
    Max(1, cfg.minimumSampleSize)
  }

  lemma {:induction false} OneSidedMedian(cfg: Config, side: Direction, errors: seq<int>)
    requires errors != [] && OneSided(cfg, side, errors)
    ensures Abs(MedianOf(errors)) > cfg.steeringTolerance
    ensures MedianOf(errors) > 0 <==> side == Starboard
  {
    var bound: int := cfg.steeringTolerance;
    BelowMonotone(errors, 0, 1);
    if side == Starboard {
      BelowEmpty(errors, bound + 1);
      BelowEmpty(errors, 1);
      OrderStatistic(errors, |errors| / 2, bound + 1);
    } else {
      BelowFull(errors, 0);
      BelowFull(errors, -bound);
      OrderStatistic(errors, |errors| / 2, -bound);
    }
  }

  /** Errors that do not shrink show no motion toward the target. */
  lemma {:induction false} OneSidedOmega(cfg: Config, side: Direction, w: Window)
    requires OneSided(cfg, side, Errors(w))
    ensures if side == Starboard then Omega(cfg.omegaRobust, w) <= 0.0 else Omega(cfg.omegaRobust, w) >= 0.0
  {
    var recent := Last(w, cfg.omegaRobust);
    if |recent| >= 2 && recent[|recent| - 1].time > recent[0].time {
      var first, last := |w| - |recent|, |w| - 1;
      assert recent[0].error == Errors(w)[first] && recent[|recent| - 1].error == Errors(w)[last];
      assert Abs(Errors(w)[first]) <= Abs(Errors(w)[last]);
      QuotientSign((recent[|recent| - 1].error - recent[0].error) as real * 1000.0,
                   (recent[|recent| - 1].time - recent[0].time) as real);
    }
  }

  lemma {:induction false} QuotientSign(x: real, y: real)
    requires y > 0.0
    ensures x >= 0.0 ==> x / y >= 0.0
    ensures x <= 0.0 ==> x / y <= 0.0
  {
  }

  /** On one-sided evidence no counter is due, and the regular impulse waits for nothing but
      the sample count and the cooldown. */
  lemma {:induction false} OneSidedDecision(cfg: Config, side: Direction, s: State, now: uint32)
    requires s.window != [] && OneSided(cfg, side, Errors(s.window))
    ensures var due := |s.window| >= cfg.minimumSampleSize && Elapsed(now, s.lastIntent) >= cfg.steeringCooldown;
            if due then Decide(cfg, s, now).Regular? && Decide(cfg, s, now).intent.dir == side
            else Decide(cfg, s, now).NoIntent?
  {
    OneSidedMedian(cfg, side, Errors(s.window));
    OneSidedOmega(cfg, side, s.window);
  }

  /** The observations h accepted since base, all on one side. */
  ghost predicate OneSidedSince(cfg: Config, base: History, h: History, side: Direction) {
    && base.accepted <= h.accepted
    && OneSided(cfg, side, ErrorsOf(h.accepted[|base.accepted|..]))
  }

  /** They are all still in the window, and nothing was emitted. */
  ghost predicate Piled(base: History, h: History) {
    && base.accepted <= h.accepted
    && h.emissions == base.emissions
    && h.state.window == Stamped(h.accepted[|base.accepted|..])
  }

  /** Below the needed count, accepted one-sided errors pile up in the window. */
  lemma {:induction false} EvidencePilesUp(cfg: Config, inputs: seq<Input>, p: nat, q: nat, side: Direction)
    requires p <= q <= |inputs| && Needed(cfg) < cfg.ActiveBufferSize()
    requires Run(cfg, inputs[..p]).state.window == []
    requires OneSidedSince(cfg, Run(cfg, inputs[..p]), Run(cfg, inputs[..q]), side)
    requires |Run(cfg, inputs[..q]).accepted| < |Run(cfg, inputs[..p]).accepted| + Needed(cfg)
    ensures Piled(Run(cfg, inputs[..p]), Run(cfg, inputs[..q]))
  {
    hide StepOn, Step, ErrorOf, OneSided;
    if q > p {
      var error := RunNext(cfg, inputs, q - 1);
      AcceptedGrows(cfg, inputs, p, q - 1);
      OneSidedBefore(cfg, Run(cfg, inputs[..p]), Run(cfg, inputs[..q - 1]), inputs[q - 1], error, side);
      EvidencePilesUp(cfg, inputs, p, q - 1, side);
      PileStep(cfg, Run(cfg, inputs[..p]), Run(cfg, inputs[..q - 1]), inputs[q - 1], error, side);
    }
  }

  lemma {:induction false} AcceptedGrows(cfg: Config, inputs: seq<Input>, p: nat, q: nat)
    requires p <= q <= |inputs|
    ensures Run(cfg, inputs[..p]).accepted <= Run(cfg, inputs[..q]).accepted
  {
    hide StepOn, Step, ErrorOf;
    if p < q {
      var error := RunNext(cfg, inputs, q - 1);
      AcceptedGrows(cfg, inputs, p, q - 1);
      StepAcceptsError(cfg, Run(cfg, inputs[..q - 1]), inputs[q - 1], error);
    }
  }

  lemma {:induction false} OneSidedBefore(cfg: Config, base: History, h: History, i: Input, error: int, side: Direction)
    requires base.accepted <= h.accepted && OneSidedSince(cfg, base, StepOn(cfg, h, i, error), side)
    ensures OneSidedSince(cfg, base, h, side) && |h.accepted| <= |StepOn(cfg, h, i, error).accepted|
  {
    hide RegularImpulse, RateOver, MedianOf, Choose, StepOn;
    StepAcceptsError(cfg, h, i, error);
    var a, b := h.accepted[|base.accepted|..], StepOn(cfg, h, i, error).accepted[|base.accepted|..];
    assert forall i :: 0 <= i < |a| ==> ErrorsOf(a)[i] == ErrorsOf(b)[i];
  }

  /** An accepted error beyond the tolerance joins the window. */
  lemma {:induction false} Joins(cfg: Config, base: History, h: History, i: Input, error: int, side: Direction)
    requires Piled(base, h) && OneSidedSince(cfg, base, StepOn(cfg, h, i, error), side)
    requires |h.state.window| + 1 < cfg.ActiveBufferSize()
    requires !ObservationBlocked(cfg, h.state.lastObsUpdate, h.state.lastIntent, Low32(i.clock))
    ensures Observed(cfg, Feed(h.state, i), error, Low32(i.clock)).window
         == Stamped(StepOn(cfg, h, i, error).accepted[|base.accepted|..])
  {
    hide RegularImpulse, RateOver, MedianOf, Choose;
    var x := Accepted(error, i.clock);
    var from := |base.accepted|;
    assert StepOn(cfg, h, i, error).accepted == h.accepted + [x];
    assert (h.accepted + [x])[from..] == h.accepted[from..] + [x];
    var errors := ErrorsOf((h.accepted + [x])[from..]);
    assert errors[|errors| - 1] == x.error;
  }

  lemma {:induction false} PileStep(cfg: Config, base: History, h: History, i: Input, error: int, side: Direction)
    requires Piled(base, h) && OneSidedSince(cfg, base, StepOn(cfg, h, i, error), side)
    requires |StepOn(cfg, h, i, error).accepted| < |base.accepted| + Needed(cfg) < |base.accepted| + cfg.ActiveBufferSize()
    ensures Piled(base, StepOn(cfg, h, i, error))
  {
    hide RegularImpulse, RateOver, MedianOf, OneSided, Choose;
    if !ObservationBlocked(cfg, h.state.lastObsUpdate, h.state.lastIntent, Low32(i.clock)) {
      Joins(cfg, base, h, i, error, side);
      OneSidedDecision(cfg, side, Observed(cfg, Feed(h.state, i), error, Low32(i.clock)), Low32(i.clock));
    }
  }

  /** The accepted observation that completes the evidence acts exactly when the cooldown is over. */
  lemma {:induction false} FinalStep(cfg: Config, base: History, h: History, i: Input, error: int, side: Direction)
    requires Piled(base, h) && OneSidedSince(cfg, base, StepOn(cfg, h, i, error), side)
    requires |h.accepted| + 1 == |base.accepted| + Needed(cfg) < |base.accepted| + cfg.ActiveBufferSize()
    requires !ObservationBlocked(cfg, h.state.lastObsUpdate, h.state.lastIntent, Low32(i.clock))
    ensures if Elapsed(Low32(i.clock), h.state.lastIntent) >= cfg.steeringCooldown
            then ActsToward(h, StepOn(cfg, h, i, error), i.clock, side)
            else StepOn(cfg, h, i, error).emissions == h.emissions
  {
    hide RegularImpulse, RateOver, MedianOf, OneSided, Choose;
    Joins(cfg, base, h, i, error, side);
    OneSidedDecision(cfg, side, Observed(cfg, Feed(h.state, i), error, Low32(i.clock)), Low32(i.clock));
  }

  /** after has exactly one more impulse than before: a regular one toward side. */
  ghost predicate ActsToward(before: History, after: History, clock: nat, side: Direction) {
    && |after.emissions| == |before.emissions| + 1
    && before.emissions <= after.emissions
    && var e := after.emissions[|before.emissions|];
       e.clock == clock && e.decision.Regular? && e.decision.intent.dir == side
  }

  /** On any clock, from an empty window: one-sided errors that never shrink produce no impulse
      before the Needed-th accepted observation, and there they produce a regular impulse toward
      their side if and only if the cooldown, as the wrapping counter shows it, is over. */
  lemma {:induction false} OneSidedEvidenceActsIff(cfg: Config, inputs: seq<Input>, p: nat, side: Direction)
    requires p < |inputs| && Needed(cfg) < cfg.ActiveBufferSize()
    requires Run(cfg, inputs[..p]).state.window == []
    requires OneSidedSince(cfg, Run(cfg, inputs[..p]), Run(cfg, inputs), side)
    requires CompletesEvidence(cfg, Run(cfg, inputs[..p]), Run(cfg, inputs[..|inputs| - 1]), Run(cfg, inputs))
    ensures var before, after, clock := Run(cfg, inputs[..|inputs| - 1]), Run(cfg, inputs), inputs[|inputs| - 1].clock;
            && before.emissions == Run(cfg, inputs[..p]).emissions
            && (ActsToward(before, after, clock, side)
                <==> Elapsed(Low32(clock), Low32(EmissionClock(before.emissions))) >= cfg.steeringCooldown)
            && (ActsToward(before, after, clock, side) || after.emissions == before.emissions)
  {
    hide StepOn, ErrorOf, OneSided, Run, Digest, Explained;
    var last := |inputs| - 1;
    assert inputs[..|inputs|] == inputs;
    var error := RunNext(cfg, inputs, last);
    PiledBeforeLast(cfg, inputs, p, error, side);
    RunExplained(cfg, inputs[..last]);
    CompletionActsIff(cfg, Run(cfg, inputs[..p]), Run(cfg, inputs[..last]), inputs[last], error, side);
  }

  /** On a clock that has not wrapped, a cooldown no longer than the evidence takes is over. */
  lemma {:induction false} OneSidedEvidenceActs(cfg: Config, inputs: seq<Input>, p: nat, side: Direction)
    requires Monotone(inputs) && BeforeWrap(inputs) && p < |inputs|
    requires Needed(cfg) < cfg.ActiveBufferSize()
    requires cfg.steeringCooldown <= EvidenceTime(cfg, Needed(cfg))
    requires Run(cfg, inputs[..p]).state.window == []
    requires OneSidedSince(cfg, Run(cfg, inputs[..p]), Run(cfg, inputs), side)
    requires CompletesEvidence(cfg, Run(cfg, inputs[..p]), Run(cfg, inputs[..|inputs| - 1]), Run(cfg, inputs))
    ensures Run(cfg, inputs[..|inputs| - 1]).emissions == Run(cfg, inputs[..p]).emissions
    ensures ActsToward(Run(cfg, inputs[..|inputs| - 1]), Run(cfg, inputs), inputs[|inputs| - 1].clock, side)
  {
    hide StepOn, ErrorOf, OneSided, EvidenceTime, Run, Digest, Timed, Spaced, Explained, ActsToward;
    var last := |inputs| - 1;
    assert inputs[..|inputs|] == inputs;
    var error := RunNext(cfg, inputs, last);
    PiledBeforeLast(cfg, inputs, p, error, side);
    OneSidedEvidenceActsIff(cfg, inputs, p, side);
    RunTimed(cfg, inputs[..last]);
    RunExplained(cfg, inputs[..last]);
    CompletionIsCool(cfg, Run(cfg, inputs[..p]), Run(cfg, inputs[..last]), inputs[last], error);
  }

  lemma {:induction false} PiledBeforeLast(cfg: Config, inputs: seq<Input>, p: nat, error: int, side: Direction)
    requires p < |inputs| && Needed(cfg) < cfg.ActiveBufferSize()
    requires Run(cfg, inputs[..p]).state.window == []
    requires var before := Run(cfg, inputs[..|inputs| - 1]);
             && OneSidedSince(cfg, Run(cfg, inputs[..p]), StepOn(cfg, before, inputs[|inputs| - 1], error), side)
             && |before.accepted| < |Run(cfg, inputs[..p]).accepted| + Needed(cfg)
    ensures Piled(Run(cfg, inputs[..p]), Run(cfg, inputs[..|inputs| - 1]))
  {
    hide StepOn, Step, ErrorOf, OneSided;
    var last := |inputs| - 1;
    AcceptedGrows(cfg, inputs, p, last);
    OneSidedBefore(cfg, Run(cfg, inputs[..p]), Run(cfg, inputs[..last]), inputs[last], error, side);
    EvidencePilesUp(cfg, inputs, p, last, side);
  }

  lemma {:induction false} CompletionActsIff(cfg: Config, base: History, h: History, i: Input, error: int, side: Direction)
    requires Digest(h) && Needed(cfg) < cfg.ActiveBufferSize()
    requires Piled(base, h) && OneSidedSince(cfg, base, StepOn(cfg, h, i, error), side)
    requires CompletesEvidence(cfg, base, h, StepOn(cfg, h, i, error))
    ensures if Elapsed(Low32(i.clock), Low32(EmissionClock(h.emissions))) >= cfg.steeringCooldown
            then ActsToward(h, StepOn(cfg, h, i, error), i.clock, side)
            else StepOn(cfg, h, i, error).emissions == h.emissions
  {
    hide StepOn, OneSided, OneSidedSince, ActsToward;
    StepAcceptsError(cfg, h, i, error);
    FinalStep(cfg, base, h, i, error, side);
  }

  lemma {:induction false} CompletionIsCool(cfg: Config, base: History, h: History, i: Input, error: int)
    requires Digest(h) && Timed(cfg, h) && AcceptedClock(h.accepted) <= i.clock < WORD
    requires cfg.steeringCooldown <= EvidenceTime(cfg, Needed(cfg))
    requires Piled(base, h) && CompletesEvidence(cfg, base, h, StepOn(cfg, h, i, error))
    ensures Elapsed(Low32(i.clock), Low32(EmissionClock(h.emissions))) >= cfg.steeringCooldown
  {
    hide StepOn, EvidenceTime, Timed;
    StepAcceptsError(cfg, h, i, error);
    CooldownIsOver(cfg, h, i, error);
  }

  /** The last input's observation was accepted and is the Needed-th since base. */
  ghost predicate CompletesEvidence(cfg: Config, base: History, before: History, after: History) {
    && |before.accepted| + 1 == |base.accepted| + Needed(cfg)
    && |after.accepted| == |before.accepted| + 1
  }

  /** The time the evidence took covers the cooldown. */
  lemma {:induction false} CooldownIsOver(cfg: Config, h: History, i: Input, error: int)
    requires Digest(h) && Timed(cfg, h) && AcceptedClock(h.accepted) <= i.clock < WORD
    requires !ObservationBlocked(cfg, h.state.lastObsUpdate, h.state.lastIntent, Low32(i.clock))
    requires cfg.steeringCooldown <= EvidenceTime(cfg, |h.state.window| + 1)
    ensures Elapsed(Low32(i.clock), h.state.lastIntent) >= cfg.steeringCooldown
  {
    EvidenceSoFar(cfg, h, i, error);
    ElapsedNeverOverstates(EmissionClock(h.emissions), i.clock);
  }

  /** An accepted observation comes as long after the last impulse as its evidence took. */
  lemma {:induction false} EvidenceSoFar(cfg: Config, h: History, i: Input, error: int)
    requires Digest(h) && Timed(cfg, h) && AcceptedClock(h.accepted) <= i.clock
    requires !ObservationBlocked(cfg, h.state.lastObsUpdate, h.state.lastIntent, Low32(i.clock))
    ensures i.clock >= EmissionClock(h.emissions) + EvidenceTime(cfg, |h.state.window| + 1)
  {
    hide StepOn, Digest, Settle, Span;
    StepAcceptsError(cfg, h, i, error);
    StepAccepts(cfg, h, i, error);
    DigestFits(h);
    var accepted := StepOn(cfg, h, i, error).accepted;
    ApartAddsUp(cfg, accepted, |accepted| - 1 - |h.state.window|, |accepted| - 1);
  }

  lemma {:induction false} DigestFits(h: History)
    requires Digest(h)
    ensures Seen(h.emissions) + |h.state.window| <= |h.accepted|
  {
  }
}
