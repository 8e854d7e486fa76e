/** Whole runs of the controller: what was accepted, what was emitted, and the invariant that
    ties the controller's registers to that history. */
module ControllerRuns {
  import opened MachineInts
  import opened RegulationConfig
  import opened HeadingError
  import opened Evidence
  import opened SteeringGuard
  import opened ControllerSpec
  import opened CoreSteeringControllers

  // One call of tick: the true clock, whose low 32 bits the controller sees, and the courses.
  datatype Input = Input(clock: nat, heading: uint16, target: uint16)

  datatype Accepted = Accepted(error: int, clock: nat)

  // seen counts the observations accepted up to and including the one of this tick.
  datatype Emission = Emission(clock: nat, decision: Decision, error: int, seen: nat, evidence: seq<Accepted>)

  datatype History = History(state: State, accepted: seq<Accepted>, emissions: seq<Emission>)

  const BOOT := History(INITIAL, [], [])

  function Feed(s: State, i: Input): State {
    s.(currentCourse := i.heading, internalTarget := i.target)
  }

  function ErrorOf(i: Input): int {
    CalculateError(i.heading, i.target)
  }

  function Step(cfg: Config, h: History, i: Input): History {
    StepOn(cfg, h, i, ErrorOf(i))
  }

  /** A step at which the heading error is this. */
  function StepOn(cfg: Config, h: History, i: Input, error: int): History {
    var (after, decision) := TickOn(cfg, Feed(h.state, i), error, Low32(i.clock));
    var accepted := if after.debug.observationBlocked then h.accepted
                    else h.accepted + [Accepted(after.debug.error, i.clock)];
    History(after, accepted, h.emissions + Emitted(decision, after.debug, i.clock, accepted))
  }

  function Emitted(decision: Decision, debug: Debug, clock: nat, accepted: seq<Accepted>): seq<Emission> {
    if decision.NoIntent? then []
    else [Emission(clock, decision, debug.error, |accepted|, Last(accepted, debug.sampleSize))]
  }

  function Run(cfg: Config, inputs: seq<Input>): History {
    if inputs == [] then BOOT
    else Step(cfg, Run(cfg, inputs[..|inputs| - 1]), inputs[|inputs| - 1])
  }

  lemma {:induction false} RunAppend(cfg: Config, front: seq<Input>, i: Input)
    ensures Run(cfg, front + [i]) == Step(cfg, Run(cfg, front), i)
  {
    assert (front + [i])[..|front|] == front;
  }

  lemma {:induction false} RunNext(cfg: Config, inputs: seq<Input>, n: nat) returns (error: int)
    requires n < |inputs|
    ensures error == ErrorOf(inputs[n])
    ensures Run(cfg, inputs[..n + 1]) == StepOn(cfg, Run(cfg, inputs[..n]), inputs[n], error)
  {
    error := ErrorOf(inputs[n]);
    assert inputs[..n + 1][..n] == inputs[..n];
  }

  /** A step adds at most one impulse, of at most full strength. */
  lemma {:induction false} StepEmitsAtMostOne(cfg: Config, h: History, i: Input, error: int)
    ensures var after := StepOn(cfg, h, i, error).emissions;
            || after == h.emissions
            || (|after| == |h.emissions| + 1 && h.emissions <= after && IntentValue(after).Some?
                && IntentValue(after).value.abstractImpulse <= 100)
  {
    hide RegularImpulse, CounterImpulse, RateOver, MedianOf, SmoothedError, CounterNecessary, IntentBlocked, Observe;
  }

  // ---- The array-based controller over a whole run

  /** What tick returned and what getDebug showed after it, per input. */
  function Outputs(cfg: Config, inputs: seq<Input>): (outputs: seq<(Option<Intent>, Debug)>)
    ensures |outputs| == |inputs|
  {
    if inputs == [] then []
    else
      var front, i := inputs[..|inputs| - 1], inputs[|inputs| - 1];
      var (after, decision) := Tick(cfg, Feed(Run(cfg, front).state, i), Low32(i.clock));
      Outputs(cfg, front) + [(decision.ToOption(), after.debug)]
  }

  /** A controller object driven through a run returns and shows what the specification
      machine does, on every tick. */
  method DriveController(cfg: Config, inputs: seq<Input>) returns (outputs: seq<(Option<Intent>, Debug)>)
    ensures outputs == Outputs(cfg, inputs)
  {
    var csc := new CoreSteeringController(cfg);
    outputs := [];
    for n := 0 to |inputs|
      invariant csc.Valid() && csc.config == cfg && fresh(csc.Repr())
      invariant csc.Model() == Run(cfg, inputs[..n]).state
      invariant outputs == Outputs(cfg, inputs[..n])
    {
      csc.CurrentHDG(inputs[n].heading);
      csc.SetInternalTarget(inputs[n].target);
      OutputsOfNext(cfg, inputs, n);
      var result := csc.Tick(Low32(inputs[n].clock));
      outputs := outputs + [(result, csc.debug)];
    }
    assert inputs[..|inputs|] == inputs;
  }

  lemma {:induction false} OutputsOfNext(cfg: Config, inputs: seq<Input>, n: nat)
    requires n < |inputs|
    ensures var (after, decision) :=
              Tick(cfg, Feed(Run(cfg, inputs[..n]).state, inputs[n]), Low32(inputs[n].clock));
            && Run(cfg, inputs[..n + 1]).state == after
            && Outputs(cfg, inputs[..n + 1]) == Outputs(cfg, inputs[..n]) + [(decision.ToOption(), after.debug)]
  {
    assert inputs[..n + 1][..n] == inputs[..n];
  }

  // ---- Reading a history

  function Stamped(a: seq<Accepted>): (w: Window)
    ensures |w| == |a|
  {
    seq(|a|, i requires 0 <= i < |a| => Observation(a[i].error, Low32(a[i].clock)))
  }

  function ErrorsOf(a: seq<Accepted>): (errors: seq<int>)
    ensures |errors| == |a| && errors == Errors(Stamped(a))
  {
    seq(|a|, i requires 0 <= i < |a| => a[i].error)
  }

  function AcceptedClock(a: seq<Accepted>): nat {
    if a == [] then 0 else a[|a| - 1].clock
  }

  function EmissionClock(e: seq<Emission>): nat {
    if e == [] then 0 else e[|e| - 1].clock
  }

  function Seen(e: seq<Emission>): nat {
    if e == [] then 0 else e[|e| - 1].seen
  }

  function CounterClock(e: seq<Emission>): nat {
    if e == [] then 0
    else if e[|e| - 1].decision.Counter? then e[|e| - 1].clock
    else CounterClock(e[..|e| - 1])
  }

  function RegularError(e: seq<Emission>): int {
    if e == [] then 0
    else if e[|e| - 1].decision.Regular? then e[|e| - 1].error
    else RegularError(e[..|e| - 1])
  }

  function IntentValue(e: seq<Emission>): Option<Intent> {
    if e == [] then None else e[|e| - 1].decision.ToOption()
  }

  // ---- The registers are a digest of the history

  ghost predicate Digest(h: History) {
    && Seen(h.emissions) + |h.state.window| <= |h.accepted|
    && h.state.window == Stamped(Last(h.accepted, |h.state.window|))
    && h.state.lastObsUpdate == Low32(AcceptedClock(h.accepted))
    && h.state.lastIntent == Low32(EmissionClock(h.emissions))
    && h.state.lastCounterIntent == Low32(CounterClock(h.emissions))
    && h.state.lastIntentValue == IntentValue(h.emissions)
    && h.state.lastError == RegularError(h.emissions)
  }

  /** Why e was emitted, in terms of its evidence and of the emissions before it. */
  ghost predicate Justified(cfg: Config, e: Emission, prior: seq<Emission>) {
    var median := MedianOf(ErrorsOf(e.evidence));
    var omega := Omega(cfg.omegaRobust, Stamped(e.evidence));
    var sinceLast := Elapsed(Low32(e.clock), Low32(EmissionClock(prior)));
    && |e.evidence| < cfg.ActiveBufferSize()
    && match e.decision
    case NoIntent => false
    case Regular(intent) =>
      && |e.evidence| >= cfg.minimumSampleSize
      && Abs(median) > cfg.steeringTolerance
      && intent.dir == (if median > 0 then Starboard else Portside)
      && intent.abstractImpulse == RegularImpulse(cfg.smoothedMeanApplicationWindow,
                                                  SmoothedError(cfg.MeanWindow(), Stamped(e.evidence)))
      && (median > 0 ==> omega <= cfg.omegaDeadband)
      && (median < 0 ==> omega >= 0.0 - cfg.omegaDeadband)
      && sinceLast >= cfg.steeringCooldown
    case Counter(intent) =>
      && IntentValue(prior).Some?
      && |e.evidence| >= Max(2, cfg.counterOmegaMinSampleSize)
      && intent.dir == IntentValue(prior).value.dir.Opposite()
      && intent.abstractImpulse == CounterImpulse(omega)
      && (sinceLast < cfg.counterTimerGuard ==> intent.dir == DetermineDirection(median).Opposite())
      && Elapsed(Low32(e.clock), Low32(CounterClock(prior))) >= cfg.counterCooldown
      && AbsReal(omega) >= cfg.omegaThresholdForCounter
      && Abs(e.error) <= cfg.counterNearTargetWindow
      && (if median > 0 then omega > 0.0 else median < 0 && omega < 0.0)
  }

  /** The evidence of e ends with the observation that triggered it and starts after the
      observations that earlier emissions consumed. */
  ghost predicate OwnEvidence(e: Emission, prior: seq<Emission>, accepted: seq<Accepted>) {
    && |e.evidence| >= 1
    && Seen(prior) + |e.evidence| <= e.seen <= |accepted|
    && e.evidence == accepted[e.seen - |e.evidence|..e.seen]
    && accepted[e.seen - 1] == Accepted(e.error, e.clock)
  }

  ghost predicate Explained(cfg: Config, h: History) {
    forall i :: 0 <= i < |h.emissions| ==>
      && Justified(cfg, h.emissions[i], h.emissions[..i])
      && OwnEvidence(h.emissions[i], h.emissions[..i], h.accepted)
  }

  /** For every run: the registers digest the history, and every emission is explained by it. */
  lemma {:induction false} RunExplained(cfg: Config, inputs: seq<Input>)
    ensures Digest(Run(cfg, inputs)) && Explained(cfg, Run(cfg, inputs))
  {
    if inputs != [] {
      var front, i := inputs[..|inputs| - 1], inputs[|inputs| - 1];
      RunExplained(cfg, front);
      StepExplained(cfg, Run(cfg, front), i, ErrorOf(i));
    } else {
      assert BOOT.state.window == Stamped([]);
    }
  }

  lemma {:induction false} StepAcceptsError(cfg: Config, h: History, i: Input, error: int)
    ensures StepOn(cfg, h, i, error).accepted ==
      if ObservationBlocked(cfg, h.state.lastObsUpdate, h.state.lastIntent, Low32(i.clock)) then h.accepted
      else h.accepted + [Accepted(error, i.clock)]
  {
  }

  lemma {:induction false} StampedSnoc(a: seq<Accepted>, k: nat, x: Accepted)
    requires k <= |a|
    ensures Last(a + [x], k + 1) == Last(a, k) + [x]
    ensures Stamped(Last(a + [x], k + 1)) == Stamped(Last(a, k)) + [Observation(x.error, Low32(x.clock))]
  {
    assert Last(a + [x], k + 1) == Last(a, k) + [x];
  }

  /** An unblocked tick keeps the window a suffix of the accepted observations. */
  lemma {:induction false} WindowIsSuffix(cfg: Config, h: History, i: Input, error: int)
    requires Digest(h)
    ensures var s := Observed(cfg, Feed(h.state, i), error, Low32(i.clock));
            var accepted := h.accepted + [Accepted(s.debug.error, i.clock)];
            && Seen(h.emissions) + |s.window| <= |accepted|
            && s.window == Stamped(Last(accepted, |s.window|))
  {
    var s := Observed(cfg, Feed(h.state, i), error, Low32(i.clock));
    var x := Accepted(s.debug.error, i.clock);
    if |s.window| == 1 {
      StampedSnoc(h.accepted, 0, x);
    } else if |s.window| > 0 {
      StampedSnoc(h.accepted, |h.state.window|, x);
    }
  }

  /** Only a window that holds something leads to a decision to act. */
  lemma {:induction false} ActingNeedsEvidence(cfg: Config, s: State, now: uint32)
    requires !Decide(cfg, s, now).NoIntent?
    ensures Median(s.window) != 0 && |s.window| >= 1
    ensures Decide(cfg, s, now).Counter? ==> |s.window| >= 2
  {
  }

  lemma {:induction false} EmissionExplained(cfg: Config, h: History, i: Input, error: int, e: Emission)
    requires Digest(h) && StepOn(cfg, h, i, error).emissions == h.emissions + [e]
    ensures Justified(cfg, e, h.emissions)
    ensures OwnEvidence(e, h.emissions, StepOn(cfg, h, i, error).accepted)
  {
    hide StepOn, Decide, Justified, ObservationBlocked;
    var s := Observed(cfg, Feed(h.state, i), error, Low32(i.clock));
    var accepted := h.accepted + [Accepted(s.debug.error, i.clock)];
    WindowIsSuffix(cfg, h, i, error);
    EmissionShape(cfg, h, i, error, e);
    ActingNeedsEvidence(cfg, s, Low32(i.clock));
    DecisionJustified(cfg, s, e, h.emissions);
    assert e.evidence == accepted[e.seen - |e.evidence|..e.seen];
  }

  lemma {:induction false} EmissionShape(cfg: Config, h: History, i: Input, error: int, e: Emission)
    requires StepOn(cfg, h, i, error).emissions == h.emissions + [e]
    ensures var s := Observed(cfg, Feed(h.state, i), error, Low32(i.clock));
            var accepted := h.accepted + [Accepted(s.debug.error, i.clock)];
            && !ObservationBlocked(cfg, h.state.lastObsUpdate, h.state.lastIntent, Low32(i.clock))
            && StepOn(cfg, h, i, error).accepted == accepted
            && !e.decision.NoIntent?
            && e == Emission(i.clock, Decide(cfg, s, Low32(i.clock)), s.debug.error, |accepted|, Last(accepted, |s.window|))
  {
    assert (h.emissions + [e])[|h.emissions|] == e;
  }

  lemma {:induction false} DecisionJustified(cfg: Config, s: State, e: Emission, prior: seq<Emission>)
    requires s.window == Stamped(e.evidence) && s.debug.error == e.error
    requires s.lastIntent == Low32(EmissionClock(prior)) && s.lastCounterIntent == Low32(CounterClock(prior))
    requires s.lastIntentValue == IntentValue(prior)
    requires e.decision == Decide(cfg, s, Low32(e.clock)) && !e.decision.NoIntent?
    requires |s.window| < cfg.ActiveBufferSize()
    ensures Justified(cfg, e, prior)
  {
    ActingNeedsEvidence(cfg, s, Low32(e.clock));
  }

  lemma {:induction false} StepExplained(cfg: Config, h: History, i: Input, error: int)
    requires Digest(h) && Explained(cfg, h)
    ensures Digest(StepOn(cfg, h, i, error)) && Explained(cfg, StepOn(cfg, h, i, error))
  {
    var after := StepOn(cfg, h, i, error);
    if after.emissions == h.emissions {
      StepWithoutEmission(cfg, h, i, error);
      OlderStayExplained(cfg, h, after, []);
    } else {
      var e := after.emissions[|h.emissions|];
      assert after.emissions == h.emissions + [e];
      EmissionExplained(cfg, h, i, error, e);
      StepWithEmission(cfg, h, i, error, e);
      OlderStayExplained(cfg, h, after, [e]);
    }
  }

  lemma {:induction false} OlderStayExplained(cfg: Config, h: History, after: History, added: seq<Emission>)
    requires Explained(cfg, h)
    requires h.accepted <= after.accepted && after.emissions == h.emissions + added && |added| <= 1
    requires added != [] ==> Justified(cfg, added[0], h.emissions) && OwnEvidence(added[0], h.emissions, after.accepted)
    ensures Explained(cfg, after)
  {
    forall k | 0 <= k < |after.emissions|
      ensures Justified(cfg, after.emissions[k], after.emissions[..k])
      ensures OwnEvidence(after.emissions[k], after.emissions[..k], after.accepted)
    {
      if k < |h.emissions| {
        assert after.emissions[..k] == h.emissions[..k];
        EvidenceStays(h.emissions[k], h.emissions[..k], h.accepted, after.accepted);
      } else {
        assert after.emissions[..k] == h.emissions;
      }
    }
  }

  lemma {:induction false} EvidenceStays(e: Emission, prior: seq<Emission>, accepted: seq<Accepted>, more: seq<Accepted>)
    requires OwnEvidence(e, prior, accepted) && accepted <= more
    ensures OwnEvidence(e, prior, more)
  {
    assert more[..|accepted|] == accepted;
  }

  /** A step is a blocked tick, or an observation, a decision and its record. */
  lemma {:induction false} StepSplits(cfg: Config, h: History, i: Input, error: int)
    ensures var now, after := Low32(i.clock), StepOn(cfg, h, i, error);
            var s := Observed(cfg, Feed(h.state, i), error, now);
            if ObservationBlocked(cfg, h.state.lastObsUpdate, h.state.lastIntent, now) then
              && after.accepted == h.accepted && after.emissions == h.emissions
              && after.state == Feed(h.state, i).(debug := after.state.debug)
            else
              && after.accepted == h.accepted + [Accepted(error, i.clock)]
              && after.state == Record(s, Decide(cfg, s, now), now)
              && (Decide(cfg, s, now).NoIntent? <==> after.emissions == h.emissions)
  {
    hide Decide, ObservationBlocked, Median;
  }

  lemma {:induction false} StepWithoutEmission(cfg: Config, h: History, i: Input, error: int)
    requires Digest(h) && StepOn(cfg, h, i, error).emissions == h.emissions
    ensures Digest(StepOn(cfg, h, i, error))
  {
    hide StepOn, Observed, Decide, ObservationBlocked;
    StepSplits(cfg, h, i, error);
    WindowIsSuffix(cfg, h, i, error);
    ObservingKeepsRegisters(cfg, Feed(h.state, i), error, Low32(i.clock));
    AcceptedLast(h.accepted, Accepted(error, i.clock));
  }

  lemma {:induction false} AcceptedLast(a: seq<Accepted>, x: Accepted)
    ensures AcceptedClock(a + [x]) == x.clock
  {
  }

  lemma {:induction false} ObservingKeepsRegisters(cfg: Config, s: State, error: int, now: uint32)
    ensures var o := Observed(cfg, s, error, now);
            && o.lastIntent == s.lastIntent && o.lastCounterIntent == s.lastCounterIntent
            && o.lastIntentValue == s.lastIntentValue && o.lastError == s.lastError
            && o.lastObsUpdate == now && o.debug.error == error
  {
    hide Median;
  }

  lemma {:induction false} StepWithEmission(cfg: Config, h: History, i: Input, error: int, e: Emission)
    requires Digest(h) && StepOn(cfg, h, i, error).emissions == h.emissions + [e]
    ensures Digest(StepOn(cfg, h, i, error))
  {
    hide StepOn, Observed, Decide, ObservationBlocked;
    hide AcceptedClock, EmissionClock, CounterClock, RegularError, IntentValue, Seen;
    var after := StepOn(cfg, h, i, error);
    assert (h.emissions + [e])[|h.emissions|] == e;
    StepSplits(cfg, h, i, error);
    EmissionShape(cfg, h, i, error, e);
    ObservingKeepsRegisters(cfg, Feed(h.state, i), error, Low32(i.clock));
    AcceptedLast(h.accepted, Accepted(error, i.clock));
    EmissionLast(h.emissions, e);
    assert Stamped(Last(after.accepted, 0)) == [];
  }

  lemma {:induction false} EmissionLast(prior: seq<Emission>, e: Emission)
    ensures var all := prior + [e];
            && EmissionClock(all) == e.clock && Seen(all) == e.seen && IntentValue(all) == e.decision.ToOption()
            && CounterClock(all) == (if e.decision.Counter? then e.clock else CounterClock(prior))
            && RegularError(all) == (if e.decision.Regular? then e.error else RegularError(prior))
  {
    assert (prior + [e])[..|prior|] == prior;
  }
}
