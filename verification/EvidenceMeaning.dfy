/** What the median and an impulse say about the errors they were computed from. */
module EvidenceMeaning {
  import opened MachineInts
  import opened RegulationConfig
  import opened HeadingError
  import opened OrderStatistics
  import opened Evidence
  import opened SteeringGuard
  import opened ControllerSpec
  import opened ControllerRuns

  lemma {:induction false} MedianPositiveIff(errors: seq<int>)
    ensures MedianOf(errors) > 0
       <==> Positives(errors) >= (|errors| + 1) / 2 && Positives(errors) > Negatives(errors)
  {
    BelowMonotone(errors, 0, 1);
    if errors != [] {
      OrderStatistic(errors, |errors| / 2, 1);
    }
  }

  lemma {:induction false} MedianNegativeIff(errors: seq<int>)
    ensures MedianOf(errors) < 0 <==> Negatives(errors) >= |errors| / 2 + 1
  {
    BelowMonotone(errors, 0, 1);
    if errors != [] {
      OrderStatistic(errors, |errors| / 2, 0);
    }
  }

  /** More than half of the errors in lo..hi bind the median. */
  lemma {:induction false} MedianIsRobust(errors: seq<int>, lo: int, hi: int)
    requires 2 * Within(errors, lo, hi) > |errors|
    ensures lo <= MedianOf(errors) <= hi || MedianOf(errors) == 0
  {
    if errors != [] {
      OrderStatistic(errors, |errors| / 2, lo);
      OrderStatistic(errors, |errors| / 2, hi + 1);
    }
  }

  /** Every regular impulse of every run points with the strict majority of the signs of its
      evidence, and at least half of that evidence is beyond the tolerance. */
  lemma {:induction false} RegularFollowsMajority(cfg: Config, inputs: seq<Input>, k: nat)
    requires k < |Run(cfg, inputs).emissions| && Run(cfg, inputs).emissions[k].decision.Regular?
    ensures FollowsMajority(cfg, Run(cfg, inputs).emissions[k])
  {
    RunExplained(cfg, inputs);
    JustifiedFollowsMajority(cfg, Run(cfg, inputs).emissions[k], Run(cfg, inputs).emissions[..k]);
  }

  ghost predicate FollowsMajority(cfg: Config, e: Emission)
    requires !e.decision.NoIntent?
  {
    var errors := ErrorsOf(e.evidence);
    && (e.decision.intent.dir == Starboard <==> Positives(errors) > Negatives(errors))
    && (e.decision.intent.dir == Portside <==> Negatives(errors) > Positives(errors))
    && 2 * Within(errors, -(cfg.steeringTolerance as int), cfg.steeringTolerance) <= |errors|
  }

  lemma {:induction false} JustifiedFollowsMajority(cfg: Config, e: Emission, prior: seq<Emission>)
    requires e.decision.Regular? && Justified(cfg, e, prior)
    ensures FollowsMajority(cfg, e)
  {
    var errors, bound := ErrorsOf(e.evidence), cfg.steeringTolerance as int;
    MedianPositiveIff(errors);
    MedianNegativeIff(errors);
    BelowMonotone(errors, 0, 1);
    MedianBeyond(errors, bound);
  }

  lemma {:induction false} MedianBeyond(errors: seq<int>, bound: int)
    requires Abs(MedianOf(errors)) > bound >= 0
    ensures 2 * Within(errors, -bound, bound) <= |errors|
  {
    OrderStatistic(errors, |errors| / 2, -bound);
    OrderStatistic(errors, |errors| / 2, bound + 1);
  }

  /** A run from boot whose every error stays in tolerance emits nothing. */
  lemma {:induction false} QuietRunIsSilent(cfg: Config, inputs: seq<Input>)
    requires forall i :: 0 <= i < |inputs| ==>
      Abs(CalculateError(inputs[i].heading, inputs[i].target)) <= cfg.steeringTolerance
    ensures Run(cfg, inputs).emissions == []
  {
    var h := Run(cfg, inputs);
    RunExplained(cfg, inputs);
    QuietAccepted(cfg, inputs);
    if h.emissions != [] {
      assert h.emissions[..0] == [];
      QuietEvidence(cfg, h.emissions[0], h.accepted);
    }
  }

  lemma {:induction false} QuietAccepted(cfg: Config, inputs: seq<Input>)
    requires forall i :: 0 <= i < |inputs| ==>
      Abs(CalculateError(inputs[i].heading, inputs[i].target)) <= cfg.steeringTolerance
    ensures forall k :: 0 <= k < |Run(cfg, inputs).accepted| ==>
      Abs(Run(cfg, inputs).accepted[k].error) <= cfg.steeringTolerance
  {
    if inputs != [] {
      var front, i := inputs[..|inputs| - 1], inputs[|inputs| - 1];
      QuietAccepted(cfg, front);
      StepAcceptsError(cfg, Run(cfg, front), i, ErrorOf(i));
    }
  }

  /** A first impulse cannot rest on errors within tolerance only. */
  lemma {:induction false} QuietEvidence(cfg: Config, e: Emission, accepted: seq<Accepted>)
    requires OwnEvidence(e, [], accepted)
    requires forall k :: 0 <= k < |accepted| ==> Abs(accepted[k].error) <= cfg.steeringTolerance
    ensures !Justified(cfg, e, [])
  {
    hide MedianOf, Justified;
    var errors, bound := ErrorsOf(e.evidence), cfg.steeringTolerance as int;
    forall i | 0 <= i < |errors|
      ensures -bound <= errors[i] < bound + 1
    {
      assert errors[i] == accepted[e.seen - |errors| + i].error;
    }
    BelowFull(errors, bound + 1);
    BelowEmpty(errors, -bound);
    MedianIsRobust(errors, -bound, bound);
    QuietMedianJustifiesNothing(cfg, e);
  }

  lemma {:induction false} QuietMedianJustifiesNothing(cfg: Config, e: Emission)
    requires Abs(MedianOf(ErrorsOf(e.evidence))) <= cfg.steeringTolerance
    ensures !Justified(cfg, e, [])
  {
    hide MedianOf, Omega, RegularImpulse, CounterImpulse;
  }

  // ---- The capacity of the window

  /** The tick whose observation fills the window consumes it and emits nothing. */
  lemma {:induction false} FillingTickIsSilent(cfg: Config, s: State, error: int, now: uint32)
    requires !ObservationBlocked(cfg, s.lastObsUpdate, s.lastIntent, now)
    requires |s.window| + 1 == cfg.ActiveBufferSize() && !DiscardsEvidence(cfg, s.lastError, error)
    ensures TickOn(cfg, s, error, now).1 == NoIntent
    ensures TickOn(cfg, s, error, now).0.window == [] && TickOn(cfg, s, error, now).0.debug.sampleSize == 0
  {
    assert Observed(cfg, s, error, now).window == [];
    if !Decide(cfg, Observed(cfg, s, error, now), now).NoIntent? {
      ActingNeedsEvidence(cfg, Observed(cfg, s, error, now), now);
    }
  }

  /** The active capacity is the number of slots from 1 to 70 nearest to the configured one. */
  lemma {:induction false} CapacityIsNearest(cfg: Config, slots: nat)
    requires 1 <= slots <= 70
    ensures 1 <= cfg.ActiveBufferSize() <= 70
    ensures Abs(cfg.ActiveBufferSize() - cfg.activeObservationBufferSize) <= Abs(slots - cfg.activeObservationBufferSize)
  {
  }

  /** After every input of every run the sample count is strictly below the active capacity. */
  lemma {:induction false} CountStaysBelowCapacity(cfg: Config, inputs: seq<Input>)
    ensures |Run(cfg, inputs).state.window| < cfg.ActiveBufferSize()
    ensures Run(cfg, inputs).state.debug.sampleSize < cfg.ActiveBufferSize()
  {
    if inputs != [] {
      var front, i := inputs[..|inputs| - 1], inputs[|inputs| - 1];
      CountStaysBelowCapacity(cfg, front);
      StepBelowCapacity(cfg, Run(cfg, front), i, ErrorOf(i));
    }
  }

  lemma {:induction false} StepBelowCapacity(cfg: Config, h: History, i: Input, error: int)
    requires |h.state.window| < cfg.ActiveBufferSize() && h.state.debug.sampleSize < cfg.ActiveBufferSize()
    ensures |StepOn(cfg, h, i, error).state.window| < cfg.ActiveBufferSize()
    ensures StepOn(cfg, h, i, error).state.debug.sampleSize < cfg.ActiveBufferSize()
  {
    assert |Observed(cfg, Feed(h.state, i), error, Low32(i.clock)).window| < cfg.ActiveBufferSize();
  }

  /** If the required samples do not fit below the capacity, no run emits anything at all,
      although the simulator's loader accepts the case of equality. */
  lemma {:induction false} CapacityStarvesImpulses(cfg: Config, inputs: seq<Input>)
    requires cfg.minimumSampleSize >= cfg.ActiveBufferSize()
    ensures Run(cfg, inputs).emissions == []
  {
    RunExplained(cfg, inputs);
    var e := Run(cfg, inputs).emissions;
    if e != [] {
      assert e[..0] == [];
      StarvedEvidence(cfg, e[0]);
    }
  }

  lemma {:induction false} StarvedEvidence(cfg: Config, e: Emission)
    requires cfg.minimumSampleSize >= cfg.ActiveBufferSize()
    ensures !Justified(cfg, e, [])
  {
  }

  lemma {:induction false} LoaderAcceptsStarvedConfig()
    ensures exists cfg :: LoaderAccepts(cfg) && forall inputs :: Run(cfg, inputs).emissions == []
  {
    var cfg := DEFAULT_CONFIG.(activeObservationBufferSize := 10);
    assert LoaderAccepts(cfg);
    forall inputs
      ensures Run(cfg, inputs).emissions == []
    {
      CapacityStarvesImpulses(cfg, inputs);
    }
  }

  // ---- What the registers and the kinds of impulses say about each other

  /** The first impulse of a run is a regular one; every counter impulse opposes the impulse
      before it, and one that comes within the flip-flop guard also opposes the median. */
  lemma {:induction false} CountersOpposeLastImpulse(cfg: Config, inputs: seq<Input>, k: nat)
    requires k < |Run(cfg, inputs).emissions|
    ensures var e := Run(cfg, inputs).emissions;
            && !e[k].decision.NoIntent?
            && (k == 0 ==> e[k].decision.Regular?)
            && (k > 0 && e[k].decision.Counter? ==>
                 && !e[k - 1].decision.NoIntent?
                 && e[k].decision.intent.dir == e[k - 1].decision.intent.dir.Opposite()
                 && (Elapsed(Low32(e[k].clock), Low32(e[k - 1].clock)) < cfg.counterTimerGuard ==>
                      e[k].decision.intent.dir == DetermineDirection(MedianOf(ErrorsOf(e[k].evidence))).Opposite()))
  {
    RunExplained(cfg, inputs);
    var e := Run(cfg, inputs).emissions;
    assert Justified(cfg, e[k], e[..k]);
  }

  /** In every reachable state the registers hold the last impulse, its time, and the error at
      the last regular impulse. */
  lemma {:induction false} RegistersRemember(cfg: Config, inputs: seq<Input>)
    ensures Remembers(Run(cfg, inputs))
  {
    RunExplained(cfg, inputs);
    DigestRemembers(cfg, Run(cfg, inputs));
  }

  lemma {:induction false} DigestRemembers(cfg: Config, h: History)
    requires Digest(h) && Explained(cfg, h)
    ensures Remembers(h)
  {
    if h.emissions != [] {
      var last := |h.emissions| - 1;
      ImpulsesAreIntents(cfg, h.emissions[last], h.emissions[..last]);
    }
  }

  lemma {:induction false} ImpulsesAreIntents(cfg: Config, e: Emission, prior: seq<Emission>)
    requires Justified(cfg, e, prior)
    ensures !e.decision.NoIntent?
  {
  }

  ghost predicate Remembers(h: History) {
    && h.state.lastError == RegularError(h.emissions)
    && if h.emissions == [] then h.state.lastIntentValue == None && h.state.lastIntent == 0
       else
         var last := h.emissions[|h.emissions| - 1];
         && !last.decision.NoIntent?
         && h.state.lastIntentValue == Some(last.decision.intent)
         && h.state.lastIntent == Low32(last.clock)
  }
}
