/** The controller only sees differences of courses. */
module CompassRotation {
  import opened MachineInts
  import opened RegulationConfig
  import opened HeadingError
  import opened Evidence
  import opened SteeringGuard
  import opened ControllerSpec
  import opened ControllerRuns
  import opened ErrorRate

  function RotateInput(i: Input, offset: nat): Input {
    Input(i.clock, (i.heading + offset) % 360, (i.target + offset) % 360)
  }

  function Rotated(inputs: seq<Input>, offset: nat): (r: seq<Input>)
    ensures |r| == |inputs|
  {
    seq(|inputs|, k requires 0 <= k < |inputs| => RotateInput(inputs[k], offset))
  }

  /** Equal up to the two courses last fed in. */
  ghost predicate SameState(s: State, t: State) {
    Feed(s, Input(0, 0, 0)) == Feed(t, Input(0, 0, 0))
  }

  /** Adding one offset to every heading and target of a run changes no output of any tick,
      no accepted error and no impulse. */
  lemma {:induction false} RotationChangesNothing(cfg: Config, inputs: seq<Input>, offset: nat)
    requires CompassInputs(inputs)
    ensures Outputs(cfg, Rotated(inputs, offset)) == Outputs(cfg, inputs)
    ensures var h, g := Run(cfg, Rotated(inputs, offset)), Run(cfg, inputs);
            h.accepted == g.accepted && h.emissions == g.emissions && SameState(h.state, g.state)
  {
    if inputs != [] {
      var n := |inputs| - 1;
      var front, i := inputs[..n], inputs[n];
      RotationChangesNothing(cfg, front, offset);
      assert Rotated(inputs, offset)[..n] == Rotated(front, offset);
      RotatedTick(cfg, Run(cfg, Rotated(front, offset)), Run(cfg, front), i, offset);
      LastOutput(cfg, inputs);
      LastOutput(cfg, Rotated(inputs, offset));
    }
  }

  lemma {:induction false} LastOutput(cfg: Config, inputs: seq<Input>)
    requires inputs != []
    ensures var front, i := inputs[..|inputs| - 1], inputs[|inputs| - 1];
            var (after, decision) := TickOn(cfg, Feed(Run(cfg, front).state, i), ErrorOf(i), Low32(i.clock));
            && Outputs(cfg, inputs) == Outputs(cfg, front) + [(decision.ToOption(), after.debug)]
            && Run(cfg, inputs) == StepOn(cfg, Run(cfg, front), i, ErrorOf(i))
  {
    hide TickOn, CalculateError, StepOn;
  }

  lemma {:induction false} RotatedTick(cfg: Config, h: History, g: History, i: Input, offset: nat)
    requires i.heading < 360 && i.target < 360
    requires h.accepted == g.accepted && h.emissions == g.emissions && SameState(h.state, g.state)
    ensures var j := RotateInput(i, offset);
            var (a, c) := TickOn(cfg, Feed(h.state, j), ErrorOf(j), Low32(j.clock));
            var (b, d) := TickOn(cfg, Feed(g.state, i), ErrorOf(i), Low32(i.clock));
            && c == d && a.debug == b.debug
            && (var after, before := StepOn(cfg, h, j, ErrorOf(j)), StepOn(cfg, g, i, ErrorOf(i));
                after.accepted == before.accepted && after.emissions == before.emissions
                && SameState(after.state, before.state))
  {
    hide ErrorOf, Choose, RegularImpulse, RateOver, MedianOf;
    RotatedError(i, offset);
    var j := RotateInput(i, offset);
    CoursesAreCarried(cfg, Feed(h.state, j), Feed(g.state, i), ErrorOf(i), Low32(i.clock));
  }

  lemma {:induction false} RotatedError(i: Input, offset: nat)
    requires i.heading < 360 && i.target < 360
    ensures ErrorOf(RotateInput(i, offset)) == ErrorOf(i)
  {
    hide CalculateError;
    ErrorRotationInvariant(i.heading, i.target, offset);
  }

  /** Given the error, a tick does not look at the courses. */
  lemma {:induction false} CoursesAreCarried(cfg: Config, s: State, t: State, error: int, now: uint32)
    requires SameState(s, t)
    ensures TickOn(cfg, s, error, now).1 == TickOn(cfg, t, error, now).1
    ensures SameState(TickOn(cfg, s, error, now).0, TickOn(cfg, t, error, now).0)
  {
    hide Observed, Decide, Record, ObservationBlocked, SameState;
    BlockedAlike(cfg, s, t, now);
    ObservedAlike(cfg, s, t, error, now);
    var u, v := Observed(cfg, s, error, now), Observed(cfg, t, error, now);
    DecidedAlike(cfg, u, v, now);
    RecordedAlike(u, v, Decide(cfg, u, now), now);
  }

  lemma {:induction false} BlockedAlike(cfg: Config, s: State, t: State, now: uint32)
    requires SameState(s, t)
    ensures ObservationBlocked(cfg, s.lastObsUpdate, s.lastIntent, now)
         == ObservationBlocked(cfg, t.lastObsUpdate, t.lastIntent, now)
    ensures SameState(s.(debug := s.debug.(observationBlocked := true, intentBlocked := false)),
                      t.(debug := t.debug.(observationBlocked := true, intentBlocked := false)))
  {
  }

  lemma {:induction false} ObservedAlike(cfg: Config, s: State, t: State, error: int, now: uint32)
    requires SameState(s, t)
    ensures SameState(Observed(cfg, s, error, now), Observed(cfg, t, error, now))
  {
    hide Median, Observe;
  }

  lemma {:induction false} DecidedAlike(cfg: Config, s: State, t: State, now: uint32)
    requires SameState(s, t)
    ensures Decide(cfg, s, now) == Decide(cfg, t, now)
  {
    hide Median, Omega, RegularImpulse, SmoothedError;
  }

  lemma {:induction false} RecordedAlike(s: State, t: State, decision: Decision, now: uint32)
    requires SameState(s, t)
    ensures SameState(Record(s, decision, now), Record(t, decision, now))
  {
  }
}
