/** The simulator's loop of controller and boat. */
module ClosedLoop {
  import opened MachineInts
  import opened RealProducts
  import opened RegulationConfig
  import opened HeadingError
  import opened ControllerSpec
  import opened CoreSteeringControllers
  import opened ControllerRuns
  import opened ErrorRate
  import opened BoatModels

  /** The compass: the heading rounded to the nearest degree, half up, on 0..359. */
  function Compass(heading: real): (course: uint16)
    requires 0.0 <= heading < 360.0
    ensures course < 360
  {
    (heading + 0.5).Floor % 360
  }

  function SignedImpulse(intent: Intent): real {
    if intent.dir == Portside then -(intent.abstractImpulse as real) else intent.abstractImpulse as real
  }

  function Answered(cfg: BoatConfig, b: Boat, intent: Option<Intent>): Boat {
    match intent
    case None => b
    case Some(i) => Steered(cfg, b, SignedImpulse(i))
  }

  class SimulationEngine {
    const boot: BootModel
    const csc: CoreSteeringController
    var lastIntent: Option<Intent>

    ghost predicate Valid()
      reads this, boot, csc, csc.Repr()
    {
      && csc.Valid() && boot as object != this && boot !in csc.Repr() && this !in csc.Repr()
      && boot.config.Valid() && 0.0 <= boot.heading < 360.0
    }

    constructor (csc: CoreSteeringController, config: BoatConfig, sine: Sine)
      requires csc.Valid() && config.Valid()
      ensures Valid() && this.csc == csc && fresh(this) && fresh(boot)
      ensures boot.config == config && boot.sine == sine && boot.Model() == Launched(config)
    {
      var b := new BootModel(config, sine);
      boot, this.csc, lastIntent := b, csc, None;
      WrappedRange(config.initialHeading);
    }

    /** One pass: compass to controller, controller to tiller, then one step of the boat. */
    method Tick(dt: real, loopTimestamp: uint32)
      requires Valid()
      modifies this, boot, csc.Repr()
      ensures Valid()
      ensures var (after, decision) := ControllerSpec.Tick(csc.config,
                old(csc.Model()).(currentCourse := Compass(old(boot.heading))), loopTimestamp);
              && csc.Model() == after && lastIntent == decision.ToOption()
              && boot.Model() == Moved(boot.config, boot.sine, Answered(boot.config, old(boot.Model()), lastIntent), dt)
    {
      Sense(loopTimestamp);
      Steer(dt);
    }

    method Sense(loopTimestamp: uint32)
      requires Valid()
      modifies this`lastIntent, csc.Repr()
      ensures Valid()
      ensures var (after, decision) := ControllerSpec.Tick(csc.config,
                old(csc.Model()).(currentCourse := Compass(old(boot.heading))), loopTimestamp);
              csc.Model() == after && lastIntent == decision.ToOption()
    {
      hide ControllerSpec.Tick, Compass;
      csc.CurrentHDG(Compass(boot.heading));
      lastIntent := csc.Tick(loopTimestamp);
    }

    method Steer(dt: real)
      requires Valid()
      modifies boot
      ensures Valid()
      ensures boot.Model() == Moved(boot.config, boot.sine, Answered(boot.config, old(boot.Model()), lastIntent), dt)
    {
      hide Moved, Steered;
      if lastIntent.Some? {
        boot.ApplyIntent(SignedImpulse(lastIntent.value));
      }
      MovedOnRose(boot.config, boot.sine, boot.Model(), dt);
      boot.Update(dt);
    }
  }

  lemma {:induction false} MovedOnRose(cfg: BoatConfig, sine: Sine, b: Boat, dt: real)
    requires cfg.yawInertia > 0.0
    ensures 0.0 <= Moved(cfg, sine, b, dt).heading < 360.0
  {
    hide YawAccel, NextRate, NextHeading;
    NextHeadingRange(b.heading, Moved(cfg, sine, b, dt).angularVelocity, dt);
  }

  // ---- Runs of the loop

  datatype Setup = Setup(regulation: Config, boat: BoatConfig, sine: Sine, dt: real, target: uint16)

  // inputs are what the controller saw, impulses what the tiller got (zero for none).
  datatype Loop = Loop(boat: Boat, csc: History, inputs: seq<Input>, impulses: seq<real>)

  function LastIntent(before: History, after: History): Option<Intent> {
    if |after.emissions| > |before.emissions| then IntentValue(after.emissions) else None
  }

  function Pass(s: Setup, l: Loop, clock: nat): Loop
    requires s.boat.yawInertia > 0.0 && 0.0 <= l.boat.heading < 360.0
  {
    var input := Input(clock, Compass(l.boat.heading), s.target);
    var csc := Step(s.regulation, l.csc, input);
    var intent := LastIntent(l.csc, csc);
    Loop(Moved(s.boat, s.sine, Answered(s.boat, l.boat, intent), s.dt), csc, l.inputs + [input],
         l.impulses + [if intent.None? then 0.0 else SignedImpulse(intent.value)])
  }

  function Simulate(s: Setup, clocks: seq<nat>): (l: Loop)
    requires s.boat.yawInertia > 0.0
    ensures 0.0 <= l.boat.heading < 360.0
  {
    WrappedRange(s.boat.initialHeading);
    if clocks == [] then Loop(Launched(s.boat), BOOT, [], [])
    else
      var before := Simulate(s, clocks[..|clocks| - 1]);
      var after := Pass(s, before, clocks[|clocks| - 1]);
      MovedOnRose(s.boat, s.sine, Answered(s.boat, before.boat, LastIntent(before.csc, after.csc)), s.dt);
      after
  }

  /** The heading after every pass of a loop run. */
  ghost function HeadingsOf(s: Setup, clocks: seq<nat>): (headings: seq<real>)
    requires s.boat.yawInertia > 0.0
  {
    if clocks == [] then [] else HeadingsOf(s, clocks[..|clocks| - 1]) + [Simulate(s, clocks).boat.heading]
  }

  /** The controller and boat objects, driven together, record the headings of the loop run. */
  method RunSimulation(s: Setup, clocks: seq<nat>) returns (headings: seq<real>)
    requires s.boat.Valid()
    ensures headings == HeadingsOf(s, clocks)
  {
    hide Simulate, HeadingsOf, Pass, ControllerSpec.Tick, Moved, Answered, Compass, Launched;
    SimulateStart(s);
    var csc := new CoreSteeringController(s.regulation);
    csc.SetInternalTarget(s.target);
    var engine := new SimulationEngine(csc, s.boat, s.sine);
    headings := [];
    for k := 0 to |clocks|
      invariant engine.Valid() && engine.csc == csc && csc.config == s.regulation
      invariant engine.boot.config == s.boat && engine.boot.sine == s.sine
      invariant fresh(engine) && fresh(engine.boot) && fresh(csc.Repr())
      invariant csc.Model() == Aimed(Simulate(s, clocks[..k]).csc.state, s.target)
      invariant engine.boot.Model() == Simulate(s, clocks[..k]).boat
      invariant headings == HeadingsOf(s, clocks[..k])
    {
      SimulateNext(s, clocks, k);
      PassIsTick(s, Simulate(s, clocks[..k]), clocks[k]);
      engine.Tick(s.dt, Low32(clocks[k]));
      headings := headings + [engine.boot.heading];
    }
    assert clocks[..|clocks|] == clocks;
  }

  lemma {:induction false} SimulateStart(s: Setup)
    requires s.boat.yawInertia > 0.0
    ensures Simulate(s, []) == Loop(Launched(s.boat), BOOT, [], []) && HeadingsOf(s, []) == []
  {
  }

  function Aimed(state: State, target: uint16): State {
    state.(internalTarget := target)
  }

  lemma {:induction false} SimulateNext(s: Setup, clocks: seq<nat>, k: nat)
    requires s.boat.yawInertia > 0.0 && k < |clocks|
    ensures Simulate(s, clocks[..k + 1]) == Pass(s, Simulate(s, clocks[..k]), clocks[k])
    ensures HeadingsOf(s, clocks[..k + 1]) == HeadingsOf(s, clocks[..k]) + [Simulate(s, clocks[..k + 1]).boat.heading]
  {
    hide Pass;
    assert clocks[..k + 1][..k] == clocks[..k];
  }

  /** A pass is a tick of the controller on the compass course, and its answer to the tiller. */
  lemma {:induction false} PassIsTick(s: Setup, l: Loop, clock: nat)
    requires s.boat.yawInertia > 0.0 && 0.0 <= l.boat.heading < 360.0
    ensures var course := Aimed(l.csc.state, s.target).(currentCourse := Compass(l.boat.heading));
            var (after, decision) := ControllerSpec.Tick(s.regulation, course, Low32(clock));
            && Aimed(Pass(s, l, clock).csc.state, s.target) == after
            && Pass(s, l, clock).boat == Moved(s.boat, s.sine, Answered(s.boat, l.boat, decision.ToOption()), s.dt)
  {
    hide TickOn, Moved, Answered, Compass, CalculateError;
    var input := Input(clock, Compass(l.boat.heading), s.target);
    StepIsTick(s.regulation, l.csc, input, ErrorOf(input));
  }

  lemma {:induction false} StepIsTick(cfg: Config, h: History, i: Input, error: int)
    ensures var (after, decision) := TickOn(cfg, Feed(h.state, i), error, Low32(i.clock));
            var next := StepOn(cfg, h, i, error);
            && next.state == after && after.internalTarget == i.target
            && LastIntent(h, next) == decision.ToOption()
  {
    hide RegularImpulse, CounterImpulse, Choose;
  }

  /** The controller's part is a run at these clocks, on compass courses if the target is one,
      and the boat's a voyage. */
  ghost predicate IsRunAndVoyage(s: Setup, l: Loop, clocks: seq<nat>)
    requires s.boat.yawInertia > 0.0
  {
    && l.csc == Run(s.regulation, l.inputs)
    && (s.target < 360 ==> CompassInputs(l.inputs))
    && |l.inputs| == |clocks| == |l.impulses|
    && (forall k :: 0 <= k < |clocks| ==> l.inputs[k].clock == clocks[k])
    && l.boat == Voyage(s.boat, s.sine, s.dt, l.impulses)
    && -s.boat.tillerMaxAbs <= l.boat.tillerPosition <= s.boat.tillerMaxAbs
  }

  /** In every closed-loop run the controller makes a controller run and the boat a voyage, so all
      that holds of either holds of the loop. */
  lemma {:induction false} LoopIsRunAndVoyage(s: Setup, clocks: seq<nat>)
    requires s.boat.Valid()
    ensures IsRunAndVoyage(s, Simulate(s, clocks), clocks)
  {
    hide Pass, IsRunAndVoyage, Launched;
    if clocks == [] {
      LaunchIsRunAndVoyage(s);
    } else {
      var front := clocks[..|clocks| - 1];
      LoopIsRunAndVoyage(s, front);
      PassIsRunAndVoyage(s, Simulate(s, front), front, clocks[|clocks| - 1]);
      assert front + [clocks[|clocks| - 1]] == clocks;
    }
  }

  lemma {:induction false} LaunchIsRunAndVoyage(s: Setup)
    requires s.boat.Valid()
    ensures IsRunAndVoyage(s, Loop(Launched(s.boat), BOOT, [], []), [])
  {
  }

  lemma {:induction false} PassIsRunAndVoyage(s: Setup, l: Loop, clocks: seq<nat>, clock: nat)
    requires s.boat.Valid() && 0.0 <= l.boat.heading < 360.0
    requires IsRunAndVoyage(s, l, clocks)
    ensures IsRunAndVoyage(s, Pass(s, l, clock), clocks + [clock])
  {
    hide Step, Moved, SignedImpulse, Steered, Answered, Compass, LastIntent, Run, Voyage, CompassInputs;
    var after := Pass(s, l, clock);
    var intent := LastIntent(l.csc, after.csc);
    RunAppend(s.regulation, l.inputs, after.inputs[|clocks|]);
    RoseAppend(l.inputs, after.inputs[|clocks|]);
    AnsweredIsSteered(s.boat, l.boat, intent);
    VoyageAppend(s.boat, s.sine, s.dt, l.impulses, after.impulses[|clocks|]);
    MovedKeepsTiller(s.boat, s.sine, Answered(s.boat, l.boat, intent), s.dt);
  }

  lemma {:induction false} RoseAppend(inputs: seq<Input>, i: Input)
    ensures CompassInputs(inputs) && i.heading < 360 && i.target < 360 ==> CompassInputs(inputs + [i])
  {
  }

  /** No impulse is an impulse of zero, and none leaves the stops. */
  lemma {:induction false} AnsweredIsSteered(cfg: BoatConfig, b: Boat, intent: Option<Intent>)
    requires cfg.Valid() && -cfg.tillerMaxAbs <= b.tillerPosition <= cfg.tillerMaxAbs
    ensures Answered(cfg, b, intent) == Steered(cfg, b, if intent.None? then 0.0 else SignedImpulse(intent.value))
    ensures -cfg.tillerMaxAbs <= Answered(cfg, b, intent).tillerPosition <= cfg.tillerMaxAbs
  {
    hide Steered, SignedImpulse;
    SteeredByNothing(cfg, b);
    SteeredWithinStops(cfg, b, if intent.None? then 0.0 else SignedImpulse(intent.value));
  }

  lemma {:induction false} VoyageAppend(cfg: BoatConfig, sine: Sine, dt: real, front: seq<real>, impulse: real)
    requires cfg.yawInertia > 0.0
    ensures Voyage(cfg, sine, dt, front + [impulse])
         == Moved(cfg, sine, Steered(cfg, Voyage(cfg, sine, dt, front), impulse), dt)
  {
    hide Moved, Steered;
    assert (front + [impulse])[..|front|] == front;
  }

  lemma {:induction false} SteeredWithinStops(cfg: BoatConfig, b: Boat, impulse: real)
    requires cfg.Valid()
    ensures -cfg.tillerMaxAbs <= Steered(cfg, b, impulse).tillerPosition <= cfg.tillerMaxAbs
  {
  }

  lemma {:induction false} MovedKeepsTiller(cfg: BoatConfig, sine: Sine, b: Boat, dt: real)
    requires cfg.yawInertia > 0.0
    ensures Moved(cfg, sine, b, dt).tillerPosition == b.tillerPosition
  {
    hide NextRate, NextHeading, YawAccel;
  }

  lemma {:induction false} SteeredByNothing(cfg: BoatConfig, b: Boat)
    requires -cfg.tillerMaxAbs <= b.tillerPosition <= cfg.tillerMaxAbs
    ensures Steered(cfg, b, 0.0) == b
  {
  }

  /** Every closed-loop run keeps the boat within every rate bound that meets the limit. */
  lemma {:induction false} LoopBounded(s: Setup, clocks: seq<nat>, bound: real)
    requires s.boat.Valid() && RateLimit(s.boat, s.dt, bound)
    ensures Bounded(s.boat, Simulate(s, clocks).boat, bound)
  {
    hide Simulate, Voyage;
    LoopIsRunAndVoyage(s, clocks);
    VoyageBounded(s.boat, s.sine, s.dt, Simulate(s, clocks).impulses, bound);
  }

  /** The tiller moves only with impulses, each by at most a hundred steps. */
  lemma {:induction false} TillerMovesWithImpulses(s: Setup, clocks: seq<nat>, k: nat)
    requires s.boat.Valid() && k <= |clocks|
    ensures MovedWithin(s, Simulate(s, clocks[..k]), Simulate(s, clocks))
    decreases |clocks|
  {
    hide Pass, Mul;
    if k == |clocks| {
      assert clocks[..k] == clocks;
      NoMove(s, Simulate(s, clocks));
    } else {
      var front := clocks[..|clocks| - 1];
      TillerMovesWithImpulses(s, front, k);
      assert front[..k] == clocks[..k];
      LoopIsRunAndVoyage(s, front);
      PassMovesTiller(s, Simulate(s, front), clocks[|clocks| - 1]);
      ExtendMove(s, Simulate(s, clocks[..k]), Simulate(s, front), Simulate(s, clocks));
    }
  }

  ghost predicate MovedWithin(s: Setup, before: Loop, after: Loop) {
    var n := |after.csc.emissions| - |before.csc.emissions|;
    && 0 <= n
    && AbsReal(after.boat.tillerPosition - before.boat.tillerPosition) <= Mul(n as real, 100.0 * s.boat.intentStepToTiller)
  }

  ghost predicate MovedOnce(s: Setup, before: Loop, after: Loop) {
    var n := |after.csc.emissions| - |before.csc.emissions|;
    || (n == 0 && after.boat.tillerPosition == before.boat.tillerPosition)
    || (n == 1 && AbsReal(after.boat.tillerPosition - before.boat.tillerPosition) <= 100.0 * s.boat.intentStepToTiller)
  }

  lemma {:induction false} NoMove(s: Setup, l: Loop)
    ensures MovedWithin(s, l, l)
  {
  }

  lemma {:induction false} ExtendMove(s: Setup, a: Loop, b: Loop, c: Loop)
    requires MovedWithin(s, a, b) && MovedOnce(s, b, c)
    ensures MovedWithin(s, a, c)
  {
    var n, step := |b.csc.emissions| - |a.csc.emissions|, 100.0 * s.boat.intentStepToTiller;
    assert Mul((n + 1) as real, step) == Mul(n as real, step) + step;
  }

  lemma {:induction false} PassMovesTiller(s: Setup, l: Loop, clock: nat)
    requires s.boat.Valid() && 0.0 <= l.boat.heading < 360.0
    requires -s.boat.tillerMaxAbs <= l.boat.tillerPosition <= s.boat.tillerMaxAbs
    ensures MovedOnce(s, l, Pass(s, l, clock))
  {
    hide Moved, StepOn, ErrorOf, Steered, IntentValue;
    var input := Input(clock, Compass(l.boat.heading), s.target);
    StepEmitsAtMostOne(s.regulation, l.csc, input, ErrorOf(input));
    var intent := LastIntent(l.csc, Step(s.regulation, l.csc, input));
    MovedKeepsTiller(s.boat, s.sine, Answered(s.boat, l.boat, intent), s.dt);
    if intent.Some? {
      SteeredByAtMost(s.boat, l.boat, SignedImpulse(intent.value));
    }
  }

  lemma {:induction false} SteeredByAtMost(cfg: BoatConfig, b: Boat, impulse: real)
    requires cfg.Valid() && -100.0 <= impulse <= 100.0
    requires -cfg.tillerMaxAbs <= b.tillerPosition <= cfg.tillerMaxAbs
    ensures AbsReal(Steered(cfg, b, impulse).tillerPosition - b.tillerPosition) <= 100.0 * cfg.intentStepToTiller
  {
    ProductMonotone(cfg.intentStepToTiller, -100.0, impulse);
    ProductMonotone(cfg.intentStepToTiller, impulse, 100.0);
  }

  // ---- What every pass does, written out

  /** The course that the controller got is the heading to the nearest degree on the circle,
      half degrees up. */
  ghost predicate IsNearestCourse(course: int, heading: real) {
    && 0 <= course < 360
    && (-0.5 < course as real - heading <= 0.5 || (course == 0 && heading >= 359.5))
  }

  /** An impulse of strength n moves the tiller n steps toward its side, up to the stop. */
  ghost predicate TillerFollows(cfg: BoatConfig, tiller: real, after: real, intent: Intent) {
    var move := Mul(cfg.intentStepToTiller, intent.abstractImpulse as real);
    match intent.dir
    case Starboard => after == if tiller + move > cfg.tillerMaxAbs then cfg.tillerMaxAbs else tiller + move
    case Portside => after == if tiller - move < -cfg.tillerMaxAbs then -cfg.tillerMaxAbs else tiller - move
  }

  /** The pass from l to after at this clock: the controller makes one tick on the nearest course,
      its impulse moves the tiller, and the boat turns under the tiller so moved. */
  ghost predicate PassLaw(s: Setup, l: Loop, after: Loop, clock: nat)
    requires s.boat.yawInertia > 0.0
  {
    && |after.inputs| == |l.inputs| + 1 && l.inputs <= after.inputs
    && (var i := after.inputs[|l.inputs|];
        && i.clock == clock && i.target == s.target && IsNearestCourse(i.heading, l.boat.heading)
        && after.csc == Run(s.regulation, l.inputs + [i]))
    && (if after.csc.emissions == l.csc.emissions then after.boat.tillerPosition == l.boat.tillerPosition
        else match IntentValue(after.csc.emissions)
          case None => false
          case Some(intent) => TillerFollows(s.boat, l.boat.tillerPosition, after.boat.tillerPosition, intent))
    && EulerStep(s.boat, s.sine, l.boat.(tillerPosition := after.boat.tillerPosition), s.dt, after.boat)
  }

  /** A loop run starts with the boat at rest, the tiller amidships, on its initial heading. */
  lemma {:induction false} LoopStartsAtRest(s: Setup)
    requires s.boat.Valid()
    ensures var b := Simulate(s, []).boat;
            && b.tillerPosition == 0.0 && b.angularVelocity == 0.0 && 0.0 <= b.heading < 360.0
            && exists k: int :: b.heading == TurnedBy(s.boat.initialHeading, 0.0, k)
  {
    hide Wrapped;
    SimulateStart(s);
    WrappedTurns(s.boat.initialHeading, 0.0);
    assert s.boat.initialHeading + 0.0 == s.boat.initialHeading;
    WrappedRange(s.boat.initialHeading);
  }

  /** Every pass of every loop run obeys the law. */
  lemma {:induction false} PassesObeyLaw(s: Setup, clocks: seq<nat>, clock: nat)
    requires s.boat.Valid()
    ensures PassLaw(s, Simulate(s, clocks), Simulate(s, clocks + [clock]), clock)
  {
    hide Pass, Run, PassLaw, IsRunAndVoyage;
    LoopIsRunAndVoyage(s, clocks);
    SimulateNext(s, clocks + [clock], |clocks|);
    assert (clocks + [clock])[..|clocks|] == clocks && (clocks + [clock])[..|clocks| + 1] == clocks + [clock];
    LoopIsRun(s, Simulate(s, clocks), clocks);
    PassObeysLaw(s, Simulate(s, clocks), clock);
  }

  lemma {:induction false} LoopIsRun(s: Setup, l: Loop, clocks: seq<nat>)
    requires s.boat.yawInertia > 0.0 && IsRunAndVoyage(s, l, clocks)
    ensures l.csc == Run(s.regulation, l.inputs)
    ensures -s.boat.tillerMaxAbs <= l.boat.tillerPosition <= s.boat.tillerMaxAbs
  {
  }

  lemma {:induction false} PassObeysLaw(s: Setup, l: Loop, clock: nat)
    requires s.boat.Valid() && 0.0 <= l.boat.heading < 360.0
    requires l.csc == Run(s.regulation, l.inputs)
    requires -s.boat.tillerMaxAbs <= l.boat.tillerPosition <= s.boat.tillerMaxAbs
    ensures PassLaw(s, l, Pass(s, l, clock), clock)
  {
    hide Moved, Compass, Run, Step, Answered, TillerFollows, EulerStep, IsNearestCourse, IntentValue;
    var after := Pass(s, l, clock);
    var input := Input(clock, Compass(l.boat.heading), s.target);
    CompassIsNearest(l.boat.heading);
    RunAppend(s.regulation, l.inputs, input);
    var intent := LastIntent(l.csc, after.csc);
    StepIntent(s.regulation, l.csc, input);
    AnswerMovesTiller(s.boat, l.boat, intent);
    MovedKeepsTiller(s.boat, s.sine, Answered(s.boat, l.boat, intent), s.dt);
    MovedIsEulerStep(s.boat, s.sine, Answered(s.boat, l.boat, intent), s.dt);
  }

  lemma {:induction false} CompassIsNearest(heading: real)
    requires 0.0 <= heading < 360.0
    ensures IsNearestCourse(Compass(heading), heading)
  {
    var n := (heading + 0.5).Floor;
    assert n <= 360;
    if n == 360 {
      assert Compass(heading) == 0;
    }
  }

  /** A pass answers exactly the impulse its tick emitted. */
  lemma {:induction false} StepIntent(cfg: Config, h: History, i: Input)
    ensures var after := Step(cfg, h, i);
            if after.emissions == h.emissions then LastIntent(h, after) == None
            else LastIntent(h, after) == IntentValue(after.emissions) && IntentValue(after.emissions).Some?
  {
    hide StepOn, ErrorOf, IntentValue;
    StepEmitsAtMostOne(cfg, h, i, ErrorOf(i));
  }

  lemma {:induction false} AnswerMovesTiller(cfg: BoatConfig, b: Boat, intent: Option<Intent>)
    requires cfg.Valid() && -cfg.tillerMaxAbs <= b.tillerPosition <= cfg.tillerMaxAbs
    ensures Answered(cfg, b, intent) == b.(tillerPosition := Answered(cfg, b, intent).tillerPosition)
    ensures match intent
            case None => Answered(cfg, b, intent) == b
            case Some(i) => TillerFollows(cfg, b.tillerPosition, Answered(cfg, b, intent).tillerPosition, i)
  {
    match intent
    case None =>
    case Some(i) =>
      ProductNonNegative(cfg.intentStepToTiller, i.abstractImpulse as real);
      Negated(cfg.intentStepToTiller, i.abstractImpulse as real);
  }

  lemma {:induction false} Negated(x: real, y: real)
    ensures x * -y == -Mul(x, y) && x * y == Mul(x, y)
  {
  }
}
