/** The boat of the heading simulator: a clamped tiller, damped yaw, and a wrapped heading.
    Floats are reals; the sine is any function bounded by one. */
module BoatModels {
  import opened MachineInts
  import opened RealProducts

  type Sine = f: real -> real | forall x :: -1.0 <= f(x) <= 1.0 witness (x: real) => 0.0

  datatype BoatConfig = BoatConfig(
    intentStepToTiller: real,
    tillerMaxAbs: real,
    tillerToYawAccel: real,
    initialHeading: real,
    environmentTorque: real,
    yawInertia: real,
    yawDampingLinear: real,
    yawDampingQuadratic: real,
    trueWindSpeed: real,
    trueWindDirection: real,
    windHullYawAccel: real)
  {
    /** The loader's range checks. */
    predicate Valid() {
      && 0.0 <= intentStepToTiller && 0.0 < tillerMaxAbs && 0.0 <= tillerToYawAccel
      && 0.0 < yawInertia && 0.0 <= yawDampingLinear && 0.0 <= yawDampingQuadratic
      && 0.0 <= trueWindSpeed && 0.0 <= windHullYawAccel
    }
  }

  // ---- Wrapping angles

  /** The representative of h in [0, 360). */
  function Wrapped(h: real): real {
    h - 360.0 * (h / 360.0).Floor as real
  }

  /** The representative of a in (-180, 180]. */
  function SignedWrapped(a: real): real {
    180.0 - Wrapped(180.0 - a)
  }

  lemma {:induction false} WrappedRange(h: real)
    ensures 0.0 <= Wrapped(h) < 360.0
  {
  }

  lemma {:induction false} WrappedUnique(h: real, r: real, k: int)
    requires 0.0 <= r < 360.0 && r == h + 360.0 * k as real
    ensures r == Wrapped(h)
  {
    assert h / 360.0 == r / 360.0 - k as real;
    assert (h / 360.0).Floor == -k;
  }

  /** Wrapping forgets whole turns and nothing else. */
  lemma {:induction false} WrappedIgnoresTurns(h: real, x: real)
    ensures Wrapped(Wrapped(h) + x) == Wrapped(h + x)
  {
    var k := (h / 360.0).Floor;
    var y := Wrapped(h) + x;
    var j := (y / 360.0).Floor;
    WrappedRange(y);
    assert Wrapped(y) == h + x + 360.0 * (-k - j) as real;
    WrappedUnique(h + x, Wrapped(y), -k - j);
  }

  method NormalizeHeading(heading: real) returns (h: real)
    ensures h == Wrapped(heading)
  {
    h := heading;
    ghost var k := 0;
    while h < 0.0
      invariant h == heading + 360.0 * k as real
      invariant heading < 0.0 ==> h < 360.0
      invariant heading >= 0.0 ==> k == 0
      decreases -h
    {
      h, k := h + 360.0, k + 1;
    }
    while h >= 360.0
      invariant 0.0 <= h && h == heading + 360.0 * k as real
      decreases h
    {
      h, k := h - 360.0, k - 1;
    }
    WrappedUnique(heading, h, k);
  }

  method NormalizeAngleSigned(angle: real) returns (a: real)
    ensures a == SignedWrapped(angle)
  {
    a := angle;
    ghost var k := 0;
    while a > 180.0
      invariant a == angle + 360.0 * k as real
      decreases a
    {
      a, k := a - 360.0, k - 1;
    }
    while a <= -180.0
      invariant a <= 180.0 && a == angle + 360.0 * k as real
      decreases -a
    {
      a, k := a + 360.0, k + 1;
    }
    WrappedUnique(180.0 - angle, 180.0 - a, -k);
  }

  /** The signed wrap lands in (-180, 180] and keeps the direction. */
  lemma {:induction false} SignedWrappedIsSameAngle(angle: real)
    ensures -180.0 < SignedWrapped(angle) <= 180.0
    ensures Wrapped(SignedWrapped(angle)) == Wrapped(angle)
  {
    WrappedRange(180.0 - angle);
    WrappedRange(angle);
    var k := ((180.0 - angle) / 360.0).Floor;
    assert SignedWrapped(angle) == angle + 360.0 * k as real;
    var j := (angle / 360.0).Floor;
    assert Wrapped(angle) == SignedWrapped(angle) + 360.0 * (-k - j) as real;
    WrappedUnique(SignedWrapped(angle), Wrapped(angle), -k - j);
  }

  // ---- The motion

  datatype Boat = Boat(heading: real, angularVelocity: real, tillerPosition: real)

  const PI := 3.14159265358979323846

  function DegToRad(deg: real): real {
    deg * (PI / 180.0)
  }

  /** The push of the wind on the hull at this relative angle. */
  function HullPush(cfg: BoatConfig, sine: Sine, relativeAngle: real): real {
    cfg.windHullYawAccel * cfg.trueWindSpeed * cfg.trueWindSpeed * sine(DegToRad(relativeAngle))
  }

  function WindYawAccel(cfg: BoatConfig, sine: Sine, heading: real): real {
    if cfg.trueWindSpeed <= 0.0 || cfg.windHullYawAccel <= 0.0 then 0.0
    else HullPush(cfg, sine, SignedWrapped(cfg.trueWindDirection - heading))
  }

  function TillerYawAccel(cfg: BoatConfig, tiller: real): real {
    (if cfg.tillerMaxAbs > 0.0 then tiller / cfg.tillerMaxAbs else 0.0) * cfg.tillerToYawAccel
  }

  function DampingMoment(cfg: BoatConfig, omega: real): real {
    cfg.yawDampingLinear * omega + cfg.yawDampingQuadratic * AbsReal(omega) * omega
  }

  function DampingAccel(cfg: BoatConfig, omega: real): real
    requires cfg.yawInertia > 0.0
  {
    DampingMoment(cfg, omega) / cfg.yawInertia
  }

  function Steered(cfg: BoatConfig, b: Boat, signedImpulse: real): Boat {
    var t := b.tillerPosition + cfg.intentStepToTiller * signedImpulse;
    b.(tillerPosition := if t > cfg.tillerMaxAbs then cfg.tillerMaxAbs
                         else if t < -cfg.tillerMaxAbs then -cfg.tillerMaxAbs else t)
  }

  function YawAccel(cfg: BoatConfig, sine: Sine, b: Boat): real
    requires cfg.yawInertia > 0.0
  {
    cfg.environmentTorque + WindYawAccel(cfg, sine, b.heading) + TillerYawAccel(cfg, b.tillerPosition)
      - DampingAccel(cfg, b.angularVelocity)
  }

  function NextRate(omega: real, accel: real, dt: real): real {
    omega + accel * dt
  }

  function NextHeading(heading: real, omega: real, dt: real): real {
    Wrapped(heading + Mul(omega, dt))
  }

  /** One explicit Euler step: the new rate turns the boat. */
  function Moved(cfg: BoatConfig, sine: Sine, b: Boat, dt: real): Boat
    requires cfg.yawInertia > 0.0
  {
    var omega := NextRate(b.angularVelocity, YawAccel(cfg, sine, b), dt);
    Boat(NextHeading(b.heading, omega, dt), omega, b.tillerPosition)
  }

  function Launched(cfg: BoatConfig): Boat {
    Boat(Wrapped(cfg.initialHeading), 0.0, 0.0)
  }

  class BootModel {
    const config: BoatConfig
    const sine: Sine
    var heading: real
    var angularVelocity: real
    var tillerPosition: real
    var lastTillerYawAccel: real
    var lastWindYawAccel: real
    var lastDampingYawAccel: real

    ghost function Model(): Boat
      reads this
    {
      Boat(heading, angularVelocity, tillerPosition)
    }

    constructor (config: BoatConfig, sine: Sine)
      ensures this.config == config && this.sine == sine && Model() == Launched(config)
    {
      var h := NormalizeHeading(config.initialHeading);
      this.config, this.sine := config, sine;
      heading, angularVelocity, tillerPosition := h, 0.0, 0.0;
      lastTillerYawAccel, lastWindYawAccel, lastDampingYawAccel := 0.0, 0.0, 0.0;
    }

    method ApplyIntent(signedImpulse: real)
      modifies this`tillerPosition
      ensures Model() == Steered(config, old(Model()), signedImpulse)
    {
      tillerPosition := tillerPosition + config.intentStepToTiller * signedImpulse;
      if tillerPosition > config.tillerMaxAbs {
        tillerPosition := config.tillerMaxAbs;
      } else if tillerPosition < -config.tillerMaxAbs {
        tillerPosition := -config.tillerMaxAbs;
      }
    }

    method ComputeWindYawAccel() returns (accel: real)
      ensures accel == WindYawAccel(config, sine, heading)
    {
      if config.trueWindSpeed <= 0.0 || config.windHullYawAccel <= 0.0 {
        return 0.0;
      }
      hide HullPush, SignedWrapped;
      var relativeWindAngle := NormalizeAngleSigned(config.trueWindDirection - heading);
      return HullPush(config, sine, relativeWindAngle);
    }

    /** The recorded accelerations are the summands of the step. */
    method Update(dt: real)
      requires config.yawInertia > 0.0
      modifies this
      ensures Model() == Moved(config, sine, old(Model()), dt)
      ensures angularVelocity == NextRate(old(angularVelocity),
        config.environmentTorque + lastWindYawAccel + lastTillerYawAccel + lastDampingYawAccel, dt)
    {
      hide WindYawAccel, TillerYawAccel, DampingAccel, NextRate, NextHeading;
      var wind := ComputeWindYawAccel();
      var tillerAccel := ComputeTillerYawAccel();
      var damping := ComputeDampingYawAccel();
      lastTillerYawAccel, lastWindYawAccel, lastDampingYawAccel := tillerAccel, wind, -damping;
      var total := config.environmentTorque + wind + tillerAccel - damping;
      assert total == YawAccel(config, sine, old(Model()));
      angularVelocity := NextRate(angularVelocity, total, dt);
      heading := Turn(dt);
    }

    method Turn(dt: real) returns (h: real)
      ensures h == NextHeading(heading, angularVelocity, dt)
    {
      hide Wrapped;
      h := NormalizeHeading(heading + angularVelocity * dt);
    }

    method ComputeTillerYawAccel() returns (accel: real)
      ensures accel == TillerYawAccel(config, tillerPosition)
    {
      var tillerNormalized := if config.tillerMaxAbs > 0.0 then tillerPosition / config.tillerMaxAbs else 0.0;
      return tillerNormalized * config.tillerToYawAccel;
    }

    method ComputeDampingYawAccel() returns (accel: real)
      requires config.yawInertia > 0.0
      ensures accel == DampingAccel(config, angularVelocity)
    {
      var dampingMoment := config.yawDampingLinear * angularVelocity
                           + config.yawDampingQuadratic * AbsReal(angularVelocity) * angularVelocity;
      return dampingMoment / config.yawInertia;
    }
  }

  // ---- Every reachable state is bounded

  /** The largest acceleration that environment, wind and tiller can add up to. */
  function Drive(cfg: BoatConfig): real {
    AbsReal(cfg.environmentTorque) + cfg.windHullYawAccel * cfg.trueWindSpeed * cfg.trueWindSpeed + cfg.tillerToYawAccel
  }

  /** Damping at this rate balances the drive, and one step is short against it. */
  ghost predicate RateLimit(cfg: BoatConfig, dt: real, bound: real) {
    && 0.0 <= dt && 0.0 <= bound
    && bound * cfg.yawDampingLinear >= cfg.yawInertia * Drive(cfg)
    && dt * (cfg.yawDampingLinear + cfg.yawDampingQuadratic * bound) <= cfg.yawInertia
  }

  ghost predicate Bounded(cfg: BoatConfig, b: Boat, bound: real) {
    && 0.0 <= b.heading < 360.0
    && -cfg.tillerMaxAbs <= b.tillerPosition <= cfg.tillerMaxAbs
    && AbsReal(b.angularVelocity) <= bound
  }

  /** What one pass of the simulation does to the boat: an impulse or none, then a step. */
  function Passed(cfg: BoatConfig, sine: Sine, b: Boat, dt: real, impulse: real): Boat
    requires cfg.yawInertia > 0.0
  {
    Moved(cfg, sine, Steered(cfg, b, impulse), dt)
  }

  /** The boat after these impulses, one per pass; zero stands for none. */
  function Voyage(cfg: BoatConfig, sine: Sine, dt: real, impulses: seq<real>): Boat
    requires cfg.yawInertia > 0.0
  {
    if impulses == [] then Launched(cfg)
    else Passed(cfg, sine, Voyage(cfg, sine, dt, impulses[..|impulses| - 1]), dt, impulses[|impulses| - 1])
  }

  /** For every sequence of impulses and every bound that meets the limit, the yaw rate stays
      within it, the tiller within its stops and the heading on the compass rose. */
  lemma {:induction false} VoyageBounded(cfg: BoatConfig, sine: Sine, dt: real, impulses: seq<real>, bound: real)
    requires cfg.Valid() && RateLimit(cfg, dt, bound)
    ensures Bounded(cfg, Voyage(cfg, sine, dt, impulses), bound)
  {
    hide Passed, RateLimit, Drive;
    if impulses == [] {
      LaunchBounded(cfg, dt, bound);
    } else {
      VoyageBounded(cfg, sine, dt, impulses[..|impulses| - 1], bound);
      PassBounded(cfg, sine, Voyage(cfg, sine, dt, impulses[..|impulses| - 1]), dt, impulses[|impulses| - 1], bound);
    }
  }

  lemma {:induction false} LaunchBounded(cfg: BoatConfig, dt: real, bound: real)
    requires cfg.Valid() && RateLimit(cfg, dt, bound)
    ensures Bounded(cfg, Launched(cfg), bound)
  {
    WrappedRange(cfg.initialHeading);
  }

  lemma {:induction false} PassBounded(cfg: BoatConfig, sine: Sine, b: Boat, dt: real, impulse: real, bound: real)
    requires cfg.Valid() && RateLimit(cfg, dt, bound) && Bounded(cfg, b, bound)
    ensures Bounded(cfg, Passed(cfg, sine, b, dt, impulse), bound)
  {
    hide YawAccel, NextRate, NextHeading, RateLimit, Drive, Steered;
    var s := Steered(cfg, b, impulse);
    SteeredBounded(cfg, b, impulse, bound);
    RateStaysBounded(cfg, sine, s, dt, bound);
    NextHeadingRange(s.heading, Moved(cfg, sine, s, dt).angularVelocity, dt);
  }

  lemma {:induction false} NextHeadingRange(heading: real, omega: real, dt: real)
    ensures 0.0 <= NextHeading(heading, omega, dt) < 360.0
  {
    hide Wrapped;
    WrappedRange(heading + Mul(omega, dt));
  }

  lemma {:induction false} SteeredBounded(cfg: BoatConfig, b: Boat, impulse: real, bound: real)
    requires cfg.Valid() && Bounded(cfg, b, bound)
    ensures Bounded(cfg, Steered(cfg, b, impulse), bound)
  {
  }

  lemma {:induction false} RateStaysBounded(cfg: BoatConfig, sine: Sine, b: Boat, dt: real, bound: real)
    requires cfg.Valid() && RateLimit(cfg, dt, bound) && Bounded(cfg, b, bound)
    ensures AbsReal(NextRate(b.angularVelocity, YawAccel(cfg, sine, b), dt)) <= bound
  {
    hide WindYawAccel, TillerYawAccel, Drive, DampingAccel, NextRate;
    var push := cfg.environmentTorque + WindYawAccel(cfg, sine, b.heading) + TillerYawAccel(cfg, b.tillerPosition);
    PushWithinDrive(cfg, sine, b);
    DampingScaled(cfg, b.angularVelocity);
    DampedStep(b.angularVelocity, push, DampingAccel(cfg, b.angularVelocity), dt, cfg.yawInertia,
               cfg.yawDampingLinear, cfg.yawDampingQuadratic, bound, Drive(cfg));
  }

  lemma {:induction false} DampingScaled(cfg: BoatConfig, omega: real)
    requires cfg.yawInertia > 0.0
    ensures DampingAccel(cfg, omega) * cfg.yawInertia
         == cfg.yawDampingLinear * omega + cfg.yawDampingQuadratic * AbsReal(omega) * omega
  {
  }

  lemma {:induction false} PushWithinDrive(cfg: BoatConfig, sine: Sine, b: Boat)
    requires cfg.Valid() && -cfg.tillerMaxAbs <= b.tillerPosition <= cfg.tillerMaxAbs
    ensures AbsReal(cfg.environmentTorque + WindYawAccel(cfg, sine, b.heading) + TillerYawAccel(cfg, b.tillerPosition))
         <= Drive(cfg)
  {
    hide WindYawAccel, TillerYawAccel;
    WindWithinGain(cfg, sine, b.heading);
    TillerWithinGain(cfg, b.tillerPosition);
  }

  lemma {:induction false} WindWithinGain(cfg: BoatConfig, sine: Sine, heading: real)
    requires cfg.Valid()
    ensures AbsReal(WindYawAccel(cfg, sine, heading)) <= cfg.windHullYawAccel * cfg.trueWindSpeed * cfg.trueWindSpeed
  {
    hide SignedWrapped, DegToRad;
    var angle := DegToRad(SignedWrapped(cfg.trueWindDirection - heading));
    var gain := cfg.windHullYawAccel * cfg.trueWindSpeed * cfg.trueWindSpeed;
    ProductNonNegative(cfg.windHullYawAccel, cfg.trueWindSpeed);
    ProductNonNegative(cfg.windHullYawAccel * cfg.trueWindSpeed, cfg.trueWindSpeed);
    ShareOf(gain, sine(angle));
  }

  lemma {:induction false} TillerWithinGain(cfg: BoatConfig, tiller: real)
    requires cfg.Valid() && -cfg.tillerMaxAbs <= tiller <= cfg.tillerMaxAbs
    ensures AbsReal(TillerYawAccel(cfg, tiller)) <= cfg.tillerToYawAccel
  {
    var share := tiller / cfg.tillerMaxAbs;
    ShareBound(share, cfg.tillerMaxAbs, tiller);
    ShareOf(cfg.tillerToYawAccel, share);
  }

  /** A damped Euler step keeps |w| within bound: scaled by the inertia, the old rate shrinks by
      at least what the drive can add. */
  lemma {:induction false} DampedStep(w: real, push: real, damping: real, dt: real, inertia: real, lin: real, quad: real,
                                      bound: real, drive: real)
    requires 0.0 < inertia && 0.0 <= lin && 0.0 <= quad && 0.0 <= dt
    requires AbsReal(w) <= bound && AbsReal(push) <= drive
    requires Mul(damping, inertia) == lin * w + quad * AbsReal(w) * w
    requires Mul(bound, lin) >= Mul(inertia, drive) && Mul(dt, lin + Mul(quad, bound)) <= inertia
    ensures AbsReal(NextRate(w, push - damping, dt)) <= bound
  {
    hide NextRate, Mul, AbsReal;
    var d := Mul(dt, lin + Mul(quad, AbsReal(w)));
    var next := NextRate(w, push - damping, dt);
    ScaledStep(w, push, damping, dt, inertia, lin, quad, d);
    AbsNonNegative(w);
    DampingFactor(dt, lin, quad, AbsReal(w), bound, inertia);
    Shrinks(w, d, inertia, Mul(dt, lin), bound);
    PushTerm(dt, inertia, push, drive);
    ScaleBack(dt, bound, lin, inertia, drive);
    SumWithin(Mul(inertia, next), Mul(w, inertia - d), Mul(dt, Mul(inertia, push)),
              Mul(bound, inertia - Mul(dt, lin)), Mul(dt, Mul(inertia, drive)), Mul(bound, inertia));
    CancelInertia(inertia, next, bound);
  }

  lemma {:induction false} AbsNonNegative(w: real)
    ensures 0.0 <= AbsReal(w)
  {
  }

  lemma {:induction false} SumWithin(c: real, a: real, b: real, p: real, q: real, total: real)
    requires c == a + b && AbsReal(a) <= p && AbsReal(b) <= q && p + q <= total
    ensures AbsReal(c) <= total
  {
  }

  lemma {:induction false} ScaledStep(w: real, push: real, damping: real, dt: real, inertia: real, lin: real, quad: real,
                                      d: real)
    requires Mul(damping, inertia) == lin * w + quad * AbsReal(w) * w && d == Mul(dt, lin + Mul(quad, AbsReal(w)))
    ensures Mul(inertia, NextRate(w, push - damping, dt)) == Mul(w, inertia - d) + Mul(dt, Mul(inertia, push))
  {
    var x := AbsReal(w);
    assert inertia * ((push - damping) * dt) == dt * (inertia * push) - dt * (damping * inertia);
    assert dt * (lin * w + quad * x * w) == w * d by {
      assert lin * w + quad * x * w == w * (lin + quad * x);
    }
  }

  lemma {:induction false} DampingFactor(dt: real, lin: real, quad: real, x: real, bound: real, inertia: real)
    requires 0.0 <= dt && 0.0 <= lin && 0.0 <= quad && 0.0 <= x <= bound
    requires Mul(dt, lin + Mul(quad, bound)) <= inertia
    ensures Mul(dt, lin) <= Mul(dt, lin + Mul(quad, x)) <= inertia
  {
    ProductMonotone(quad, 0.0, x);
    ProductMonotone(quad, x, bound);
    ProductMonotone(dt, lin, lin + quad * x);
    ProductMonotone(dt, lin + quad * x, lin + quad * bound);
  }

  lemma {:induction false} Shrinks(w: real, d: real, inertia: real, least: real, bound: real)
    requires AbsReal(w) <= bound && least <= d <= inertia
    ensures AbsReal(Mul(w, inertia - d)) <= Mul(bound, inertia - least)
  {
    ProductMonotone(inertia - d, AbsReal(w), bound);
    ProductMonotone(bound, inertia - d, inertia - least);
    AbsProduct(w, inertia - d);
  }

  lemma {:induction false} PushTerm(dt: real, inertia: real, push: real, drive: real)
    requires 0.0 <= dt && 0.0 < inertia && AbsReal(push) <= drive
    ensures AbsReal(Mul(dt, Mul(inertia, push))) <= Mul(dt, Mul(inertia, drive))
  {
    AbsProduct(push, inertia);
    ProductMonotone(inertia, AbsReal(push), drive);
    AbsProduct(inertia * push, dt);
    ProductMonotone(dt, AbsReal(inertia * push), inertia * drive);
  }

  lemma {:induction false} ScaleBack(dt: real, bound: real, lin: real, inertia: real, drive: real)
    requires 0.0 <= dt && Mul(bound, lin) >= Mul(inertia, drive)
    ensures Mul(bound, inertia - Mul(dt, lin)) + Mul(dt, Mul(inertia, drive)) <= Mul(bound, inertia)
  {
    ProductMonotone(dt, inertia * drive, bound * lin);
    assert bound * (dt * lin) == dt * (bound * lin);
    assert bound * (inertia - dt * lin) == bound * inertia - bound * (dt * lin);
  }

  lemma {:induction false} CancelInertia(inertia: real, x: real, bound: real)
    requires 0.0 < inertia && AbsReal(Mul(inertia, x)) <= Mul(bound, inertia)
    ensures AbsReal(x) <= bound
  {
    AbsProduct(x, inertia);
    assert (bound - AbsReal(x)) * inertia >= 0.0;
    NonNegativeFactor(bound - AbsReal(x), inertia);
  }

  // ---- The step of the boat, written out

  /** wind is the push of the wind on the hull: with wind and windage, the gain times the squared
      speed times the sine of the angle from bow to wind, taken in (-180, 180] degrees. */
  ghost predicate IsWindPush(cfg: BoatConfig, sine: Sine, heading: real, wind: real) {
    if cfg.trueWindSpeed == 0.0 || cfg.windHullYawAccel == 0.0 then wind == 0.0
    else
      exists k: int ::
        && -180.0 < OffBow(cfg, heading, k) <= 180.0
        && wind == cfg.windHullYawAccel * cfg.trueWindSpeed * cfg.trueWindSpeed
                   * sine(OffBow(cfg, heading, k) * (PI / 180.0))
  }

  /** The angle from bow to wind, k turns on. */
  function OffBow(cfg: BoatConfig, heading: real, k: int): real {
    cfg.trueWindDirection - heading + 360.0 * k as real
  }

  /** The share of the full tiller times its gain; it has the sign of the tiller. */
  ghost predicate IsTillerPush(cfg: BoatConfig, tiller: real, push: real) {
    Mul(push, cfg.tillerMaxAbs) == Mul(tiller, cfg.tillerToYawAccel)
  }

  /** Linear and quadratic damping over the inertia; it has the sign of the rate. */
  ghost predicate IsDamping(cfg: BoatConfig, omega: real, damping: real) {
    Mul(damping, cfg.yawInertia)
      == cfg.yawDampingLinear * omega + cfg.yawDampingQuadratic * AbsReal(omega) * omega
  }

  /** after is b one explicit Euler step on: the pushes less the damping change the rate, and the
      new rate changes the heading, up to whole turns. */
  ghost predicate EulerStep(cfg: BoatConfig, sine: Sine, b: Boat, dt: real, after: Boat) {
    && after.tillerPosition == b.tillerPosition
    && 0.0 <= after.heading < 360.0
    && (exists k: int :: after.heading == TurnedBy(b.heading, Mul(after.angularVelocity, dt), k))
    && exists wind, tiller, damping :: Forces(cfg, sine, b, wind, tiller, damping)
         && after.angularVelocity == b.angularVelocity + (cfg.environmentTorque + wind + tiller - damping) * dt
  }

  function TurnedBy(heading: real, turn: real, k: int): real {
    heading + turn + 360.0 * k as real
  }

  ghost predicate Forces(cfg: BoatConfig, sine: Sine, b: Boat, wind: real, tiller: real, damping: real) {
    && IsWindPush(cfg, sine, b.heading, wind)
    && IsTillerPush(cfg, b.tillerPosition, tiller)
    && IsDamping(cfg, b.angularVelocity, damping)
  }

  lemma {:induction false} MovedIsEulerStep(cfg: BoatConfig, sine: Sine, b: Boat, dt: real)
    requires cfg.Valid()
    ensures EulerStep(cfg, sine, b, dt, Moved(cfg, sine, b, dt))
  {
    hide WindYawAccel, TillerYawAccel, DampingAccel, Wrapped, Mul, IsWindPush, IsTillerPush, IsDamping;
    var after := Moved(cfg, sine, b, dt);
    WindPushLaw(cfg, sine, b.heading);
    TillerPushLaw(cfg, b.tillerPosition);
    DampingLaw(cfg, b.angularVelocity);
    assert Forces(cfg, sine, b, WindYawAccel(cfg, sine, b.heading), TillerYawAccel(cfg, b.tillerPosition),
                  DampingAccel(cfg, b.angularVelocity));
    WrappedRange(b.heading + Mul(after.angularVelocity, dt));
    WrappedTurns(b.heading, Mul(after.angularVelocity, dt));
  }

  lemma {:induction false} WrappedTurns(heading: real, turn: real)
    ensures exists k: int :: Wrapped(heading + turn) == TurnedBy(heading, turn, k)
  {
    var k := -((heading + turn) / 360.0).Floor;
    assert Wrapped(heading + turn) == TurnedBy(heading, turn, k);
  }

  lemma {:induction false} WindPushLaw(cfg: BoatConfig, sine: Sine, heading: real)
    requires cfg.Valid()
    ensures IsWindPush(cfg, sine, heading, WindYawAccel(cfg, sine, heading))
  {
    hide SignedWrapped;
    var k := SignedTurns(cfg.trueWindDirection - heading);
    assert OffBow(cfg, heading, k) == SignedWrapped(cfg.trueWindDirection - heading);
  }

  lemma {:induction false} SignedTurns(angle: real) returns (k: int)
    ensures -180.0 < SignedWrapped(angle) <= 180.0
    ensures SignedWrapped(angle) == angle + 360.0 * k as real
  {
    k := ((180.0 - angle) / 360.0).Floor;
    WrappedRange(180.0 - angle);
  }

  lemma {:induction false} TillerPushLaw(cfg: BoatConfig, tiller: real)
    requires cfg.Valid()
    ensures IsTillerPush(cfg, tiller, TillerYawAccel(cfg, tiller))
  {
    ShareTimesWhole(tiller, cfg.tillerMaxAbs, cfg.tillerToYawAccel);
  }

  lemma {:induction false} ShareTimesWhole(x: real, whole: real, gain: real)
    requires whole != 0.0
    ensures x / whole * gain * whole == x * gain
  {
    var share := x / whole;
    assert share * whole == x;
    assert share * gain * whole == share * whole * gain;
  }

  lemma {:induction false} DampingLaw(cfg: BoatConfig, omega: real)
    requires cfg.Valid()
    ensures IsDamping(cfg, omega, DampingAccel(cfg, omega))
  {
    hide DampingMoment;
    QuotientOf(DampingMoment(cfg, omega), cfg.yawInertia);
    MomentIs(cfg, omega);
  }

  lemma {:induction false} QuotientOf(x: real, y: real)
    requires y != 0.0
    ensures Mul(x / y, y) == x
  {
  }

  lemma {:induction false} MomentIs(cfg: BoatConfig, omega: real)
    ensures DampingMoment(cfg, omega) == cfg.yawDampingLinear * omega + cfg.yawDampingQuadratic * AbsReal(omega) * omega
  {
  }
}
