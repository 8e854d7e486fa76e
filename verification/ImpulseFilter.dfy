/** The damping of an impulse by the speed through water. */
module ImpulseFilter {
  import opened MachineInts
  import opened RealProducts
  import opened ControllerSpec

  datatype Physics = Physics(dampingRegulator: real, dampingMinFactor: real, dampingMaxFactor: real)
  {
    /** What the configured constants satisfy. */
    predicate Valid() {
      0.0 <= dampingRegulator && 0.0 <= dampingMinFactor <= dampingMaxFactor <= 1.0
    }
  }

  const PHYSICS := Physics(0.4, 0.35, 1.0)
  const DUTY_CYCLE_DEFAULT: uint8 := 100

  datatype PwmIntent = PwmIntent(dir: Direction, filteredAbstractImpulse: uint16, dutyCycle: uint8)

  function Clamp(x: real, lo: real, hi: real): real
    requires lo <= hi
  {
    if x < lo then lo else if x > hi then hi else x
  }

  /** The square of the speed, weighted. */
  /** The weighted square of the speed. */
  function Load(p: Physics, v: real): (load: real)
    requires p.Valid()
    ensures 0.0 <= load
  {
    LoadIsSquare(p.dampingRegulator, v);
    p.dampingRegulator * v * v
  }

  function Reciprocal(x: real): real
    requires 0.0 < x
  {
    1.0 / x
  }

  function Damping(p: Physics, v: real): (d: real)
    requires p.Valid()
    ensures p.dampingMinFactor <= d <= p.dampingMaxFactor
  {
    Clamp(Reciprocal(1.0 + Load(p, v)), p.dampingMinFactor, p.dampingMaxFactor)
  }

  lemma {:induction false} LoadIsSquare(r: real, v: real)
    requires 0.0 <= r
    ensures r * v * v == Mul(r, Mul(AbsReal(v), AbsReal(v))) >= 0.0
  {
    SquareOfAbs(v);
    ProductNonNegative(AbsReal(v), AbsReal(v));
    ProductNonNegative(r, AbsReal(v) * AbsReal(v));
    Regroup(r, v);
  }

  lemma {:induction false} Regroup(r: real, v: real)
    ensures r * v * v == r * (v * v)
  {
  }

  function Damped(impulse: uint8, d: real): (r: uint16)
    requires 0.0 <= d <= 1.0
    ensures r == Mul(impulse as real, d).Floor
  {
    DampedWithin(impulse as real, d);
    Normalized(Mul(impulse as real, d), impulse)
  }

  lemma {:induction false} DampedWithin(x: real, d: real)
    requires 0.0 <= x && 0.0 <= d <= 1.0
    ensures 0.0 <= Mul(x, d) <= x
  {
    ScaledDown(x, d);
  }

  /** Through a percentage and back. */
  function Normalized(effective: real, most: uint8): (r: uint16)
    requires 0.0 <= effective <= most as real
    ensures r == effective.Floor
  {
    ThroughPercent(effective);
    FloorWithin(effective, most);
    (effective / 100.0 * 100.0).Floor
  }

  lemma {:induction false} ThroughPercent(x: real)
    ensures x / 100.0 * 100.0 == x
  {
  }

  lemma {:induction false} FloorWithin(x: real, n: nat)
    requires 0.0 <= x <= n as real
    ensures 0 <= x.Floor <= n
  {
  }

  /** apply: without a valid speed the impulse passes unchanged. */
  function Apply(p: Physics, intent: Intent, stw: Option<real>): PwmIntent
    requires p.Valid()
  {
    match stw
    case None => PwmIntent(intent.dir, intent.abstractImpulse, DUTY_CYCLE_DEFAULT)
    case Some(v) => PwmIntent(intent.dir, Damped(intent.abstractImpulse, Damping(p, v)), DUTY_CYCLE_DEFAULT)
  }

  /** The filter keeps the direction, never raises the impulse, and keeps its minimal share. */
  lemma {:induction false} FilterOnlyDampens(p: Physics, intent: Intent, stw: Option<real>)
    requires p.Valid()
    ensures var out := Apply(p, intent, stw);
            && out.dir == intent.dir
            && (p.dampingMinFactor * intent.abstractImpulse as real).Floor
                 <= out.filteredAbstractImpulse <= intent.abstractImpulse
  {
    hide Damped, Damping;
    var x := intent.abstractImpulse;
    UndampedIs(x);
    MinimalShare(p, x);
    DampedMonotone(x, x, p.dampingMinFactor, 1.0);
    if stw.Some? {
      DampedMonotone(x, x, p.dampingMinFactor, Damping(p, stw.value));
      DampedMonotone(x, x, Damping(p, stw.value), 1.0);
    }
  }

  lemma {:induction false} UndampedIs(x: uint8)
    ensures Damped(x, 1.0) == x
  {
    hide Damped;
  }

  lemma {:induction false} MinimalShare(p: Physics, x: uint8)
    requires p.Valid()
    ensures Damped(x, p.dampingMinFactor) == (p.dampingMinFactor * x as real).Floor
  {
    hide Damped;
  }

  /** Without a valid speed an impulse passes as it is. With a speed it is divided by one plus the
      weighted square of the speed, or scaled by the least or greatest factor where the quotient
      would leave them, and cut to a whole number. */
  lemma {:induction false} FilterLaw(p: Physics, intent: Intent, stw: Option<real>)
    requires p.Valid()
    ensures var out := Apply(p, intent, stw);
            && out.dir == intent.dir && out.dutyCycle == 100
            && match stw
               case None => out.filteredAbstractImpulse == intent.abstractImpulse
               case Some(v) =>
                 IsDampedBy(p, 1.0 + p.dampingRegulator * v * v, intent.abstractImpulse, out.filteredAbstractImpulse)
  {
    hide Damped, Damping;
    if stw.Some? {
      DampedBy(p, stw.value, intent.abstractImpulse);
    }
  }

  ghost predicate IsDampedBy(p: Physics, divisor: real, impulse: nat, out: nat) {
    if Mul(p.dampingMinFactor, divisor) > 1.0 then IsWholePart(out, Mul(impulse as real, p.dampingMinFactor))
    else if Mul(p.dampingMaxFactor, divisor) < 1.0 then IsWholePart(out, Mul(impulse as real, p.dampingMaxFactor))
    else Mul(out as real, divisor) <= impulse as real < Mul((out + 1) as real, divisor)
  }

  ghost predicate IsWholePart(n: nat, x: real) {
    n as real <= x < (n + 1) as real
  }

  lemma {:induction false} DampedBy(p: Physics, v: real, impulse: uint8)
    requires p.Valid()
    ensures IsDampedBy(p, 1.0 + p.dampingRegulator * v * v, impulse, Damped(impulse, Damping(p, v)))
  {
    hide Mul, Damped, Damping, Load, IsDampedBy;
    LoadIs(p, v);
    WholePart(Mul(impulse as real, Damping(p, v)), Damped(impulse, Damping(p, v)));
    ClampedQuotient(p, 1.0 + Load(p, v), impulse, Damping(p, v), Damped(impulse, Damping(p, v)));
  }

  lemma {:induction false} LoadIs(p: Physics, v: real)
    requires p.Valid()
    ensures Load(p, v) == p.dampingRegulator * v * v
    ensures Damping(p, v) == Clamp(Reciprocal(1.0 + Load(p, v)), p.dampingMinFactor, p.dampingMaxFactor)
  {
  }

  lemma {:induction false} ClampedQuotient(p: Physics, divisor: real, impulse: nat, d: real, out: nat)
    requires p.Valid() && divisor > 0.0
    requires d == Clamp(Reciprocal(divisor), p.dampingMinFactor, p.dampingMaxFactor)
    requires IsWholePart(out, Mul(impulse as real, d))
    ensures IsDampedBy(p, divisor, impulse, out)
  {
    hide Mul, Reciprocal, Clamp;
    ReciprocalAgainst(divisor, p.dampingMinFactor);
    ReciprocalAgainst(divisor, p.dampingMaxFactor);
    if Mul(p.dampingMinFactor, divisor) <= 1.0 <= Mul(p.dampingMaxFactor, divisor) {
      ClampKeeps(Reciprocal(divisor), p.dampingMinFactor, p.dampingMaxFactor);
      WholeOfQuotient(impulse as real, divisor, out);
    } else {
      ClampCuts(Reciprocal(divisor), p.dampingMinFactor, p.dampingMaxFactor);
    }
  }

  lemma {:induction false} ClampKeeps(x: real, lo: real, hi: real)
    requires lo <= x <= hi
    ensures Clamp(x, lo, hi) == x
  {
  }

  lemma {:induction false} ClampCuts(x: real, lo: real, hi: real)
    requires lo <= hi
    ensures x < lo ==> Clamp(x, lo, hi) == lo
    ensures x > hi ==> Clamp(x, lo, hi) == hi
  {
  }

  /** A factor times the divisor exceeds one exactly when the factor exceeds its reciprocal. */
  lemma {:induction false} ReciprocalAgainst(divisor: real, factor: real)
    requires divisor > 0.0
    ensures Mul(factor, divisor) > 1.0 <==> Reciprocal(divisor) < factor
    ensures Mul(factor, divisor) < 1.0 <==> Reciprocal(divisor) > factor
  {
    hide Reciprocal;
    ReciprocalIs(divisor);
    CancelBoth(factor, Reciprocal(divisor), divisor);
  }

  lemma {:induction false} CancelBoth(a: real, b: real, n: real)
    requires n > 0.0
    ensures Mul(a, n) < Mul(b, n) <==> a < b
    ensures Mul(a, n) > Mul(b, n) <==> a > b
  {
    CancelFactor(a, b, n);
    CancelFactor(b, a, n);
  }

  lemma {:induction false} WholePart(x: real, n: nat)
    requires n == x.Floor
    ensures IsWholePart(n, x)
  {
  }

  lemma {:induction false} WholeOfQuotient(x: real, divisor: real, n: nat)
    requires divisor > 0.0 && IsWholePart(n, Mul(x, Reciprocal(divisor)))
    ensures Mul(n as real, divisor) <= x < Mul((n + 1) as real, divisor)
  {
    hide Mul, Reciprocal;
    ScaledWhole(n as real, Mul(x, Reciprocal(divisor)), (n + 1) as real, divisor);
    TimesReciprocal(x, divisor);
  }

  lemma {:induction false} ScaledWhole(a: real, b: real, c: real, n: real)
    requires a <= b < c && n > 0.0
    ensures Mul(a, n) <= Mul(b, n) < Mul(c, n)
  {
    CancelBoth(a, b, n);
    CancelBoth(b, c, n);
  }

  lemma {:induction false} TimesReciprocal(x: real, divisor: real)
    requires divisor > 0.0
    ensures Mul(Mul(x, Reciprocal(divisor)), divisor) == x
  {
    ReciprocalTimes(divisor);
    Regrouped(x, 1.0 / divisor, divisor);
  }

  lemma {:induction false} Regrouped(x: real, y: real, z: real)
    ensures x * y * z == x * (y * z)
  {
  }

  /** With the firmware's own settings at least 35 percent of every impulse get through. */
  lemma {:induction false} DefaultFilterKeepsShare(intent: Intent, stw: Option<real>)
    ensures PHYSICS.Valid()
    ensures (0.35 * intent.abstractImpulse as real).Floor
         <= Apply(PHYSICS, intent, stw).filteredAbstractImpulse <= intent.abstractImpulse
  {
    FilterOnlyDampens(PHYSICS, intent, stw);
  }

  /** A stronger impulse never comes out weaker. */
  lemma {:induction false} FilterMonotoneInImpulse(p: Physics, a: Intent, b: Intent, stw: Option<real>)
    requires p.Valid() && a.abstractImpulse <= b.abstractImpulse
    ensures Apply(p, a, stw).filteredAbstractImpulse <= Apply(p, b, stw).filteredAbstractImpulse
  {
    if stw.Some? {
      DampedMonotone(a.abstractImpulse, b.abstractImpulse, Damping(p, stw.value), Damping(p, stw.value));
    }
  }

  /** More speed through the water, ahead or astern, never strengthens an impulse. */
  lemma {:induction false} FilterAntitoneInSpeed(p: Physics, intent: Intent, v: real, w: real)
    requires p.Valid() && AbsReal(v) <= AbsReal(w)
    ensures Apply(p, intent, Some(w)).filteredAbstractImpulse <= Apply(p, intent, Some(v)).filteredAbstractImpulse
  {
    DampingAntitone(p, v, w);
    DampedMonotone(intent.abstractImpulse, intent.abstractImpulse, Damping(p, w), Damping(p, v));
  }

  lemma {:induction false} DampedMonotone(a: uint8, b: uint8, d: real, e: real)
    requires a <= b && 0.0 <= d <= e <= 1.0
    ensures Damped(a, d) <= Damped(b, e)
  {
    hide Damped, Mul;
    ProductsMonotone(a as real, b as real, d, e);
    FloorMonotone(Mul(a as real, d), Mul(b as real, e));
  }

  lemma {:induction false} ProductsMonotone(a: real, b: real, d: real, e: real)
    requires 0.0 <= a <= b && 0.0 <= d <= e
    ensures Mul(a, d) <= Mul(b, e)
  {
    ProductMonotone(d, a, b);
    ProductMonotone(b, d, e);
  }

  lemma {:induction false} FloorMonotone(x: real, y: real)
    requires x <= y
    ensures x.Floor <= y.Floor
  {
  }

  lemma {:induction false} DampingAntitone(p: Physics, v: real, w: real)
    requires p.Valid() && AbsReal(v) <= AbsReal(w)
    ensures Damping(p, w) <= Damping(p, v)
  {
    hide Load, Reciprocal, Clamp;
    LoadMonotone(p, v, w);
    ReciprocalAntitone(1.0 + Load(p, v), 1.0 + Load(p, w));
    ClampMonotone(Reciprocal(1.0 + Load(p, w)), Reciprocal(1.0 + Load(p, v)), p.dampingMinFactor, p.dampingMaxFactor);
  }

  lemma {:induction false} ClampMonotone(x: real, y: real, lo: real, hi: real)
    requires x <= y && lo <= hi
    ensures Clamp(x, lo, hi) <= Clamp(y, lo, hi)
  {
  }

  lemma {:induction false} LoadMonotone(p: Physics, v: real, w: real)
    requires p.Valid() && AbsReal(v) <= AbsReal(w)
    ensures Load(p, v) <= Load(p, w)
  {
    hide Mul;
    LoadIsSquare(p.dampingRegulator, v);
    LoadIsSquare(p.dampingRegulator, w);
    ProductsMonotone(AbsReal(v), AbsReal(w), AbsReal(v), AbsReal(w));
    SquareIsNotNegative(AbsReal(v));
    ProductsMonotone(p.dampingRegulator, p.dampingRegulator, Mul(AbsReal(v), AbsReal(v)), Mul(AbsReal(w), AbsReal(w)));
  }

  lemma {:induction false} SquareIsNotNegative(x: real)
    requires 0.0 <= x
    ensures 0.0 <= Mul(x, x)
  {
    ProductNonNegative(x, x);
  }

  lemma {:induction false} ReciprocalAntitone(a: real, b: real)
    requires 0.0 < a <= b
    ensures Reciprocal(b) <= Reciprocal(a)
  {
    hide Mul, Reciprocal;
    ReciprocalIs(a);
    ReciprocalIs(b);
    ProductsMonotone(Reciprocal(b), Reciprocal(b), a, b);
    CancelMul(Reciprocal(b), Reciprocal(a), a);
  }

  lemma {:induction false} ReciprocalIs(x: real)
    requires 0.0 < x
    ensures Mul(Reciprocal(x), x) == 1.0 && 0.0 <= Reciprocal(x)
  {
    ReciprocalTimes(x);
    NonNegativeFactor(1.0 / x, x);
  }

  lemma {:induction false} CancelMul(a: real, b: real, n: real)
    requires n > 0.0 && Mul(a, n) <= Mul(b, n)
    ensures a <= b
  {
    CancelFactor(a, b, n);
  }
}
