/** The wrapped heading error (HeadingErrorCalculator). */
module HeadingError {
  import opened MachineInts

  function CalculateError(current: uint16, target: uint16): int {
    var d0: int16 := ToInt16(target - current);
    var d1: int16 := ToInt16(d0 + 360);
    var d2: int16 := ToInt16(d1 + 180);
    var d3: int16 := ToInt16(TruncMod(d2, 360));
    ToInt16(d3 - 180)
  }

  /** e turns the boat from current to target by the shorter way; half turns go left. */
  ghost predicate IsShortestRotation(e: int, current: int, target: int) {
    && -180 <= e <= 179
    && (e - (target - current)) % 360 == 0
    && forall d :: (d - (target - current)) % 360 == 0 ==> Abs(e) <= Abs(d)
  }

  lemma {:induction false} ErrorIsShortestRotation(current: uint16, target: uint16)
    requires current < 360 && target < 360
    ensures IsShortestRotation(CalculateError(current, target), current, target)
  {
    hide CalculateError, IsShortestRotation;
    ErrorShortestIff(current, target);
  }

  /** Over all 16-bit inputs the error is the shortest rotation exactly when the sum with 540
      neither overflows nor leaves a negative remainder. */
  lemma {:induction false} ErrorShortestIff(current: uint16, target: uint16)
    ensures IsShortestRotation(CalculateError(current, target), current, target)
       <==> var s := target - current + 540;
            s <= 0x7fff && (0 <= s || (-0x8000 <= s && s % 360 == 0))
  {
    hide CalculateError, IsShortestRotation, ToInt16, TruncMod;
    var s := target - current + 540;
    var e := CalculateError(current, target);
    ErrorFromSum(current, target);
    if -0x8000 <= s <= 0x7fff {
      NarrowNothing(s);
      ShortestWithoutOverflow(e, s, current, target);
    } else {
      NotShortestWithOverflow(e, s, current, target);
    }
  }

  lemma {:induction false} NarrowNothing(x: int)
    requires -0x8000 <= x <= 0x7fff
    ensures ToInt16(x) == x
  {
  }

  lemma {:induction false} ShortestWithoutOverflow(e: int, s: int, current: int, target: int)
    requires s == target - current + 540 && e == TruncMod(s, 360) - 180
    ensures IsShortestRotation(e, current, target) <==> 0 <= s || s % 360 == 0
  {
    hide TruncMod;
    assert s - 540 == target - current;
    WithoutOverflow(e, s);
  }

  lemma {:induction false} NotShortestWithOverflow(e: int, s: int, current: int, target: int)
    requires s == target - current + 540
    requires 0x7fff < s <= 0x1_0000 + 540 || -0x1_0000 + 540 <= s < -0x8000
    requires e == TruncMod(ToInt16(s), 360) - 180
    ensures !IsShortestRotation(e, current, target)
  {
    hide TruncMod, ToInt16;
    assert s - 540 == target - current;
    WithOverflow(e, s);
  }

  /** Three narrowing steps narrow like one. */
  lemma {:induction false} ErrorFromSum(current: uint16, target: uint16)
    ensures CalculateError(current, target) == TruncMod(ToInt16(target - current + 540), 360) - 180
  {
    hide ToInt16, TruncMod;
    NarrowTwice(target - current, 360);
    NarrowTwice(target - current + 360, 180);
    var t := ToInt16(target - current + 540);
    RemainderIsSmall(t);
  }

  lemma {:induction false} NarrowTwice(x: int, a: int)
    ensures ToInt16(ToInt16(x) + a) == ToInt16(x + a)
  {
    var k := (x + 0x8000) / 0x1_0000;
    assert ToInt16(x) == x - 0x1_0000 * k;
    assert (x + a + 0x8000 - 0x1_0000 * k) % 0x1_0000 == (x + a + 0x8000) % 0x1_0000;
  }

  lemma {:induction false} RemainderIsSmall(t: int16)
    ensures -360 < TruncMod(t, 360) < 360
    ensures ToInt16(TruncMod(t, 360)) == TruncMod(t, 360)
    ensures ToInt16(TruncMod(t, 360) - 180) == TruncMod(t, 360) - 180
  {
  }

  lemma {:induction false} WithoutOverflow(e: int, s: int)
    requires e == TruncMod(s, 360) - 180
    ensures (e - (s - 540)) % 360 == 0
    ensures -180 <= e <= 179 <==> s >= 0 || s % 360 == 0
    ensures -180 <= e <= 179 ==> forall d :: (d - (s - 540)) % 360 == 0 ==> Abs(e) <= Abs(d)
  {
    var q := TruncDiv(s, 360);
    assert e - (s - 540) == 360 * (1 - q);
    if -180 <= e <= 179 {
      HalfTurnIsMinimal(e, s - 540);
    }
  }

  /** A wrap of the 16-bit sum shifts it by 65536, which is no multiple of 360. */
  lemma {:induction false} WithOverflow(e: int, s: int)
    requires 0x7fff < s <= 0x1_0000 + 540 || -0x1_0000 + 540 <= s < -0x8000
    requires e == TruncMod(ToInt16(s), 360) - 180
    ensures (e - (s - 540)) % 360 != 0
  {
    var t := ToInt16(s);
    assert t == if s > 0 then s - 0x1_0000 else s + 0x1_0000;
    var q := TruncDiv(t, 360);
    assert e - (s - 540) == 360 * (1 - q) + (t - s);
  }

  lemma {:induction false} HalfTurnIsMinimal(e: int, turn: int)
    requires -180 <= e <= 179 && (e - turn) % 360 == 0
    ensures forall d :: (d - turn) % 360 == 0 ==> Abs(e) <= Abs(d)
  {
    forall d | (d - turn) % 360 == 0
      ensures Abs(e) <= Abs(d)
    {
      SameClass(e, d, turn);
    }
  }

  lemma {:induction false} SameClass(d: int, e: int, turn: int)
    requires (d - turn) % 360 == 0 && (e - turn) % 360 == 0
    ensures (d - e) % 360 == 0
  {
    assert d - e == 360 * ((d - turn) / 360 - (e - turn) / 360);
  }

  /** Turning the compass rose under heading and target together changes no error. */
  lemma {:induction false} ErrorRotationInvariant(current: uint16, target: uint16, offset: nat)
    requires current < 360 && target < 360
    ensures CalculateError((current + offset) % 360, (target + offset) % 360)
         == CalculateError(current, target)
  {
    hide CalculateError;
    var c, t := (current + offset) % 360, (target + offset) % 360;
    ErrorInClass(current, target);
    ErrorInClass(c, t);
    RotatedTurn(current, target, offset);
    HalfOpenTurnIsUnique(CalculateError(current, target), CalculateError(c, t), target - current, t - c,
      (target + offset) / 360 - (current + offset) / 360);
  }

  lemma {:induction false} ErrorInClass(current: uint16, target: uint16)
    requires current < 360 && target < 360
    ensures -180 <= CalculateError(current, target) <= 179
    ensures (CalculateError(current, target) - (target - current)) % 360 == 0
  {
    hide CalculateError;
    ErrorIsShortestRotation(current, target);
  }

  lemma {:induction false} RotatedTurn(current: nat, target: nat, offset: nat)
    ensures (target + offset) % 360 - (current + offset) % 360
         == target - current - 360 * ((target + offset) / 360 - (current + offset) / 360)
  {
  }

  lemma {:induction false} HalfOpenTurnIsUnique(e: int, f: int, turn: int, turned: int, k: int)
    requires -180 <= e <= 179 && (e - turn) % 360 == 0
    requires -180 <= f <= 179 && (f - turned) % 360 == 0
    requires turned == turn - 360 * k
    ensures e == f
  {
    assert f - e == 360 * ((f - turned) / 360 - (e - turn) / 360 - k);
  }
}
