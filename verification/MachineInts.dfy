/** The fixed-width integers of the firmware, written out over Dafny's unbounded ones. */
module MachineInts {
  const WORD := 0x1_0000_0000

  type uint8 = x: int | 0 <= x < 0x100
  type uint16 = x: int | 0 <= x < 0x1_0000
  type uint32 = x: int | 0 <= x < WORD
  type int16 = x: int | -0x8000 <= x < 0x8000

  /** Storing an int in an int16_t. */
  function ToInt16(x: int): int16 {
    (x + 0x8000) % 0x1_0000 - 0x8000
  }

  /** Division as C++ does it: toward zero. */
  function TruncDiv(a: int, b: int): int
    requires b > 0
  {
    if a >= 0 then a / b else -((-a) / b)
  }

  /** The remainder that belongs to TruncDiv: it has the sign of the dividend. */
  function TruncMod(a: int, b: int): int
    requires b > 0
  {
    a - b * TruncDiv(a, b)
  }

  function Abs(x: int): nat {
    if x < 0 then -x else x
  }

  function AbsReal(x: real): real {
    if x < 0.0 then -x else x
  }

  function Min(a: int, b: int): int {
    if a <= b then a else b
  }

  function Max(a: int, b: int): int {
    if a >= b then a else b
  }

  /** The millisecond counter the controller sees: the low word of an unbounded clock. */
  function Low32(clock: nat): uint32 {
    clock % WORD
  }

  /** now - since on uint32_t. */
  function Elapsed(now: uint32, since: uint32): uint32 {
    (now - since) % WORD
  }

  /** Modular subtraction never reports more time than has truly passed, however often the
      counter wrapped, and is exact while less than one word has passed. */
  lemma {:induction false} ElapsedNeverOverstates(since: nat, now: nat)
    requires since <= now
    ensures Elapsed(Low32(now), Low32(since)) == (now - since) % WORD
    ensures Elapsed(Low32(now), Low32(since)) <= now - since
    ensures now - since < WORD ==> Elapsed(Low32(now), Low32(since)) == now - since
  {
    var q, r := now / WORD, since / WORD;
    assert now - since == (Low32(now) - Low32(since)) + (q - r) * WORD;
    ModPlusMultiple(Low32(now) - Low32(since), q - r);
  }

  lemma {:induction false} ModPlusMultiple(x: int, k: int)
    ensures (x + k * WORD) % WORD == x % WORD
  {
    var d := x / WORD;
    assert x + k * WORD == (d + k) * WORD + x % WORD;
  }

  /** A truncating quotient of a value between lo * n and hi * n lies between lo and hi. */
  lemma {:induction false} TruncDivBounds(sum: int, n: int, lo: int, hi: int)
    requires n > 0 && lo * n <= sum <= hi * n
    ensures lo <= TruncDiv(sum, n) <= hi
  {
    if sum >= 0 {
      QuotientBetween(sum, n, lo, hi);
    } else {
      assert (-hi) * n == -(hi * n) && (-lo) * n == -(lo * n);
      QuotientBetween(-sum, n, -hi, -lo);
    }
  }

  lemma {:induction false} QuotientBetween(a: int, n: int, lo: int, hi: int)
    requires n > 0 && lo * n <= a <= hi * n
    ensures lo <= a / n <= hi
  {
    var q := a / n;
    QuotientBounds(a, n);
    MulCancel(lo, q + 1, n);
    MulCancel(q, hi + 1, n);
    assert (hi + 1) * n == hi * n + n;
  }

  lemma {:induction false} QuotientBounds(a: int, n: int)
    requires n > 0
    ensures a / n * n <= a < (a / n + 1) * n
  {
  }

  lemma {:induction false} MulCancel(a: int, b: int, n: int)
    requires n > 0
    ensures a * n < b * n ==> a < b
  {
    if a >= b { assert (a - b) * n >= 0; }
  }
}
