/** Eight pixels to a byte, the first in the highest bit. */
module PackedBits {

  function Mask(offset: nat): bv8
    requires offset < 8
  {
    (1 as bv8) << (7 - offset)
  }

  function WithBitSet(byte: bv8, offset: nat): bv8
    requires offset < 8
  {
    byte | Mask(offset)
  }

  function WithBitCleared(byte: bv8, offset: nat): bv8
    requires offset < 8
  {
    byte & !Mask(offset)
  }

  /** The pixel at an offset, read as the adapter reads it. */
  predicate Lit(byte: bv8, offset: nat)
    requires offset < 8
  {
    (byte >> (7 - offset)) & 1 != 0
  }

  const MASKS: seq<bv8> := [0x80, 0x40, 0x20, 0x10, 0x08, 0x04, 0x02, 0x01]

  /** The pixel at an offset is the bit of that offset from the left. */
  lemma {:induction false} LitIsMasked(byte: bv8, offset: nat)
    requires offset < 8
    ensures Lit(byte, offset) <==> byte & MASKS[offset] != 0
  {
    ShiftAmount(offset);
    LitShifted(byte, (7 - offset) as bv8);
    MaskIs(offset);
  }

  lemma {:induction false} LitShifted(byte: bv8, i: bv8)
    requires i < 8
    ensures (byte >> i) & 1 != 0 <==> byte & (1 << i) != 0
  {
  }

  lemma {:induction false} MaskIs(offset: nat)
    requires offset < 8
    ensures Mask(offset) == MASKS[offset]
  {
  }

  lemma {:induction false} SetBit(byte: bv8, i: nat, j: nat)
    requires i < 8 && j < 8
    ensures Lit(WithBitSet(byte, i), j) == (i == j || Lit(byte, j))
  {
    ShiftAmount(i);
    ShiftAmount(j);
    SetShifted(byte, (7 - i) as bv8, (7 - j) as bv8);
  }

  lemma {:induction false} ClearBit(byte: bv8, i: nat, j: nat)
    requires i < 8 && j < 8
    ensures Lit(WithBitCleared(byte, i), j) == (i != j && Lit(byte, j))
  {
    ShiftAmount(i);
    ShiftAmount(j);
    ClearShifted(byte, (7 - i) as bv8, (7 - j) as bv8);
  }

  lemma {:induction false} ShiftAmount(i: nat)
    requires i < 8
    ensures (7 - i) as bv8 < 8 && (7 - i) as bv8 as int == 7 - i
  {
  }

  lemma {:induction false} SetShifted(byte: bv8, i: bv8, j: bv8)
    requires i < 8 && j < 8
    ensures ((byte | (1 << i)) >> j) & 1 == if i == j then 1 else (byte >> j) & 1
  {
  }

  lemma {:induction false} ClearShifted(byte: bv8, i: bv8, j: bv8)
    requires i < 8 && j < 8
    ensures ((byte & !(1 << i)) >> j) & 1 == if i == j then 0 else (byte >> j) & 1
  {
  }

  // ---- Packed sequences

  /** The bytes that n pixels take. */
  function BytesFor(n: nat): (b: nat)
    ensures n <= 8 * b < n + 8
  {
    (n + 7) / 8
  }

  function Unpack(bytes: seq<bv8>, n: nat): (cells: seq<bool>)
    requires n <= 8 * |bytes|
    ensures |cells| == n
    ensures forall k :: 0 <= k < n ==> cells[k] == Lit(bytes[k / 8], k % 8)
  {
    seq(n, k requires 0 <= k < n => Lit(bytes[k / 8], k % 8))
  }

  function WithBit(byte: bv8, offset: nat, on: bool): bv8
    requires offset < 8
  {
    if on then WithBitSet(byte, offset) else WithBitCleared(byte, offset)
  }

  /** Writing one bit changes one pixel. */
  lemma {:induction false} UnpackWritten(bytes: seq<bv8>, n: nat, i: nat, on: bool)
    requires i < n <= 8 * |bytes|
    ensures Unpack(bytes[i / 8 := WithBit(bytes[i / 8], i % 8, on)], n) == Unpack(bytes, n)[i := on]
  {
    hide WithBit, Lit;
    var after := bytes[i / 8 := WithBit(bytes[i / 8], i % 8, on)];
    forall k | 0 <= k < n
      ensures Lit(after[k / 8], k % 8) == if k == i then on else Lit(bytes[k / 8], k % 8)
    {
      WithBitAt(bytes[i / 8], i % 8, k % 8, on);
    }
  }

  lemma {:induction false} WithBitAt(byte: bv8, i: nat, j: nat, on: bool)
    requires i < 8 && j < 8
    ensures Lit(WithBit(byte, i, on), j) == if i == j then on else Lit(byte, j)
  {
    hide WithBitSet, WithBitCleared, Lit;
    SetBit(byte, i, j);
    ClearBit(byte, i, j);
  }

  lemma {:induction false} UnpackZero(bytes: seq<bv8>, n: nat)
    requires n <= 8 * |bytes| && forall k :: 0 <= k < |bytes| ==> bytes[k] == 0
    ensures Unpack(bytes, n) == seq(n, _ => false)
  {
    forall k | 0 <= k < n
      ensures !Lit(bytes[k / 8], k % 8)
    {
      ZeroIsDark(k % 8);
    }
  }

  lemma {:induction false} ZeroIsDark(i: nat)
    requires i < 8
    ensures !Lit(0, i)
  {
  }
}
