/** The fixed-width integer types of the source and the C++ operators on them
    whose meaning differs from Dafny's unbounded, Euclidean arithmetic. */
module Ints {

  const TWO_TO_THE_32: int := 0x1_0000_0000
  const TWO_TO_THE_63: int := 0x8000_0000_0000_0000
  const TWO_TO_THE_64: int := 0x1_0000_0000_0000_0000

  newtype byte = x: int | 0 <= x < 256
  newtype uint32 = x: int | 0 <= x < 0x1_0000_0000
  newtype int64 = x: int | -0x8000_0000_0000_0000 <= x < 0x8000_0000_0000_0000

  predicate InInt64(x: int) { -TWO_TO_THE_63 <= x < TWO_TO_THE_63 }

  /** C++ `/` on signed integers: the quotient is truncated toward zero. */
  function TruncDiv(a: int, b: int): (q: int)
    requires b != 0
    ensures a >= 0 && b > 0 ==> q == a / b
    ensures a < 0 && b > 0 ==> q == -((-a) / b)
  {
    if (a >= 0) == (b > 0) then Abs(a) / Abs(b) else -(Abs(a) / Abs(b))
  }

  function Abs(x: int): (r: nat)
    ensures r == x || r == -x
  {
    if x < 0 then -x else x
  }

  /** Conversion of any integer to a 32-bit unsigned value (C++ modular conversion). */
  function ToUint32(x: int): (r: uint32)
    ensures 0 <= x < TWO_TO_THE_32 ==> r as int == x
  {
    (x % TWO_TO_THE_32) as uint32
  }

  /** A value that fits in 32 bits is unchanged by the conversion. */
  lemma ToUint32Small(x: int)
    requires 0 <= x < TWO_TO_THE_32
    ensures ToUint32(x) as int == x
  {
  }

  /** Conversion of a signed 64-bit value to `size_t`/`uint64_t`. */
  function ToUint64(x: int64): (r: nat)
    ensures r < TWO_TO_THE_64
    ensures x >= 0 ==> r == x as int
    ensures x < 0 ==> r == x as int + TWO_TO_THE_64
  {
    if x < 0 then x as int + TWO_TO_THE_64 else x as int
  }

  /** Conversion of an unsigned 64-bit value back to `int64_t` (two's complement). */
  function ToInt64(x: nat): (r: int64)
    requires x < TWO_TO_THE_64
    ensures x < TWO_TO_THE_63 ==> r as int == x
    ensures x >= TWO_TO_THE_63 ==> r as int == x - TWO_TO_THE_64
  {
    if x < TWO_TO_THE_63 then x as int64 else (x - TWO_TO_THE_64) as int64
  }

  function Max(a: int, b: int): (r: int)
    ensures r >= a && r >= b && (r == a || r == b)
  {
    if a < b then b else a
  }

  /** `x / s` whole elements of size `s` fit in `x` bytes, and one more would not. */
  lemma {:induction false} WholeElements(x: nat, s: nat)
    requires s > 0
    ensures (x / s) * s <= x < (x / s + 1) * s
  {
    assert x == (x / s) * s + x % s;
    assert (x / s + 1) * s == (x / s) * s + s;
  }

  /** Multiplying by a positive whole number does not make a natural number smaller. */
  lemma {:induction false} AtLeastOneFactor(a: nat, b: nat)
    requires b >= 1
    ensures a * b >= a
    decreases b
  {
    if b > 1 {
      AtLeastOneFactor(a, b - 1);
      assert a * b == a * (b - 1) + a;
    }
  }

  /** A quotient of natural numbers by a positive divisor is a natural number. */
  lemma {:induction false} QuotientNonNegative(x: nat, s: nat)
    requires s > 0
    ensures x / s >= 0
  {
    assert x == (x / s) * s + x % s && x % s < s;
  }

  /** A quotient by a positive divisor is no larger than the dividend. */
  lemma {:induction false} QuotientAtMost(x: nat, s: nat)
    requires s > 0
    ensures x / s <= x
  {
    var q := x / s;
    assert q * s <= x by { WholeElements(x, s); }
    assert q <= q * s by { AtLeastOneFactor(q, s); }
  }
}
