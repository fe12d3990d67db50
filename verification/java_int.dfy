/**
 * Java's 32-bit `int`. Arithmetic on `int` that overflows keeps the low-order
 * 32 bits of the exact result in two's complement (Java Language
 * Specification, sections 15.14.2, 15.17.1 and 15.18.2).
 */
module JavaInt {
  const TwoTo32: int := 0x1_0000_0000
  const MinInt: int := -0x8000_0000
  const MaxInt: int := 0x7fff_ffff

  newtype int32 = x: int | -0x8000_0000 <= x < 0x8000_0000

  predicate InRange(x: int) { MinInt <= x <= MaxInt }

  /** Narrows an exact integer result to Java `int`. */
  function Wrap(x: int): (r: int32)
    ensures (r as int - x) % TwoTo32 == 0
    ensures InRange(x) ==> r as int == x
  {
    var m := (x - MinInt) % TwoTo32;
    assert x - MinInt == TwoTo32 * ((x - MinInt) / TwoTo32) + m;
    (m + MinInt) as int32
  }

  /** Two `int` values that agree modulo 2^32 are equal, so Wrap's result is the only possible one. */
  lemma WrapUnique(x: int, r: int32)
    requires (r as int - x) % TwoTo32 == 0
    ensures r == Wrap(x)
  {
    var w := Wrap(x);
    var d := r as int - w as int;
    assert d % TwoTo32 == 0 by {
      assert (r as int - x) - (w as int - x) == d;
      ModDifference(r as int - x, w as int - x);
    }
    assert -TwoTo32 < d < TwoTo32;
  }

  lemma ModDifference(a: int, b: int)
    requires a % TwoTo32 == 0 && b % TwoTo32 == 0
    ensures (a - b) % TwoTo32 == 0
  {
    var qa, qb := a / TwoTo32, b / TwoTo32;
    assert a == TwoTo32 * qa;
    assert b == TwoTo32 * qb;
    assert a - b == TwoTo32 * (qa - qb);
  }
}
