/** Java's 64-bit `long` and its wrap-around addition. */
module JavaLong {

  const TWO_TO_64: int := 0x1_0000_0000_0000_0000
  const LONG_MIN: int := -0x8000_0000_0000_0000
  const LONG_MAX: int := 0x7FFF_FFFF_FFFF_FFFF

  /** The values of a Java `long`. */
  newtype Long = x: int | -0x8000_0000_0000_0000 <= x <= 0x7FFF_FFFF_FFFF_FFFF

  predicate InLongRange(x: int) {
    LONG_MIN <= x <= LONG_MAX
  }

  /** Narrowing of an exact integer to a `long`: the one `long` congruent to `x` modulo 2^64. */
  function Wrap(x: int): (r: Long)
    ensures (x - r as int) % TWO_TO_64 == 0
    ensures InLongRange(x) ==> r as int == x
  {
    var m := x % TWO_TO_64;
    if m <= LONG_MAX then m as Long else (m - TWO_TO_64) as Long
  }

  /** Java's `a + b` on two `long`s, which wraps around on overflow. */
  function AddLong(a: Long, b: Long): (r: Long)
    ensures InLongRange(a as int + b as int) ==> r as int == a as int + b as int
    ensures (a as int + b as int - r as int) % TWO_TO_64 == 0
    ensures a > 0 && b > 0 && !InLongRange(a as int + b as int) ==> r < 0
  {
    Wrap(a as int + b as int)
  }

  /** Two integers that differ by a multiple of 2^64 narrow to the same `long`. */
  lemma {:induction false} WrapCongruent(x: int, y: int)
    requires (x - y) % TWO_TO_64 == 0
    ensures Wrap(x) == Wrap(y)
  {
    var k := (x - y) / TWO_TO_64;
    assert x == y + k * TWO_TO_64;
    ModShift(y, k);
  }

  /** Shifting by a multiple of 2^64 keeps the remainder. */
  lemma {:induction false} ModShift(y: int, k: int)
    ensures (y + k * TWO_TO_64) % TWO_TO_64 == y % TWO_TO_64
  {
    var q := y / TWO_TO_64;
    assert y == q * TWO_TO_64 + y % TWO_TO_64;
    assert y + k * TWO_TO_64 == (q + k) * TWO_TO_64 + y % TWO_TO_64;
  }

  /** Adding to an already narrowed sum narrows like adding to the exact sum. */
  lemma {:induction false} WrapAdd(x: int, y: int)
    ensures Wrap(Wrap(x) as int + y) == Wrap(x + y)
  {
    var r := Wrap(x) as int;
    var k := (x - r) / TWO_TO_64;
    assert x - r == k * TWO_TO_64;
    assert (r + y) - (x + y) == (-k) * TWO_TO_64;
    ModShift(0, -k);
    WrapCongruent(r + y, x + y);
  }
}
