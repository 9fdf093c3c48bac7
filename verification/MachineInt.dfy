/** Sixty-four bit signed arithmetic as the program representation uses it. */
module MachineInt {

  const TWO64: int := 0x1_0000_0000_0000_0000
  const I64_MIN: int := -0x8000_0000_0000_0000
  const I64_MAX: int := 0x7FFF_FFFF_FFFF_FFFF

  predicate InI64(x: int) {
    I64_MIN <= x <= I64_MAX
  }

  type i64 = x: int | InI64(x)

  /** Two's complement reduction: the unique i64 congruent to x modulo 2^64. */
  function Wrap(x: int): (r: i64)
    ensures InI64(x) ==> r == x
    ensures (x - r) % TWO64 == 0
  {
    var m := x % TWO64;
    if m > I64_MAX then m - TWO64 else m
  }

  /** The two conditions on Wrap leave no choice. */
  lemma WrapIsUnique(x: int, r: i64, k: int)
    requires x == r + k * TWO64
    ensures Wrap(x) == r
  {
    var q := (x - Wrap(x)) / TWO64;
    assert x - Wrap(x) == q * TWO64;
    var d := q - k;
    assert r - Wrap(x) == d * TWO64;
    assert InI64(r) && InI64(Wrap(x));
    assert -TWO64 < r - Wrap(x) < TWO64;
    assert d == 0;
  }

  /** Wrapping an inner sum first does not change the wrapped outer sum. */
  lemma WrapSum(a: int, b: int)
    ensures Wrap(Wrap(a) + b) == Wrap(a + b)
  {
    var k := (a - Wrap(a)) / TWO64;
    var j := (Wrap(a) + b - Wrap(Wrap(a) + b)) / TWO64;
    assert a + b == Wrap(Wrap(a) + b) + (k + j) * TWO64;
    WrapIsUnique(a + b, Wrap(Wrap(a) + b), k + j);
  }
}
