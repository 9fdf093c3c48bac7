/** Division facts the solver does not find alone. */
module Arith {

  lemma NoMultiple(k: int, cap: nat)
    requires 0 - cap < k * cap < cap
    ensures k == 0
  {
  }

  lemma Split(x: int, cap: nat)
    requires cap > 0
    ensures x == (x / cap) * cap + x % cap && 0 <= x % cap < cap
  {
  }

  lemma Remainder(x: int, cap: nat, q: int, r: nat)
    requires r < cap && x == q * cap + r
    ensures x % cap == r
  {
    Split(x, cap);
    var d := x / cap;
    assert (d - q) * cap == d * cap - q * cap;
    NoMultiple(d - q, cap);
  }

  /** Numbers less than cap apart have different remainders. */
  lemma Apart(cap: nat, i: int, j: int)
    requires i < j < i + cap
    ensures i % cap != j % cap
  {
    Split(i, cap);
    var q, r, d := i / cap, i % cap, j - i;
    assert (q + 1) * cap == q * cap + cap;
    if r + d < cap {
      Remainder(j, cap, q, r + d);
    } else {
      Remainder(j, cap, q + 1, r + d - cap);
    }
  }

  /** Reducing a summand first does not change a reduced sum. */
  lemma ModAdd(x: nat, d: nat, width: nat)
    requires width > 0
    ensures (x % width + d) % width == (x + d) % width
  {
    Split(x, width);
    Split(x % width + d, width);
    var q, p := x / width, (x % width + d) / width;
    assert (q + p) * width == q * width + p * width;
    Remainder(x + d, width, q + p, (x % width + d) % width);
  }

  /** The block a position falls into. */
  lemma Quotient(x: int, cap: nat, q: int)
    requires cap > 0 && q * cap <= x < q * cap + cap
    ensures x / cap == q
  {
    Split(x, cap);
    var r := x - q * cap;
    Remainder(x, cap, q, r);
    assert (x / cap - q) * cap == (x / cap) * cap - q * cap;
    NoMultiple(x / cap - q, cap);
  }
}
