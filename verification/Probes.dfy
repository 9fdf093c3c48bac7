/** Linear probing: a key's home slot and the slots after it, going round. */
module Probes {

  function Home(key: nat, cap: nat): (h: nat)
    requires cap > 0
    ensures h < cap
  {
    key % cap
  }

  /** The slot d steps after h, going round. */
  function At(cap: nat, h: nat, d: nat): (p: nat)
    requires h < cap && d < cap
    ensures p < cap
  {
    if h + d < cap then h + d else h + d - cap
  }

  /** How many steps after h slot p comes. */
  function Steps(cap: nat, h: nat, p: nat): (d: nat)
    requires h < cap && p < cap
    ensures d < cap && At(cap, h, d) == p
  {
    if p >= h then p - h else p + cap - h
  }

  function Next(cap: nat, i: nat): (n: nat)
    requires i < cap
    ensures n == if i + 1 == cap then 0 else i + 1
  {
    (i + 1) % cap
  }
}
