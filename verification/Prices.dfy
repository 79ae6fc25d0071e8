/** Prices on the tick grid.

The engine stores a price as a whole number of ticks and builds one from a float by scaling with
10^precision and rounding to the nearest whole number, ties away from zero. Every real number here
counts ticks, so that scaling is the identity. */
module Prices {

  function Abs(x: real): real {
    if x < 0.0 then -x else x
  }

  /** The whole number of ticks nearest to `x` ticks, ties away from zero. */
  function Round(x: real): (n: int)
    ensures Abs(n as real - x) <= 0.5
    ensures Abs(n as real - x) == 0.5 ==> Abs(n as real) > Abs(x)
  {
    if x >= 0.0 then (x + 0.5).Floor else -((0.5 - x).Floor)
  }

  lemma {:induction false} RoundMonotone(x: real, y: real)
    requires x <= y
    ensures Round(x) <= Round(y)
  {
  }

  lemma {:induction false} RoundOnGrid(n: int)
    ensures Round(n as real) == n
  {
  }
}
