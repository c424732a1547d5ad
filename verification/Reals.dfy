/** Real arithmetic by name, so that proofs can treat a product as one thing. */
module Reals {

  type Positive = x: real | x > 0.0 witness 1.0

  function Times(x: real, y: real): real {
    x * y
  }

  function Square(x: real): (s: real)
    ensures s >= 0.0
  {
    x * x
  }

  function Abs(x: real): real {
    if x < 0.0 then -x else x
  }

  function Power(x: real, n: nat): real {
    if n == 0 then 1.0 else Times(Power(x, n - 1), x)
  }
}
