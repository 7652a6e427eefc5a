/** Arithmetic on reals shared by the components.

    The product of two factors has a name so that a fact about its sign can be stated once and used
    for squares. */
module Scalars {
  function Max(a: real, b: real): real { if a < b then b else a }
  function Min(a: real, b: real): real { if b < a then b else a }
  function Abs(x: real): real { if x < 0.0 then -x else x }

  function Clamp(x: real, lo: real, hi: real): real {
    if x < lo then lo else if hi < x then hi else x
  }

  function Mult(x: real, y: real): real { x * y }

  function Square(x: real): real { Mult(x, x) }

  lemma MultSign(x: real, y: real)
    ensures Mult(x, y) == x * y
    ensures (x > 0.0 && y > 0.0) || (x < 0.0 && y < 0.0) ==> Mult(x, y) > 0.0
    ensures x == 0.0 || y == 0.0 ==> Mult(x, y) == 0.0
    ensures (x > 0.0 && y < 0.0) || (x < 0.0 && y > 0.0) ==> Mult(x, y) < 0.0
  {
  }

  lemma SquareSign(x: real)
    ensures Square(x) >= 0.0 && (x != 0.0 <==> Square(x) > 0.0)
  {
    hide Mult;
    MultSign(x, x);
  }

  lemma CancelFactor(u: real, v: real, n: real)
    requires n != 0.0 && u * n == v * n
    ensures u == v
  {
    assert (u - v) * n == 0.0;
  }

  lemma Dominates(x: real, y: real)
    requires x >= 1.0 && y >= 0.0
    ensures x * y >= y
  {
    assert (x - 1.0) * y >= 0.0;
  }
}
