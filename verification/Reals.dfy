/** Real arithmetic the solver is told explicitly. */
module Reals {
  function Abs(x: real): real { if x < 0.0 then -x else x }

  function Larger(x: real, y: real): real { if x < y then y else x }

  lemma NoZeroDivisors(a: real, b: real)
    ensures a * b == 0.0 ==> a == 0.0 || b == 0.0
  {
  }

  lemma Square(a: real)
    ensures a * a >= 0.0
  {
  }

  lemma Scaled(a: real, b: real, c: real)
    requires a >= 0.0 && b <= c
    ensures a * b <= a * c
  {
  }
}
