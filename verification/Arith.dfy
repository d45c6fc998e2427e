/** Facts about products that the solver does not find by itself. */
module Arith {
  function Abs(x: int): nat { if x < 0 then -x else x }

  lemma {:induction false} MulStep(a: int, n: int)
    ensures a * n == a * (n - 1) + a
  {
  }

  lemma {:induction false} MulNat(a: nat, b: nat)
    ensures a * b >= 0
  {
  }

  lemma {:induction false} Distribute(a: int, x: int, y: int)
    ensures a * (x + y) == a * x + a * y
    ensures a * (x - y) == a * x - a * y
  {
  }

  lemma {:induction false} Swap(a: int, b: int, c: int)
    ensures a * (b * c) == b * (a * c)
  {
  }

  lemma {:induction false} Assoc(a: int, b: int, c: int)
    ensures a * (b * c) == (a * b) * c == c * (a * b)
  {
  }

  lemma {:induction false} NegMul(a: int, b: int)
    ensures -a * b == -(a * b) && a * -b == -(a * b)
  {
  }

  /** Multiplying by d spreads integers at least d apart. */
  lemma {:induction false} MulOrder(d: nat, a: int, b: int)
    ensures a < b ==> d * a + d <= d * b
    ensures a <= b ==> d * a <= d * b
  {
    Distribute(d, b, a);
    if a < b {
      MulNat(d, b - a - 1);
      MulStep(d, b - a);
    }
  }

  lemma {:induction false} AbsMul(a: int, b: int)
    ensures Abs(a * b) == Abs(a) * Abs(b)
  {
    NegMul(a, b);
  }
}
