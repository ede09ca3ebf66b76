/** Real-number helpers used by the projection engine: integer powers
    (Math.pow with an integer exponent) and the maximum of two integers. */
module Numeric {

  /** x raised to a natural exponent. */
  function Pow(x: real, n: nat): real
    decreases n
  {
    if n == 0 then 1.0 else x * Pow(x, n - 1)
  }

  lemma {:induction false} PowPositive(x: real, n: nat)
    requires x > 0.0
    ensures Pow(x, n) > 0.0
    decreases n
  {
    if n > 0 {
      PowPositive(x, n - 1);
    }
  }

  lemma {:induction false} PowOfOne(n: nat)
    ensures Pow(1.0, n) == 1.0
    decreases n
  {
    if n > 0 {
      PowOfOne(n - 1);
    }
  }

  lemma {:induction false} PowStep(x: real, n: nat)
    ensures Pow(x, n + 1) == x * Pow(x, n)
  {
  }

  lemma {:induction false} PowAdd(x: real, a: nat, b: nat)
    ensures Pow(x, a + b) == Pow(x, a) * Pow(x, b)
    decreases b
  {
    if b > 0 {
      PowAdd(x, a, b - 1);
      calc {
        Pow(x, a + b);
        x * Pow(x, a + b - 1);
        x * (Pow(x, a) * Pow(x, b - 1));
        Pow(x, a) * (x * Pow(x, b - 1));
        Pow(x, a) * Pow(x, b);
      }
    }
  }

  lemma {:induction false} MulPositive(a: real, b: real)
    requires a > 0.0 && b > 0.0
    ensures a * b > 0.0
  {
  }

  lemma {:induction false} PowNonZero(x: real, n: nat)
    requires x != 0.0
    ensures Pow(x, n) != 0.0
    decreases n
  {
    if n > 0 {
      PowNonZero(x, n - 1);
    }
  }

  /** Math.pow with an integer exponent that may be negative: x^-n is 1 / x^n,
      which exists for every non-zero base. */
  function PowInt(x: real, n: int): (r: real)
    requires x != 0.0
    ensures r != 0.0
    ensures x > 0.0 ==> r > 0.0
    ensures n >= 0 ==> r == Pow(x, n)
    ensures n < 0 ==> r * Pow(x, -n) == 1.0
  {
    var k: nat := if n >= 0 then n else -n;
    PowNonZero(x, k);
    var p := if x > 0.0 then PowPositive(x, k); Pow(x, k) else Pow(x, k);
    if n >= 0 then p else 1.0 / p
  }

  function Max(a: int, b: int): (m: int)
    ensures m >= a && m >= b && (m == a || m == b)
  {
    if a >= b then a else b
  }
}
