// The native GCD benchmark: Euclid's algorithm by repeated subtraction on
// two uint32_t locals, the twin of the bytecode GCD program.

module Ggt {
  import opened Base

  /** `d` is a positive divisor of `n`. */
  predicate Divides(d: nat, n: nat)
  {
    d > 0 && n % d == 0
  }

  /** `g` is the greatest common divisor of `a` and `b`: it divides both, and
    * every common divisor divides it. (gcd(0, 0) is 0.) */
  ghost predicate IsGcd(g: nat, a: nat, b: nat)
  {
    (g == 0 <==> a == 0 && b == 0)
    && (g > 0 ==> Divides(g, a) && Divides(g, b)
                  && forall d: nat :: Divides(d, a) && Divides(d, b) ==> Divides(d, g))
  }

  /** A product with a positive factor is at least as large as the other
    * factor when both are positive, and negative when the other is. */
  lemma ProductSign(d: nat, m: int)
    requires d > 0
    ensures m > 0 ==> d * m >= d
    ensures m < 0 ==> d * m < 0
  {
  }

  /** A multiple of `d` is divisible by `d`. */
  lemma MultipleDivides(d: nat, k: nat)
    requires d > 0
    ensures Divides(d, d * k)
  {
    var n := d * k;
    var q, r := n / d, n % d;
    var m := k - q;
    assert d * m == r by {
      assert n == d * q + r;
      assert d * m == d * k - d * q;
    }
    ProductSign(d, m);
  }

  /** Subtracting one value from the other keeps the common divisors. */
  lemma SubtractKeepsDivisors(d: nat, a: nat, b: nat)
    requires b <= a
    ensures Divides(d, a) && Divides(d, b) <==> Divides(d, a - b) && Divides(d, b)
  {
    if d > 0 && b % d == 0 {
      var q := b / d;
      assert b == d * q;
      if a % d == 0 {
        var p := a / d;
        assert a == d * p;
        assert p >= q;
        assert a - b == d * (p - q);
        MultipleDivides(d, p - q);
      }
      if (a - b) % d == 0 {
        var r := (a - b) / d;
        assert a - b == d * r;
        assert a == d * (r + q);
        MultipleDivides(d, r + q);
      }
    }
  }

  /** The loop of main: if a is 0 the answer is b; otherwise the smaller value
    * is subtracted from the larger until b reaches 0, and a is the answer. */
  method Ggt(a0: u32, b0: u32) returns (a: u32)
    ensures a0 == 0 ==> a == b0
    ensures IsGcd(a, a0, b0)
  {
    a := a0;
    var b: u32 := b0;
    if a == 0 {
      a := b;
      return;
    }
    while b != 0
      invariant a > 0
      invariant forall d: nat :: Divides(d, a) && Divides(d, b) <==> Divides(d, a0) && Divides(d, b0)
      decreases a + b
    {
      if a > b {
        forall d: nat {
          SubtractKeepsDivisors(d, a, b);
        }
        a := a - b;
      } else {
        forall d: nat {
          SubtractKeepsDivisors(d, b, a);
        }
        b := b - a;
      }
    }
    assert Divides(a, a) && Divides(a, 0);
  }

  /** The hard-coded operands are the Fibonacci numbers F(46) and F(45); by
    * Cassini's identity F(45)^2 - F(44) * F(46) == 1, so no divisor other
    * than 1 divides both. */
  lemma FibonacciCoprime(d: nat)
    requires Divides(d, 1836311903) && Divides(d, 1134903170)
    ensures d == 1
  {
    var p, q := 1836311903 / d, 1134903170 / d;
    assert 1836311903 == d * p && 1134903170 == d * q;
    assert 1134903170 * 1134903170 - 701408733 * 1836311903 == 1;
    var k := 1134903170 * q - 701408733 * p;
    assert d * k == 1;
    assert k >= 1;
  }

  /** The run of main: the answer for the built-in operands is 1, the same
    * as the bytecode GCD program on the same inputs. */
  method Demo() returns (a: u32)
    ensures a == 1
  {
    a := Ggt(1836311903, 1134903170);
    FibonacciCoprime(a);
  }
}
