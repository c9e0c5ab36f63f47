/**
 * Exact fractions as libavutil's AVRational, and the greatest common divisor
 * (av_gcd) that the aspect filter uses to reduce them.
 */
module Rationals {

  /** AVRational: a numerator and a denominator, both C ints. */
  datatype Rational = Rational(num: int, den: int)

  /** FFABS */
  function Abs(x: int): nat {
    if x < 0 then -x else x
  }

  /** av_gcd(a, b): Euclid's algorithm, `b ? av_gcd(b, a % b) : a`. */
  function Gcd(a: nat, b: nat): (r: nat)
    ensures r == 0 <==> a == 0 && b == 0
    ensures b > 0 ==> r <= b
    decreases b
  {
    if b == 0 then a else Gcd(b, a % b)
  }

  /** A product of a positive factor and a factor of at least one is at least the first. */
  lemma MulAtLeast(d: int, y: int)
    requires d >= 1 && y > 0
    ensures d * y >= y
  {
    assert d * y == (d - 1) * y + y;
    assert (d - 1) * y >= 0;
  }

  /** Division with remainder is unique. */
  lemma DivModUnique(x: int, y: int, q: int, r: int)
    requires y > 0 && 0 <= r < y && x == q * y + r
    ensures x / y == q && x % y == r
  {
    var q', r' := x / y, x % y;
    assert q' * y + r' == q * y + r;
    if q' < q {
      assert (q - q') * y == r' - r;
      MulAtLeast(q - q', y);
    } else if q' > q {
      assert (q' - q) * y == r - r';
      MulAtLeast(q' - q, y);
    }
  }

  /** A multiple of g plus a multiple of g is a multiple of g. */
  lemma MultipleSum(a: int, b: int, g: int)
    requires g > 0 && a % g == 0 && b % g == 0
    ensures (a + b) % g == 0
  {
    DivModUnique(a + b, g, a / g + b / g, 0);
  }

  /** A multiple of a multiple of g is a multiple of g. */
  lemma MultipleScaled(a: int, k: int, g: int)
    requires g > 0 && a % g == 0
    ensures (k * a) % g == 0
  {
    assert k * a == (k * (a / g)) * g;
    DivModUnique(k * a, g, k * (a / g), 0);
  }

  /** The greatest common divisor of two numbers, not both zero, is positive and divides both. */
  lemma {:induction false} GcdDividesBoth(a: nat, b: nat)
    requires a > 0 || b > 0
    ensures Gcd(a, b) > 0 && a % Gcd(a, b) == 0 && b % Gcd(a, b) == 0
    decreases b
  {
    if b == 0 {
      assert Gcd(a, b) == a;
    } else {
      var g := Gcd(b, a % b);
      GcdDividesBoth(b, a % b);
      assert a == (a / b) * b + a % b;
      MultipleScaled(b, a / b, g);
      MultipleSum((a / b) * b, a % b, g);
    }
  }

  /** Scaling dividend and divisor by k keeps the quotient and scales the remainder. */
  lemma ScaledDivMod(a: nat, b: nat, k: nat)
    requires b > 0 && k > 0
    ensures (a * k) / (b * k) == a / b && (a * k) % (b * k) == (a % b) * k
  {
    var q, r := a / b, a % b;
    assert a * k == q * (b * k) + r * k by {
      assert a == q * b + r;
      assert (q * b + r) * k == q * (b * k) + r * k;
    }
    assert r * k < b * k by {
      assert b * k - r * k == (b - r) * k;
      MulAtLeast(k, b - r);
    }
    DivModUnique(a * k, b * k, q, r * k);
  }

  /** Scaling both arguments scales the greatest common divisor. */
  lemma {:induction false} GcdScale(a: nat, b: nat, k: nat)
    requires k > 0
    ensures Gcd(a * k, b * k) == Gcd(a, b) * k
    decreases b
  {
    if b != 0 {
      ScaledDivMod(a, b, k);
      GcdScale(b, a % b, k);
    }
  }

  /**
   * Dividing both numbers by their greatest common divisor leaves two
   * coprime numbers, which is what the reduction in the aspect filter relies on.
   */
  lemma GcdReducedCoprime(a: nat, b: nat)
    requires a > 0 || b > 0
    ensures Gcd(a, b) > 0 && a % Gcd(a, b) == 0 && b % Gcd(a, b) == 0
    ensures Gcd(a / Gcd(a, b), b / Gcd(a, b)) == 1
    ensures a > 0 ==> a / Gcd(a, b) > 0
    ensures b > 0 ==> b / Gcd(a, b) > 0
  {
    var g := Gcd(a, b);
    GcdDividesBoth(a, b);
    var a': nat, b': nat := a / g, b / g;
    QuotientTimes(a, g);
    QuotientTimes(b, g);
    GcdScale(a', b', g);
    CancelFactor(Gcd(a', b'), g);
  }

  /** An exact quotient times the divisor gives back the dividend, and is positive when the dividend is. */
  lemma QuotientTimes(a: nat, g: nat)
    requires g > 0 && a % g == 0
    ensures (a / g) * g == a
    ensures a > 0 ==> a / g > 0
  {
    assert a == (a / g) * g + a % g;
  }

  lemma CancelFactor(h: nat, g: int)
    requires g > 0 && h * g == g
    ensures h == 1
  {
  }
}
