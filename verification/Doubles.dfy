/** Double-precision arithmetic on non-negative numbers, as far as prices need it: what
    rounding does to integers, and the quotient of two of them. */
module Doubles {

  /** Integers up to here are doubles; above, not all are. */
  const TWO53 := 0x20_0000_0000_0000
  const MAX_SAFE_INTEGER := TWO53 - 1

  /** Rounding to doubles keeps order, and moves no integer that is one. */
  ghost predicate IsRounding(round: nat -> nat) {
    && (forall n: nat | n <= TWO53 :: round(n) == n)
    && (forall a: nat, b: nat | a <= b :: round(a) <= round(b))
  }

  function Times(a: nat, b: nat): nat {
    a * b
  }

  lemma ProductAtLeast(a: nat, b: nat)
    requires a > 0
    ensures b <= a * b && b <= b * a
  {}

  lemma RoundedAtLeast(round: nat -> nat, a: nat, b: nat)
    requires IsRounding(round) && b <= a && b <= TWO53
    ensures round(a) >= b
  {
    assert round(b) == b;
  }

  lemma RoundedProduct(round: nat -> nat, a: nat, b: nat)
    requires IsRounding(round) && b > 0
    ensures var p := round(Times(round(a), round(b))); if Times(a, b) <= TWO53 then p == Times(a, b) else p >= TWO53
  {
    if a == 0 {
      assert Times(round(a), round(b)) == 0;
    } else if a <= TWO53 && b <= TWO53 {
      assert Times(round(a), round(b)) == Times(a, b);
      RoundedAtLeast(round, Times(a, b), if Times(a, b) <= TWO53 then 0 else TWO53);
    } else {
      BeyondBound(a, b);
      RoundedAtLeast(round, a, if a <= TWO53 then 1 else TWO53);
      RoundedAtLeast(round, b, if b <= TWO53 then 1 else TWO53);
      LargeProduct(round(a), round(b));
      RoundedAtLeast(round, Times(round(a), round(b)), TWO53);
    }
  }

  lemma BeyondBound(a: nat, b: nat)
    requires a >= 1 && b >= 1 && (a > TWO53 || b > TWO53)
    ensures Times(a, b) > TWO53
  {
    ProductAtLeast(a, b);
    ProductAtLeast(b, a);
  }

  lemma LargeProduct(a: nat, b: nat)
    requires a >= 1 && b >= 1 && (a >= TWO53 || b >= TWO53)
    ensures Times(a, b) >= TWO53
  {
    ProductAtLeast(a, b);
    ProductAtLeast(b, a);
  }

  /** A product and a sum, each operand and each result rounded, are exact when the true
      result is a safe integer, and visibly unsafe otherwise. */
  lemma RoundedProductSum(round: nat -> nat, a: nat, b: nat, c: nat)
    requires IsRounding(round) && b > 0
    ensures var computed, exact := round(round(Times(round(a), round(b))) + round(c)), Times(a, b) + c;
            if exact <= TWO53 then computed == exact else computed >= TWO53
  {
    RoundedProduct(round, a, b);
    RoundedSum(round, round(Times(round(a), round(b))), Times(a, b), c);
  }

  lemma RoundedSum(round: nat -> nat, p: nat, product: nat, c: nat)
    requires IsRounding(round) && if product <= TWO53 then p == product else p >= TWO53
    ensures var computed, exact := round(p + round(c)), product + c;
            if exact <= TWO53 then computed == exact else computed >= TWO53
  {
    if product + c > TWO53 {
      RoundedAtLeast(round, c, if c <= TWO53 then c else TWO53);
      RoundedAtLeast(round, p + round(c), TWO53);
    }
  }

  ghost function Pow2(e: nat): (p: nat)
    ensures p > 0
  {
    if e == 0 then 1 else 2 * Pow2(e - 1)
  }

  ghost predicate Scaled(x: real, m: nat, e: nat) {
    x * Pow2(e) as real == m as real
  }

  /** X is m / 2^e with a 53-bit m. Exponents are not bounded: no price comes near. */
  ghost predicate Representable(x: real) {
    exists m: nat, e: nat :: m <= TWO53 && Scaled(x, m, e)
  }

  ghost function Abs(x: real): real {
    if x < 0.0 then -x else x
  }

  /** How far q is from n / d, times d. */
  ghost function Miss(n: nat, d: nat, q: real): real {
    Abs(q * d as real - n as real)
  }

  /** Q is what dividing n by d gives: no double is nearer to the true quotient. */
  ghost predicate IsQuotient(n: nat, d: nat, q: real) {
    Representable(q) && forall x | Representable(x) :: Miss(n, d, q) <= Miss(n, d, x)
  }

  /** The exponent that gives the quotient its 53 bits. */
  lemma Exponent(n: nat, d: nat, e: nat) returns (f: nat)
    requires n > 0 && d > 0 && n * Pow2(e) < TWO53 * d
    ensures TWO53 * d <= 2 * (n * Pow2(f)) && n * Pow2(f) < TWO53 * d
    decreases TWO53 * d - n * Pow2(e)
  {
    if TWO53 * d <= 2 * (n * Pow2(e)) {
      f := e;
    } else {
      Doubled(n, e);
      f := Exponent(n, d, e + 1);
    }
  }

  lemma Doubled(n: nat, e: nat)
    requires n > 0
    ensures n * Pow2(e + 1) == 2 * (n * Pow2(e)) && n * Pow2(e) > 0
  {
    ProductAtLeast(n, Pow2(e));
  }

  /** The integer nearest to n / d. */
  lemma NearestInteger(n: nat, d: nat) returns (m: nat)
    requires d > 0
    ensures 2 * n - d <= 2 * (m * d) <= 2 * n + d
  {
    var k := n / d;
    assert n == k * d + n % d && 0 <= n % d < d;
    m := if 2 * (n % d) <= d then k else k + 1;
    assert (k + 1) * d == k * d + d;
  }

  lemma AtMost(m: nat, d: nat, n: nat)
    requires d > 0 && 2 * (m * d) <= 2 * n + d && n < TWO53 * d
    ensures m <= TWO53
  {
    assert (TWO53 + 1) * d == TWO53 * d + d;
    CancelNat(m, TWO53 + 1, d);
  }

  lemma CancelNat(a: nat, b: nat, c: nat)
    requires a * c < b * c
    ensures a < b
  {
    if a >= b {
      ProductGrows(b, a, c);
    }
  }

  lemma ProductGrows(a: nat, b: nat, c: nat)
    requires a <= b
    ensures a * c <= b * c
  {}

  /** Some double misses the quotient by no more than half a unit in its last place. */
  lemma NearDouble(n: nat, d: nat) returns (x: real)
    requires 0 < n <= MAX_SAFE_INTEGER && d > 0
    ensures Representable(x) && Miss(n, d, x) * TWO53 as real <= n as real
  {
    assert n * Pow2(0) < TWO53 * d by {
      ProductAtLeast(d, TWO53);
    }
    var e := Exponent(n, d, 0);
    var p := Pow2(e);
    var m := NearestInteger(n * p, d);
    AtMost(m, d, n * p);
    x := m as real / p as real;
    Quotient(m, p);
    assert Scaled(x, m, e);
    HalfUnit(n, d, p, m, x);
  }

  lemma Quotient(m: nat, p: nat)
    requires p > 0
    ensures m as real / p as real * p as real == m as real
  {}

  lemma HalfUnit(n: nat, d: nat, p: nat, m: nat, x: real)
    requires p > 0 && x * p as real == m as real
    requires 2 * (n * p) - d <= 2 * (m * d) <= 2 * (n * p) + d && TWO53 * d <= 2 * (n * p)
    ensures Miss(n, d, x) * TWO53 as real <= n as real
  {
    var miss := x * d as real - n as real;
    var off := m * d - n * p;
    assert miss * p as real == off as real by {
      RealProduct(m, d);
      RealProduct(n, p);
      Distribute(x, d as real, n as real, p as real);
    }
    assert -(n * p) <= off * TWO53 <= n * p by {
      assert -(2 * (n * p)) <= -(TWO53 * d) <= 2 * off * TWO53 <= TWO53 * d <= 2 * (n * p);
    }
    RealProduct(n, p);
    Shrink(miss, p as real, off as real, n as real);
  }

  lemma RealProduct(a: nat, b: nat)
    ensures (a * b) as real == a as real * b as real
  {}

  lemma Distribute(x: real, d: real, n: real, p: real)
    ensures (x * d - n) * p == (x * p) * d - n * p
  {}

  lemma Shrink(miss: real, p: real, off: real, n: real)
    requires p > 0.0 && miss * p == off
    requires -(n * p) <= off * TWO53 as real <= n * p
    ensures Abs(miss) * TWO53 as real <= n
  {
    var t := miss * TWO53 as real;
    assert t * p == off * TWO53 as real by {
      assert t * p == (miss * p) * TWO53 as real;
    }
    if t > n {
      Scale(n, t, p);
    }
    if t < -n {
      Scale(t, -n, p);
      assert -n * p == -(n * p);
    }
  }

  lemma Scale(a: real, b: real, p: real)
    requires p > 0.0 && a < b
    ensures a * p < b * p
  {}

  lemma Cancel(a: real, b: real, s: real)
    requires s > 0.0 && a * s < b * s
    ensures a < b
  {}

  lemma WholeIsRepresentable(k: nat)
    requires k <= TWO53
    ensures Representable(k as real)
  {
    assert Scaled(k as real, k, 0);
  }

  /** For every safe integer the floor of the computed quotient is the true one. */
  lemma FlooredQuotient(n: nat, d: nat, q: real)
    requires d > 0 && n <= MAX_SAFE_INTEGER && IsQuotient(n, d, q)
    ensures q.Floor == n / d
  {
    var k := n / d;
    DivisionParts(n, d);
    if n == k * d {
      Divisible(n, d, k, q);
    } else {
      Indivisible(n, d, k, q);
    }
  }

  lemma DivisionParts(n: nat, d: nat)
    requires d > 0
    ensures n / d * d <= n && n + 1 <= (n / d + 1) * d
  {
    assert n == n / d * d + n % d;
    assert (n / d + 1) * d == n / d * d + d;
  }

  lemma Indivisible(n: nat, d: nat, k: nat, q: real)
    requires d > 0 && n <= MAX_SAFE_INTEGER && IsQuotient(n, d, q)
    requires k * d + 1 <= n && n + 1 <= (k + 1) * d
    ensures k as real < q < (k + 1) as real
  {
    ProductAtLeast(d, k);
    var x := NearDouble(n, d);
    SmallMiss(Miss(n, d, q), Miss(n, d, x), n);
    Between(n, d, k, q);
  }

  lemma Divisible(n: nat, d: nat, k: nat, q: real)
    requires d > 0 && n <= MAX_SAFE_INTEGER && n == k * d && IsQuotient(n, d, q)
    ensures q == k as real
  {
    ProductAtLeast(d, k);
    WholeIsRepresentable(k);
    RealProduct(k, d);
    assert Miss(n, d, k as real) == 0.0;
    assert Miss(n, d, q) <= Miss(n, d, k as real);
    if q < k as real {
      Scale(q, k as real, d as real);
    } else if q > k as real {
      Scale(k as real, q, d as real);
    }
  }

  lemma SmallMiss(a: real, b: real, n: nat)
    requires a <= b && b * TWO53 as real <= n as real && n <= MAX_SAFE_INTEGER
    ensures a < 1.0
  {}

  lemma Between(n: nat, d: nat, k: nat, q: real)
    requires d > 0 && k * d + 1 <= n && n + 1 <= (k + 1) * d
    requires Miss(n, d, q) < 1.0
    ensures k as real < q < (k + 1) as real
  {
    var low, high := k * d, (k + 1) * d;
    RealProduct(k, d);
    RealProduct(k + 1, d);
    Straddles(n, q * d as real, low, high);
    CancelBoth(k as real, q, (k + 1) as real, d as real, low as real, high as real);
  }

  lemma CancelBoth(a: real, b: real, c: real, s: real, low: real, high: real)
    requires s > 0.0 && low == a * s && high == c * s && low < b * s < high
    ensures a < b < c
  {
    Cancel(a, b, s);
    Cancel(b, c, s);
  }

  lemma Straddles(n: nat, x: real, low: nat, high: nat)
    requires low + 1 <= n && n + 1 <= high && Abs(x - n as real) < 1.0
    ensures low as real < x < high as real
  {}
}
