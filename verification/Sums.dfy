/** Finite sums over the first n naturals, and the few laws the reports need. */
module Sums {

  ghost function Sum(n: nat, f: nat -> int): int {
    if n == 0 then 0 else Sum(n - 1, f) + f(n - 1)
  }

  lemma {:induction false} SumEq(n: nat, f: nat -> int, g: nat -> int)
    requires forall i: nat | i < n :: f(i) == g(i)
    ensures Sum(n, f) == Sum(n, g)
  {
    if n > 0 {
      SumEq(n - 1, f, g);
    }
  }

  lemma {:induction false} SumZero(n: nat, f: nat -> int)
    requires forall i: nat | i < n :: f(i) == 0
    ensures Sum(n, f) == 0
  {
    if n > 0 {
      SumZero(n - 1, f);
    }
  }

  lemma {:induction false} SumNonNegative(n: nat, f: nat -> int)
    requires forall i: nat | i < n :: f(i) >= 0
    ensures Sum(n, f) >= 0
  {
    if n > 0 {
      SumNonNegative(n - 1, f);
    }
  }

  /** Terms none of which is negative add up to nothing only by being nothing. */
  lemma {:induction false} SumIsZero(n: nat, f: nat -> int)
    requires forall i: nat | i < n :: f(i) >= 0
    ensures Sum(n, f) == 0 <==> forall i: nat | i < n :: f(i) == 0
  {
    if n > 0 {
      SumNonNegative(n - 1, f);
      SumIsZero(n - 1, f);
    }
  }

  lemma {:induction false} SumAtMost(n: nat, f: nat -> int, g: nat -> int)
    requires forall i: nat | i < n :: f(i) <= g(i)
    ensures Sum(n, f) <= Sum(n, g)
  {
    if n > 0 {
      SumAtMost(n - 1, f, g);
    }
  }

  lemma {:induction false} SumLonger(n: nat, m: nat, f: nat -> int)
    requires n <= m && forall i: nat | i < m :: f(i) >= 0
    ensures Sum(n, f) <= Sum(m, f)
  {
    if n < m {
      SumLonger(n, m - 1, f);
    }
  }

  lemma {:induction false} SumPlus(n: nat, f: nat -> int, g: nat -> int, h: nat -> int)
    requires forall i: nat | i < n :: h(i) == f(i) + g(i)
    ensures Sum(n, h) == Sum(n, f) + Sum(n, g)
  {
    if n > 0 {
      SumPlus(n - 1, f, g, h);
    }
  }

  /** Changing one term by d changes the sum by d. */
  lemma {:induction false} SumBump(n: nat, f: nat -> int, g: nat -> int, j: nat, d: int)
    requires j < n
    requires forall i: nat | i < n && i != j :: g(i) == f(i)
    requires g(j) == f(j) + d
    ensures Sum(n, g) == Sum(n, f) + d
  {
    if j == n - 1 {
      SumEq(n - 1, f, g);
    } else {
      SumBump(n - 1, f, g, j, d);
    }
  }

  /** A sum whose terms all vanish but one. */
  lemma SumSingle(n: nat, f: nat -> int, j: nat)
    requires j < n
    requires forall i: nat | i < n && i != j :: f(i) == 0
    ensures Sum(n, f) == f(j)
  {
    var zero := (i: nat) => 0;
    SumZero(n, zero);
    SumBump(n, zero, f, j, f(j));
  }

  /** Rows first or columns first, a double sum is the same. */
  lemma {:induction false} SumSwap(n: nat, m: nat, f: (nat, nat) -> int)
    ensures Sum(n, (i: nat) => Sum(m, (j: nat) => f(i, j))) == Sum(m, (j: nat) => Sum(n, (i: nat) => f(i, j)))
  {
    if n == 0 {
      SumZero(m, (j: nat) => Sum(n, (i: nat) => f(i, j)));
    } else {
      SumSwap(n - 1, m, f);
      assert Sum(n, (i: nat) => Sum(m, (j: nat) => f(i, j)))
             == Sum(n - 1, (i: nat) => Sum(m, (j: nat) => f(i, j))) + Sum(m, (j: nat) => f(n - 1, j));
      SumPlus(m, (j: nat) => Sum(n - 1, (i: nat) => f(i, j)), (j: nat) => f(n - 1, j),
              (j: nat) => Sum(n, (i: nat) => f(i, j)));
    }
  }
}
