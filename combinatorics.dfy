/** The exact binomial coefficient that `n_choose_k` computes with big integers. */
module Combinatorics {

  /** C(n, k) by Pascal's rule; zero when k > n. */
  function Binomial(n: nat, k: nat): nat
  {
    if k == 0 then 1
    else if n == 0 then 0
    else Binomial(n - 1, k - 1) + Binomial(n - 1, k)
  }

  function Factorial(n: nat): (f: nat)
    ensures f >= 1
  {
    if n == 0 then 1 else n * Factorial(n - 1)
  }

  lemma {:induction false} BinomialAboveN(n: nat, k: nat)
    requires k > n
    ensures Binomial(n, k) == 0
  {
    if n > 0 {
      BinomialAboveN(n - 1, k - 1);
      BinomialAboveN(n - 1, k);
    }
  }

  lemma {:induction false} BinomialOne(n: nat)
    ensures Binomial(n, 1) == n
  {
    if n > 0 {
      BinomialOne(n - 1);
    }
  }

  /** Absorption: (k + 1) C(n + 1, k + 1) == (n + 1) C(n, k). */
  lemma {:induction false} Absorption(n: nat, k: nat)
    ensures (k + 1) * Binomial(n + 1, k + 1) == (n + 1) * Binomial(n, k)
  {
    if n == 0 {
      if k > 0 {
        BinomialAboveN(1, k + 1);
        BinomialAboveN(0, k);
      }
    } else if k == 0 {
      BinomialOne(n + 1);
    } else {
      // Pascal's rule on both sides, then the induction hypothesis at (n - 1, k - 1) and (n - 1, k).
      Absorption(n - 1, k - 1);
      Absorption(n - 1, k);
      AbsorptionStep(n, k, Binomial(n - 1, k - 1), Binomial(n - 1, k), Binomial(n, k),
        Binomial(n, k + 1), Binomial(n + 1, k + 1));
    }
  }

  /** The arithmetic of Absorption's inductive step, with the coefficients as plain numbers. */
  lemma AbsorptionStep(n: int, k: int, a: int, b: int, c: int, d: int, e: int)
    requires e == c + d && c == a + b
    requires k * c == n * a && (k + 1) * d == n * b
    ensures (k + 1) * e == (n + 1) * c
  {
  }

  /** One step of the multiply-then-divide loop: C(n, i) (n - i) == (i + 1) C(n, i + 1). */
  lemma StepIdentity(n: nat, i: nat)
    requires i <= n
    ensures Binomial(n, i) * (n - i) == (i + 1) * Binomial(n, i + 1)
  {
    if i == n {
      BinomialAboveN(n, n + 1);
    } else if i == 0 {
      BinomialOne(n);
    } else {
      // (i + 1) C(n, i + 1) == n C(n - 1, i) and i C(n, i) == n C(n - 1, i - 1).
      Absorption(n - 1, i);
      Absorption(n - 1, i - 1);
      StepArith(n, i, Binomial(n - 1, i - 1), Binomial(n - 1, i), Binomial(n, i), Binomial(n, i + 1));
    }
  }

  lemma StepArith(n: int, i: int, a: int, b: int, c: int, d: int)
    requires c == a + b && i * c == n * a && (i + 1) * d == n * b
    ensures c * (n - i) == (i + 1) * d
  {
  }

  /** The Pascal definition agrees with the factorial formula n! / (k! (n - k)!). */
  lemma {:induction false} BinomialFactorials(n: nat, k: nat)
    requires k <= n
    ensures Binomial(n, k) * Factorial(k) * Factorial(n - k) == Factorial(n)
  {
    if k > 0 {
      BinomialFactorials(n, k - 1);
      StepIdentity(n, k - 1);
      assert Factorial(n - (k - 1)) == (n - k + 1) * Factorial(n - k);
      FactorialArith(n, k, Binomial(n, k - 1), Binomial(n, k), Factorial(k - 1), Factorial(n - k), Factorial(n));
    }
  }

  lemma FactorialArith(n: int, k: int, c: int, d: int, f: int, g: int, h: int)
    requires c * f * ((n - k + 1) * g) == h
    requires c * (n - k + 1) == k * d
    ensures d * (k * f) * g == h
  {
    calc {
      d * (k * f) * g;
      (k * d) * f * g;
      (c * (n - k + 1)) * f * g;
      c * f * ((n - k + 1) * g);
    }
  }

  /** C(n, 2) == n (n - 1) / 2, the number of unordered pairs of n players. */
  lemma PairsCount(n: nat)
    ensures 2 * Binomial(n, 2) == n * (n - 1)
  {
    if n < 2 {
      BinomialAboveN(n, 2);
    } else {
      StepIdentity(n, 1);
      BinomialOne(n);
    }
  }

  /**
   * `n_choose_k`: res := res * (n - i) / (i + 1) for i in 0..k. After step i the
   * accumulator is C(n, i + 1), so every division is exact. The u64 subtraction n - i
   * underflows once i > n, so callers must keep k <= n + 1 (k == n + 1 gives 0).
   */
  method NChooseK(n: nat, k: nat) returns (res: nat)
    requires k <= n + 1
    ensures res == Binomial(n, k)
  {
    res := 1;
    for i := 0 to k
      invariant res == Binomial(n, i)
    {
      StepIdentity(n, i);
      var product := res * (n - i);
      ExactDivision(i + 1, Binomial(n, i + 1));
      res := product / (i + 1);
    }
  }

  lemma ExactDivision(m: nat, q: nat)
    requires m > 0
    ensures (m * q) / m == q
  {
    var r, t := (m * q) / m, (m * q) % m;
    assert m * q == m * r + t && 0 <= t < m;
    assert m * (q - r) == t;
    if q - r >= 1 {
      assert false;
    } else if q - r <= -1 {
      assert false;
    }
  }
}
