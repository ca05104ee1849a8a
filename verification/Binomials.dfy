/** Binomial coefficients and the exact binomial distribution, over the reals. */
module Binomials {
  /******* Coefficients *******/

  function Comb(n: nat, k: nat): nat {
    if k == 0 then 1
    else if n == 0 then 0
    else Comb(n - 1, k - 1) + Comb(n - 1, k)
  }

  function Factorial(n: nat): (f: nat)
    ensures f >= 1
  {
    if n == 0 then 1 else n * Factorial(n - 1)
  }

  lemma {:induction false} CombAbove(n: nat, k: nat)
    requires k > n
    ensures Comb(n, k) == 0
  {
    if n == 0 {
    } else {
      CombAbove(n - 1, k - 1);
      CombAbove(n - 1, k);
    }
  }

  lemma {:induction false} CombDiagonal(n: nat)
    ensures Comb(n, n) == 1
  {
    if n == 0 {
    } else {
      CombDiagonal(n - 1);
      CombAbove(n - 1, n);
    }
  }

  lemma {:induction false} CombPositive(n: nat, k: nat)
    requires k <= n
    ensures Comb(n, k) >= 1
  {
    if k == n {
      CombDiagonal(n);
    } else if k > 0 {
      CombPositive(n - 1, k - 1);
    }
  }

  /** The two summands of Pascal's rule contribute k and r parts of (k + r) f. */
  lemma FactorialStep(a: int, b: int, k: int, r: int, fk: int, fr: int, f: int)
    requires a * fk * (r * fr) == f && b * (k * fk) * fr == f
    ensures (a + b) * (k * fk) * (r * fr) == (k + r) * f
  {
    calc {
      (a + b) * (k * fk) * (r * fr);
      ==
      k * (a * fk * (r * fr)) + b * (k * fk) * (r * fr);
      ==
      k * f + r * (b * (k * fk) * fr);
      ==
      k * f + r * f;
    }
  }

  /** The recurrence computes n! / (k! (n-k)!). */
  lemma {:induction false} CombFactorial(n: nat, k: nat)
    requires k <= n
    ensures Comb(n, k) * Factorial(k) * Factorial(n - k) == Factorial(n)
  {
    if k == n {
      CombDiagonal(n);
    } else if k > 0 {
      CombFactorial(n - 1, k - 1);
      CombFactorial(n - 1, k);
      FactorialStep(Comb(n - 1, k - 1), Comb(n - 1, k), k, n - k, Factorial(k - 1), Factorial(n - k - 1),
        Factorial(n - 1));
    }
  }

  /******* Vandermonde *******/

  /** The sum of C(a, k) C(b, m-k) over all k below `j`. */
  function Convolution(a: nat, b: nat, m: nat, j: nat): nat
    requires j <= m + 1
  {
    if j == 0 then 0 else Convolution(a, b, m, j - 1) + Comb(a, j - 1) * Comb(b, m - (j - 1))
  }

  lemma FirstCoefficient(a: nat)
    ensures Comb(a, 0) == 1
  {
  }

  lemma PascalTimes(a: nat, k: nat, c: int)
    requires k >= 1
    ensures Comb(a + 1, k) * c == Comb(a, k - 1) * c + Comb(a, k) * c
  {
    assert Comb(a + 1, k) == Comb(a, k - 1) + Comb(a, k);
  }

  lemma {:induction false} ConvolutionPascal(a: nat, b: nat, m: nat, j: nat)
    requires 1 <= j <= m + 1
    ensures Convolution(a + 1, b, m, j) ==
            Convolution(a, b, m, j) + if m == 0 then 0 else Convolution(a, b, m - 1, j - 1)
  {
    hide Comb;
    if j > 1 {
      ConvolutionPascal(a, b, m, j - 1);
      PascalTimes(a, j - 1, Comb(b, m - (j - 1)));
    } else {
      assert Convolution(a, b, m, 0) == 0 && Convolution(a + 1, b, m, 0) == 0;
      FirstCoefficient(a);
      FirstCoefficient(a + 1);
    }
  }

  lemma {:induction false} ConvolutionOfNothing(b: nat, m: nat, j: nat)
    requires 1 <= j <= m + 1
    ensures Convolution(0, b, m, j) == Comb(b, m)
  {
    if j > 1 {
      ConvolutionOfNothing(b, m, j - 1);
      CombAbove(0, j - 1);
    } else {
      assert Convolution(0, b, m, 0) == 0;
    }
  }

  /** Choosing m out of a + b is choosing some of the first a and the others from the b. */
  lemma {:induction false} Vandermonde(a: nat, b: nat, m: nat)
    ensures Convolution(a, b, m, m + 1) == Comb(a + b, m)
    decreases a
  {
    if a == 0 {
      ConvolutionOfNothing(b, m, m + 1);
    } else {
      ConvolutionPascal(a - 1, b, m, m + 1);
      Vandermonde(a - 1, b, m);
      if m == 0 {
      } else {
        Vandermonde(a - 1, b, m - 1);
      }
    }
  }

  lemma {:induction false} ConvolutionMonotone(a: nat, b: nat, m: nat, i: nat, j: nat)
    requires i <= j <= m + 1
    ensures Convolution(a, b, m, i) <= Convolution(a, b, m, j)
    decreases j
  {
    if i < j {
      ConvolutionMonotone(a, b, m, i, j - 1);
    }
  }

  /******* The binomial distribution *******/

  function Pow(x: real, k: nat): real {
    if k == 0 then 1.0 else x * Pow(x, k - 1)
  }

  lemma {:induction false} PowNonNegative(x: real, k: nat)
    requires x >= 0.0
    ensures Pow(x, k) >= 0.0
  {
    if k == 0 {
    } else {
      PowNonNegative(x, k - 1);
    }
  }

  predicate IsRate(p: real) {
    0.0 <= p <= 1.0
  }

  function Triple(x: real, y: real, z: real): real {
    x * y * z
  }

  /** The probability of exactly `i` successes in `n` trials. */
  function Term(n: nat, i: nat, p: real): real {
    if i > n then 0.0 else Triple(Comb(n, i) as real, Pow(p, i), Pow(1.0 - p, n - i))
  }

  /** The probability of fewer than `m` successes in `n` trials. */
  function Below(m: nat, n: nat, p: real): real {
    if m == 0 then 0.0 else Below(m - 1, n, p) + Term(n, m - 1, p)
  }

  lemma ProductNonNegative(x: real, y: real)
    requires x >= 0.0 && y >= 0.0
    ensures x * y >= 0.0
  {
  }

  lemma TermNonNegative(n: nat, i: nat, p: real)
    requires IsRate(p)
    ensures Term(n, i, p) >= 0.0
  {
    if i <= n {
      PowNonNegative(p, i);
      PowNonNegative(1.0 - p, n - i);
      ProductNonNegative(Comb(n, i) as real, Pow(p, i));
      ProductNonNegative(Comb(n, i) as real * Pow(p, i), Pow(1.0 - p, n - i));
      hide Pow, Comb;
    }
  }

  /** Moving one factor of a product of three into a power. */
  lemma FactorsMove(c: real, x: real, y: real, z: real)
    ensures x * Triple(c, y, z) == Triple(c, x * y, z)
    ensures z * Triple(c, x, y) == Triple(c, x, z * y)
  {
    assert x * (c * y * z) == (x * (c * y)) * z;
    assert x * (c * y) == c * (x * y);
    assert z * (c * x * y) == (c * x) * (z * y);
  }

  lemma Distribute(a: real, b: real, y: real, z: real)
    ensures Triple(a + b, y, z) == Triple(a, y, z) + Triple(b, y, z)
  {
    assert (a + b) * y == a * y + b * y;
    assert (a * y + b * y) * z == a * y * z + b * y * z;
  }

  lemma UnitTriple(x: real)
    ensures Triple(1.0, 1.0, x) == x && Triple(1.0, x, 1.0) == x
  {
  }

  lemma PowStep(x: real, k: nat)
    ensures Pow(x, 0) == 1.0 && Pow(x, k + 1) == x * Pow(x, k)
  {
  }

  /** No success at all. */
  lemma FirstTerm(n: nat, p: real)
    ensures Term(n, 0, p) == Pow(1.0 - p, n)
  {
    hide Triple, Pow;
    PowStep(p, 0);
    UnitTriple(Pow(1.0 - p, n));
  }

  lemma LastTerm(n: nat, p: real)
    ensures Term(n, n, p) == Pow(p, n)
  {
    hide Triple, Pow;
    CombDiagonal(n);
    PowStep(1.0 - p, 0);
    UnitTriple(Pow(p, n));
  }

  /** The mean of two numbers, with weights `p` and one minus `p`. */
  function Mix(p: real, u: real, v: real): real {
    p * u + (1.0 - p) * v
  }

  lemma MiddleMix(a: real, b: real, c: real, p: real, x: real, y: real, q: real, z: real, w: real)
    requires c == a + b && y == p * x && w == q * z
    ensures q == 1.0 - p ==> Triple(c, y, w) == Mix(p, Triple(a, x, w), Triple(b, y, z))
  {
    hide Triple;
    FactorsMove(a, p, x, w);
    FactorsMove(b, y, z, q);
    Distribute(a, b, y, w);
  }

  lemma PascalAsReal(n: nat, i: nat)
    requires 0 < i
    ensures Comb(n + 1, i) as real == Comb(n, i - 1) as real + Comb(n, i) as real
  {
  }

  lemma MiddleTerm(n: nat, i: nat, p: real)
    requires 0 < i <= n
    ensures Term(n + 1, i, p) == Mix(p, Term(n, i - 1, p), Term(n, i, p))
  {
    hide Triple, Pow, Comb, Mix;
    var q := 1.0 - p;
    PascalAsReal(n, i);
    PowStep(p, i - 1);
    PowStep(q, n - i);
    MiddleMix(Comb(n, i - 1) as real, Comb(n, i) as real, Comb(n + 1, i) as real,
              p, Pow(p, i - 1), Pow(p, i), q, Pow(q, n - i), Pow(q, n + 1 - i));
  }

  lemma MixWithZero(p: real, u: real)
    ensures Mix(p, 0.0, u) == (1.0 - p) * u && Mix(p, u, 0.0) == p * u && Mix(p, 0.0, 0.0) == 0.0
  {
  }

  lemma NoTerm(n: nat, i: nat, p: real)
    requires i > n
    ensures Term(n, i, p) == 0.0
  {
  }

  /** Pascal's recurrence for the distribution: the last trial succeeds or fails. */
  lemma TermRecurrence(n: nat, i: nat, p: real)
    ensures Term(n + 1, i, p) == Mix(p, if i == 0 then 0.0 else Term(n, i - 1, p), Term(n, i, p))
  {
    hide Term, Pow, Mix;
    if i == 0 {
      FirstTerm(n, p);
      FirstTerm(n + 1, p);
      PowStep(1.0 - p, n);
      MixWithZero(p, Pow(1.0 - p, n));
    } else if i <= n {
      MiddleTerm(n, i, p);
    } else {
      NoTerm(n, i, p);
      if i == n + 1 {
        LastTerm(n + 1, p);
        LastTerm(n, p);
        PowStep(p, n);
        MixWithZero(p, Pow(p, n));
      } else {
        NoTerm(n + 1, i, p);
        NoTerm(n, i - 1, p);
        MixWithZero(p, 0.0);
      }
    }
  }

  lemma MixAdds(p: real, u: real, v: real, u': real, v': real)
    ensures Mix(p, u + u', v + v') == Mix(p, u, v) + Mix(p, u', v')
  {
  }

  lemma NothingBelowZero(n: nat, p: real)
    ensures Below(0, n, p) == 0.0
  {
  }

  /** The same recurrence for the tail. */
  lemma {:induction false} BelowRecurrence(m: nat, n: nat, p: real)
    ensures Below(m, n + 1, p) == Mix(p, if m == 0 then 0.0 else Below(m - 1, n, p), Below(m, n, p))
  {
    hide Term, Mix;
    if m == 0 {
      MixWithZero(p, 0.0);
    } else {
      BelowRecurrence(m - 1, n, p);
      TermRecurrence(n, m - 1, p);
      if m == 1 {
        NothingBelowZero(n, p);
        MixAdds(p, 0.0, Below(0, n, p), 0.0, Term(n, 0, p));
      } else {
        MixAdds(p, Below(m - 2, n, p), Below(m - 1, n, p), Term(n, m - 2, p), Term(n, m - 1, p));
      }
    }
  }

  lemma {:induction false} BelowGrows(l: nat, m: nat, n: nat, p: real)
    requires IsRate(p) && l <= m
    ensures 0.0 <= Below(l, n, p) <= Below(m, n, p)
    decreases m
  {
    if l < m {
      BelowGrows(l, m - 1, n, p);
      TermNonNegative(n, m - 1, p);
    } else if m > 0 {
      BelowGrows(m - 1, m - 1, n, p);
      TermNonNegative(n, m - 1, p);
    }
  }

  /** The probabilities of all outcomes sum to one. */
  lemma {:induction false} BelowAll(m: nat, n: nat, p: real)
    requires m > n
    ensures Below(m, n, p) == 1.0
    decreases n, m
  {
    hide Term;
    if m > n + 1 {
      BelowAll(m - 1, n, p);
      NoTerm(n, m - 1, p);
    } else if n == 0 {
      NothingBelowZero(0, p);
      FirstTerm(0, p);
      PowStep(1.0 - p, 0);
    } else {
      BelowRecurrence(m, n - 1, p);
      BelowAll(m, n - 1, p);
      BelowAll(m - 1, n - 1, p);
    }
  }

  /** A mixture that gives more weight to the larger of two values is larger. */
  lemma MixtureOrder(p: real, p': real, u: real, v: real, u': real, v': real)
    requires IsRate(p) && IsRate(p') && p <= p'
    requires u >= u' && v >= v' && u' <= v'
    ensures Mix(p, u, v) >= Mix(p', u', v')
  {
    ProductNonNegative(p, u - u');
    ProductNonNegative(1.0 - p, v - v');
    ProductNonNegative(p' - p, v' - u');
    assert p * (u - u') == p * u - p * u';
    assert (1.0 - p) * (v - v') == (1.0 - p) * v - (1.0 - p) * v';
    assert (p' - p) * (v' - u') == p' * v' - p' * u' - p * v' + p * u';
    assert (1.0 - p) * v' == v' - p * v' && (1.0 - p') * v' == v' - p' * v';
  }

  /** Few successes are less likely at a higher rate. */
  lemma {:induction false} BelowFallsWithRate(m: nat, n: nat, p: real, p': real)
    requires IsRate(p) && IsRate(p') && p <= p'
    ensures Below(m, n, p) >= Below(m, n, p')
    decreases n, m
  {
    hide Term, Below, Mix;
    if m == 0 {
      NothingBelowZero(n, p);
      NothingBelowZero(n, p');
    } else if n == 0 {
      if m > 0 {
        BelowAll(m, 0, p);
        BelowAll(m, 0, p');
      }
    } else {
      BelowRecurrence(m, n - 1, p);
      BelowRecurrence(m, n - 1, p');
      BelowFallsWithRate(m, n - 1, p, p');
      BelowFallsWithRate(m - 1, n - 1, p, p');
      BelowGrows(m - 1, m, n - 1, p');
      MixtureOrder(p, p', Below(m - 1, n - 1, p), Below(m, n - 1, p), Below(m - 1, n - 1, p'), Below(m, n - 1, p'));
    }
  }

  lemma MixtureBelow(p: real, u: real, v: real)
    requires 0.0 <= p && u <= v
    ensures Mix(p, u, v) <= v
  {
    ProductNonNegative(p, v - u);
    assert p * (v - u) == p * v - p * u;
    assert (1.0 - p) * v == v - p * v;
  }

  /** Few successes are less likely in more trials. */
  lemma BelowFallsWithTrials(m: nat, n: nat, p: real)
    requires IsRate(p)
    ensures Below(m, n + 1, p) <= Below(m, n, p)
  {
    hide Below, Mix;
    BelowRecurrence(m, n, p);
    if m == 0 {
      NothingBelowZero(n, p);
      NothingBelowZero(n + 1, p);
    } else {
      BelowGrows(m - 1, m, n, p);
      MixtureBelow(p, Below(m - 1, n, p), Below(m, n, p));
    }
  }
}
