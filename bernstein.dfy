/**
  The Bernstein basis that weights the control points of a Bezier curve:
  b(n, i, t) = C(n, i) * t^i * (1 - t)^(n - i), with the power x^0 = 1 for
  every x (C's `pow(0, 0)` and Python's `0.0 ** 0` are both 1).
  Arithmetic is exact: reals stand for the programs' floats.
 */
module Bernstein {
  import opened Combinatorics

  /** x^k by repeated multiplication. */
  function Power(x: real, k: nat): real
  {
    if k == 0 then 1.0 else x * Power(x, k - 1)
  }

  /** `pow(x, k)` / `x ** k` for a natural exponent. (Kept apart from the
      recursion in `Power`, so that every power is one term in the proofs
      about products of powers below.) */
  function Pow(x: real, k: nat): real
  {
    Power(x, k)
  }

  /** One factor taken out of a power. */
  lemma PowSucc(x: real, k: nat)
    requires k >= 1
    ensures Pow(x, k) == x * Pow(x, k - 1)
  {
  }

  /** Equal exponents give equal powers. */
  lemma PowCongruent(x: real, k: nat, k': nat)
    requires k == k'
    ensures Pow(x, k) == Pow(x, k')
  {
  }

  /** The powers the low-degree curves use, multiplied out. */
  lemma LowPowers(x: real)
    ensures Pow(x, 0) == 1.0 && Pow(x, 1) == x && Pow(x, 2) == x * x && Pow(x, 3) == x * x * x
  {
    PowSucc(x, 1);
    PowSucc(x, 2);
    PowSucc(x, 3);
  }

  lemma {:induction false} PowOfOne(k: nat)
    ensures Pow(1.0, k) == 1.0
  {
    if k > 0 {
      PowOfOne(k - 1);
      PowSucc(1.0, k);
    }
  }

  lemma PowOfZero(k: nat)
    requires k > 0
    ensures Pow(0.0, k) == 0.0
  {
    PowSucc(0.0, k);
  }

  lemma {:induction false} PowNonNegative(x: real, k: nat)
    requires x >= 0.0
    ensures Pow(x, k) >= 0.0
  {
    if k > 0 {
      PowNonNegative(x, k - 1);
      PowSucc(x, k);
    }
  }

  /** The term C(n, i) * a^i * b^(n - i) of the expansion of (a + b)^n;
      zero past the last index. */
  function Term(n: nat, i: nat, a: real, b: real): real
  {
    if i <= n then Binomial(n, i) as real * Pow(a, i) * Pow(b, n - i) else 0.0
  }

  /** f(0) + ... + f(k - 1), adding one value at a time. */
  function SumUpTo(f: nat -> real, k: nat): real
  {
    if k == 0 then 0.0 else SumUpTo(f, k - 1) + f(k - 1)
  }

  /** f(0) + ... + f(k - 1). */
  function Sum(f: nat -> real, k: nat): real
  {
    SumUpTo(f, k)
  }

  /** One more value added to a sum. */
  lemma SumNext(f: nat -> real, k: nat)
    ensures Sum(f, k + 1) == Sum(f, k) + f(k)
  {
  }

  /** The terms of the expansion of (a + b)^n as a function of their index. */
  function Terms(n: nat, a: real, b: real): nat -> real
  {
    (i: nat) => Term(n, i, a, b)
  }

  /** The Bernstein basis polynomials of degree n at t: i |-> b(n, i, t). */
  function Weights(n: nat, t: real): nat -> real
  {
    Terms(n, t, OneMinus(t))
  }

  /** `1 - t`, the parameter measured from the far end. */
  function OneMinus(t: real): real
  {
    1.0 - t
  }

  /** A weight computed from any correct value c of C(n, i) is the Bernstein
      weight b(n, i, t). */
  lemma WeightFromCoefficient(c: int, n: nat, i: nat, t: real)
    requires i <= n && c == Binomial(n, i)
    ensures Weights(n, t)(i) == c as real * Pow(t, i) * Pow(OneMinus(t), n - i)
  {
    WeightClosedForm(n, t, i);
  }

  /** b(n, i, t) = C(n, i) * t^i * (1 - t)^(n - i) inside the row. */
  lemma WeightClosedForm(n: nat, t: real, i: nat)
    requires i <= n
    ensures Weights(n, t)(i) == Binomial(n, i) as real * Pow(t, i) * Pow(OneMinus(t), n - i)
  {
    WeightIsTerm(n, t, i);
    TermInsideRow(n, i, t, OneMinus(t));
  }

  lemma WeightIsTerm(n: nat, t: real, i: nat)
    ensures Weights(n, t)(i) == Term(n, i, t, OneMinus(t))
  {
  }

  lemma TermInsideRow(n: nat, i: nat, a: real, b: real)
    requires i <= n
    ensures Term(n, i, a, b) == Binomial(n, i) as real * Pow(a, i) * Pow(b, n - i)
  {
  }

  /** Pascal's rule on the terms inside the row: term k of degree n is a
      times term k - 1 plus b times term k of degree n - 1. */
  lemma TermPascalInner(n: nat, k: nat, a: real, b: real)
    requires 1 <= k < n
    ensures Term(n, k, a, b) == a * Term(n - 1, k - 1, a, b) + b * Term(n - 1, k, a, b)
  {
    PowCongruent(b, (n - 1) - (k - 1), n - k);
    PowCongruent(b, n - k - 1, (n - 1) - k);
    PowSucc(a, k);
    PowSucc(b, n - k);
    PascalAlgebra(Term(n, k, a, b), Term(n - 1, k - 1, a, b), Term(n - 1, k, a, b),
                  Binomial(n, k) as real, Binomial(n - 1, k - 1) as real, Binomial(n - 1, k) as real,
                  a, b, Pow(a, k), Pow(a, k - 1), Pow(b, n - k), Pow(b, n - k - 1),
                  Pow(b, (n - 1) - (k - 1)), Pow(b, (n - 1) - k));
  }

  /** The algebra of one inner step of Pascal's rule, over the factors of
      the three terms. */
  lemma PascalAlgebra(t: real, t0: real, t1: real, c: real, lo: real, hi: real, a: real, b: real,
                      pa: real, pa': real, pb: real, pb': real, pbLo: real, pbHi: real)
    requires c == lo + hi && pa == a * pa' && pb == b * pb' && pbLo == pb && pbHi == pb'
    requires t == c * pa * pb && t0 == lo * pa' * pbLo && t1 == hi * pa * pbHi
    ensures t == a * t0 + b * t1
  {
  }

  /** The last term of degree n is a times the last term of degree n - 1. */
  lemma TermPascalLast(n: nat, a: real, b: real)
    requires n >= 1
    ensures Term(n, n, a, b) == a * Term(n - 1, n - 1, a, b) + b * Term(n - 1, n, a, b)
  {
    PowCongruent(b, n - n, (n - 1) - (n - 1));
    PowSucc(a, n);
    PascalLastAlgebra(Term(n, n, a, b), Term(n - 1, n - 1, a, b), Term(n - 1, n, a, b),
                      Binomial(n, n) as real, Binomial(n - 1, n - 1) as real, Binomial(n - 1, n) as real,
                      a, b, Pow(a, n), Pow(a, n - 1), Pow(b, n - n), Pow(b, (n - 1) - (n - 1)));
  }

  lemma PascalLastAlgebra(t: real, t0: real, t1: real, c: real, lo: real, hi: real, a: real, b: real,
                          pa: real, pa': real, pb: real, pbLo: real)
    requires c == lo + hi && hi == 0.0 && t1 == 0.0 && pa == a * pa' && pbLo == pb
    requires t == c * pa * pb && t0 == lo * pa' * pbLo
    ensures t == a * t0 + b * t1
  {
  }

  /** The first term of degree n is b times the first term of degree n - 1. */
  lemma TermPascalFirst(n: nat, a: real, b: real)
    requires n >= 1
    ensures Term(n, 0, a, b) == b * Term(n - 1, 0, a, b)
  {
    PowCongruent(b, n - 0 - 1, (n - 1) - 0);
    PowSucc(b, n - 0);
    PascalFirstAlgebra(Term(n, 0, a, b), Term(n - 1, 0, a, b), Binomial(n, 0) as real, Binomial(n - 1, 0) as real,
                       b, Pow(a, 0), Pow(b, n - 0), Pow(b, n - 0 - 1), Pow(b, (n - 1) - 0));
  }

  lemma PascalFirstAlgebra(t: real, t0: real, c: real, c0: real, b: real,
                           pa: real, pb: real, pb': real, pbLo: real)
    requires c == 1.0 && c0 == 1.0 && pb == b * pb' && pbLo == pb'
    requires t == c * pa * pb && t0 == c0 * pa * pbLo
    ensures t == b * t0
  {
  }

  /** The same terms built row by row with Pascal's rule, a reference that
      never multiplies out a coefficient and two powers. */
  function RowTerm(n: nat, i: nat, a: real, b: real): real
  {
    if i > n then 0.0
    else if n == 0 then 1.0
    else if i == 0 then b * RowTerm(n - 1, 0, a, b)
    else a * RowTerm(n - 1, i - 1, a, b) + b * RowTerm(n - 1, i, a, b)
  }

  function RowTerms(n: nat, a: real, b: real): nat -> real
  {
    (i: nat) => RowTerm(n, i, a, b)
  }

  /** Pascal's rows and the closed form agree term by term. */
  lemma {:induction false} RowTermClosedForm(n: nat, i: nat, a: real, b: real)
    ensures RowTerm(n, i, a, b) == Term(n, i, a, b)
  {
    if 0 < n && i <= n {
      if i == 0 {
        RowTermClosedForm(n - 1, 0, a, b);
        RowTermFirst(n, a, b);
      } else if i < n {
        RowTermClosedForm(n - 1, i - 1, a, b);
        RowTermClosedForm(n - 1, i, a, b);
        RowTermInner(n, i, a, b);
      } else {
        RowTermClosedForm(n - 1, n - 1, a, b);
        RowTermLast(n, a, b);
      }
    }
  }

  lemma RowTermFirst(n: nat, a: real, b: real)
    requires 1 <= n && RowTerm(n - 1, 0, a, b) == Term(n - 1, 0, a, b)
    ensures RowTerm(n, 0, a, b) == Term(n, 0, a, b)
  {
    TermPascalFirst(n, a, b);
  }

  lemma RowTermInner(n: nat, i: nat, a: real, b: real)
    requires 1 <= i < n
    requires RowTerm(n - 1, i - 1, a, b) == Term(n - 1, i - 1, a, b)
    requires RowTerm(n - 1, i, a, b) == Term(n - 1, i, a, b)
    ensures RowTerm(n, i, a, b) == Term(n, i, a, b)
  {
    TermPascalInner(n, i, a, b);
  }

  lemma RowTermLast(n: nat, a: real, b: real)
    requires 1 <= n && RowTerm(n - 1, n - 1, a, b) == Term(n - 1, n - 1, a, b)
    ensures RowTerm(n, n, a, b) == Term(n, n, a, b)
  {
    TermPascalLast(n, a, b);
  }

  /** f(0) = b * g(0) and f(i) = a * g(i - 1) + b * g(i) for every i from 1 to k. */
  predicate PascalUpTo(f: nat -> real, g: nat -> real, a: real, b: real, k: nat)
  {
    f(0) == b * g(0) && forall i :: 1 <= i <= k ==> f(i) == a * g(i - 1) + b * g(i)
  }

  /** Each row is made from the one above by Pascal's rule. */
  lemma RowTermsPascal(n: nat, k: nat, a: real, b: real)
    requires 1 <= n
    ensures PascalUpTo(RowTerms(n, a, b), RowTerms(n - 1, a, b), a, b, k)
  {
  }

  /** Pascal's rule on values lifts to the partial sums. */
  lemma {:induction false} SumPascal(f: nat -> real, g: nat -> real, a: real, b: real, k: nat)
    requires PascalUpTo(f, g, a, b, k)
    ensures Sum(f, k + 1) == a * Sum(g, k) + b * Sum(g, k + 1)
  {
    SumNext(f, k);
    SumNext(g, k);
    if k == 0 {
      SumFirstAlgebra(Sum(f, k + 1), Sum(f, k), f(k), Sum(g, k), Sum(g, k + 1), g(k), a, b);
    } else {
      SumPascal(f, g, a, b, k - 1);
      SumNext(g, k - 1);
      SumNextAlgebra(Sum(f, k + 1), Sum(f, k - 1 + 1), f(k), Sum(g, k - 1), Sum(g, k - 1 + 1), Sum(g, k),
                     Sum(g, k + 1), g(k - 1), g(k), a, b);
    }
  }

  lemma SumFirstAlgebra(s: real, s0: real, t: real, g0: real, g1: real, u: real, a: real, b: real)
    requires s == s0 + t && s0 == 0.0 && t == b * u && g0 == 0.0 && g1 == g0 + u
    ensures s == a * g0 + b * g1
  {
  }

  lemma SumNextAlgebra(s: real, s': real, t: real, g: real, g': real, g1: real, g2: real,
                       u0: real, u1: real, a: real, b: real)
    requires s == s' + t && s' == a * g + b * g' && g' == g1 && t == a * u0 + b * u1
    requires g1 == g + u0 && g2 == g1 + u1
    ensures s == a * g1 + b * g2
  {
  }

  /** Row n of Pascal's construction adds up to s^n, s = a + b. */
  lemma {:induction false} RowSum(n: nat, a: real, b: real, s: real)
    requires s == a + b
    ensures Sum(RowTerms(n, a, b), n + 1) == Pow(s, n)
  {
    if n == 0 {
      SumNext(RowTerms(n, a, b), 0);
    } else {
      RowSum(n - 1, a, b, s);
      RowTermsPascal(n, n, a, b);
      SumPascal(RowTerms(n, a, b), RowTerms(n - 1, a, b), a, b, n);
      SumNext(RowTerms(n - 1, a, b), n);
      RowTermPastEnd(n - 1, n, a, b);
      PowSucc(s, n);
      TheoremAlgebra(Sum(RowTerms(n, a, b), n + 1), Sum(RowTerms(n - 1, a, b), n), Sum(RowTerms(n - 1, a, b), n + 1),
                     RowTerms(n - 1, a, b)(n), Sum(RowTerms(n - 1, a, b), n - 1 + 1), Pow(s, n), Pow(s, n - 1), a, b, s);
    }
  }

  /** Past the end of a row every term is 0. */
  lemma RowTermPastEnd(n: nat, i: nat, a: real, b: real)
    requires i > n
    ensures RowTerms(n, a, b)(i) == 0.0
  {
  }

  lemma TheoremAlgebra(r: real, x: real, x1: real, z: real, x': real, p: real, q: real, a: real, b: real, s: real)
    requires r == a * x + b * x1 && x1 == x + z && z == 0.0 && x' == x && x' == q && p == s * q && s == a + b
    ensures r == p
  {
  }

  /** Sums of two functions that agree below k are equal. */
  lemma {:induction false} SumCongruent(f: nat -> real, g: nat -> real, k: nat)
    requires forall i: nat :: i < k ==> f(i) == g(i)
    ensures Sum(f, k) == Sum(g, k)
  {
    if k > 0 {
      SumCongruent(f, g, k - 1);
      SumNext(f, k - 1);
      SumNext(g, k - 1);
    }
  }

  /** The binomial theorem: the n + 1 terms add up to (a + b)^n. */
  lemma BinomialTheorem(n: nat, a: real, b: real)
    ensures Sum(Terms(n, a, b), n + 1) == Pow(a + b, n)
  {
    RowSum(n, a, b, a + b);
    forall i: nat | i < n + 1
      ensures Terms(n, a, b)(i) == RowTerms(n, a, b)(i)
    {
      RowTermClosedForm(n, i, a, b);
    }
    SumCongruent(Terms(n, a, b), RowTerms(n, a, b), n + 1);
  }

  /** The Bernstein weights of any degree sum to 1 at every t, so a Bezier
      point is an affine combination of its control points. */
  lemma WeightsSumToOne(n: nat, t: real)
    ensures Sum(Weights(n, t), n + 1) == 1.0
  {
    BinomialTheorem(n, t, OneMinus(t));
    PowOfOne(n);
  }

  /** On 0 <= t <= 1 every weight is non-negative. */
  lemma WeightsNonNegative(n: nat, t: real, i: nat)
    requires 0.0 <= t <= 1.0
    ensures Weights(n, t)(i) >= 0.0
  {
    if i <= n {
      PowNonNegative(t, i);
      PowNonNegative(OneMinus(t), n - i);
    }
  }

  /** The weights are mirror images: b(n, i) at t is b(n, n - i) at 1 - t. */
  lemma WeightsMirror(n: nat, t: real, i: nat)
    requires i <= n
    ensures Weights(n, t)(i) == Weights(n, 1.0 - t)(n - i)
  {
    WeightClosedForm(n, t, i);
    WeightClosedForm(n, 1.0 - t, n - i);
    BinomialSymmetry(n, i);
    PowCongruent(OneMinus(1.0 - t), n - (n - i), i);
    MirrorAlgebra(Binomial(n, i) as real, Binomial(n, n - i) as real, Pow(t, i), Pow(OneMinus(t), n - i),
                  Pow(1.0 - t, n - i), Pow(OneMinus(1.0 - t), n - (n - i)));
  }

  lemma MirrorAlgebra(c: real, c': real, p: real, q: real, p': real, q': real)
    requires c == c' && p == q' && q == p'
    ensures c * p * q == c' * p' * q'
  {
  }

  /** At t = 0 all the weight is on the first point. */
  lemma WeightsAtZero(n: nat, i: nat)
    ensures Weights(n, 0.0)(i) == if i == 0 then 1.0 else 0.0
  {
    if i == 0 {
      PowOfOne(n);
    } else if i <= n {
      PowOfZero(i);
    }
  }

  /** At t = 1 all the weight is on the last point. */
  lemma WeightsAtOne(n: nat, i: nat)
    ensures Weights(n, 1.0)(i) == if i == n then 1.0 else 0.0
  {
    BinomialEdges(n);
    PowOfOne(i);
    if i < n {
      PowOfZero(n - i);
    }
  }
}
