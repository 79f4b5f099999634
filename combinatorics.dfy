/**
  Integer combinatorics of the Bezier demos: the recursive `factorial` and the
  factorial-based `combination` of the C++ programs, the Python `combination`
  built on `math.factorial`, and Pascal's triangle as the independent reference
  for "n choose r".
 */
module Combinatorics {

  /** What a Python call returns: a value, or the ValueError it raises. */
  datatype Result<T> = Ok(value: T) | ValueError

  /** `factorial` of the C++ programs: 1 for every n <= 1 (negative n included),
      n * factorial(n - 1) above. Integers are unbounded here. */
  function Factorial(n: int): (r: int)
    ensures r >= 1
    ensures n >= 1 ==> r >= n
    decreases if n <= 1 then 0 else n
  {
    if n <= 1 then 1 else n * Factorial(n - 1)
  }

  /** The number of r-element subsets of an n-element set, by Pascal's rule. */
  function Binomial(n: nat, r: nat): (c: nat)
    ensures r > n ==> c == 0
    ensures r <= n ==> c >= 1
  {
    if r == 0 then 1
    else if n == 0 then 0
    else Binomial(n - 1, r - 1) + Binomial(n - 1, r)
  }

  /** The two edges of Pascal's triangle are all ones. */
  lemma {:induction false} BinomialEdges(n: nat)
    ensures Binomial(n, 0) == 1 && Binomial(n, n) == 1
  {
    if n > 0 {
      BinomialEdges(n - 1);
    }
  }

  /** Choosing r elements is choosing the n - r left behind. */
  lemma {:induction false} BinomialSymmetry(n: nat, r: nat)
    requires r <= n
    ensures Binomial(n, r) == Binomial(n, n - r)
  {
    BinomialEdges(n);
    if 0 < r < n {
      BinomialSymmetry(n - 1, r - 1);
      BinomialSymmetry(n - 1, r);
    }
  }

  /** n! = C(n, r) * r! * (n - r)! for 0 <= r <= n. */
  lemma {:induction false} FactorialSplit(n: nat, r: nat)
    requires r <= n
    ensures Binomial(n, r) * (Factorial(r) * Factorial(n - r)) == Factorial(n)
  {
    BinomialEdges(n);
    if 0 < r < n {
      FactorialSplit(n - 1, r - 1);
      FactorialSplit(n - 1, r);
      var left, right := Binomial(n - 1, r - 1), Binomial(n - 1, r);
      var fr, fs, fn := Factorial(r - 1), Factorial(n - r - 1), Factorial(n - 1);
      assert Factorial(r) == r * fr;
      assert Factorial(n - r) == (n - r) * fs;
      assert Factorial(n) == n * fn;
      // the two halves of Pascal's rule, each over its own split of (n - 1)!
      var a, b := fr * ((n - r) * fs), (r * fr) * fs;
      assert left * a == fn;
      assert right * b == fn;
      var p := (r * fr) * ((n - r) * fs);
      MulAssoc(r, fr, (n - r) * fs);
      MulSwap(r * fr, n - r, fs);
      assert p == r * a && p == (n - r) * b;
      MulDistrib(left, right, p);
      MulSwap(left, r, a);
      MulSwap(right, n - r, b);
      MulDistrib(r, n - r, fn);
    }
  }

  /** `combination` of the C++ programs: n! / (r! * (n - r)!). Both operands
      are positive, so C's truncating division and Dafny's agree. */
  function Combination(n: int, r: int): (c: int)
    ensures c >= 0
    ensures 0 <= r <= n ==> c == Binomial(n, r)
  {
    var d := Factorial(r) * Factorial(n - r);
    MulAtLeast(Factorial(r), Factorial(n - r));
    DivNonNegative(Factorial(n), d);
    var c := Factorial(n) / d;
    if 0 <= r <= n then CombinationIsExact(n, r); c else c
  }

  /** `combination` is 1 on both edges of the triangle and symmetric in r
      and n - r. */
  lemma CombinationSymmetry(n: int, r: int)
    requires 0 <= r <= n
    ensures Combination(n, 0) == 1 && Combination(n, n) == 1
    ensures Combination(n, r) == Combination(n, n - r)
  {
    BinomialEdges(n);
    BinomialSymmetry(n, r);
  }

  /** For 0 <= r <= n the division in `combination` leaves no remainder. */
  lemma CombinationIsExact(n: nat, r: nat)
    requires r <= n
    ensures Factorial(n) / (Factorial(r) * Factorial(n - r)) == Binomial(n, r)
    ensures Factorial(n) % (Factorial(r) * Factorial(n - r)) == 0
  {
    FactorialSplit(n, r);
    var d := Factorial(r) * Factorial(n - r);
    LemmaExactDivision(Binomial(n, r), d);
  }

  /** Dividing a multiple of a positive d by d gives back the multiplier. */
  lemma LemmaExactDivision(q: int, d: int)
    requires d > 0
    ensures (q * d) / d == q && (q * d) % d == 0
  {
    var k, rem := (q * d) / d, (q * d) % d;
    assert q * d == d * k + rem && 0 <= rem < d;
    assert d * (q - k) == rem;
    if q - k >= 1 {
      MulAtLeast(q - k, d);
    } else if q - k <= -1 {
      MulAtLeast(k - q, d);
    }
  }

  /** A non-negative number divided by a positive one is non-negative. */
  lemma DivNonNegative(a: int, d: int)
    requires a >= 0 && d > 0
    ensures a / d >= 0
  {
    var q, rem := a / d, a % d;
    assert a == d * q + rem && 0 <= rem < d;
    if q < 0 {
      MulAtLeast(-q, d);
    }
  }

  lemma MulAssoc(x: int, y: int, z: int)
    ensures (x * y) * z == x * (y * z)
  {
  }

  lemma MulSwap(x: int, y: int, z: int)
    ensures x * (y * z) == y * (x * z)
  {
  }

  lemma MulDistrib(x: int, y: int, z: int)
    ensures (x + y) * z == x * z + y * z
  {
  }

  /** A positive multiple of d is at least d. */
  lemma MulAtLeast(a: int, d: int)
    requires a >= 1 && d > 0
    ensures a * d >= d
  {
  }

  /** Python's `combination`: math.factorial raises ValueError on a negative
      argument, and `//` on positive operands is exact floor division. */
  function CombinationPy(n: int, r: int): (c: Result<int>)
    ensures c.Ok? <==> 0 <= r <= n
    ensures c.Ok? ==> c.value == Binomial(n, r)
  {
    if n < 0 || r < 0 || n - r < 0 then ValueError
    else CombinationIsExact(n, r); Ok(Factorial(n) / (Factorial(r) * Factorial(n - r)))
  }
}
