/**
  The Bezier curve of a sequence of control points, evaluated in the
  Bernstein basis: point(t) = sum over i of b(n, i, t) * P_i, n = count - 1,
  every coordinate accumulated on its own with the same weight. This is the
  reference against which the C++ and Python evaluation loops are proved.

  The weighted sum `Blend` is written for any weights; the facts about the
  Bernstein weights (they sum to 1, are mirror images, vanish at the ends)
  are then what turns a statement about blending into one about the curve.
 */
module Bezier {
  import opened Combinatorics
  import opened Bernstein

  /** A point with three coordinates: a C++ `float[3]`, a numpy row of 3. */
  type Vec3 = v: seq<real> | |v| == 3 witness [0.0, 0.0, 0.0]

  const Origin: Vec3 := [0.0, 0.0, 0.0]

  /** Coordinate j of the first k points, point i weighted by w(i), added
      one point at a time. */
  function BlendUpTo(pts: seq<Vec3>, w: nat -> real, j: nat, k: nat): real
    requires j < 3 && k <= |pts|
  {
    if k == 0 then 0.0 else BlendUpTo(pts, w, j, k - 1) + pts[k - 1][j] * w(k - 1)
  }

  /** Coordinate j of the sum of the first k points, point i weighted by w(i).
      (Kept apart from the recursion in `BlendUpTo`, like `Pow` and `Sum`.) */
  function Blend(pts: seq<Vec3>, w: nat -> real, j: nat, k: nat): real
    requires j < 3 && k <= |pts|
  {
    BlendUpTo(pts, w, j, k)
  }

  /** Blending one more point adds its coordinate times its weight. */
  lemma BlendNext(pts: seq<Vec3>, w: nat -> real, j: nat, k: nat)
    requires j < 3 && k < |pts|
    ensures Blend(pts, w, j, k + 1) == Blend(pts, w, j, k) + pts[k][j] * w(k)
  {
  }

  /** The three coordinates of a blend. */
  function BlendAll(pts: seq<Vec3>, w: nat -> real, k: nat): Vec3
    requires k <= |pts|
  {
    [Blend(pts, w, 0, k), Blend(pts, w, 1, k), Blend(pts, w, 2, k)]
  }

  /** The degree of the curve over pts: one less than the number of points. */
  function Degree(pts: seq<Vec3>): nat
  {
    if |pts| == 0 then 0 else |pts| - 1
  }

  /** The point at parameter t of the Bezier curve over pts; with no control
      points there is nothing to add and the result is the origin. */
  function Evaluate(pts: seq<Vec3>, t: real): (p: Vec3)
    ensures |pts| == 0 ==> p == Origin
  {
    BlendAll(pts, Weights(Degree(pts), t), |pts|)
  }

  /** The control points in the opposite order. */
  function Reverse(pts: seq<Vec3>): (r: seq<Vec3>)
    ensures |r| == |pts|
    ensures forall i :: 0 <= i < |pts| ==> r[i] == pts[|pts| - 1 - i]
  {
    seq(|pts|, i requires 0 <= i < |pts| => pts[|pts| - 1 - i])
  }

  /** The dot product r . p; with r = m[j], coordinate j of m * p. */
  function Dot(r: Vec3, p: Vec3): real
  {
    r[0] * p[0] + r[1] * p[1] + r[2] * p[2]
  }

  /** The affine map p |-> m * p + d, m given by its three rows. */
  function Affine(m: seq<Vec3>, d: Vec3, p: Vec3): Vec3
    requires |m| == 3
  {
    [Dot(m[0], p) + d[0], Dot(m[1], p) + d[1], Dot(m[2], p) + d[2]]
  }

  /** Every control point moved by the same affine map. */
  function AffineAll(m: seq<Vec3>, d: Vec3, pts: seq<Vec3>): (r: seq<Vec3>)
    requires |m| == 3
    ensures |r| == |pts|
    ensures forall i :: 0 <= i < |pts| ==> r[i] == Affine(m, d, pts[i])
  {
    seq(|pts|, i requires 0 <= i < |pts| => Affine(m, d, pts[i]))
  }

  // ----- the ends of the curve -----

  lemma {:induction false} BlendOfFirst(pts: seq<Vec3>, w: nat -> real, j: nat, k: nat)
    requires j < 3 && 1 <= k <= |pts|
    requires w(0) == 1.0 && forall i :: 0 < i < k ==> w(i) == 0.0
    ensures Blend(pts, w, j, k) == pts[0][j]
  {
    BlendNext(pts, w, j, k - 1);
    if k > 1 {
      BlendOfFirst(pts, w, j, k - 1);
    }
  }

  /** t = 0 gives the first control point. */
  lemma EvaluateAtZero(pts: seq<Vec3>)
    requires |pts| > 0
    ensures Evaluate(pts, 0.0) == pts[0]
  {
    var w := Weights(|pts| - 1, 0.0);
    forall i | 0 <= i < |pts|
      ensures w(i) == if i == 0 then 1.0 else 0.0
    {
      WeightsAtZero(|pts| - 1, i);
    }
    BlendOfFirst(pts, w, 0, |pts|);
    BlendOfFirst(pts, w, 1, |pts|);
    BlendOfFirst(pts, w, 2, |pts|);
  }

  lemma {:induction false} BlendOfNone(pts: seq<Vec3>, w: nat -> real, j: nat, k: nat)
    requires j < 3 && k <= |pts|
    requires forall i :: 0 <= i < k ==> w(i) == 0.0
    ensures Blend(pts, w, j, k) == 0.0
  {
    if k > 0 {
      BlendOfNone(pts, w, j, k - 1);
      BlendNext(pts, w, j, k - 1);
    }
  }

  /** t = 1 gives the last control point. */
  lemma EvaluateAtOne(pts: seq<Vec3>)
    requires |pts| > 0
    ensures Evaluate(pts, 1.0) == pts[|pts| - 1]
  {
    var n := |pts| - 1;
    var w := Weights(n, 1.0);
    forall i | 0 <= i <= n
      ensures w(i) == if i == n then 1.0 else 0.0
    {
      WeightsAtOne(n, i);
    }
    BlendOfNone(pts, w, 0, n);
    BlendOfNone(pts, w, 1, n);
    BlendOfNone(pts, w, 2, n);
    BlendNext(pts, w, 0, n);
    BlendNext(pts, w, 1, n);
    BlendNext(pts, w, 2, n);
    var last := pts[n];
    assert Evaluate(pts, 1.0) == [last[0] * w(n), last[1] * w(n), last[2] * w(n)];
    assert last == [last[0], last[1], last[2]];
  }

  // ----- low degrees -----

  /** v + b * p, coordinate by coordinate. */
  function AddScaled(v: Vec3, p: Vec3, b: real): Vec3
  {
    [v[0] + p[0] * b, v[1] + p[1] * b, v[2] + p[2] * b]
  }

  /** Blending one more point adds it, scaled by its weight. */
  lemma BlendAllNext(pts: seq<Vec3>, w: nat -> real, k: nat, b: real)
    requires k < |pts| && b == w(k)
    ensures BlendAll(pts, w, k + 1) == AddScaled(BlendAll(pts, w, k), pts[k], b)
  {
    BlendNext(pts, w, 0, k);
    BlendNext(pts, w, 1, k);
    BlendNext(pts, w, 2, k);
    var r, s := BlendAll(pts, w, k + 1), AddScaled(BlendAll(pts, w, k), pts[k], b);
    assert r[0] == s[0] && r[1] == s[1] && r[2] == s[2];
  }

  /** A single control point is the whole curve. */
  lemma EvaluateSingle(p: Vec3, t: real)
    ensures Evaluate([p], t) == p
  {
    var w := Weights(0, t);
    assert w(0) == 1.0;
    assert BlendAll([p], w, 0) == Origin;
    BlendAllNext([p], w, 0, 1.0);
    var r := AddScaled(Origin, p, 1.0);
    assert r[0] == p[0] && r[1] == p[1] && r[2] == p[2];
  }

  /** Two control points give the straight segment between them. */
  lemma EvaluateLinear(p0: Vec3, p1: Vec3, t: real)
    ensures Evaluate([p0, p1], t)
         == [p0[0] + t * (p1[0] - p0[0]), p0[1] + t * (p1[1] - p0[1]), p0[2] + t * (p1[2] - p0[2])]
  {
    var w := Weights(1, t);
    BinomialEdges(1);
    LowPowers(t);
    LowPowers(1.0 - t);
    assert w(0) == 1.0 - t;
    assert w(1) == t;
    assert BlendAll([p0, p1], w, 0) == Origin;
    BlendAllNext([p0, p1], w, 0, 1.0 - t);
    BlendAllNext([p0, p1], w, 1, t);
    var r := AddScaled(AddScaled(Origin, p0, 1.0 - t), p1, t);
    assert r[0] == p0[0] + t * (p1[0] - p0[0]);
    assert r[1] == p0[1] + t * (p1[1] - p0[1]);
    assert r[2] == p0[2] + t * (p1[2] - p0[2]);
  }

  /** The four cubic Bernstein weights written out: (1 - t)^3, 3t(1 - t)^2,
      3t^2(1 - t) and t^3. */
  lemma CubicWeights(t: real)
    ensures Weights(3, t)(0) == (1.0 - t) * (1.0 - t) * (1.0 - t)
    ensures Weights(3, t)(1) == 3.0 * t * (1.0 - t) * (1.0 - t)
    ensures Weights(3, t)(2) == 3.0 * t * t * (1.0 - t)
    ensures Weights(3, t)(3) == t * t * t
  {
    var u := 1.0 - t;
    BinomialEdges(3);
    assert Binomial(3, 1) == 3 && Binomial(3, 2) == 3;
    LowPowers(t);
    LowPowers(u);
  }

  /** Four control points give the cubic curve
      (1 - t)^3 P0 + 3t(1 - t)^2 P1 + 3t^2(1 - t) P2 + t^3 P3. */
  lemma EvaluateCubic(p0: Vec3, p1: Vec3, p2: Vec3, p3: Vec3, t: real)
    ensures Evaluate([p0, p1, p2, p3], t)
         == AddScaled(AddScaled(AddScaled(AddScaled(Origin,
              p0, (1.0 - t) * (1.0 - t) * (1.0 - t)),
              p1, 3.0 * t * (1.0 - t) * (1.0 - t)),
              p2, 3.0 * t * t * (1.0 - t)),
              p3, t * t * t)
  {
    var pts, w := [p0, p1, p2, p3], Weights(3, t);
    CubicWeights(t);
    assert BlendAll(pts, w, 0) == Origin;
    BlendAllNext(pts, w, 0, w(0));
    BlendAllNext(pts, w, 1, w(1));
    BlendAllNext(pts, w, 2, w(2));
    BlendAllNext(pts, w, 3, w(3));
  }

  // ----- reversal -----

  lemma BlendReversedStep(pts: seq<Vec3>, w: nat -> real, v: nat -> real, j: nat, k: nat)
    requires j < 3 && 1 <= k <= |pts|
    requires w(k - 1) == v(|pts| - k)
    requires Blend(Reverse(pts), w, j, k - 1)
          == Blend(pts, v, j, |pts|) - Blend(pts, v, j, |pts| - k + 1)
    ensures Blend(Reverse(pts), w, j, k)
         == Blend(pts, v, j, |pts|) - Blend(pts, v, j, |pts| - k)
  {
    BlendNext(Reverse(pts), w, j, k - 1);
    BlendNext(pts, v, j, |pts| - k);
    assert Reverse(pts)[k - 1] == pts[|pts| - k];
  }

  /** Blending the reversed points with w is blending the points with the
      mirror image v of w, summed from the other end. */
  lemma {:induction false} BlendReversed(pts: seq<Vec3>, w: nat -> real, v: nat -> real, j: nat, k: nat)
    requires j < 3 && k <= |pts|
    requires forall i :: 0 <= i < |pts| ==> w(i) == v(|pts| - 1 - i)
    ensures Blend(Reverse(pts), w, j, k)
         == Blend(pts, v, j, |pts|) - Blend(pts, v, j, |pts| - k)
  {
    if k > 0 {
      BlendReversed(pts, w, v, j, k - 1);
      BlendReversedStep(pts, w, v, j, k);
    }
  }

  /** Reversing the control points traces the same curve backwards. */
  lemma EvaluateReversed(pts: seq<Vec3>, t: real)
    ensures Evaluate(Reverse(pts), t) == Evaluate(pts, 1.0 - t)
  {
    var n := Degree(pts);
    var w, v := Weights(n, t), Weights(n, 1.0 - t);
    forall i | 0 <= i < |pts|
      ensures w(i) == v(|pts| - 1 - i)
    {
      WeightsMirror(n, t, i);
    }
    BlendReversed(pts, w, v, 0, |pts|);
    BlendReversed(pts, w, v, 1, |pts|);
    BlendReversed(pts, w, v, 2, |pts|);
  }

  // ----- affine invariance -----

  /** Coordinate j of every point of qs is r . (the matching point of pts),
      plus e. */
  predicate DotFormed(qs: seq<Vec3>, pts: seq<Vec3>, r: Vec3, e: real, j: nat)
  {
    j < 3 && |qs| == |pts| && forall i :: 0 <= i < |pts| ==> qs[i][j] == Dot(r, pts[i]) + e
  }

  /** r . (v + x * p) is r . v plus x times r . p. */
  lemma DotOfAddScaled(r: Vec3, v: Vec3, p: Vec3, x: real)
    ensures Dot(r, AddScaled(v, p, x)) == Dot(r, v) + Dot(r, p) * x
  {
  }

  /** r . (the blend of one more point). */
  lemma DotOfBlendNext(r: Vec3, pts: seq<Vec3>, w: nat -> real, k: nat)
    requires k < |pts|
    ensures Dot(r, BlendAll(pts, w, k + 1)) == Dot(r, BlendAll(pts, w, k)) + Dot(r, pts[k]) * w(k)
  {
    BlendAllNext(pts, w, k, w(k));
    DotOfAddScaled(r, BlendAll(pts, w, k), pts[k], w(k));
  }

  lemma LinearStepAlgebra(rv: real, rp: real, e: real, s: real, x: real, rv': real, s': real)
    requires rv' == rv + rp * x && s' == s + x
    ensures rv + e * s + (rp + e) * x == rv' + e * s'
  {
  }

  /** The dot form of the blend of the first k + 1 points, from that of the
      first k and the dot form of point k. */
  lemma DotFormNext(pts: seq<Vec3>, w: nat -> real, k: nat, r: Vec3, e: real)
    requires k < |pts|
    ensures Dot(r, BlendAll(pts, w, k)) + e * Sum(w, k) + (Dot(r, pts[k]) + e) * w(k)
         == Dot(r, BlendAll(pts, w, k + 1)) + e * Sum(w, k + 1)
  {
    DotOfBlendNext(r, pts, w, k);
    SumNext(w, k);
    LinearStepAlgebra(Dot(r, BlendAll(pts, w, k)), Dot(r, pts[k]), e, Sum(w, k), w(k),
                      Dot(r, BlendAll(pts, w, k + 1)), Sum(w, k + 1));
  }

  lemma BlendLinearStep(pts: seq<Vec3>, qs: seq<Vec3>, w: nat -> real, j: nat, k: nat, r: Vec3, e: real)
    requires j < 3 && k < |pts| == |qs|
    requires qs[k][j] == Dot(r, pts[k]) + e
    requires Blend(qs, w, j, k) == Dot(r, BlendAll(pts, w, k)) + e * Sum(w, k)
    ensures Blend(qs, w, j, k + 1) == Dot(r, BlendAll(pts, w, k + 1)) + e * Sum(w, k + 1)
  {
    BlendNext(qs, w, j, k);
    DotFormNext(pts, w, k, r, e);
  }

  /** If coordinate j of every point of qs is r . (the matching point of
      pts), plus e, then coordinate j of the blend of qs is r . (the blend of
      pts), plus e times the sum of the weights used. */
  lemma {:induction false} BlendLinear(pts: seq<Vec3>, qs: seq<Vec3>, w: nat -> real, j: nat, k: nat, r: Vec3, e: real)
    requires j < 3 && k <= |pts| && DotFormed(qs, pts, r, e, j)
    ensures Blend(qs, w, j, k) == Dot(r, BlendAll(pts, w, k)) + e * Sum(w, k)
  {
    if k == 0 {
      assert BlendAll(pts, w, 0) == Origin;
    } else {
      BlendLinear(pts, qs, w, j, k - 1, r, e);
      BlendLinearStep(pts, qs, w, j, k - 1, r, e);
    }
  }

  /** Coordinate j of a moved point is row j of the map applied to it, plus d[j]. */
  lemma AffineAt(m: seq<Vec3>, d: Vec3, p: Vec3, j: nat)
    requires |m| == 3 && j < 3
    ensures Affine(m, d, p)[j] == Dot(m[j], p) + d[j]
  {
  }

  /** Coordinate j of the moved points is row j of the map applied to the
      original points, plus d[j]. */
  lemma AffineAllDotFormed(m: seq<Vec3>, d: Vec3, pts: seq<Vec3>, j: nat)
    requires |m| == 3 && j < 3
    ensures DotFormed(AffineAll(m, d, pts), pts, m[j], d[j], j)
  {
    forall i | 0 <= i < |pts|
      ensures AffineAll(m, d, pts)[i][j] == Dot(m[j], pts[i]) + d[j]
    {
      AffineAt(m, d, pts[i], j);
    }
  }

  /** With weights that sum to 1, coordinate j of the blend of the moved
      points is row j of the map applied to the blend, plus d[j]. */
  lemma BlendDotForm(m: seq<Vec3>, d: Vec3, pts: seq<Vec3>, w: nat -> real, j: nat)
    requires |m| == 3 && j < 3 && Sum(w, |pts|) == 1.0
    ensures Blend(AffineAll(m, d, pts), w, j, |pts|) == Dot(m[j], BlendAll(pts, w, |pts|)) + d[j]
  {
    var qs := AffineAll(m, d, pts);
    AffineAllDotFormed(m, d, pts, j);
    BlendLinear(pts, qs, w, j, |pts|, m[j], d[j]);
  }

  /** Coordinate j of the curve over the moved points is row j of the map
      applied to the original curve point, plus d[j]. */
  lemma EvaluateDotForm(m: seq<Vec3>, d: Vec3, pts: seq<Vec3>, t: real, j: nat)
    requires |m| == 3 && |pts| > 0 && j < 3
    ensures Evaluate(AffineAll(m, d, pts), t)[j] == Dot(m[j], Evaluate(pts, t)) + d[j]
  {
    var n, qs := |pts| - 1, AffineAll(m, d, pts);
    assert Degree(qs) == n && Degree(pts) == n;
    WeightsSumToOne(n, t);
    BlendDotForm(m, d, pts, Weights(n, t), j);
  }

  /** One coordinate of affine invariance. */
  lemma EvaluateAffineAt(m: seq<Vec3>, d: Vec3, pts: seq<Vec3>, t: real, j: nat)
    requires |m| == 3 && |pts| > 0 && j < 3
    ensures Evaluate(AffineAll(m, d, pts), t)[j] == Affine(m, d, Evaluate(pts, t))[j]
  {
    EvaluateDotForm(m, d, pts, t, j);
    AffineAt(m, d, Evaluate(pts, t), j);
  }

  /** Moving the control points by an affine map moves every curve point by
      the same map: the weights sum to 1, so the offset comes through whole. */
  lemma EvaluateAffine(m: seq<Vec3>, d: Vec3, pts: seq<Vec3>, t: real)
    requires |m| == 3 && |pts| > 0
    ensures Evaluate(AffineAll(m, d, pts), t) == Affine(m, d, Evaluate(pts, t))
  {
    EvaluateAffineAt(m, d, pts, t, 0);
    EvaluateAffineAt(m, d, pts, t, 1);
    EvaluateAffineAt(m, d, pts, t, 2);
  }

  // ----- planarity and the convex hull -----

  lemma {:induction false} BlendOfZeros(pts: seq<Vec3>, w: nat -> real, j: nat, k: nat)
    requires j < 3 && k <= |pts|
    requires forall i :: 0 <= i < |pts| ==> pts[i][j] == 0.0
    ensures Blend(pts, w, j, k) == 0.0
  {
    if k > 0 {
      BlendOfZeros(pts, w, j, k - 1);
      BlendNext(pts, w, j, k - 1);
    }
  }

  /** Control points in a coordinate plane keep the whole curve in it. */
  lemma EvaluateInPlane(pts: seq<Vec3>, t: real, j: nat)
    requires j < 3
    requires forall i :: 0 <= i < |pts| ==> pts[i][j] == 0.0
    ensures Evaluate(pts, t)[j] == 0.0
  {
    BlendOfZeros(pts, Weights(Degree(pts), t), j, |pts|);
  }

  lemma ScaleBetween(lo: real, x: real, hi: real, y: real, s: real, b: real)
    requires lo <= x <= hi && y >= 0.0
    requires lo * s <= b <= hi * s
    ensures lo * (s + y) <= b + x * y <= hi * (s + y)
  {
    assert lo * y <= x * y <= hi * y;
  }

  /** Non-negative weights keep a blend between the bounds of the points,
      each bound scaled by the sum of the weights used. */
  lemma {:induction false} BlendBounds(pts: seq<Vec3>, w: nat -> real, j: nat, k: nat, lo: real, hi: real)
    requires j < 3 && k <= |pts|
    requires forall i :: 0 <= i < |pts| ==> w(i) >= 0.0 && lo <= pts[i][j] <= hi
    ensures lo * Sum(w, k) <= Blend(pts, w, j, k) <= hi * Sum(w, k)
  {
    if k > 0 {
      BlendBounds(pts, w, j, k - 1, lo, hi);
      BlendNext(pts, w, j, k - 1);
      SumNext(w, k - 1);
      ScaleBetween(lo, pts[k - 1][j], hi, w(k - 1), Sum(w, k - 1), Blend(pts, w, j, k - 1));
    }
  }

  /** For 0 <= t <= 1 the curve stays within the bounds of its control points
      on every axis (the weights are non-negative and sum to 1). */
  lemma EvaluateWithinBounds(pts: seq<Vec3>, t: real, j: nat, lo: real, hi: real)
    requires j < 3 && |pts| > 0 && 0.0 <= t <= 1.0
    requires forall i :: 0 <= i < |pts| ==> lo <= pts[i][j] <= hi
    ensures lo <= Evaluate(pts, t)[j] <= hi
  {
    var n := |pts| - 1;
    forall i | 0 <= i < |pts|
      ensures Weights(n, t)(i) >= 0.0
    {
      WeightsNonNegative(n, t, i);
    }
    BlendBounds(pts, Weights(n, t), j, |pts|, lo, hi);
    WeightsSumToOne(n, t);
  }
}
