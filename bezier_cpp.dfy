/**
  `calculateBezierPoint` of the C++ programs (the 2D and 3D files hold the
  same function). It reads the global table `ctrlPoints[N][3]`, here passed
  in as the array it is, and writes the three coordinates of the curve point
  into the caller's buffer `point`, which it first clears.
 */
module BezierCpp {
  import opened Combinatorics
  import opened Bernstein
  import opened Bezier

  /** Row i of a table of points with three columns. */
  function RowOf(ctrl: array2<real>, i: nat): (p: Vec3)
    requires ctrl.Length1 == 3 && i < ctrl.Length0
    reads ctrl
    ensures p[0] == ctrl[i, 0] && p[1] == ctrl[i, 1] && p[2] == ctrl[i, 2]
  {
    [ctrl[i, 0], ctrl[i, 1], ctrl[i, 2]]
  }

  /** The first m rows of the table, none when m <= 0. */
  function Rows(ctrl: array2<real>, m: int): (r: seq<Vec3>)
    requires ctrl.Length1 == 3 && m <= ctrl.Length0
    reads ctrl
    ensures |r| == if m <= 0 then 0 else m
    ensures forall i :: 0 <= i < |r| ==> r[i] == RowOf(ctrl, i)
    decreases if m <= 0 then 0 else m
  {
    if m <= 0 then [] else Rows(ctrl, m - 1) + [RowOf(ctrl, m - 1)]
  }

  /** A row whose three cells hold the coordinates of p is p. */
  lemma RowIs(ctrl: array2<real>, i: nat, p: Vec3)
    requires ctrl.Length1 == 3 && i < ctrl.Length0
    requires ctrl[i, 0] == p[0] && ctrl[i, 1] == p[1] && ctrl[i, 2] == p[2]
    ensures RowOf(ctrl, i) == p
  {
  }

  /** The first four rows of a table, listed. */
  lemma RowsOfFour(ctrl: array2<real>)
    requires ctrl.Length1 == 3 && 4 <= ctrl.Length0
    ensures Rows(ctrl, 4) == [RowOf(ctrl, 0), RowOf(ctrl, 1), RowOf(ctrl, 2), RowOf(ctrl, 3)]
  {
  }

  /** The factor the loop computes for control point i is the Bernstein weight. */
  lemma FactorIsWeight(n: nat, i: nat, t: real)
    requires i <= n
    ensures Weights(n, t)(i) == Combination(n, i) as real * Pow(t, i) * Pow(OneMinus(t), n - i)
  {
    WeightFromCoefficient(Combination(n, i), n, i, t);
  }

  /** The factor `combination(n, i) * pow(t, i) * pow(1 - t, n - i)` that the
      loop computes for control point i: the Bernstein weight b(n, i, t). */
  method BernsteinFactor(n: int, i: int, t: real) returns (bernstein: real)
    requires 0 <= i <= n
    ensures bernstein == Weights(n, t)(i)
  {
    bernstein := Combination(n, i) as real * Pow(t, i) * Pow(OneMinus(t), n - i);
    FactorIsWeight(n, i, t);
  }

  /** The inner loop `for (j = 0; j < 3; j++) point[j] += ctrlPoints[i][j] * bernstein`:
      row i of the table, scaled by the weight, is added to the point. */
  method AddScaledRow(ctrlPoints: array2<real>, i: int, bernstein: real, point: array<real>)
    requires ctrlPoints.Length1 == 3 && 0 <= i < ctrlPoints.Length0 && point.Length == 3
    modifies point
    ensures point[..] == AddScaled(old(point[..]), RowOf(ctrlPoints, i), bernstein)
  {
    ghost var sum := AddScaled(point[..], RowOf(ctrlPoints, i), bernstein);
    var j := 0;
    while j < 3
      invariant 0 <= j <= 3
      invariant forall c :: 0 <= c < j ==> point[c] == sum[c]
      invariant forall c :: j <= c < 3 ==> point[c] == old(point[c])
    {
      AddScaledAt(old(point[..]), RowOf(ctrlPoints, i), bernstein, j);
      point[j] := point[j] + ctrlPoints[i, j] * bernstein;
      j := j + 1;
    }
    assert point[..] == sum;
  }

  /** Coordinate c of v + b * p. */
  lemma AddScaledAt(v: Vec3, p: Vec3, b: real, c: nat)
    requires c < 3
    ensures AddScaled(v, p, b)[c] == v[c] + p[c] * b
  {
  }

  /** Fills `point` with the point at t of the curve over the first
      numControlPoints rows of `ctrlPoints`: the three coordinates are set
      to 0, then control point i adds its coordinates times the Bernstein
      weight C(n - 1, i) * t^i * (1 - t)^(n - 1 - i). Nothing but `point`
      is written, and its previous contents do not matter. */
  method CalculateBezierPoint(ctrlPoints: array2<real>, t: real, point: array<real>, numControlPoints: int)
    requires ctrlPoints.Length1 == 3 && numControlPoints <= ctrlPoints.Length0
    requires point.Length == 3
    modifies point
    ensures point[..] == Evaluate(Rows(ctrlPoints, numControlPoints), t)
  {
    ghost var pts := Rows(ctrlPoints, numControlPoints);
    ghost var degree := Degree(pts);
    ghost var w := Weights(degree, t);
    point[0] := 0.0;
    point[1] := 0.0;
    point[2] := 0.0;
    assert point[..] == BlendAll(pts, w, 0);
    var i := 0;
    while i < numControlPoints
      invariant 0 <= i <= |pts|
      invariant point[..] == BlendAll(pts, w, i)
    {
      var n := numControlPoints - 1;
      assert n == degree;
      var bernstein := BernsteinFactor(n, i, t);
      BlendAllNext(pts, w, i, bernstein);
      AddScaledRow(ctrlPoints, i, bernstein, point);
      i := i + 1;
    }
    assert |pts| == i;
  }
}
