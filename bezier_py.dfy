/**
  `calculate_bezier_point(t, control_points)` of the Python programs (the 2D
  and 3D files hold the same function). The degree comes from the number of
  control points; the point is accumulated in a fresh `np.zeros(3)` with one
  vectorised `point += control_points[i] * bernstein` per control point.
 */
module BezierPy {
  import opened Combinatorics
  import opened Bernstein
  import opened Bezier

  /** The call `combination(n, i)` with 0 <= i <= n: it cannot raise, and
      its value is C(n, i). */
  method Coefficient(n: int, i: int) returns (c: int)
    requires 0 <= i <= n
    ensures c == Binomial(n, i)
  {
    c := CombinationPy(n, i).value;
  }

  /** `combination(n, i) * (t ** i) * ((1 - t) ** (n - i))`: the Bernstein
      weight b(n, i, t). */
  method BernsteinFactor(n: int, i: int, t: real) returns (bernstein: real)
    requires 0 <= i <= n
    ensures bernstein == Weights(n, t)(i)
  {
    var c := Coefficient(n, i);
    bernstein := c as real * Pow(t, i) * Pow(OneMinus(t), n - i);
    WeightFromCoefficient(c, n, i, t);
  }

  /** `point += p * bernstein` on a NumPy vector of three floats. */
  method AddScaledInPlace(point: array<real>, p: Vec3, bernstein: real)
    requires point.Length == 3
    modifies point
    ensures point[..] == AddScaled(old(point[..]), p, bernstein)
  {
    point[0], point[1], point[2] := point[0] + p[0] * bernstein, point[1] + p[1] * bernstein,
                                    point[2] + p[2] * bernstein;
    ghost var r := AddScaled(old(point[..]), p, bernstein);
    assert point[0] == r[0] && point[1] == r[1] && point[2] == r[2];
  }

  /** The point at t of the curve over controlPoints, in a new array; the
      control points (an immutable value here) are only read. */
  method CalculateBezierPoint(t: real, controlPoints: seq<Vec3>) returns (point: array<real>)
    ensures fresh(point) && point.Length == 3
    ensures point[..] == Evaluate(controlPoints, t)
  {
    ghost var w := Weights(Degree(controlPoints), t);
    var numControlPoints := |controlPoints|;
    point := new real[3](_ => 0.0);
    assert point[..] == BlendAll(controlPoints, w, 0);
    for i := 0 to numControlPoints
      invariant point[..] == BlendAll(controlPoints, w, i)
    {
      var bernstein := BernsteinFactor(numControlPoints - 1, i, t);
      BlendAllNext(controlPoints, w, i, bernstein);
      AddScaledInPlace(point, controlPoints[i], bernstein);
    }
  }
}
