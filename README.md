# Bezier curve demos in Dafny

The repository draws two cubic Bezier curves: a planar one (every control
point has z = 0) and a 3D one with the same x and y but z = -2, 2, 0 and 3.
Each is drawn once with OpenGL/GLUT from C++ (`2d-bezier-curve.cpp`,
`3d-bezier-curve.cpp`) and once with matplotlib from Python
(`2d-bezier-curve.py`, `3d-bezier-curve.py`). Around the drawing, all four
programs share a small core, and this project models that core:

- the integer combinatorics: the recursive C++ `factorial`, the C++
  `combination` n! / (r! (n - r)!), and the Python `combination` built on
  `math.factorial` and floor division (module `Combinatorics`);
- the Bernstein weights C(n, i) t^i (1 - t)^(n - i) and the Bezier point as the
  weighted sum of the control points (modules `Bernstein` and `Bezier`);
- `calculateBezierPoint` of the C++ programs as an imperative method. It
  clears an out-buffer `point` and then accumulates into it with the nested
  `i`/`j` loops, reading the table `ctrlPoints` (module `BezierCpp`);
- `calculate_bezier_point` of the Python programs as an imperative method.
  It accumulates into a fresh three-element buffer, one `point +=` per
  control point (module `BezierPy`);
- the view rotation of the 3D C++ program: `specialKeys` nudging the static
  angles `xRot`, `yRot` and `zRot` and wrapping them back into [0, 360]
  (module `Rotation`);
- the fixed control points of the two curves, and what the programs compute
  from them: the end points, the label anchor at t = 0.5, and the 2D curve
  staying in the plane z = 0 (modules `Curve3D` and `Curve2D`).

Both C++ files contain the same `factorial`, `combination` and
`calculateBezierPoint`. Both Python files contain the same `combination` and
`calculate_bezier_point`. Each of these is modelled once. The table below
cites the 3D file's lines; the 2D copies sit at `2d-bezier-curve.cpp:15-43`
and `2d-bezier-curve.py:15-30`.

Coordinates, `t` and angles are `real`, so every result holds in exact
arithmetic. Powers are `Pow`, repeated multiplication with x^0 = 1, which is
what C's `pow(0, 0)` and Python's `0.0 ** 0` return.

The programs' evaluation loops are proved against a specification function,
`Bezier.Evaluate`. That function is tied to independent definitions:

- Pascal's rule (`Combinatorics.Binomial`) is the reference for both
  `combination` functions.
- A Pascal-built row of terms (`Bernstein.RowTerm`) is the reference for the
  binomial theorem. The weights summing to 1 follows from the theorem.
- The curve properties rest on those facts: end points, symmetry under
  reversal, invariance under affine maps, and staying inside the bounds of
  the control points.

`Rotation.Step` is the reference function for one key press. The class
method `Rotation.RotationState.SpecialKeys` is proved to perform exactly
that step on its fields.

## Model

| member | source | states |
|---|---|---|
| Combinatorics.Factorial | 3d-bezier-curve.cpp:21-25 | `factorial(n)` is at least 1 for every n, negative n included, and at least n once n >= 1 |
| Combinatorics.Binomial | 3d-bezier-curve.cpp:28-30 | the Pascal's-rule reference for n choose r is 0 past the end of the row and at least 1 inside it |
| Combinatorics.BinomialEdges | 3d-bezier-curve.cpp:28-30 | C(n, 0) = C(n, n) = 1 |
| Combinatorics.BinomialSymmetry | 3d-bezier-curve.cpp:28-30 | C(n, r) = C(n, n - r) for 0 <= r <= n |
| Combinatorics.FactorialSplit | 3d-bezier-curve.cpp:28-30 | C(n, r) * (r! * (n - r)!) = n!, so the divisor of `combination` divides n! |
| Combinatorics.Combination | 3d-bezier-curve.cpp:28-30 | `combination(n, r)` is never negative, and for 0 <= r <= n it equals the Pascal reference C(n, r) |
| Combinatorics.CombinationIsExact | 3d-bezier-curve.cpp:29 | for 0 <= r <= n, n! / (r! (n - r)!) has remainder 0 and quotient C(n, r) |
| Combinatorics.CombinationSymmetry | 3d-bezier-curve.cpp:28-30 | `combination(n, 0)` = `combination(n, n)` = 1 and `combination(n, r)` = `combination(n, n - r)` |
| Combinatorics.CombinationPy | 3d-bezier-curve.py:21-22 | Python `combination(n, r)` raises ValueError exactly when n, r or n - r is negative; otherwise its floor division yields C(n, r) |
| Bernstein.LowPowers | 3d-bezier-curve.cpp:42-43 | `pow(x, 0)` is 1 for every x, 0 included (C's `pow(0, 0)` and Python's `0.0 ** 0`), and the first three powers are x, x * x and x * x * x |
| Bernstein.PowOfZero | 3d-bezier-curve.cpp:42-43 | `pow(0, k)` is 0 for every k > 0, the factor that switches off all but one term at t = 0 and t = 1 |
| Bernstein.PowOfOne | 3d-bezier-curve.cpp:42-43 | `pow(1, k)` is 1 for every k |
| Bernstein.PowNonNegative | 3d-bezier-curve.cpp:42-43 | `pow(x, k)` is non-negative for every x >= 0 |
| Bernstein.WeightFromCoefficient | 3d-bezier-curve.cpp:41-43 | the factor C(n, i) t^i (1 - t)^(n - i) computed from any correct value of C(n, i) is the Bernstein weight b(n, i, t) |
| Bernstein.BinomialTheorem | 3d-bezier-curve.cpp:41-43 | the n + 1 closed-form terms C(n, i) a^i b^(n - i) add up to (a + b)^n |
| Bernstein.WeightsSumToOne | 3d-bezier-curve.cpp:41-47 | for every degree n and every t, the weights b(n, 0, t) ... b(n, n, t) sum to 1 |
| Bernstein.WeightsNonNegative | 3d-bezier-curve.cpp:41-43 | for 0 <= t <= 1 every weight is >= 0 |
| Bernstein.WeightsMirror | 3d-bezier-curve.cpp:41-43 | b(n, i, t) = b(n, n - i, 1 - t) |
| Bernstein.WeightsAtZero | 3d-bezier-curve.cpp:41-43 | at t = 0 the weight of point 0 is 1 and every other weight is 0 |
| Bernstein.WeightsAtOne | 3d-bezier-curve.cpp:41-43 | at t = 1 the weight of point n is 1 and every other weight is 0 |
| Bezier.Evaluate | 3d-bezier-curve.cpp:36-40 | with no control points the curve point is the origin (the cleared buffer) |
| Bezier.EvaluateAtZero | 3d-bezier-curve.cpp:40-48 | for a non-empty list of control points, t = 0 gives the first point |
| Bezier.EvaluateAtOne | 3d-bezier-curve.cpp:40-48 | for a non-empty list of control points, t = 1 gives the last point |
| Bezier.EvaluateSingle | 3d-bezier-curve.py:26-34 | a single control point is returned for every t |
| Bezier.EvaluateLinear | 3d-bezier-curve.cpp:40-48 | two control points give the segment p0 + t (p1 - p0) |
| Bezier.CubicWeights | 3d-bezier-curve.cpp:41-43 | the four cubic weights are (1 - t)^3, 3t(1 - t)^2, 3t^2(1 - t) and t^3 |
| Bezier.EvaluateCubic | 3d-bezier-curve.cpp:40-48 | four control points give (1 - t)^3 P0 + 3t(1 - t)^2 P1 + 3t^2(1 - t) P2 + t^3 P3 |
| Bezier.EvaluateReversed | 3d-bezier-curve.cpp:40-48 | the reversed control points trace the same curve backwards: point(t) of the reversed list is point(1 - t) of the original |
| Bezier.EvaluateAffine | 3d-bezier-curve.cpp:41-47 | moving every control point by an affine map m p + d moves every curve point by the same map, because the weights sum to 1 |
| Bezier.EvaluateInPlane | 3d-bezier-curve.cpp:45-47 | if coordinate j of every control point is 0, coordinate j of every curve point is 0 |
| Bezier.EvaluateWithinBounds | 3d-bezier-curve.cpp:40-48 | for 0 <= t <= 1, if coordinate j of every control point lies in [lo, hi], so does coordinate j of the curve point |
| BezierCpp.RowOf | 3d-bezier-curve.cpp:46 | row i of the table is the point with coordinates `ctrlPoints[i][0..2]` |
| BezierCpp.Rows | 3d-bezier-curve.cpp:40-46 | the first m rows of the table, in order, none when m <= 0 |
| BezierCpp.BernsteinFactor | 3d-bezier-curve.cpp:41-43 | `combination(n, i) * pow(t, i) * pow(1 - t, n - i)` with 0 <= i <= n is the Bernstein weight b(n, i, t) |
| BezierCpp.AddScaledRow | 3d-bezier-curve.cpp:45-47 | the `j` loop leaves point = old point + bernstein * row i of the table, and writes nothing else |
| BezierCpp.CalculateBezierPoint | 3d-bezier-curve.cpp:33-49 | after the call, `point[0..2]` holds the curve point at t over the first `numControlPoints` rows, whatever `point` held before (the origin when there are none); only `point` is written |
| BezierPy.Coefficient | 3d-bezier-curve.py:30 | the call `combination(n, i)` with 0 <= i <= n does not raise and returns C(n, i) |
| BezierPy.BernsteinFactor | 3d-bezier-curve.py:30-32 | `combination(n, i) * t ** i * (1 - t) ** (n - i)` is the Bernstein weight b(n, i, t) |
| BezierPy.AddScaledInPlace | 3d-bezier-curve.py:34 | `point += p * bernstein` makes point = old point + bernstein * p |
| BezierPy.CalculateBezierPoint | 3d-bezier-curve.py:25-36 | returns a freshly allocated three-element array holding the curve point at t over the given control points, of any count (the zero vector for none) |
| Rotation.Initial | 3d-bezier-curve.cpp:16-18 | the initial angles 20, 30 and 0 lie in [0, 360] |
| Rotation.Normalize | 3d-bezier-curve.cpp:265-270 | the wrap changes an angle by a whole turn or not at all, maps anything in [-360, 720] into [0, 360], and leaves an angle in [0, 360] alone |
| Rotation.Turn | 3d-bezier-curve.cpp:252-263 | the key tests move at most one angle, by no more than 5 degrees, and an unrecognised key moves none |
| Rotation.Step | 3d-bezier-curve.cpp:251-271 | one key press from angles in [0, 360] leaves all three in [0, 360] |
| Rotation.StepTurnsOneAngle | 3d-bezier-curve.cpp:252-263 | each of the six keys moves exactly one angle by 5 degrees in its direction before the wrap; the other two are unchanged |
| Rotation.StepIgnoresOtherKeys | 3d-bezier-curve.cpp:251-271 | any other key leaves angles in [0, 360] unchanged |
| Rotation.RunStaysValid | 3d-bezier-curve.cpp:251-271 | after any sequence of key presses from valid angles, all three angles still lie in [0, 360] |
| Rotation.RotationState.constructor | 3d-bezier-curve.cpp:16-18 | the three globals start at 20, 30 and 0 |
| Rotation.RotationState.SpecialKeys | 3d-bezier-curve.cpp:251-274 | the new angles are one `Step` from the old, so angles in [0, 360] stay in [0, 360] |
| Rotation.RotationState.TurnByKey | 3d-bezier-curve.cpp:252-263 | the key tests move the angles exactly as `Turn` says |
| Rotation.RotationState.NormalizeAngles | 3d-bezier-curve.cpp:265-271 | each angle is replaced by its wrap `Normalize` |
| Curve3D.Endpoints | 3d-bezier-curve.cpp:8-13 | the 3D curve starts at P0 = (-4, 0, -2) and ends at P3 = (4, 0, 3) |
| Curve3D.MidPoint | 3d-bezier-curve.cpp:199-201 | the 3D curve at t = 0.5 is (0, 3, 0.875) |
| Curve3D.NewCtrlPoints | 3d-bezier-curve.cpp:8-13 | the initialised 4 x 3 table holds P0, P1, P2 and P3 in its rows |
| Curve3D.LabelAnchorCpp | 3d-bezier-curve.cpp:199-201 | `calculateBezierPoint(0.5, midPoint, 4)` fills `midPoint` with (0, 3, 0.875) |
| Curve3D.LabelAnchorPy | 3d-bezier-curve.py:109-110 | `calculate_bezier_point(0.5, ctrl_points)` returns (0, 3, 0.875) |
| Curve2D.Endpoints | 2d-bezier-curve.cpp:7-12 | the 2D curve starts at (-4, 0, 0) and ends at (4, 0, 0) |
| Curve2D.CurveInPlane | 2d-bezier-curve.cpp:39-41 | every point of the 2D curve has z = 0 |
| Curve2D.MidPoint | 2d-bezier-curve.cpp:34-42 | the 2D curve at t = 0.5 is (0, 3, 0) |
| Curve2D.NewCtrlPoints | 2d-bezier-curve.cpp:7-12 | the initialised 4 x 3 table holds the four 2D control points in its rows |
| Curve2D.SampleCpp | 2d-bezier-curve.cpp:144-146 | each sample `calculateBezierPoint(t, point, 4)` puts the curve point at t into the buffer, with z = 0 |
| Curve2D.SamplePy | 2d-bezier-curve.py:71-72 | each sample `calculate_bezier_point(t, ctrl_points)` is the curve point at t, with z = 0 |

## Left out

- Combinatorics.Factorial: the C++ `int` overflows for n > 12. Here integers are unbounded, so no wrap-around is modelled. The programs only ever call it with n <= 3.
- BezierCpp.CalculateBezierPoint: the C++ code computes in `float`/`double` with IEEE rounding. Here it is exact real arithmetic, so every stated value (for example the anchor (0, 3, 0.875)) is the exact one.
- BezierPy.CalculateBezierPoint: numpy `float64` arithmetic is exact real arithmetic here. The control points are an immutable sequence, so "not mutated" holds by construction rather than being proved.
- BezierPy.CalculateBezierPoint: the Python product `combination(n, i) * (t ** i)` converts the exact integer C(n, i) to a float and raises OverflowError once C(n, i) exceeds the largest float64, first at C(1030, 515), so from 1031 control points on. The model has no such bound and returns the exact curve point for any count; the programs pass 4 points.
- BezierCpp.CalculateBezierPoint: the global `ctrlPoints` is passed as a parameter. The source's unchecked precondition `numControlPoints <= 4` becomes the array bound in the `requires`.
- Rotation.RotationState.SpecialKeys: angles are reals, not `GLfloat`. The call `glutPostRedisplay()` and the unused mouse position `x`, `y` have no effect on the state and are not modelled. The GLUT key codes 100 to 105 are the values `glut.h` gives them.
- The drawing code (axes, grid, text, `display`, `reshape`, `main`, the matplotlib figure and sliders) is made of calls into OpenGL, GLUT and matplotlib and has no result to state.
- The sampling loops `for (t = 0.0; t <= 1.0; t += 0.01)` and `np.linspace(0, 1, 100)` are not modelled: how many samples they take depends on floating-point accumulation or on numpy. Each single sample is modelled (`Curve2D.SampleCpp`, `Curve2D.SamplePy`).
- The rotation angles of the Python 3D program (`x_rot`, `y_rot`, `z_rot` and the sliders) are matplotlib UI state and are not modelled.
