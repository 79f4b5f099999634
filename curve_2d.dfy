/**
  The fixed cubic of the 2D programs: the same x and y as the 3D curve, with
  every z equal to 0, so the whole curve lies in the plane z = 0.
 */
module Curve2D {
  import opened Bezier
  import BezierCpp
  import BezierPy

  const P0: Vec3 := [-4.0, 0.0, 0.0]
  const P1: Vec3 := [-2.0, 4.0, 0.0]
  const P2: Vec3 := [2.0, 4.0, 0.0]
  const P3: Vec3 := [4.0, 0.0, 0.0]

  /** The four control points of the 2D curve. */
  const CtrlPoints: seq<Vec3> := [P0, P1, P2, P3]

  /** The curve starts at P0 and ends at P3. */
  lemma Endpoints()
    ensures Evaluate(CtrlPoints, 0.0) == [-4.0, 0.0, 0.0]
    ensures Evaluate(CtrlPoints, 1.0) == [4.0, 0.0, 0.0]
  {
    EvaluateAtZero(CtrlPoints);
    EvaluateAtOne(CtrlPoints);
  }

  /** Every point of the curve has z = 0, whatever t is. */
  lemma CurveInPlane(t: real)
    ensures Evaluate(CtrlPoints, t)[2] == 0.0
  {
    EvaluateInPlane(CtrlPoints, t, 2);
  }

  /** In exact arithmetic the point at t = 0.5 is (0, 3, 0). */
  lemma MidPoint()
    ensures Evaluate(CtrlPoints, 0.5) == [0.0, 3.0, 0.0]
  {
    EvaluateCubic(P0, P1, P2, P3, 0.5);
  }

  /** The global table `ctrlPoints[4][3]` with its initial rows. */
  method NewCtrlPoints() returns (ctrlPoints: array2<real>)
    ensures fresh(ctrlPoints)
    ensures ctrlPoints.Length0 == 4 && ctrlPoints.Length1 == 3
    ensures BezierCpp.Rows(ctrlPoints, 4) == CtrlPoints
  {
    ctrlPoints := new real[4, 3];
    ctrlPoints[0, 0], ctrlPoints[0, 1], ctrlPoints[0, 2] := -4.0, 0.0, 0.0;
    ctrlPoints[1, 0], ctrlPoints[1, 1], ctrlPoints[1, 2] := -2.0, 4.0, 0.0;
    ctrlPoints[2, 0], ctrlPoints[2, 1], ctrlPoints[2, 2] := 2.0, 4.0, 0.0;
    ctrlPoints[3, 0], ctrlPoints[3, 1], ctrlPoints[3, 2] := 4.0, 0.0, 0.0;
    BezierCpp.RowIs(ctrlPoints, 0, P0);
    BezierCpp.RowIs(ctrlPoints, 1, P1);
    BezierCpp.RowIs(ctrlPoints, 2, P2);
    BezierCpp.RowIs(ctrlPoints, 3, P3);
    BezierCpp.RowsOfFour(ctrlPoints);
  }

  /** One sample of the C++ drawing loop, `calculateBezierPoint(t, point, 4)`:
      the buffer receives the curve point at t, which lies in the plane z = 0. */
  method SampleCpp(ctrlPoints: array2<real>, t: real, point: array<real>)
    requires ctrlPoints.Length0 == 4 && ctrlPoints.Length1 == 3
    requires BezierCpp.Rows(ctrlPoints, 4) == CtrlPoints
    requires point.Length == 3
    modifies point
    ensures point[..] == Evaluate(CtrlPoints, t)
    ensures point[2] == 0.0
  {
    BezierCpp.CalculateBezierPoint(ctrlPoints, t, point, 4);
    CurveInPlane(t);
  }

  /** One sample of the Python drawing code,
      `calculate_bezier_point(t, ctrl_points)`: the curve point at t, with z = 0. */
  method SamplePy(t: real) returns (point: array<real>)
    ensures point[..] == Evaluate(CtrlPoints, t)
    ensures point[2] == 0.0
  {
    point := BezierPy.CalculateBezierPoint(t, CtrlPoints);
    CurveInPlane(t);
  }
}
