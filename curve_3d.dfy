/**
  The fixed cubic of the 3D programs (the C++ global `ctrlPoints` and the
  Python `ctrl_points` hold the same four points) and what the programs do
  with it: the curve runs from P0 to P3, and its point at t = 0.5 is where
  the label "Bezier Curve" is anchored.
 */
module Curve3D {
  import opened Bezier
  import BezierCpp
  import BezierPy

  const P0: Vec3 := [-4.0, 0.0, -2.0]
  const P1: Vec3 := [-2.0, 4.0, 2.0]
  const P2: Vec3 := [2.0, 4.0, 0.0]
  const P3: Vec3 := [4.0, 0.0, 3.0]

  /** The four control points of the 3D curve. */
  const CtrlPoints: seq<Vec3> := [P0, P1, P2, P3]

  /** The curve starts at P0 and ends at P3. */
  lemma Endpoints()
    ensures Evaluate(CtrlPoints, 0.0) == [-4.0, 0.0, -2.0]
    ensures Evaluate(CtrlPoints, 1.0) == [4.0, 0.0, 3.0]
  {
    EvaluateAtZero(CtrlPoints);
    EvaluateAtOne(CtrlPoints);
  }

  /** In exact arithmetic the point at t = 0.5 is (0, 3, 0.875): the weights
      there are 1/8, 3/8, 3/8 and 1/8. */
  lemma MidPoint()
    ensures Evaluate(CtrlPoints, 0.5) == [0.0, 3.0, 0.875]
  {
    EvaluateCubic(P0, P1, P2, P3, 0.5);
  }

  /** The global table `ctrlPoints[4][3]` with its initial rows. */
  method NewCtrlPoints() returns (ctrlPoints: array2<real>)
    ensures fresh(ctrlPoints)
    ensures ctrlPoints.Length0 == 4 && ctrlPoints.Length1 == 3
    ensures BezierCpp.Rows(ctrlPoints, 4) == CtrlPoints
  {
    ctrlPoints := new real[4, 3];
    ctrlPoints[0, 0], ctrlPoints[0, 1], ctrlPoints[0, 2] := -4.0, 0.0, -2.0;
    ctrlPoints[1, 0], ctrlPoints[1, 1], ctrlPoints[1, 2] := -2.0, 4.0, 2.0;
    ctrlPoints[2, 0], ctrlPoints[2, 1], ctrlPoints[2, 2] := 2.0, 4.0, 0.0;
    ctrlPoints[3, 0], ctrlPoints[3, 1], ctrlPoints[3, 2] := 4.0, 0.0, 3.0;
    BezierCpp.RowIs(ctrlPoints, 0, P0);
    BezierCpp.RowIs(ctrlPoints, 1, P1);
    BezierCpp.RowIs(ctrlPoints, 2, P2);
    BezierCpp.RowIs(ctrlPoints, 3, P3);
    BezierCpp.RowsOfFour(ctrlPoints);
  }

  /** The label anchor of the C++ program: `calculateBezierPoint(0.5,
      midPoint, 4)` into a fresh `float midPoint[3]`. */
  method LabelAnchorCpp(ctrlPoints: array2<real>) returns (midPoint: array<real>)
    requires ctrlPoints.Length0 == 4 && ctrlPoints.Length1 == 3
    requires BezierCpp.Rows(ctrlPoints, 4) == CtrlPoints
    ensures midPoint[..] == [0.0, 3.0, 0.875]
  {
    midPoint := new real[3];
    BezierCpp.CalculateBezierPoint(ctrlPoints, 0.5, midPoint, 4);
    MidPoint();
  }

  /** The label anchor of the Python program:
      `calculate_bezier_point(0.5, ctrl_points)`. */
  method LabelAnchorPy() returns (midPoint: array<real>)
    ensures midPoint[..] == [0.0, 3.0, 0.875]
  {
    midPoint := BezierPy.CalculateBezierPoint(0.5, CtrlPoints);
    MidPoint();
  }
}
