/**
  The view rotation of the 3D C++ program: three angles in degrees (about
  the x, y and z axes) that the arrow and page keys nudge by 5 degrees, each
  then brought back into [0, 360] by at most one turn.

  `Step` is the reference function of one key press; the class holds the
  program's three static globals and its `SpecialKeys` updates them in place.
 */
module Rotation {

  /** The GLUT special-key codes that `specialKeys` reacts to (as glut.h
      defines them). */
  const KeyLeft: int := 100
  const KeyUp: int := 101
  const KeyRight: int := 102
  const KeyDown: int := 103
  const KeyPageUp: int := 104
  const KeyPageDown: int := 105

  /** The size of one nudge, in degrees. */
  const Nudge: real := 5.0

  /** The three rotation angles, in degrees. */
  datatype Angles = Angles(x: real, y: real, z: real)

  predicate InRange(a: real)
  {
    0.0 <= a <= 360.0
  }

  /** All three angles lie in [0, 360]. */
  predicate Valid(v: Angles)
  {
    InRange(v.x) && InRange(v.y) && InRange(v.z)
  }

  /** The angles the program starts with: x 20, y 30, z 0. */
  function Initial(): (v: Angles)
    ensures Valid(v)
  {
    Angles(20.0, 30.0, 0.0)
  }

  /** Whether the key is one of the six that turn the view. */
  predicate Recognised(key: int)
  {
    key == KeyUp || key == KeyDown || key == KeyLeft || key == KeyRight
    || key == KeyPageUp || key == KeyPageDown
  }

  /** The two wrapping tests applied to one angle: above 360 loses a turn,
      then below 0 gains one. The angle keeps its direction (it changes by a
      whole turn or not at all), anything at most one turn outside [0, 360]
      comes back into it, and an angle already inside is left alone. */
  function Normalize(a: real): (r: real)
    ensures r == a || r == a - 360.0 || r == a + 360.0
    ensures -360.0 <= a <= 720.0 ==> InRange(r)
    ensures InRange(a) ==> r == a
  {
    var b := if a > 360.0 then a - 360.0 else a;
    if b < 0.0 then b + 360.0 else b
  }

  /** The key tests of `specialKeys`, before wrapping: up and down turn x,
      left and right turn y, page up and page down turn z. At most one angle
      moves, by no more than one nudge, and any other key moves none. */
  function Turn(v: Angles, key: int): (r: Angles)
    ensures (r.y == v.y && r.z == v.z) || (r.x == v.x && r.z == v.z) || (r.x == v.x && r.y == v.y)
    ensures v.x - Nudge <= r.x <= v.x + Nudge
    ensures v.y - Nudge <= r.y <= v.y + Nudge
    ensures v.z - Nudge <= r.z <= v.z + Nudge
    ensures !Recognised(key) ==> r == v
  {
    var x := if key == KeyUp then v.x - Nudge else v.x;
    var x := if key == KeyDown then x + Nudge else x;
    var y := if key == KeyLeft then v.y - Nudge else v.y;
    var y := if key == KeyRight then y + Nudge else y;
    var z := if key == KeyPageUp then v.z + Nudge else v.z;
    var z := if key == KeyPageDown then z - Nudge else z;
    Angles(x, y, z)
  }

  /** One call of `specialKeys`: turn, then wrap every angle. From a valid
      state the result is valid again. */
  function Step(v: Angles, key: int): (r: Angles)
    ensures Valid(v) ==> Valid(r)
  {
    var u := Turn(v, key);
    Angles(Normalize(u.x), Normalize(u.y), Normalize(u.z))
  }

  /** Each of the six keys moves exactly one angle by 5 degrees, which is
      then wrapped; the other two angles stay as they were. */
  lemma StepTurnsOneAngle(v: Angles, key: int)
    requires Valid(v)
    ensures key == KeyUp ==> Step(v, key) == v.(x := Normalize(v.x - 5.0))
    ensures key == KeyDown ==> Step(v, key) == v.(x := Normalize(v.x + 5.0))
    ensures key == KeyLeft ==> Step(v, key) == v.(y := Normalize(v.y - 5.0))
    ensures key == KeyRight ==> Step(v, key) == v.(y := Normalize(v.y + 5.0))
    ensures key == KeyPageUp ==> Step(v, key) == v.(z := Normalize(v.z + 5.0))
    ensures key == KeyPageDown ==> Step(v, key) == v.(z := Normalize(v.z - 5.0))
  {
  }

  /** Any other key changes nothing in a valid state. */
  lemma StepIgnoresOtherKeys(v: Angles, key: int)
    requires Valid(v) && !Recognised(key)
    ensures Step(v, key) == v
  {
  }

  /** The state after a sequence of key presses. */
  function Run(v: Angles, keys: seq<int>): Angles
    decreases |keys|
  {
    if |keys| == 0 then v else Run(Step(v, keys[0]), keys[1..])
  }

  /** Whatever keys are pressed, starting from the initial angles, all three
      stay in [0, 360]. */
  lemma {:induction false} RunStaysValid(v: Angles, keys: seq<int>)
    requires Valid(v)
    ensures Valid(Run(v, keys))
    decreases |keys|
  {
    if |keys| > 0 {
      RunStaysValid(Step(v, keys[0]), keys[1..]);
    }
  }

  /** The static globals `xRot`, `yRot` and `zRot`. */
  class RotationState {
    var xRot: real
    var yRot: real
    var zRot: real

    function View(): Angles
      reads this
    {
      Angles(xRot, yRot, zRot)
    }

    /** The angles' initial values. */
    constructor ()
      ensures View() == Initial()
    {
      xRot, yRot, zRot := 20.0, 30.0, 0.0;
    }

    /** `specialKeys(key, x, y)`: the mouse position x, y is not used. The new
        angles are one `Step` from the old ones, so a valid state stays valid. */
    method SpecialKeys(key: int, x: int, y: int)
      modifies this
      ensures View() == Step(old(View()), key)
      ensures Valid(old(View())) ==> Valid(View())
    {
      TurnByKey(key);
      NormalizeAngles();
    }

    /** The key tests at the top of `specialKeys`. */
    method TurnByKey(key: int)
      modifies this
      ensures View() == Turn(old(View()), key)
    {
      if key == KeyUp {
        xRot := xRot - Nudge;
      }
      if key == KeyDown {
        xRot := xRot + Nudge;
      }
      if key == KeyLeft {
        yRot := yRot - Nudge;
      }
      if key == KeyRight {
        yRot := yRot + Nudge;
      }
      if key == KeyPageUp {
        zRot := zRot + Nudge;
      }
      if key == KeyPageDown {
        zRot := zRot - Nudge;
      }
    }

    /** The "normalize angles" block of `specialKeys`: each angle in turn
        loses a full turn above 360, then gains one below 0. */
    method NormalizeAngles()
      modifies this
      ensures View() == Angles(Normalize(old(xRot)), Normalize(old(yRot)), Normalize(old(zRot)))
    {
      if xRot > 360.0 {
        xRot := xRot - 360.0;
      }
      if xRot < 0.0 {
        xRot := xRot + 360.0;
      }
      if yRot > 360.0 {
        yRot := yRot - 360.0;
      }
      if yRot < 0.0 {
        yRot := yRot + 360.0;
      }
      if zRot > 360.0 {
        zRot := zRot - 360.0;
      }
      if zRot < 0.0 {
        zRot := zRot + 360.0;
      }
    }
  }
}
