/** The transform `calculateTransform(x, y)` composes for the main container
    from a normalised pointer offset (x, y): a perspective, a rotation about
    the X axis, a rotation about the Z axis and a translation along Z, in
    that order. Numbers are exact reals here; the script computes them in
    double precision and formats them into CSS text. */
module Parallax {

  /** The script's scale constant `unit`. */
  const UNIT: real := 1.7

  /** The four chained operations: distances in vmin, angles in degrees. */
  datatype Transform = Transform(perspective: real, rotateX: real, rotateZ: real, translateZ: real)

  /** The pointer offset that a transform was computed from: the inverse of
      the two rotation formulas. */
  function PointerOf(t: Transform): (real, real)
  {
    ((35.0 - t.rotateZ) / 12.0, (t.rotateX - 66.0) / 4.0)
  }

  /** The transform for pointer offset (x, y). Its distances do not depend on
      the pointer, and the pointer can be read back from its rotations. */
  function CalculateTransform(x: real, y: real): (t: Transform)
    ensures t.perspective == 680.0 && t.translateZ == -23.8
    ensures PointerOf(t) == (x, y)
  {
    Transform(400.0 * UNIT, y * 4.0 + 66.0, -x * 12.0 + 35.0, -14.0 * UNIT)
  }

  /** The pointer at the centre of the viewport gives the resting pose. */
  lemma RestingPose()
    ensures CalculateTransform(0.0, 0.0) == Transform(680.0, 66.0, 35.0, -23.8)
  {
  }

  /** Half a viewport right and half a viewport up from the centre. */
  lemma RightEdgeTopEdge()
    ensures CalculateTransform(0.5, -0.5).rotateX == 64.0
    ensures CalculateTransform(0.5, -0.5).rotateZ == 29.0
  {
  }

  /** Tilt follows the pointer: the X rotation grows with y and the Z rotation
      shrinks as x grows, each depending on its own coordinate only. */
  lemma RotationsFollowPointer(x1: real, y1: real, x2: real, y2: real)
    ensures y1 < y2 <==> CalculateTransform(x1, y1).rotateX < CalculateTransform(x2, y2).rotateX
    ensures x1 < x2 <==> CalculateTransform(x1, y1).rotateZ > CalculateTransform(x2, y2).rotateZ
  {
  }

  /** Distinct pointer offsets give distinct transforms. */
  lemma CalculateTransformInjective(x1: real, y1: real, x2: real, y2: real)
    requires CalculateTransform(x1, y1) == CalculateTransform(x2, y2)
    ensures x1 == x2 && y1 == y2
  {
    assert PointerOf(CalculateTransform(x1, y1)) == PointerOf(CalculateTransform(x2, y2));
  }
}
