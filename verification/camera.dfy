/**
 * The camera frame of GLCamera: an eye position, three basis directions
 * (view, up, right) and a zoom factor.
 *
 * The incremental rotations take the cosine and sine of the rotation angle as
 * plain reals `c` and `s`; the view matrix and the Euler angles that every
 * operation recomputes afterwards are outside this model.
 */
module Cameras {
  import opened Vectors

  datatype Camera = Camera(position: Vec3, view: Vec3, up: Vec3, right: Vec3, zoom: real)

  /** The three basis directions are unit length and pairwise orthogonal. */
  predicate Orthonormal(cam: Camera) {
    LengthSq(cam.view) == 1.0 && LengthSq(cam.up) == 1.0 && LengthSq(cam.right) == 1.0 &&
    Dot(cam.view, cam.up) == 0.0 && Dot(cam.view, cam.right) == 0.0 && Dot(cam.up, cam.right) == 0.0
  }

  /** The orientation the rotations keep: view x right points opposite to up. */
  predicate Handed(cam: Camera) {
    Cross(cam.view, cam.right) == Neg(cam.up)
  }

  /** The camera basis rotated by an angle with cosine `c` and sine `s`. */
  predicate IsCosSin(c: real, s: real) {
    Mul(c, c) + Mul(s, s) == 1.0
  }

  /** GLCamera::resetAll: the standard OpenGL frame, looking down -z with y up, zoom 1. */
  function Reset(cam: Camera): (r: Camera)
    ensures r.position == Zero && r.zoom == 1.0
    ensures r.view == Vec3(0.0, 0.0, -1.0) && r.up == Vec3(0.0, 1.0, 0.0) && r.right == Vec3(1.0, 0.0, 0.0)
  {
    Camera(Zero, Vec3(0.0, 0.0, -1.0), Vec3(0.0, 1.0, 0.0), Vec3(1.0, 0.0, 0.0), 1.0)
  }

  /** The reset frame is orthonormal and has the orientation the rotations keep. */
  lemma ResetFrame(cam: Camera)
    ensures Orthonormal(Reset(cam)) && Handed(Reset(cam))
  {
  }

  /** Resetting ignores the previous state, so resetting twice is resetting once. */
  lemma ResetIdempotent(cam: Camera, other: Camera)
    ensures Reset(cam) == Reset(other)
    ensures Reset(Reset(cam)) == Reset(cam)
  {
  }

  /**
   * The rotation counter of rotateX/Y/Z: the angle is added, and a sum outside
   * [-360, 360] is reset to zero.
   */
  function WrapCounter(counter: real, angle: real): (r: real)
    ensures -360.0 <= r <= 360.0
    ensures -360.0 <= counter + angle <= 360.0 ==> r == counter + angle
    ensures !(-360.0 <= counter + angle <= 360.0) ==> r == 0.0
  {
    var sum := counter + angle;
    if sum > 360.0 || sum < -360.0 then 0.0 else sum
  }

  /** Adding a zero angle to a wrapped counter changes nothing. */
  lemma WrapCounterStable(counter: real, angle: real)
    ensures WrapCounter(WrapCounter(counter, angle), 0.0) == WrapCounter(counter, angle)
  {
  }

  /**
   * GLCamera::rotateX (pitch): view turns towards up around the right vector,
   * then up is re-derived from view and right.
   */
  function RotateX(cam: Camera, c: real, s: real, sqrt: real -> real): (r: Camera)
    requires IsSqrt(sqrt)
    ensures r.position == cam.position && r.right == cam.right && r.zoom == cam.zoom
    ensures Dot(r.up, r.view) == 0.0 && Dot(r.up, r.right) == 0.0
    ensures Handed(r)
    ensures Orthonormal(cam) && Handed(cam) && IsCosSin(c, s) ==>
      Orthonormal(r) &&
      r.view == Add(Scale(cam.view, c), Scale(cam.up, s)) &&
      r.up == Sub(Scale(cam.up, c), Scale(cam.view, s))
  {
    var view := Normalized(Add(Scale(cam.view, c), Scale(cam.up, s)), sqrt);
    var up := Neg(Cross(view, cam.right));
    var r := cam.(view := view, up := up);
    NegCrossOrthogonal(view, cam.right);
    assert Orthonormal(cam) && Handed(cam) && IsCosSin(c, s) ==>
      Orthonormal(r) && view == Add(Scale(cam.view, c), Scale(cam.up, s)) &&
      up == Sub(Scale(cam.up, c), Scale(cam.view, s)) by {
      if Orthonormal(cam) && Handed(cam) && IsCosSin(c, s) {
        RotateXExact(cam, c, s, sqrt);
      }
    }
    r
  }

  lemma RotateXExact(cam: Camera, c: real, s: real, sqrt: real -> real)
    requires IsSqrt(sqrt) && Orthonormal(cam) && Handed(cam) && IsCosSin(c, s)
    ensures Normalized(Add(Scale(cam.view, c), Scale(cam.up, s)), sqrt) == Add(Scale(cam.view, c), Scale(cam.up, s))
    ensures Neg(Cross(Add(Scale(cam.view, c), Scale(cam.up, s)), cam.right)) == Sub(Scale(cam.up, c), Scale(cam.view, s))
    ensures Orthonormal(cam.(view := Add(Scale(cam.view, c), Scale(cam.up, s)), up := Sub(Scale(cam.up, c), Scale(cam.view, s))))
  {
    BasisCrosses(cam);
    PlaneRotationUnit(cam.view, cam.up, c, s);
    CrossLinearLeft(cam.view, cam.up, cam.right, c, s);
    NegCombination(cam.up, cam.view, c, s);
    PlaneRotationOrthonormal(cam.view, cam.up, cam.right, c, s);
  }

  /**
   * GLCamera::rotateY (yaw): view turns away from right around the up vector,
   * then right is re-derived from view and up.
   */
  function RotateY(cam: Camera, c: real, s: real, sqrt: real -> real): (r: Camera)
    requires IsSqrt(sqrt)
    ensures r.position == cam.position && r.up == cam.up && r.zoom == cam.zoom
    ensures Dot(r.right, r.view) == 0.0 && Dot(r.right, r.up) == 0.0
    ensures Orthonormal(cam) && Handed(cam) && IsCosSin(c, s) ==>
      Orthonormal(r) && Handed(r) &&
      r.view == Sub(Scale(cam.view, c), Scale(cam.right, s)) &&
      r.right == Add(Scale(cam.right, c), Scale(cam.view, s))
  {
    var view := Normalized(Sub(Scale(cam.view, c), Scale(cam.right, s)), sqrt);
    var right := Cross(view, cam.up);
    var r := cam.(view := view, right := right);
    CrossOrthogonal(view, cam.up);
    assert Orthonormal(cam) && Handed(cam) && IsCosSin(c, s) ==>
      Orthonormal(r) && Handed(r) && view == Sub(Scale(cam.view, c), Scale(cam.right, s)) &&
      right == Add(Scale(cam.right, c), Scale(cam.view, s)) by {
      if Orthonormal(cam) && Handed(cam) && IsCosSin(c, s) {
        RotateYExact(cam, c, s, sqrt);
      }
    }
    r
  }

  lemma RotateYExact(cam: Camera, c: real, s: real, sqrt: real -> real)
    requires IsSqrt(sqrt) && Orthonormal(cam) && Handed(cam) && IsCosSin(c, s)
    ensures Normalized(Sub(Scale(cam.view, c), Scale(cam.right, s)), sqrt) == Sub(Scale(cam.view, c), Scale(cam.right, s))
    ensures Cross(Sub(Scale(cam.view, c), Scale(cam.right, s)), cam.up) == Add(Scale(cam.right, c), Scale(cam.view, s))
    ensures var r := cam.(view := Sub(Scale(cam.view, c), Scale(cam.right, s)), right := Add(Scale(cam.right, c), Scale(cam.view, s)));
      Orthonormal(r) && Handed(r)
  {
    var view := Sub(Scale(cam.view, c), Scale(cam.right, s));
    var right := Add(Scale(cam.right, c), Scale(cam.view, s));
    BasisCrosses(cam);
    assert view == Add(Scale(cam.view, c), Scale(cam.right, -s));
    PlaneRotationUnit(cam.view, cam.right, c, -s);
    CrossLinearLeft(cam.view, cam.right, cam.up, c, -s);
    ScaleNegNeg(cam.view, s);
    var r := cam.(view := view, right := right);
    PlaneRotationOrthonormal(cam.view, cam.right, cam.up, c, -s);
    assert right == Sub(Scale(cam.right, c), Scale(cam.view, -s));
    DotSymmetric(cam.up, cam.right);
    DotSymmetric(cam.up, cam.view);
    DotSymmetric(view, right);
    HandedFromCross(r);
  }

  /**
   * GLCamera::rotateZ (roll): right turns towards up around the view vector,
   * then up is re-derived from view and right.
   */
  function RotateZ(cam: Camera, c: real, s: real, sqrt: real -> real): (r: Camera)
    requires IsSqrt(sqrt)
    ensures r.position == cam.position && r.view == cam.view && r.zoom == cam.zoom
    ensures Dot(r.up, r.view) == 0.0 && Dot(r.up, r.right) == 0.0
    ensures Handed(r)
    ensures Orthonormal(cam) && Handed(cam) && IsCosSin(c, s) ==>
      Orthonormal(r) &&
      r.right == Add(Scale(cam.right, c), Scale(cam.up, s)) &&
      r.up == Sub(Scale(cam.up, c), Scale(cam.right, s))
  {
    var right := Normalized(Add(Scale(cam.right, c), Scale(cam.up, s)), sqrt);
    var up := Neg(Cross(cam.view, right));
    var r := cam.(right := right, up := up);
    NegCrossOrthogonal(cam.view, right);
    assert Orthonormal(cam) && Handed(cam) && IsCosSin(c, s) ==>
      Orthonormal(r) && right == Add(Scale(cam.right, c), Scale(cam.up, s)) &&
      up == Sub(Scale(cam.up, c), Scale(cam.right, s)) by {
      if Orthonormal(cam) && Handed(cam) && IsCosSin(c, s) {
        RotateZExact(cam, c, s, sqrt);
      }
    }
    r
  }

  lemma RotateZExact(cam: Camera, c: real, s: real, sqrt: real -> real)
    requires IsSqrt(sqrt) && Orthonormal(cam) && Handed(cam) && IsCosSin(c, s)
    ensures Normalized(Add(Scale(cam.right, c), Scale(cam.up, s)), sqrt) == Add(Scale(cam.right, c), Scale(cam.up, s))
    ensures Neg(Cross(cam.view, Add(Scale(cam.right, c), Scale(cam.up, s)))) == Sub(Scale(cam.up, c), Scale(cam.right, s))
    ensures Orthonormal(cam.(right := Add(Scale(cam.right, c), Scale(cam.up, s)), up := Sub(Scale(cam.up, c), Scale(cam.right, s))))
  {
    BasisCrosses(cam);
    PlaneRotationUnit(cam.right, cam.up, c, s);
    CrossLinearRight(cam.view, cam.right, cam.up, c, s);
    NegCombination(cam.up, cam.right, c, s);
    PlaneRotationOrthonormal(cam.right, cam.up, cam.view, c, s);
    DotSymmetric(cam.view, cam.right);
    DotSymmetric(cam.view, cam.up);
  }

  /** GLCamera::move: a translation by a world-space offset. */
  function Move(cam: Camera, delta: Vec3): (r: Camera)
    ensures r.view == cam.view && r.up == cam.up && r.right == cam.right && r.zoom == cam.zoom
    ensures Sub(r.position, cam.position) == delta
  {
    cam.(position := Add(cam.position, delta))
  }

  /** GLCamera::moveForward: a positive distance moves against the view direction. */
  function MoveForward(cam: Camera, dist: real): (r: Camera)
    ensures r.view == cam.view && r.up == cam.up && r.right == cam.right && r.zoom == cam.zoom
    ensures Sub(r.position, cam.position) == Scale(cam.view, -dist)
    ensures Orthonormal(cam) ==> DistanceSq(r.position, cam.position) == Mul(dist, dist)
  {
    var r := Move(cam, Scale(cam.view, -dist));
    LengthSqScale(cam.view, -dist);
    assert Mul(-dist, -dist) == Mul(dist, dist);
    r
  }

  /** GLCamera::moveUpward: a translation along the up vector. */
  function MoveUpward(cam: Camera, dist: real): (r: Camera)
    ensures r.view == cam.view && r.up == cam.up && r.right == cam.right && r.zoom == cam.zoom
    ensures Sub(r.position, cam.position) == Scale(cam.up, dist)
    ensures Orthonormal(cam) ==> DistanceSq(r.position, cam.position) == Mul(dist, dist)
  {
    LengthSqScale(cam.up, dist);
    Move(cam, Scale(cam.up, dist))
  }

  /** GLCamera::moveAcross: a translation along the right vector. */
  function MoveAcross(cam: Camera, dist: real): (r: Camera)
    ensures r.view == cam.view && r.up == cam.up && r.right == cam.right && r.zoom == cam.zoom
    ensures Sub(r.position, cam.position) == Scale(cam.right, dist)
    ensures Orthonormal(cam) ==> DistanceSq(r.position, cam.position) == Mul(dist, dist)
  {
    LengthSqScale(cam.right, dist);
    Move(cam, Scale(cam.right, dist))
  }

  /** Moving by an offset and then by its negation returns to the start. */
  lemma MoveInverse(cam: Camera, delta: Vec3)
    ensures Move(Move(cam, delta), Neg(delta)) == cam
  {
  }

  /** Two forward moves add up, and moving back by the same distance undoes one. */
  lemma MoveForwardCompose(cam: Camera, a: real, b: real)
    ensures MoveForward(MoveForward(cam, a), b) == MoveForward(cam, a + b)
    ensures MoveForward(MoveForward(cam, a), -a) == cam
  {
    var v := cam.view;
    assert Mul(v.x, -a) + Mul(v.x, -b) == Mul(v.x, -(a + b));
    assert Mul(v.y, -a) + Mul(v.y, -b) == Mul(v.y, -(a + b));
    assert Mul(v.z, -a) + Mul(v.z, -b) == Mul(v.z, -(a + b));
    assert Mul(v.x, -a) + Mul(v.x, a) == 0.0;
    assert Mul(v.y, -a) + Mul(v.y, a) == 0.0;
    assert Mul(v.z, -a) + Mul(v.z, a) == 0.0;
  }

  /** Sideways and vertical moves commute, since each only adds to the position. */
  lemma MovesCommute(cam: Camera, across: real, upward: real)
    ensures MoveAcross(MoveUpward(cam, upward), across) == MoveUpward(MoveAcross(cam, across), upward)
  {
  }

  /** GLCamera::setZoom: only the zoom factor changes. */
  function SetZoom(cam: Camera, factor: real): (r: Camera)
    ensures r.zoom == factor
    ensures r.position == cam.position && r.view == cam.view && r.up == cam.up && r.right == cam.right
    ensures Orthonormal(r) == Orthonormal(cam) && Handed(r) == Handed(cam)
  {
    cam.(zoom := factor)
  }

  /** GLCamera::setView(pos, view, up, right): the four vectors are stored as given. */
  function SetFrame(cam: Camera, position: Vec3, view: Vec3, up: Vec3, right: Vec3): (r: Camera)
    ensures r.position == position && r.view == view && r.up == up && r.right == right
    ensures r.zoom == cam.zoom
  {
    Camera(position, view, up, right, cam.zoom)
  }

  /** Setting the frame a camera already has is a no-op. */
  lemma SetFrameOwn(cam: Camera)
    ensures SetFrame(cam, cam.position, cam.view, cam.up, cam.right) == cam
  {
  }

  // ---------------------------------------------------------------------------
  // Frame algebra used by the rotation proofs

  /** The negated cross product is orthogonal to both factors. */
  lemma NegCrossOrthogonal(a: Vec3, b: Vec3)
    ensures Dot(Neg(Cross(a, b)), a) == 0.0 && Dot(Neg(Cross(a, b)), b) == 0.0
  {
    CrossOrthogonal(a, b);
    DotNeg(Cross(a, b), a);
    DotNeg(Cross(a, b), b);
  }

  /** In an orthonormal, handed frame each basis vector is the cross product of the other two. */
  lemma BasisCrosses(cam: Camera)
    requires Orthonormal(cam) && Handed(cam)
    ensures Cross(cam.view, cam.right) == Neg(cam.up)
    ensures Cross(cam.view, cam.up) == cam.right
    ensures Cross(cam.up, cam.right) == cam.view
    ensures Cross(cam.right, cam.up) == Neg(cam.view)
    ensures Cross(cam.right, cam.view) == cam.up
    ensures Cross(cam.up, cam.view) == Neg(cam.right)
  {
    var v, u, rt := cam.view, cam.up, cam.right;
    assert u == Neg(Cross(v, rt));
    DotSymmetric(v, rt);
    DoubleCrossUnit(v, rt);
    CrossNeg(v, Cross(v, rt));
    DoubleCrossUnitLeft(v, rt);
    CrossNeg(Cross(v, rt), rt);
    CrossAntisymmetric(u, rt);
    CrossAntisymmetric(v, rt);
    CrossAntisymmetric(v, u);
  }

  /**
   * Rotating inside the plane of two orthonormal vectors a, b with a cosine
   * and sine pair keeps unit length.
   */
  lemma PlaneRotationUnit(a: Vec3, b: Vec3, c: real, s: real)
    requires LengthSq(a) == 1.0 && LengthSq(b) == 1.0 && Dot(a, b) == 0.0 && IsCosSin(c, s)
    ensures LengthSq(Add(Scale(a, c), Scale(b, s))) == 1.0
  {
    var w := Add(Scale(a, c), Scale(b, s));
    DotLinear(a, b, w, c, s);
    DotSymmetric(a, w);
    DotSymmetric(b, w);
    DotLinear(a, b, a, c, s);
    DotLinear(a, b, b, c, s);
    DotSymmetric(a, b);
  }

  /** The rotated pair (c a + s b, c b - s a) stays orthogonal. */
  lemma PlaneRotationOrthogonal(a: Vec3, b: Vec3, c: real, s: real)
    requires LengthSq(a) == 1.0 && LengthSq(b) == 1.0 && Dot(a, b) == 0.0
    ensures Dot(Add(Scale(a, c), Scale(b, s)), Sub(Scale(b, c), Scale(a, s))) == 0.0
  {
    var b2 := Sub(Scale(b, c), Scale(a, s));
    assert b2 == Add(Scale(a, -s), Scale(b, c));
    DotLinear(a, b, b2, c, s);
    DotSymmetric(a, b2);
    DotSymmetric(b, b2);
    DotLinear(a, b, a, -s, c);
    DotLinear(a, b, b, -s, c);
    DotSymmetric(a, b);
    MulNegRight(c, s);
    MulComm(c, s);
  }

  /** Both rotated vectors stay orthogonal to a vector w orthogonal to a and b. */
  lemma PlaneRotationPerpendicular(a: Vec3, b: Vec3, w: Vec3, c: real, s: real)
    requires Dot(a, w) == 0.0 && Dot(b, w) == 0.0
    ensures Dot(Add(Scale(a, c), Scale(b, s)), w) == 0.0 && Dot(Sub(Scale(b, c), Scale(a, s)), w) == 0.0
  {
    assert Sub(Scale(b, c), Scale(a, s)) == Add(Scale(a, -s), Scale(b, c));
    DotLinear(a, b, w, c, s);
    DotLinear(a, b, w, -s, c);
    MulZero(c);
    MulZero(s);
    MulZero(-s);
  }

  /**
   * The pair (c a + s b, c b - s a) is again orthonormal, and both stay
   * orthogonal to a vector w orthogonal to a and b.
   */
  lemma PlaneRotationOrthonormal(a: Vec3, b: Vec3, w: Vec3, c: real, s: real)
    requires LengthSq(a) == 1.0 && LengthSq(b) == 1.0 && Dot(a, b) == 0.0 && IsCosSin(c, s)
    requires Dot(a, w) == 0.0 && Dot(b, w) == 0.0
    ensures var a2 := Add(Scale(a, c), Scale(b, s)); var b2 := Sub(Scale(b, c), Scale(a, s));
      LengthSq(a2) == 1.0 && LengthSq(b2) == 1.0 && Dot(a2, b2) == 0.0 && Dot(b2, a2) == 0.0 &&
      Dot(a2, w) == 0.0 && Dot(b2, w) == 0.0 && Dot(w, a2) == 0.0 && Dot(w, b2) == 0.0
  {
    var a2 := Add(Scale(a, c), Scale(b, s));
    var b2 := Sub(Scale(b, c), Scale(a, s));
    PlaneRotationUnit(a, b, c, s);
    assert b2 == Add(Scale(a, -s), Scale(b, c));
    assert IsCosSin(-s, c) by { MulNegLeft(s, -s); MulNegRight(s, s); }
    PlaneRotationUnit(a, b, -s, c);
    PlaneRotationOrthogonal(a, b, c, s);
    PlaneRotationPerpendicular(a, b, w, c, s);
    DotSymmetric(a2, b2);
    DotSymmetric(a2, w);
    DotSymmetric(b2, w);
  }

  /** Orthonormal with right = view x up implies the handed orientation. */
  lemma HandedFromCross(cam: Camera)
    requires Orthonormal(cam) && cam.right == Cross(cam.view, cam.up)
    ensures Handed(cam)
  {
    var v, u := cam.view, cam.up;
    DoubleCross(v, v, u);
    DotSymmetric(v, u);
  }

  /**
   * Rotating the pair (a, b) in its plane by (c, s) and then by (c, -s)
   * gives back the pair.
   */
  lemma PlaneRotationInverse(a: Vec3, b: Vec3, c: real, s: real)
    requires IsCosSin(c, s)
    ensures var a2 := Add(Scale(a, c), Scale(b, s)); var b2 := Sub(Scale(b, c), Scale(a, s));
      Add(Scale(a2, c), Scale(b2, -s)) == a && Sub(Scale(b2, c), Scale(a2, -s)) == b
  {
    var a2 := Add(Scale(a, c), Scale(b, s));
    var b2 := Sub(Scale(b, c), Scale(a, s));
    var a3 := Add(Scale(a2, c), Scale(b2, -s));
    var b3 := Sub(Scale(b2, c), Scale(a2, -s));
    PlaneRotationInverseComp(a.x, b.x, c, s);
    PlaneRotationInverseComp(a.y, b.y, c, s);
    PlaneRotationInverseComp(a.z, b.z, c, s);
    assert a3.x == a.x && a3.y == a.y && a3.z == a.z;
    assert b3.x == b.x && b3.y == b.y && b3.z == b.z;
  }

  lemma PlaneRotationInverseComp(a: real, b: real, c: real, s: real)
    requires Mul(c, c) + Mul(s, s) == 1.0
    ensures Mul(Mul(a, c) + Mul(b, s), c) + Mul(Mul(b, c) - Mul(a, s), -s) == a
    ensures Mul(Mul(b, c) - Mul(a, s), c) - Mul(Mul(a, c) + Mul(b, s), -s) == b
  {
    PlaneRotationInverseExpand(a, b, c, s);
    PlaneRotationInverseExpand(b, -a, c, s);
    MulNegLeft(a, Mul(c, c) + Mul(s, s));
  }

  /** The polynomial identity behind PlaneRotationInverseComp. */
  lemma PlaneRotationInverseExpand(a: real, b: real, c: real, s: real)
    ensures Mul(Mul(a, c) + Mul(b, s), c) + Mul(Mul(b, c) - Mul(a, s), -s) == Mul(a, Mul(c, c) + Mul(s, s))
  {
  }

  /** Pitching by an angle and then by its negation restores an orthonormal, handed camera. */
  lemma RotateXInverse(cam: Camera, c: real, s: real, sqrt: real -> real)
    requires IsSqrt(sqrt) && Orthonormal(cam) && Handed(cam) && IsCosSin(c, s)
    ensures RotateX(RotateX(cam, c, s, sqrt), c, -s, sqrt) == cam
  {
    assert IsCosSin(c, -s) by { MulNegLeft(s, -s); MulNegRight(s, s); }
    PlaneRotationInverse(cam.view, cam.up, c, s);
  }

  /** Yawing by an angle and then by its negation restores an orthonormal, handed camera. */
  lemma RotateYInverse(cam: Camera, c: real, s: real, sqrt: real -> real)
    requires IsSqrt(sqrt) && Orthonormal(cam) && Handed(cam) && IsCosSin(c, s)
    ensures RotateY(RotateY(cam, c, s, sqrt), c, -s, sqrt) == cam
  {
    assert IsCosSin(c, -s) by { MulNegLeft(s, -s); MulNegRight(s, s); }
    PlaneRotationInverse(cam.right, cam.view, c, s);
  }

  /** Rolling by an angle and then by its negation restores an orthonormal, handed camera. */
  lemma RotateZInverse(cam: Camera, c: real, s: real, sqrt: real -> real)
    requires IsSqrt(sqrt) && Orthonormal(cam) && Handed(cam) && IsCosSin(c, s)
    ensures RotateZ(RotateZ(cam, c, s, sqrt), c, -s, sqrt) == cam
  {
    assert IsCosSin(c, -s) by { MulNegLeft(s, -s); MulNegRight(s, s); }
    PlaneRotationInverse(cam.right, cam.up, c, s);
  }
}
