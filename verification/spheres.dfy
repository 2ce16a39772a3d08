/**
 * BoundingSphere: a centre and a radius, with the merge operation addSphere.
 * The merge as written is not a bounding operation in every case; the
 * enclosing merge it evidently aims for is defined beside it.
 */
module Spheres {
  import opened Vectors

  datatype Sphere = Sphere(center: Vec3, radius: real)

  /** A point lies in a sphere when its distance to the centre is at most a non-negative radius. */
  predicate Inside(p: Vec3, s: Sphere) {
    0.0 <= s.radius && DistanceSq(p, s.center) <= Mul(s.radius, s.radius)
  }

  /** The constructor; its defaults are the origin and a radius of one. */
  function NewSphere(cx: real, cy: real, cz: real, rad: real): (s: Sphere)
    ensures s.center.x == cx && s.center.y == cy && s.center.z == cz && s.radius == rad
  {
    Sphere(Vec3(cx, cy, cz), rad)
  }

  /** The default-constructed sphere is the unit sphere about the origin. */
  lemma DefaultSphere()
    ensures NewSphere(0.0, 0.0, 0.0, 1.0) == Sphere(Zero, 1.0)
    ensures Inside(Zero, NewSphere(0.0, 0.0, 0.0, 1.0))
  {
  }

  function SetRadius(s: Sphere, rad: real): (r: Sphere)
    ensures r.radius == rad && r.center == s.center
  {
    s.(radius := rad)
  }

  /** setCenter(cx, cy, cz): the three coordinates are stored one by one. */
  function SetCenterXYZ(s: Sphere, cx: real, cy: real, cz: real): (r: Sphere)
    ensures r.center == Vec3(cx, cy, cz) && r.radius == s.radius
  {
    var c := s.center.(x := cx);
    var c := c.(y := cy);
    var c := c.(z := cz);
    s.(center := c)
  }

  /** setCenter(QVector3D). */
  function SetCenter(s: Sphere, cen: Vec3): (r: Sphere)
    ensures r.center == cen && r.radius == s.radius
  {
    s.(center := cen)
  }

  /**
   * Each setter touches only its own field: the two ways of setting the
   * centre agree, setting the centre and the radius commute, and setting
   * both rebuilds the sphere from scratch.
   */
  lemma SettersIndependent(s: Sphere, cen: Vec3, rad: real)
    ensures SetCenterXYZ(s, cen.x, cen.y, cen.z) == SetCenter(s, cen)
    ensures SetRadius(SetCenter(s, cen), rad) == SetCenter(SetRadius(s, rad), cen)
    ensures SetRadius(SetCenter(s, cen), rad) == NewSphere(cen.x, cen.y, cen.z, rad)
  {
  }

  // ---------------------------------------------------------------------------
  // addSphere as written

  /**
   * BoundingSphere::addSphere. An identical sphere changes nothing; when the
   * centres are closer than the smaller radius the larger sphere is kept;
   * otherwise the result spans from the far end of this sphere to the far
   * end of the other.
   */
  function AddSphere(s: Sphere, o: Sphere, sqrt: real -> real): (r: Sphere)
    requires IsSqrt(sqrt)
    ensures s.center == o.center && s.radius == o.radius ==> r == s
    ensures Nested(s, o, sqrt) ==> r == if s.radius <= o.radius then o else s
    ensures !Nested(s, o, sqrt) && !(s.center == o.center && s.radius == o.radius) ==> r == Span(s, o, sqrt)
  {
    if s.center == o.center && s.radius == o.radius then s
    else
      var smaller := if s.radius < o.radius then s.radius else o.radius;
      if Nested(s, o, sqrt) then
        if s.radius == smaller then o else s
      else
        Span(s, o, sqrt)
  }

  /**
   * The branch for spheres that are not nested: the diameter runs from the
   * far end of this sphere to the far end of the other. With coincident
   * centres both directions normalise to zero and the result is a point;
   * otherwise the radius is half of |d + r1 + r2| and the centre lies on
   * the centre line.
   */
  function Span(s: Sphere, o: Sphere, sqrt: real -> real): (r: Sphere)
    requires IsSqrt(sqrt)
    ensures s.center == o.center ==> r == Sphere(s.center, 0.0)
    ensures var d := Distance(s.center, o.center, sqrt);
      s.center != o.center ==>
        var u := Normalized(Sub(o.center, s.center), sqrt);
        var rad := Half(Abs(d + s.radius + o.radius));
        r.radius == rad && r.center == Add(s.center, Scale(u, rad - s.radius))
  {
    var toThisEnd := Normalized(Sub(s.center, o.center), sqrt);
    var toOtherEnd := Normalized(Sub(o.center, s.center), sqrt);
    var thisEndPoint := Add(s.center, Scale(toThisEnd, s.radius));
    var otherEndPoint := Add(o.center, Scale(toOtherEnd, o.radius));
    var radius := Half(Distance(thisEndPoint, otherEndPoint, sqrt));
    var r := Sphere(Add(thisEndPoint, Scale(toOtherEnd, radius)), radius);
    assert s.center == o.center ==> r == Sphere(s.center, 0.0) by {
      if s.center == o.center {
        SubSelf(s.center);
        EndPointsOfCoincident(s.center, Sub(s.center, o.center), Sub(o.center, s.center), s.radius, o.radius, sqrt);
      }
    }
    assert s.center != o.center ==>
        var u := Normalized(Sub(o.center, s.center), sqrt);
        var rad := Half(Abs(Distance(s.center, o.center, sqrt) + s.radius + o.radius));
        r.radius == rad && r.center == Add(s.center, Scale(u, rad - s.radius)) by {
      if s.center != o.center {
        EndPointsOfDistinct(s, o, sqrt);
      }
    }
    r
  }

  /** The test addSphere uses for one sphere lying inside the other: the centres are closer than the smaller radius. */
  predicate Nested(s: Sphere, o: Sphere, sqrt: real -> real)
    requires IsSqrt(sqrt)
  {
    Distance(s.center, o.center, sqrt) < (if s.radius < o.radius then s.radius else o.radius)
  }

  /** Halving, kept as a function so that the solver does not mix it with the root's arithmetic. */
  function Half(x: real): real {
    x / 2.0
  }

  /** With coincident centres both directions normalise to zero and the span collapses to a point. */
  lemma EndPointsOfCoincident(c: Vec3, a: Vec3, b: Vec3, r1: real, r2: real, sqrt: real -> real)
    requires IsSqrt(sqrt) && a == Zero && b == Zero
    ensures var toThisEnd := Normalized(a, sqrt);
      var toOtherEnd := Normalized(b, sqrt);
      var thisEndPoint := Add(c, Scale(toThisEnd, r1));
      var otherEndPoint := Add(c, Scale(toOtherEnd, r2));
      var radius := Half(Distance(thisEndPoint, otherEndPoint, sqrt));
      Sphere(Add(thisEndPoint, Scale(toOtherEnd, radius)), radius) == Sphere(c, 0.0)
  {
    NormalizedZero(sqrt);
    AddScaleZero(c, r1);
    AddScaleZero(c, r2);
    DistanceSelf(c, sqrt);
    AddScaleZero(c, 0.0);
  }

  lemma SubSelf(c: Vec3)
    ensures Sub(c, c) == Zero
  {
  }

  lemma NormalizedZero(sqrt: real -> real)
    requires IsSqrt(sqrt)
    ensures Normalized(Zero, sqrt) == Zero
  {
  }

  lemma AddScaleZero(c: Vec3, k: real)
    ensures Add(c, Scale(Zero, k)) == c
  {
  }

  lemma DistanceSelf(c: Vec3, sqrt: real -> real)
    requires IsSqrt(sqrt)
    ensures Distance(c, c, sqrt) == 0.0
  {
  }

  /**
   * With distinct centres the two far ends lie on the centre line at
   * -r1 and d + r2 from this centre, so the span has length |d + r1 + r2|.
   */
  lemma EndPointsOfDistinct(s: Sphere, o: Sphere, sqrt: real -> real)
    requires IsSqrt(sqrt) && s.center != o.center
    ensures var d := Distance(s.center, o.center, sqrt);
      var u := Normalized(Sub(o.center, s.center), sqrt);
      var toThisEnd := Normalized(Sub(s.center, o.center), sqrt);
      var thisEndPoint := Add(s.center, Scale(toThisEnd, s.radius));
      var otherEndPoint := Add(o.center, Scale(u, o.radius));
      var radius := Half(Distance(thisEndPoint, otherEndPoint, sqrt));
      var rad := Half(Abs(d + s.radius + o.radius));
      radius == rad && Add(thisEndPoint, Scale(u, radius)) == Add(s.center, Scale(u, rad - s.radius))
  {
    var d := Distance(s.center, o.center, sqrt);
    var u := Normalized(Sub(o.center, s.center), sqrt);
    DirectionOf(s.center, o.center, sqrt);
    SpanAlong(s.center, o.center, u, d, s.radius, o.radius, sqrt);
  }

  /** Distinct points are a positive squared length apart, in either order. */
  lemma NonZeroGaps(c1: Vec3, c2: Vec3)
    requires c1 != c2
    ensures 0.0 < LengthSq(Sub(c2, c1)) && 0.0 < LengthSq(Sub(c1, c2))
  {
    SubNonZero(c1, c2);
    SubNonZero(c2, c1);
    LengthSqZero(Sub(c2, c1));
    LengthSqZero(Sub(c1, c2));
  }

  /** The span of two far ends on a line through both centres, stated along the line. */
  lemma SpanAlong(c1: Vec3, c2: Vec3, u: Vec3, d: real, r1: real, r2: real, sqrt: real -> real)
    requires IsSqrt(sqrt) && LengthSq(u) == 1.0 && c2 == Add(c1, Scale(u, d))
    ensures var e1 := Add(c1, Scale(Neg(u), r1));
      var radius := Half(Distance(e1, Add(c2, Scale(u, r2)), sqrt));
      var rad := Half(Abs(d + r1 + r2));
      radius == rad && Add(e1, Scale(u, radius)) == Add(c1, Scale(u, rad - r1))
  {
    SpanOnLine(c1, c2, u, d, r1, r2, sqrt);
    ScaleNegDirection(u, r1);
    ShiftAlong(c1, u, -r1, Half(Abs(d + r1 + r2)));
  }

  /**
   * The unit direction from one centre to another, the distance along it,
   * and the opposite direction.
   */
  lemma DirectionOf(c1: Vec3, c2: Vec3, sqrt: real -> real)
    requires IsSqrt(sqrt) && c1 != c2
    ensures var u := Normalized(Sub(c2, c1), sqrt);
      && LengthSq(u) == 1.0
      && c2 == Add(c1, Scale(u, Distance(c1, c2, sqrt)))
      && Normalized(Sub(c1, c2), sqrt) == Neg(u)
    ensures 0.0 < LengthSq(Sub(c2, c1)) && 0.0 < LengthSq(Sub(c1, c2))
  {
    var a := Sub(c2, c1);
    NonZeroGaps(c1, c2);
    SubNonZero(c1, c2);
    DistanceIsLength(c1, c2, sqrt);
    NormalizedScale(a, sqrt);
    AddSub(c1, c2);
    SubSwap(c1, c2);
    NormalizedNeg(a, sqrt);
  }

  lemma SubNonZero(c1: Vec3, c2: Vec3)
    requires c1 != c2
    ensures Sub(c2, c1) != Zero
  {
  }

  lemma SubSwap(c1: Vec3, c2: Vec3)
    ensures Sub(c1, c2) == Neg(Sub(c2, c1))
  {
  }

  lemma DistanceIsLength(c1: Vec3, c2: Vec3, sqrt: real -> real)
    requires IsSqrt(sqrt)
    ensures Distance(c1, c2, sqrt) == Length(Sub(c2, c1), sqrt)
  {
    SubSwap(c1, c2);
    LengthNeg(Sub(c2, c1), sqrt);
  }

  lemma LengthNeg(a: Vec3, sqrt: real -> real)
    requires IsSqrt(sqrt)
    ensures Length(Neg(a), sqrt) == Length(a, sqrt)
  {
    SquareNeg(a);
  }

  lemma SquareNeg(a: Vec3)
    ensures LengthSq(Neg(a)) == LengthSq(a)
  {
    MulNegLeft(a.x, -a.x);
    MulNegRight(a.x, a.x);
    MulNegLeft(a.y, -a.y);
    MulNegRight(a.y, a.y);
    MulNegLeft(a.z, -a.z);
    MulNegRight(a.z, a.z);
  }

  lemma ScaleNegDirection(u: Vec3, r: real)
    ensures Scale(Neg(u), r) == Scale(u, -r)
  {
    MulNegLeft(u.x, r);
    MulNegLeft(u.y, r);
    MulNegLeft(u.z, r);
    MulNegRight(u.x, r);
    MulNegRight(u.y, r);
    MulNegRight(u.z, r);
  }

  lemma AddSub(c1: Vec3, c2: Vec3)
    ensures Add(c1, Sub(c2, c1)) == c2
  {
  }

  /** Far ends at -r1 and d + r2 along a unit direction are |d + r1 + r2| apart. */
  lemma SpanOnLine(c1: Vec3, c2: Vec3, u: Vec3, d: real, r1: real, r2: real, sqrt: real -> real)
    requires IsSqrt(sqrt) && LengthSq(u) == 1.0 && c2 == Add(c1, Scale(u, d))
    ensures Distance(Add(c1, Scale(Neg(u), r1)), Add(c2, Scale(u, r2)), sqrt) == Abs(d + r1 + r2)
  {
    var k := d + r1 + r2;
    LineOffsets(c1, u, d, r1, r2);
    LengthSqScale(u, -k);
    SqrtOfSquare(sqrt, -k);
  }

  /** Points at signed offsets along a line, and their difference. */
  lemma LineOffsets(c: Vec3, u: Vec3, d: real, r1: real, r2: real)
    ensures Sub(Add(c, Scale(u, -r1)), Add(Add(c, Scale(u, d)), Scale(u, r2))) == Scale(u, -(d + r1 + r2))
    ensures Scale(Neg(u), r1) == Scale(u, -r1)
  {
    MulNegRight(u.x, r1);
    MulNegRight(u.y, r1);
    MulNegRight(u.z, r1);
    MulNegLeft(u.x, r1);
    MulNegLeft(u.y, r1);
    MulNegLeft(u.z, r1);
    assert Mul(u.x, -(d + r1 + r2)) == -Mul(u.x, r1) - Mul(u.x, d) - Mul(u.x, r2);
    assert Mul(u.y, -(d + r1 + r2)) == -Mul(u.y, r1) - Mul(u.y, d) - Mul(u.y, r2);
    assert Mul(u.z, -(d + r1 + r2)) == -Mul(u.z, r1) - Mul(u.z, d) - Mul(u.z, r2);
  }

  lemma MulZeroLeft(a: real)
    ensures Mul(0.0, a) == 0.0
  {
  }

  /** Normalising a negated vector negates the normalised vector. */
  lemma NormalizedNeg(a: Vec3, sqrt: real -> real)
    requires IsSqrt(sqrt)
    ensures Normalized(Neg(a), sqrt) == Neg(Normalized(a, sqrt))
  {
    SquareNeg(a);
    var len := LengthSq(a);
    if len != 1.0 && len != 0.0 {
      var k := 1.0 / sqrt(len);
      MulNegLeft(a.x, k);
      MulNegLeft(a.y, k);
      MulNegLeft(a.z, k);
    }
  }

  /** A non-null vector is its length times its normalised direction. */
  lemma NormalizedScale(a: Vec3, sqrt: real -> real)
    requires IsSqrt(sqrt)
    ensures Scale(Normalized(a, sqrt), Length(a, sqrt)) == a
  {
    var len := LengthSq(a);
    LengthSqZero(a);
    if a == Zero {
      ScaleUnitZero(Zero);
    } else if len == 1.0 {
      assert Mul(1.0, 1.0) == 1.0;
      SqrtOfSquare(sqrt, 1.0);
      ScaleUnitZero(a);
    } else {
      var root := sqrt(len);
      NormalizedFacts(a, root);
      var k := 1.0 / root;
      assert Mul(k, root) == 1.0;
      assert Mul(Mul(a.x, k), root) == a.x;
      assert Mul(Mul(a.y, k), root) == a.y;
      assert Mul(Mul(a.z, k), root) == a.z;
    }
  }

  // ---------------------------------------------------------------------------
  // Where addSphere as written fails to enclose

  /**
   * A small sphere that lies inside this one but further from its centre
   * than its own radius is not caught by the nesting test; the span branch
   * then pulls the centre back and the far side of this sphere falls
   * outside the result. (0,0,0) radius 10 with (5,0,0) radius 1 is one case.
   */
  lemma AddSphereLosesOuterSphere(s: Sphere, o: Sphere, sqrt: real -> real)
    requires IsSqrt(sqrt) && s.center != o.center
    requires 0.0 <= o.radius <= Distance(s.center, o.center, sqrt)
    requires Distance(s.center, o.center, sqrt) + o.radius < s.radius
    ensures var u := Normalized(Sub(o.center, s.center), sqrt);
      var q := Add(s.center, Scale(u, s.radius));
      Inside(q, s) && !Inside(q, AddSphere(s, o, sqrt))
  {
    var d := Distance(s.center, o.center, sqrt);
    var u := Normalized(Sub(o.center, s.center), sqrt);
    DirectionOf(s.center, o.center, sqrt);
    EndPointsOfDistinct(s, o, sqrt);
    var rad := Half(Abs(d + s.radius + o.radius));
    OffsetGap(s.center, u, s.radius);
    SameLineGap(s.center, u, s.radius, rad - s.radius);
    assert s.radius - (rad - s.radius) > rad;
    SquareLess(rad, s.radius - (rad - s.radius));
  }

  /**
   * Two spheres of similar size whose centres are close count as nested:
   * the one with the smaller (or equal) radius is dropped although part of
   * it lies outside the other. (0,0,0) radius 5 with (4,0,0) radius 5 is one case.
   */
  lemma AddSphereLosesNestedSphere(s: Sphere, o: Sphere, sqrt: real -> real)
    requires IsSqrt(sqrt) && s.center != o.center
    requires Nested(s, o, sqrt) && s.radius <= o.radius
    requires o.radius < Distance(s.center, o.center, sqrt) + s.radius
    ensures var u := Normalized(Sub(o.center, s.center), sqrt);
      var q := Add(s.center, Scale(Neg(u), s.radius));
      Inside(q, s) && !Inside(q, AddSphere(s, o, sqrt))
  {
    var u := Normalized(Sub(o.center, s.center), sqrt);
    DirectionOf(s.center, o.center, sqrt);
    assert AddSphere(s, o, sqrt) == o;
    FarSideOutside(s, o, u, Distance(s.center, o.center, sqrt));
  }

  /**
   * The point of one sphere farthest from another centre on the centre line
   * lies outside the other sphere when that sphere does not reach it.
   */
  lemma FarSideOutside(s: Sphere, o: Sphere, u: Vec3, d: real)
    requires LengthSq(u) == 1.0 && 0.0 <= d && o.center == Add(s.center, Scale(u, d))
    requires 0.0 <= s.radius && o.radius < d + s.radius
    ensures var q := Add(s.center, Scale(Neg(u), s.radius));
      Inside(q, s) && !Inside(q, o)
  {
    ScaleNegDirection(u, s.radius);
    OffsetGap(s.center, u, -s.radius);
    SameLineGap(s.center, u, -s.radius, d);
    if 0.0 <= o.radius {
      SquareLess(o.radius, d + s.radius);
    }
    assert Mul(-s.radius - d, -s.radius - d) == Mul(d + s.radius, d + s.radius);
    assert Mul(-s.radius, -s.radius) == Mul(s.radius, s.radius);
  }

  /** The squared distance between two points on one line through c. */
  lemma SameLineGap(c: Vec3, u: Vec3, a: real, b: real)
    requires LengthSq(u) == 1.0
    ensures DistanceSq(Add(c, Scale(u, a)), Add(c, Scale(u, b))) == Mul(a - b, a - b)
  {
    assert Sub(Add(c, Scale(u, a)), Add(c, Scale(u, b))) == Scale(u, a - b) by {
      assert Mul(u.x, a) - Mul(u.x, b) == Mul(u.x, a - b);
      assert Mul(u.y, a) - Mul(u.y, b) == Mul(u.y, a - b);
      assert Mul(u.z, a) - Mul(u.z, b) == Mul(u.z, a - b);
    }
    LengthSqScale(u, a - b);
  }

  /** The squared distance from c of a point at offset t along a unit direction. */
  lemma OffsetGap(c: Vec3, u: Vec3, t: real)
    requires LengthSq(u) == 1.0
    ensures DistanceSq(Add(c, Scale(u, t)), c) == Mul(t, t)
  {
    assert Sub(Add(c, Scale(u, t)), c) == Scale(u, t);
    LengthSqScale(u, t);
  }

  // ---------------------------------------------------------------------------
  // The enclosing merge

  /** The first sphere contains the second by the triangle inequality. */
  predicate Covers(s: Sphere, o: Sphere, sqrt: real -> real)
    requires IsSqrt(sqrt)
  {
    Distance(s.center, o.center, sqrt) + o.radius <= s.radius
  }

  /**
   * The merge addSphere evidently aims for: a sphere that covers the other
   * is kept, and otherwise the diameter runs between the two far ends.
   * Only the containment test differs from addSphere as written.
   */
  function AddSphereEnclosing(s: Sphere, o: Sphere, sqrt: real -> real): (r: Sphere)
    requires IsSqrt(sqrt)
    ensures Covers(s, o, sqrt) ==> r == s
    ensures !Covers(s, o, sqrt) && Covers(o, s, sqrt) ==> r == o
    ensures !Nested(s, o, sqrt) && !Covers(s, o, sqrt) && !Covers(o, s, sqrt) ==> r == AddSphere(s, o, sqrt)
  {
    if Covers(s, o, sqrt) then s
    else if Covers(o, s, sqrt) then o
    else Span(s, o, sqrt)
  }

  /** Every point of either input lies in the enclosing merge. */
  lemma AddSphereEnclosingContains(s: Sphere, o: Sphere, p: Vec3, sqrt: real -> real)
    requires IsSqrt(sqrt)
    ensures Inside(p, s) ==> Inside(p, AddSphereEnclosing(s, o, sqrt))
    ensures Inside(p, o) ==> Inside(p, AddSphereEnclosing(s, o, sqrt))
  {
    if Covers(s, o, sqrt) {
      if Inside(p, o) {
        CoveredPoint(s, o, p, sqrt);
      }
    } else if Covers(o, s, sqrt) {
      if Inside(p, s) {
        CoveredPoint(o, s, p, sqrt);
      }
    } else {
      if s.center == o.center {
        DistanceSelf(s.center, sqrt);
        assert false;
      }
      var d := Distance(s.center, o.center, sqrt);
      var u := Normalized(Sub(o.center, s.center), sqrt);
      DirectionOf(s.center, o.center, sqrt);
      DistanceSymmetric(s.center, o.center, sqrt);
      SpanInside(p, s.center, o.center, u, d, s.radius, o.radius, Span(s, o, sqrt));
    }
  }

  /**
   * The span of two spheres on a line, neither covering the other, holds
   * every point of both.
   */
  lemma SpanInside(p: Vec3, c1: Vec3, c2: Vec3, u: Vec3, d: real, r1: real, r2: real, r: Sphere)
    requires LengthSq(u) == 1.0 && 0.0 <= d && c2 == Add(c1, Scale(u, d))
    requires r1 < d + r2 && r2 < d + r1
    requires r.radius == Half(Abs(d + r1 + r2)) && r.center == Add(c1, Scale(u, r.radius - r1))
    ensures Inside(p, Sphere(c1, r1)) ==> Inside(p, r)
    ensures Inside(p, Sphere(c2, r2)) ==> Inside(p, r)
  {
    var big := r.radius;
    if Inside(p, Sphere(c1, r1)) {
      assert big == (d + r1 + r2) / 2.0;
      BallShift(p, c1, u, r1, big - r1);
    }
    if Inside(p, Sphere(c2, r2)) {
      assert big == (d + r1 + r2) / 2.0;
      SquareNeg(u);
      ReCenter(c1, u, d, big - r1, big - r2);
      BallShift(p, c2, Neg(u), r2, big - r2);
    }
  }

  /** A point of a covered sphere lies in the covering one. */
  lemma CoveredPoint(s: Sphere, o: Sphere, p: Vec3, sqrt: real -> real)
    requires IsSqrt(sqrt) && Covers(s, o, sqrt) && Inside(p, o)
    ensures Inside(p, s)
  {
    if s.center == o.center {
      CoveredPointConcentric(s, o, p, sqrt);
    } else {
      CoveredPointApart(s, o, p, sqrt);
    }
  }

  lemma CoveredPointConcentric(s: Sphere, o: Sphere, p: Vec3, sqrt: real -> real)
    requires IsSqrt(sqrt) && Covers(s, o, sqrt) && Inside(p, o) && s.center == o.center
    ensures Inside(p, s)
  {
    CoversConcentric(s, o, sqrt);
    ConcentricBall(p, s, o);
  }

  lemma CoversConcentric(s: Sphere, o: Sphere, sqrt: real -> real)
    requires IsSqrt(sqrt) && Covers(s, o, sqrt) && s.center == o.center
    ensures o.radius <= s.radius
  {
    DistanceSelf(s.center, sqrt);
  }

  lemma ConcentricBall(p: Vec3, s: Sphere, o: Sphere)
    requires s.center == o.center && o.radius <= s.radius && Inside(p, o)
    ensures Inside(p, s)
  {
    SquareMono(o.radius, s.radius);
  }

  lemma CoveredPointApart(s: Sphere, o: Sphere, p: Vec3, sqrt: real -> real)
    requires IsSqrt(sqrt) && Covers(s, o, sqrt) && Inside(p, o) && s.center != o.center
    ensures Inside(p, s)
  {
    var d := Distance(o.center, s.center, sqrt);
    var u := Normalized(Sub(s.center, o.center), sqrt);
    DirectionOf(o.center, s.center, sqrt);
    DistanceSymmetric(s.center, o.center, sqrt);
    CoveredBall(p, s.center, o.center, u, d, s.radius, o.radius);
  }

  /** The ball of radius r2 about c2 lies in the ball of radius r1 about c1 when d + r2 <= r1. */
  lemma CoveredBall(p: Vec3, c1: Vec3, c2: Vec3, u: Vec3, d: real, r1: real, r2: real)
    requires LengthSq(u) == 1.0 && 0.0 <= d && c1 == Add(c2, Scale(u, d))
    requires d + r2 <= r1 && Inside(p, Sphere(c2, r2))
    ensures Inside(p, Sphere(c1, r1))
  {
    BallShift(p, c2, u, r2, d);
    SquareMono(r2 + d, r1);
  }

  lemma DistanceSymmetric(a: Vec3, b: Vec3, sqrt: real -> real)
    requires IsSqrt(sqrt)
    ensures Distance(a, b, sqrt) == Distance(b, a, sqrt)
  {
    DistanceIsLength(a, b, sqrt);
    DistanceIsLength(b, a, sqrt);
    SubSwap(a, b);
    LengthNeg(Sub(a, b), sqrt);
  }

  /** Squaring is monotone on the non-negative reals. */
  lemma SquareMono(a: real, b: real)
    requires 0.0 <= a <= b
    ensures Mul(a, a) <= Mul(b, b)
  {
    if a < b {
      SquareLess(a, b);
    }
  }

  /** Going d along u and back b gives the point t along u when t = d - b. */
  lemma ReCenter(c: Vec3, u: Vec3, d: real, t: real, b: real)
    requires t == d - b
    ensures Add(Add(c, Scale(u, d)), Scale(Neg(u), b)) == Add(c, Scale(u, t))
  {
    ScaleNegDirection(u, b);
    ShiftAlong(c, u, d, -b);
  }

  // ---------------------------------------------------------------------------
  // Balls

  /**
   * Moving a ball's centre by t along a unit direction keeps every point of
   * the ball within r + t of the new centre. This is the internal tangency
   * both the enclosing merge and Ritter's grow step rely on.
   */
  lemma {:induction false} BallShift(p: Vec3, c: Vec3, u: Vec3, r: real, t: real)
    requires LengthSq(u) == 1.0 && 0.0 <= r && 0.0 <= t
    requires DistanceSq(p, c) <= Mul(r, r)
    ensures DistanceSq(p, Add(c, Scale(u, t))) <= Mul(r + t, r + t)
  {
    var a := Sub(p, c);
    var w := Sub(p, Add(c, Scale(u, t)));
    assert w == Sub(Scale(a, 1.0), Scale(u, t));
    LengthSqCombination(a, u, 1.0, t);
    assert LengthSq(w) == LengthSq(a) - 2.0 * Mul(t, Dot(a, u)) + Mul(t, t);
    CauchySchwarz(a, u);
    SchwarzBound(Dot(a, u), LengthSq(a), r);
    ShiftArith(LengthSq(a), Dot(a, u), r, t);
  }

  /** A component along a unit direction is no longer than the vector itself. */
  lemma SchwarzBound(D: real, L: real, r: real)
    requires Mul(D, D) <= Mul(L, 1.0) && L <= Mul(r, r) && 0.0 <= r
    ensures -D <= r
  {
    if r < -D {
      SquareLess(r, -D);
    }
  }

  lemma ShiftArith(L: real, D: real, r: real, t: real)
    requires L <= Mul(r, r) && -D <= r && 0.0 <= t
    ensures L - 2.0 * Mul(t, D) + Mul(t, t) <= Mul(r + t, r + t)
  {
    MulNonNeg(t, r + D);
    assert Mul(t, r + D) == Mul(t, r) + Mul(t, D);
    assert Mul(r + t, r + t) == Mul(r, r) + 2.0 * Mul(t, r) + Mul(t, t);
  }
}
