/**
 * Three-component real vectors: the exact-arithmetic stand-in for QVector3D.
 *
 * Square roots are not computable over `real`, so every operation that needs
 * one takes a `sqrt` function and states its guarantees under `IsSqrt(sqrt)`.
 * Products of two varying quantities are written through `Mul`, which keeps
 * them as single terms for the solver; its definition is still visible.
 */
module Vectors {

  datatype Vec3 = Vec3(x: real, y: real, z: real)

  const Zero: Vec3 := Vec3(0.0, 0.0, 0.0)

  function Mul(a: real, b: real): real {
    a * b
  }

  function Abs(x: real): real {
    if x < 0.0 then -x else x
  }

  function Add(a: Vec3, b: Vec3): Vec3 {
    Vec3(a.x + b.x, a.y + b.y, a.z + b.z)
  }

  function Sub(a: Vec3, b: Vec3): Vec3 {
    Vec3(a.x - b.x, a.y - b.y, a.z - b.z)
  }

  function Scale(a: Vec3, k: real): Vec3 {
    Vec3(Mul(a.x, k), Mul(a.y, k), Mul(a.z, k))
  }

  function Neg(a: Vec3): Vec3 {
    Vec3(-a.x, -a.y, -a.z)
  }

  /** QVector3D's division by a scalar, component by component. */
  function Div(a: Vec3, k: real): Vec3
    requires k != 0.0
  {
    Vec3(a.x / k, a.y / k, a.z / k)
  }

  /** The sum of three products; the dot product of (ax, ay, az) and (bx, bY, bz). */
  function DotOf(ax: real, ay: real, az: real, bx: real, bY: real, bz: real): real {
    Mul(ax, bx) + Mul(ay, bY) + Mul(az, bz)
  }

  /** The 2x2 determinant | p q ; r s |, one component of a cross product. */
  function Det(p: real, q: real, r: real, s: real): real {
    Mul(p, s) - Mul(q, r)
  }

  function Dot(a: Vec3, b: Vec3): real {
    DotOf(a.x, a.y, a.z, b.x, b.y, b.z)
  }

  function Cross(a: Vec3, b: Vec3): Vec3 {
    Vec3(Det(a.y, a.z, b.y, b.z), Det(a.z, a.x, b.z, b.x), Det(a.x, a.y, b.x, b.y))
  }

  function LengthSq(a: Vec3): real {
    Dot(a, a)
  }

  function DistanceSq(a: Vec3, b: Vec3): real {
    LengthSq(Sub(a, b))
  }

  /** `sqrt` returns the non-negative square root of every non-negative real. */
  ghost predicate IsSqrt(sqrt: real -> real) {
    forall x :: 0.0 <= x ==> 0.0 <= sqrt(x) && Mul(sqrt(x), sqrt(x)) == x
  }

  /** A product of positive reals is positive. */
  lemma MulPos(a: real, b: real)
    requires 0.0 < a && 0.0 < b
    ensures 0.0 < Mul(a, b)
  {
  }

  /** A product of non-negative reals is non-negative. */
  lemma MulNonNeg(a: real, b: real)
    requires 0.0 <= a && 0.0 <= b
    ensures 0.0 <= Mul(a, b)
  {
  }

  /** A square is never negative, and is positive away from zero. */
  lemma SquareNonNeg(t: real)
    ensures 0.0 <= Mul(t, t)
    ensures t != 0.0 ==> 0.0 < Mul(t, t)
  {
    if t > 0.0 {
      MulPos(t, t);
    } else if t < 0.0 {
      MulPos(-t, -t);
      assert Mul(-t, -t) == Mul(t, t);
    }
  }

  /** Squaring is strictly increasing on the non-negative reals. */
  lemma SquareLess(r: real, a: real)
    requires 0.0 <= r < a
    ensures Mul(r, r) < Mul(a, a)
  {
    MulPos(a - r, a + r);
    assert Mul(a - r, a + r) == Mul(a, a) - Mul(r, r);
  }

  /** Two non-negative reals with the same square are equal. */
  lemma SquareInjective(r: real, a: real)
    requires 0.0 <= r && 0.0 <= a && Mul(r, r) == Mul(a, a)
    ensures r == a
  {
    if r < a {
      SquareLess(r, a);
    } else if a < r {
      SquareLess(a, r);
    }
  }

  /** A squared length is never negative and is zero only for the zero vector. */
  lemma LengthSqZero(a: Vec3)
    ensures 0.0 <= LengthSq(a)
    ensures a != Zero ==> 0.0 < LengthSq(a)
  {
    SquareNonNeg(a.x);
    SquareNonNeg(a.y);
    SquareNonNeg(a.z);
  }

  /** The non-negative root of a square is the absolute value. */
  lemma SqrtOfSquare(sqrt: real -> real, k: real)
    requires IsSqrt(sqrt)
    ensures sqrt(Mul(k, k)) == if k < 0.0 then -k else k
  {
    SquareNonNeg(k);
    var a := if k < 0.0 then -k else k;
    assert Mul(a, a) == Mul(k, k);
    SquareInjective(sqrt(Mul(k, k)), a);
  }

  /** QVector3D::length, the root of the squared length. */
  function Length(a: Vec3, sqrt: real -> real): (r: real)
    requires IsSqrt(sqrt)
    ensures 0.0 <= r && Mul(r, r) == LengthSq(a)
    ensures r == 0.0 <==> a == Zero
  {
    LengthSqZero(a);
    var len := LengthSq(a);
    assert 0.0 <= sqrt(len) && Mul(sqrt(len), sqrt(len)) == len;
    SquareNonNeg(sqrt(len));
    sqrt(len)
  }

  /** QVector3D::distanceToPoint. */
  function Distance(a: Vec3, b: Vec3, sqrt: real -> real): (r: real)
    requires IsSqrt(sqrt)
    ensures 0.0 <= r && Mul(r, r) == DistanceSq(a, b)
    ensures r == 0.0 <==> a == b
  {
    var d := Sub(a, b);
    assert d == Zero <==> a == b;
    Length(d, sqrt)
  }

  /**
   * QVector3D::normalized: a vector of squared length one is returned as is,
   * a null vector gives the null vector, anything else is divided by its length.
   */
  function Normalized(a: Vec3, sqrt: real -> real): (r: Vec3)
    requires IsSqrt(sqrt)
    ensures a == Zero ==> r == Zero
    ensures LengthSq(a) == 1.0 ==> r == a
    ensures a != Zero ==> LengthSq(r) == 1.0
    ensures a != Zero ==> 0.0 < Dot(r, a) && Cross(r, a) == Zero
  {
    LengthSqZero(a);
    var len := LengthSq(a);
    if len == 1.0 then
      assert Dot(a, a) == 1.0;
      a
    else if len == 0.0 then Zero
    else
      var root := sqrt(len);
      NormalizedFacts(a, root);
      Scale(a, 1.0 / root)
  }

  lemma NormalizedFacts(a: Vec3, root: real)
    requires 0.0 < LengthSq(a)
    requires 0.0 <= root && Mul(root, root) == LengthSq(a)
    ensures root != 0.0
    ensures LengthSq(Scale(a, 1.0 / root)) == 1.0
    ensures 0.0 < Dot(Scale(a, 1.0 / root), a) && Cross(Scale(a, 1.0 / root), a) == Zero
  {
    var k := 1.0 / root;
    DotScale(a, a, k);
    DotScale(a, Scale(a, k), k);
    DotSymmetric(a, Scale(a, k));
    assert LengthSq(Scale(a, k)) == Mul(k, Mul(k, LengthSq(a)));
    assert Mul(k, Mul(k, Mul(root, root))) == 1.0;
    MulPos(k, LengthSq(a));
    CrossScale(a, k);
  }

  lemma DotSymmetric(a: Vec3, b: Vec3)
    ensures Dot(a, b) == Dot(b, a)
  {
  }

  /** Scaling one side of a dot product scales the product. */
  lemma DotScale(a: Vec3, b: Vec3, k: real)
    ensures Dot(Scale(a, k), b) == Mul(k, Dot(a, b))
  {
    MulShift(a.x, k, b.x);
    MulShift(a.y, k, b.y);
    MulShift(a.z, k, b.z);
    MulDistrib3(k, Mul(a.x, b.x), Mul(a.y, b.y), Mul(a.z, b.z));
  }

  /** Scaling a vector scales its squared length by the square of the factor. */
  lemma LengthSqScale(a: Vec3, k: real)
    ensures LengthSq(Scale(a, k)) == Mul(Mul(k, k), LengthSq(a))
  {
    DotScale(a, Scale(a, k), k);
    DotSymmetric(a, Scale(a, k));
    DotScale(a, a, k);
    MulAssoc(k, k, LengthSq(a));
  }

  /** A vector is parallel to any multiple of itself. */
  lemma CrossScale(a: Vec3, k: real)
    ensures Cross(Scale(a, k), a) == Zero
  {
    MulShift(a.y, k, a.z);
    MulShift(a.z, k, a.y);
    MulShift(a.z, k, a.x);
    MulShift(a.x, k, a.z);
    MulShift(a.x, k, a.y);
    MulShift(a.y, k, a.x);
    MulComm(a.y, a.z);
    MulComm(a.z, a.x);
    MulComm(a.x, a.y);
  }

  /** The dot product distributes over a sum of scaled vectors. */
  lemma DotLinear(a: Vec3, b: Vec3, w: Vec3, c: real, s: real)
    ensures Dot(Add(Scale(a, c), Scale(b, s)), w) == Mul(c, Dot(a, w)) + Mul(s, Dot(b, w))
  {
    LinearComp(a.x, b.x, w.x, c, s);
    LinearComp(a.y, b.y, w.y, c, s);
    LinearComp(a.z, b.z, w.z, c, s);
    MulDistrib3(c, Mul(a.x, w.x), Mul(a.y, w.y), Mul(a.z, w.z));
    MulDistrib3(s, Mul(b.x, w.x), Mul(b.y, w.y), Mul(b.z, w.z));
  }

  /** The cross product is antisymmetric. */
  lemma CrossAntisymmetric(a: Vec3, b: Vec3)
    ensures Cross(b, a) == Neg(Cross(a, b))
  {
    MulComm(a.x, b.y);
    MulComm(a.y, b.x);
    MulComm(a.y, b.z);
    MulComm(a.z, b.y);
    MulComm(a.z, b.x);
    MulComm(a.x, b.z);
  }

  /** The cross product is linear in its left argument. */
  lemma CrossLinearLeft(a: Vec3, b: Vec3, w: Vec3, c: real, s: real)
    ensures Cross(Add(Scale(a, c), Scale(b, s)), w) == Add(Scale(Cross(a, w), c), Scale(Cross(b, w), s))
  {
    CrossComp(a.y, a.z, b.y, b.z, w.y, w.z, c, s);
    CrossComp(a.z, a.x, b.z, b.x, w.z, w.x, c, s);
    CrossComp(a.x, a.y, b.x, b.y, w.x, w.y, c, s);
  }

  /** The cross product is linear in its right argument. */
  lemma CrossLinearRight(w: Vec3, a: Vec3, b: Vec3, c: real, s: real)
    ensures Cross(w, Add(Scale(a, c), Scale(b, s))) == Add(Scale(Cross(w, a), c), Scale(Cross(w, b), s))
  {
    var v := Add(Scale(a, c), Scale(b, s));
    CrossAntisymmetric(v, w);
    CrossLinearLeft(a, b, w, c, s);
    CrossAntisymmetric(a, w);
    CrossAntisymmetric(b, w);
    NegScaleComp(Cross(a, w), c);
    NegScaleComp(Cross(b, w), s);
  }

  lemma NegScaleComp(a: Vec3, k: real)
    ensures Scale(Neg(a), k) == Neg(Scale(a, k))
  {
    MulNegLeft(a.x, k);
    MulNegLeft(a.y, k);
    MulNegLeft(a.z, k);
  }

  /** Scaling by -1 negates. */
  lemma NegScale(a: Vec3)
    ensures Scale(a, -1.0) == Neg(a)
  {
  }

  /** The "BAC-CAB" expansion of a double cross product. */
  lemma DoubleCross(a: Vec3, b: Vec3, c: Vec3)
    ensures Cross(a, Cross(b, c)) == Sub(Scale(b, Dot(a, c)), Scale(c, Dot(a, b)))
  {
    DoubleCrossComp(a.x, a.y, a.z, b.x, b.y, b.z, c.x, c.y, c.z);
    DoubleCrossComp(a.y, a.z, a.x, b.y, b.z, b.x, c.y, c.z, c.x);
    DoubleCrossComp(a.z, a.x, a.y, b.z, b.x, b.y, c.z, c.x, c.y);
  }

  /** -(c (-p) + s q) = c p - s q. */
  lemma NegCombination(p: Vec3, q: Vec3, c: real, s: real)
    ensures Neg(Add(Scale(Neg(p), c), Scale(q, s))) == Sub(Scale(p, c), Scale(q, s))
  {
    NegScaleComp(p, c);
  }

  /** Scaling the negation by a negated factor cancels both signs. */
  lemma ScaleNegNeg(a: Vec3, k: real)
    ensures Scale(Neg(a), -k) == Scale(a, k)
  {
    MulNegLeft(a.x, -k);
    MulNegLeft(a.y, -k);
    MulNegLeft(a.z, -k);
    MulNegRight(a.x, k);
    MulNegRight(a.y, k);
    MulNegRight(a.z, k);
  }

  /** Scaling by one is the identity and scaling by zero gives the zero vector. */
  lemma ScaleUnitZero(a: Vec3)
    ensures Scale(a, 1.0) == a && Scale(a, 0.0) == Zero
  {
  }

  /** Negating either factor negates a cross product. */
  lemma CrossNeg(a: Vec3, b: Vec3)
    ensures Cross(a, Neg(b)) == Neg(Cross(a, b))
    ensures Cross(Neg(a), b) == Neg(Cross(a, b))
  {
    MulNegRight(a.y, b.z);
    MulNegRight(a.z, b.y);
    MulNegRight(a.z, b.x);
    MulNegRight(a.x, b.z);
    MulNegRight(a.x, b.y);
    MulNegRight(a.y, b.x);
    MulNegLeft(a.y, b.z);
    MulNegLeft(a.z, b.y);
    MulNegLeft(a.z, b.x);
    MulNegLeft(a.x, b.z);
    MulNegLeft(a.x, b.y);
    MulNegLeft(a.y, b.x);
  }

  /** For a unit vector a orthogonal to b, a x (a x b) = -b. */
  lemma DoubleCrossUnit(a: Vec3, b: Vec3)
    requires LengthSq(a) == 1.0 && Dot(a, b) == 0.0
    ensures Cross(a, Cross(a, b)) == Neg(b)
  {
    DoubleCross(a, a, b);
    ScaleUnitZero(a);
    ScaleUnitZero(b);
  }

  /** For a unit vector b orthogonal to a, (a x b) x b = -a. */
  lemma DoubleCrossUnitLeft(a: Vec3, b: Vec3)
    requires LengthSq(b) == 1.0 && Dot(a, b) == 0.0
    ensures Cross(Cross(a, b), b) == Neg(a)
  {
    DoubleCross(b, a, b);
    DotSymmetric(a, b);
    ScaleUnitZero(a);
    ScaleUnitZero(b);
    CrossAntisymmetric(Cross(a, b), b);
  }

  /** A cross product is orthogonal to both of its arguments. */
  lemma CrossOrthogonal(a: Vec3, b: Vec3)
    ensures Dot(Cross(a, b), a) == 0.0
    ensures Dot(Cross(a, b), b) == 0.0
  {
    CrossOrthogonalComp(a.x, a.y, a.z, b.x, b.y, b.z);
    CrossOrthogonalComp(b.x, b.y, b.z, a.x, a.y, a.z);
    CrossAntisymmetric(a, b);
    DotNeg(Cross(b, a), b);
  }

  lemma DotNeg(a: Vec3, b: Vec3)
    ensures Dot(Neg(a), b) == -Dot(a, b)
  {
    MulNegLeft(a.x, b.x);
    MulNegLeft(a.y, b.y);
    MulNegLeft(a.z, b.z);
  }

  /** The squared length of x a - y e, expanded by bilinearity. */
  lemma LengthSqCombination(a: Vec3, e: Vec3, x: real, y: real)
    ensures LengthSq(Sub(Scale(a, x), Scale(e, y)))
         == Mul(Mul(x, x), LengthSq(a)) - 2.0 * Mul(Mul(x, y), Dot(a, e)) + Mul(Mul(y, y), LengthSq(e))
  {
    var w := Sub(Scale(a, x), Scale(e, y));
    assert w == Add(Scale(a, x), Scale(e, -y));
    DotLinear(a, e, w, x, -y);
    DotSymmetric(a, w);
    DotSymmetric(e, w);
    DotLinear(a, e, a, x, -y);
    DotLinear(a, e, e, x, -y);
    DotSymmetric(a, e);
    CombinationComp(x, y, LengthSq(a), Dot(a, e), LengthSq(e));
  }

  /** Cauchy-Schwarz in squared form: (a.b)^2 <= |a|^2 |b|^2. */
  lemma CauchySchwarz(a: Vec3, b: Vec3)
    ensures Mul(Dot(a, b), Dot(a, b)) <= Mul(LengthSq(a), LengthSq(b))
  {
    LengthSqZero(b);
    if b == Zero {
      CauchySchwarzZero(a, b);
    } else {
      var A, D, E := LengthSq(a), Dot(a, b), LengthSq(b);
      var w := Sub(Scale(a, E), Scale(b, D));
      LengthSqCombination(a, b, E, D);
      LengthSqZero(w);
      SchwarzStep(A, D, E, LengthSq(w));
    }
  }

  lemma CauchySchwarzZero(a: Vec3, b: Vec3)
    requires b == Zero
    ensures Mul(Dot(a, b), Dot(a, b)) <= Mul(LengthSq(a), LengthSq(b))
  {
    MulZero(a.x);
    MulZero(a.y);
    MulZero(a.z);
    MulZero(0.0);
    MulZero(LengthSq(a));
  }

  lemma SchwarzStep(A: real, D: real, E: real, L: real)
    requires L == Mul(Mul(E, E), A) - 2.0 * Mul(Mul(E, D), D) + Mul(Mul(D, D), E)
    requires 0.0 <= L && 0.0 < E
    ensures Mul(D, D) <= Mul(A, E)
  {
    SchwarzComp(A, D, E);
    SignOfProduct(E, Mul(E, A) - Mul(D, D));
    MulComm(A, E);
  }

  /** A product with a positive factor is non-negative only if the other factor is. */
  lemma SignOfProduct(p: real, q: real)
    requires 0.0 < p && 0.0 <= Mul(p, q)
    ensures 0.0 <= q
  {
    if q < 0.0 {
      MulPos(p, -q);
      MulNegRight(p, q);
    }
  }

  // ---------------------------------------------------------------------------
  // Ring facts about Mul, each small enough for the solver on its own

  /** Adding the zero vector changes nothing. */
  lemma AddZero(a: Vec3)
    ensures Add(a, Zero) == a
  {
  }

  /** Going back to the origin and out to `b` lands on `b`. */
  lemma AddNegCancel(a: Vec3, b: Vec3)
    ensures Add(a, Add(Neg(a), b)) == b
  {
  }

  /** Two successive moves along the same direction add up. */
  lemma ShiftAlong(c: Vec3, u: Vec3, a: real, b: real)
    ensures Add(Add(c, Scale(u, a)), Scale(u, b)) == Add(c, Scale(u, a + b))
  {
    assert Mul(u.x, a) + Mul(u.x, b) == Mul(u.x, a + b);
    assert Mul(u.y, a) + Mul(u.y, b) == Mul(u.y, a + b);
    assert Mul(u.z, a) + Mul(u.z, b) == Mul(u.z, a + b);
  }

  lemma MulComm(a: real, b: real)
    ensures Mul(a, b) == Mul(b, a)
  {
  }

  lemma MulAssoc(a: real, b: real, c: real)
    ensures Mul(Mul(a, b), c) == Mul(a, Mul(b, c))
  {
  }

  lemma MulShift(a: real, k: real, b: real)
    ensures Mul(Mul(a, k), b) == Mul(k, Mul(a, b))
  {
  }

  lemma MulNegLeft(a: real, b: real)
    ensures Mul(-a, b) == -Mul(a, b)
  {
  }

  lemma MulDistrib3(k: real, u: real, v: real, w: real)
    ensures Mul(k, u + v + w) == Mul(k, u) + Mul(k, v) + Mul(k, w)
  {
  }

  lemma LinearComp(p: real, q: real, w: real, c: real, s: real)
    ensures Mul(Mul(p, c) + Mul(q, s), w) == Mul(c, Mul(p, w)) + Mul(s, Mul(q, w))
  {
  }

  lemma CrossComp(ay: real, az: real, bY: real, bz: real, wy: real, wz: real, c: real, s: real)
    ensures Mul(Mul(ay, c) + Mul(bY, s), wz) - Mul(Mul(az, c) + Mul(bz, s), wy)
         == Mul(Mul(ay, wz) - Mul(az, wy), c) + Mul(Mul(bY, wz) - Mul(bz, wy), s)
  {
  }

  lemma DoubleCrossComp(ax: real, ay: real, az: real, bx: real, bY: real, bz: real, cx: real, cy: real, cz: real)
    ensures Mul(ay, Mul(bx, cy) - Mul(bY, cx)) - Mul(az, Mul(bz, cx) - Mul(bx, cz))
         == Mul(bx, Mul(ax, cx) + Mul(ay, cy) + Mul(az, cz)) - Mul(cx, Mul(ax, bx) + Mul(ay, bY) + Mul(az, bz))
  {
  }

  lemma CrossOrthogonalComp(ax: real, ay: real, az: real, bx: real, bY: real, bz: real)
    ensures Mul(Mul(ay, bz) - Mul(az, bY), ax) + Mul(Mul(az, bx) - Mul(ax, bz), ay) + Mul(Mul(ax, bY) - Mul(ay, bx), az) == 0.0
  {
  }

  lemma MulZero(a: real)
    ensures Mul(a, 0.0) == 0.0
  {
  }

  lemma MulNegRight(a: real, b: real)
    ensures Mul(a, -b) == -Mul(a, b)
  {
  }

  lemma CombinationComp(x: real, y: real, A: real, D: real, E: real)
    ensures Mul(x, Mul(x, A) + Mul(-y, D)) + Mul(-y, Mul(x, D) + Mul(-y, E))
         == Mul(Mul(x, x), A) - 2.0 * Mul(Mul(x, y), D) + Mul(Mul(y, y), E)
  {
  }

  lemma SchwarzComp(A: real, D: real, E: real)
    ensures Mul(Mul(E, E), A) - 2.0 * Mul(Mul(E, D), D) + Mul(Mul(D, D), E) == Mul(E, Mul(E, A) - Mul(D, D))
  {
  }
}
