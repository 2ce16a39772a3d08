/**
 * TriangleMesh::computeBoundingSphere, Ritter's bounding sphere. The flat
 * coordinate list is read as points; a first pass finds the points with the
 * least and greatest coordinate on each axis; the pair farther apart along
 * the widest axis seeds a sphere; a second pass grows the sphere around
 * every point that lies outside it.
 */
module Ritter {
  import opened Wrappers
  import opened Vectors
  import opened Spheres

  /**
   * A coordinate list whose length is not a multiple of three reads past its
   * end; an empty one leaves the extremes at infinity.
   */
  datatype MeshError = NoPoints | TrailingCoordinates

  /** The flat coordinate list read three at a time. */
  function Triples(flat: seq<real>): (pts: seq<Vec3>)
    requires |flat| % 3 == 0
    ensures |pts| * 3 == |flat|
    ensures forall i :: 0 <= i < |pts| ==> pts[i] == Vec3(flat[3 * i], flat[3 * i + 1], flat[3 * i + 2])
    decreases |flat|
  {
    if |flat| == 0 then [] else [Vec3(flat[0], flat[1], flat[2])] + Triples(flat[3..])
  }

  // ---------------------------------------------------------------------------
  // First pass: the extreme points

  datatype Extremes = Extremes(xmin: Vec3, xmax: Vec3, ymin: Vec3, ymax: Vec3, zmin: Vec3, zmax: Vec3)

  /**
   * One point of the first pass; a point replaces an extreme only when
   * strictly beyond it, so the box grows to take in the point and each
   * extreme is the point or the one before.
   */
  function Visit(e: Extremes, p: Vec3): (r: Extremes)
    ensures InBox(r, p)
    ensures forall q :: InBox(e, q) ==> InBox(r, q)
    ensures r.xmin in {e.xmin, p} && r.xmax in {e.xmax, p} && r.ymin in {e.ymin, p}
    ensures r.ymax in {e.ymax, p} && r.zmin in {e.zmin, p} && r.zmax in {e.zmax, p}
  {
    Extremes(
      if p.x < e.xmin.x then p else e.xmin,
      if p.x > e.xmax.x then p else e.xmax,
      if p.y < e.ymin.y then p else e.ymin,
      if p.y > e.ymax.y then p else e.ymax,
      if p.z < e.zmin.z then p else e.zmin,
      if p.z > e.zmax.z then p else e.zmax)
  }

  /**
   * The first pass. The source starts from points at plus and minus infinity,
   * which the first point replaces on every axis; the fold starts from that
   * first point instead. Every point lies between the extremes on every axis,
   * and each extreme is one of the points.
   */
  function ExtremesOf(pts: seq<Vec3>): (e: Extremes)
    requires 0 < |pts|
    ensures forall i :: 0 <= i < |pts| ==> InBox(e, pts[i])
    ensures && e.xmin in pts && e.xmax in pts && e.ymin in pts
            && e.ymax in pts && e.zmin in pts && e.zmax in pts
  {
    if |pts| == 1 then Extremes(pts[0], pts[0], pts[0], pts[0], pts[0], pts[0])
    else
      var init := pts[..|pts| - 1];
      assert forall i :: 0 <= i < |init| ==> init[i] == pts[i];
      assert forall q :: q in init ==> q in pts;
      Visit(ExtremesOf(init), pts[|pts| - 1])
  }

  /** `p` lies in the box the extremes span. */
  predicate InBox(e: Extremes, p: Vec3) {
    && e.xmin.x <= p.x <= e.xmax.x
    && e.ymin.y <= p.y <= e.ymax.y
    && e.zmin.z <= p.z <= e.zmax.z
  }

  // ---------------------------------------------------------------------------
  // The seed sphere

  /**
   * The seed pair: the extremes of the axis whose pair is farthest apart,
   * compared by squared distance with strict tests, so that a tie goes to x
   * before y and to y before z.
   */
  function SeedPair(e: Extremes): (pair: (Vec3, Vec3))
    ensures var span := DistanceSq(pair.1, pair.0);
      && DistanceSq(e.xmax, e.xmin) <= span
      && DistanceSq(e.ymax, e.ymin) <= span
      && DistanceSq(e.zmax, e.zmin) <= span
    ensures var xs, ys, zs := DistanceSq(e.xmax, e.xmin), DistanceSq(e.ymax, e.ymin), DistanceSq(e.zmax, e.zmin);
      && (ys <= xs && zs <= xs ==> pair == (e.xmin, e.xmax))
      && (xs < ys && zs <= ys ==> pair == (e.ymin, e.ymax))
      && (xs < zs && ys < zs ==> pair == (e.zmin, e.zmax))
  {
    var xSpan := DistanceSq(e.xmax, e.xmin);
    var ySpan := DistanceSq(e.ymax, e.ymin);
    var zSpan := DistanceSq(e.zmax, e.zmin);
    var (dia1, dia2, maxSpan) := if ySpan > xSpan then (e.ymin, e.ymax, ySpan) else (e.xmin, e.xmax, xSpan);
    if zSpan > maxSpan then (e.zmin, e.zmax) else (dia1, dia2)
  }

  /** The midpoint of two points, as `(a + b) * 0.5`. */
  function Midpoint(a: Vec3, b: Vec3): Vec3 {
    Scale(Add(a, b), 0.5)
  }

  /**
   * The seed sphere: centred on the midpoint of the pair, through its second
   * point. Both points lie on it, and its diameter is their distance.
   */
  function SeedSphere(a: Vec3, b: Vec3, sqrt: real -> real): (s: Sphere)
    requires IsSqrt(sqrt)
    ensures s.center == Midpoint(a, b)
    ensures 0.0 <= s.radius && 2.0 * s.radius == Distance(a, b, sqrt)
    ensures Inside(a, s) && Inside(b, s)
  {
    var center := Midpoint(a, b);
    var radius := sqrt(DistanceSq(b, center));
    SeedSound(a, b, radius, Distance(a, b, sqrt), sqrt);
    Sphere(center, radius)
  }

  lemma SeedSound(a: Vec3, b: Vec3, radius: real, dist: real, sqrt: real -> real)
    requires IsSqrt(sqrt) && radius == sqrt(DistanceSq(b, Midpoint(a, b)))
    requires 0.0 <= dist && Mul(dist, dist) == DistanceSq(a, b)
    ensures 0.0 <= radius && 2.0 * radius == dist
    ensures DistanceSq(a, Midpoint(a, b)) == Mul(radius, radius)
    ensures DistanceSq(b, Midpoint(a, b)) == Mul(radius, radius)
  {
    HalfGap(a, b);
    LengthSqZero(Sub(b, Midpoint(a, b)));
    DoubleRoot(radius, dist, DistanceSq(a, b));
  }

  /** A root of a quarter of a square is half its root. */
  lemma DoubleRoot(half: real, whole: real, sq: real)
    requires 0.0 <= half && 0.0 <= whole
    requires Mul(half, half) == Mul(0.25, sq) && Mul(whole, whole) == sq
    ensures 2.0 * half == whole
  {
    assert Mul(2.0 * half, 2.0 * half) == 4.0 * Mul(half, half);
    SquareInjective(2.0 * half, whole);
  }

  /** Each point of a pair is half their distance from the midpoint. */
  lemma HalfGap(a: Vec3, b: Vec3)
    ensures DistanceSq(a, Midpoint(a, b)) == Mul(0.25, DistanceSq(a, b))
    ensures DistanceSq(b, Midpoint(a, b)) == Mul(0.25, DistanceSq(a, b))
  {
    var m := Midpoint(a, b);
    assert Sub(a, m) == Scale(Sub(a, b), 0.5);
    assert Sub(b, m) == Scale(Sub(a, b), -0.5);
    LengthSqScale(Sub(a, b), 0.5);
    LengthSqScale(Sub(a, b), -0.5);
  }

  // ---------------------------------------------------------------------------
  // Second pass: growing the sphere

  /**
   * One grow step, for a point `p` outside the sphere. With `r` the distance
   * to `p`, the new radius is the mean of the old radius and `r`, and the
   * centre moves toward `p` by what `r` exceeds the new radius, computed as
   * `(radius * center + offset * p) / r`. The old sphere touches the new one
   * from inside, and `p` lies on the new one.
   */
  function Grow(s: Sphere, p: Vec3, sqrt: real -> real): (g: Sphere)
    requires IsSqrt(sqrt) && 0.0 <= s.radius && Mul(s.radius, s.radius) < DistanceSq(p, s.center)
    ensures s.radius < g.radius < sqrt(DistanceSq(p, s.center))
    ensures DistanceSq(p, g.center) == Mul(g.radius, g.radius)
    ensures forall q :: Inside(q, s) ==> Inside(q, g)
  {
    var r := sqrt(DistanceSq(p, s.center));
    var radius := (s.radius + r) * 0.5;
    var offset := r - radius;
    GrowSound(s, p, r, radius, offset);
    Sphere(Div(Add(Scale(s.center, radius), Scale(p, offset)), r), radius)
  }

  lemma GrowSound(s: Sphere, p: Vec3, r: real, radius: real, offset: real)
    requires 0.0 <= s.radius && Mul(s.radius, s.radius) < DistanceSq(p, s.center)
    requires 0.0 <= r && Mul(r, r) == DistanceSq(p, s.center)
    requires radius == (s.radius + r) * 0.5 && offset == r - radius
    ensures 0.0 < r && s.radius < radius < r
    ensures var g := Sphere(Div(Add(Scale(s.center, radius), Scale(p, offset)), r), radius);
      && DistanceSq(p, g.center) == Mul(g.radius, g.radius)
      && (forall q :: Inside(q, s) ==> Inside(q, g))
  {
    if r <= s.radius {
      SquareMono(r, s.radius);
    }
    var c := s.center;
    var a := Sub(p, c);
    NormalizedFacts(a, r);
    var u := Scale(a, 1.0 / r);
    var g := Sphere(Div(Add(Scale(c, radius), Scale(p, offset)), r), radius);
    GrowComp(c.x, p.x, radius, offset, r);
    GrowComp(c.y, p.y, radius, offset, r);
    GrowComp(c.z, p.z, radius, offset, r);
    assert g.center == Add(c, Scale(u, offset));
    assert p == Add(c, Scale(u, r));
    SameLineGap(c, u, r, offset);
    assert s == Sphere(c, s.radius);
    forall q | Inside(q, s)
      ensures Inside(q, g)
    {
      CoveredBall(q, g.center, c, u, offset, radius, s.radius);
    }
  }

  /** One coordinate of the new centre: the weighted mean equals the shift toward `p`. */
  lemma GrowComp(c: real, p: real, radius: real, offset: real, r: real)
    requires r != 0.0 && radius + offset == r
    ensures (Mul(c, radius) + Mul(p, offset)) / r == c + Mul(Mul(p - c, 1.0 / r), offset)
    ensures c + Mul(Mul(p - c, 1.0 / r), r) == p
  {
    assert Mul(c, radius) + Mul(p, offset) == r * c + offset * (p - c);
    assert (r * c + offset * (p - c)) / r == c + offset * (p - c) / r;
    assert Mul(Mul(p - c, 1.0 / r), offset) == offset * (p - c) / r;
    assert Mul(Mul(p - c, 1.0 / r), r) == p - c;
  }

  /**
   * The second pass. Every point already seen stays inside the sphere, the
   * seed sphere stays inside it, and its radius only grows.
   */
  method GrowPass(pts: seq<Vec3>, seed: Sphere, sqrt: real -> real) returns (s: Sphere)
    requires IsSqrt(sqrt) && 0.0 <= seed.radius
    ensures forall i :: 0 <= i < |pts| ==> Inside(pts[i], s)
    ensures forall q :: Inside(q, seed) ==> Inside(q, s)
    ensures seed.radius <= s.radius
  {
    s := seed;
    var i := 0;
    while i < |pts|
      invariant 0 <= i <= |pts|
      invariant seed.radius <= s.radius
      invariant forall j :: 0 <= j < i ==> Inside(pts[j], s)
      invariant forall q :: Inside(q, seed) ==> Inside(q, s)
    {
      var p := pts[i];
      var d := DistanceSq(p, s.center);
      if d > Mul(s.radius, s.radius) {
        s := Grow(s, p, sqrt);
      }
      i := i + 1;
    }
  }

  /**
   * TriangleMesh::computeBoundingSphere. The result contains every input
   * point, and its diameter is at least the distance of the seed pair.
   */
  method ComputeBoundingSphere(flat: seq<real>, sqrt: real -> real) returns (r: Result<Sphere, MeshError>)
    requires IsSqrt(sqrt)
    ensures r.Ok? <==> |flat| % 3 == 0 && 0 < |flat|
    ensures |flat| % 3 != 0 ==> r == Err(TrailingCoordinates)
    ensures |flat| == 0 ==> r == Err(NoPoints)
    ensures r.Ok? ==> forall p :: p in Triples(flat) ==> Inside(p, r.value)
    ensures r.Ok? ==>
      var pair := SeedPair(ExtremesOf(Triples(flat)));
      Distance(pair.0, pair.1, sqrt) <= 2.0 * r.value.radius
  {
    if |flat| % 3 != 0 {
      return Err(TrailingCoordinates);
    }
    if |flat| == 0 {
      return Err(NoPoints);
    }
    var pts := Triples(flat);
    var pair := SeedPair(ExtremesOf(pts));
    var seed := SeedSphere(pair.0, pair.1, sqrt);
    var s := GrowPass(pts, seed, sqrt);
    return Ok(s);
  }
}
