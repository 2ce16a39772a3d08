/**
 * The extents of GLCamera::updateProjectionMatrix. The model computes the
 * arguments handed to QMatrix4x4::ortho and QMatrix4x4::perspective, not the
 * matrices themselves.
 */
module Projection {
  import opened Wrappers

  datatype ProjectionKind = Orthographic | Perspective

  /**
   * The arguments of the projection call. `Persp.shiftZ` is the translation
   * along z applied after the perspective matrix is built.
   */
  datatype Frustum =
    | Ortho(left: real, right: real, bottom: real, top: real, near: real, far: real)
    | Persp(fov: real, aspect: real, near: real, far: real, shiftZ: real)

  /**
   * A zero width that is not above the height is a divisor of the extents;
   * the source's float division then gives an infinite extent, which the
   * model reports as this error.
   */
  datatype ProjectionError = ZeroWidth

  /** A zero height is read as a height of one; any other height is kept. */
  function EffectiveHeight(height: real): (h: real)
    ensures h != 0.0
    ensures height != 0.0 ==> h == height
  {
    if height == 0.0 then 1.0 else height
  }

  /**
   * GLCamera::updateProjectionMatrix. With width not above the (effective)
   * height the width is the reference dimension, otherwise the height is.
   */
  function Extents(kind: ProjectionKind, width: real, height: real, viewRange: real, fov: real)
    : (r: Result<Frustum, ProjectionError>)
    ensures r.Err? <==> width <= EffectiveHeight(height) && width == 0.0
    ensures r.Ok? && kind.Orthographic? ==> r.value.Ortho?
    ensures r.Ok? && kind.Perspective? ==> r.value.Persp? && r.value.fov == fov
  {
    var w := width;
    var h := EffectiveHeight(height);
    var halfRange := viewRange / 2.0;
    if w <= h && w == 0.0 then Err(ZeroWidth)
    else if kind.Orthographic? then Ok(OrthoBoxOf(halfRange, w, h))
    else
      var aspect := if w <= h then h / w else w / h;
      Ok(Persp(fov, aspect, 1.0, halfRange * 10000.0, -halfRange * 2.0))
  }

  /**
   * The orthographic box for a half range on a screen of w by h: the
   * reference dimension spans the range, the other one scales with the
   * aspect, and the depth is a thousand half ranges each way.
   */
  function OrthoBoxOf(halfRange: real, w: real, h: real): (f: Frustum)
    requires h != 0.0 && (w <= h ==> w != 0.0)
    ensures f.Ortho?
    ensures f.left == -f.right && f.bottom == -f.top
    ensures f.near == -f.far && f.far == 1000.0 * halfRange
    ensures w <= h ==> f.right == halfRange && f.top * w == halfRange * h
    ensures h < w ==> f.top == halfRange && f.right * h == halfRange * w
  {
    var depth := halfRange * 1000.0;
    if w <= h then
      var top := halfRange * h / w;
      DivBack(halfRange * h, w);
      Ortho(-halfRange, halfRange, -top, top, -depth, depth)
    else
      var right := halfRange * w / h;
      DivBack(halfRange * w, h);
      Ortho(-right, right, -halfRange, halfRange, -depth, depth)
  }

  /** On a real screen, whose sides are never negative, only a zero width fails. */
  lemma ExtentsFailOnlyOnZeroWidth(kind: ProjectionKind, width: real, height: real, viewRange: real, fov: real)
    requires 0.0 <= width && 0.0 <= height
    ensures Extents(kind, width, height, viewRange, fov).Err? <==> width == 0.0
  {
  }

  /**
   * The orthographic box is centred on the line of sight and its depth is a
   * thousand half-ranges each way; the side of the reference dimension spans
   * exactly the view range, and the other side stretches with the screen.
   */
  lemma OrthoBox(width: real, height: real, viewRange: real, fov: real)
    requires 0.0 < width && 0.0 <= height
    ensures var r := Extents(Orthographic, width, height, viewRange, fov);
      var hr := viewRange / 2.0;
      var h := EffectiveHeight(height);
      && r.Ok?
      && r.value.left == -r.value.right && r.value.bottom == -r.value.top
      && r.value.near == -r.value.far && r.value.far == 1000.0 * hr
      && (width <= h ==> r.value.right == hr && r.value.top * width == hr * h)
      && (h < width ==> r.value.top == hr && r.value.right * h == hr * width)
  {
  }

  lemma DivBack(a: real, k: real)
    requires k != 0.0
    ensures a / k * k == a
  {
  }

  /** The orthographic box has the aspect ratio of the screen. */
  lemma OrthoKeepsAspect(width: real, height: real, viewRange: real, fov: real)
    requires 0.0 < width && 0.0 <= height
    ensures var r := Extents(Orthographic, width, height, viewRange, fov);
      r.Ok? && r.value.right * EffectiveHeight(height) == r.value.top * width
  {
    OrthoBox(width, height, viewRange, fov);
  }

  /**
   * The perspective aspect is the longer side over the shorter one, so it is
   * at least one, and the camera is pulled back by the full view range.
   */
  lemma PerspectiveAspect(width: real, height: real, viewRange: real, fov: real)
    requires 0.0 < width && 0.0 <= height
    ensures var r := Extents(Perspective, width, height, viewRange, fov);
      var h := EffectiveHeight(height);
      && r.Ok?
      && 1.0 <= r.value.aspect
      && (width <= h ==> r.value.aspect * width == h)
      && (h < width ==> r.value.aspect * h == width)
      && r.value.near == 1.0 && r.value.far == 5000.0 * viewRange
      && r.value.shiftZ == -viewRange
  {
    var h := EffectiveHeight(height);
    if width <= h {
      QuotientAtLeastOne(h, width);
    } else {
      QuotientAtLeastOne(width, h);
    }
  }

  /** A ratio of a larger positive quantity over a smaller one is at least one. */
  lemma QuotientAtLeastOne(big: real, small: real)
    requires 0.0 < small <= big
    ensures 1.0 <= big / small && big / small * small == big
  {
    var q := big / small;
    assert q * small == big;
    assert (q - 1.0) * small == big - small;
  }

  /** A landscape screen of 800 by 400 with a view range of 100 spans 200 across and 100 up. */
  lemma LandscapeExample()
    ensures Extents(Orthographic, 800.0, 400.0, 100.0, 45.0)
      == Ok(Ortho(-100.0, 100.0, -50.0, 50.0, -50000.0, 50000.0))
  {
  }
}
