/**
 * The zoom branches of GLView's mouse handlers: dragging with the middle
 * button and turning the wheel. Each changes the view range, clamps it,
 * records it as the animation baseline, and nudges the camera toward the
 * cursor. The nudge direction comes from unprojecting two window points,
 * which is not modelled: it enters as the parameter `offset`.
 */
module Zooming {
  import opened Vectors
  import opened Cameras
  import opened Views
  import opened Navigation

  /** The zoom changes only the range, its baseline, the camera position and its baseline. */
  predicate ZoomFrame(v: Viewer, r: Viewer) {
    && r.camera.view == v.camera.view && r.camera.up == v.camera.up
    && r.camera.right == v.camera.right && r.camera.zoom == v.camera.zoom
    && r.slerpStep == v.slerpStep && r.viewMode == v.viewMode && r.viewDia == v.viewDia
    && r.sphere == v.sphere && r.zoomRatio == v.zoomRatio && r.zoomPan == v.zoomPan
    && r.windowZoomActive == v.windowZoomActive
    && r.fitAllTimer == v.fitAllTimer && r.windowZoomTimer == v.windowZoomTimer
  }

  // ---------------------------------------------------------------------------
  // Middle-button drag

  /** Dragging right or up zooms in. */
  predicate DragZoomsIn(down: Point, middle: Point) {
    down.x > middle.x || down.y < middle.y
  }

  /**
   * The middle-button branch of GLView::mouseMoveEvent, with the view
   * animation stopped first as every mouse move does. Zooming in divides
   * the range by 1.05 and out multiplies it; the camera moves by a
   * twentieth of the offset, toward the cursor when zooming in.
   */
  function DragZoom(v: Viewer, down: Point, middle: Point, offset: Vec3): (r: Viewer)
    ensures ZoomFrame(v, r) && !r.viewTimer
    ensures MinViewRange <= r.viewRange <= MaxViewRange && r.currentViewRange == r.viewRange
    ensures r.viewRange == Clamp(if DragZoomsIn(down, middle) then v.viewRange / 1.05 else v.viewRange * 1.05)
    ensures DragZoomsIn(down, middle) && MinViewRange <= v.viewRange / 1.05 <= MaxViewRange ==>
      r.viewRange * 1.05 == v.viewRange
    ensures !DragZoomsIn(down, middle) && MinViewRange <= v.viewRange * 1.05 <= MaxViewRange ==>
      r.viewRange == v.viewRange * 1.05
    ensures Sub(r.camera.position, v.camera.position) == Scale(offset, if DragZoomsIn(down, middle) then 0.05 else -0.05)
    ensures r.currentTranslation == r.camera.position
  {
    var zoomIn := DragZoomsIn(down, middle);
    var range := if zoomIn then v.viewRange / 1.05 else v.viewRange * 1.05;
    var range := Clamp(range);
    var sign := if zoomIn then 1.0 else -1.0;
    var cam := Move(v.camera, Scale(offset, sign * 0.05));
    v.(viewTimer := false, viewRange := range, currentViewRange := range, camera := cam, currentTranslation := cam.position)
  }

  /**
   * A drag step in and a drag step out with the same offset restore the
   * range and the camera position, as long as the clamp stays out of the way.
   */
  lemma DragZoomInThenOut(v: Viewer, in1: Point, in2: Point, out1: Point, out2: Point, offset: Vec3)
    requires DragZoomsIn(in1, in2) && !DragZoomsIn(out1, out2)
    requires MinViewRange * 1.05 <= v.viewRange <= MaxViewRange
    ensures var r := DragZoom(DragZoom(v, in1, in2, offset), out1, out2, offset);
      r.viewRange == v.viewRange && r.camera == v.camera && Settled(r) == (v.slerpStep == 0.0)
  {
    var mid := DragZoom(v, in1, in2, offset);
    assert mid.viewRange * 1.05 == v.viewRange;
    var r := DragZoom(mid, out1, out2, offset);
    assert Scale(offset, 0.05) == Neg(Scale(offset, -0.05));
    MoveInverse(mid.camera, Scale(offset, -0.05));
    assert mid.camera == Move(v.camera, Scale(offset, 0.05));
    assert r.camera == Move(mid.camera, Scale(offset, -0.05));
    MoveInverse(v.camera, Scale(offset, 0.05));
    assert Neg(Scale(offset, 0.05)) == Scale(offset, -0.05);
  }

  // ---------------------------------------------------------------------------
  // Wheel

  /** The cursor test that decides whether the wheel nudge goes toward the cursor. */
  predicate WheelTowardCursor(pos: Point, cen: Point, zoomStep: real) {
    (pos.x > cen.x || pos.y < cen.y || (pos.x < cen.x && pos.y > cen.y)) && zoomStep > 0.0
  }

  /**
   * The range after a wheel turn of the given whole steps, before the clamp.
   * The factor is the number of steps plus 0.05; negative steps multiply the
   * range by it and every other count, zero included, divides by it.
   */
  function WheelRange(range: real, steps: int): (r: real)
    ensures 0 < steps ==> r * (steps as real + 0.05) == range
    ensures steps < 0 ==> r == range * (0.05 - steps as real)
    ensures steps == 0 ==> r == range * 20.0
  {
    var zoomStep := steps as real;
    var factor := Abs(zoomStep) + 0.05;
    if zoomStep < 0.0 then range * factor else range / factor
  }

  /**
   * GLView::wheelEvent as written: the range moves by WheelRange and is
   * clamped; the camera is nudged toward the cursor only on a forward turn.
   */
  function WheelZoom(v: Viewer, angleDeltaY: int, pos: Point, multiView: bool, w: nat, h: nat, offset: Vec3): (r: Viewer)
    ensures ZoomFrame(v, r) && r.viewTimer == v.viewTimer
    ensures MinViewRange <= r.viewRange <= MaxViewRange && r.currentViewRange == r.viewRange
    ensures r.viewRange == Clamp(WheelRange(v.viewRange, WheelSteps(angleDeltaY)))
    ensures WheelSteps(angleDeltaY) <= 0 ==> Sub(r.camera.position, v.camera.position) == Scale(offset, -0.05)
    ensures 0 < WheelSteps(angleDeltaY) ==>
      var toward := WheelTowardCursor(pos, Center(ClientRect(multiView, w, h, pos)), WheelSteps(angleDeltaY) as real);
      Sub(r.camera.position, v.camera.position) == Scale(offset, if toward then 0.05 else -0.05)
    ensures r.currentTranslation == r.camera.position
  {
    var zoomStep := WheelSteps(angleDeltaY);
    var range := Clamp(WheelRange(v.viewRange, zoomStep));
    var cen := Center(ClientRect(multiView, w, h, pos));
    var sign := if WheelTowardCursor(pos, cen, zoomStep as real) then 1.0 else -1.0;
    var cam := Move(v.camera, Scale(offset, sign * 0.05));
    v.(viewRange := range, currentViewRange := range, camera := cam, currentTranslation := cam.position)
  }

  /**
   * A wheel event of less than half a notch has no whole step, and is read
   * as a zoom out by a factor of twenty.
   */
  lemma WheelSmallDeltaZoomsOut(v: Viewer, angleDeltaY: int, pos: Point, multiView: bool, w: nat, h: nat, offset: Vec3)
    requires -60 <= angleDeltaY < 60
    requires MinViewRange <= v.viewRange * 20.0 <= MaxViewRange
    ensures WheelZoom(v, angleDeltaY, pos, multiView, w, h, offset).viewRange == v.viewRange * 20.0
  {
    WheelStepsZero(angleDeltaY);
  }

  /**
   * One notch forward divides the range by 1.05 and one notch back restores
   * it, as long as the clamp stays out of the way.
   */
  lemma WheelNotchRoundTrip(v: Viewer, pos: Point, multiView: bool, w: nat, h: nat, offset: Vec3)
    requires MinViewRange * 1.05 <= v.viewRange <= MaxViewRange
    ensures var r := WheelZoom(v, 120, pos, multiView, w, h, offset);
      r.viewRange * 1.05 == v.viewRange && WheelZoom(r, -120, pos, multiView, w, h, offset).viewRange == v.viewRange
  {
    WheelStepsOfNotches(1);
    WheelStepsOfNotches(-1);
    var r := WheelZoom(v, 120, pos, multiView, w, h, offset);
    assert r.viewRange == v.viewRange / 1.05;
    assert WheelRange(r.viewRange, -1) == r.viewRange * 1.05;
  }

  /**
   * The wheel as evidently intended: an event without a whole step leaves
   * the view alone, and every other event is handled as written.
   */
  function WheelZoomCorrected(v: Viewer, angleDeltaY: int, pos: Point, multiView: bool, w: nat, h: nat, offset: Vec3): (r: Viewer)
    ensures -60 <= angleDeltaY < 60 ==> r == v
    ensures !(-60 <= angleDeltaY < 60) ==> r == WheelZoom(v, angleDeltaY, pos, multiView, w, h, offset)
  {
    WheelStepsZero(angleDeltaY);
    if WheelSteps(angleDeltaY) == 0 then v else WheelZoom(v, angleDeltaY, pos, multiView, w, h, offset)
  }

  /**
   * The corrected wheel never zooms the wrong way: a forward turn never
   * widens the range, a backward turn never narrows it, and no step keeps it.
   */
  lemma WheelZoomCorrectedDirection(v: Viewer, angleDeltaY: int, pos: Point, multiView: bool, w: nat, h: nat, offset: Vec3)
    requires MinViewRange <= v.viewRange <= MaxViewRange
    ensures var r := WheelZoomCorrected(v, angleDeltaY, pos, multiView, w, h, offset);
      && (60 <= angleDeltaY ==> r.viewRange <= v.viewRange)
      && (angleDeltaY < -60 ==> v.viewRange <= r.viewRange)
      && (-60 <= angleDeltaY < 60 ==> r.viewRange == v.viewRange)
  {
    WheelStepsZero(angleDeltaY);
    var k := WheelSteps(angleDeltaY);
    var next := WheelRange(v.viewRange, k);
    if 60 <= angleDeltaY {
      Shrink(v.viewRange, k as real + 0.05, next);
      ClampMonotone(next, v.viewRange);
    } else if angleDeltaY < -60 {
      Grow(v.viewRange, 0.05 - k as real);
      ClampMonotone(v.viewRange, next);
    }
  }

  lemma Shrink(x: real, f: real, q: real)
    requires 0.0 <= x && 1.0 <= f && q * f == x
    ensures q <= x
  {
    assert q * (f - 1.0) == x - q;
    if q > 0.0 {
      assert q * (f - 1.0) >= 0.0;
    }
  }

  lemma Grow(x: real, f: real)
    requires 0.0 <= x && 1.0 <= f
    ensures x <= x * f
  {
    assert x * f - x == x * (f - 1.0);
  }
}
