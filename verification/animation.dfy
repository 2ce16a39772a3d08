/**
 * The animated changes of GLView: a new standard view, fit-all and window
 * zoom. Each is started by a request that arms a timer, and then advances
 * by one fiftieth per timer tick until the step reaches one, where the
 * baselines are brought up to date and the timer stops.
 *
 * The rotation part of a view change interpolates quaternions and reads
 * the camera frame off a rotation matrix; that calculation is not modelled
 * and enters as the parameter `slerp`, which maps the target angles and the
 * step reached to the camera frame.
 */
module Animation {
  import opened Wrappers
  import opened Vectors
  import opened Cameras
  import opened Views
  import Presets
  import Navigation

  /** The camera keeps its orientation and zoom; only its position may differ. */
  predicate SameOrientation(a: Camera, b: Camera) {
    a.view == b.view && a.up == b.up && a.right == b.right && a.zoom == b.zoom
  }

  /** The scene data an animation tick never touches. */
  predicate KeepsScene(v: Viewer, r: Viewer) {
    && r.viewDia == v.viewDia && r.sphere == v.sphere
    && r.zoomRatio == v.zoomRatio && r.zoomPan == v.zoomPan
    && r.windowZoomActive == v.windowZoomActive
  }

  /** The viewer's navigation state: the camera, the range and their baselines. */
  predicate KeepsNavigation(v: Viewer, r: Viewer) {
    && r.camera == v.camera && r.viewRange == v.viewRange
    && r.currentViewRange == v.currentViewRange && r.currentTranslation == v.currentTranslation
  }

  // ---------------------------------------------------------------------------
  // Requests

  /**
   * GLView::setViewMode: the request arms the view timer and records the
   * mode, unless a view change is already running, in which case it is
   * dropped.
   */
  function SetViewMode(v: Viewer, mode: ViewMode): (r: Viewer)
    ensures r.viewTimer
    ensures v.viewTimer ==> r == v
    ensures !v.viewTimer ==> r.viewMode == mode && r.slerpStep == 0.0
    ensures KeepsNavigation(v, r) && KeepsScene(v, r)
    ensures r.fitAllTimer == v.fitAllTimer && r.windowZoomTimer == v.windowZoomTimer
  {
    if !v.viewTimer then v.(viewTimer := true, viewMode := mode, slerpStep := 0.0) else v
  }

  /** While a view change runs, the first request wins and later ones are ignored. */
  lemma SetViewModeFirstWins(v: Viewer, first: ViewMode, second: ViewMode)
    requires !v.viewTimer
    ensures SetViewMode(SetViewMode(v, first), second).viewMode == first
  {
  }

  /**
   * GLView::fitAll: the target diameter is always refreshed from the
   * bounding sphere; the timer is armed, and the step reset, only when the
   * fit-all animation is not already running.
   */
  function FitAll(v: Viewer): (r: Viewer)
    ensures r.viewDia == v.sphere.radius * 2.0 && r.fitAllTimer
    ensures r.slerpStep == if v.fitAllTimer then v.slerpStep else 0.0
    ensures KeepsNavigation(v, r) && r.sphere == v.sphere && r.viewMode == v.viewMode
    ensures r.zoomRatio == v.zoomRatio && r.zoomPan == v.zoomPan && r.windowZoomActive == v.windowZoomActive
    ensures r.viewTimer == v.viewTimer && r.windowZoomTimer == v.windowZoomTimer
  {
    var v := v.(viewDia := v.sphere.radius * 2.0);
    if !v.fitAllTimer then v.(fitAllTimer := true, slerpStep := 0.0) else v
  }

  /** Asking twice for fit-all is the same as asking once. */
  lemma FitAllIdempotent(v: Viewer)
    ensures FitAll(FitAll(v)) == FitAll(v)
  {
  }

  /**
   * GLView::endWindowZoom. Window-zoom mode ends. If a rubber band was
   * drawn, the zoom ratio is the smaller of the whole-number quotients of
   * the client sides by the band's, and the pan is the world offset from the
   * client centre to the band centre (computed by unprojection, so it is the
   * parameter `pan`). A band with a zero side divides by zero. The window
   * zoom timer is armed as in the other requests.
   */
  function EndWindowZoom(v: Viewer, clientW: int, clientH: int, band: Option<Navigation.Rect>, pan: Vec3)
    : (r: Result<Viewer, Navigation.ZoomError>)
    ensures r.Err? <==> band.Some? && (band.value.width == 0 || band.value.height == 0)
    ensures r.Ok? ==> !r.value.windowZoomActive && r.value.windowZoomTimer
    ensures r.Ok? && band.Some? ==>
      var ratio := Navigation.ZoomRatio(clientW, clientH, band.value.width, band.value.height);
      ratio.Ok? && r.value.zoomRatio == ratio.value as real && r.value.zoomPan == pan
    ensures r.Ok? && band.None? ==> r.value.zoomRatio == v.zoomRatio && r.value.zoomPan == v.zoomPan
    ensures r.Ok? ==> r.value.slerpStep == if v.windowZoomTimer then v.slerpStep else 0.0
    ensures r.Ok? ==> KeepsNavigation(v, r.value) && r.value.viewDia == v.viewDia && r.value.sphere == v.sphere
    ensures r.Ok? ==> r.value.viewMode == v.viewMode && r.value.viewTimer == v.viewTimer && r.value.fitAllTimer == v.fitAllTimer
  {
    var v := v.(windowZoomActive := false);
    var zoomed :=
      if band.None? then Ok(v)
      else match Navigation.ZoomRatio(clientW, clientH, band.value.width, band.value.height)
        case Err(e) => Err(e)
        case Ok(ratio) => Ok(v.(zoomRatio := ratio as real, zoomPan := pan));
    if zoomed.Err? then zoomed
    else if !zoomed.value.windowZoomTimer then Ok(zoomed.value.(windowZoomTimer := true, slerpStep := 0.0))
    else zoomed
  }

  /**
   * A band of positive size inside the client area gives the largest whole
   * factor by which the band still fits the client area.
   */
  lemma EndWindowZoomRatioFits(v: Viewer, clientW: int, clientH: int, band: Navigation.Rect, pan: Vec3)
    requires 0 <= clientW && 0 <= clientH && 0 < band.width && 0 < band.height
    ensures var r := EndWindowZoom(v, clientW, clientH, Some(band), pan);
      && r.Ok?
      && (exists k: int :: 0 <= k && r.value.zoomRatio == k as real
           && k * band.width <= clientW && k * band.height <= clientH
           && ((k + 1) * band.width > clientW || (k + 1) * band.height > clientH))
  {
    Navigation.ZoomRatioLargestFit(clientW, clientH, band.width, band.height);
    var k := Navigation.ZoomRatio(clientW, clientH, band.width, band.height).value;
    assert EndWindowZoom(v, clientW, clientH, Some(band), pan).value.zoomRatio == k as real;
  }

  // ---------------------------------------------------------------------------
  // Zoom and pan ticks

  /** The tick that takes the step to one ends the animation. */
  predicate Finishes(v: Viewer) {
    v.slerpStep + SlerpFrac == 1.0
  }

  /**
   * GLView::setZoomAndPan, one tick of fit-all or window zoom: the camera
   * moves by a fiftieth of the pan, the range moves by a fiftieth of the
   * distance from its baseline to the target. On the last tick the baselines
   * take the reached values, the mode is cleared and both zoom timers stop.
   */
  function ZoomPanTick(v: Viewer, zoom: real, pan: Vec3): (r: Viewer)
    ensures r.camera.position == Add(v.camera.position, Scale(pan, SlerpFrac)) && SameOrientation(r.camera, v.camera)
    ensures r.viewRange == v.viewRange - (v.currentViewRange - zoom) * SlerpFrac
    ensures KeepsScene(v, r) && r.viewTimer == v.viewTimer
    ensures Finishes(v) ==> Settled(r) && r.viewMode == NoMode && !r.fitAllTimer && !r.windowZoomTimer
    ensures !Finishes(v) ==>
      && r.slerpStep == v.slerpStep + SlerpFrac
      && r.currentViewRange == v.currentViewRange && r.currentTranslation == v.currentTranslation
      && r.viewMode == v.viewMode && r.fitAllTimer == v.fitAllTimer && r.windowZoomTimer == v.windowZoomTimer
  {
    var step := v.slerpStep + SlerpFrac;
    var cam := Move(v.camera, Scale(pan, SlerpFrac));
    var range := v.viewRange - (v.currentViewRange - zoom) * SlerpFrac;
    if step == 1.0 then
      v.(camera := cam, viewRange := range, currentTranslation := cam.position, currentViewRange := range,
         viewMode := NoMode, slerpStep := 0.0, fitAllTimer := false, windowZoomTimer := false)
    else
      v.(camera := cam, viewRange := range, slerpStep := step)
  }

  /** `k` ticks toward the same target. */
  function ZoomPanRun(v: Viewer, zoom: real, pan: Vec3, k: nat): Viewer {
    if k == 0 then v else ZoomPanTick(ZoomPanRun(v, zoom, pan, k - 1), zoom, pan)
  }

  /**
   * Before the last tick, the camera and the range have covered `k` fiftieths
   * of the way, and the baselines are untouched.
   */
  lemma {:induction false} ZoomPanProgress(v: Viewer, zoom: real, pan: Vec3, k: nat)
    requires v.slerpStep == 0.0 && k < AnimationTicks
    ensures var r := ZoomPanRun(v, zoom, pan, k);
      && r.slerpStep == k as real * SlerpFrac
      && r.camera.position == Add(v.camera.position, Scale(pan, k as real * SlerpFrac))
      && SameOrientation(r.camera, v.camera)
      && r.viewRange == v.viewRange - Mul(k as real * SlerpFrac, v.currentViewRange - zoom)
      && r.currentViewRange == v.currentViewRange && r.currentTranslation == v.currentTranslation
      && r.viewMode == v.viewMode && KeepsScene(v, r)
      && r.viewTimer == v.viewTimer && r.fitAllTimer == v.fitAllTimer && r.windowZoomTimer == v.windowZoomTimer
  {
    if k == 0 {
      ScaleUnitZero(pan);
      AddZero(v.camera.position);
    } else {
      ZoomPanProgress(v, zoom, pan, k - 1);
      var prev := ZoomPanRun(v, zoom, pan, k - 1);
      assert prev.slerpStep + SlerpFrac == k as real * SlerpFrac;
      assert !Finishes(prev);
      ShiftAlong(v.camera.position, pan, (k - 1) as real * SlerpFrac, SlerpFrac);
      OneMoreStep(k, v.currentViewRange - zoom);
    }
  }

  /** `k` fiftieths of a distance are `k - 1` fiftieths of it and one more. */
  lemma OneMoreStep(k: nat, d: real)
    requires 0 < k
    ensures Mul(k as real * SlerpFrac, d) == Mul((k - 1) as real * SlerpFrac, d) + d * SlerpFrac
  {
  }

  /**
   * Fifty ticks from a reset step complete the animation: the camera has
   * moved by the whole pan, the range has moved by the whole distance from
   * its baseline to the target, the viewer is settled and both zoom timers
   * are stopped.
   */
  lemma ZoomPanConverges(v: Viewer, zoom: real, pan: Vec3)
    requires v.slerpStep == 0.0
    ensures var r := ZoomPanRun(v, zoom, pan, AnimationTicks);
      && r.camera.position == Add(v.camera.position, pan) && SameOrientation(r.camera, v.camera)
      && r.viewRange == v.viewRange - (v.currentViewRange - zoom)
      && Settled(r) && r.viewMode == NoMode && !r.fitAllTimer && !r.windowZoomTimer
      && r.viewTimer == v.viewTimer && KeepsScene(v, r)
  {
    ZoomPanProgress(v, zoom, pan, AnimationTicks - 1);
    var prev := ZoomPanRun(v, zoom, pan, AnimationTicks - 1);
    assert Finishes(prev);
    ShiftAlong(v.camera.position, pan, 49.0 * SlerpFrac, SlerpFrac);
    ScaleUnitZero(pan);
  }

  /** GLView::animateFitAll pans from the baseline position to the sphere centre. */
  function FitAllPan(v: Viewer): Vec3 {
    Add(Neg(v.currentTranslation), v.sphere.center)
  }

  /**
   * GLView::animateFitAll: one tick toward the target diameter and the sphere
   * centre. The camera covers a fiftieth of the way from the baseline position
   * to the centre, and the range a fiftieth of the way from the baseline range
   * to the diameter.
   */
  function AnimateFitAll(v: Viewer): (r: Viewer)
    ensures Sub(r.camera.position, v.camera.position) == Scale(Sub(v.sphere.center, v.currentTranslation), SlerpFrac)
    ensures r.viewRange - v.viewRange == (v.viewDia - v.currentViewRange) * SlerpFrac
    ensures SameOrientation(r.camera, v.camera) && KeepsScene(v, r) && r.viewTimer == v.viewTimer
    ensures Finishes(v) ==> Settled(r) && r.viewMode == NoMode && !r.fitAllTimer && !r.windowZoomTimer
  {
    ZoomPanTick(v, v.viewDia, FitAllPan(v))
  }

  function FitAllRun(v: Viewer, k: nat): Viewer {
    if k == 0 then v else AnimateFitAll(FitAllRun(v, k - 1))
  }

  /** Since the target is read from data the ticks leave alone, fit-all pans toward a fixed target. */
  lemma {:induction false} FitAllRunIsZoomPan(v: Viewer, k: nat)
    requires v.slerpStep == 0.0 && k <= AnimationTicks
    ensures FitAllRun(v, k) == ZoomPanRun(v, v.viewDia, FitAllPan(v), k)
  {
    if k > 0 {
      FitAllRunIsZoomPan(v, k - 1);
      ZoomPanProgress(v, v.viewDia, FitAllPan(v), k - 1);
      var prev := FitAllRun(v, k - 1);
      assert FitAllPan(prev) == FitAllPan(v) && prev.viewDia == v.viewDia;
    }
  }

  /**
   * Fit-all from a settled viewer ends, fifty ticks later, with the camera on
   * the bounding sphere's centre, the range equal to the sphere's diameter,
   * the viewer settled and the fit-all timer stopped.
   */
  lemma FitAllCentresSphere(v: Viewer)
    requires Settled(v)
    ensures var r := FitAllRun(FitAll(v), AnimationTicks);
      && r.camera.position == v.sphere.center && SameOrientation(r.camera, v.camera)
      && r.viewRange == v.sphere.radius * 2.0
      && Settled(r) && !r.fitAllTimer && r.viewMode == NoMode
  {
    var w := FitAll(v);
    FitAllRunIsZoomPan(w, AnimationTicks);
    ZoomPanConverges(w, w.viewDia, FitAllPan(w));
    AddNegCancel(v.camera.position, v.sphere.center);
  }

  /** Reaching the target range needs a ratio to divide by. */
  datatype AnimationError = ZeroZoomRatio

  /**
   * GLView::animateWindowZoom: one tick toward the baseline range divided by
   * the zoom ratio, panning by the recorded pan. A ratio of zero, which a
   * band wider or taller than the client area gives, makes the source's
   * float division produce an infinite target range; the model reports it
   * as an error.
   */
  function AnimateWindowZoom(v: Viewer): (r: Result<Viewer, AnimationError>)
    ensures r.Err? <==> v.zoomRatio == 0.0
  {
    if v.zoomRatio == 0.0 then Err(ZeroZoomRatio)
    else Ok(ZoomPanTick(v, v.currentViewRange / v.zoomRatio, v.zoomPan))
  }

  function WindowZoomRun(v: Viewer, k: nat): Result<Viewer, AnimationError> {
    if k == 0 then Ok(v)
    else match WindowZoomRun(v, k - 1)
      case Err(e) => Err(e)
      case Ok(w) => AnimateWindowZoom(w)
  }

  /** The window zoom also pans toward a fixed target while it runs. */
  lemma {:induction false} WindowZoomRunIsZoomPan(v: Viewer, k: nat)
    requires v.slerpStep == 0.0 && v.zoomRatio != 0.0 && k <= AnimationTicks
    ensures WindowZoomRun(v, k) == Ok(ZoomPanRun(v, v.currentViewRange / v.zoomRatio, v.zoomPan, k))
  {
    if k > 0 {
      WindowZoomRunIsZoomPan(v, k - 1);
      ZoomPanProgress(v, v.currentViewRange / v.zoomRatio, v.zoomPan, k - 1);
    }
  }

  /**
   * Window zoom from a settled viewer with a non-zero ratio ends with the
   * range divided by the ratio and the camera moved by the whole pan.
   */
  lemma WindowZoomConverges(v: Viewer)
    requires Settled(v) && v.zoomRatio != 0.0
    ensures var r := WindowZoomRun(v, AnimationTicks);
      && r.Ok?
      && r.value.viewRange == v.viewRange / v.zoomRatio
      && r.value.camera.position == Add(v.camera.position, v.zoomPan)
      && Settled(r.value) && !r.value.windowZoomTimer && r.value.viewMode == NoMode
  {
    var zoom := v.currentViewRange / v.zoomRatio;
    WindowZoomRunIsZoomPan(v, AnimationTicks);
    ZoomPanConverges(v, zoom, v.zoomPan);
  }

  // ---------------------------------------------------------------------------
  // View change

  /** Euler angles in degrees, in GLView::setRotations' order: about x, y and z. */
  datatype EulerAngles = EulerAngles(x: real, y: real, z: real)

  /** The orientation GLView::animateViewChange rotates toward for each mode. */
  function TargetAngles(mode: ViewMode): (r: Option<EulerAngles>)
    ensures r.None? <==> mode == NoMode
    ensures r.Some? ==> -180.0 <= r.value.x <= 180.0 && -180.0 <= r.value.y <= 180.0 && -180.0 <= r.value.z <= 180.0
  {
    match mode
    case Top => Some(EulerAngles(0.0, 0.0, 0.0))
    case Bottom => Some(EulerAngles(0.0, -180.0, 0.0))
    case Left => Some(EulerAngles(0.0, -90.0, 90.0))
    case Right => Some(EulerAngles(0.0, -90.0, -90.0))
    case Front => Some(EulerAngles(0.0, -90.0, 0.0))
    case Back => Some(EulerAngles(0.0, -90.0, 180.0))
    case Isometric => Some(EulerAngles(-45.0, -54.7356, 0.0))
    case Dimetric => Some(EulerAngles(-14.1883, -73.9639, -0.148236))
    case Trimetric => Some(EulerAngles(-32.5829, -61.4997, -0.877613))
    case NoMode => None
  }

  /** The six axis views differ from one another, and each from the three axonometric ones. */
  lemma TargetAnglesDistinct(a: ViewMode, b: ViewMode)
    requires a != NoMode && b != NoMode && a != b
    ensures TargetAngles(a) != TargetAngles(b)
  {
  }

  /** The point a fraction `t` of the way from `a` to `b`, written as setRotations does. */
  function Lerp(a: Vec3, b: Vec3, t: real): Vec3 {
    Add(Sub(a, Scale(a, t)), Scale(b, t))
  }

  /** The interpolation starts at its first end and stops at its second. */
  lemma LerpEnds(a: Vec3, b: Vec3)
    ensures Lerp(a, b, 0.0) == a && Lerp(a, b, 1.0) == b
  {
    ScaleUnitZero(a);
    ScaleUnitZero(b);
  }

  /**
   * GLView::setRotations, one tick of a view change. The step advances
   * first; the camera gets the interpolated frame and sits that fraction of
   * the way from the baseline position to the sphere centre; the range moves
   * a fiftieth of the way from its baseline to the target diameter. On the
   * last tick the baselines take the reached values, the mode is cleared
   * and the view timer stops.
   */
  function RotationTick(v: Viewer, frame: Presets.Basis): (r: Viewer)
    ensures r.camera.position == Lerp(v.currentTranslation, v.sphere.center, v.slerpStep + SlerpFrac)
    ensures r.camera.view == frame.view && r.camera.up == frame.up && r.camera.right == frame.right
    ensures r.camera.zoom == v.camera.zoom
    ensures r.viewRange == v.viewRange - (v.currentViewRange - v.viewDia) * SlerpFrac
    ensures KeepsScene(v, r) && r.fitAllTimer == v.fitAllTimer && r.windowZoomTimer == v.windowZoomTimer
    ensures Finishes(v) ==> Settled(r) && r.viewMode == NoMode && !r.viewTimer
    ensures !Finishes(v) ==>
      && r.slerpStep == v.slerpStep + SlerpFrac
      && r.currentViewRange == v.currentViewRange && r.currentTranslation == v.currentTranslation
      && r.viewMode == v.viewMode && r.viewTimer == v.viewTimer
  {
    var step := v.slerpStep + SlerpFrac;
    var pos := Lerp(v.currentTranslation, v.sphere.center, step);
    var cam := SetFrame(v.camera, pos, frame.view, frame.up, frame.right);
    var range := v.viewRange - (v.currentViewRange - v.viewDia) * SlerpFrac;
    if step == 1.0 then
      v.(camera := cam, viewRange := range, currentTranslation := cam.position, currentViewRange := range,
         viewMode := NoMode, slerpStep := 0.0, viewTimer := false)
    else
      v.(camera := cam, viewRange := range, slerpStep := step)
  }

  /**
   * GLView::animateViewChange: a tick toward the target of the current mode;
   * with no mode pending the tick does nothing. `slerp` gives the frame
   * reached at a step on the way to the target angles.
   */
  function AnimateViewChange(v: Viewer, slerp: (EulerAngles, real) -> Presets.Basis): (r: Viewer)
    ensures v.viewMode == NoMode ==> r == v
    ensures v.viewMode != NoMode ==>
      var f := slerp(TargetAngles(v.viewMode).value, v.slerpStep + SlerpFrac);
      r.camera.view == f.view && r.camera.up == f.up && r.camera.right == f.right
  {
    match TargetAngles(v.viewMode)
    case None => v
    case Some(angles) => RotationTick(v, slerp(angles, v.slerpStep + SlerpFrac))
  }

  function ViewChangeRun(v: Viewer, slerp: (EulerAngles, real) -> Presets.Basis, k: nat): Viewer {
    if k == 0 then v else AnimateViewChange(ViewChangeRun(v, slerp, k - 1), slerp)
  }

  /**
   * Before the last tick of a view change the range has covered `k`
   * fiftieths of the way to the target diameter, the camera sits `k`
   * fiftieths of the way to the sphere centre with the frame the
   * interpolation gives there, and the baselines are untouched.
   */
  lemma {:induction false} ViewChangeProgress(v: Viewer, slerp: (EulerAngles, real) -> Presets.Basis, k: nat)
    requires v.slerpStep == 0.0 && v.viewMode != NoMode && k < AnimationTicks
    ensures var r := ViewChangeRun(v, slerp, k);
      && r.slerpStep == k as real * SlerpFrac
      && r.viewRange == v.viewRange - Mul(k as real * SlerpFrac, v.currentViewRange - v.viewDia)
      && r.currentViewRange == v.currentViewRange && r.currentTranslation == v.currentTranslation
      && r.viewMode == v.viewMode && r.viewTimer == v.viewTimer && KeepsScene(v, r)
      && r.fitAllTimer == v.fitAllTimer && r.windowZoomTimer == v.windowZoomTimer
      && r.camera.zoom == v.camera.zoom
      && (0 < k ==> r.camera.position == Lerp(v.currentTranslation, v.sphere.center, k as real * SlerpFrac))
  {
    if k > 0 {
      ViewChangeProgress(v, slerp, k - 1);
      var prev := ViewChangeRun(v, slerp, k - 1);
      assert prev.slerpStep + SlerpFrac == k as real * SlerpFrac;
      assert !Finishes(prev);
      OneMoreStep(k, v.currentViewRange - v.viewDia);
    }
  }

  /**
   * A view change started on a settled viewer ends, fifty ticks later, with
   * the camera on the sphere centre in the target frame, the range equal to
   * the target diameter, the mode cleared, the viewer settled and the view
   * timer stopped. The target frame is what the interpolation gives at step
   * one, as quaternion slerp returns its second argument there.
   */
  lemma ViewChangeConverges(v: Viewer, mode: ViewMode, slerp: (EulerAngles, real) -> Presets.Basis,
                            frame: EulerAngles -> Presets.Basis)
    requires Settled(v) && !v.viewTimer && mode != NoMode
    requires forall a :: slerp(a, 1.0) == frame(a)
    ensures var r := ViewChangeRun(SetViewMode(v, mode), slerp, AnimationTicks);
      var f := frame(TargetAngles(mode).value);
      && r.camera.position == v.sphere.center
      && r.camera.view == f.view && r.camera.up == f.up && r.camera.right == f.right
      && r.viewRange == v.viewDia
      && Settled(r) && r.viewMode == NoMode && !r.viewTimer
  {
    var w := SetViewMode(v, mode);
    ViewChangeProgress(w, slerp, AnimationTicks - 1);
    var prev := ViewChangeRun(w, slerp, AnimationTicks - 1);
    assert Finishes(prev);
    LerpEnds(v.currentTranslation, v.sphere.center);
  }
}
