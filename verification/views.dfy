/**
 * The navigation state GLView keeps between events. The three QTimers that
 * drive the animations are reduced to whether each is running; a timer
 * firing becomes an explicit tick.
 */
module Views {
  import opened Vectors
  import opened Cameras
  import opened Spheres

  /** GLView's ViewMode: the standard views, plus NONE for no pending change. */
  datatype ViewMode = Top | Bottom | Left | Right | Front | Back | Isometric | Dimetric | Trimetric | NoMode

  datatype Viewer = Viewer(
    camera: Camera,
    viewRange: real,
    currentViewRange: real,
    currentTranslation: Vec3,
    slerpStep: real,
    viewMode: ViewMode,
    viewDia: real,
    sphere: Sphere,
    zoomRatio: real,
    zoomPan: Vec3,
    windowZoomActive: bool,
    viewTimer: bool,
    fitAllTimer: bool,
    windowZoomTimer: bool)

  /** The fraction of an animation done per tick; 0.02 is exactly 1/50 over the reals. */
  const SlerpFrac: real := 0.02

  /** The number of ticks that take the step from 0 to 1. */
  const AnimationTicks: nat := 50

  const MinViewRange: real := 0.05
  const MaxViewRange: real := 50000.0

  /** The clamp applied after each zoom: first the lower bound, then the upper one. */
  function Clamp(range: real): (r: real)
    ensures MinViewRange <= r <= MaxViewRange
    ensures MinViewRange <= range <= MaxViewRange ==> r == range
    ensures range < MinViewRange ==> r == MinViewRange
    ensures MaxViewRange < range ==> r == MaxViewRange
  {
    var r := if range < MinViewRange then MinViewRange else range;
    if r > MaxViewRange then MaxViewRange else r
  }

  /** Clamping keeps the order of two ranges. */
  lemma ClampMonotone(a: real, b: real)
    requires a <= b
    ensures Clamp(a) <= Clamp(b)
  {
  }

  /**
   * A viewer at rest: the animation baselines agree with the live values
   * and no animation is half-way.
   */
  predicate Settled(v: Viewer) {
    v.currentViewRange == v.viewRange && v.currentTranslation == v.camera.position && v.slerpStep == 0.0
  }

  /**
   * The state the GLView constructor sets up around a camera already put in
   * the south-east isometric view: a view range and target diameter of 200,
   * a default-constructed bounding sphere, and every animation idle.
   */
  function NewViewer(cam: Camera): (v: Viewer)
    ensures Settled(v)
    ensures v.viewRange == 200.0 && v.viewDia == 200.0 && v.zoomRatio == 1.0
    ensures v.viewMode == Isometric && v.sphere == NewSphere(0.0, 0.0, 0.0, 1.0)
    ensures !v.viewTimer && !v.fitAllTimer && !v.windowZoomTimer && !v.windowZoomActive
  {
    var dia := 200.0;
    Viewer(cam, dia, dia, cam.position, 0.0, Isometric, dia, NewSphere(0.0, 0.0, 0.0, 1.0), 1.0, Zero, false, false, false, false)
  }
}
