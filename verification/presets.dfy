/**
 * The catalogue of standard views of GLCamera::setView(ViewProjection): each
 * preset names a view direction, a right vector and an up vector. The
 * isometric, dimetric and trimetric entries are not normalised, and the
 * trimetric entry holds three-digit decimal approximations.
 */
module Presets {
  import opened Vectors
  import opened Cameras

  /**
   * The camera's preset identifiers, in the order of the `switch`.
   * `Unlisted` stands for any value of the enumeration outside the named
   * cases, which the `default` label sends to the south-east isometric view.
   */
  datatype ViewProjection =
    | TopView | BottomView | FrontView | RearView | LeftView | RightView
    | DimetricView | TrimetricView
    | NwIsometricView | SwIsometricView | NeIsometricView | SeIsometricView
    | Unlisted(code: int)

  /** A basis as stored by the camera. */
  datatype Basis = Basis(view: Vec3, up: Vec3, right: Vec3)

  /** The six presets that look along a coordinate axis. */
  predicate IsAxisView(p: ViewProjection) {
    p.TopView? || p.BottomView? || p.FrontView? || p.RearView? || p.LeftView? || p.RightView?
  }

  /** The table of the `switch`; unknown identifiers share the south-east isometric entry. */
  function PresetBasis(p: ViewProjection): (b: Basis)
    ensures p.TopView? ==> b.view == Vec3(0.0, 0.0, -1.0) && b.up == Vec3(0.0, 1.0, 0.0)
    ensures !p.TopView? ==> b.view != Vec3(0.0, 0.0, -1.0)
  {
    match p
    case TopView => Basis(Vec3(0.0, 0.0, -1.0), Vec3(0.0, 1.0, 0.0), Vec3(1.0, 0.0, 0.0))
    case BottomView => Basis(Vec3(0.0, 0.0, 1.0), Vec3(0.0, -1.0, 0.0), Vec3(1.0, 0.0, 0.0))
    case FrontView => Basis(Vec3(0.0, 1.0, 0.0), Vec3(0.0, 0.0, 1.0), Vec3(1.0, 0.0, 0.0))
    case RearView => Basis(Vec3(0.0, -1.0, 0.0), Vec3(0.0, 0.0, 1.0), Vec3(-1.0, 0.0, 0.0))
    case LeftView => Basis(Vec3(-1.0, 0.0, 0.0), Vec3(0.0, 0.0, 1.0), Vec3(0.0, 1.0, 0.0))
    case RightView => Basis(Vec3(1.0, 0.0, 0.0), Vec3(0.0, 0.0, 1.0), Vec3(0.0, -1.0, 0.0))
    case DimetricView => Basis(Vec3(-2.0, 2.0, -1.0), Vec3(-1.0, 1.0, 0.0), Vec3(1.0, 1.0, 0.0))
    case TrimetricView => Basis(Vec3(-0.486, 0.732, -0.477), Vec3(-0.363, 0.568, 1.243), Vec3(1.181, 0.778, 0.010))
    case NwIsometricView => Basis(Vec3(1.0, -1.0, -1.0), Vec3(1.0, -1.0, 1.0), Vec3(-1.0, -1.0, 0.0))
    case SwIsometricView => Basis(Vec3(1.0, 1.0, -1.0), Vec3(1.0, 1.0, 0.0), Vec3(1.0, -1.0, 0.0))
    case NeIsometricView => Basis(Vec3(-1.0, -1.0, -1.0), Vec3(-1.0, -1.0, 1.0), Vec3(-1.0, 1.0, 0.0))
    case SeIsometricView => Basis(Vec3(-1.0, 1.0, -1.0), Vec3(-1.0, 1.0, 0.0), Vec3(1.0, 1.0, 0.0))
    case Unlisted(_) => Basis(Vec3(-1.0, 1.0, -1.0), Vec3(-1.0, 1.0, 0.0), Vec3(1.0, 1.0, 0.0))
  }

  /**
   * GLCamera::setView(ViewProjection): the basis is replaced by the preset's,
   * while the position and the zoom factor are kept.
   */
  function SetPreset(cam: Camera, p: ViewProjection): (r: Camera)
    ensures r.position == cam.position && r.zoom == cam.zoom
    ensures r.view == PresetBasis(p).view && r.up == PresetBasis(p).up && r.right == PresetBasis(p).right
  {
    var b := PresetBasis(p);
    SetFrame(cam, cam.position, b.view, b.up, b.right)
  }

  /** Choosing a preset twice is choosing it once, and the last choice wins. */
  lemma SetPresetLastWins(cam: Camera, p: ViewProjection, q: ViewProjection)
    ensures SetPreset(SetPreset(cam, p), q) == SetPreset(cam, q)
    ensures SetPreset(SetPreset(cam, p), p) == SetPreset(cam, p)
  {
  }

  /** The top view is the frame resetAll installs, at the camera's own position and zoom. */
  lemma TopViewIsResetFrame(cam: Camera)
    ensures SetPreset(cam, TopView) == Reset(cam).(position := cam.position, zoom := cam.zoom)
  {
  }

  /** Identifiers outside the catalogue fall back to the south-east isometric view. */
  lemma UnlistedIsSeIsometric(cam: Camera, code: int)
    ensures SetPreset(cam, Unlisted(code)) == SetPreset(cam, SeIsometricView)
  {
  }

  /** Every preset with integer entries has its view direction orthogonal to its right vector. */
  lemma IntegerPresetsViewRight(p: ViewProjection)
    requires !p.TrimetricView?
    ensures var b := PresetBasis(p); Dot(b.view, b.right) == 0.0
  {
  }

  /**
   * The south-east isometric preset, which is also the fallback, is not an
   * orthogonal frame: its view and up directions have dot product 2.
   */
  lemma SeIsometricNotOrthogonal()
    ensures Dot(PresetBasis(SeIsometricView).view, PresetBasis(SeIsometricView).up) == 2.0
  {
  }
}

/**
 * The axis-aligned presets are orthonormal frames. Each preset is established
 * one fact at a time and the facts are then combined symbolically.
 */
module PresetFrames {
  import opened Vectors
  import opened Cameras
  import opened Presets

  /** A basis whose camera is orthonormal and handed. */
  predicate OrthonormalBasis(b: Basis) {
    var cam := Camera(Zero, b.view, b.up, b.right, 1.0);
    Orthonormal(cam) && Handed(cam)
  }

  /** Each axis-aligned preset is an orthonormal frame with the orientation the rotations keep. */
  lemma AxisPresetsOrthonormal(cam: Camera, p: ViewProjection)
    requires IsAxisView(p)
    ensures Orthonormal(SetPreset(cam, p)) && Handed(SetPreset(cam, p))
  {
    match p
    case TopView => TopViewFrame();
    case BottomView => BottomViewFrame();
    case FrontView => FrontViewFrame();
    case RearView => RearViewFrame();
    case LeftView => LeftViewFrame();
    case RightView => RightViewFrame();
  }

  lemma BasisFromFacts(b: Basis)
    requires LengthSq(b.view) == 1.0 && LengthSq(b.up) == 1.0 && LengthSq(b.right) == 1.0
    requires Dot(b.view, b.up) == 0.0 && Dot(b.view, b.right) == 0.0 && Dot(b.up, b.right) == 0.0
    requires Cross(b.view, b.right) == Neg(b.up)
    ensures OrthonormalBasis(b)
  {
  }

  lemma TopViewFrame()
    ensures OrthonormalBasis(PresetBasis(TopView))
  {
    TopViewViewUnit();
    TopViewUpUnit();
    TopViewRightUnit();
    TopViewViewUp();
    TopViewViewRight();
    TopViewUpRight();
    TopViewHanded();
    BasisFromFacts(PresetBasis(TopView));
  }

  lemma BottomViewFrame()
    ensures OrthonormalBasis(PresetBasis(BottomView))
  {
    BottomViewViewUnit();
    BottomViewUpUnit();
    BottomViewRightUnit();
    BottomViewViewUp();
    BottomViewViewRight();
    BottomViewUpRight();
    BottomViewHanded();
    BasisFromFacts(PresetBasis(BottomView));
  }

  lemma FrontViewFrame()
    ensures OrthonormalBasis(PresetBasis(FrontView))
  {
    FrontViewViewUnit();
    FrontViewUpUnit();
    FrontViewRightUnit();
    FrontViewViewUp();
    FrontViewViewRight();
    FrontViewUpRight();
    FrontViewHanded();
    BasisFromFacts(PresetBasis(FrontView));
  }

  lemma RearViewFrame()
    ensures OrthonormalBasis(PresetBasis(RearView))
  {
    RearViewViewUnit();
    RearViewUpUnit();
    RearViewRightUnit();
    RearViewViewUp();
    RearViewViewRight();
    RearViewUpRight();
    RearViewHanded();
    BasisFromFacts(PresetBasis(RearView));
  }

  lemma LeftViewFrame()
    ensures OrthonormalBasis(PresetBasis(LeftView))
  {
    LeftViewViewUnit();
    LeftViewUpUnit();
    LeftViewRightUnit();
    LeftViewViewUp();
    LeftViewViewRight();
    LeftViewUpRight();
    LeftViewHanded();
    BasisFromFacts(PresetBasis(LeftView));
  }

  lemma RightViewFrame()
    ensures OrthonormalBasis(PresetBasis(RightView))
  {
    RightViewViewUnit();
    RightViewUpUnit();
    RightViewRightUnit();
    RightViewViewUp();
    RightViewViewRight();
    RightViewUpRight();
    RightViewHanded();
    BasisFromFacts(PresetBasis(RightView));
  }

  // One fact per lemma: evaluating several products of constant vectors in a
  // single proof is far more expensive than evaluating them one at a time.

  lemma TopViewViewUnit() ensures var b := PresetBasis(TopView); LengthSq(b.view) == 1.0 {}
  lemma TopViewUpUnit() ensures var b := PresetBasis(TopView); LengthSq(b.up) == 1.0 {}
  lemma TopViewRightUnit() ensures var b := PresetBasis(TopView); LengthSq(b.right) == 1.0 {}
  lemma TopViewViewUp() ensures var b := PresetBasis(TopView); Dot(b.view, b.up) == 0.0 {}
  lemma TopViewViewRight() ensures var b := PresetBasis(TopView); Dot(b.view, b.right) == 0.0 {}
  lemma TopViewUpRight() ensures var b := PresetBasis(TopView); Dot(b.up, b.right) == 0.0 {}
  lemma TopViewHanded() ensures var b := PresetBasis(TopView); Cross(b.view, b.right) == Neg(b.up) {}

  lemma BottomViewViewUnit() ensures var b := PresetBasis(BottomView); LengthSq(b.view) == 1.0 {}
  lemma BottomViewUpUnit() ensures var b := PresetBasis(BottomView); LengthSq(b.up) == 1.0 {}
  lemma BottomViewRightUnit() ensures var b := PresetBasis(BottomView); LengthSq(b.right) == 1.0 {}
  lemma BottomViewViewUp() ensures var b := PresetBasis(BottomView); Dot(b.view, b.up) == 0.0 {}
  lemma BottomViewViewRight() ensures var b := PresetBasis(BottomView); Dot(b.view, b.right) == 0.0 {}
  lemma BottomViewUpRight() ensures var b := PresetBasis(BottomView); Dot(b.up, b.right) == 0.0 {}
  lemma BottomViewHanded() ensures var b := PresetBasis(BottomView); Cross(b.view, b.right) == Neg(b.up) {}

  lemma FrontViewViewUnit() ensures var b := PresetBasis(FrontView); LengthSq(b.view) == 1.0 {}
  lemma FrontViewUpUnit() ensures var b := PresetBasis(FrontView); LengthSq(b.up) == 1.0 {}
  lemma FrontViewRightUnit() ensures var b := PresetBasis(FrontView); LengthSq(b.right) == 1.0 {}
  lemma FrontViewViewUp() ensures var b := PresetBasis(FrontView); Dot(b.view, b.up) == 0.0 {}
  lemma FrontViewViewRight() ensures var b := PresetBasis(FrontView); Dot(b.view, b.right) == 0.0 {}
  lemma FrontViewUpRight() ensures var b := PresetBasis(FrontView); Dot(b.up, b.right) == 0.0 {}
  lemma FrontViewHanded() ensures var b := PresetBasis(FrontView); Cross(b.view, b.right) == Neg(b.up) {}

  lemma RearViewViewUnit() ensures var b := PresetBasis(RearView); LengthSq(b.view) == 1.0 {}
  lemma RearViewUpUnit() ensures var b := PresetBasis(RearView); LengthSq(b.up) == 1.0 {}
  lemma RearViewRightUnit() ensures var b := PresetBasis(RearView); LengthSq(b.right) == 1.0 {}
  lemma RearViewViewUp() ensures var b := PresetBasis(RearView); Dot(b.view, b.up) == 0.0 {}
  lemma RearViewViewRight() ensures var b := PresetBasis(RearView); Dot(b.view, b.right) == 0.0 {}
  lemma RearViewUpRight() ensures var b := PresetBasis(RearView); Dot(b.up, b.right) == 0.0 {}
  lemma RearViewHanded() ensures var b := PresetBasis(RearView); Cross(b.view, b.right) == Neg(b.up) {}

  lemma LeftViewViewUnit() ensures var b := PresetBasis(LeftView); LengthSq(b.view) == 1.0 {}
  lemma LeftViewUpUnit() ensures var b := PresetBasis(LeftView); LengthSq(b.up) == 1.0 {}
  lemma LeftViewRightUnit() ensures var b := PresetBasis(LeftView); LengthSq(b.right) == 1.0 {}
  lemma LeftViewViewUp() ensures var b := PresetBasis(LeftView); Dot(b.view, b.up) == 0.0 {}
  lemma LeftViewViewRight() ensures var b := PresetBasis(LeftView); Dot(b.view, b.right) == 0.0 {}
  lemma LeftViewUpRight() ensures var b := PresetBasis(LeftView); Dot(b.up, b.right) == 0.0 {}
  lemma LeftViewHanded() ensures var b := PresetBasis(LeftView); Cross(b.view, b.right) == Neg(b.up) {}

  lemma RightViewViewUnit() ensures var b := PresetBasis(RightView); LengthSq(b.view) == 1.0 {}
  lemma RightViewUpUnit() ensures var b := PresetBasis(RightView); LengthSq(b.up) == 1.0 {}
  lemma RightViewRightUnit() ensures var b := PresetBasis(RightView); LengthSq(b.right) == 1.0 {}
  lemma RightViewViewUp() ensures var b := PresetBasis(RightView); Dot(b.view, b.up) == 0.0 {}
  lemma RightViewViewRight() ensures var b := PresetBasis(RightView); Dot(b.view, b.right) == 0.0 {}
  lemma RightViewUpRight() ensures var b := PresetBasis(RightView); Dot(b.up, b.right) == 0.0 {}
  lemma RightViewHanded() ensures var b := PresetBasis(RightView); Cross(b.view, b.right) == Neg(b.up) {}
}
