# Camera, navigation and bounding spheres of a Qt/OpenGL model viewer

This Dafny project models the navigation core of a Qt/OpenGL viewer for
parametric and mesh models:

- **The camera (`GLCamera`).** It holds an eye position, a view/up/right basis and a zoom factor. It supports a reset, incremental rotations about its own axes, the wrap of a rotation-angle counter, moves, the catalogue of standard views, and the extents of the projection.
- **The view widget's navigation (`GLView`).** This covers the cyclic model index, the multi-view quadrants, the middle-button and wheel zoom, the rubber-band zoom ratio, and the three animations. Those animations are a change to a standard view, fit-all and window zoom. Each advances one fiftieth per timer tick.
- **`BoundingSphere`.** A centre and a radius, with the merge operation `addSphere`.
- **`TriangleMesh::computeBoundingSphere`.** Ritter's bounding sphere of a point cloud.

Arithmetic is exact: `real` stands for `float`. A square root is a parameter `sqrt` that is constrained by `Vectors.IsSqrt`. Cosines and sines enter as plain reals. QTimers become booleans, and a timer firing becomes an explicit tick function.

Modules, one per file:

| file | module | models |
|---|---|---|
| wrappers.dfy | Wrappers | `Option`, `Result` |
| vectors.dfy | Vectors | QVector3D arithmetic, `normalized`, `distanceToPoint` |
| camera.dfy | Cameras | GLCamera frame operations |
| presets.dfy | Presets, PresetFrames | `GLCamera::setView(ViewProjection)` and the orthonormality of the axis presets |
| projection.dfy | Projection | the extents of `GLCamera::updateProjectionMatrix` |
| spheres.dfy | Spheres | BoundingSphere |
| navigation.dfy | Navigation | model index, quadrants, wheel steps, zoom ratio |
| views.dfy | Views | the state GLView keeps between events |
| zoom.dfy | Zooming | the zoom branches of the mouse-move and wheel handlers |
| animation.dfy | Animation | view-mode, fit-all and window-zoom requests and their animations |
| ritter.dfy | Ritter | `TriangleMesh::computeBoundingSphere` |

## Model

| member | source | states |
|---|---|---|
| Cameras.Reset | GLCamera.cpp:21-35 | the camera returns to the origin with zoom 1, looking down -z with y up and x right, whatever its state was |
| Cameras.ResetFrame | GLCamera.cpp:21-35 | the reset frame is orthonormal and has the handedness the rotations keep |
| Cameras.ResetIdempotent | GLCamera.cpp:21-35 | every camera resets to the same camera, so a second reset changes nothing |
| Cameras.WrapCounter | GLCamera.cpp:93-98 | a rotation counter stays within ±360; it accumulates the angle while the sum stays in range and restarts at 0 otherwise |
| Cameras.WrapCounterStable | GLCamera.cpp:93-98 | a wrapped counter is a fixed point of a zero rotation |
| Cameras.RotateX | GLCamera.cpp:91-108 | a pitch keeps position, right vector and zoom; on an orthonormal frame with view × right = −up (the reset frame's handedness), given a cosine c and sine s with c² + s² = 1, it rotates view and up in their plane by the angle and the frame stays orthonormal |
| Cameras.RotateXInverse | GLCamera.cpp:91-108 | on an orthonormal frame with view × right = −up (the reset frame's handedness), given a cosine c and sine s with c² + s² = 1, pitching by an angle and then by its negative restores the camera exactly |
| Cameras.RotateY | GLCamera.cpp:110-127 | a yaw keeps position, up vector and zoom; on an orthonormal frame with view × right = −up (the reset frame's handedness), given a cosine c and sine s with c² + s² = 1, it rotates view and right in their plane and keeps the frame orthonormal and with that handedness |
| Cameras.RotateYInverse | GLCamera.cpp:110-127 | on an orthonormal frame with view × right = −up (the reset frame's handedness), given a cosine c and sine s with c² + s² = 1, yawing by an angle and then by its negative restores the camera exactly |
| Cameras.RotateZ | GLCamera.cpp:130-147 | a roll keeps position, view vector and zoom; on an orthonormal frame with view × right = −up (the reset frame's handedness), given a cosine c and sine s with c² + s² = 1, it rotates right and up in their plane and keeps the frame orthonormal |
| Cameras.RotateZInverse | GLCamera.cpp:130-147 | on an orthonormal frame with view × right = −up (the reset frame's handedness), given a cosine c and sine s with c² + s² = 1, rolling by an angle and then by its negative restores the camera exactly |
| Cameras.Move | GLCamera.cpp:149-154 | a move displaces the position by exactly the given vector and keeps the basis and zoom |
| Cameras.MoveInverse | GLCamera.cpp:149-154 | moving by a vector and then by its negation restores the camera |
| Cameras.MoveForward | GLCamera.cpp:156-160 | moving forward goes against the view vector; on an orthonormal frame the squared distance travelled is the square of the distance asked for |
| Cameras.MoveForwardCompose | GLCamera.cpp:156-160 | two forward moves add up, and a move of -a undoes a move of a |
| Cameras.MoveUpward | GLCamera.cpp:162-166 | moving upward goes along the up vector, over the distance asked for on an orthonormal frame |
| Cameras.MoveAcross | GLCamera.cpp:168-172 | moving across goes along the right vector, over the distance asked for on an orthonormal frame |
| Cameras.MovesCommute | GLCamera.cpp:162-172 | moving across and moving upward commute |
| Cameras.SetZoom | GLCamera.cpp:174-178 | only the zoom factor changes, so orthonormality and handedness are unaffected |
| Cameras.SetFrame | GLCamera.cpp:268-283 | position and the three directions are replaced as given and the zoom is kept |
| Cameras.SetFrameOwn | GLCamera.cpp:268-283 | setting a camera's own frame leaves it unchanged |
| Presets.PresetBasis | GLCamera.cpp:189-251 | only the top view looks down -z with y up, as the reset frame does; every other preset looks elsewhere |
| Presets.SetPreset | GLCamera.cpp:180-265 | a standard view replaces the basis by the preset's and keeps position and zoom |
| Presets.SetPresetLastWins | GLCamera.cpp:180-265 | of two standard views in a row only the last matters, so repeating one is idempotent |
| Presets.TopViewIsResetFrame | GLCamera.cpp:21-35 | the top view is the reset frame at the camera's own position and zoom |
| Presets.UnlistedIsSeIsometric | GLCamera.cpp:246-251 | an identifier outside the named cases falls through to the south-east isometric view |
| Presets.IntegerPresetsViewRight | GLCamera.cpp:189-251 | every preset except the trimetric one has a view vector orthogonal to its right vector |
| Presets.SeIsometricNotOrthogonal | GLCamera.cpp:246-251 | table fact: the south-east isometric preset's view and up vectors are not orthogonal (their dot product is 2) |
| PresetFrames.AxisPresetsOrthonormal | GLCamera.cpp:191-220 | the six axis-aligned presets leave the camera orthonormal and handed, so the rotations' guarantees apply after them |
| Projection.EffectiveHeight | GLCamera.cpp:66-69 | a zero height is replaced by one and any other height is kept |
| Projection.Extents | GLCamera.cpp:62-89 | the projection fails exactly when the width is zero and not above the height; it is orthographic or perspective as asked, with the given field of view |
| Projection.OrthoBoxOf | GLCamera.cpp:71-80 | the orthographic box is symmetric; the narrower screen side spans the range and the other scales with the aspect; depth is a thousand half ranges each way |
| Projection.ExtentsFailOnlyOnZeroWidth | GLCamera.cpp:62-89 | for non-negative sizes, the only failure is a zero width |
| Projection.OrthoBox | GLCamera.cpp:71-80 | for a positive width, the box is symmetric, the reference side is the half range and the other side is stretched by the aspect |
| Projection.OrthoKeepsAspect | GLCamera.cpp:71-80 | the box has the aspect ratio of the screen |
| Projection.PerspectiveAspect | GLCamera.cpp:81-88 | the perspective aspect is the longer side over the shorter, so at least 1; near is 1, far is 5000 view ranges, and the eye is pulled back by one view range |
| Projection.LandscapeExample | GLCamera.cpp:62-89 | example only: an 800×400 screen with range 100 gets the box ±100 by ±50, with depth ±50000 |
| Spheres.NewSphere | BoundingSphere.cpp:4-9 | the sphere holds exactly the given centre coordinates and radius |
| Spheres.DefaultSphere | BoundingSphere.cpp:4-9 | the default unit sphere at the origin contains the origin |
| Spheres.SetRadius | BoundingSphere.cpp:16-19 | only the radius changes |
| Spheres.SetCenterXYZ | BoundingSphere.cpp:21-26 | only the centre changes, to the given coordinates |
| Spheres.SetCenter | BoundingSphere.cpp:28-31 | only the centre changes, to the given vector |
| Spheres.SettersIndependent | BoundingSphere.cpp:16-31 | the two centre setters agree; the centre and radius setters commute; applied together they build the same sphere as the constructor |
| Spheres.AddSphere | BoundingSphere.cpp:33-61 | merging a sphere with an equal one changes nothing; under the nesting test the larger sphere wins; otherwise the result is the span of the two |
| Spheres.Span | BoundingSphere.cpp:52-59 | for distinct centres, the result's diameter runs between the far ends on the centre line: radius is half of distance plus both radii, centre on that line; for coincident centres it collapses to a point |
| Spheres.AddSphereLosesOuterSphere | BoundingSphere.cpp:38-59 | a sphere strictly containing a smaller one that does not reach its centre is replaced by their span, which misses the far point of the large sphere |
| Spheres.AddSphereLosesNestedSphere | BoundingSphere.cpp:38-46 | when the nesting test passes but the smaller sphere sticks out, the merge drops a point of it |
| Spheres.AddSphereEnclosing | BoundingSphere.cpp:33-61 | the corrected merge keeps the receiving sphere when it covers the other, takes the other when that one covers it, and otherwise agrees with addSphere wherever addSphere's test does not fire |
| Spheres.AddSphereEnclosingContains | BoundingSphere.cpp:33-61 | every point of either input lies inside the corrected merge |
| Navigation.ChangeModel | GLView.cpp:156-164 | from an index in [1, count] the next index stays in range; forward is `index mod count + 1` and back is `(index - 2) mod count + 1` |
| Navigation.ChangeModelWraps | GLView.cpp:156-164 | forward from the last model gives the first, and back from the first gives the last |
| Navigation.ChangeModelRoundTrip | GLView.cpp:156-164 | a step forward and a step back cancel, in either order |
| Navigation.ForwardStepsModular | GLView.cpp:156-164 | k forward steps from index i land on `(i - 1 + k) mod count + 1` |
| Navigation.ForwardFullCycle | GLView.cpp:156-164 | count forward steps return to the starting model |
| Navigation.TruncDiv | GLView.cpp:239-240 | C++ integer division: the quotient has magnitude abs(a) / abs(b) and the sign of a·b; for a positive divisor it is bracketed by the dividend |
| Navigation.Center | GLView.cpp:883 | a rectangle's centre is the halved sum of its first and last pixel, truncated toward zero: twice the centre is within one of that sum, on the side toward zero, for either sign |
| Navigation.EmptyRectCenter | GLView.cpp:925-943 | the empty rectangle a midline pixel receives is centred on the origin and contains no pixel |
| Navigation.ClientRect | GLView.cpp:923-948 | single view gives the whole window; in multi-view a pixel off the midlines gets its own quadrant and a midline pixel gets the empty rectangle |
| Navigation.Viewport | GLView.cpp:896-921 | single view gives the whole window; in multi-view, as the client rectangle, with the same empty case on the midlines |
| Navigation.ViewportMirrorsClientRect | GLView.cpp:896-948 | the viewport is the client rectangle flipped top to bottom within the window |
| Navigation.QuadrantTestsExclusive | GLView.cpp:925-943 | at most one of the four quadrant tests holds, so their order does not matter |
| Navigation.ClientRectContainsPixel | GLView.cpp:923-948 | with an even width and height, every window pixel off the midlines lies in the quadrant chosen for it |
| Navigation.OddWidthMissesLastColumn | GLView.cpp:923-948 | with an odd width, a pixel of the last column is not inside the quadrant chosen for it |
| Navigation.RoundDiv | GLView.cpp:868-869 | the quotient is rounded to the nearest integer, halves upward |
| Navigation.WheelSteps | GLView.cpp:868-870 | the wheel's step count has the sign of the angle delta |
| Navigation.WheelStepsOfNotches | GLView.cpp:868-870 | k notches of 120 eighths of a degree give exactly k steps |
| Navigation.WheelStepsZero | GLView.cpp:868-870 | the step count is zero exactly when the delta lies in [-60, 60) |
| Navigation.ZoomRatio | GLView.cpp:239-241 | the ratio fails exactly on a band of zero width or height; otherwise it is the smaller of the two truncated quotients |
| Navigation.ZoomRatioLargestFit | GLView.cpp:239-241 | for a positive band, the ratio is the largest whole factor by which the band still fits the client area |
| Navigation.ZoomRatioExample | GLView.cpp:239-241 | example only: an 800×600 client area with a 300×200 band zooms by 2 |
| Views.Clamp | GLView.cpp:878-879 | the result lies in [0.05, 50000]; it keeps a range already inside and snaps one outside to the nearer bound |
| Views.ClampMonotone | GLView.cpp:878-879 | clamping preserves the order of two ranges |
| Views.NewViewer | GLView.cpp:64-80 | the initial viewer is settled, has range and target diameter 200 and zoom ratio 1, is in isometric mode, and has every animation idle |
| Zooming.DragZoom | GLView.cpp:788-851 | a middle-button drag stops the view animation; a drag right or up divides the range by 1.05, any other multiplies it, and the result is clamped to [0.05, 50000]; the camera moves by ±1/20 of the offset |
| Zooming.DragZoomInThenOut | GLView.cpp:828-851 | a drag in followed by a drag out with the same offset restores the range and the camera, away from the clamp |
| Zooming.WheelRange | GLView.cpp:870-876 | positive steps divide the range by steps + 0.05, negative steps multiply by their magnitude + 0.05, zero steps multiply by 20 |
| Zooming.WheelZoom | GLView.cpp:856-894 | the range becomes the clamped wheel range and is made the baseline; on a forward turn the camera moves 1/20 of the offset toward or away from the cursor by the cursor test, and on any other turn 1/20 away |
| Zooming.WheelSmallDeltaZoomsOut | GLView.cpp:868-880 | a wheel event with an angle delta in [−60, 60) zooms out twentyfold, when twenty times the range stays inside the clamp [0.05, 50000] |
| Zooming.WheelNotchRoundTrip | GLView.cpp:868-880 | for every range clear of the clamp, one notch forward divides it by 1.05 and one notch back restores it |
| Zooming.WheelZoomCorrected | GLView.cpp:856-894 | the corrected wheel leaves the viewer alone on an event without a whole step, and otherwise acts as written |
| Zooming.WheelZoomCorrectedDirection | GLView.cpp:868-880 | for a range inside the clamp [0.05, 50000], the corrected wheel never zooms the wrong way: a forward turn never widens the range, a backward one never narrows it, no step keeps it |
| Animation.SetViewMode | GLView.cpp:194-202 | the view timer ends up running; a request while it runs is ignored; otherwise the mode is set and the step restarts; nothing else changes |
| Animation.SetViewModeFirstWins | GLView.cpp:194-202 | of two requests made while no view animation runs, the first one wins |
| Animation.FitAll | GLView.cpp:204-213 | the target diameter becomes the sphere's diameter and the fit-all timer runs; the step restarts only if the timer was idle |
| Animation.FitAllIdempotent | GLView.cpp:204-213 | a second fit-all request changes nothing |
| Animation.EndWindowZoom | GLView.cpp:221-250 | fails exactly on a zero-sized band; otherwise it ends the rubber-band mode, arms the window-zoom timer, and takes the zoom ratio and pan from the band |
| Animation.EndWindowZoomRatioFits | GLView.cpp:221-250 | for a positive band the zoom ratio is the largest whole factor by which the band fits the client area |
| Animation.ZoomPanTick | GLView.cpp:1068-1099 | a tick moves the camera by 1/50 of the pan and the range by 1/50 of the gap to the target; the last tick settles the viewer and stops the timers |
| Animation.ZoomPanProgress | GLView.cpp:1068-1099 | after k < 50 ticks the camera has moved k/50 of the pan and the range k/50 of the gap, with orientation and scene unchanged |
| Animation.ZoomPanConverges | GLView.cpp:1068-1099 | after 50 ticks the camera has moved by the whole pan and the range reaches the target; the viewer is settled with mode and timers cleared |
| Animation.AnimateFitAll | GLView.cpp:1009-1013 | one fit-all tick moves the camera a fiftieth of the way from the baseline position to the sphere centre and the range a fiftieth of the way from the baseline range to the target diameter, keeping the orientation; the last tick settles and stops the zoom timers |
| Animation.FitAllRunIsZoomPan | GLView.cpp:1009-1013 | the fit-all animation is the zoom-and-pan animation toward the target diameter, panning from the baseline to the sphere centre |
| Animation.FitAllCentresSphere | GLView.cpp:1009-1013 | fit-all from a settled viewer ends with the camera on the sphere centre and the range equal to the sphere's diameter |
| Animation.AnimateWindowZoom | GLView.cpp:1015-1019 | a window-zoom tick fails exactly when the zoom ratio is zero |
| Animation.WindowZoomRunIsZoomPan | GLView.cpp:1015-1019 | the window-zoom animation is the zoom-and-pan animation toward the baseline range divided by the ratio, panning by the stored pan |
| Animation.WindowZoomConverges | GLView.cpp:1015-1019 | from a settled viewer, 50 ticks divide the range by the zoom ratio and move the camera by the stored pan |
| Animation.TargetAngles | GLView.cpp:963-1007 | every mode except NONE has target Euler angles, each within ±180 degrees |
| Animation.TargetAnglesDistinct | GLView.cpp:963-1007 | table fact: different view modes have different target angles |
| Animation.LerpEnds | GLView.cpp:1035 | the interpolation starts at the first point and ends at the second |
| Animation.RotationTick | GLView.cpp:1028-1066 | a tick puts the camera on the line from the baseline to the sphere centre at the new step, sets the interpolated frame, and moves the range 1/50 toward the target diameter; the last tick settles the viewer |
| Animation.AnimateViewChange | GLView.cpp:963-1007 | with no mode pending the tick does nothing; otherwise the camera frame is the interpolation toward the mode's target angles |
| Animation.ViewChangeProgress | GLView.cpp:1028-1066 | after k < 50 ticks the step is k/50, the range has moved k/50 of the way, and the camera lies at k/50 on the line to the sphere centre |
| Animation.ViewChangeConverges | GLView.cpp:1028-1066 | a view change from a settled viewer ends at the sphere centre, in the frame of the mode's target angles (the interpolation at step one), with the range at the target diameter, settled and with the timer stopped |
| Ritter.Triples | TriangleMesh.cpp:157-161 | a coordinate list of length 3n reads as n points, point i taking coordinates 3i, 3i+1 and 3i+2 |
| Ritter.Visit | TriangleMesh.cpp:165-173 | one point of the first pass: the extremes' box grows to take in the point, and each extreme is either the point or the previous extreme |
| Ritter.ExtremesOf | TriangleMesh.cpp:162-173 | the first pass: every point lies within the box the extremes span on each axis, and each of the six extremes is one of the input points |
| Ritter.SeedPair | TriangleMesh.cpp:174-188 | the seed pair is at least as far apart as each axis's pair; ties go to x, then y |
| Ritter.SeedSphere | TriangleMesh.cpp:189-191 | the seed sphere is centred at the midpoint, has the pair's distance as diameter, and contains both points |
| Ritter.Grow | TriangleMesh.cpp:195-201 | growing toward an outside point strictly enlarges the radius to less than the point's distance, puts the point on the new surface, and keeps the old ball inside |
| Ritter.GrowPass | TriangleMesh.cpp:192-203 | after the pass every point is inside, the seed ball is inside, and the radius never shrank |
| Ritter.ComputeBoundingSphere | TriangleMesh.cpp:126-207 | fails exactly on an empty or ragged list, naming which; otherwise every point is inside the result and the result's diameter is at least the seed pair's distance |

## Left out

- Quaternions: `QQuaternion::slerp` and the Euler conversions are not modelled. The interpolated frame of a view change is the parameter `slerp` of `Animation.AnimateViewChange`.
- Projecting and unprojecting window points (`QVector3D::project/unproject`, `get3dTranslationVectorFromMousePoints`) are not modelled. Their results are the parameters `offset` of the zoom handlers and `pan` of `Animation.EndWindowZoom`.
- The view and projection matrices, `updateViewMatrix`, `getRotationAngles`, `resizeGL` and every OpenGL call are left out. The model keeps the camera frame and the projection extents only.
- Floating point: `float` is modelled as exact `real`, so rounding is not modelled. `qFuzzyCompare` is read as exact equality.
- Square root, cosine and sine are not computable over reals. A square root is a parameter constrained by `IsSqrt`, and a rotation takes the cosine and sine of its angle as reals.
- The left-button rotation and right-button pan branches of `mouseMoveEvent` are left out. The pan (GLView.cpp:811-825) moves the camera by the difference of two unprojected points, and unprojection is not modelled. The rotation (GLView.cpp:802-807) is `RotateX` by half the vertical drag followed by `RotateY` by half the horizontal drag. Both are modelled; only the quaternion read-back into `_currentRotation` is left out, with the other quaternions. The rubber-band rectangle of window-zoom mode is left out too.
- Stereo rendering (`computeStereoViewProjectionMatrices`) is out of scope.
- Timers are booleans and their 5 ms period is not modelled. The `emit windowZoomEnded()` signal is left out.
- Ritter.ComputeBoundingSphere: the source starts the extremes at ±infinity. The model starts them at the first point, which gives the same extremes for non-empty input. An empty list gives `Err(NoPoints)`, where the source produces a non-finite centre. A list whose length is not a multiple of three gives `Err(TrailingCoordinates)`, where the source reads past the end of the list.
- Projection.Extents: a zero width that is not above the height makes the source's float division give an infinite extent (GLCamera.cpp:74, 84). The model does not represent IEEE infinity and returns `Err(ZeroWidth)` for it instead.
- Animation.AnimateWindowZoom: a zoom ratio of 0 makes the source divide the baseline range by zero in float arithmetic (GLView.cpp:1017), giving an infinite target range. The model does not represent IEEE infinity and returns `Err(ZeroZoomRatio)` instead. The ratio is 0 when the band is wider or taller than the client area (GLView.cpp:239-241).
- Cameras.WrapCounter: the rotation-angle counters `_rotatedX/Y/Z` are not part of `Camera`. `updateViewMatrix` overwrites them with the Euler angles of the new view matrix right after every rotation (GLCamera.cpp:49-50, 107), and so do both `setView` overloads (GLCamera.cpp:256-258, 278-280). Nothing in GLCamera.cpp or GLView.cpp reads them apart from the wrap itself and commented-out debug output (GLCamera.cpp:52-59, 262-264). `WrapCounter` models the wrap arithmetic of GLCamera.cpp:93-98 on its own.
- Cameras.RotateXInverse: the rotation guarantees, and the inverses of RotateY and RotateZ too, hold only for an orthonormal frame with view × right = −up. A frame of the other handedness can be passed to `GLCamera::setView(pos, view, up, right)`. On such a frame the cross products at GLCamera.cpp:105, 123 and 143 flip the recomputed vector, so rotating back does not restore the camera.
- Navigation.RoundDiv: rounds halves upward, which is Qt 5's `qRound`. Qt 6's `qRound` rounds halves away from zero; under Qt 6 an angle delta of -60 would give one backward step, and the zero band of `WheelStepsZero` would be (-60, 60). The model assumes Qt 5.
- Spheres.AddSphere: two concentric, unequal spheres whose smaller radius is not positive fail the nesting test and collapse to a point of radius 0. That is stated only through `Span`'s coincident case, not as a lemma about `AddSphere`.
- Zooming.WheelZoom: the wheel position `pos` is an integer point. Qt's sub-pixel wheel positions (`QWheelEvent::position`, GLView.cpp:883-886) are left out.
- Views.NewViewer: takes the camera, already set to the south-east isometric view, as an argument. The camera's constructor is not modelled.

## Findings

| source | as written | input that shows it | evidently intended | confidence | as-written member | corrected member |
|---|---|---|---|---|---|---|
| BoundingSphere.cpp:38-59 | the containment test compares the centre distance with the smaller radius | a sphere at (0,0,0) with radius 10, merged with one at (5,0,0) with radius 1, becomes the span of radius 8 about (-2,0,0), which misses (10,0,0). A sphere at (0,0,0) with radius 5 and one at (4,0,0) with radius 5 keep only the second, which misses (-5,0,0) | keep a sphere that covers the other (centre distance plus the smaller radius at most the larger radius), and span otherwise | not executed | Spheres.AddSphereLosesOuterSphere, Spheres.AddSphereLosesNestedSphere | Spheres.AddSphereEnclosing, Spheres.AddSphereEnclosingContains |
| GLView.cpp:868-876 | an event with zero whole steps divides the range by 0.05 | a wheel event with angle delta 30 (a trackpad or a horizontal scroll) multiplies the view range by 20 | an event without a whole step leaves the view unchanged | not executed | Zooming.WheelSmallDeltaZoomsOut | Zooming.WheelZoomCorrected, Zooming.WheelZoomCorrectedDirection |
