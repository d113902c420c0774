# mandelrust in Dafny

A model of the numeric and navigation engine of mandelrust, an interactive
Mandelbrot explorer written in Rust. The model covers:

- the viewport (`View`). It maps pixels to points of the complex plane, and
  a family of copy-with-one-field-changed transforms pans it, zooms it,
  changes its iteration budget ("sharpness") and recentres it;
- complex arithmetic and the norm;
- the escape-time functions: `circle`, `mandelbrot_naive`,
  `mandelbrot_optimized`;
- the red colour ramp (`z_to_color`) and the RGBA buffer `draw_image` builds;
- the history of views that the key and mouse bindings push to, replace
  and pop;
- the zoom-to-rectangle arithmetic of a mouse drag, and `all_between`.

Floating-point numbers (`f64`, `f32`) are modelled as mathematical reals.
Integer types keep their widths through the newtypes `u8`, `u32` and `i32`
in module `Machine`. The Rust casts are written out explicitly:
- `u32 as i32` reinterprets the bits;
- `f64 as u8` and `f32 as u32` truncate and saturate.

Files and modules:

| file | module | models |
|---|---|---|
| machine.dfy | `Machine` | integer widths, casts, `abs_diff`, `Option` |
| settings.dfy | `Settings` | the constants of the `settings` module (their values are not part of this model) |
| complex.dfy | `Complexes` | src/complex.rs |
| view.dfy | `Views` | src/view.rs |
| all_between.dfy | `Ranges` | src/all_between.rs |
| escape.dfy | `Escape` | `circle`, both Mandelbrot functions, `z_to_color`, the choice of function |
| raster.dfy | `Raster` | `draw_image` |
| zoombox.dfy | `ZoomBoxes` | the drag-to-zoom computation |
| navigation.dfy | `Navigation` | the stack of views and the input handlers that change it |

Both Mandelbrot loops are methods that update their locals as the Rust
loops do. Each is proved to return `MandelbrotResult(c, iterations)`, a
function defined on the orbit of c. So the optimised loop, with its
hand-expanded update `y = (x+x)*y + c.i; x = x2 - y2 + c.r` and its squared
test `x2 + y2 > 4`, computes exactly what the naive loop over `z*z + c` and
`norm(z) > 2` computes (over the reals).

The view stack is a class, `Navigation.History`, with a `seq<View>` field.
Its invariant `Valid()` holds after every operation. The invariant says:
- the stack is never empty;
- its bottom is always the initial view;
- every view on it has a positive zoom.

The model follows the code:
- `unsharpen` is `sharpness - 10` on a `u32`, with no clamp at 1. Below 10
  it panics in debug builds and wraps in release builds, so
  `Views.Unsharpen` requires `sharpness >= 10`.
- The zoom box has no guard for an empty selection.
  - The code divides by zero and gets `f64` +infinity.
  - With one side of the selection empty, `min` picks the other side's
    ratio. `ZoomBoxes.Ratio` models this exactly.
  - Only a selection that is empty along both axes gives an infinite
    zoom. `ZoomBoxes.ZoomBox` requires the two corners to differ.
  - The Findings section explains how the event loop can still produce
    that case.

## Model

| member | source | states |
|---|---|---|
| Machine.U32AsI32 | src/main.rs:30 | `as i32` keeps values below 2^31, and otherwise subtracts 2^32; the result is -1 exactly for `u32::MAX` |
| Machine.RealAsU8 | src/main.rs:67 | `f64 as u8` is 0 at or below 0, 255 at or above 255, and the integer part between them |
| Machine.RealAsU8Monotone | src/main.rs:67 | the saturating cast to `u8` is monotone |
| Machine.RealAsU32 | src/main.rs:236 | `f32 as u32` is 0 at or below 0, `u32::MAX` at or above it, and the integer part between them |
| Machine.AbsDiff | src/main.rs:247-248 | `abs_diff` is the distance between the two values, whichever is larger |
| Machine.AbsDiffSymmetric | src/main.rs:247-248 | `abs_diff` is symmetric and zero exactly when the values are equal |
| Complexes.NormSquared | src/complex.rs:12-14 | the radicand of `norm` is never negative |
| Complexes.IsNorm | src/complex.rs:12-14 | n is `norm(a)`: the non-negative root of r^2 + i^2; such a norm is 0 exactly for 0 + 0i and bounds both components |
| Complexes.Add | src/complex.rs:20-25 | subtracting b from a + b gives a back |
| Complexes.Mul | src/complex.rs:31-36 | a real factor scales both components of the other factor, and i * i = -1 |
| Complexes.MulDistributes | src/complex.rs:31-36 | the product distributes over the sum; with the scaling and i * i = -1 this fixes the product |
| Complexes.MulNormSquared | src/complex.rs:31-36 | the squared norm of a product is the product of the squared norms |
| Complexes.AddCommutes | src/complex.rs:20-25 | complex addition is commutative |
| Complexes.AddZeroIsIdentity | src/complex.rs:20-25 | 0 + 0i is the identity of addition on both sides |
| Complexes.MulCommutes | src/complex.rs:31-36 | complex multiplication is commutative |
| Complexes.MulZeroIsZero | src/complex.rs:31-36 | multiplying by 0 + 0i on either side gives 0 + 0i |
| Complexes.SquareMonotone | src/complex.rs:13 | squaring is strictly monotone on non-negative reals, which makes the square root unique and monotone |
| Complexes.NormCompare | src/complex.rs:12-14 | for a non-negative bound k, `norm(a) > k` exactly when r^2 + i^2 > k^2 |
| Complexes.NormExceedsTwo | src/complex.rs:12-14 | the escape test `norm(z) > 2` is equivalent to r^2 + i^2 > 4 |
| Complexes.NormUnique | src/complex.rs:12-14 | a complex number has at most one norm |
| Views.PixelToComplex | src/view.rs:12-19 | the centre pixel shows (r, i); the point is drawn back exactly at its pixel (`DrawnAt`); with positive zoom the point lies left of the centre exactly for pixels left of the middle column, and above it exactly for pixels above the middle row |
| Views.ScreenRoundTrip | src/view.rs:12-19 | drawing the plane point under any screen position puts it back at that position |
| Views.PlaneRoundTrip | src/view.rs:12-19 | the point under the position where a plane point is drawn is that point |
| Views.PixelToComplexOnScreen | src/view.rs:12-19 | the pixel mapping is the screen mapping taken at whole-pixel positions |
| Views.StepLeft | src/view.rs:21-26 | only `r` changes, and with positive zoom it decreases |
| Views.StepRight | src/view.rs:28-33 | only `r` changes, and with positive zoom it increases |
| Views.StepUp | src/view.rs:35-40 | only `i` changes, and with positive zoom it increases |
| Views.StepDown | src/view.rs:42-47 | only `i` changes, and with positive zoom it decreases |
| Views.StepZoomIn | src/view.rs:49-54 | only `zoom` changes, and a positive zoom stays positive |
| Views.StepZoomOut | src/view.rs:56-61 | only `zoom` changes, and a positive zoom stays positive |
| Views.ZoomBy | src/view.rs:63-68 | only `zoom` changes, and a positive zoom stays positive under a positive factor |
| Views.Sharpen | src/view.rs:70-75 | only `sharpness` changes, and it grows by exactly 10; there must be no `u32` overflow |
| Views.Unsharpen | src/view.rs:77-82 | only `sharpness` changes, and it shrinks by exactly 10; it must be at least 10, because the `u32` subtraction has no clamp |
| Views.CenterOn | src/view.rs:84-90 | the new centre is c; zoom and sharpness are kept |
| Views.CenterPixelShowsCenter | src/view.rs:12-19 | the pixel at half the canvas size shows exactly (r, i) |
| Views.PixelToComplexMonotone | src/view.rs:16-17 | with positive zoom, moving right increases the real part and moving down decreases the imaginary part; the same column or row gives the same value |
| Views.PixelSpacing | src/view.rs:16-17 | adjacent pixels are exactly 1/zoom apart on each axis |
| Views.StepRightShiftsScreen | src/view.rs:28-33 | after `step_right`, each screen position shows what STEP_SIZE pixels to its right showed before, at every zoom |
| Views.StepLeftShiftsScreen | src/view.rs:21-26 | after `step_left`, each screen position shows what STEP_SIZE pixels to its left showed before |
| Views.StepUpShiftsScreen | src/view.rs:35-40 | after `step_up`, each screen position shows what STEP_SIZE pixels above it showed before |
| Views.StepDownShiftsScreen | src/view.rs:42-47 | after `step_down`, each screen position shows what STEP_SIZE pixels below it showed before |
| Views.OppositePansCancel | src/view.rs:21-47 | left then right, right then left, up then down and down then up all give back the same view |
| Views.OppositeZoomsCancel | src/view.rs:49-61 | zooming in then out, or out then in, gives back the same view |
| Views.ZoomStepsAreZoomBy | src/view.rs:49-68 | the zoom steps are `zoom_by` ZOOM_STEP_SIZE and its reciprocal |
| Views.ZoomByComposes | src/view.rs:63-68 | two zooms compose into a zoom by the product of their factors |
| Views.ZoomByScalesAboutCenter | src/view.rs:63-68 | zooming by f magnifies the picture by f about the canvas centre |
| Views.SharpenUnsharpenCancel | src/view.rs:70-82 | `unsharpen(sharpen(v)) == v` when there is no overflow |
| Views.UnsharpenSharpenCancel | src/view.rs:70-82 | `sharpen(unsharpen(v)) == v` when sharpness is at least 10 |
| Views.CenterOnIdempotent | src/view.rs:84-90 | recentring twice on the same point is recentring once |
| Views.CenterOnOverrides | src/view.rs:84-90 | only the last recentring counts |
| Views.CenterOnShowsPoint | src/view.rs:84-90 | after `center_on(c)`, the centre pixel shows c |
| Views.CenterOnPixel | src/view.rs:84-90 | recentring on the point under a clicked pixel shows that point at the centre of the canvas |
| Ranges.AllBetween | src/all_between.rs:9 | the range's start is at most its end, and it holds exactly the v with min(a,b) <= v < max(a,b) |
| Ranges.AllBetweenSymmetric | src/all_between.rs:9 | swapping the arguments gives the same range |
| Ranges.AllBetweenSameIsEmpty | src/all_between.rs:9 | the range from a value to itself is empty |
| Ranges.AllBetweenLength | src/all_between.rs:9 | for `u32` values the range's length is their `abs_diff`, the selection size of the zoom box |
| Escape.EscapesAt | src/main.rs:36-38 | step 0 escapes exactly when r^2 + i^2 of c exceeds 4, and the orbit of 0 never escapes |
| Escape.EscapesAtNorm | src/main.rs:37-38 | for the norm n of the new iterate, step k escapes exactly when `n > 2`, the naive loop's test |
| Escape.FirstEscape | src/main.rs:36-41 | the first step in [from, n) whose next iterate leaves radius 2, or none if no step there escapes |
| Escape.MandelbrotResult | src/main.rs:34-61 | -1 exactly when no step below the budget escapes; otherwise a step below the budget that escapes, with none before it; never below -1 while the budget fits in an `i32` |
| Escape.Orbit | src/main.rs:34-36 | the orbit of 0 stays at 0, and the orbit of a real point stays on the real axis |
| Escape.OrbitStep | src/main.rs:37 | each iterate is the previous one squared plus c |
| Escape.FirstIterateIsPoint | src/main.rs:35-37 | starting from 0, the first iterate is c itself |
| Escape.NoBudgetNoEscape | src/main.rs:34-61 | with zero iterations both Mandelbrot functions report -1 |
| Escape.ComponentStep | src/main.rs:52-53 | the component update of the optimised loop is `z*z + c` |
| Escape.ResultFound | src/main.rs:38-40 | returning the first escaping step i is returning the specified result |
| Escape.FirstEscapeUnique | src/main.rs:36-41 | the first escaping step is unique: a step that escapes with none before it is the one the search finds |
| Escape.ResultNotFound | src/main.rs:42 | when no step escapes, -1 is the specified result |
| Escape.MandelbrotNaive | src/main.rs:34-43 | the loop over `z = z*z + c` with the test `norm(z) > 2` returns `MandelbrotResult` |
| Escape.OptimizedUpdate | src/main.rs:52-55 | the optimised update turns the iterate i and its squared parts into iterate i + 1 |
| Escape.OptimizedTest | src/main.rs:56 | `x2 + y2 > 4` on the new iterate is the escape test |
| Escape.MandelbrotOptimized | src/main.rs:45-61 | the loop over x, y, x2 and y2 returns `MandelbrotResult`, which is what the naive loop returns |
| Escape.FloorSqrtFrom | src/main.rs:26-30 | an upward search from k finds the greatest m with m^2 <= s |
| Escape.FloorSqrt | src/main.rs:26-30 | the floor of the square root of a non-negative real |
| Escape.FloorOfNorm | src/main.rs:26-30 | `d.floor()` of the norm d is the integer square root of r^2 + i^2 |
| Escape.Circle | src/main.rs:25-32 | -1 exactly inside the closed unit disc; otherwise `iterations - floor(d)`, which lies in [0, iterations) while the budget fits in an `i32` |
| Escape.CircleOfNorm | src/main.rs:25-32 | on the norm d itself, `circle` is -1 when d <= 1 and otherwise `(iterations - d.floor() as u32) as i32` |
| Escape.RedChannel | src/main.rs:67 | red is 0 for z <= 0 and full 255 once z reaches the budget; with a zero budget, 255 / 0 is +infinity and red is 255 exactly for z > 0 |
| Escape.ZToColor | src/main.rs:63-70 | green and blue are 0 and alpha is 255; -1 is opaque black |
| Escape.RedRamp | src/main.rs:67 | for 0 <= z < steps, red is floor(255 z / steps), which stays below 255 |
| Escape.RedChannelMonotone | src/main.rs:67 | the red channel never decreases as z grows, for every budget |
| Escape.RedMonotone | src/main.rs:63-70 | a later escape never gets a darker red |
| Escape.SelectEvaluator | src/main.rs:115-119 | `circle` is chosen exactly when FUNCTION is "CIRCLE"; otherwise `mandelbrot_optimized` |
| Escape.Evaluate | src/main.rs:86-89 | the chosen function gives -1 exactly when no step within the budget escapes (Mandelbrot), or exactly inside the closed unit disc (`circle`) |
| Raster.Grid | src/main.rs:78-82 | `iproduct!(0..height, 0..width)` has height * width pairs, each within the canvas |
| Raster.GridAt | src/main.rs:81 | rows are outermost: pair y * width + x is (y, x) |
| Raster.Flatten | src/main.rs:93 | flattening n colours gives 4n bytes |
| Raster.FlattenAt | src/main.rs:93-94 | byte j of colour k is at offset 4k + j |
| Raster.CellInBounds | src/main.rs:78-81 | the row-major index of a pixel on the canvas is below width * height |
| Raster.PixelColor | src/main.rs:84-91 | a pixel's colour has green and blue 0 and alpha 255, and is black when its point does not escape |
| Raster.Colors | src/main.rs:81-92 | one colour per pixel, in grid order |
| Raster.FromRaw | src/main.rs:96 | `from_raw` succeeds exactly when the buffer holds width * height RGBA pixels |
| Raster.DrawImage | src/main.rs:72-97 | the buffer is exactly width * height * 4 bytes, so the `unwrap` never fails |
| Raster.ColorsAt | src/main.rs:81-92 | colour y * width + x is the colour of pixel (x, y) |
| Raster.DrawImageLayout | src/main.rs:72-97 | byte j of pixel (x, y) is at offset 4 (y * width + x) + j and is byte j of that pixel's colour |
| Raster.DrawImagePixel | src/main.rs:72-97 | reading pixel (x, y) back from the image gives the colour of the plane point under it |
| ZoomBoxes.Quotient | src/main.rs:254-255 | `n as f64 / d as f64` with n > 0 is +infinity exactly when d = 0, and otherwise the positive q with q d = n |
| ZoomBoxes.SelfQuotient | src/main.rs:254-255 | a dimension divided by itself is 1 |
| ZoomBoxes.AtMost | src/main.rs:256 | `f64` `<=` on ratios: a is at most b exactly when b is not strictly below a, with +infinity above every finite value |
| ZoomBoxes.AtMostTotalOrder | src/main.rs:256 | that `<=` is total, antisymmetric and transitive, with +infinity on top, so `min` is well defined |
| ZoomBoxes.ZoomFactor | src/main.rs:254-260 | the factor is infinite only for an empty selection; otherwise it is positive, both sides of the zoomed selection fit the canvas, and one side fills it |
| ZoomBoxes.Midpoint | src/main.rs:252 | `(a + b) / 2` lies between a and b and is half their sum, rounded down |
| ZoomBoxes.MidpointSymmetric | src/main.rs:252 | the midpoint does not depend on the order of the corners |
| ZoomBoxes.Selection | src/main.rs:247-248 | the selection is empty on both axes exactly when the two corners are the same pixel |
| ZoomBoxes.BoxCenter | src/main.rs:250-252 | the centre pixel lies within the selection on both axes |
| ZoomBoxes.ZoomBox | src/main.rs:243-261 | the new view is centred on the point under the selection's middle pixel, keeps the sharpness, and has the old zoom times the finite zoom factor |
| ZoomBoxes.ZoomBoxCornerOrder | src/main.rs:244-261 | dragging between either pair of opposite corners, in either direction, gives the same view |
| ZoomBoxes.ZoomedFit | src/main.rs:254-261 | a positive zoom times the factor fits the selection into the canvas and fills it along one axis |
| ZoomBoxes.ZoomBoxFitsSelection | src/main.rs:243-261 | measured in the plane, the selection fits the new view on both axes and spans it exactly along one |
| ZoomBoxes.ZoomBoxCentresSelection | src/main.rs:250-261 | the new view's centre pixel shows the point under the selection's middle pixel |
| ZoomBoxes.WholeCanvasIsSameView | src/main.rs:243-261 | dragging from corner to corner of an even-sized canvas gives back the same view |
| Navigation.Push | src/main.rs:154 | a push keeps the stack below and puts the view on top |
| Navigation.Pop | src/main.rs:201-202 | `pop` on the non-empty stack removes the top, except that a single view stays |
| Navigation.PopPush | src/main.rs:154-205 | an undo right after a push restores the stack |
| Navigation.PopSingleton | src/main.rs:201-202 | Backspace with only the initial view changes nothing |
| Navigation.ReplaceTop | src/main.rs:184-188 | the new view ends up on top of what `pop` leaves; the depth is kept, or grows from 1 to 2, and the bottom view is kept |
| Navigation.FloorKept | src/main.rs:108-205 | push, pop and replace-top all keep a non-empty stack non-empty with the same bottom view |
| Navigation.PixelOf | src/main.rs:244-245 | a mouse position truncates to the pixel whose unit square holds it, and to 0 left of or above the canvas |
| Navigation.ReleaseAsWritten | src/main.rs:232-245 | a release is ignored exactly when no press was recorded, and it is a click exactly when it is at the press position; a click carries the release pixel, a drag the press and release pixels |
| Navigation.SubPixelDragAsWritten | src/main.rs:233-255 | a press at (10.25, 5) and a release at (10.75, 5) make a drag whose selection is empty on both axes and whose zoom factor is infinite |
| Navigation.ClassifyRelease | src/main.rs:232-266 | corrected: a drag only between different pixels, so the selection is never empty on both axes |
| Navigation.ClassifyReleaseAgrees | src/main.rs:232-266 | the corrected decision equals the event loop's decision whenever the positions are equal or lie in different pixels |
| Navigation.ClassifiedDragIsFinite | src/main.rs:243-261 | every drag of the corrected decision has a finite zoom factor |
| Navigation.History.Current | src/main.rs:154-205 | `views.last()`: the top of the stack, which has a positive zoom |
| Navigation.History.constructor | src/main.rs:108-113 | the history starts as the single initial view (-0.75, 0, 300, 30) |
| Navigation.History.PushView | src/main.rs:154 | pushing a view with positive zoom keeps the invariant, and that view is then on screen |
| Navigation.History.PanLeft | src/main.rs:153-157 | the Left key pushes `step_left` of the top, which is then the view on screen |
| Navigation.History.PanRight | src/main.rs:158-162 | the Right key pushes `step_right` of the top, which is then the view on screen |
| Navigation.History.PanUp | src/main.rs:163-167 | the Up key pushes `step_up` of the top, which is then the view on screen |
| Navigation.History.PanDown | src/main.rs:168-172 | the Down key pushes `step_down` of the top, which is then the view on screen |
| Navigation.History.ZoomIn | src/main.rs:173-177 | the Z key pushes `step_zoom_in` of the top, which is then the view on screen |
| Navigation.History.ZoomOut | src/main.rs:178-182 | the A key pushes `step_zoom_out` of the top, which is then the view on screen |
| Navigation.History.ReplaceView | src/main.rs:185-188 | replaces the top, or pushes when the top is the initial view, keeping the invariant; the new view is then on screen |
| Navigation.History.MoreIterations | src/main.rs:183-191 | the X key replaces the top with its `sharpen`, which is then the view on screen |
| Navigation.History.FewerIterations | src/main.rs:192-200 | the S key replaces the top with its `unsharpen`, which is then the view on screen |
| Navigation.History.Undo | src/main.rs:201-205 | Backspace pops, and the last view is never removed; the view below the old top is then on screen |
| Navigation.History.CenterAt | src/main.rs:233-242 | a left click pushes the top recentred on the clicked pixel |
| Navigation.History.ZoomOutAt | src/main.rs:268-279 | a right click pushes the top recentred on the clicked pixel and zoomed out one step |
| Navigation.History.ZoomToBox | src/main.rs:243-266 | a drag pushes the zoom box of the top |
| Navigation.History.LeftRelease | src/main.rs:232-266 | corrected handler (see Findings): a left release does nothing without a press, recentres on a click, and zooms to the box on a drag, with click and drag told apart by pixel |
| Navigation.History.LeftReleaseAsWritten | src/main.rs:232-266 | the handler as written: click and drag are told apart on the raw positions; a drag between two different pixels zooms to the box |

## Left out

- The window, the event loop, the texture upload and the drawing of the
  canvas are left out, with the key and mouse dispatch around them. Only
  the stack operations the handlers perform are modelled, one method each.
  A handler is modelled without the condition `press_position == None`
  that guards the keys and the right button.
- The recording of `press_position` and `mouse_position` from press and
  cursor events is left out. `History.LeftRelease` takes them as
  parameters.
- The drag-selection overlay (src/main.rs:285-301) draws a grey outline on
  a copy of the canvas. It is display only and is left out, apart from the
  `all_between` ranges it iterates over.
- The F1 and F2 keys only print. F2 measures precision with the
  arbitrary-precision library `astro_float`, which is not part of this
  model.
- The parallel map in `draw_image` is modelled as a sequential map. Its
  results are collected in input order.
- Redrawing the canvas after each stack change is not modelled as state.
  `Raster.DrawImage` of the top view is what is shown.
- Exact IEEE-754 arithmetic is left out: rounding, NaN, infinities and
  subnormals. All `f64` and `f32` arithmetic is real arithmetic. The code's
  behaviour rests on an infinity in two places, and both are modelled:
  division by a zero selection size (`ZoomBoxes.Ratio`), and `255 / steps`
  in `z_to_color` with a zero budget (`Escape.RedChannel`).
- `Views.PixelToComplex` and the pan functions require a non-zero zoom,
  because real division by zero has no value. Every view in
  `History.Valid()` has a positive zoom.
- `Complexes.IsNorm`: Dafny has no square root. `norm` is characterised as
  the non-negative root of r^2 + i^2, and both escape tests are stated on
  the squared norm. The lemmas above show this is equivalent.
- `Views.Sharpen` requires that `sharpness + 10` not overflow. A Rust `u32`
  addition panics there in debug builds and wraps in release builds; the
  wrapped result is not modelled.
- `History.MoreIterations` requires the same of the view on screen, for
  the same reason.
- `Views.Unsharpen` requires sharpness >= 10. Below that the `u32`
  subtraction panics in debug builds and wraps in release builds; the
  wrapped result is not modelled.
- `History.FewerIterations` requires the same of the view on screen, for
  the same reason.
- `Escape.Circle` requires `floor(norm(c)) <= iterations` outside the unit
  disc. Otherwise the `u32` subtraction panics in debug builds and wraps in
  release builds; the wrapped result is not modelled.
- `Raster.DrawImage` requires this of every pixel when `circle` is the
  chosen function.
- `ZoomBoxes.Midpoint` requires `a + b` to fit in a `u32`; otherwise the
  addition panics in debug builds and wraps in release builds.
- `ZoomBoxes.ZoomBox` requires the coordinate sums of the two corners to
  fit in a `u32`, for the same reason, and the two corners to differ. The
  code would set the zoom to +infinity (see Findings).
- `History.ZoomToBox` requires the same of the dragged corners, for the
  same reasons.
- `History.LeftRelease` requires the coordinate sums of a drag's corners
  to fit in a `u32`, for the same reason.
- `History.LeftReleaseAsWritten` requires that a drag, as the event loop
  decides it, be between two different pixels whose coordinate sums fit in
  a `u32`. A drag inside one pixel
  pushes a view of zoom +infinity, which a `View` with a real zoom cannot
  hold, so the model does not follow the program past that release.
  `History.LeftRelease` is the corrected handler and has no such
  precondition.
- `Ranges.AllBetween` is modelled at `int`. The source is generic over
  `PartialOrd`, and the program uses it with `u32` only.
- The values of WIDTH, HEIGHT, STEP_SIZE, ZOOM_STEP_SIZE, FUNCTION and
  TITLE are not part of this model. The first four are constants that are
  only known to be positive.
- `Raster.FromRaw` models the `image` crate's `from_raw` only through its
  documented size check.

## Findings

| source | as written | input that shows it | evidently intended | confidence | as-written member | corrected member |
|---|---|---|---|---|---|---|
| src/main.rs:233-255 | a left release counts as a click only when the `f32` release position equals the press position. Any other release is a drag between the truncated pixels. | press at (10.25, 5.0) and release at (10.75, 5.0). Both truncate to pixel (10, 5). The selection is 0 by 0, both ratios are +infinity, and the view's zoom becomes +infinity. | a release in the pixel of the press recentres on that pixel, so a drag is always non-empty | not executed; it needs a mouse that reports sub-pixel positions | Navigation.ReleaseAsWritten, Navigation.SubPixelDragAsWritten, Navigation.History.LeftReleaseAsWritten | Navigation.ClassifyRelease, Navigation.ClassifiedDragIsFinite, Navigation.History.LeftRelease |
