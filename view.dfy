/** The viewport: which point of the plane sits at the canvas centre, how
    many pixels one plane unit covers, and the iteration budget. Every
    transform builds a new value with one field changed. */
module Views {
  import opened Machine
  import opened Complexes
  import opened Settings

  datatype View = View(r: real, i: real, zoom: real, sharpness: u32)

  /** The plane point under a screen position (px, py), where (px, py) may
      fall between pixels; rows grow downward, the imaginary axis upward. */
  ghost function ScreenToPlane(v: View, canvas: (u32, u32), px: real, py: real): Complex
    requires v.zoom != 0.0
  {
    Complex((px - canvas.0 as real / 2.0) / v.zoom + v.r,
            (canvas.1 as real / 2.0 - py) / v.zoom + v.i)
  }

  /** The screen position at which a plane point is drawn: the inverse of
      ScreenToPlane. */
  ghost function PlaneToScreen(v: View, canvas: (u32, u32), c: Complex): (real, real)
  {
    ((c.r - v.r) * v.zoom + canvas.0 as real / 2.0,
     (v.i - c.i) * v.zoom + canvas.1 as real / 2.0)
  }

  /** Plane point c is drawn exactly at pixel p. */
  ghost predicate DrawnAt(v: View, canvas: (u32, u32), c: Complex, p: (u32, u32))
  {
    PlaneToScreen(v, canvas, c) == (p.0 as real, p.1 as real)
  }

  /** `pixel_to_complex`: the centre pixel shows (r, i); every other pixel
      is zoom pixels per plane unit away from it, rightward along the real
      axis and downward along the imaginary axis. */
  function PixelToComplex(v: View, canvas: (u32, u32), pixel: (u32, u32)): (c: Complex)
    requires v.zoom != 0.0
    ensures 2 * pixel.0 as int == canvas.0 as int && 2 * pixel.1 as int == canvas.1 as int ==>
      c == Complex(v.r, v.i)
    ensures DrawnAt(v, canvas, c, pixel)
    ensures v.zoom > 0.0 ==> (c.r < v.r <==> 2 * pixel.0 as int < canvas.0 as int)
    ensures v.zoom > 0.0 ==> (c.i > v.i <==> 2 * pixel.1 as int < canvas.1 as int)
  {
    ScreenRoundTrip(v, canvas, pixel.0 as real, pixel.1 as real);
    var (width, height) := canvas;
    var (x, y) := pixel;
    Complex((x as real - width as real / 2.0) / v.zoom + v.r,
            (height as real / 2.0 - y as real) / v.zoom + v.i)
  }

  /** Drawing the plane point under a screen position puts it at that
      position, and the point drawn at a position is the one under it. */
  lemma ScreenRoundTrip(v: View, canvas: (u32, u32), px: real, py: real)
    requires v.zoom != 0.0
    ensures PlaneToScreen(v, canvas, ScreenToPlane(v, canvas, px, py)) == (px, py)
  {
    var c := ScreenToPlane(v, canvas, px, py);
    var (a, b) := (px - canvas.0 as real / 2.0, canvas.1 as real / 2.0 - py);
    assert c.r - v.r == a / v.zoom && v.i - c.i == -(b / v.zoom);
    DivideCancels(a, v.zoom);
    DivideCancels(b, v.zoom);
    assert PlaneToScreen(v, canvas, c).0 == px;
    assert PlaneToScreen(v, canvas, c).1 == py;
  }

  lemma PlaneRoundTrip(v: View, canvas: (u32, u32), c: Complex)
    requires v.zoom != 0.0
    ensures ScreenToPlane(v, canvas, PlaneToScreen(v, canvas, c).0, PlaneToScreen(v, canvas, c).1) == c
  {
    var (px, py) := PlaneToScreen(v, canvas, c);
    assert px - canvas.0 as real / 2.0 == (c.r - v.r) * v.zoom;
    assert canvas.1 as real / 2.0 - py == (c.i - v.i) * v.zoom;
    MultiplyCancels(c.r - v.r, v.zoom);
    MultiplyCancels(c.i - v.i, v.zoom);
  }

  lemma DivideCancels(a: real, z: real)
    requires z != 0.0
    ensures (a / z) * z == a
  {
  }

  lemma MultiplyCancels(a: real, z: real)
    requires z != 0.0
    ensures (a * z) / z == a
  {
  }

  /** The pixel mapping is the screen mapping at whole-pixel positions. */
  lemma PixelToComplexOnScreen(v: View, canvas: (u32, u32), pixel: (u32, u32))
    requires v.zoom != 0.0
    ensures PixelToComplex(v, canvas, pixel) == ScreenToPlane(v, canvas, pixel.0 as real, pixel.1 as real)
  {
  }

  function StepLeft(v: View): (w: View)
    requires v.zoom != 0.0
    ensures w.(r := v.r) == v
    ensures v.zoom > 0.0 ==> w.r < v.r
  {
    v.(r := v.r - STEP_SIZE / v.zoom)
  }

  function StepRight(v: View): (w: View)
    requires v.zoom != 0.0
    ensures w.(r := v.r) == v
    ensures v.zoom > 0.0 ==> w.r > v.r
  {
    v.(r := v.r + STEP_SIZE / v.zoom)
  }

  function StepUp(v: View): (w: View)
    requires v.zoom != 0.0
    ensures w.(i := v.i) == v
    ensures v.zoom > 0.0 ==> w.i > v.i
  {
    v.(i := v.i + STEP_SIZE / v.zoom)
  }

  function StepDown(v: View): (w: View)
    requires v.zoom != 0.0
    ensures w.(i := v.i) == v
    ensures v.zoom > 0.0 ==> w.i < v.i
  {
    v.(i := v.i - STEP_SIZE / v.zoom)
  }

  function StepZoomIn(v: View): (w: View)
    ensures w.(zoom := v.zoom) == v
    ensures v.zoom > 0.0 ==> w.zoom > 0.0
  {
    v.(zoom := v.zoom * ZOOM_STEP_SIZE)
  }

  function StepZoomOut(v: View): (w: View)
    ensures w.(zoom := v.zoom) == v
    ensures v.zoom > 0.0 ==> w.zoom > 0.0
  {
    v.(zoom := v.zoom / ZOOM_STEP_SIZE)
  }

  function ZoomBy(v: View, factor: real): (w: View)
    ensures w.(zoom := v.zoom) == v
    ensures v.zoom > 0.0 && factor > 0.0 ==> w.zoom > 0.0
  {
    v.(zoom := v.zoom * factor)
  }

  /** `self.sharpness + 10` on a u32, which panics on overflow in debug
      builds and wraps in release builds. */
  function Sharpen(v: View): (w: View)
    requires v.sharpness <= U32_MAX - 10
    ensures w.(sharpness := v.sharpness) == v
    ensures w.sharpness as int == v.sharpness as int + 10
  {
    v.(sharpness := v.sharpness + 10)
  }

  /** `self.sharpness - 10` on a u32, which panics below zero in debug
      builds and wraps in release builds; there is no clamp. */
  function Unsharpen(v: View): (w: View)
    requires v.sharpness >= 10
    ensures w.(sharpness := v.sharpness) == v
    ensures w.sharpness as int == v.sharpness as int - 10
  {
    v.(sharpness := v.sharpness - 10)
  }

  function CenterOn(v: View, c: Complex): (w: View)
    ensures w.zoom == v.zoom && w.sharpness == v.sharpness
    ensures Complex(w.r, w.i) == c
  {
    v.(r := c.r, i := c.i)
  }

  // ---------------------------------------------------------------------
  // The pixel-to-plane mapping

  /** The canvas centre shows the viewport's own centre. */
  lemma CenterPixelShowsCenter(v: View, canvas: (u32, u32), pixel: (u32, u32))
    requires v.zoom != 0.0
    requires 2 * pixel.0 as int == canvas.0 as int && 2 * pixel.1 as int == canvas.1 as int
    ensures PixelToComplex(v, canvas, pixel) == Complex(v.r, v.i)
  {
    assert pixel.0 as real == canvas.0 as real / 2.0;
    assert pixel.1 as real == canvas.1 as real / 2.0;
  }

  /** With positive zoom, moving right increases the real part and moving
      down decreases the imaginary part. */
  lemma PixelToComplexMonotone(v: View, canvas: (u32, u32), p: (u32, u32), q: (u32, u32))
    requires v.zoom > 0.0
    ensures p.0 < q.0 ==> PixelToComplex(v, canvas, p).r < PixelToComplex(v, canvas, q).r
    ensures p.0 == q.0 ==> PixelToComplex(v, canvas, p).r == PixelToComplex(v, canvas, q).r
    ensures p.1 < q.1 ==> PixelToComplex(v, canvas, p).i > PixelToComplex(v, canvas, q).i
    ensures p.1 == q.1 ==> PixelToComplex(v, canvas, p).i == PixelToComplex(v, canvas, q).i
  {
    var a := (p.0 as real - canvas.0 as real / 2.0);
    var b := (q.0 as real - canvas.0 as real / 2.0);
    if p.0 < q.0 {
      DivideMonotone(a, b, v.zoom);
    }
    var c := (canvas.1 as real / 2.0 - p.1 as real);
    var d := (canvas.1 as real / 2.0 - q.1 as real);
    if p.1 < q.1 {
      DivideMonotone(d, c, v.zoom);
    }
  }

  lemma DivideMonotone(a: real, b: real, z: real)
    requires a < b && z > 0.0
    ensures a / z < b / z
  {
    assert b / z - a / z == (b - a) / z;
  }

  /** Adjacent pixels are 1/zoom apart along each axis. */
  lemma PixelSpacing(v: View, canvas: (u32, u32), x: u32, y: u32)
    requires v.zoom != 0.0 && x < U32_MAX && y < U32_MAX
    ensures PixelToComplex(v, canvas, (x + 1, y)).r - PixelToComplex(v, canvas, (x, y)).r == 1.0 / v.zoom
    ensures PixelToComplex(v, canvas, (x, y)).i - PixelToComplex(v, canvas, (x, y + 1)).i == 1.0 / v.zoom
  {
    var w, h := canvas.0 as real / 2.0, canvas.1 as real / 2.0;
    DivideSub((x + 1) as real - w, x as real - w, v.zoom);
    DivideSub(h - y as real, h - (y + 1) as real, v.zoom);
  }

  // ---------------------------------------------------------------------
  // Panning

  /** A pan moves the picture by STEP_SIZE screen pixels at every zoom:
      after `step_right`, what was STEP_SIZE pixels right of a point is
      under it. */
  lemma StepRightShiftsScreen(v: View, canvas: (u32, u32), px: real, py: real)
    requires v.zoom != 0.0
    ensures ScreenToPlane(StepRight(v), canvas, px, py) == ScreenToPlane(v, canvas, px + STEP_SIZE, py)
  {
    var w := canvas.0 as real / 2.0;
    DivideAdd(px - w, STEP_SIZE, v.zoom);
    assert (px + STEP_SIZE) - w == (px - w) + STEP_SIZE;
  }

  lemma StepLeftShiftsScreen(v: View, canvas: (u32, u32), px: real, py: real)
    requires v.zoom != 0.0
    ensures ScreenToPlane(StepLeft(v), canvas, px, py) == ScreenToPlane(v, canvas, px - STEP_SIZE, py)
  {
    var w := canvas.0 as real / 2.0;
    DivideSub(px - w, STEP_SIZE, v.zoom);
    assert (px - STEP_SIZE) - w == (px - w) - STEP_SIZE;
  }

  lemma StepUpShiftsScreen(v: View, canvas: (u32, u32), px: real, py: real)
    requires v.zoom != 0.0
    ensures ScreenToPlane(StepUp(v), canvas, px, py) == ScreenToPlane(v, canvas, px, py - STEP_SIZE)
  {
    var h := canvas.1 as real / 2.0;
    DivideAdd(h - py, STEP_SIZE, v.zoom);
    assert h - (py - STEP_SIZE) == (h - py) + STEP_SIZE;
  }

  lemma StepDownShiftsScreen(v: View, canvas: (u32, u32), px: real, py: real)
    requires v.zoom != 0.0
    ensures ScreenToPlane(StepDown(v), canvas, px, py) == ScreenToPlane(v, canvas, px, py + STEP_SIZE)
  {
    var h := canvas.1 as real / 2.0;
    DivideSub(h - py, STEP_SIZE, v.zoom);
    assert h - (py + STEP_SIZE) == (h - py) - STEP_SIZE;
  }

  lemma DivideAdd(a: real, b: real, z: real)
    requires z != 0.0
    ensures a / z + b / z == (a + b) / z
  {
  }

  lemma DivideSub(a: real, b: real, z: real)
    requires z != 0.0
    ensures a / z - b / z == (a - b) / z
  {
  }

  /** Opposite pans cancel, in either order, because a pan keeps the zoom. */
  lemma OppositePansCancel(v: View)
    requires v.zoom != 0.0
    ensures StepRight(StepLeft(v)) == v && StepLeft(StepRight(v)) == v
    ensures StepDown(StepUp(v)) == v && StepUp(StepDown(v)) == v
  {
  }

  // ---------------------------------------------------------------------
  // Zooming

  /** Opposite zoom steps cancel, in either order. */
  lemma OppositeZoomsCancel(v: View)
    ensures StepZoomOut(StepZoomIn(v)) == v && StepZoomIn(StepZoomOut(v)) == v
  {
  }

  /** A zoom step is a zoom by ZOOM_STEP_SIZE or by its reciprocal. */
  lemma ZoomStepsAreZoomBy(v: View)
    ensures StepZoomIn(v) == ZoomBy(v, ZOOM_STEP_SIZE)
    ensures StepZoomOut(v) == ZoomBy(v, 1.0 / ZOOM_STEP_SIZE)
  {
  }

  /** Zooming composes multiplicatively. */
  lemma ZoomByComposes(v: View, f: real, g: real)
    ensures ZoomBy(ZoomBy(v, f), g) == ZoomBy(v, f * g)
  {
  }

  /** Zooming by f scales the picture about the canvas centre: a screen
      offset (dx, dy) from the centre afterwards shows what the offset
      (dx/f, dy/f) showed before. */
  lemma ZoomByScalesAboutCenter(v: View, canvas: (u32, u32), f: real, dx: real, dy: real)
    requires v.zoom != 0.0 && f != 0.0
    ensures var cx, cy := canvas.0 as real / 2.0, canvas.1 as real / 2.0;
            ScreenToPlane(ZoomBy(v, f), canvas, cx + dx, cy + dy)
              == ScreenToPlane(v, canvas, cx + dx / f, cy + dy / f)
  {
    DivideByProduct(dx, v.zoom, f);
    DivideByProduct(dy, v.zoom, f);
  }

  lemma DivideByProduct(a: real, z: real, f: real)
    requires z != 0.0 && f != 0.0
    ensures a / (z * f) == (a / f) / z
  {
  }

  // ---------------------------------------------------------------------
  // Iteration budget

  lemma SharpenUnsharpenCancel(v: View)
    requires v.sharpness <= U32_MAX - 10
    ensures Unsharpen(Sharpen(v)) == v
  {
  }

  lemma UnsharpenSharpenCancel(v: View)
    requires v.sharpness >= 10
    ensures Sharpen(Unsharpen(v)) == v
  {
  }

  // ---------------------------------------------------------------------
  // Recentring

  lemma CenterOnIdempotent(v: View, c: Complex)
    ensures CenterOn(CenterOn(v, c), c) == CenterOn(v, c)
  {
  }

  /** Only the last recentring matters. */
  lemma CenterOnOverrides(v: View, a: Complex, b: Complex)
    ensures CenterOn(CenterOn(v, a), b) == CenterOn(v, b)
  {
  }

  /** After `center_on(c)`, the canvas centre shows c. */
  lemma CenterOnShowsPoint(v: View, c: Complex, canvas: (u32, u32), pixel: (u32, u32))
    requires v.zoom != 0.0
    requires 2 * pixel.0 as int == canvas.0 as int && 2 * pixel.1 as int == canvas.1 as int
    ensures PixelToComplex(CenterOn(v, c), canvas, pixel) == c
  {
    CenterPixelShowsCenter(CenterOn(v, c), canvas, pixel);
  }

  /** Recentring on the point under a pixel brings that pixel's point to the centre. */
  lemma CenterOnPixel(v: View, canvas: (u32, u32), pixel: (u32, u32))
    requires v.zoom != 0.0
    ensures var w := CenterOn(v, PixelToComplex(v, canvas, pixel));
            ScreenToPlane(w, canvas, canvas.0 as real / 2.0, canvas.1 as real / 2.0)
              == PixelToComplex(v, canvas, pixel)
  {
  }
}
