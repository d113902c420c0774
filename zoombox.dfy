/** Zooming to a dragged rectangle: the view is recentred on the middle
    pixel of the selection and zoomed by the largest factor that still fits
    the whole selection into the canvas, keeping the canvas aspect. */
module ZoomBoxes {
  import opened Machine
  import opened Complexes
  import opened Views

  /** An `f64` quotient of a positive numerator: dividing by zero gives
      +infinity. */
  datatype Ratio = Finite(value: real) | Infinite

  /** `n as f64 / d as f64` for a positive n. */
  function Quotient(n: u32, d: u32): (q: Ratio)
    requires n > 0
    ensures q.Infinite? <==> d == 0
    ensures q.Finite? ==> q.value > 0.0 && q.value * d as real == n as real
  {
    if d == 0 then Infinite else Finite(n as real / d as real)
  }

  lemma SelfQuotient(n: u32)
    requires n > 0
    ensures Quotient(n, n) == Finite(1.0)
  {
    var x := n as real;
    assert x / x == 1.0;
  }

  /** `f64` `<=`: +infinity lies above every finite value and is equal to itself. */
  predicate AtMost(a: Ratio, b: Ratio): (le: bool)
    ensures le <==> !(b.Finite? && (a.Infinite? || b.value < a.value))
  {
    match (a, b)
    case (Finite(x), Finite(y)) => x <= y
    case (Finite(_), Infinite) => true
    case (Infinite, Finite(_)) => false
    case (Infinite, Infinite) => true
  }

  /** `<=` on ratios is a total order with +infinity on top. */
  lemma AtMostTotalOrder(a: Ratio, b: Ratio, c: Ratio)
    ensures AtMost(a, b) || AtMost(b, a)
    ensures AtMost(a, b) && AtMost(b, a) ==> a == b
    ensures AtMost(a, b) && AtMost(b, c) ==> AtMost(a, c)
    ensures AtMost(a, Infinite)
  {
  }

  lemma ScaleMonotone(x: real, y: real, s: real)
    requires x <= y && s >= 0.0
    ensures x * s <= y * s
  {
    assert y * s - x * s == (y - x) * s;
  }

  /** The zoom factor of a selection of the given size: infinite only for
      an empty selection; otherwise positive, small enough that both sides
      of the selection fit the canvas, and making one side fill it. */
  function ZoomFactor(canvas: (u32, u32), selected: (u32, u32)): (f: Ratio)
    requires canvas.0 > 0 && canvas.1 > 0
    ensures f.Infinite? <==> selected == (0, 0)
    ensures f.Finite? ==> f.value > 0.0
    ensures f.Finite? ==> f.value * selected.0 as real <= canvas.0 as real
    ensures f.Finite? ==> f.value * selected.1 as real <= canvas.1 as real
    ensures f.Finite? ==>
      f.value * selected.0 as real == canvas.0 as real || f.value * selected.1 as real == canvas.1 as real
  {
    var fx := Quotient(canvas.0, selected.0);
    var fy := Quotient(canvas.1, selected.1);
    if AtMost(fx, fy) then
      (if fy.Finite? then ScaleMonotone(fx.value, fy.value, selected.1 as real); fx else fx)
    else
      (if fx.Finite? then ScaleMonotone(fy.value, fx.value, selected.0 as real); fy else fy)
  }

  /** `(a + b) / 2` on `u32`; the addition panics on overflow in debug
      builds and wraps in release builds. */
  function Midpoint(a: u32, b: u32): (m: u32)
    requires a as int + b as int < U32_LIMIT
    ensures a <= m <= b || b <= m <= a
    ensures 2 * m as int == a as int + b as int || 2 * m as int + 1 == a as int + b as int
  {
    (a + b) / 2
  }

  lemma MidpointSymmetric(a: u32, b: u32)
    requires a as int + b as int < U32_LIMIT
    ensures Midpoint(a, b) == Midpoint(b, a)
  {
  }

  /** Both coordinate sums of the two corners fit in a `u32`. */
  predicate Fits(p1: (u32, u32), p2: (u32, u32))
  {
    p1.0 as int + p2.0 as int < U32_LIMIT && p1.1 as int + p2.1 as int < U32_LIMIT
  }

  /** The selection's width and height: the `abs_diff` of the corners. */
  function Selection(p1: (u32, u32), p2: (u32, u32)): (size: (u32, u32))
    ensures size == (0, 0) <==> p1 == p2
  {
    (AbsDiff(p1.0, p2.0), AbsDiff(p1.1, p2.1))
  }

  /** The pixel halfway between the corners. */
  function BoxCenter(p1: (u32, u32), p2: (u32, u32)): (m: (u32, u32))
    requires Fits(p1, p2)
    ensures p1.0 <= m.0 <= p2.0 || p2.0 <= m.0 <= p1.0
    ensures p1.1 <= m.1 <= p2.1 || p2.1 <= m.1 <= p1.1
  {
    (Midpoint(p1.0, p2.0), Midpoint(p1.1, p2.1))
  }

  predicate ZoomBoxDefined(v: View, canvas: (u32, u32), p1: (u32, u32), p2: (u32, u32))
  {
    v.zoom != 0.0 && canvas.0 > 0 && canvas.1 > 0 && Fits(p1, p2) && p1 != p2
  }

  /** `views.last().center_on(new_center).zoom_by(zoom_factor)` for a drag
      from p1 to p2. */
  function ZoomBox(v: View, canvas: (u32, u32), p1: (u32, u32), p2: (u32, u32)): (w: View)
    requires ZoomBoxDefined(v, canvas, p1, p2)
    ensures w.sharpness == v.sharpness
    ensures Complex(w.r, w.i) == PixelToComplex(v, canvas, BoxCenter(p1, p2))
    ensures v.zoom > 0.0 ==> w.zoom > 0.0
    ensures ZoomFactor(canvas, Selection(p1, p2)).Finite?
    ensures w.zoom == v.zoom * ZoomFactor(canvas, Selection(p1, p2)).value
  {
    var f := ZoomFactor(canvas, Selection(p1, p2));
    ZoomBy(CenterOn(v, PixelToComplex(v, canvas, BoxCenter(p1, p2))), f.value)
  }

  // ---------------------------------------------------------------------
  // Properties of the zoom box

  /** Which two opposite corners the user dragged between, and in which
      direction, does not matter. */
  lemma ZoomBoxCornerOrder(v: View, canvas: (u32, u32), p1: (u32, u32), p2: (u32, u32))
    requires ZoomBoxDefined(v, canvas, p1, p2)
    ensures ZoomBox(v, canvas, p1, p2) == ZoomBox(v, canvas, p2, p1)
    ensures ZoomBox(v, canvas, p1, p2) == ZoomBox(v, canvas, (p1.0, p2.1), (p2.0, p1.1))
  {
    AbsDiffSymmetric(p1.0, p2.0);
    AbsDiffSymmetric(p1.1, p2.1);
    MidpointSymmetric(p1.0, p2.0);
    MidpointSymmetric(p1.1, p2.1);
  }

  /** Scaling by a zoom z > 0 keeps the fit of a selection of size
      sx by sy scaled by f into a canvas of cx by cy. */
  lemma ScaledFit(sx: real, sy: real, cx: real, cy: real, z: real, f: real, w: real)
    requires z > 0.0 && w == z * f && f * sx <= cx && f * sy <= cy
    requires f * sx == cx || f * sy == cy
    ensures sx * w <= cx * z && sy * w <= cy * z
    ensures sx * w == cx * z || sy * w == cy * z
  {
    assert sx * w == (f * sx) * z;
    assert sy * w == (f * sy) * z;
    ScaleMonotone(f * sx, cx, z);
    ScaleMonotone(f * sy, cy, z);
  }

  /** A selection of the given size, drawn at zoom z, spans no more of the
      plane than the canvas drawn at zoom w (size / z <= canvas / w), along
      both axes. */
  predicate FitsCanvas(size: (u32, u32), canvas: (u32, u32), z: real, w: real)
  {
    size.0 as real * w <= canvas.0 as real * z && size.1 as real * w <= canvas.1 as real * z
  }

  /** ... and exactly as much along at least one axis. */
  predicate FillsCanvas(size: (u32, u32), canvas: (u32, u32), z: real, w: real)
  {
    size.0 as real * w == canvas.0 as real * z || size.1 as real * w == canvas.1 as real * z
  }

  /** Measured in the plane, the selection is no wider and no taller than
      the new view's canvas (size / old zoom <= canvas / new zoom), and it
      spans the canvas exactly along one axis. */
  lemma ZoomBoxFitsSelection(v: View, canvas: (u32, u32), p1: (u32, u32), p2: (u32, u32))
    requires ZoomBoxDefined(v, canvas, p1, p2) && v.zoom > 0.0
    ensures FitsCanvas(Selection(p1, p2), canvas, v.zoom, ZoomBox(v, canvas, p1, p2).zoom)
    ensures FillsCanvas(Selection(p1, p2), canvas, v.zoom, ZoomBox(v, canvas, p1, p2).zoom)
  {
    ZoomedFit(canvas, Selection(p1, p2), v.zoom, ZoomBox(v, canvas, p1, p2).zoom);
  }

  lemma ZoomedFit(canvas: (u32, u32), size: (u32, u32), z: real, w: real)
    requires canvas.0 > 0 && canvas.1 > 0 && size != (0, 0) && z > 0.0
    requires w == z * ZoomFactor(canvas, size).value
    ensures FitsCanvas(size, canvas, z, w)
    ensures FillsCanvas(size, canvas, z, w)
  {
    var f := ZoomFactor(canvas, size).value;
    ScaledFit(size.0 as real, size.1 as real, canvas.0 as real, canvas.1 as real, z, f, w);
  }

  /** The point under the selection's middle pixel is shown at the centre
      of the new view. */
  lemma ZoomBoxCentresSelection(v: View, canvas: (u32, u32), p1: (u32, u32), p2: (u32, u32), mid: (u32, u32))
    requires ZoomBoxDefined(v, canvas, p1, p2) && v.zoom > 0.0
    requires 2 * mid.0 as int == canvas.0 as int && 2 * mid.1 as int == canvas.1 as int
    ensures PixelToComplex(ZoomBox(v, canvas, p1, p2), canvas, mid) == PixelToComplex(v, canvas, BoxCenter(p1, p2))
  {
    CenterPixelShowsCenter(ZoomBox(v, canvas, p1, p2), canvas, mid);
  }

  /** Selecting a whole canvas of even size, corner to corner, gives back
      the view it started from. */
  lemma WholeCanvasIsSameView(v: View, canvas: (u32, u32))
    requires v.zoom != 0.0 && canvas.0 > 0 && canvas.1 > 0
    requires canvas.0 % 2 == 0 && canvas.1 % 2 == 0
    ensures ZoomBoxDefined(v, canvas, (0, 0), canvas)
    ensures ZoomBox(v, canvas, (0, 0), canvas) == v
  {
    var mid := BoxCenter((0, 0), canvas);
    assert 2 * mid.0 as int == canvas.0 as int && 2 * mid.1 as int == canvas.1 as int;
    CenterPixelShowsCenter(v, canvas, mid);
    assert Selection((0, 0), canvas) == canvas;
    SelfQuotient(canvas.0);
    SelfQuotient(canvas.1);
    assert ZoomFactor(canvas, canvas) == Finite(1.0);
  }
}
