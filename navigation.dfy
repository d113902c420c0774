/** The history of views behind the explorer's key and mouse bindings: a
    stack that is never empty, whose top is the view on screen. Pans, zoom
    steps and clicks push a new view; sharpening replaces the top unless it
    is the initial view; Backspace pops, except the last view. */
module Navigation {
  import opened Machine
  import opened Complexes
  import opened Views
  import opened Settings
  import opened ZoomBoxes

  /** The view the program starts with. */
  const INITIAL_VIEW: View := View(-0.75, 0.0, 300.0, 30)

  /** The canvas every view is drawn on. */
  const CANVAS: (u32, u32) := (WIDTH as u32, HEIGHT as u32)

  // ---------------------------------------------------------------------
  // Operations on the stack of views

  /** `views.push(v)`. */
  function Push(s: seq<View>, v: View): (t: seq<View>)
    ensures |t| == |s| + 1 && t[..|s|] == s && t[|s|] == v
  {
    s + [v]
  }

  /** `NonEmpty::pop`: removes the top unless it is the only element. */
  function Pop(s: seq<View>): (t: seq<View>)
    ensures |s| > 1 ==> t == s[..|s| - 1]
    ensures |s| <= 1 ==> t == s
  {
    if |s| > 1 then s[..|s| - 1] else s
  }

  /** `if views.len() > 1 { views.pop(); } views.push(new_view)`: the new
      view is on top of what `Pop` leaves. The depth is kept, except that on
      the initial view alone a second entry is created, and the bottom
      element is never overwritten. */
  function ReplaceTop(s: seq<View>, v: View): (t: seq<View>)
    ensures |t| >= 1 && t[|t| - 1] == v && t[..|t| - 1] == Pop(s)
    ensures |s| >= 1 ==> |t| == (if |s| > 1 then |s| else 2) && t[0] == s[0]
  {
    Push(Pop(s), v)
  }

  /** An undo right after a push restores the stack as it was. */
  lemma PopPush(s: seq<View>, v: View)
    requires |s| >= 1
    ensures Pop(Push(s, v)) == s
  {
    assert Push(s, v)[..|s|] == s;
  }

  /** Backspace on the initial view alone does nothing. */
  lemma PopSingleton(v: View)
    ensures Pop([v]) == [v]
  {
  }

  /** Every stack operation keeps a non-empty stack non-empty and keeps its
      bottom element. */
  lemma FloorKept(s: seq<View>, v: View)
    requires |s| >= 1
    ensures |Push(s, v)| >= 1 && Push(s, v)[0] == s[0]
    ensures |Pop(s)| >= 1 && Pop(s)[0] == s[0]
    ensures |ReplaceTop(s, v)| >= 1 && ReplaceTop(s, v)[0] == s[0]
  {
  }

  // ---------------------------------------------------------------------
  // Telling a click from a drag

  /** What a left-button release does: nothing (no press was recorded),
      recentre on a pixel, or zoom to the box between two pixels. */
  datatype Release = Ignored | Click(pixel: (u32, u32)) | Drag(from: (u32, u32), to: (u32, u32))

  /** A mouse position, `(f32, f32)`, truncated to a pixel with `as u32`:
      the pixel whose unit square holds the position, clamped to 0 on the
      left of and above the canvas. */
  function PixelOf(p: (real, real)): (q: (u32, u32))
    ensures 0.0 <= p.0 < U32_LIMIT as real ==> q.0 as real <= p.0 < q.0 as real + 1.0
    ensures 0.0 <= p.1 < U32_LIMIT as real ==> q.1 as real <= p.1 < q.1 as real + 1.0
    ensures p.0 <= 0.0 ==> q.0 == 0
    ensures p.1 <= 0.0 ==> q.1 == 0
  {
    (RealAsU32(p.0), RealAsU32(p.1))
  }

  /** The release as the event loop decides it: a click when the release
      position equals the press position, a drag otherwise. Both positions
      are compared before truncation to pixels. */
  function ReleaseAsWritten(press: Option<(real, real)>, release: (real, real)): (r: Release)
    ensures r.Ignored? <==> press.None?
    ensures r.Click? <==> press == Some(release)
    ensures r.Click? ==> r.pixel == PixelOf(release)
    ensures r.Drag? ==> r.from == PixelOf(press.value) && r.to == PixelOf(release)
  {
    match press
    case None => Ignored
    case Some(p) =>
      if p == release then Click(PixelOf(release)) else Drag(PixelOf(p), PixelOf(release))
  }

  /** Two positions inside the same pixel are a drag to the code above, and
      the selection between them is empty along both axes, so its zoom
      factor is +infinity. */
  lemma SubPixelDragAsWritten()
    ensures ReleaseAsWritten(Some((10.25, 5.0)), (10.75, 5.0)) == Drag((10, 5), (10, 5))
    ensures ZoomFactor(CANVAS, Selection((10, 5), (10, 5))).Infinite?
  {
    assert PixelOf((10.25, 5.0)) == (10, 5) by {
      assert (10.25).Floor == 10;
      assert (5.0).Floor == 5;
    }
    assert PixelOf((10.75, 5.0)) == (10, 5) by {
      assert (10.75).Floor == 10;
    }
  }

  /** The release decided on pixels: a drag only when press and release
      fall in different pixels, so that the box is never empty. */
  function ClassifyRelease(press: Option<(real, real)>, release: (real, real)): (r: Release)
    ensures r.Ignored? <==> press.None?
    ensures r.Drag? ==> r.from != r.to && r.from == PixelOf(press.value) && r.to == PixelOf(release)
    ensures r.Click? ==> r.pixel == PixelOf(release) && PixelOf(press.value) == PixelOf(release)
  {
    match press
    case None => Ignored
    case Some(p) =>
      if PixelOf(p) == PixelOf(release) then Click(PixelOf(release)) else Drag(PixelOf(p), PixelOf(release))
  }

  /** Whenever the two positions are equal, or lie in different pixels,
      the corrected decision is the one the event loop makes. */
  lemma ClassifyReleaseAgrees(press: Option<(real, real)>, release: (real, real))
    requires press.None? || press.value == release || PixelOf(press.value) != PixelOf(release)
    ensures ClassifyRelease(press, release) == ReleaseAsWritten(press, release)
  {
  }

  /** A drag decided on pixels always has a finite zoom factor. */
  lemma ClassifiedDragIsFinite(press: Option<(real, real)>, release: (real, real))
    requires ClassifyRelease(press, release).Drag?
    ensures ZoomFactor(CANVAS, Selection(ClassifyRelease(press, release).from,
                                         ClassifyRelease(press, release).to)).Finite?
  {
  }

  // ---------------------------------------------------------------------
  // The history

  class History {
    var views: seq<View>

    /** Never empty, starting from the initial view, and every view has a
        positive zoom, so every view can be mapped to pixels. */
    ghost predicate Valid()
      reads this
    {
      |views| >= 1 && views[0] == INITIAL_VIEW &&
      forall k :: 0 <= k < |views| ==> views[k].zoom > 0.0
    }

    /** `views.last()`: the view on screen. */
    function Current(): (v: View)
      reads this
      requires Valid()
      ensures v == views[|views| - 1]
      ensures v in views && v.zoom > 0.0
    {
      views[|views| - 1]
    }

    /** `nonempty![View { r: -0.75, i: 0., zoom: 300., sharpness: 30 }]`. */
    constructor ()
      ensures Valid() && views == [INITIAL_VIEW]
    {
      views := [INITIAL_VIEW];
    }

    /** Pushes a view with positive zoom. */
    method PushView(v: View)
      requires Valid() && v.zoom > 0.0
      modifies this
      ensures Valid() && views == Push(old(views), v)
      ensures Current() == v
    {
      views := Push(views, v);
    }

    /** The Left arrow key. */
    method PanLeft()
      requires Valid()
      modifies this
      ensures Valid() && views == Push(old(views), StepLeft(old(Current())))
      ensures Current() == StepLeft(old(Current()))
    {
      PushView(StepLeft(Current()));
    }

    /** The Right arrow key. */
    method PanRight()
      requires Valid()
      modifies this
      ensures Valid() && views == Push(old(views), StepRight(old(Current())))
      ensures Current() == StepRight(old(Current()))
    {
      PushView(StepRight(Current()));
    }

    /** The Up arrow key. */
    method PanUp()
      requires Valid()
      modifies this
      ensures Valid() && views == Push(old(views), StepUp(old(Current())))
      ensures Current() == StepUp(old(Current()))
    {
      PushView(StepUp(Current()));
    }

    /** The Down arrow key. */
    method PanDown()
      requires Valid()
      modifies this
      ensures Valid() && views == Push(old(views), StepDown(old(Current())))
      ensures Current() == StepDown(old(Current()))
    {
      PushView(StepDown(Current()));
    }

    /** The Z key. */
    method ZoomIn()
      requires Valid()
      modifies this
      ensures Valid() && views == Push(old(views), StepZoomIn(old(Current())))
      ensures Current() == StepZoomIn(old(Current()))
    {
      PushView(StepZoomIn(Current()));
    }

    /** The A key. */
    method ZoomOut()
      requires Valid()
      modifies this
      ensures Valid() && views == Push(old(views), StepZoomOut(old(Current())))
      ensures Current() == StepZoomOut(old(Current()))
    {
      PushView(StepZoomOut(Current()));
    }

    /** Replaces the top by a view with positive zoom, or pushes it when the
        top is the initial view. */
    method ReplaceView(v: View)
      requires Valid() && v.zoom > 0.0
      modifies this
      ensures Valid() && views == ReplaceTop(old(views), v)
      ensures Current() == v
    {
      views := ReplaceTop(views, v);
    }

    /** The X key; `sharpness + 10` must not overflow. */
    method MoreIterations()
      requires Valid() && Current().sharpness <= U32_MAX - 10
      modifies this
      ensures Valid() && views == ReplaceTop(old(views), Sharpen(old(Current())))
      ensures Current() == Sharpen(old(Current()))
    {
      ReplaceView(Sharpen(Current()));
    }

    /** The S key; `sharpness - 10` must not go below zero. */
    method FewerIterations()
      requires Valid() && Current().sharpness >= 10
      modifies this
      ensures Valid() && views == ReplaceTop(old(views), Unsharpen(old(Current())))
      ensures Current() == Unsharpen(old(Current()))
    {
      ReplaceView(Unsharpen(Current()));
    }

    /** The Backspace key. */
    method Undo()
      requires Valid()
      modifies this
      ensures Valid() && views == Pop(old(views))
      ensures |old(views)| > 1 ==> Current() == old(views)[|old(views)| - 2]
      ensures |old(views)| == 1 ==> Current() == old(Current())
    {
      views := Pop(views);
    }

    /** A left click: recentre on the clicked pixel. */
    method CenterAt(pixel: (u32, u32))
      requires Valid()
      modifies this
      ensures Valid()
      ensures views == Push(old(views), CenterOn(old(Current()), PixelToComplex(old(Current()), CANVAS, pixel)))
      ensures Current() == CenterOn(old(Current()), PixelToComplex(old(Current()), CANVAS, pixel))
    {
      var v := Current();
      PushView(CenterOn(v, PixelToComplex(v, CANVAS, pixel)));
    }

    /** A right click: recentre on the clicked pixel and zoom out one step. */
    method ZoomOutAt(pixel: (u32, u32))
      requires Valid()
      modifies this
      ensures Valid()
      ensures views == Push(old(views), StepZoomOut(CenterOn(old(Current()), PixelToComplex(old(Current()), CANVAS, pixel))))
      ensures Current() == StepZoomOut(CenterOn(old(Current()), PixelToComplex(old(Current()), CANVAS, pixel)))
    {
      var v := Current();
      PushView(StepZoomOut(CenterOn(v, PixelToComplex(v, CANVAS, pixel))));
    }

    /** A left drag from one pixel to another: zoom to the box between them. */
    method ZoomToBox(from: (u32, u32), to: (u32, u32))
      requires Valid() && Fits(from, to) && from != to
      modifies this
      ensures Valid() && views == Push(old(views), ZoomBox(old(Current()), CANVAS, from, to))
      ensures Current() == ZoomBox(old(Current()), CANVAS, from, to)
    {
      PushView(ZoomBox(Current(), CANVAS, from, to));
    }

    /** A left-button release, with the position of the matching press if
        one was recorded. */
    method LeftRelease(press: Option<(real, real)>, release: (real, real))
      requires Valid()
      requires ClassifyRelease(press, release).Drag? ==>
        Fits(ClassifyRelease(press, release).from, ClassifyRelease(press, release).to)
      modifies this
      ensures Valid()
      ensures match ClassifyRelease(press, release)
        case Ignored => views == old(views)
        case Click(p) => views == Push(old(views), CenterOn(old(Current()), PixelToComplex(old(Current()), CANVAS, p)))
        case Drag(a, b) => views == Push(old(views), ZoomBox(old(Current()), CANVAS, a, b))
    {
      match ClassifyRelease(press, release)
      case Ignored =>
      case Click(p) => CenterAt(p);
      case Drag(a, b) => ZoomToBox(a, b);
    }

    /** A left-button release as the event loop decides it, on the raw
        positions. A drag whose two positions fall in the same pixel would
        push a view of infinite zoom, which a `View` cannot hold, so that
        case is required away here; `LeftRelease` is the corrected handler. */
    method LeftReleaseAsWritten(press: Option<(real, real)>, release: (real, real))
      requires Valid()
      requires ReleaseAsWritten(press, release).Drag? ==>
        ReleaseAsWritten(press, release).from != ReleaseAsWritten(press, release).to &&
        Fits(ReleaseAsWritten(press, release).from, ReleaseAsWritten(press, release).to)
      modifies this
      ensures Valid()
      ensures match ReleaseAsWritten(press, release)
        case Ignored => views == old(views)
        case Click(p) => views == Push(old(views), CenterOn(old(Current()), PixelToComplex(old(Current()), CANVAS, p)))
        case Drag(a, b) => views == Push(old(views), ZoomBox(old(Current()), CANVAS, a, b))
    {
      match ReleaseAsWritten(press, release)
      case Ignored =>
      case Click(p) => CenterAt(p);
      case Drag(a, b) => ZoomToBox(a, b);
    }
  }
}
