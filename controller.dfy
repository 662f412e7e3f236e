// The overlay component's state and its event handlers: drawing a first region
// with the mouse, dragging the frame, and dragging a resize handle.
//
// The component's own press position and the parent's `isDrawing` and
// `cropArea` props are fields of one controller object; the callbacks that
// hand a new value to the parent (onDrawingChange, onCropStart, onCropChange)
// become assignments to those fields. The image bounds are fixed for the
// controller's lifetime.

module Controller {
  import opened CropGeometry
  import opened CropFrame
  import opened BoundsSolver
  import opened ConstraintPipeline
  import opened Handles

  /** The rectangle spanned by the press position and the cursor, whichever way the cursor went. */
  function DrawnBox(start: Point, p: Point): (r: CropArea)
    ensures r.width >= 0.0 && r.height >= 0.0
    ensures (r.x == start.x || r.x == p.x) && r.x + r.width == Max(start.x, p.x)
    ensures (r.y == start.y || r.y == p.y) && r.y + r.height == Max(start.y, p.y)
    ensures r.x <= start.x && r.x <= p.x && r.y <= start.y && r.y <= p.y
  {
    CropArea(Min(start.x, p.x), Min(start.y, p.y), Abs(p.x - start.x), Abs(p.y - start.y))
  }

  /** Dragging from `s` to `p` spans the same rectangle as dragging from `p` to `s`. */
  lemma DrawnBoxSymmetric(s: Point, p: Point)
    ensures DrawnBox(s, p) == DrawnBox(p, s)
  {
  }

  /** An image on which a minimum-size box of every offered ratio fits both ways
      round; 16:9 and 9:16 are the most demanding. */
  predicate Roomy(b: Bounds)
  {
    b.width >= TimesRatio(MinCropSize, Ratio16x9) && b.height >= OverRatio(MinCropSize, Ratio9x16)
  }

  lemma RoomyForEveryRatio(b: Bounds, ratio: AspectRatio)
    requires Roomy(b) && ratio != Free
    ensures RoomyFor(b, ratio)
    ensures b.width >= MinCropSize && b.height >= MinCropSize
  {
  }

  /** What the handlers keep true of a crop region: it starts on the image, both
      sides are positive, and on a roomy image it lies entirely on the image. */
  predicate Placed(a: CropArea, b: Bounds)
  {
    a.x >= b.x && a.y >= b.y && a.width > 0.0 && a.height > 0.0 &&
    (Roomy(b) ==> Contained(a, b))
  }

  /** Every region the bounds solver returns is placed. */
  lemma ConstrainedPlaced(a: CropArea, b: Bounds)
    ensures Placed(Constrained(a, b), b)
  {
    if Roomy(b) {
      RoomyForEveryRatio(b, Ratio16x9);
    }
  }

  /** Every region the constraint pipeline returns is placed. */
  lemma PipelinePlaced(a: CropArea, b: Bounds, ratio: AspectRatio, h: Handle)
    ensures Placed(Pipeline(a, b, ratio, h), b)
  {
    PipelinePositive(a, b, ratio, h);
    if ratio == Free {
      PipelineFreeIsConstrained(a, b, h);
      ConstrainedPlaced(a, b);
    } else if Roomy(b) {
      RoomyForEveryRatio(b, ratio);
      PipelineContainedWhenRoomy(a, b, ratio, h);
    }
  }

  /** A frame drag keeps a placed region placed. */
  lemma TranslatedPlaced(a: CropArea, pos: Point, b: Bounds)
    requires Placed(a, b)
    ensures Placed(Translated(a, pos, b), b)
  {
  }

  class CropController {
    /** Where the screenshot lies on the canvas. */
    const bounds: Bounds
    /** Where the cursor went down to start drawing, while a drawing is in progress. */
    var drawStart: Option<Point>
    var isDrawing: bool
    /** The crop region, once one has been drawn. */
    var cropArea: Option<CropArea>

    predicate Valid()
      reads this
    {
      (drawStart.Some? <==> isDrawing) &&
      (drawStart.Some? ==> InsideBounds(drawStart.value, bounds)) &&
      (cropArea.Some? ==> Placed(cropArea.value, bounds))
    }

    /** A fresh overlay over the image: no region, not drawing. */
    constructor (b: Bounds)
      ensures bounds == b && drawStart == None && !isDrawing && cropArea == None
      ensures Valid()
    {
      bounds := b;
      drawStart := None;
      isDrawing := false;
      cropArea := None;
    }

    /** Lines 416-440: a press starts a drawing only when there is no region yet
        and the cursor is on the image (edges included); `pos` is None when no
        cursor position is available. */
    method MouseDown(pos: Option<Point>)
      requires Valid()
      modifies this
      ensures Valid()
      ensures cropArea == old(cropArea)
      ensures old(cropArea).None? && pos.Some? && InsideBounds(pos.value, bounds) ==>
        drawStart == pos && isDrawing
      ensures !(old(cropArea).None? && pos.Some? && InsideBounds(pos.value, bounds)) ==>
        drawStart == old(drawStart) && isDrawing == old(isDrawing)
    {
      if cropArea.Some? {
        return;
      }
      if pos.None? {
        return;
      }
      var p := pos.value;
      if p.x < bounds.x || p.x > bounds.x + bounds.width || p.y < bounds.y || p.y > bounds.y + bounds.height {
        return;
      }
      drawStart := Some(p);
      isDrawing := true;
    }

    /** Lines 443-465: while drawing, the region becomes the rectangle spanned by
        the press position and the cursor, passed through the bounds solver. */
    method MouseMove(pos: Option<Point>)
      requires Valid()
      modifies this
      ensures Valid()
      ensures drawStart == old(drawStart) && isDrawing == old(isDrawing)
      ensures cropArea ==
        if old(isDrawing) && old(drawStart).Some? && pos.Some?
        then Some(Constrained(DrawnBox(old(drawStart).value, pos.value), bounds))
        else old(cropArea)
    {
      if !isDrawing || drawStart.None? {
        return;
      }
      if pos.None? {
        return;
      }
      var p := pos.value;
      var start := drawStart.value;
      var startX := Min(start.x, p.x);
      var startY := Min(start.y, p.y);
      var width := Abs(p.x - start.x);
      var height := Abs(p.y - start.y);

      var newArea := CropArea(startX, startY, width, height);
      newArea := ConstrainToBounds(newArea, bounds);
      ConstrainedPlaced(CropArea(startX, startY, width, height), bounds);
      cropArea := Some(newArea);
    }

    /** Lines 468-473: a release ends a drawing in progress and forgets the press position. */
    method MouseUp()
      requires Valid()
      modifies this
      ensures Valid()
      ensures cropArea == old(cropArea)
      ensures !isDrawing && drawStart == None
    {
      if isDrawing {
        isDrawing := false;
        drawStart := None;
      }
    }

    /** Lines 239-266 and 507: the frame is dragged towards `pos`; the drag-bound
        function decides where it lands and the region takes that position. */
    method FrameDragMove(pos: Point)
      requires Valid() && cropArea.Some?
      modifies this
      ensures Valid()
      ensures drawStart == old(drawStart) && isDrawing == old(isDrawing)
      ensures cropArea == Some(Translated(old(cropArea).value, pos, bounds))
    {
      var area := cropArea.value;
      var q := DragBound(pos, area, bounds);
      TranslatedPlaced(area, pos, bounds);
      cropArea := Some(area.(x := q.x, y := q.y));
    }

    /** Lines 312-361 and 377-385: the handle's square has been dragged to
        (nodeX, nodeY); its centre is the cursor position the resize rule
        reads, and the candidate region goes through the constraint pipeline. */
    method HandleDragMove(pos: Handle, nodeX: real, nodeY: real, aspectRatio: AspectRatio)
      requires Valid() && cropArea.Some?
      modifies this
      ensures Valid()
      ensures drawStart == old(drawStart) && isDrawing == old(isDrawing)
      ensures cropArea == Some(Pipeline(
        ResizedByEdges(pos, nodeX + HandleSize / 2.0, nodeY + HandleSize / 2.0, old(cropArea).value),
        bounds, aspectRatio, pos))
    {
      var newArea := ResizeCandidate(pos, nodeX + HandleSize / 2.0, nodeY + HandleSize / 2.0, cropArea.value);
      PipelinePlaced(newArea, bounds, aspectRatio, pos);
      newArea := ApplyConstraints(newArea, bounds, aspectRatio, pos);
      cropArea := Some(newArea);
    }
  }

  /** Once the drawn rectangle is at least the minimum size, the region is exactly
      the rectangle spanned by the press position and a cursor on the image. */
  lemma DrawnRegionIsSpan(start: Point, p: Point, b: Bounds)
    requires InsideBounds(start, b) && InsideBounds(p, b)
    requires HasMinSize(DrawnBox(start, p))
    ensures Constrained(DrawnBox(start, p), b) == DrawnBox(start, p)
  {
    ConstrainedKeepsValid(DrawnBox(start, p), b);
  }

  /** A drag of handle `h` reported with its square at `sq` leaves region `a` as it is. */
  predicate LeftAsIs(h: Handle, sq: CropArea, a: CropArea, b: Bounds, ratio: AspectRatio)
  {
    Pipeline(ResizedByEdges(h, sq.x + HandleSize / 2.0, sq.y + HandleSize / 2.0, a), b, ratio, h) == a
  }

  /** A handle square reported where it is drawn changes no region that is on
      the image, at least the minimum size and of the chosen ratio: the square's
      centre is the handle's own anchor. */
  lemma HandleAtRestKeepsRegion(h: Handle, a: CropArea, b: Bounds, ratio: AspectRatio)
    requires Contained(a, b) && HasMinSize(a)
    requires ratio != Free ==> a.width == a.height * RatioValue(ratio)
    ensures LeftAsIs(h, HandleSquare(h, a), a, b, ratio)
  {
    ResizeAtOwnAnchor(h, a);
    PipelineKeepsValid(a, b, ratio, h);
  }

  /** The same holds of every square the handles are drawn as, in drawing order. */
  lemma HandlesAtRestKeepRegion(a: CropArea, b: Bounds, ratio: AspectRatio)
    requires Contained(a, b) && HasMinSize(a)
    requires ratio != Free ==> a.width == a.height * RatioValue(ratio)
    ensures forall i :: 0 <= i < |HandleOrder| ==>
      LeftAsIs(HandleOrder[i], HandleSquares(HandleOrder, a)[i], a, b, ratio)
  {
    forall i | 0 <= i < |HandleOrder|
      ensures LeftAsIs(HandleOrder[i], HandleSquares(HandleOrder, a)[i], a, b, ratio)
    {
      HandleAtRestKeepsRegion(HandleOrder[i], a, b, ratio);
    }
  }

  /** Drawing from (100, 100) back up to (50, 50) on a 1000 x 800 image gives the
      50 x 50 region at (50, 50). */
  lemma DrawUpAndLeft()
    ensures Constrained(DrawnBox(Point(100.0, 100.0), Point(50.0, 50.0)), Bounds(0.0, 0.0, 1000.0, 800.0))
      == CropArea(50.0, 50.0, 50.0, 50.0)
  {
  }

  /** With 16:9, dragging the right edge of a 200 x 100 region at (100, 100) to
      x = 950 on a 1000 x 800 image widens it to 850 and sets the height from it. */
  lemma WidenWithRatio()
    ensures Pipeline(ResizedByEdges(Right, 950.0, 150.0, CropArea(100.0, 100.0, 200.0, 100.0)),
      Bounds(0.0, 0.0, 1000.0, 800.0), Ratio16x9, Right) == CropArea(100.0, 100.0, 850.0, 478.125)
  {
  }

  /** Dragging that right edge to x = 2000 moves the region to the image's left
      edge and gives it the image's full width, rather than keeping x = 100. */
  lemma OverdragMovesRegion()
    ensures Pipeline(ResizedByEdges(Right, 2000.0, 150.0, CropArea(100.0, 100.0, 200.0, 100.0)),
      Bounds(0.0, 0.0, 1000.0, 800.0), Ratio16x9, Right) == CropArea(0.0, 100.0, 1000.0, 562.5)
  {
  }

  /** With 16:9, dragging the top edge of that region far above the image makes
      the ratio step push it past the right edge; the rescale pass shrinks it
      about its corner, which stays at x = 100. */
  lemma RatioOverflowShrinks()
    ensures Pipeline(ResizedByEdges(Top, 150.0, -2000.0, CropArea(100.0, 100.0, 200.0, 100.0)),
      Bounds(0.0, 0.0, 1000.0, 800.0), Ratio16x9, Top) == CropArea(100.0, 0.0, 900.0, 506.25)
  {
  }

  /** With 9:16, pulling the bottom edge of a region to a 20-high box leaves a
      region narrower than the minimum size. */
  lemma PortraitBelowMinimum()
    ensures Pipeline(ResizedByEdges(Bottom, 50.0, 20.0, CropArea(0.0, 0.0, 100.0, 100.0)),
      Bounds(0.0, 0.0, 1000.0, 800.0), Ratio9x16, Bottom) == CropArea(0.0, 0.0, 11.25, 20.0)
  {
  }
}
