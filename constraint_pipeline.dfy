// enforceAspectRatio and applyConstraints: bounds first, then the ratio, then
// a rescale pass when the ratio pushed the box off the image, then a final
// position clamp.
//
// The reference definitions multiply and divide by the ratio through
// TimesRatio and OverRatio, which are proved equal to `x * t` and `x / t`;
// the methods use `*` and `/` as the source does.

module ConstraintPipeline {
  import opened CropGeometry
  import opened CropFrame
  import opened BoundsSolver

  /** Edge handles on the top and bottom keep the height; every other handle keeps the width. */
  predicate KeepsHeight(h: Handle)
  {
    h == Top || h == Bottom
  }

  /** The area with one dimension recomputed from the other so that width = height * ratio. */
  function RatioEnforced(a: CropArea, ratio: AspectRatio, h: Handle): (r: CropArea)
    ensures r.x == a.x && r.y == a.y
    ensures ratio == Free ==> r == a
    ensures ratio != Free && KeepsHeight(h) ==> r.height == a.height
    ensures !KeepsHeight(h) ==> r.width == a.width
  {
    if ratio == Free then a
    else if KeepsHeight(h) then a.(width := TimesRatio(a.height, ratio))
    else a.(height := OverRatio(a.width, ratio))
  }

  /** Lines 80-102 as the source writes them: a ratio of 0 means "free"; a
      horizontal edge drag keeps the width, a vertical one the height, and a
      corner drag lets the width lead. */
  method EnforceAspectRatio(area: CropArea, ratio: AspectRatio, dragHandle: Handle) returns (result: CropArea)
    ensures result == RatioEnforced(area, ratio, dragHandle)
  {
    var targetRatio := RatioValue(ratio);
    if targetRatio == 0.0 {
      return area;
    }

    result := area;
    var isHorizontalDrag := dragHandle == Left || dragHandle == Right;
    var isVerticalDrag := dragHandle == Top || dragHandle == Bottom;

    if isHorizontalDrag {
      result := result.(height := result.width / targetRatio);
    } else if isVerticalDrag {
      result := result.(width := result.height * targetRatio);
    } else {
      // a corner: the width leads
      result := result.(height := result.width / targetRatio);
    }
    OverRatioIsQuotient(area.width, ratio);
    TimesRatioIsProduct(area.height, ratio);
  }

  /** A fixed ratio is met exactly after enforcement, whichever dimension leads. */
  lemma RatioEnforcedExact(a: CropArea, ratio: AspectRatio, h: Handle)
    requires ratio != Free
    ensures RatioEnforced(a, ratio, h).width == RatioEnforced(a, ratio, h).height * RatioValue(ratio)
  {
    var r := RatioEnforced(a, ratio, h);
    assert r.width == TimesRatio(r.height, ratio);
    TimesRatioIsProduct(r.height, ratio);
  }

  /** Enforcement keeps both sides of a positive box positive and meets the ratio exactly. */
  lemma RatioEnforcedShape(a: CropArea, ratio: AspectRatio, h: Handle)
    requires ratio != Free && a.width > 0.0 && a.height > 0.0
    ensures var r := RatioEnforced(a, ratio, h);
      r.width > 0.0 && r.height > 0.0 && r.width == TimesRatio(r.height, ratio)
  {
  }

  /** The box given width `w` and the height that the ratio asks for; when that
      height is below the minimum, the height is the minimum and the width is
      recomputed from it. */
  function Refit(a: CropArea, w: real, ratio: AspectRatio): (r: CropArea)
    requires ratio != Free && w > 0.0
    ensures r.x == a.x && r.y == a.y
    ensures r.width > 0.0 && r.height >= MinCropSize
    ensures r.width == TimesRatio(r.height, ratio)
    ensures OverRatio(w, ratio) >= MinCropSize ==> r.width == w
  {
    if OverRatio(w, ratio) < MinCropSize then a.(width := TimesRatio(MinCropSize, ratio), height := MinCropSize)
    else a.(width := w, height := OverRatio(w, ratio))
  }

  /** The box reaches beyond the image's right or bottom edge. */
  predicate Overflows(a: CropArea, b: Bounds)
  {
    a.width > b.x + b.width - a.x || a.height > b.y + b.height - a.y
  }

  /** The largest width of a box of the ratio, with its corner where `a`'s is, that still ends on the image. */
  function LargestWidth(a: CropArea, b: Bounds, ratio: AspectRatio): real
  {
    Min(b.x + b.width - a.x, TimesRatio(b.y + b.height - a.y, ratio))
  }

  /** The rescale pass, as a reference definition: a box that reaches beyond the
      image's far edges from its corner is refitted at the largest width of the
      ratio that does not (floored at the minimum). */
  function Rescaled(a: CropArea, b: Bounds, ratio: AspectRatio): (r: CropArea)
    requires ratio != Free
    ensures r.x == a.x && r.y == a.y
    ensures !Overflows(a, b) ==> r == a
    ensures Overflows(a, b) ==> r.height >= MinCropSize && r.width == TimesRatio(r.height, ratio)
  {
    if Overflows(a, b) then Refit(a, Max(MinCropSize, LargestWidth(a, b, ratio)), ratio) else a
  }

  /** Scaling a box of ratio t by the smaller of its two room fractions gives the
      largest width of that ratio that fits the room. */
  lemma ScaledWidthOfRatioBox(w: real, h: real, t: real, maxWidth: real, maxHeight: real)
    requires w > 0.0 && h > 0.0 && t > 0.0 && w == h * t
    ensures w * Min(maxWidth / w, maxHeight / h) == Min(maxWidth, maxHeight * t)
  {
    assert w * (maxWidth / w) == maxWidth;
    assert w * (maxHeight / h) == maxHeight * t by {
      calc {
        w * (maxHeight / h);
        h * t * (maxHeight / h);
        t * (h * (maxHeight / h));
        t * maxHeight;
      }
    }
    if maxWidth / w <= maxHeight / h {
      assert w * (maxWidth / w) <= w * (maxHeight / h);
    } else {
      assert w * (maxWidth / w) >= w * (maxHeight / h);
    }
  }

  /** For a box of the ratio, the source's scale factor lands exactly on the largest width that fits. */
  lemma ScaledWidthIsLargest(a: CropArea, b: Bounds, ratio: AspectRatio, scale: real)
    requires ratio != Free && a.width > 0.0 && a.height > 0.0
    requires a.width == TimesRatio(a.height, ratio)
    requires scale == Min((b.x + b.width - a.x) / a.width, (b.y + b.height - a.y) / a.height)
    ensures a.width * scale == LargestWidth(a, b, ratio)
  {
    TimesRatioIsProduct(a.height, ratio);
    ScaledWidthOfRatioBox(a.width, a.height, RatioValue(ratio), b.x + b.width - a.x, b.y + b.height - a.y);
    TimesRatioIsProduct(b.y + b.height - a.y, ratio);
  }

  /** Lines 125-148 of applyConstraints, as the source writes them, applied to the
      box the ratio step produced. */
  method RescaleToFit(shaped: CropArea, b: Bounds, aspectRatio: AspectRatio) returns (result: CropArea)
    requires aspectRatio != Free && shaped.width > 0.0 && shaped.height > 0.0
    requires shaped.width == TimesRatio(shaped.height, aspectRatio)
    ensures result == Rescaled(shaped, b, aspectRatio)
  {
    var targetRatio := RatioValue(aspectRatio);
    result := shaped;
    var maxWidth := b.x + b.width - result.x;
    var maxHeight := b.y + b.height - result.y;

    if result.width > maxWidth || result.height > maxHeight {
      var scaleW := maxWidth / result.width;
      var scaleH := maxHeight / result.height;
      var scale := Min(scaleW, scaleH);
      ghost var w := Max(MinCropSize, LargestWidth(shaped, b, aspectRatio));
      assert scaleW == (b.x + b.width - shaped.x) / shaped.width;
      assert scaleH == (b.y + b.height - shaped.y) / shaped.height;
      ScaledWidthIsLargest(shaped, b, aspectRatio, scale);
      OverRatioIsQuotient(w, aspectRatio);
      TimesRatioIsProduct(MinCropSize, aspectRatio);

      result := result.(width := Max(MinCropSize, result.width * scale));
      result := result.(height := result.width / targetRatio);

      if result.width < MinCropSize {
        // unreachable: the width was just raised to at least the minimum
        assert false;
      }
      if result.height < MinCropSize {
        result := result.(height := MinCropSize);
        result := result.(width := result.height * targetRatio);
      }
      assert result == Refit(shaped, w, aspectRatio);
    }
  }

  /** Reference definition of applyConstraints, pass by pass; the last pass puts
      the box where a frame drag would. */
  function Pipeline(a: CropArea, b: Bounds, ratio: AspectRatio, h: Handle): (r: CropArea)
    ensures r.x >= b.x && r.y >= b.y
  {
    var bounded := Constrained(a, b);
    if ratio == Free then bounded
    else
      var rescaled := Rescaled(RatioEnforced(bounded, ratio, h), b, ratio);
      Translated(rescaled, Point(rescaled.x, rescaled.y), b)
  }

  /** Unfolding of the pipeline for a fixed ratio. */
  lemma PipelineWithRatio(a: CropArea, b: Bounds, ratio: AspectRatio, h: Handle)
    requires ratio != Free
    ensures var rescaled := Rescaled(RatioEnforced(Constrained(a, b), ratio, h), b, ratio);
      Pipeline(a, b, ratio, h) == Translated(rescaled, Point(rescaled.x, rescaled.y), b)
  {
  }

  /** Lines 105-161 as the source writes them: each pass overwrites the local result. */
  method ApplyConstraints(area: CropArea, b: Bounds, aspectRatio: AspectRatio, dragHandle: Handle)
    returns (result: CropArea)
    ensures result == Pipeline(area, b, aspectRatio, dragHandle)
  {
    result := area;

    result := ConstrainToBounds(result, b);

    if aspectRatio == Free {
      return result;
    }

    result := EnforceAspectRatio(result, aspectRatio, dragHandle);
    RatioEnforcedShape(Constrained(area, b), aspectRatio, dragHandle);
    result := RescaleToFit(result, b, aspectRatio);
    ghost var rescaled := result;

    if result.x + result.width > b.x + b.width {
      result := result.(x := b.x + b.width - result.width);
    }
    assert result.x == Min(rescaled.x, b.x + b.width - rescaled.width);
    if result.y + result.height > b.y + b.height {
      result := result.(y := b.y + b.height - result.height);
    }
    assert result.y == Min(rescaled.y, b.y + b.height - rescaled.height);
    result := result.(x := Max(b.x, result.x));
    result := result.(y := Max(b.y, result.y));
    assert result == Translated(rescaled, Point(rescaled.x, rescaled.y), b);
    PipelineWithRatio(area, b, aspectRatio, dragHandle);
  }

  /** With no ratio the pipeline is the bounds solver alone. */
  lemma PipelineFreeIsConstrained(a: CropArea, b: Bounds, h: Handle)
    ensures Pipeline(a, b, Free, h) == Constrained(a, b)
  {
  }

  /** With a fixed ratio the result has exactly that ratio, whichever handle moved,
      through the rescale pass and its minimum-size floors. */
  lemma PipelineKeepsRatio(a: CropArea, b: Bounds, ratio: AspectRatio, h: Handle)
    requires ratio != Free
    ensures Pipeline(a, b, ratio, h).width == Pipeline(a, b, ratio, h).height * RatioValue(ratio)
  {
    var r := Pipeline(a, b, ratio, h);
    assert r.width == TimesRatio(r.height, ratio);
    TimesRatioIsProduct(r.height, ratio);
  }

  /** Both sides of the result are positive, whatever the input. */
  lemma PipelinePositive(a: CropArea, b: Bounds, ratio: AspectRatio, h: Handle)
    ensures Pipeline(a, b, ratio, h).width > 0.0 && Pipeline(a, b, ratio, h).height > 0.0
  {
  }

  /** The right edge is on the image whenever the final width fits the image; likewise the bottom edge. */
  lemma PipelineFitsWhenSmallEnough(a: CropArea, b: Bounds, ratio: AspectRatio, h: Handle)
    ensures var r := Pipeline(a, b, ratio, h);
      r.width <= b.width ==> r.x + r.width <= b.x + b.width
    ensures var r := Pipeline(a, b, ratio, h);
      r.height <= b.height ==> r.y + r.height <= b.y + b.height
  {
  }

  /** When neither minimum-size floor is hit, the rescaled box reaches no further
      than the image's far edges from its corner. */
  lemma RescaledFitsUnlessFloored(a: CropArea, b: Bounds, ratio: AspectRatio)
    requires ratio != Free
    ensures var r := Rescaled(a, b, ratio);
      r != a && r.width > MinCropSize && r.height > MinCropSize ==>
        r.x + r.width <= b.x + b.width && r.y + r.height <= b.y + b.height
  {
  }

  /** An image that can hold a minimum-size box of the ratio both ways round
      (width 20 * t by height 20, and width 20 by height 20 / t). */
  predicate RoomyFor(b: Bounds, ratio: AspectRatio)
    requires ratio != Free
  {
    b.width >= Max(MinCropSize, TimesRatio(MinCropSize, ratio)) &&
    b.height >= Max(MinCropSize, OverRatio(MinCropSize, ratio))
  }

  /** On a roomy image the rescale pass never leaves a box larger than the image. */
  lemma RescaledWithinImage(a: CropArea, b: Bounds, ratio: AspectRatio)
    requires ratio != Free && b.x <= a.x && b.y <= a.y && RoomyFor(b, ratio)
    ensures Rescaled(a, b, ratio).width <= b.width && Rescaled(a, b, ratio).height <= b.height
  {
  }

  /** With a fixed ratio, on an image roomy enough for that ratio, the result lies on the image. */
  lemma PipelineContainedWhenRoomy(a: CropArea, b: Bounds, ratio: AspectRatio, h: Handle)
    requires ratio != Free && RoomyFor(b, ratio)
    ensures Contained(Pipeline(a, b, ratio, h), b)
  {
    var shaped := RatioEnforced(Constrained(a, b), ratio, h);
    RescaledWithinImage(shaped, b, ratio);
    PipelineFitsWhenSmallEnough(a, b, ratio, h);
  }

  /** A box already on the image, at least the minimum size and of the chosen ratio
      is a fixed point of the pipeline, whichever handle is named. */
  lemma PipelineKeepsValid(a: CropArea, b: Bounds, ratio: AspectRatio, h: Handle)
    requires Contained(a, b) && HasMinSize(a)
    requires ratio != Free ==> a.width == a.height * RatioValue(ratio)
    ensures Pipeline(a, b, ratio, h) == a
  {
    ConstrainedKeepsValid(a, b);
    if ratio != Free {
      TimesRatioIsProduct(a.height, ratio);
      assert RatioEnforced(a, ratio, h) == a;
    }
  }
}
