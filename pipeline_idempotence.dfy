// applyConstraints is idempotent: running the pipeline on its own result, with
// the same image, ratio and handle, changes nothing.
//
// With a fixed ratio every box the ratio passes produce is determined by its
// corner and its width (the height is the width over the ratio), so the proof
// restates those passes on such boxes and follows the second run case by case.

module PipelineIdempotence {
  import opened CropGeometry
  import opened CropFrame
  import opened BoundsSolver
  import opened ConstraintPipeline

  /** The box of the ratio with corner (x, y) and width w. */
  function RatioBox(x: real, y: real, w: real, ratio: AspectRatio): CropArea
    requires ratio != Free
  {
    CropArea(x, y, w, OverRatio(w, ratio))
  }

  /** The narrowest width the rescale pass leaves: the minimum size, or the width of a box of minimum height. */
  function MinRatioWidth(ratio: AspectRatio): real
  {
    Max(MinCropSize, TimesRatio(MinCropSize, ratio))
  }

  /** The width the ratio step gives `c`: its own, or the one its height asks for when the handle keeps the height. */
  function LeadWidth(c: CropArea, ratio: AspectRatio, h: Handle): real
  {
    if KeepsHeight(h) then TimesRatio(c.height, ratio) else c.width
  }

  /** The width the rescale pass leaves a box of the ratio at corner (x, y) and width w. */
  function FittedWidth(x: real, y: real, w: real, b: Bounds, ratio: AspectRatio): real
  {
    var largest := Min(b.x + b.width - x, TimesRatio(b.y + b.height - y, ratio));
    if w > largest then Max(largest, MinRatioWidth(ratio)) else w
  }

  /** The ratio step, the rescale pass and the final placement applied to a bounded box `c`. */
  function SettledBox(c: CropArea, b: Bounds, ratio: AspectRatio, h: Handle): CropArea
    requires ratio != Free
  {
    var w := FittedWidth(c.x, c.y, LeadWidth(c, ratio, h), b, ratio);
    RatioBox(Clamp(c.x, b.x, b.x + b.width - w), Clamp(c.y, b.y, b.y + b.height - OverRatio(w, ratio)), w, ratio)
  }

  /** What the bounds solver guarantees of its result. */
  predicate BoundsSolved(c: CropArea, b: Bounds)
  {
    HasMinSize(c) && c.x >= b.x && c.y >= b.y &&
    (b.width >= MinCropSize ==> c.x + c.width <= b.x + b.width) &&
    (b.height >= MinCropSize ==> c.y + c.height <= b.y + b.height) &&
    (b.width < MinCropSize ==> c.x == b.x && c.width == MinCropSize) &&
    (b.height < MinCropSize ==> c.y == b.y && c.height == MinCropSize)
  }

  /** Multiplying and dividing by the ratio keep order and undo each other. */
  lemma RatioMonotone(u: real, v: real, ratio: AspectRatio)
    requires ratio != Free
    ensures u <= v <==> TimesRatio(u, ratio) <= TimesRatio(v, ratio)
    ensures u <= v <==> OverRatio(u, ratio) <= OverRatio(v, ratio)
    ensures OverRatio(TimesRatio(u, ratio), ratio) == u && TimesRatio(OverRatio(u, ratio), ratio) == u
  {
  }

  /** The rescale pass keeps a box of the ratio a box of the ratio, at the fitted width. */
  lemma RescaledRatioBox(x: real, y: real, w: real, b: Bounds, ratio: AspectRatio)
    requires ratio != Free && w > 0.0
    ensures Rescaled(RatioBox(x, y, w, ratio), b, ratio) == RatioBox(x, y, FittedWidth(x, y, w, b, ratio), ratio)
  {
    var largest := Min(b.x + b.width - x, TimesRatio(b.y + b.height - y, ratio));
    RatioMonotone(w, TimesRatio(b.y + b.height - y, ratio), ratio);
    RatioMonotone(MinCropSize, OverRatio(Max(MinCropSize, largest), ratio), ratio);
  }

  /** The ratio step and the rescale pass turn a box of positive size into the box of the ratio at its corner and fitted width. */
  lemma RatioPassesGiveRatioBox(c: CropArea, b: Bounds, ratio: AspectRatio, h: Handle)
    requires ratio != Free && c.width > 0.0 && c.height > 0.0
    ensures var w := LeadWidth(c, ratio, h);
      Rescaled(RatioEnforced(c, ratio, h), b, ratio) == RatioBox(c.x, c.y, FittedWidth(c.x, c.y, w, b, ratio), ratio)
  {
    var w := LeadWidth(c, ratio, h);
    RatioMonotone(c.height, 0.0, ratio);
    assert RatioEnforced(c, ratio, h) == RatioBox(c.x, c.y, w, ratio);
    RescaledRatioBox(c.x, c.y, w, b, ratio);
  }

  /** With a fixed ratio the pipeline is the bounds solver followed by the settled box. */
  lemma PipelineIsSettled(a: CropArea, b: Bounds, ratio: AspectRatio, h: Handle)
    requires ratio != Free
    ensures Pipeline(a, b, ratio, h) == SettledBox(Constrained(a, b), b, ratio, h)
  {
    var c := Constrained(a, b);
    RatioPassesGiveRatioBox(c, b, ratio, h);
    var rescaled := RatioBox(c.x, c.y, FittedWidth(c.x, c.y, LeadWidth(c, ratio, h), b, ratio), ratio);
    PipelineWithRatio(a, b, ratio, h);
    assert Pipeline(a, b, ratio, h) == Translated(rescaled, Point(c.x, c.y), b);
  }

  /** A box whose lead width already fits from its corner settles where it is. */
  lemma SettledInPlace(c: CropArea, b: Bounds, ratio: AspectRatio, h: Handle)
    requires ratio != Free
    requires LeadWidth(c, ratio, h) <= Min(b.x + b.width - c.x, TimesRatio(b.y + b.height - c.y, ratio))
    requires b.x <= c.x && b.y <= c.y && c.y + OverRatio(LeadWidth(c, ratio, h), ratio) <= b.y + b.height
    ensures SettledBox(c, b, ratio, h) == RatioBox(c.x, c.y, LeadWidth(c, ratio, h), ratio)
  {
  }

  /** A box that overflows, where the largest fitting width is above the floor, settles at that width from its corner. */
  lemma SettledAtLargest(c: CropArea, b: Bounds, ratio: AspectRatio, h: Handle)
    requires ratio != Free
    requires LeadWidth(c, ratio, h) > Min(b.x + b.width - c.x, TimesRatio(b.y + b.height - c.y, ratio)) >= MinRatioWidth(ratio)
    requires b.x <= c.x && b.y <= c.y
    ensures var largest := Min(b.x + b.width - c.x, TimesRatio(b.y + b.height - c.y, ratio));
      SettledBox(c, b, ratio, h) == RatioBox(c.x, c.y, largest, ratio) && OverRatio(largest, ratio) >= MinCropSize
  {
    var largest := Min(b.x + b.width - c.x, TimesRatio(b.y + b.height - c.y, ratio));
    RatioMonotone(largest, b.y + b.height - c.y, ratio);
    RatioMonotone(TimesRatio(MinCropSize, ratio), largest, ratio);
  }

  // The second run, case by case: which dimension leads, whether the image
  // holds a minimum-size box, and what the rescale pass did on the first run.

  lemma WidthLeadFits(c: CropArea, b: Bounds, ratio: AspectRatio, h: Handle)
    requires ratio != Free && BoundsSolved(c, b) && !KeepsHeight(h)
    requires b.width >= MinCropSize && b.height >= MinCropSize
    requires LeadWidth(c, ratio, h) <= Min(b.x + b.width - c.x, TimesRatio(b.y + b.height - c.y, ratio))
    ensures SettledBox(Constrained(SettledBox(c, b, ratio, h), b), b, ratio, h) == SettledBox(c, b, ratio, h)
  {
    RatioMonotone(c.width, b.y + b.height - c.y, ratio);
    SettledInPlace(c, b, ratio, h);
    var again := Constrained(SettledBox(c, b, ratio, h), b);
    assert again.x == c.x && again.y == c.y && again.width == c.width;
    SettledInPlace(again, b, ratio, h);
  }

  lemma WidthLeadGrows(c: CropArea, b: Bounds, ratio: AspectRatio, h: Handle)
    requires ratio != Free && BoundsSolved(c, b) && !KeepsHeight(h)
    requires b.width >= MinCropSize && b.height >= MinCropSize
    requires LeadWidth(c, ratio, h) > Min(b.x + b.width - c.x, TimesRatio(b.y + b.height - c.y, ratio)) >= MinRatioWidth(ratio)
    ensures SettledBox(Constrained(SettledBox(c, b, ratio, h), b), b, ratio, h) == SettledBox(c, b, ratio, h)
  {
    SettledAtLargest(c, b, ratio, h);
    var r := SettledBox(c, b, ratio, h);
    ConstrainedKeepsValid(r, b);
    SettledInPlace(r, b, ratio, h);
  }

  lemma WidthLeadFloors(c: CropArea, b: Bounds, ratio: AspectRatio, h: Handle)
    requires ratio != Free && BoundsSolved(c, b) && !KeepsHeight(h)
    requires b.width >= MinCropSize && b.height >= MinCropSize
    requires LeadWidth(c, ratio, h) > Min(b.x + b.width - c.x, TimesRatio(b.y + b.height - c.y, ratio))
    requires Min(b.x + b.width - c.x, TimesRatio(b.y + b.height - c.y, ratio)) < MinRatioWidth(ratio)
    ensures SettledBox(Constrained(SettledBox(c, b, ratio, h), b), b, ratio, h) == SettledBox(c, b, ratio, h)
  {
    RatioMonotone(MinCropSize, SettledBox(c, b, ratio, h).width, ratio);
  }

  lemma WidthLeadNarrow(c: CropArea, b: Bounds, ratio: AspectRatio, h: Handle)
    requires ratio != Free && BoundsSolved(c, b) && !KeepsHeight(h)
    requires b.width < MinCropSize
    ensures SettledBox(Constrained(SettledBox(c, b, ratio, h), b), b, ratio, h) == SettledBox(c, b, ratio, h)
  {
    RatioMonotone(MinCropSize, SettledBox(c, b, ratio, h).width, ratio);
  }

  lemma WidthLeadFlat(c: CropArea, b: Bounds, ratio: AspectRatio, h: Handle)
    requires ratio != Free && BoundsSolved(c, b) && !KeepsHeight(h)
    requires b.width >= MinCropSize && b.height < MinCropSize
    ensures SettledBox(Constrained(SettledBox(c, b, ratio, h), b), b, ratio, h) == SettledBox(c, b, ratio, h)
  {
    RatioMonotone(MinCropSize, SettledBox(c, b, ratio, h).width, ratio);
  }

  lemma HeightLeadFits(c: CropArea, b: Bounds, ratio: AspectRatio, h: Handle)
    requires ratio != Free && BoundsSolved(c, b) && KeepsHeight(h)
    requires b.width >= MinCropSize && b.height >= MinCropSize
    requires LeadWidth(c, ratio, h) <= Min(b.x + b.width - c.x, TimesRatio(b.y + b.height - c.y, ratio))
    ensures SettledBox(Constrained(SettledBox(c, b, ratio, h), b), b, ratio, h) == SettledBox(c, b, ratio, h)
  {
    RatioMonotone(c.height, b.y + b.height - c.y, ratio);
    SettledInPlace(c, b, ratio, h);
    assert SettledBox(c, b, ratio, h).height == c.height;
    var again := Constrained(SettledBox(c, b, ratio, h), b);
    assert again.x == c.x && again.y == c.y && again.height == c.height;
    SettledInPlace(again, b, ratio, h);
  }

  lemma HeightLeadGrows(c: CropArea, b: Bounds, ratio: AspectRatio, h: Handle)
    requires ratio != Free && BoundsSolved(c, b) && KeepsHeight(h)
    requires b.width >= MinCropSize && b.height >= MinCropSize
    requires LeadWidth(c, ratio, h) > Min(b.x + b.width - c.x, TimesRatio(b.y + b.height - c.y, ratio)) >= MinRatioWidth(ratio)
    ensures SettledBox(Constrained(SettledBox(c, b, ratio, h), b), b, ratio, h) == SettledBox(c, b, ratio, h)
  {
    RatioMonotone(c.height, b.y + b.height - c.y, ratio);
    SettledAtLargest(c, b, ratio, h);
    var r := SettledBox(c, b, ratio, h);
    ConstrainedKeepsValid(r, b);
    RatioMonotone(r.width, b.y + b.height - c.y, ratio);
    SettledInPlace(r, b, ratio, h);
  }

  lemma HeightLeadFloors(c: CropArea, b: Bounds, ratio: AspectRatio, h: Handle)
    requires ratio != Free && BoundsSolved(c, b) && KeepsHeight(h)
    requires b.width >= MinCropSize && b.height >= MinCropSize
    requires LeadWidth(c, ratio, h) > Min(b.x + b.width - c.x, TimesRatio(b.y + b.height - c.y, ratio))
    requires Min(b.x + b.width - c.x, TimesRatio(b.y + b.height - c.y, ratio)) < MinRatioWidth(ratio)
    ensures SettledBox(Constrained(SettledBox(c, b, ratio, h), b), b, ratio, h) == SettledBox(c, b, ratio, h)
  {
    RatioMonotone(MinCropSize, SettledBox(c, b, ratio, h).width, ratio);
  }

  lemma HeightLeadNarrow(c: CropArea, b: Bounds, ratio: AspectRatio, h: Handle)
    requires ratio != Free && BoundsSolved(c, b) && KeepsHeight(h)
    requires b.width < MinCropSize
    ensures SettledBox(Constrained(SettledBox(c, b, ratio, h), b), b, ratio, h) == SettledBox(c, b, ratio, h)
  {
    RatioMonotone(MinCropSize, SettledBox(c, b, ratio, h).width, ratio);
  }

  lemma HeightLeadFlat(c: CropArea, b: Bounds, ratio: AspectRatio, h: Handle)
    requires ratio != Free && BoundsSolved(c, b) && KeepsHeight(h)
    requires b.width >= MinCropSize && b.height < MinCropSize
    ensures SettledBox(Constrained(SettledBox(c, b, ratio, h), b), b, ratio, h) == SettledBox(c, b, ratio, h)
  {
    RatioMonotone(MinCropSize, SettledBox(c, b, ratio, h).width, ratio);
  }

  /** A settled box, bounded and settled again, is the same box. */
  lemma SettledStable(c: CropArea, b: Bounds, ratio: AspectRatio, h: Handle)
    requires ratio != Free && BoundsSolved(c, b)
    ensures SettledBox(Constrained(SettledBox(c, b, ratio, h), b), b, ratio, h) == SettledBox(c, b, ratio, h)
  {
    var largest := Min(b.x + b.width - c.x, TimesRatio(b.y + b.height - c.y, ratio));
    var lead := LeadWidth(c, ratio, h);
    if !KeepsHeight(h) {
      if b.width < MinCropSize {
        WidthLeadNarrow(c, b, ratio, h);
      } else if b.height < MinCropSize {
        WidthLeadFlat(c, b, ratio, h);
      } else if lead <= largest {
        WidthLeadFits(c, b, ratio, h);
      } else if largest >= MinRatioWidth(ratio) {
        WidthLeadGrows(c, b, ratio, h);
      } else {
        WidthLeadFloors(c, b, ratio, h);
      }
    } else {
      if b.width < MinCropSize {
        HeightLeadNarrow(c, b, ratio, h);
      } else if b.height < MinCropSize {
        HeightLeadFlat(c, b, ratio, h);
      } else if lead <= largest {
        HeightLeadFits(c, b, ratio, h);
      } else if largest >= MinRatioWidth(ratio) {
        HeightLeadGrows(c, b, ratio, h);
      } else {
        HeightLeadFloors(c, b, ratio, h);
      }
    }
  }

  /** Applying the constraints to a region they produced, with the same image,
      ratio and handle, leaves it unchanged. */
  lemma PipelineIdempotent(a: CropArea, b: Bounds, ratio: AspectRatio, h: Handle)
    ensures Pipeline(Pipeline(a, b, ratio, h), b, ratio, h) == Pipeline(a, b, ratio, h)
  {
    var r := Pipeline(a, b, ratio, h);
    if ratio == Free {
      PipelineFreeIsConstrained(a, b, h);
      PipelineFreeIsConstrained(r, b, h);
      ConstrainedIdempotent(a, b);
    } else {
      var c := Constrained(a, b);
      PipelineIsSettled(a, b, ratio, h);
      PipelineIsSettled(r, b, ratio, h);
      SettledStable(c, b, ratio, h);
    }
  }
}
