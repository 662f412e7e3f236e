// constrainToBounds: raise the size to the minimum, push the box onto the
// image, then cut the size to the image (never below the minimum).

module BoundsSolver {
  import opened CropGeometry
  import opened CropFrame

  /** Reference definition in closed form: the box, raised to the minimum size,
      is placed as a frame drag would place it, and its size is then cut to the
      image's but never below the minimum. */
  function Constrained(a: CropArea, b: Bounds): (r: CropArea)
    ensures HasMinSize(r)
    ensures r.x >= b.x && r.y >= b.y
    ensures b.width >= MinCropSize ==> r.x + r.width <= b.x + b.width
    ensures b.height >= MinCropSize ==> r.y + r.height <= b.y + b.height
    ensures b.width < MinCropSize ==> r.x == b.x && r.width == MinCropSize
    ensures b.height < MinCropSize ==> r.y == b.y && r.height == MinCropSize
  {
    var raised := a.(width := Max(MinCropSize, a.width), height := Max(MinCropSize, a.height));
    var placed := Translated(raised, Point(a.x, a.y), b);
    placed.(width := Max(MinCropSize, Min(raised.width, b.width)),
            height := Max(MinCropSize, Min(raised.height, b.height)))
  }

  /** The source's procedure: copy the area, then overwrite its fields one guarded step at a time. */
  method ConstrainToBounds(area: CropArea, b: Bounds) returns (result: CropArea)
    ensures result == Constrained(area, b)
  {
    result := area;

    result := result.(width := Max(MinCropSize, result.width));
    result := result.(height := Max(MinCropSize, result.height));

    if result.x < b.x {
      result := result.(x := b.x);
    }
    if result.x + result.width > b.x + b.width {
      result := result.(x := Max(b.x, b.x + b.width - result.width));
    }

    if result.y < b.y {
      result := result.(y := b.y);
    }
    if result.y + result.height > b.y + b.height {
      result := result.(y := Max(b.y, b.y + b.height - result.height));
    }

    result := result.(width := Max(MinCropSize, Min(result.width, b.width)));
    result := result.(height := Max(MinCropSize, Min(result.height, b.height)));
  }

  /** A box already on the image and at least the minimum size is returned unchanged. */
  lemma ConstrainedKeepsValid(a: CropArea, b: Bounds)
    requires Contained(a, b) && HasMinSize(a)
    ensures Constrained(a, b) == a
  {
  }

  /** Constraining twice is constraining once. */
  lemma ConstrainedIdempotent(a: CropArea, b: Bounds)
    ensures Constrained(Constrained(a, b), b) == Constrained(a, b)
  {
    var r := Constrained(a, b);
    if b.width >= MinCropSize && b.height >= MinCropSize {
      ConstrainedKeepsValid(r, b);
    }
  }

  /** A box that fits the image in size is moved onto it, never shrunk; a box already inside on an axis keeps its position there. */
  lemma ConstrainedMovesNotShrinks(a: CropArea, b: Bounds)
    requires MinCropSize <= a.width <= b.width
    requires MinCropSize <= a.height <= b.height
    ensures Constrained(a, b).width == a.width && Constrained(a, b).height == a.height
    ensures b.x <= a.x && a.x + a.width <= b.x + b.width ==> Constrained(a, b).x == a.x
    ensures b.y <= a.y && a.y + a.height <= b.y + b.height ==> Constrained(a, b).y == a.y
  {
  }

  /** A box wider than the image is moved to the image's left edge and cut to the
      image's width (to the minimum size when the image is narrower than that);
      the same holds for height. */
  lemma ConstrainedOversize(a: CropArea, b: Bounds)
    ensures a.width > b.width ==> Constrained(a, b).x == b.x && Constrained(a, b).width == Max(MinCropSize, b.width)
    ensures a.height > b.height ==> Constrained(a, b).y == b.y && Constrained(a, b).height == Max(MinCropSize, b.height)
  {
  }
}
