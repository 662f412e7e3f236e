// The darkened overlay: four strips that cover the image outside the crop
// region.

module Overlay {
  import opened CropGeometry

  /** The four darkened strips, each as a rectangle on the canvas. */
  datatype Strips = Strips(top: CropArea, bottom: CropArea, left: CropArea, right: CropArea)

  /** Lines 172-219: full-width strips above and below the region, region-high
      strips to its left and right; a strip that would have negative extent is
      drawn with extent 0. */
  function OverlayStrips(b: Bounds, a: CropArea): (s: Strips)
    ensures s.top.height >= 0.0 && s.bottom.height >= 0.0
    ensures s.left.width >= 0.0 && s.right.width >= 0.0
  {
    Strips(
      CropArea(b.x, b.y, b.width, Max(0.0, a.y - b.y)),
      CropArea(b.x, a.y + a.height, b.width, Max(0.0, b.y + b.height - (a.y + a.height))),
      CropArea(b.x, a.y, Max(0.0, a.x - b.x), a.height),
      CropArea(a.x + a.width, a.y, Max(0.0, b.x + b.width - (a.x + a.width)), a.height))
  }

  /** The point lies in the rectangle, edges included. */
  predicate Covers(r: CropArea, p: Point)
  {
    r.x <= p.x <= r.x + r.width && r.y <= p.y <= r.y + r.height
  }

  /** The point lies strictly inside the rectangle. */
  predicate Interior(r: CropArea, p: Point)
  {
    r.x < p.x < r.x + r.width && r.y < p.y < r.y + r.height
  }

  /** Every point of the image is in the crop region or under a strip, wherever the region is. */
  lemma StripsCoverOutside(b: Bounds, a: CropArea, p: Point)
    requires InsideBounds(p, b)
    ensures var s := OverlayStrips(b, a);
      Covers(a, p) || Covers(s.top, p) || Covers(s.bottom, p) || Covers(s.left, p) || Covers(s.right, p)
  {
  }

  /** No strip darkens any point strictly inside the crop region. */
  lemma StripsAvoidRegion(b: Bounds, a: CropArea, p: Point)
    requires Interior(a, p)
    ensures var s := OverlayStrips(b, a);
      !Interior(s.top, p) && !Interior(s.bottom, p) && !Interior(s.left, p) && !Interior(s.right, p)
  {
  }

  /** For a region on the image, the strips and the region tile the image: the
      top strip ends where the region begins and the bottom strip runs from the
      region's bottom to the image's; likewise left and right across the region's
      height. */
  lemma StripsTileImage(b: Bounds, a: CropArea)
    requires Contained(a, b)
    ensures var s := OverlayStrips(b, a);
      s.top.y + s.top.height == a.y &&
      s.bottom.y + s.bottom.height == b.y + b.height &&
      s.left.x + s.left.width == a.x &&
      s.right.x + s.right.width == b.x + b.width
    ensures var s := OverlayStrips(b, a);
      s.top.height + a.height + s.bottom.height == b.height &&
      s.left.width + a.width + s.right.width == b.width
  {
  }

  /** A region that reaches past an image edge darkens nothing on that side. */
  lemma StripsVanishOutside(b: Bounds, a: CropArea)
    ensures a.y <= b.y ==> OverlayStrips(b, a).top.height == 0.0
    ensures a.y + a.height >= b.y + b.height ==> OverlayStrips(b, a).bottom.height == 0.0
    ensures a.x <= b.x ==> OverlayStrips(b, a).left.width == 0.0
    ensures a.x + a.width >= b.x + b.width ==> OverlayStrips(b, a).right.width == 0.0
  {
  }
}
