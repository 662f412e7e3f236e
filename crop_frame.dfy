// Whole-frame translation: the drag-bound function of the crop frame.

module CropFrame {
  import opened CropGeometry

  /** Where a frame of `a`'s size may be dropped when the cursor drags it to `pos`:
      each coordinate is kept between the image's near edge and the last
      position at which the frame still ends on the image. */
  function DragBound(pos: Point, a: CropArea, b: Bounds): (q: Point)
    ensures q.x >= b.x && q.y >= b.y
    ensures b.x <= b.x + b.width - a.width ==> q.x + a.width <= b.x + b.width
    ensures b.y <= b.y + b.height - a.height ==> q.y + a.height <= b.y + b.height
    ensures b.x <= pos.x && pos.x + a.width <= b.x + b.width ==> q.x == pos.x
    ensures b.y <= pos.y && pos.y + a.height <= b.y + b.height ==> q.y == pos.y
    // a position past the near edge, or a frame larger than the image, lands on the near edge;
    // a position past the last fitting one lands on that one
    ensures pos.x < b.x || b.x + b.width - a.width < b.x ==> q.x == b.x
    ensures b.x <= b.x + b.width - a.width < pos.x ==> q.x == b.x + b.width - a.width
    ensures pos.y < b.y || b.y + b.height - a.height < b.y ==> q.y == b.y
    ensures b.y <= b.y + b.height - a.height < pos.y ==> q.y == b.y + b.height - a.height
  {
    var maxX := b.x + b.width - a.width;
    var maxY := b.y + b.height - a.height;
    Point(Clamp(pos.x, b.x, maxX), Clamp(pos.y, b.y, maxY))
  }

  /** The crop region after its frame has been dragged to `pos`: it takes the bounded position and keeps its size. */
  function Translated(a: CropArea, pos: Point, b: Bounds): (r: CropArea)
    ensures r.width == a.width && r.height == a.height
    ensures r.x >= b.x && r.y >= b.y
    ensures a.width <= b.width && a.height <= b.height ==> Contained(r, b)
  {
    var q := DragBound(pos, a, b);
    a.(x := q.x, y := q.y)
  }

  /** A frame dropped where it already fits does not move. */
  lemma TranslatedInPlace(a: CropArea, b: Bounds)
    requires Contained(a, b)
    ensures Translated(a, Point(a.x, a.y), b) == a
  {
  }
}
