// Value types and arithmetic helpers of the crop-region editor.
// Coordinates are exact reals: the editor's numbers are JavaScript doubles,
// whose rounding is not modelled.

module CropGeometry {

  datatype Option<T> = None | Some(value: T)

  /** A cursor position or anchor point on the canvas. */
  datatype Point = Point(x: real, y: real)

  /** The crop region: its top-left corner and its size. */
  datatype CropArea = CropArea(x: real, y: real, width: real, height: real)

  /** Where the screenshot lies on the canvas (imageX, imageY, imageWidth, imageHeight). */
  datatype Bounds = Bounds(x: real, y: real, width: real, height: real)

  /** The eight resize handles: four corners, then the four edge midpoints. */
  datatype Handle = TopLeft | TopRight | BottomLeft | BottomRight | Top | Bottom | Left | Right

  /** The aspect-ratio choices offered by the toolbar. */
  datatype AspectRatio = Free | Ratio16x9 | Ratio4x3 | Ratio1x1 | Ratio9x16 | Ratio3x4

  /** No side of a crop region is meant to be shorter than this. */
  const MinCropSize: real := 20.0

  /** Width divided by height for each choice; `Free` is encoded as 0, meaning "no ratio". */
  function RatioValue(ratio: AspectRatio): (t: real)
    ensures t == 0.0 <==> ratio == Free
    ensures ratio != Free ==> t > 0.0
  {
    match ratio
    case Free => 0.0
    case Ratio16x9 => 16.0 / 9.0
    case Ratio4x3 => 4.0 / 3.0
    case Ratio1x1 => 1.0
    case Ratio9x16 => 9.0 / 16.0
    case Ratio3x4 => 3.0 / 4.0
  }

  /** `x` times the ratio's value, written out per ratio so that every case
      multiplies by a constant. */
  function TimesRatio(x: real, ratio: AspectRatio): real
  {
    match ratio
    case Free => 0.0
    case Ratio16x9 => x * 16.0 / 9.0
    case Ratio4x3 => x * 4.0 / 3.0
    case Ratio1x1 => x
    case Ratio9x16 => x * 9.0 / 16.0
    case Ratio3x4 => x * 3.0 / 4.0
  }

  /** `x` divided by the ratio's value, written out per ratio in the same way. */
  function OverRatio(x: real, ratio: AspectRatio): real
    requires ratio != Free
  {
    match ratio
    case Ratio16x9 => x * 9.0 / 16.0
    case Ratio4x3 => x * 3.0 / 4.0
    case Ratio1x1 => x
    case Ratio9x16 => x * 16.0 / 9.0
    case Ratio3x4 => x * 4.0 / 3.0
  }

  lemma TimesRatioIsProduct(x: real, ratio: AspectRatio)
    ensures TimesRatio(x, ratio) == x * RatioValue(ratio)
  {
  }

  lemma OverRatioIsQuotient(x: real, ratio: AspectRatio)
    requires ratio != Free
    ensures OverRatio(x, ratio) == x / RatioValue(ratio)
  {
  }

  function Max(a: real, b: real): (m: real)
    ensures m >= a && m >= b
  {
    if a >= b then a else b
  }

  function Min(a: real, b: real): (m: real)
    ensures m <= a && m <= b
  {
    if a <= b then a else b
  }

  function Abs(a: real): (m: real)
    ensures m >= 0.0 && (m == a || m == -a)
  {
    if a < 0.0 then -a else a
  }

  /** `v` pulled down to `hi`, then up to `lo`: when `lo <= hi` this is the point of
      [lo, hi] nearest to `v`, and when `hi < lo` it is `lo`. */
  function Clamp(v: real, lo: real, hi: real): (c: real)
    ensures c >= lo
    ensures lo <= hi ==> c <= hi
    ensures lo <= v <= hi ==> c == v
    ensures v < lo || hi < lo ==> c == lo
    ensures lo <= hi < v ==> c == hi
  {
    Max(lo, Min(v, hi))
  }

  /** The cursor lies on the image, edges included. */
  predicate InsideBounds(p: Point, b: Bounds)
  {
    b.x <= p.x <= b.x + b.width && b.y <= p.y <= b.y + b.height
  }

  /** The crop region lies entirely on the image. */
  predicate Contained(a: CropArea, b: Bounds)
  {
    b.x <= a.x && a.x + a.width <= b.x + b.width &&
    b.y <= a.y && a.y + a.height <= b.y + b.height
  }

  predicate HasMinSize(a: CropArea)
  {
    a.width >= MinCropSize && a.height >= MinCropSize
  }
}
