// The eight resize handles: where each one sits on the crop region, and the
// candidate region that dragging one of them proposes before the constraint
// pipeline runs.

module Handles {
  import opened CropGeometry

  /** The eight anchors, keyed by handle: corners, then edge midpoints. */
  function HandlePositions(a: CropArea): (m: map<Handle, Point>)
    ensures m.Keys == {TopLeft, TopRight, BottomLeft, BottomRight, Top, Bottom, Left, Right}
  {
    map[
      TopLeft := Point(a.x, a.y),
      TopRight := Point(a.x + a.width, a.y),
      BottomLeft := Point(a.x, a.y + a.height),
      BottomRight := Point(a.x + a.width, a.y + a.height),
      Top := Point(a.x + a.width / 2.0, a.y),
      Bottom := Point(a.x + a.width / 2.0, a.y + a.height),
      Left := Point(a.x, a.y + a.height / 2.0),
      Right := Point(a.x + a.width, a.y + a.height / 2.0)
    ]
  }

  /** Every handle has an anchor. */
  lemma HandlePositionsTotal(a: CropArea, h: Handle)
    ensures h in HandlePositions(a)
  {
    match h
    case TopLeft =>
    case TopRight =>
    case BottomLeft =>
    case BottomRight =>
    case Top =>
    case Bottom =>
    case Left =>
    case Right =>
  }

  /** Side of a resize handle's square. */
  const HandleSize: real := 10.0

  /** The handles in the order the anchor record lists them, which is the order their squares are drawn in. */
  const HandleOrder: seq<Handle> := [TopLeft, TopRight, BottomLeft, BottomRight, Top, Bottom, Left, Right]

  /** Every handle is drawn, and none twice. */
  lemma HandleOrderComplete(h: Handle)
    ensures h in HandleOrder
    ensures forall i, j :: 0 <= i < j < |HandleOrder| ==> HandleOrder[i] != HandleOrder[j]
  {
  }

  /** The square drawn for a handle: the handle size on a side, centred on the handle's anchor. */
  function HandleSquare(h: Handle, a: CropArea): (sq: CropArea)
    ensures h in HandlePositions(a)
    ensures sq.width == HandleSize && sq.height == HandleSize
    ensures sq.x + HandleSize / 2.0 == HandlePositions(a)[h].x
    ensures sq.y + HandleSize / 2.0 == HandlePositions(a)[h].y
  {
    HandlePositionsTotal(a, h);
    var p := HandlePositions(a)[h];
    CropArea(p.x - HandleSize / 2.0, p.y - HandleSize / 2.0, HandleSize, HandleSize)
  }

  /** The squares drawn for the listed handles, one per handle, in order. */
  function HandleSquares(hs: seq<Handle>, a: CropArea): (r: seq<CropArea>)
    ensures |r| == |hs|
    ensures forall i :: 0 <= i < |hs| ==> r[i] == HandleSquare(hs[i], a)
  {
    if hs == [] then []
    else [HandleSquare(hs[0], a)] + HandleSquares(hs[1..], a)
  }

  /** The point lies on one of the region's four sides. */
  predicate OnBorder(p: Point, a: CropArea)
  {
    ((p.x == a.x || p.x == a.x + a.width) && a.y <= p.y <= a.y + a.height) ||
    ((p.y == a.y || p.y == a.y + a.height) && a.x <= p.x <= a.x + a.width)
  }

  /** Every anchor of a region with non-negative sides lies on its border. */
  lemma AnchorsOnBorder(a: CropArea)
    requires a.width >= 0.0 && a.height >= 0.0
    ensures forall h | h in HandlePositions(a) :: OnBorder(HandlePositions(a)[h], a)
  {
    forall h | h in HandlePositions(a)
      ensures OnBorder(HandlePositions(a)[h], a)
    {
      assert a.x <= a.x + a.width / 2.0 <= a.x + a.width;
      assert a.y <= a.y + a.height / 2.0 <= a.y + a.height;
    }
  }

  predicate MovesLeftEdge(h: Handle)
  {
    h == TopLeft || h == BottomLeft || h == Left
  }

  predicate MovesRightEdge(h: Handle)
  {
    h == TopRight || h == BottomRight || h == Right
  }

  predicate MovesTopEdge(h: Handle)
  {
    h == TopLeft || h == TopRight || h == Top
  }

  predicate MovesBottomEdge(h: Handle)
  {
    h == BottomLeft || h == BottomRight || h == Bottom
  }

  /** Reference definition of the resize rule, edge by edge: a dragged near edge
      follows the cursor but stops the minimum size short of the opposite edge;
      a dragged far edge follows the cursor but no closer than the minimum size
      to the fixed near edge; an edge that is not dragged stays. */
  function ResizedByEdges(h: Handle, newX: real, newY: real, a: CropArea): (r: CropArea)
    // the edges opposite the handle stay where they were
    ensures MovesLeftEdge(h) ==> r.x + r.width == a.x + a.width
    ensures !MovesLeftEdge(h) ==> r.x == a.x
    ensures MovesTopEdge(h) ==> r.y + r.height == a.y + a.height
    ensures !MovesTopEdge(h) ==> r.y == a.y
    // a dragged side is never shorter than the minimum; an undragged one keeps its length
    ensures MovesLeftEdge(h) || MovesRightEdge(h) ==> r.width >= MinCropSize
    ensures !MovesLeftEdge(h) && !MovesRightEdge(h) ==> r.width == a.width
    ensures MovesTopEdge(h) || MovesBottomEdge(h) ==> r.height >= MinCropSize
    ensures !MovesTopEdge(h) && !MovesBottomEdge(h) ==> r.height == a.height
    // the dragged edge lands on the cursor whenever that leaves the side at least the minimum
    ensures MovesLeftEdge(h) && newX <= a.x + a.width - MinCropSize ==> r.x == newX
    ensures MovesRightEdge(h) && newX - a.x >= MinCropSize ==> r.x + r.width == newX
    ensures MovesTopEdge(h) && newY <= a.y + a.height - MinCropSize ==> r.y == newY
    ensures MovesBottomEdge(h) && newY - a.y >= MinCropSize ==> r.y + r.height == newY
    // once the cursor passes the minimum, the dragged side is exactly the minimum
    ensures MovesLeftEdge(h) && newX > a.x + a.width - MinCropSize ==> r.width == MinCropSize
    ensures MovesRightEdge(h) && newX - a.x < MinCropSize ==> r.width == MinCropSize
    ensures MovesTopEdge(h) && newY > a.y + a.height - MinCropSize ==> r.height == MinCropSize
    ensures MovesBottomEdge(h) && newY - a.y < MinCropSize ==> r.height == MinCropSize
  {
    var x := if MovesLeftEdge(h) then Min(newX, a.x + a.width - MinCropSize) else a.x;
    var y := if MovesTopEdge(h) then Min(newY, a.y + a.height - MinCropSize) else a.y;
    var width :=
      if MovesLeftEdge(h) then a.x + a.width - x
      else if MovesRightEdge(h) then Max(MinCropSize, newX - a.x)
      else a.width;
    var height :=
      if MovesTopEdge(h) then a.y + a.height - y
      else if MovesBottomEdge(h) then Max(MinCropSize, newY - a.y)
      else a.height;
    CropArea(x, y, width, height)
  }

  /** Lines 315-353 as the source writes them: copy the area, then overwrite the
      fields the dragged handle controls. */
  method ResizeCandidate(pos: Handle, newX: real, newY: real, currentArea: CropArea) returns (newArea: CropArea)
    ensures newArea == ResizedByEdges(pos, newX, newY, currentArea)
  {
    var x, y, width, height := currentArea.x, currentArea.y, currentArea.width, currentArea.height;
    newArea := currentArea;

    match pos {
      case BottomRight =>
        newArea := newArea.(width := Max(MinCropSize, newX - x));
        newArea := newArea.(height := Max(MinCropSize, newY - y));
      case BottomLeft =>
        newArea := newArea.(x := Min(newX, x + width - MinCropSize));
        newArea := newArea.(width := x + width - newArea.x);
        newArea := newArea.(height := Max(MinCropSize, newY - y));
      case TopRight =>
        newArea := newArea.(y := Min(newY, y + height - MinCropSize));
        newArea := newArea.(width := Max(MinCropSize, newX - x));
        newArea := newArea.(height := y + height - newArea.y);
      case TopLeft =>
        newArea := newArea.(x := Min(newX, x + width - MinCropSize));
        newArea := newArea.(y := Min(newY, y + height - MinCropSize));
        newArea := newArea.(width := x + width - newArea.x);
        newArea := newArea.(height := y + height - newArea.y);
      case Top =>
        newArea := newArea.(y := Min(newY, y + height - MinCropSize));
        newArea := newArea.(height := y + height - newArea.y);
      case Bottom =>
        newArea := newArea.(height := Max(MinCropSize, newY - y));
      case Left =>
        newArea := newArea.(x := Min(newX, x + width - MinCropSize));
        newArea := newArea.(width := x + width - newArea.x);
      case Right =>
        newArea := newArea.(width := Max(MinCropSize, newX - x));
    }
  }

  /** A handle dropped back on its own anchor proposes the region unchanged, for a
      region at least the minimum size. */
  lemma ResizeAtOwnAnchor(h: Handle, a: CropArea)
    requires HasMinSize(a)
    ensures h in HandlePositions(a)
    ensures var p := HandlePositions(a)[h];
      ResizedByEdges(h, p.x, p.y, a) == a
  {
    HandlePositionsTotal(a, h);
    var p := HandlePositions(a)[h];
    var r := ResizedByEdges(h, p.x, p.y, a);
    assert r.x == a.x && r.y == a.y && r.width == a.width && r.height == a.height;
  }
}
