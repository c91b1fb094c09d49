/** Rectangle outlines, src/pdf/shape.rs. Coordinates are in points. */
module Shape {

  datatype Point = Point(x: real, y: real)

  /** The corners of the rectangle whose bottom-left corner is (offsetX, offsetY), each
      paired with printpdf's "is a Bezier control point" flag. */
  function RectanglePoints(offsetX: real, offsetY: real, width: real, height: real): (pts: seq<(Point, bool)>)
    ensures |pts| == 4
  {
    var top := offsetY + height;
    var right := offsetX + width;
    [(Point(offsetX, top), false), (Point(right, top), false),
     (Point(right, offsetY), false), (Point(offsetX, offsetY), false)]
  }

  /** The four corners run top-left, top-right, bottom-right, bottom-left around an
      axis-aligned box of the given width and height, and none is a control point. */
  lemma RectangleCorners(offsetX: real, offsetY: real, width: real, height: real)
    requires width >= 0.0 && height >= 0.0
    ensures var pts := RectanglePoints(offsetX, offsetY, width, height);
      && (forall k :: 0 <= k < 4 ==> !pts[k].1)
      && pts[0].0.y == pts[1].0.y == offsetY + height
      && pts[2].0.y == pts[3].0.y == offsetY
      && pts[0].0.x == pts[3].0.x == offsetX
      && pts[1].0.x == pts[2].0.x == offsetX + width
      && pts[1].0.x - pts[0].0.x == width
      && pts[0].0.y - pts[3].0.y == height
      && (forall k :: 0 <= k < 4 ==>
            offsetX <= pts[k].0.x <= offsetX + width && offsetY <= pts[k].0.y <= offsetY + height)
  {
  }
}
