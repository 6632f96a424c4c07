/** Points, rectangles and the shape variants of the canvas (src/shapes.rs). */
module Shapes {

  /** Rust's `u16`: terminal columns and rows. */
  type U16 = n: int | 0 <= n < 0x1_0000

  datatype Option<T> = None | Some(value: T)

  /** A terminal cell; `x` is the column, `y` the row, `value` the glyph drawn there. */
  datatype Point = Point(x: U16, y: U16, value: Option<char>)

  /** `Point::set_value`: the same cell carrying glyph `c`. */
  function SetValue(p: Point, c: char): (r: Point)
    ensures r.x == p.x && r.y == p.y && r.value == Some(c)
  {
    p.(value := Some(c))
  }

  /** `PartialEq::eq` for points: compares the cell only. */
  predicate Eq(p: Point, q: Point)
    ensures Eq(p, q) <==> p.(value := None) == q.(value := None)
  {
    p.x == q.x && p.y == q.y
  }

  /** `PartialEq::ne` for points, written separately from `eq`: both coordinates differ. */
  predicate Ne(p: Point, q: Point)
    ensures Ne(p, q) ==> !Eq(p, q)
  {
    p.x != q.x && p.y != q.y
  }

  /** `Point::_here`: the point sits at (`row`, `column`) in the x/y order of its fields. */
  predicate Here(p: Point, row: U16, column: U16)
    ensures Here(p, row, column) <==> Eq(p, Point(row, column, None))
  {
    p.x == row && p.y == column
  }

  lemma EqIgnoresValue(p: Point, q: Point, v: Option<char>, w: Option<char>)
    ensures Eq(p, q) <==> p.x == q.x && p.y == q.y
    ensures Eq(p, q) == Eq(p.(value := v), q.(value := w))
  {
  }

  lemma EqIsEquivalence(p: Point, q: Point, r: Point)
    ensures Eq(p, p)
    ensures Eq(p, q) ==> Eq(q, p)
    ensures Eq(p, q) && Eq(q, r) ==> Eq(p, r)
  {
  }

  /** `ne` is stronger than the negation of `eq`: sharing one coordinate makes two points neither. */
  lemma NeIsNotNegatedEq(p: Point, q: Point)
    ensures Ne(p, q) ==> !Eq(p, q)
    ensures !Eq(p, q) && !Ne(p, q) <==> (p.x == q.x) != (p.y == q.y)
  {
  }

  lemma NeitherEqNorNeWitness()
    ensures !Eq(Point(1, 2, None), Point(1, 3, None)) && !Ne(Point(1, 2, None), Point(1, 3, None))
  {
  }

  /** `RectangleShape`: four named corners. */
  datatype RectangleShape = RectangleShape(topLeft: Point, topRight: Point, bottomLeft: Point, bottomRight: Point)

  /** The derived `PartialEq` of `RectangleShape`: corner by corner with `Point::eq`. */
  predicate RectEq(a: RectangleShape, b: RectangleShape)
    ensures RectEq(a, b) <==> CornerCells(a) == CornerCells(b)
  {
    Eq(a.topLeft, b.topLeft) && Eq(a.topRight, b.topRight) &&
    Eq(a.bottomLeft, b.bottomLeft) && Eq(a.bottomRight, b.bottomRight)
  }

  function Min(a: U16, b: U16): U16 { if a <= b then a else b }
  function Max(a: U16, b: U16): U16 { if a <= b then b else a }

  /** The four corners, in the order top-left, top-right, bottom-left, bottom-right. */
  function Corners(r: RectangleShape): seq<Point> {
    [r.topLeft, r.topRight, r.bottomLeft, r.bottomRight]
  }

  /** The cells of `Corners(r)`, glyphs dropped. */
  function CornerCells(r: RectangleShape): seq<(U16, U16)> {
    var c := Corners(r);
    [(c[0].x, c[0].y), (c[1].x, c[1].y), (c[2].x, c[2].y), (c[3].x, c[3].y)]
  }

  /** The four corners of the bounding box of two points. */
  function BoundingCorners(p: Point, q: Point): set<(U16, U16)> {
    {(Min(p.x, q.x), Min(p.y, q.y)), (Min(p.x, q.x), Max(p.y, q.y)),
     (Max(p.x, q.x), Min(p.y, q.y)), (Max(p.x, q.x), Max(p.y, q.y))}
  }

  /** `RectangleShape::new`: a four-way split on the drag direction. */
  function NewRectangle(start: Point, end: Point): (r: RectangleShape)
    ensures start in Corners(r) && end in Corners(r)
    ensures forall c :: c in Corners(r) ==> c == start || c == end || c.value == None
    ensures r.bottomLeft.x == Min(start.x, end.x) && r.bottomLeft.y == Min(start.y, end.y)
  {
    if start.y > end.y then
      if start.x > end.x then
        RectangleShape(Point(end.x, start.y, None), start, end, Point(start.x, end.y, None))
      else
        RectangleShape(start, Point(end.x, start.y, None), Point(start.x, end.y, None), end)
    else
      if start.x > end.x then
        RectangleShape(Point(start.x, end.y, None), end, Point(end.x, start.y, None), start)
      else
        RectangleShape(Point(end.x, start.y, None), end, start, Point(start.x, end.y, None))
  }

  /** Whatever the drag direction, the corners are exactly the bounding-box corners. */
  lemma NewRectangleCorners(start: Point, end: Point)
    ensures (set c | c in CornerCells(NewRectangle(start, end))) == BoundingCorners(start, end)
  {
  }

  /** Swapping the drag's two ends gives the same corner set. */
  lemma NewRectangleSymmetric(p: Point, q: Point)
    ensures (set c | c in CornerCells(NewRectangle(p, q))) == (set c | c in CornerCells(NewRectangle(q, p)))
  {
    NewRectangleCorners(p, q);
    NewRectangleCorners(q, p);
    assert BoundingCorners(p, q) == BoundingCorners(q, p);
  }

  /** Upward drags (`start.y > end.y`): the convention the unit tests check. */
  lemma NewRectangleUpward(start: Point, end: Point)
    requires start.y > end.y
    ensures var r := NewRectangle(start, end);
      (r.topLeft.x, r.topLeft.y) == (Min(start.x, end.x), start.y) &&
      (r.topRight.x, r.topRight.y) == (Max(start.x, end.x), start.y) &&
      (r.bottomLeft.x, r.bottomLeft.y) == (Min(start.x, end.x), end.y) &&
      (r.bottomRight.x, r.bottomRight.y) == (Max(start.x, end.x), end.y)
  {
  }

  /** Downward drags (`start.y <= end.y`) follow a different convention on each side. */
  lemma NewRectangleDownward(start: Point, end: Point)
    requires start.y <= end.y
    ensures var r := NewRectangle(start, end);
      var mx, Mx := Min(start.x, end.x), Max(start.x, end.x);
      (start.x > end.x ==>
        (r.topLeft.x, r.topLeft.y) == (Mx, end.y) && (r.topRight.x, r.topRight.y) == (mx, end.y) &&
        (r.bottomRight.x, r.bottomRight.y) == (Mx, start.y)) &&
      (start.x <= end.x ==>
        (r.topLeft.x, r.topLeft.y) == (Mx, start.y) && (r.topRight.x, r.topRight.y) == (Mx, end.y) &&
        (r.bottomRight.x, r.bottomRight.y) == (mx, end.y))
  {
  }

  /** The glyphs of the drag's end points never affect the rectangle's equality. */
  lemma NewRectangleEqIgnoresValues(start: Point, end: Point, v: Option<char>, w: Option<char>)
    ensures RectEq(NewRectangle(start, end), NewRectangle(start.(value := v), end.(value := w)))
  {
  }

  /** The unit tests `rectangle_top_left_to_bottom_right` and `rectangle_top_right_to_bottom_left`. */
  lemma NewRectangleTestCases()
    ensures NewRectangle(Point(2, 5, None), Point(4, 2, None)) ==
      RectangleShape(Point(2, 5, None), Point(4, 5, None), Point(2, 2, None), Point(4, 2, None))
    ensures NewRectangle(Point(4, 5, None), Point(2, 2, None)) ==
      RectangleShape(Point(2, 5, None), Point(4, 5, None), Point(2, 2, None), Point(4, 2, None))
  {
  }

  /** `LineShape`: the raw, unnormalised ends of a drag. */
  datatype LineShape = LineShape(start: Point, end: Point)

  /** `LineShape::new` keeps both points unchanged. */
  function NewLine(start: Point, end: Point): (l: LineShape)
    ensures l.start == start && l.end == end
  {
    LineShape(start, end)
  }

  /** The closed set of shapes on the canvas. */
  datatype Shape =
    | Box(rect: RectangleShape)
    | Border(rect: RectangleShape)
    | Arrow(line: LineShape)
    | Line(line: LineShape)
}
