/** Rasterisers that turn each shape into points, and the painting of points onto the terminal (src/render.rs). */
module Render {
  import opened Shapes
  import opened Canvas

  /** The glyphs the rasterisers stamp on their points. */
  const Block: char := '\U{2588}'
  const HLine: char := '\U{2500}'
  const Head: char := '\U{25BA}'
  const Mark: char := 'X'

  /** Length of the half-open range `[lo, hi)`; empty when `hi <= lo`. */
  function Span(lo: int, hi: int): nat {
    if hi > lo then hi - lo else 0
  }

  // ---------------------------------------------------------------------------
  // calculte_box

  /** Points of column `x` at rows `[lo, hi)`, ascending, each with glyph `g`. */
  function VerticalRun(x: U16, lo: U16, hi: U16, g: char): seq<Point>
    decreases hi
  {
    if hi <= lo then [] else VerticalRun(x, lo, hi - 1, g) + [Point(x, hi - 1, Some(g))]
  }

  lemma {:induction false} VerticalRunAt(x: U16, lo: U16, hi: U16, g: char)
    ensures |VerticalRun(x, lo, hi, g)| == Span(lo, hi)
    ensures forall i :: 0 <= i < Span(lo, hi) ==> VerticalRun(x, lo, hi, g)[i] == Point(x, lo + i, Some(g))
    decreases hi
  {
    if hi > lo {
      VerticalRunAt(x, lo, hi - 1, g);
    }
  }

  lemma VerticalRunMembers(x: U16, lo: U16, hi: U16, g: char, p: Point)
    ensures p in VerticalRun(x, lo, hi, g) <==> p.x == x && lo <= p.y < hi && p.value == Some(g)
  {
    VerticalRunAt(x, lo, hi, g);
    if p.x == x && lo <= p.y < hi && p.value == Some(g) {
      assert VerticalRun(x, lo, hi, g)[p.y - lo] == p;
    }
  }

  /** The columns `[xlo, xhi)`, each filled over rows `[ylo, yhi)`: x in the outer loop, y in the inner one. */
  function Fill(xlo: U16, xhi: U16, ylo: U16, yhi: U16): seq<Point>
    decreases xhi
  {
    if xhi <= xlo then [] else Fill(xlo, xhi - 1, ylo, yhi) + VerticalRun(xhi - 1, ylo, yhi, Block)
  }

  /** What `calculte_box` returns: x over `[top_right.x, bottom_left.x)`, y over `[top_right.y, bottom_left.y)`. */
  function BoxPoints(rect: RectangleShape): seq<Point> {
    Fill(rect.topRight.x, rect.bottomLeft.x, rect.topRight.y, rect.bottomLeft.y)
  }

  lemma {:induction false} FillMembers(xlo: U16, xhi: U16, ylo: U16, yhi: U16, p: Point)
    ensures p in Fill(xlo, xhi, ylo, yhi) <==> xlo <= p.x < xhi && ylo <= p.y < yhi && p.value == Some(Block)
    decreases xhi
  {
    if xhi > xlo {
      FillMembers(xlo, xhi - 1, ylo, yhi, p);
      VerticalRunMembers(xhi - 1, ylo, yhi, Block, p);
    }
  }

  lemma {:induction false} FillLength(xlo: U16, xhi: U16, ylo: U16, yhi: U16)
    ensures |Fill(xlo, xhi, ylo, yhi)| == Span(xlo, xhi) * Span(ylo, yhi)
    decreases xhi
  {
    if xhi > xlo {
      FillLength(xlo, xhi - 1, ylo, yhi);
      VerticalRunAt(xhi - 1, ylo, yhi, Block);
      assert Span(xlo, xhi) == Span(xlo, xhi - 1) + 1;
    }
  }

  /** Strict order of the box sweep: by column, then by row. */
  predicate Before(p: Point, q: Point) {
    p.x < q.x || (p.x == q.x && p.y < q.y)
  }

  /** Every point comes strictly `Before` every later one. */
  predicate SweepOrdered(s: seq<Point>) {
    forall i, j :: 0 <= i < j < |s| ==> Before(s[i], s[j])
  }

  lemma {:induction false} FillOrdered(xlo: U16, xhi: U16, ylo: U16, yhi: U16)
    ensures SweepOrdered(Fill(xlo, xhi, ylo, yhi))
    decreases xhi
  {
    if xhi > xlo {
      var a := Fill(xlo, xhi - 1, ylo, yhi);
      var b := VerticalRun(xhi - 1, ylo, yhi, Block);
      var f := a + b;
      FillOrdered(xlo, xhi - 1, ylo, yhi);
      VerticalRunAt(xhi - 1, ylo, yhi, Block);
      assert Fill(xlo, xhi, ylo, yhi) == f;
      forall i, j | 0 <= i < j < |f| ensures Before(f[i], f[j]) {
        if j >= |a| && i < |a| {
          FillMembers(xlo, xhi - 1, ylo, yhi, a[i]);
          assert f[i] == a[i] && f[j] == b[j - |a|];
          assert a[i] in a;
          assert a[i].x < xhi - 1 && b[j - |a|].x == xhi - 1;
        } else if i >= |a| {
          assert f[i] == b[i - |a|] && f[j] == b[j - |a|];
        } else {
          assert f[i] == a[i] && f[j] == a[j];
        }
      }
      assert SweepOrdered(f);
    }
  }

  /** `calculte_box` meets its description: every cell of the two half-open ranges, once, in sweep order, as blocks. */
  lemma BoxPointsShape(rect: RectangleShape, p: Point)
    ensures |BoxPoints(rect)| == Span(rect.topRight.x, rect.bottomLeft.x) * Span(rect.topRight.y, rect.bottomLeft.y)
    ensures SweepOrdered(BoxPoints(rect))
    ensures p in BoxPoints(rect) <==> rect.topRight.x <= p.x < rect.bottomLeft.x &&
                                      rect.topRight.y <= p.y < rect.bottomLeft.y && p.value == Some(Block)
  {
    FillLength(rect.topRight.x, rect.bottomLeft.x, rect.topRight.y, rect.bottomLeft.y);
    FillOrdered(rect.topRight.x, rect.bottomLeft.x, rect.topRight.y, rect.bottomLeft.y);
    FillMembers(rect.topRight.x, rect.bottomLeft.x, rect.topRight.y, rect.bottomLeft.y, p);
  }

  /** No rectangle built by `RectangleShape::new` has a nonempty box: `bottom_left` is always the smallest corner. */
  lemma BoxOfNewRectangleIsEmpty(start: Point, end: Point)
    ensures BoxPoints(NewRectangle(start, end)) == []
  {
  }

  /** `calculte_box`: nested half-open loops pushing one block per cell. */
  method CalculateBox(rect: RectangleShape) returns (out: seq<Point>)
    ensures out == BoxPoints(rect)
  {
    var x0, x1 := rect.topRight.x, rect.bottomLeft.x;
    var y0, y1 := rect.topRight.y, rect.bottomLeft.y;
    out := [];
    var x: U16 := x0;
    while x < x1
      invariant x0 <= x && (x <= x1 || x == x0)
      invariant out == Fill(x0, x, y0, y1)
    {
      var y: U16 := y0;
      while y < y1
        invariant y0 <= y && (y <= y1 || y == y0)
        invariant out == Fill(x0, x, y0, y1) + VerticalRun(x, y0, y, Block)
      {
        out := out + [Point(x, y, Some(Block))];
        y := y + 1;
      }
      x := x + 1;
    }
  }

  // ---------------------------------------------------------------------------
  // calculte_border

  /** The first border loop: for each row in `[lo, hi)`, the cell in column `xa`, then the cell in column `xb`. */
  function RowPairs(xa: U16, xb: U16, lo: U16, hi: U16): seq<Point>
    decreases hi
  {
    if hi <= lo then []
    else RowPairs(xa, xb, lo, hi - 1) + [Point(xa, hi - 1, Some(Block)), Point(xb, hi - 1, Some(Block))]
  }

  /** The second border loop: for each column in `[lo, hi)`, the cell in row `ya`, then the cell in row `yb`. */
  function ColumnPairs(ya: U16, yb: U16, lo: U16, hi: U16): seq<Point>
    decreases hi
  {
    if hi <= lo then []
    else ColumnPairs(ya, yb, lo, hi - 1) + [Point(hi - 1, ya, Some(Block)), Point(hi - 1, yb, Some(Block))]
  }

  lemma {:induction false} RowPairsMembers(xa: U16, xb: U16, lo: U16, hi: U16, p: Point)
    ensures |RowPairs(xa, xb, lo, hi)| == 2 * Span(lo, hi)
    ensures p in RowPairs(xa, xb, lo, hi) <==> (p.x == xa || p.x == xb) && lo <= p.y < hi && p.value == Some(Block)
    decreases hi
  {
    if hi > lo {
      RowPairsMembers(xa, xb, lo, hi - 1, p);
    }
  }

  lemma {:induction false} ColumnPairsMembers(ya: U16, yb: U16, lo: U16, hi: U16, p: Point)
    ensures |ColumnPairs(ya, yb, lo, hi)| == 2 * Span(lo, hi)
    ensures p in ColumnPairs(ya, yb, lo, hi) <==> (p.y == ya || p.y == yb) && lo <= p.x < hi && p.value == Some(Block)
    decreases hi
  {
    if hi > lo {
      ColumnPairsMembers(ya, yb, lo, hi - 1, p);
    }
  }

  /** Everything the two border loops push, before deduplication. */
  function BorderSweep(rect: RectangleShape): seq<Point> {
    RowPairs(rect.topLeft.x, rect.bottomLeft.x, rect.topLeft.y, rect.topRight.y) +
    ColumnPairs(rect.topLeft.y, rect.bottomLeft.y, rect.topRight.x, rect.topLeft.x)
  }

  /** `Vec::dedup` under `Point::eq`: each point is dropped when it equals the last point kept. */
  function Dedup(s: seq<Point>): seq<Point>
    decreases |s|
  {
    if |s| == 0 then []
    else
      var kept := Dedup(s[..|s| - 1]);
      if |kept| > 0 && Eq(kept[|kept| - 1], s[|s| - 1]) then kept else kept + [s[|s| - 1]]
  }

  predicate NoAdjacentDuplicates(s: seq<Point>) {
    forall i :: 0 <= i < |s| - 1 ==> !Eq(s[i], s[i + 1])
  }

  /** Deduplication leaves no two neighbours equal, keeps only input points, and keeps a copy of every input cell. */
  lemma DedupProperties(s: seq<Point>)
    ensures var d := Dedup(s);
      NoAdjacentDuplicates(d) && |d| <= |s| && (|s| > 0 <==> |d| > 0) &&
      (|s| > 0 ==> Eq(d[|d| - 1], s[|s| - 1])) &&
      (forall q :: q in d ==> q in s) &&
      (forall i :: 0 <= i < |s| ==> exists j :: 0 <= j < |d| && Eq(d[j], s[i]))
  {
    DedupNoAdjacent(s);
    DedupFromInput(s);
    DedupCovers(s);
    if |s| > 0 {
      DedupLast(s);
    }
  }

  lemma {:induction false} DedupNoAdjacent(s: seq<Point>)
    ensures NoAdjacentDuplicates(Dedup(s))
    decreases |s|
  {
    if |s| > 0 {
      var t, p := s[..|s| - 1], s[|s| - 1];
      var kept := Dedup(t);
      DedupNoAdjacent(t);
      if !(|kept| > 0 && Eq(kept[|kept| - 1], p)) {
        var d := kept + [p];
        forall i | 0 <= i < |d| - 1 ensures !Eq(d[i], d[i + 1]) {
          if i < |kept| - 1 {
            assert d[i] == kept[i] && d[i + 1] == kept[i + 1];
          }
        }
      }
    }
  }

  lemma {:induction false} DedupFromInput(s: seq<Point>)
    ensures |Dedup(s)| <= |s| && (|s| > 0 <==> |Dedup(s)| > 0)
    ensures forall q :: q in Dedup(s) ==> q in s
    decreases |s|
  {
    if |s| > 0 {
      var t := s[..|s| - 1];
      DedupFromInput(t);
      assert forall q :: q in t ==> q in s;
    }
  }

  lemma {:induction false} DedupCovers(s: seq<Point>)
    ensures forall i :: 0 <= i < |s| ==> exists j :: 0 <= j < |Dedup(s)| && Eq(Dedup(s)[j], s[i])
    decreases |s|
  {
    if |s| > 0 {
      var t := s[..|s| - 1];
      var kept := Dedup(t);
      DedupCovers(t);
      DedupLast(s);
      var d := Dedup(s);
      assert d[..|kept|] == kept;
      forall i | 0 <= i < |s| ensures exists j :: 0 <= j < |d| && Eq(d[j], s[i]) {
        if i < |s| - 1 {
          assert s[i] == t[i];
          var j :| 0 <= j < |kept| && Eq(kept[j], t[i]);
          assert d[j] == kept[j];
        } else {
          assert Eq(d[|d| - 1], s[i]);
        }
      }
    }
  }

  /** Only adjacent duplicates are removed: a sequence without them is returned unchanged. */
  lemma {:induction false} DedupKeepsDistinctNeighbours(s: seq<Point>)
    requires NoAdjacentDuplicates(s)
    ensures Dedup(s) == s
    decreases |s|
  {
    if |s| > 0 {
      var t := s[..|s| - 1];
      assert NoAdjacentDuplicates(t) by {
        forall i | 0 <= i < |t| - 1 ensures !Eq(t[i], t[i + 1]) {
          assert t[i] == s[i] && t[i + 1] == s[i + 1];
        }
      }
      DedupKeepsDistinctNeighbours(t);
      if |t| > 0 {
        assert !Eq(s[|s| - 2], s[|s| - 1]);
      }
      assert t + [s[|s| - 1]] == s;
    }
  }

  /** The points `Vec::dedup` keeps, stated as a filter: `s[i]` stays, in order, exactly when it is
      the first point or differs from the point just before it in the input. */
  function KeepFirstOfRuns(s: seq<Point>): seq<Point>
    decreases |s|
  {
    if |s| == 0 then []
    else
      var n := |s|;
      KeepFirstOfRuns(s[..n - 1]) + (if n > 1 && Eq(s[n - 2], s[n - 1]) then [] else [s[n - 1]])
  }

  /** The last point kept equals the input's last point. */
  lemma {:induction false} DedupLast(s: seq<Point>)
    requires |s| > 0
    ensures |Dedup(s)| > 0 && Eq(Dedup(s)[|Dedup(s)| - 1], s[|s| - 1])
    decreases |s|
  {
    if |s| > 1 {
      DedupLast(s[..|s| - 1]);
    }
  }

  /** Comparing with the last point kept is comparing with the input's previous point,
      because point equality is an equivalence: dedup keeps the first point of each run of equal ones. */
  lemma {:induction false} DedupKeepsFirstOfRuns(s: seq<Point>)
    ensures Dedup(s) == KeepFirstOfRuns(s)
    decreases |s|
  {
    if |s| > 0 {
      var t, p := s[..|s| - 1], s[|s| - 1];
      var d := Dedup(t);
      DedupKeepsFirstOfRuns(t);
      assert Dedup(s) == if |d| > 0 && Eq(d[|d| - 1], p) then d else d + [p];
      assert KeepFirstOfRuns(s) == KeepFirstOfRuns(t) + (if |s| > 1 && Eq(s[|s| - 2], p) then [] else [p]);
      if |t| > 0 {
        DedupLast(t);
        assert t[|t| - 1] == s[|s| - 2];
        assert Eq(d[|d| - 1], p) <==> Eq(s[|s| - 2], p);
      }
    }
  }

  /** The example `[a, a, b, a]`: the second `a` goes, the last `a` stays. */
  lemma DedupExample()
    ensures var a, b := Point(0, 0, Some(Block)), Point(1, 1, Some(Block));
      Dedup([a, a, b, a]) == [a, b, a]
  {
    var a, b := Point(0, 0, Some(Block)), Point(1, 1, Some(Block));
    assert [a][..0] == [];
    assert Dedup([a]) == [a];
    assert [a, a][..1] == [a];
    assert Dedup([a, a]) == [a];
    assert [a, a, b][..2] == [a, a];
    assert Dedup([a, a, b]) == [a, b];
    assert [a, a, b, a][..3] == [a, a, b];
  }

  lemma DedupIdempotent(s: seq<Point>)
    ensures Dedup(Dedup(s)) == Dedup(s)
  {
    DedupProperties(s);
    DedupKeepsDistinctNeighbours(Dedup(s));
  }

  /** When every point has the same glyph, deduplication keeps exactly the same points. */
  lemma DedupSameMembers(s: seq<Point>, g: Option<char>, p: Point)
    requires forall q :: q in s ==> q.value == g
    ensures p in Dedup(s) <==> p in s
  {
    DedupProperties(s);
    var d := Dedup(s);
    if p in s {
      var i :| 0 <= i < |s| && s[i] == p;
      var j :| 0 <= j < |d| && Eq(d[j], s[i]);
      assert d[j] in s;
      assert d[j] == p;
    }
  }

  /** What `calculte_border` returns. */
  function BorderPoints(rect: RectangleShape): seq<Point> {
    Dedup(BorderSweep(rect))
  }

  /** `calculte_border`: blocks only, each from one of the two loops, no equal neighbours, at most as many as pushed. */
  lemma BorderPointsShape(rect: RectangleShape, p: Point)
    ensures var out := BorderPoints(rect);
      var tl, tr, bl := rect.topLeft, rect.topRight, rect.bottomLeft;
      NoAdjacentDuplicates(out) &&
      |out| <= 2 * (Span(tl.y, tr.y) + Span(tr.x, tl.x)) &&
      (p in out <==>
        (p.value == Some(Block) &&
         (((p.x == tl.x || p.x == bl.x) && tl.y <= p.y < tr.y) ||
          ((p.y == tl.y || p.y == bl.y) && tr.x <= p.x < tl.x))))
  {
    var tl, tr, bl := rect.topLeft, rect.topRight, rect.bottomLeft;
    var s := BorderSweep(rect);
    RowPairsMembers(tl.x, bl.x, tl.y, tr.y, p);
    ColumnPairsMembers(tl.y, bl.y, tr.x, tl.x, p);
    forall q | q in s ensures q.value == Some(Block) {
      RowPairsMembers(tl.x, bl.x, tl.y, tr.y, q);
      ColumnPairsMembers(tl.y, bl.y, tr.x, tl.x, q);
    }
    DedupProperties(s);
    DedupSameMembers(s, Some(Block), p);
  }

  /** On rectangles built by `RectangleShape::new`, an upward drag draws no border, and a downward
      drag draws only two parallel lines: horizontal ones when dragged leftwards, vertical ones otherwise. */
  lemma BorderOfNewRectangle(start: Point, end: Point, p: Point)
    ensures var out := BorderPoints(NewRectangle(start, end));
      var mx, Mx := Min(start.x, end.x), Max(start.x, end.x);
      var my, My := Min(start.y, end.y), Max(start.y, end.y);
      (start.y > end.y ==> out == []) &&
      (start.y <= end.y && start.x > end.x ==>
        (p in out <==> p.value == Some(Block) && (p.y == my || p.y == My) && mx <= p.x < Mx)) &&
      (start.y <= end.y && start.x <= end.x ==>
        (p in out <==> p.value == Some(Block) && (p.x == mx || p.x == Mx) && my <= p.y < My))
  {
    BorderPointsShape(NewRectangle(start, end), p);
  }

  /** `Vec::dedup` as the loop it performs: keep a point unless it equals the last one kept. */
  method RemoveAdjacentDuplicates(s: seq<Point>) returns (kept: seq<Point>)
    ensures kept == Dedup(s)
  {
    kept := [];
    var i := 0;
    while i < |s|
      invariant 0 <= i <= |s|
      invariant kept == Dedup(s[..i])
    {
      assert s[..i + 1][..i] == s[..i];
      if |kept| == 0 || !Eq(kept[|kept| - 1], s[i]) {
        kept := kept + [s[i]];
      }
      i := i + 1;
    }
    assert s[..|s|] == s;
  }

  /** `calculte_border`: the two loops, then the deduplication. */
  method CalculateBorder(rect: RectangleShape) returns (out: seq<Point>)
    ensures out == BorderPoints(rect)
  {
    var tl, tr, bl := rect.topLeft, rect.topRight, rect.bottomLeft;
    out := [];
    var y: U16 := tl.y;
    while y < tr.y
      invariant tl.y <= y && (y <= tr.y || y == tl.y)
      invariant out == RowPairs(tl.x, bl.x, tl.y, y)
    {
      out := out + [Point(tl.x, y, Some(Block))];
      out := out + [Point(bl.x, y, Some(Block))];
      y := y + 1;
    }
    var rows := out;
    var x: U16 := tr.x;
    while x < tl.x
      invariant tr.x <= x && (x <= tl.x || x == tr.x)
      invariant out == rows + ColumnPairs(tl.y, bl.y, tr.x, x)
    {
      out := out + [Point(x, tl.y, Some(Block))];
      out := out + [Point(x, bl.y, Some(Block))];
      x := x + 1;
    }
    out := RemoveAdjacentDuplicates(out);
  }

  // ---------------------------------------------------------------------------
  // calculte_arrow and calculte_points

  /** What `calculte_arrow` returns: a rule down column `start.x` from `start.y`, capped by a head at `end.y`. */
  function ArrowPoints(start: Point, end: Point): seq<Point> {
    VerticalRun(start.x, start.y, end.y, HLine) + [Point(start.x, end.y, Some(Head))]
  }

  lemma ArrowPointsShape(start: Point, end: Point)
    ensures var out := ArrowPoints(start, end);
      |out| == Span(start.y, end.y) + 1 &&
      (forall i :: 0 <= i < |out| - 1 ==> out[i] == Point(start.x, start.y + i, Some(HLine))) &&
      out[|out| - 1] == Point(start.x, end.y, Some(Head))
  {
    VerticalRunAt(start.x, start.y, end.y, HLine);
  }

  /** `calculte_arrow`: one rule segment per row of `[start.y, end.y)`, then the head. */
  method CalculateArrow(start: Point, end: Point) returns (out: seq<Point>)
    ensures out == ArrowPoints(start, end)
  {
    out := [];
    var y: U16 := start.y;
    while y < end.y
      invariant start.y <= y && (y <= end.y || y == start.y)
      invariant out == VerticalRun(start.x, start.y, y, HLine)
    {
      out := out + [Point(start.x, y, Some(HLine))];
      y := y + 1;
    }
    out := out + [Point(start.x, end.y, Some(Head))];
  }

  /** `calculte_points`: the two end points, in order, each marked with an `X`. */
  function MarkPoints(start: Point, end: Point): (out: seq<Point>)
    ensures |out| == 2 && Eq(out[0], start) && Eq(out[1], end)
    ensures out[0].value == Some(Mark) && out[1].value == Some(Mark)
  {
    [SetValue(start, Mark), SetValue(end, Mark)]
  }

  // ---------------------------------------------------------------------------
  // render_canvas and render_points

  /** The dispatch inside `render_canvas`: what each shape contributes to the screen. */
  function ShapePoints(shape: Shape): seq<Point> {
    match shape
    case Box(rect) => BoxPoints(rect)
    case Border(rect) => BorderPoints(rect)
    case Arrow(line) => MarkPoints(line.start, line.end)
    case Line(_) => []
  }

  /** A line shows nothing and an arrow only its two end marks. */
  lemma ShapePointsOfLines(l: LineShape)
    ensures ShapePoints(Line(l)) == []
    ensures ShapePoints(Arrow(l)) == [Point(l.start.x, l.start.y, Some(Mark)), Point(l.end.x, l.end.y, Some(Mark))]
  {
  }

  /** The terminal grid, keyed by (column, row). */
  type Grid = map<(U16, U16), char>

  /** Painting points in order: a glyph overwrites its cell, a point without glyph changes nothing. */
  function Paint(g: Grid, points: seq<Point>): Grid
    decreases |points|
  {
    if |points| == 0 then g
    else
      var p := points[|points| - 1];
      var before := Paint(g, points[..|points| - 1]);
      match p.value
      case None => before
      case Some(c) => before[(p.x, p.y) := c]
  }

  lemma {:induction false} PaintAppend(g: Grid, a: seq<Point>, b: seq<Point>)
    ensures Paint(g, a + b) == Paint(Paint(g, a), b)
    decreases |b|
  {
    if |b| == 0 {
      assert a + b == a;
    } else {
      assert (a + b)[..|a + b| - 1] == a + b[..|b| - 1];
      PaintAppend(g, a, b[..|b| - 1]);
    }
  }

  /** Last write wins: the cell shows the glyph of the last point that carries one there. */
  lemma {:induction false} PaintLastWins(g: Grid, points: seq<Point>, k: nat)
    requires k < |points| && points[k].value.Some?
    requires forall j :: k < j < |points| && points[j].value.Some? ==> !Eq(points[j], points[k])
    ensures (points[k].x, points[k].y) in Paint(g, points)
    ensures Paint(g, points)[(points[k].x, points[k].y)] == points[k].value.value
    decreases |points|
  {
    if k < |points| - 1 {
      var t := points[..|points| - 1];
      assert t[k] == points[k];
      PaintLastWins(g, t, k);
    }
  }

  /** A cell no glyph-carrying point lands on keeps what it had. */
  lemma {:induction false} PaintUntouched(g: Grid, points: seq<Point>, cell: (U16, U16))
    requires forall j :: 0 <= j < |points| && points[j].value.Some? ==> (points[j].x, points[j].y) != cell
    ensures cell in Paint(g, points) <==> cell in g
    ensures cell in g ==> Paint(g, points)[cell] == g[cell]
    decreases |points|
  {
    if |points| > 0 {
      var t := points[..|points| - 1];
      assert forall j :: 0 <= j < |t| ==> t[j] == points[j];
      PaintUntouched(g, t, cell);
    }
  }

  /** All shapes painted one after another, in insertion order. */
  function PaintShapes(g: Grid, shapes: seq<Shape>): Grid
    decreases |shapes|
  {
    if |shapes| == 0 then g
    else Paint(PaintShapes(g, shapes[..|shapes| - 1]), ShapePoints(shapes[|shapes| - 1]))
  }

  /** Every point of every shape, in insertion order. */
  function AllPoints(shapes: seq<Shape>): seq<Point>
    decreases |shapes|
  {
    if |shapes| == 0 then [] else AllPoints(shapes[..|shapes| - 1]) + ShapePoints(shapes[|shapes| - 1])
  }

  /** Painting shape by shape is painting the whole point stream at once. */
  lemma {:induction false} PaintShapesIsOneStream(g: Grid, shapes: seq<Shape>)
    ensures PaintShapes(g, shapes) == Paint(g, AllPoints(shapes))
    decreases |shapes|
  {
    if |shapes| > 0 {
      var t := shapes[..|shapes| - 1];
      PaintShapesIsOneStream(g, t);
      PaintAppend(g, AllPoints(t), ShapePoints(shapes[|shapes| - 1]));
    }
  }

  /** Overlap precedence: a shape inserted later paints over every earlier shape at the cells it marks. */
  lemma LaterShapeWins(g: Grid, earlier: seq<Shape>, later: Shape, k: nat)
    requires var ps := ShapePoints(later);
      k < |ps| && ps[k].value.Some? &&
      forall j :: k < j < |ps| && ps[j].value.Some? ==> !Eq(ps[j], ps[k])
    ensures var ps := ShapePoints(later);
      var screen := PaintShapes(g, earlier + [later]);
      (ps[k].x, ps[k].y) in screen && screen[(ps[k].x, ps[k].y)] == ps[k].value.value
  {
    var s := earlier + [later];
    assert s[..|s| - 1] == earlier;
    PaintLastWins(PaintShapes(g, earlier), ShapePoints(later), k);
  }

  /** The terminal as a grid of written cells. */
  class Screen {
    var cells: Grid

    constructor ()
      ensures cells == map[]
    {
      cells := map[];
    }

    /** `Clear(ClearType::All)`. */
    method Clear()
      modifies this
      ensures cells == map[]
    {
      cells := map[];
    }

    /** `render_points`: move to each point in turn and write its glyph, skipping points without one. */
    method RenderPoints(points: seq<Point>)
      modifies this
      ensures cells == Paint(old(cells), points)
    {
      var i := 0;
      while i < |points|
        invariant 0 <= i <= |points|
        invariant cells == Paint(old(cells), points[..i])
      {
        assert points[..i + 1][..i] == points[..i];
        var p := points[i];
        match p.value {
          case None =>
          case Some(c) => cells := cells[(p.x, p.y) := c];
        }
        i := i + 1;
      }
      assert points[..|points|] == points;
    }

    /** `render_canvas`: rasterise each shape in insertion order and paint its points. */
    method RenderCanvas(state: State)
      modifies this
      ensures cells == PaintShapes(old(cells), state.shapes)
    {
      var i := 0;
      while i < |state.shapes|
        invariant 0 <= i <= |state.shapes|
        invariant cells == PaintShapes(old(cells), state.shapes[..i])
      {
        assert state.shapes[..i + 1][..i] == state.shapes[..i];
        var points: seq<Point>;
        match state.shapes[i] {
          case Box(rect) => points := CalculateBox(rect);
          case Border(rect) => points := CalculateBorder(rect);
          case Arrow(line) => points := MarkPoints(line.start, line.end);
          case Line(_) => points := [];
        }
        RenderPoints(points);
        i := i + 1;
      }
      assert state.shapes[..|state.shapes|] == state.shapes;
    }
  }
}
