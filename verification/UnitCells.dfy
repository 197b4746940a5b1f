/**
 What intersection over union means: boxes on a grid are finite sets of cells, and the ratio compares
 the number of cells in both with the number of cells in either.
 */
module UnitCells {
  import opened Geometry

  datatype Cell = Cell(col: int, row: int)

  /** A box with integer corners, not inverted. */
  datatype Grid = Grid(x1: int, y1: int, x2: int, y2: int) {
    predicate Proper() {
      x1 < x2 && y1 < y2
    }

    function Box(): Box {
      Geometry.Box.Box(x1 as real, y1 as real, x2 as real, y2 as real)
    }
  }

  function Cells(g: Grid): set<Cell> {
    set col, row | g.x1 <= col < g.x2 && g.y1 <= row < g.y2 :: Cell(col, row)
  }

  // ---------- Counting cells ----------

  function Column(col: int, y1: int, y2: int): set<Cell> {
    set row | y1 <= row < y2 :: Cell(col, row)
  }

  lemma {:induction false} ColumnCount(col: int, y1: int, y2: int)
    requires y1 <= y2
    ensures |Column(col, y1, y2)| == y2 - y1
    decreases y2 - y1
  {
    if y1 == y2 {
      assert Column(col, y1, y2) == {};
    } else {
      ColumnCount(col, y1, y2 - 1);
      assert Column(col, y1, y2) == Column(col, y1, y2 - 1) + {Cell(col, y2 - 1)};
    }
  }

  lemma LastColumn(g: Grid)
    requires g.x1 < g.x2
    ensures var front, last := Cells(g.(x2 := g.x2 - 1)), Column(g.x2 - 1, g.y1, g.y2);
            Cells(g) == front + last && front !! last
  {
  }

  lemma {:induction false} CellCount(g: Grid)
    requires g.x1 <= g.x2 && g.y1 <= g.y2
    ensures |Cells(g)| == (g.x2 - g.x1) * (g.y2 - g.y1)
    decreases g.x2 - g.x1
  {
    if g.x1 == g.x2 {
      assert Cells(g) == {};
    } else {
      CellCount(g.(x2 := g.x2 - 1));
      ColumnCount(g.x2 - 1, g.y1, g.y2);
      LastColumn(g);
      OneWider(g.x2 - 1 - g.x1, g.y2 - g.y1);
    }
  }

  lemma OneWider(w: int, h: int)
    ensures (w + 1) * h == w * h + h
  {
  }

  // ---------- Two boxes ----------

  function Common(a: Grid, b: Grid): Grid {
    Grid(if a.x1 < b.x1 then b.x1 else a.x1, if a.y1 < b.y1 then b.y1 else a.y1,
         if b.x2 < a.x2 then b.x2 else a.x2, if b.y2 < a.y2 then b.y2 else a.y2)
  }

  lemma CommonCells(a: Grid, b: Grid)
    ensures Cells(a) * Cells(b) == Cells(Common(a, b))
  {
  }

  function Positive(n: int): nat {
    if n > 0 then n else 0
  }

  /** A box may be inverted here, and holds no cell then. */
  lemma AnyCellCount(g: Grid)
    ensures |Cells(g)| == Positive(g.x2 - g.x1) * Positive(g.y2 - g.y1)
  {
    if g.x1 <= g.x2 && g.y1 <= g.y2 {
      CellCount(g);
    } else {
      assert Cells(g) == {};
    }
  }

  lemma RealProduct(w: int, h: int)
    ensures w as real * h as real == (w * h) as real
  {
  }

  lemma AreaCounts(g: Grid)
    requires g.Proper()
    ensures Area(g.Box()) == |Cells(g)| as real
  {
    CellCount(g);
    RealProduct(g.x2 - g.x1, g.y2 - g.y1);
  }

  lemma InterOfGrids(a: Grid, b: Grid)
    ensures var c := Common(a, b);
            Inter(a.Box(), b.Box()) == (Positive(c.x2 - c.x1) * Positive(c.y2 - c.y1)) as real
  {
    var a', b', c := a.Box(), b.Box(), Common(a, b);
    assert CommonLength(a'.x1, a'.x2, b'.x1, b'.x2) == Positive(c.x2 - c.x1) as real;
    assert CommonLength(a'.y1, a'.y2, b'.y1, b'.y2) == Positive(c.y2 - c.y1) as real;
    RealProduct(Positive(c.x2 - c.x1), Positive(c.y2 - c.y1));
  }

  /** The intersection is the number of cells in both boxes. */
  lemma InterCounts(a: Grid, b: Grid)
    ensures Inter(a.Box(), b.Box()) == |Cells(a) * Cells(b)| as real
  {
    var c := Common(a, b);
    CommonCells(a, b);
    AnyCellCount(c);
    InterOfGrids(a, b);
  }

  /** The union is the number of cells in either. */
  lemma UnionCounts(a: Grid, b: Grid)
    requires a.Proper() && b.Proper()
    ensures UnionArea(a.Box(), b.Box()) == |Cells(a) + Cells(b)| as real
  {
    AreaCounts(a);
    AreaCounts(b);
    InterCounts(a, b);
    assert |Cells(a) + Cells(b)| + |Cells(a) * Cells(b)| == |Cells(a)| + |Cells(b)|;
  }

  lemma SomeCells(a: Grid, b: Grid)
    requires a.Proper()
    ensures |Cells(a) + Cells(b)| > 0
  {
    assert Cell(a.x1, a.y1) in Cells(a) + Cells(b);
  }

  lemma QuotientAbove(part: real, whole: real, threshold: real)
    requires whole > 0.0
    ensures part / whole > threshold <==> part > threshold * whole
    ensures part / whole * whole == part
  {
    var q := part / whole;
    assert q * whole == part;
    assert q > threshold ==> q * whole > threshold * whole;
    assert q <= threshold ==> q * whole <= threshold * whole;
  }

  /** The ratio of two boxes is part over whole, and they overlap if the part is more than that share of the whole. */
  predicate Shares(a: Box, b: Box, part: real, whole: real, threshold: real) {
    && whole > 0.0
    && IoU(a, b) * whole == part
    && (Overlaps(a, b, threshold) <==> part > threshold * whole)
  }

  lemma OverlapShares(a: Box, b: Box, part: real, whole: real, threshold: real)
    requires whole > 0.0 && part == Inter(a, b) && whole == UnionArea(a, b)
    ensures Shares(a, b, part, whole, threshold)
  {
    QuotientAbove(part, whole, threshold);
  }

  /** A box suppresses another exactly if the cells in both are more than this share of the cells in either. */
  lemma OverlapCounts(a: Grid, b: Grid, threshold: real)
    requires a.Proper() && b.Proper()
    ensures Shares(a.Box(), b.Box(), |Cells(a) * Cells(b)| as real, |Cells(a) + Cells(b)| as real, threshold)
  {
    InterCounts(a, b);
    UnionCounts(a, b);
    SomeCells(a, b);
    OverlapShares(a.Box(), b.Box(), |Cells(a) * Cells(b)| as real, |Cells(a) + Cells(b)| as real, threshold);
  }

  // ---------- Any two boxes ----------

  lemma PositiveArea(b: Box)
    requires Proper(b)
    ensures Area(b) > 0.0
  {
  }

  /** Two proper boxes have an area together. */
  lemma UnionPositive(a: Box, b: Box)
    requires Proper(a) && Proper(b)
    ensures UnionArea(a, b) > 0.0
  {
    InterWithin(a, b);
    PositiveArea(b);
  }

  /** The test of suppression depends on the ratio alone. */
  lemma SharesDrawn(a: Box, b: Box, a': Box, b': Box, part: real, whole: real, threshold: real)
    requires Proper(a') && Proper(b') && IoU(a', b') == IoU(a, b) && Shares(a, b, part, whole, threshold)
    ensures Shares(a', b', part, whole, threshold)
  {
    UnionPositive(a', b');
    QuotientAbove(Inter(a', b'), UnionArea(a', b'), threshold);
    SharesAgain(IoU(a', b'), part, whole, threshold);
  }

  lemma SharesAgain(ratio: real, part: real, whole: real, threshold: real)
    requires whole > 0.0 && ratio * whole == part
    ensures ratio > threshold <==> part > threshold * whole
  {
  }

  /** So it is for boxes on a grid of any mesh and origin, and so for all boxes with rational corners. */
  lemma DrawnOverlapCounts(a: Grid, b: Grid, kx: real, ky: real, dx: real, dy: real, threshold: real)
    requires a.Proper() && b.Proper() && kx > 0.0 && ky > 0.0
    ensures Shares(Stretch(a.Box(), kx, ky, dx, dy), Stretch(b.Box(), kx, ky, dx, dy),
                   |Cells(a) * Cells(b)| as real, |Cells(a) + Cells(b)| as real, threshold)
  {
    var a', b' := Stretch(a.Box(), kx, ky, dx, dy), Stretch(b.Box(), kx, ky, dx, dy);
    OverlapCounts(a, b, threshold);
    StretchKeepsIoU(a.Box(), b.Box(), kx, ky, dx, dy);
    StretchKeepsProper(a.Box(), kx, ky, dx, dy);
    StretchKeepsProper(b.Box(), kx, ky, dx, dy);
    SharesDrawn(a.Box(), b.Box(), a', b', |Cells(a) * Cells(b)| as real, |Cells(a) + Cells(b)| as real, threshold);
  }
}
