/** Turning cell rectangles into world-space placements (lib/building/worldify-rects.ts):
    pixel centre and size, plus the list of grid cells each rectangle covers. */
module WorldifyRects {
  import opened Types
  import opened Grid

  /** A rectangle with its world centre, world size and covered cells. */
  datatype PlacedRect = PlacedRect(rect: GridRect, worldX: real, worldY: real, worldW: real, worldH: real, gridCells: seq<Cell>)

  /** The cells (x, y) .. (x + w - 1, y) of one row, left to right. */
  function RowCells(x: int, y: int, w: int): (cells: seq<Cell>)
    ensures |cells| == if w <= 0 then 0 else w
    ensures forall i :: 0 <= i < |cells| ==> cells[i] == Cell(x + i, y)
  {
    if w <= 0 then [] else seq(w, i requires 0 <= i < w => Cell(x + i, y))
  }

  /** The cells of the first n rows of r, row by row. */
  function RowsCells(r: GridRect, n: nat): seq<Cell>
  {
    if n == 0 then [] else RowsCells(r, n - 1) + RowCells(r.x, r.y + n - 1, r.w)
  }

  /** The cells covered by r, row by row and left to right within a row. */
  function RectCells(r: GridRect): (cells: seq<Cell>)
    ensures forall c :: c in cells <==> InRect(r, c.x, c.y)
    ensures |cells| == if r.w <= 0 || r.h <= 0 then 0 else r.w * r.h
    ensures RowMajorStrict(cells)
  {
    if r.h <= 0 then []
    else
      RowsCellsMembers(r, r.h);
      RowsCellsCount(r, r.h);
      RowsCellsOrder(r, r.h);
      RowsCells(r, r.h)
  }

  /** Cell a comes strictly before cell b in row-major order. */
  predicate CellBefore(a: Cell, b: Cell)
  {
    a.y < b.y || (a.y == b.y && a.x < b.x)
  }

  /** The cells are listed in strictly increasing row-major order, so none is listed twice. */
  predicate RowMajorStrict(cells: seq<Cell>)
  {
    forall i, j :: 0 <= i < j < |cells| ==> CellBefore(cells[i], cells[j])
  }

  lemma {:induction false} RowsCellsMembers(r: GridRect, n: nat)
    ensures forall c :: c in RowsCells(r, n) <==> r.x <= c.x < r.x + r.w && r.y <= c.y < r.y + n
  {
    if n > 0 {
      RowsCellsMembers(r, n - 1);
      var row := RowCells(r.x, r.y + n - 1, r.w);
      forall c: Cell | r.x <= c.x < r.x + r.w && c.y == r.y + n - 1
        ensures c in row
      {
        assert row[c.x - r.x] == c;
      }
    }
  }

  lemma {:induction false} RowsCellsCount(r: GridRect, n: nat)
    ensures |RowsCells(r, n)| == if r.w <= 0 then 0 else n * r.w
  {
    if n > 0 {
      RowsCellsCount(r, n - 1);
      if r.w > 0 {
        assert n * r.w == (n - 1) * r.w + r.w;
      }
    }
  }

  lemma {:induction false} RowsCellsOrder(r: GridRect, n: nat)
    ensures RowMajorStrict(RowsCells(r, n))
    ensures forall i :: 0 <= i < |RowsCells(r, n)| ==> RowsCells(r, n)[i].y < r.y + n
  {
    if n > 0 {
      RowsCellsOrder(r, n - 1);
      var prev := RowsCells(r, n - 1);
      var row := RowCells(r.x, r.y + n - 1, r.w);
      var cells := prev + row;
      forall i, j | 0 <= i < j < |cells| ensures CellBefore(cells[i], cells[j]) {
        if j < |prev| {
          assert cells[i] == prev[i] && cells[j] == prev[j];
        } else if i < |prev| {
          assert cells[i] == prev[i] && cells[j] == row[j - |prev|];
        } else {
          assert cells[i] == row[i - |prev|] && cells[j] == row[j - |prev|];
        }
      }
      forall i | 0 <= i < |cells| ensures cells[i].y < r.y + n {
        if i < |prev| { assert cells[i] == prev[i]; } else { assert cells[i] == row[i - |prev|]; }
      }
    }
  }

  /** Lines 16-21: the nested loops over rows `yy` and columns `xx` pushing each cell. */
  method CollectGridCells(r: GridRect) returns (cells: seq<Cell>)
    ensures cells == RectCells(r)
  {
    cells := [];
    var yy := 0;
    while yy < r.h
      invariant 0 <= yy <= Max(r.h, 0)
      invariant cells == RowsCells(r, yy)
    {
      var xx := 0;
      while xx < r.w
        invariant 0 <= xx <= Max(r.w, 0)
        invariant cells == RowsCells(r, yy) + RowCells(r.x, r.y + yy, xx)
      {
        assert RowCells(r.x, r.y + yy, xx + 1) == RowCells(r.x, r.y + yy, xx) + [Cell(r.x + xx, r.y + yy)];
        cells := cells + [Cell(r.x + xx, r.y + yy)];
        xx := xx + 1;
      }
      assert RowCells(r.x, r.y + yy, xx) == RowCells(r.x, r.y + yy, r.w);
      yy := yy + 1;
    }
  }

  /** Lines 6-30 for one rectangle: size in pixels, the world centre of the cell block and
      its cells. The centre lies half the block past its top-left corner. */
  function Placed(grid: GridSpec, r: GridRect): (p: PlacedRect)
    ensures p.rect == r
    ensures p.worldW == r.w as real * grid.cellSize && p.worldH == r.h as real * grid.cellSize
    ensures grid.cellSize > 0.0 ==>
              (p.worldX - grid.originX) / grid.cellSize == r.x as real + r.w as real / 2.0 &&
              (p.worldY - grid.originY) / grid.cellSize == r.y as real + r.h as real / 2.0
    ensures p.gridCells == RectCells(r)
  {
    var center := CellToWorldCenter(grid, r.x as real + r.w as real / 2.0 - 0.5, r.y as real + r.h as real / 2.0 - 0.5);
    PlacedRect(r, center.x, center.y, r.w as real * grid.cellSize, r.h as real * grid.cellSize, RectCells(r))
  }

  /** Lines 4-31: one placement per rectangle, in order. */
  function Worldify(grid: GridSpec, rects: seq<GridRect>): (ps: seq<PlacedRect>)
    ensures |ps| == |rects|
    ensures forall i :: 0 <= i < |rects| ==> ps[i] == Placed(grid, rects[i]) && ps[i].rect == rects[i]
  {
    seq(|rects|, i requires 0 <= i < |rects| => Placed(grid, rects[i]))
  }

  /** One rectangle, with its cells collected by the loops. */
  method WorldifyRect(grid: GridSpec, r: GridRect) returns (p: PlacedRect)
    ensures p == Placed(grid, r)
  {
    var worldW := r.w as real * grid.cellSize;
    var worldH := r.h as real * grid.cellSize;
    var center := CellToWorldCenter(grid, r.x as real + r.w as real / 2.0 - 0.5, r.y as real + r.h as real / 2.0 - 0.5);
    var gridCells := CollectGridCells(r);
    p := PlacedRect(r, center.x, center.y, worldW, worldH, gridCells);
  }

  /** Lines 4-31 as a loop over the rectangles. */
  method WorldifyRectsOf(grid: GridSpec, rects: seq<GridRect>) returns (ps: seq<PlacedRect>)
    ensures ps == Worldify(grid, rects)
  {
    ps := [];
    var i := 0;
    while i < |rects|
      invariant 0 <= i <= |rects|
      invariant ps == Worldify(grid, rects[..i])
    {
      var p := WorldifyRect(grid, rects[i]);
      assert rects[..i + 1] == rects[..i] + [rects[i]];
      ps := ps + [p];
      i := i + 1;
    }
    assert rects[..i] == rects;
  }

  /** A 1×1 rectangle is centred on its cell's centre. */
  lemma UnitRectCenter(grid: GridSpec, r: GridRect)
    requires r.w == 1 && r.h == 1
    ensures Placed(grid, r).worldX == CellCenter(grid, Cell(r.x, r.y)).x
    ensures Placed(grid, r).worldY == CellCenter(grid, Cell(r.x, r.y)).y
    ensures Placed(grid, r).gridCells == [Cell(r.x, r.y)]
  {
    assert r.x as real + r.w as real / 2.0 - 0.5 == r.x as real;
    assert r.y as real + r.h as real / 2.0 - 0.5 == r.y as real;
    var cells := RectCells(r);
    assert Cell(r.x, r.y) in cells;
  }

  /** No cell is listed by two placements. */
  ghost predicate CellsDisjoint(ps: seq<PlacedRect>)
  {
    forall i, j, c :: 0 <= i < j < |ps| && c in ps[i].gridCells ==> c !in ps[j].gridCells
  }

  /** Placements of non-overlapping rectangles list every cell at most once. */
  lemma WorldifyDisjoint(grid: GridSpec, rects: seq<GridRect>)
    requires Disjoint(rects)
    ensures CellsDisjoint(Worldify(grid, rects))
  {
    var ps := Worldify(grid, rects);
    forall i, j, c | 0 <= i < j < |ps| && c in ps[i].gridCells ensures c !in ps[j].gridCells {
      assert InRect(rects[i], c.x, c.y);
    }
  }
}
