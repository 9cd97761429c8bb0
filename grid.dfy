/** The cell grid laid over the world (lib/grid/grid.ts): cell counts, cell centres,
    the world-to-cell map and clamping. */
module Grid {
  import opened Types

  /** Cell size, world size and the world position of cell (0, 0)'s top-left corner. */
  datatype GridSpec = GridSpec(cellSize: real, width: real, height: real, originX: real, originY: real)

  /** Lines 11-23: the origin defaults to (0, 0). */
  function CreateGridSpec(width: real, height: real, cellSize: real, originX: real := 0.0, originY: real := 0.0): (g: GridSpec)
    ensures g.width == width && g.height == height && g.cellSize == cellSize
    ensures g.originX == originX && g.originY == originY
  {
    GridSpec(cellSize, width, height, originX, originY)
  }

  /** `Math.max(1, Math.floor(size / cellSize))`. */
  function CellCount(size: real, cellSize: real): (n: int)
    requires cellSize != 0.0
    ensures n >= 1
    ensures (size / cellSize).Floor >= 1 ==> n == (size / cellSize).Floor
    ensures (size / cellSize).Floor < 1 ==> n == 1
  {
    Max(1, (size / cellSize).Floor)
  }

  /** Lines 25-26. */
  function GetGridCols(grid: GridSpec): (cols: int)
    requires grid.cellSize != 0.0
    ensures cols >= 1 && cols == CellCount(grid.width, grid.cellSize)
  {
    CellCount(grid.width, grid.cellSize)
  }

  /** Lines 28-29. */
  function GetGridRows(grid: GridSpec): (rows: int)
    requires grid.cellSize != 0.0
    ensures rows >= 1 && rows == CellCount(grid.height, grid.cellSize)
  {
    CellCount(grid.height, grid.cellSize)
  }

  /** Lines 31-34, over real cell coordinates (fractional ones are used for rectangle centres):
      the point sits half a cell past the cell's corner on each axis. */
  function CellToWorldCenter(grid: GridSpec, cx: real, cy: real): (p: Point)
    ensures grid.cellSize > 0.0 ==>
              (p.x - grid.originX) / grid.cellSize == cx + 0.5 && (p.y - grid.originY) / grid.cellSize == cy + 0.5
  {
    var px := grid.originX + (cx + 0.5) * grid.cellSize;
    var py := grid.originY + (cy + 0.5) * grid.cellSize;
    HalfPastCorner(grid.originX, grid.cellSize, cx, px);
    HalfPastCorner(grid.originY, grid.cellSize, cy, py);
    Point(px, py)
  }

  /** The centre of an integer cell. */
  function CellCenter(grid: GridSpec, c: Cell): (p: Point)
    ensures grid.cellSize > 0.0 ==>
              (p.x - grid.originX) / grid.cellSize == c.x as real + 0.5 &&
              (p.y - grid.originY) / grid.cellSize == c.y as real + 0.5
  {
    CellToWorldCenter(grid, c.x as real, c.y as real)
  }

  /** Lines 36-39: the cell whose index range holds the point's offset from the origin,
      measured in cells. */
  function WorldToCell(grid: GridSpec, p: Point): (c: Cell)
    requires grid.cellSize > 0.0
    ensures c.x as real <= (p.x - grid.originX) / grid.cellSize < c.x as real + 1.0
    ensures c.y as real <= (p.y - grid.originY) / grid.cellSize < c.y as real + 1.0
  {
    Cell(((p.x - grid.originX) / grid.cellSize).Floor, ((p.y - grid.originY) / grid.cellSize).Floor)
  }

  /** `worldToCell` maps a point to cell c exactly when the point lies in the half-open
      pixel square [origin + c·cellSize, origin + c·cellSize + cellSize) on both axes. */
  lemma WorldToCellInterval(grid: GridSpec, p: Point, c: Cell)
    requires grid.cellSize > 0.0
    ensures WorldToCell(grid, p) == c <==>
              grid.originX + c.x as real * grid.cellSize <= p.x < grid.originX + c.x as real * grid.cellSize + grid.cellSize &&
              grid.originY + c.y as real * grid.cellSize <= p.y < grid.originY + c.y as real * grid.cellSize + grid.cellSize
  {
    Slot(grid.originX, grid.cellSize, p.x, c.x as real);
    Slot(grid.originY, grid.cellSize, p.y, c.y as real);
  }

  /** The centre of a cell maps back to that cell. */
  lemma WorldToCellOfCenter(grid: GridSpec, c: Cell)
    requires grid.cellSize > 0.0
    ensures WorldToCell(grid, CellCenter(grid, c)) == c
  {
  }

  /** For s > 0: v lies in the slot [o + c·s, o + c·s + s) exactly when c <= (v - o) / s < c + 1. */
  lemma Slot(o: real, s: real, v: real, c: real)
    requires s > 0.0
    ensures o + c * s <= v < o + c * s + s <==> c <= (v - o) / s < c + 1.0
  {
    SlotStart(o, s, v, c);
    SlotEnd(o, s, v, c);
  }

  lemma SlotStart(o: real, s: real, v: real, c: real)
    requires s > 0.0
    ensures o + c * s <= v <==> c <= (v - o) / s
  {
    var q := (v - o) / s;
    assert q * s == v - o;
    assert (q - c) * s == q * s - c * s;
    if c <= q { ProductNonNegative(q - c, s); } else { ProductPositive(c - q, s); }
  }

  lemma SlotEnd(o: real, s: real, v: real, c: real)
    requires s > 0.0
    ensures v < o + c * s + s <==> (v - o) / s < c + 1.0
  {
    var q := (v - o) / s;
    assert q * s == v - o;
    assert (c + 1.0 - q) * s == c * s + s - q * s;
    if q < c + 1.0 { ProductPositive(c + 1.0 - q, s); } else { ProductNonNegative(q - c - 1.0, s); }
  }

  /** Offsetting by (c + 0.5)·s and scaling back by s gives c + 0.5. */
  lemma HalfPastCorner(o: real, s: real, c: real, v: real)
    requires v == o + (c + 0.5) * s
    ensures s > 0.0 ==> (v - o) / s == c + 0.5
  {
    if s > 0.0 {
      var x := (c + 0.5) * s;
      assert v - o == x;
      var q := x / s;
      assert q * s == x;
      if q < c + 0.5 { ProductPositive(c + 0.5 - q, s); } else if c + 0.5 < q { ProductPositive(q - c - 0.5, s); }
    }
  }

  lemma ProductPositive(a: real, s: real)
    requires s > 0.0 && a > 0.0
    ensures a * s > 0.0
  {
  }

  lemma ProductNonNegative(a: real, s: real)
    requires s > 0.0 && a >= 0.0
    ensures a * s >= 0.0
  {
  }

  /** The cell lies on the grid. */
  predicate InGrid(grid: GridSpec, c: Cell)
    requires grid.cellSize != 0.0
  {
    0 <= c.x < GetGridCols(grid) && 0 <= c.y < GetGridRows(grid)
  }

  /** `Math.max(0, Math.min(n - 1, v))`. */
  function Clamp(v: int, n: int): (r: int)
    requires n >= 1
    ensures 0 <= r < n
    ensures 0 <= v < n ==> r == v
    ensures v < 0 ==> r == 0
    ensures v >= n ==> r == n - 1
  {
    Max(0, Min(n - 1, v))
  }

  /** Lines 41-48: the nearest cell on the grid, axis by axis. */
  function ClampCellToGrid(grid: GridSpec, c: Cell): (r: Cell)
    requires grid.cellSize != 0.0
    ensures InGrid(grid, r)
    ensures InGrid(grid, c) ==> r == c
    ensures r.x == Clamp(c.x, GetGridCols(grid)) && r.y == Clamp(c.y, GetGridRows(grid))
  {
    Cell(Clamp(c.x, GetGridCols(grid)), Clamp(c.y, GetGridRows(grid)))
  }

  /** Clamping twice is clamping once. */
  lemma ClampIdempotent(grid: GridSpec, c: Cell)
    requires grid.cellSize != 0.0
    ensures ClampCellToGrid(grid, ClampCellToGrid(grid, c)) == ClampCellToGrid(grid, c)
  {
  }
}
