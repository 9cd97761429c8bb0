/** Where a piece lands and whether it may go there (lib/building/piece-placement.ts).
    `Query.region` of the physics engine is the parameter `query`. */
module PiecePlacement {
  import opened Types
  import opened Grid
  import opened BlueprintUtils
  import opened MaterialUtils
  import opened CompileBlueprint
  import opened TranslateBlueprint
  import opened WorldifyRects
  import opened PlaceUtils
  import opened Registry
  import opened MatterTypes
  import opened GameStore

  /** The cells a piece covers and the rectangles that build it. */
  datatype Placement = Placement(occupiedCells: seq<Cell>, placedRects: seq<PlacedRect>)

  /** Lines 32-35: the anchor shifted by each offset, in offset order. */
  function CellsAt(anchor: Cell, offs: seq<Offset>): (cells: seq<Cell>)
    ensures |cells| == |offs|
    ensures forall i :: 0 <= i < |offs| ==> cells[i] == Cell(anchor.x + offs[i].dx, anchor.y + offs[i].dy)
  {
    seq(|offs|, i requires 0 <= i < |offs| => Cell(anchor.x + offs[i].dx, anchor.y + offs[i].dy))
  }

  /** Line 40: one footprint row as blueprint text. */
  function LocalRow(row: seq<Bit>, token: char): (s: string)
    ensures |s| == |row|
    ensures forall x :: 0 <= x < |row| ==> s[x] == if row[x] == 1 then token else EmptyToken()
  {
    seq(|row|, x requires 0 <= x < |row| => if row[x] == 1 then token else EmptyToken())
  }

  /** Lines 37-41: the footprint as blueprint rows, 1 cells holding the material's token. */
  function LocalRows(fp: Footprint, material: Material): (rows: seq<string>)
    ensures |rows| == |fp|
    ensures forall y :: 0 <= y < |fp| ==> rows[y] == LocalRow(fp[y], MaterialToToken(material))
  {
    seq(|fp|, y requires 0 <= y < |fp| => LocalRow(fp[y], MaterialToToken(material)))
  }

  /** The blueprint rows of a rectangular footprint are already normalised, and a cell holds
      the material exactly where the footprint has a 1; every other cell is empty. */
  lemma LocalRowsMaterial(fp: Footprint, material: Material)
    requires PlaceUtils.Rectangular(fp)
    ensures NormalizeBlueprintRows(LocalRows(fp, material)) == LocalRows(fp, material)
    ensures forall x, y :: MaterialAt(LocalRows(fp, material), x, y) ==
              if Occupied(fp, x, y) then Some(material) else None
  {
    var rows := LocalRows(fp, material);
    NormalizeUniformRows(rows, FpWidth(fp));
    forall x, y ensures MaterialAt(rows, x, y) == if Occupied(fp, x, y) then Some(material) else None {
      if 0 <= y < |rows| && 0 <= x < |rows[y]| {
        assert rows[y][x] == if fp[y][x] == 1 then MaterialToToken(material) else EmptyToken();
      }
    }
  }

  /** Some placed rectangle lists the cell among its grid cells. */
  ghost predicate InPlaced(ps: seq<PlacedRect>, c: Cell)
  {
    exists i :: 0 <= i < |ps| && c in ps[i].gridCells
  }

  /** With the footprint's origin on the anchor, the footprint has a 1 under cell c. */
  predicate Covers(fp: Footprint, anchor: Cell, c: Cell)
  {
    var o := GetFootprintOrigin(fp);
    Occupied(fp, c.x - anchor.x + o.x, c.y - anchor.y + o.y)
  }

  /** The compiled footprint rows moved so that the footprint's origin sits on the anchor. */
  function PlacedRects(grid: GridSpec, fp: Footprint, anchor: Cell, local: seq<GridRect>): (ps: seq<PlacedRect>)
    ensures |ps| == |local|
  {
    var o := GetFootprintOrigin(fp);
    Worldify(grid, TranslateRects(local, anchor.x - o.x, anchor.y - o.y))
  }

  /** One cell of the placed rectangles: listed by rectangle i exactly when rectangle i of
      the compiled footprint rows holds the footprint cell under it. */
  lemma PlacedCell(grid: GridSpec, fp: Footprint, anchor: Cell, local: seq<GridRect>, i: int, c: Cell)
    requires 0 <= i < |local|
    ensures var o := GetFootprintOrigin(fp);
      c in PlacedRects(grid, fp, anchor, local)[i].gridCells <==>
      InRect(local[i], c.x - anchor.x + o.x, c.y - anchor.y + o.y)
  {
    var o := GetFootprintOrigin(fp);
    TranslateCovers(local, anchor.x - o.x, anchor.y - o.y, i, c.x, c.y);
  }

  /** The placed rectangles list exactly the cells the footprint covers. */
  lemma PlacedCoverFootprint(grid: GridSpec, fp: Footprint, material: Material, anchor: Cell, local: seq<GridRect>)
    requires PlaceUtils.Rectangular(fp) && Partition(LocalRows(fp, material), local)
    ensures forall c :: InPlaced(PlacedRects(grid, fp, anchor, local), c) <==> Covers(fp, anchor, c)
  {
    forall c ensures InPlaced(PlacedRects(grid, fp, anchor, local), c) <==> Covers(fp, anchor, c) {
      PlacedCoverCell(grid, fp, material, anchor, local, c);
    }
  }

  lemma PlacedCoverCell(grid: GridSpec, fp: Footprint, material: Material, anchor: Cell, local: seq<GridRect>, c: Cell)
    requires PlaceUtils.Rectangular(fp) && Partition(LocalRows(fp, material), local)
    ensures InPlaced(PlacedRects(grid, fp, anchor, local), c) <==> Covers(fp, anchor, c)
  {
    LocalRowsMaterial(fp, material);
    InPlacedCovered(grid, fp, anchor, local, c);
  }

  /** A cell is listed by a placed rectangle exactly when the compiled rectangles cover the
      footprint cell under it. */
  lemma InPlacedCovered(grid: GridSpec, fp: Footprint, anchor: Cell, local: seq<GridRect>, c: Cell)
    ensures var o := GetFootprintOrigin(fp);
      InPlaced(PlacedRects(grid, fp, anchor, local), c) <==> Covered(local, c.x - anchor.x + o.x, c.y - anchor.y + o.y)
  {
    var o := GetFootprintOrigin(fp);
    var ps := PlacedRects(grid, fp, anchor, local);
    var x, y := c.x - anchor.x + o.x, c.y - anchor.y + o.y;
    if InPlaced(ps, c) {
      var i :| 0 <= i < |ps| && c in ps[i].gridCells;
      PlacedCell(grid, fp, anchor, local, i, c);
    }
    if Covered(local, x, y) {
      var i :| 0 <= i < |local| && InRect(local[i], x, y);
      PlacedCell(grid, fp, anchor, local, i, c);
    }
  }

  /** Every placed rectangle is in the chosen material. */
  lemma PlacedMaterial(grid: GridSpec, fp: Footprint, material: Material, anchor: Cell, local: seq<GridRect>)
    requires PlaceUtils.Rectangular(fp) && Partition(LocalRows(fp, material), local)
    ensures var ps := PlacedRects(grid, fp, anchor, local);
      forall i :: 0 <= i < |ps| ==> ps[i].rect.material == material
  {
    var rows := LocalRows(fp, material);
    LocalRowsMaterial(fp, material);
    var ps := PlacedRects(grid, fp, anchor, local);
    forall i | 0 <= i < |ps| ensures ps[i].rect.material == material {
      var r := local[i];
      assert InRect(r, r.x, r.y);
      assert MaterialAt(rows, r.x, r.y) == Some(r.material);
    }
  }

  /** No cell is listed by two placed rectangles. */
  lemma PlacedDisjoint(grid: GridSpec, fp: Footprint, material: Material, anchor: Cell, local: seq<GridRect>)
    requires Partition(LocalRows(fp, material), local)
    ensures CellsDisjoint(PlacedRects(grid, fp, anchor, local))
  {
    var o := GetFootprintOrigin(fp);
    TranslateDisjoint(local, anchor.x - o.x, anchor.y - o.y);
    WorldifyDisjoint(grid, TranslateRects(local, anchor.x - o.x, anchor.y - o.y));
  }

  /** Lines 14-50: the occupied cells are the anchor plus each offset of the rotated
      footprint, in offset order, so a cell is occupied exactly when the footprint, its
      origin on the anchor, has a 1 under it. The placed rectangles are the compiled
      footprint rows moved by anchor - origin and converted to world space; together they
      list exactly the occupied cells, once each, all in the chosen material. */
  method GetPiecePlacement(grid: GridSpec, pieceId: PieceId, rotation: Rotation, material: Material,
                           anchorCell: Cell)
    returns (placement: Placement, ghost local: seq<GridRect>)
    ensures var fp := Rotated(Pieces(pieceId).footprint, rotation);
      placement.occupiedCells == CellsAt(anchorCell, OccupiedOffsets(fp))
    ensures forall c :: c in placement.occupiedCells <==> Covers(Rotated(Pieces(pieceId).footprint, rotation), anchorCell, c)
    ensures var fp := Rotated(Pieces(pieceId).footprint, rotation);
      Compiled(LocalRows(fp, material), local) && placement.placedRects == PlacedRects(grid, fp, anchorCell, local)
    ensures forall c :: InPlaced(placement.placedRects, c) <==> c in placement.occupiedCells
    ensures forall i :: 0 <= i < |placement.placedRects| ==> placement.placedRects[i].rect.material == material
    ensures CellsDisjoint(placement.placedRects)
  {
    var piece := Pieces(pieceId);
    var footprint := GetPieceFootprint(piece, rotation);
    RotatedShape(piece.footprint, rotation);
    var occupiedCells := OccupiedCellsOf(footprint, anchorCell);
    var placedRects;
    placedRects, local := PlacedRectsOf(grid, footprint, material, anchorCell);
    placement := Placement(occupiedCells, placedRects);
  }

  /** Lines 31-35: the anchor plus each occupied offset. */
  method OccupiedCellsOf(fp: Footprint, anchorCell: Cell) returns (cells: seq<Cell>)
    ensures cells == CellsAt(anchorCell, OccupiedOffsets(fp))
    ensures forall c :: c in cells <==> Covers(fp, anchorCell, c)
  {
    var occupiedOffsets := GetOccupiedOffsets(fp);
    cells := CellsAt(anchorCell, occupiedOffsets);
    OccupiedCellsAt(anchorCell, fp);
  }

  /** Lines 37-47: the footprint compiled to rectangles, moved by anchor - origin and
      converted to world space. */
  method PlacedRectsOf(grid: GridSpec, fp: Footprint, material: Material, anchorCell: Cell)
    returns (placedRects: seq<PlacedRect>, ghost local: seq<GridRect>)
    requires PlaceUtils.Rectangular(fp)
    ensures Compiled(LocalRows(fp, material), local) && placedRects == PlacedRects(grid, fp, anchorCell, local)
    ensures forall c :: InPlaced(placedRects, c) <==> Covers(fp, anchorCell, c)
    ensures forall i :: 0 <= i < |placedRects| ==> placedRects[i].rect.material == material
    ensures CellsDisjoint(placedRects)
  {
    var origin := GetFootprintOrigin(fp);
    var rectsLocal := CompileLocalRows(fp, material);
    local := rectsLocal;
    var topLeftX := anchorCell.x - origin.x;
    var topLeftY := anchorCell.y - origin.y;
    var rectsGlobal := TranslateRects(rectsLocal, topLeftX, topLeftY);
    placedRects := WorldifyRectsOf(grid, rectsGlobal);
    assert placedRects == PlacedRects(grid, fp, anchorCell, rectsLocal);
    PlacedCoverFootprint(grid, fp, material, anchorCell, rectsLocal);
    PlacedMaterial(grid, fp, material, anchorCell, rectsLocal);
    PlacedDisjoint(grid, fp, material, anchorCell, rectsLocal);
  }

  /** Lines 37-43: the footprint written as blueprint rows and compiled to rectangles. */
  method CompileLocalRows(fp: Footprint, material: Material) returns (local: seq<GridRect>)
    requires PlaceUtils.Rectangular(fp)
    ensures Compiled(LocalRows(fp, material), local)
  {
    var localRows := LocalRows(fp, material);
    LocalRowsMaterial(fp, material);
    local := CompileBlueprintToRects(localRows);
  }

  /** A cell is in the shifted offset list exactly when the footprint covers it. */
  lemma OccupiedCellsAt(anchor: Cell, fp: Footprint)
    ensures forall c :: c in CellsAt(anchor, OccupiedOffsets(fp)) <==> Covers(fp, anchor, c)
  {
    var offs := OccupiedOffsets(fp);
    CellsAtMembers(anchor, offs);
    forall c ensures c in CellsAt(anchor, offs) <==> Covers(fp, anchor, c) {
      var d := Offset(c.x - anchor.x, c.y - anchor.y);
      OffsetMember(fp, d);
      assert Covers(fp, anchor, c) == Occupied(fp, d.dx + GetFootprintOrigin(fp).x, d.dy + GetFootprintOrigin(fp).y);
      assert c in CellsAt(anchor, offs) <==> d in offs;
    }
  }

  /** One offset is listed exactly when the cell it names from the origin is occupied. */
  lemma OffsetMember(fp: Footprint, d: Offset)
    ensures d in OccupiedOffsets(fp) <==> Occupied(fp, d.dx + GetFootprintOrigin(fp).x, d.dy + GetFootprintOrigin(fp).y)
  {
    OccupiedOffsetsMembers(fp);
  }

  /** A cell is listed exactly when its offset from the anchor is. */
  lemma CellsAtMembers(anchor: Cell, offs: seq<Offset>)
    ensures forall c :: c in CellsAt(anchor, offs) <==> Offset(c.x - anchor.x, c.y - anchor.y) in offs
  {
    var cells := CellsAt(anchor, offs);
    forall c ensures c in cells <==> Offset(c.x - anchor.x, c.y - anchor.y) in offs {
      var d := Offset(c.x - anchor.x, c.y - anchor.y);
      if c in cells {
        var i :| 0 <= i < |cells| && cells[i] == c;
        assert offs[i] == d;
      }
      if d in offs {
        var i :| 0 <= i < |offs| && offs[i] == d;
        assert cells[i] == c;
      }
    }
  }

  /** The axis-aligned world box handed to the region query. */
  datatype Region = Region(minX: real, minY: real, maxX: real, maxY: real)

  /** Lines 80-90: the rectangle's world box shrunk by half a pixel on every side. */
  function ShrunkRegion(rect: PlacedRect): (r: Region)
    ensures r.maxX - r.minX == rect.worldW - 1.0 && r.maxY - r.minY == rect.worldH - 1.0
    ensures r.minX + r.maxX == 2.0 * rect.worldX && r.minY + r.maxY == 2.0 * rect.worldY
  {
    var eps := 0.5;
    Region(rect.worldX - rect.worldW / 2.0 + eps, rect.worldY - rect.worldH / 2.0 + eps,
           rect.worldX + rect.worldW / 2.0 - eps, rect.worldY + rect.worldH / 2.0 - eps)
  }

  /** Line 92: some hit body is not the ground. */
  predicate Blocking(hits: seq<Body>)
  {
    exists i :: 0 <= i < |hits| && !IsGroundBody(hits[i])
  }

  /** Line 75: the cell's bottom edge is at or above the ground's top. */
  predicate AboveGround(grid: GridSpec, c: Cell, groundTopY: real)
  {
    CellCenter(grid, c).y + grid.cellSize / 2.0 <= groundTopY
  }

  /** Lines 70-76: the checks on one cell. */
  predicate CellPlaceable(grid: GridSpec, occupiedMap: map<Cell, Occupant>, groundTopY: real, c: Cell)
    requires grid.cellSize != 0.0
  {
    InGrid(grid, c) && c !in occupiedMap && AboveGround(grid, c, groundTopY)
  }

  /** Lines 52-97: every occupied cell is on the grid, free and above the ground, and no
      shrunken rectangle overlaps anything but the ground. */
  predicate Placeable(grid: GridSpec, occupiedCells: seq<Cell>, occupiedMap: map<Cell, Occupant>,
                      bodies: seq<Body>, groundTopY: real, placedRects: seq<PlacedRect>,
                      query: (seq<Body>, Region) -> seq<Body>)
    requires grid.cellSize != 0.0
  {
    (forall i :: 0 <= i < |occupiedCells| ==> CellPlaceable(grid, occupiedMap, groundTopY, occupiedCells[i])) &&
    (forall j :: 0 <= j < |placedRects| ==> !Blocking(query(bodies, ShrunkRegion(placedRects[j]))))
  }

  /** Lines 52-97: the cells are checked first and the rectangles after; the answer is
      false as soon as one check fails. The answer is true exactly when every cell lies on
      the grid, is unoccupied and ends at or above the ground, and no shrunken rectangle
      hits a body other than the ground. */
  method CanPlace(grid: GridSpec, occupiedCells: seq<Cell>, occupiedMap: map<Cell, Occupant>,
                  bodies: seq<Body>, groundTopY: real, placedRects: seq<PlacedRect>,
                  query: (seq<Body>, Region) -> seq<Body>)
    returns (ok: bool)
    requires grid.cellSize != 0.0
    ensures ok == Placeable(grid, occupiedCells, occupiedMap, bodies, groundTopY, placedRects, query)
    ensures ok ==> forall c :: c in occupiedCells ==> InGrid(grid, c) && c !in occupiedMap
    ensures (exists c :: c in occupiedCells && !InGrid(grid, c)) ==> !ok
    ensures (exists c :: c in occupiedCells && c in occupiedMap) ==> !ok
    ensures (exists c :: c in occupiedCells && !AboveGround(grid, c, groundTopY)) ==> !ok
  {
    var cols := GetGridCols(grid);
    var rows := GetGridRows(grid);
    var i := 0;
    while i < |occupiedCells|
      invariant 0 <= i <= |occupiedCells|
      invariant forall k :: 0 <= k < i ==> CellPlaceable(grid, occupiedMap, groundTopY, occupiedCells[k])
    {
      var cell := occupiedCells[i];
      if cell.x < 0 || cell.y < 0 || cell.x >= cols || cell.y >= rows {
        return false;
      }
      if cell in occupiedMap {
        return false;
      }
      var center := CellCenter(grid, cell);
      if center.y + grid.cellSize / 2.0 > groundTopY {
        return false;
      }
      i := i + 1;
    }

    var j := 0;
    while j < |placedRects|
      invariant 0 <= j <= |placedRects|
      invariant forall k :: 0 <= k < j ==> !Blocking(query(bodies, ShrunkRegion(placedRects[k])))
    {
      var hits := query(bodies, ShrunkRegion(placedRects[j]));
      var blocking := HasNonGround(hits);
      if blocking {
        return false;
      }
      j := j + 1;
    }
    return true;
  }

  /** Line 92: `hits.some(b => !isGroundBody(b))`. */
  method HasNonGround(hits: seq<Body>) returns (found: bool)
    ensures found == Blocking(hits)
  {
    var k := 0;
    while k < |hits|
      invariant 0 <= k <= |hits|
      invariant forall m :: 0 <= m < k ==> IsGroundBody(hits[m])
    {
      if !IsGroundBody(hits[k]) {
        return true;
      }
      k := k + 1;
    }
    return false;
  }
}
