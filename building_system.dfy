/** Placing the selected piece where the player points (lib/systems/building-system.ts):
    a preview of the cells and rectangles the piece would take and whether it fits, and
    the commit that spawns the blocks and registers their cells. A missing engine is a
    null world; `Query.region` of the engine is the parameter `query`. */
module BuildingSystem {
  import opened Types
  import opened Constants
  import opened MatterTypes
  import opened Grid
  import opened CompileBlueprint
  import opened WorldifyRects
  import opened PlaceUtils
  import opened Registry
  import opened PiecePlacement
  import opened LevelSystem
  import opened PhysicsWorld
  import opened GameStore

  /** What the cursor would build: the anchor cell, the piece's cells and rectangles, and
      whether it may go there. */
  datatype Preview = Preview(anchorCell: Cell, occupiedCells: seq<Cell>, placedRects: seq<PlacedRect>, ok: bool)

  /** Line 15: the grid of the store's window. */
  function StoreGrid(width: real, height: real, cfg: GameConfig): (g: GridSpec)
    ensures g.cellSize == cfg.blockSize && g.width == width && g.height == height
    ensures g.originX == 0.0 && g.originY == 0.0
  {
    CreateGridSpec(width, height, cfg.blockSize)
  }

  /** What a preview at (worldX, worldY) says for the given window, selection, occupancy and
      bodies: the anchor is the cell under the point, the cells are the selected piece's
      footprint at the anchor, the rectangles are `local`, the compiled rows of that
      footprint, placed at the anchor; they cover exactly those cells in the selected
      material, and the preview is ok exactly when `canPlace` holds. */
  ghost predicate PreviewFacts(p: Preview, width: real, height: real, cfg: GameConfig, groundHeight: real,
                               pieceId: PieceId, rot: Rotation, material: Material,
                               occupied: map<Cell, Occupant>, bodies: seq<Body>, worldX: real, worldY: real,
                               query: (seq<Body>, Region) -> seq<Body>, local: seq<GridRect>)
  {
    var grid := StoreGrid(width, height, cfg);
    var fp := Rotated(Pieces(pieceId).footprint, rot);
    && cfg.blockSize > 0.0
    && p.anchorCell == WorldToCell(grid, Point(worldX, worldY))
    && p.occupiedCells == CellsAt(p.anchorCell, OccupiedOffsets(fp))
    && Compiled(LocalRows(fp, material), local)
    && p.placedRects == PlacedRects(grid, fp, p.anchorCell, local)
    && (forall c :: InPlaced(p.placedRects, c) <==> c in p.occupiedCells)
    && (forall i :: 0 <= i < |p.placedRects| ==> p.placedRects[i].rect.material == material)
    && p.ok == Placeable(grid, p.occupiedCells, occupied, bodies, height - groundHeight, p.placedRects, query)
  }

  /** Lines 10-36: without an engine there is no preview. Otherwise the anchor is the cell
      under the point; the cells and rectangles are those of the selected piece, rotation
      and material on that anchor; and the preview is ok exactly when the piece passes
      `canPlace` against the store's occupancy, the world's bodies and a ground whose top
      is `groundHeight` above the bottom of the window. An ok preview lies on the grid,
      on free cells, above the ground. */
  method GetPlacementPreviewAtWorld(world: World?, store: Store, worldX: real, worldY: real,
                                    query: (seq<Body>, Region) -> seq<Body>)
    returns (preview: Option<Preview>, ghost local: seq<GridRect>)
    requires store.config.blockSize > 0.0
    ensures world == null <==> preview.None?
    ensures preview.Some? ==>
              var p := preview.value;
              var grid := StoreGrid(store.width, store.height, store.config);
              var fp := Rotated(Pieces(store.selectedPieceId).footprint, store.selectedRotation);
              && p.anchorCell == WorldToCell(grid, Point(worldX, worldY))
              && p.occupiedCells == CellsAt(p.anchorCell, OccupiedOffsets(fp))
              && Compiled(LocalRows(fp, store.selectedMaterial), local)
              && p.placedRects == PlacedRects(grid, fp, p.anchorCell, local)
    ensures preview.Some? ==> CellsDisjoint(preview.value.placedRects)
    ensures preview.Some? ==>
              PreviewFacts(preview.value, store.width, store.height, store.config, store.groundHeight,
                           store.selectedPieceId, store.selectedRotation, store.selectedMaterial,
                           store.occupiedCells, world.bodies, worldX, worldY, query, local)
    ensures preview.Some? && preview.value.ok ==>
              var grid := StoreGrid(store.width, store.height, store.config);
              forall c :: c in preview.value.occupiedCells ==>
                InGrid(grid, c) && c !in store.occupiedCells && AboveGround(grid, c, store.height - store.groundHeight)
  {
    if world == null {
      return None, [];
    }
    var grid := CreateGridSpec(store.width, store.height, store.config.blockSize);
    var anchorCell := WorldToCell(grid, Point(worldX, worldY));
    var placement;
    placement, local := GetPiecePlacement(grid, store.selectedPieceId, store.selectedRotation,
                                          store.selectedMaterial, anchorCell);
    var ok := CanPlace(grid, placement.occupiedCells, store.occupiedCells, world.bodies,
                       store.height - store.groundHeight, placement.placedRects, query);
    preview := Some(Preview(anchorCell, placement.occupiedCells, placement.placedRects, ok));
    PreviewFactsIntro(preview.value, grid, store.width, store.height, store.config, store.groundHeight,
                      store.selectedPieceId, store.selectedRotation, store.selectedMaterial,
                      store.occupiedCells, world.bodies, worldX, worldY, query, local);
  }

  /** The facts a preview is built from, gathered into `PreviewFacts`. */
  lemma PreviewFactsIntro(p: Preview, grid: GridSpec, width: real, height: real, cfg: GameConfig, groundHeight: real,
                          pieceId: PieceId, rot: Rotation, material: Material,
                          occupied: map<Cell, Occupant>, bodies: seq<Body>, worldX: real, worldY: real,
                          query: (seq<Body>, Region) -> seq<Body>, local: seq<GridRect>)
    requires cfg.blockSize > 0.0 && grid == StoreGrid(width, height, cfg)
    requires p.anchorCell == WorldToCell(grid, Point(worldX, worldY))
    requires p.occupiedCells == CellsAt(p.anchorCell, OccupiedOffsets(Rotated(Pieces(pieceId).footprint, rot)))
    requires Compiled(LocalRows(Rotated(Pieces(pieceId).footprint, rot), material), local)
    requires p.placedRects == PlacedRects(grid, Rotated(Pieces(pieceId).footprint, rot), p.anchorCell, local)
    requires forall c :: InPlaced(p.placedRects, c) <==> c in p.occupiedCells
    requires forall i :: 0 <= i < |p.placedRects| ==> p.placedRects[i].rect.material == material
    requires p.ok == Placeable(grid, p.occupiedCells, occupied, bodies, height - groundHeight, p.placedRects, query)
    ensures PreviewFacts(p, width, height, cfg, groundHeight, pieceId, rot, material, occupied, bodies, worldX, worldY, query, local)
  {
  }

  /** Lines 38-71: without an engine, or when the preview at the point is not ok, nothing
      changes and the answer is false. Otherwise one block body per placed rectangle, with
      the current player's team filter and the rectangle's cells, is added to the world in
      order; every cell of the piece is occupied by the selected material and the current
      player; and the answer is true. A placement never overwrites an occupied cell, and
      every cell of a new block is occupied by its material and team. */
  method TryPlaceSelectedPieceAtWorld(world: World?, store: Store, worldX: real, worldY: real,
                                      query: (seq<Body>, Region) -> seq<Body>)
    returns (placed: bool, ghost preview: Preview, ghost local: seq<GridRect>)
    requires store.config.blockSize > 0.0
    requires world != null ==> world.Valid()
    modifies {world}`bodies, {world}`nextId, store`occupiedCells
    ensures world != null ==> world.Valid()
    ensures placed <==> world != null && preview.ok
    ensures world != null ==>
              PreviewFacts(preview, store.width, store.height, store.config, store.groundHeight,
                           store.selectedPieceId, store.selectedRotation, store.selectedMaterial,
                           old(store.occupiedCells), old(world.bodies), worldX, worldY, query, local)
    ensures !placed ==> store.occupiedCells == old(store.occupiedCells)
    ensures !placed && world != null ==> world.bodies == old(world.bodies) && world.nextId == old(world.nextId)
    ensures placed ==>
              world.bodies == old(world.bodies) + Stamped(TeamBlocks(preview.placedRects, store.currentPlayer, store.config), old(world.nextId))
    ensures placed ==> world.nextId == old(world.nextId) + |preview.placedRects|
    ensures placed ==>
              store.occupiedCells == old(store.occupiedCells) + map c | c in preview.occupiedCells :: Occupant(store.selectedMaterial, store.currentPlayer)
    ensures placed ==>
              forall c :: c in old(store.occupiedCells) ==> c in store.occupiedCells && store.occupiedCells[c] == old(store.occupiedCells)[c]
    ensures placed ==>
              forall i, c :: 0 <= i < |preview.placedRects| && c in preview.placedRects[i].gridCells ==>
                c in store.occupiedCells && store.occupiedCells[c] == Occupant(preview.placedRects[i].rect.material, store.currentPlayer)
  {
    if world == null {
      return false, Preview(Cell(0, 0), [], [], false), [];
    }
    var p;
    p, local := GetPlacementPreviewAtWorld(world, store, worldX, worldY, query);
    preview := p.value;
    if !p.value.ok {
      return false, preview, local;
    }
    CommitPlacement(world, store, p.value);
    placed := true;
  }

  /** Lines 46-69: one team block per placed rectangle is added to the world, and the
      piece's cells are occupied by the selected material and the current player. When the
      preview's cells were free, no occupied cell is overwritten. */
  method CommitPlacement(world: World, store: Store, p: Preview)
    requires world.Valid()
    requires forall c :: c in p.occupiedCells ==> c !in store.occupiedCells
    requires forall c :: InPlaced(p.placedRects, c) ==> c in p.occupiedCells
    requires forall i :: 0 <= i < |p.placedRects| ==> p.placedRects[i].rect.material == store.selectedMaterial
    modifies world`bodies, world`nextId, store`occupiedCells
    ensures world.Valid()
    ensures world.bodies == old(world.bodies) + Stamped(TeamBlocks(p.placedRects, store.currentPlayer, store.config), old(world.nextId))
    ensures world.nextId == old(world.nextId) + |p.placedRects|
    ensures store.occupiedCells == old(store.occupiedCells) + map c | c in p.occupiedCells :: Occupant(store.selectedMaterial, store.currentPlayer)
    ensures forall c :: c in old(store.occupiedCells) ==> c in store.occupiedCells && store.occupiedCells[c] == old(store.occupiedCells)[c]
    ensures forall i, c :: 0 <= i < |p.placedRects| && c in p.placedRects[i].gridCells ==>
              c in store.occupiedCells && store.occupiedCells[c] == Occupant(p.placedRects[i].rect.material, store.currentPlayer)
  {
    var bodies := SpawnTeamBlocks(p.placedRects, store.currentPlayer, store.config);
    world.AddAll(bodies);
    store.OccupyCells(p.occupiedCells, Occupant(store.selectedMaterial, store.currentPlayer));
  }
}
