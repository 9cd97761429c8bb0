/** Building the level (lib/systems/level-system.ts): the ground and one castle per team,
    each castle compiled from the castle blueprint, clamped onto the grid, spawned as
    block bodies and registered in the occupancy map. */
module LevelSystem {
  import opened Types
  import opened Constants
  import opened MatterTypes
  import opened Grid
  import opened BlueprintUtils
  import opened CompileBlueprint
  import opened TranslateBlueprint
  import opened WorldifyRects
  import opened SpawnRects
  import opened CastleBlueprint
  import opened PhysicsWorld
  import opened GameStore

  /** A row read backwards. */
  function Reverse(s: string): (r: string)
    ensures |r| == |s| && forall i :: 0 <= i < |s| ==> r[i] == s[|s| - 1 - i]
  {
    seq(|s|, i requires 0 <= i < |s| => s[|s| - 1 - i])
  }

  /** Line 86: every row reversed, which mirrors the blueprint left to right. */
  function MirrorRows(rows: seq<string>): (m: seq<string>)
    ensures |m| == |rows| && forall i :: 0 <= i < |rows| ==> m[i] == Reverse(rows[i])
  {
    seq(|rows|, i requires 0 <= i < |rows| => Reverse(rows[i]))
  }

  /** Mirroring twice gives the blueprint back. */
  lemma MirrorInvolution(rows: seq<string>)
    ensures MirrorRows(MirrorRows(rows)) == rows
  {
    var m := MirrorRows(MirrorRows(rows));
    forall i | 0 <= i < |rows| ensures m[i] == rows[i] {
      assert Reverse(Reverse(rows[i])) == rows[i];
    }
  }

  /** Lines 84-87: blue builds the mirrored blueprint, red the blueprint as it is. */
  function CastleRows(team: Team): (rows: seq<string>)
    ensures team == Red ==> rows == CASTLE_BLUEPRINT
    ensures team == Blue ==> rows == MirrorRows(CASTLE_BLUEPRINT)
  {
    if team == Blue then MirrorRows(CASTLE_BLUEPRINT) else CASTLE_BLUEPRINT
  }

  /** The castle blueprint is symmetric, so both teams build the same rows. */
  lemma CastleRowsSame(team: Team)
    ensures CastleRows(team) == CASTLE_BLUEPRINT
  {
    CastlePalindromic();
    var m := MirrorRows(CASTLE_BLUEPRINT);
    forall i | 0 <= i < |m| ensures m[i] == CASTLE_BLUEPRINT[i] {
      var row := CASTLE_BLUEPRINT[i];
      assert forall j :: 0 <= j < |row| ==> Reverse(row)[j] == row[j];
    }
  }

  /** Lines 98-101: the top-left index on one axis. A blueprint that fits is moved
      the least distance needed to lie fully on the grid; one that does not fit starts at 0. */
  function ClampTopLeft(unclamped: int, size: int, n: int): (t: int)
    ensures size <= n ==> 0 <= t <= n - size
    ensures size <= n && 0 <= unclamped <= n - size ==> t == unclamped
    ensures size <= n && unclamped < 0 ==> t == 0
    ensures size <= n && unclamped > n - size ==> t == n - size
    ensures size > n ==> t == 0
  {
    if size <= n then Max(0, Min(n - size, unclamped)) else 0
  }

  /** Where a castle goes: the grid and its top-left cell. */
  datatype CastleLayout = CastleLayout(grid: GridSpec, topLeftX: int, topLeftY: int)

  /** Lines 81-101: the anchor column is the rounded cell under `centerX`, the bottom row is
      the last full cell row above `groundY`; the blueprint's bottom-middle goes on the anchor
      and is then clamped onto the grid. */
  function Layout(width: real, height: real, cfg: GameConfig, centerX: real, groundY: real, rows: seq<string>)
    : (l: CastleLayout)
    requires cfg.blockSize > 0.0
    ensures l.grid == CreateGridSpec(width, height, cfg.blockSize)
    ensures var bpW := if |rows| == 0 then 0 else |rows[0]|;
      l.topLeftX == ClampTopLeft(JsRound(centerX / cfg.blockSize - 0.5) - bpW / 2, bpW, GetGridCols(l.grid))
    ensures l.topLeftY == ClampTopLeft((groundY / cfg.blockSize).Floor - 1 - (|rows| - 1), |rows|, GetGridRows(l.grid))
  {
    var grid := CreateGridSpec(width, height, cfg.blockSize);
    var bpH := |rows|;
    var bpW := if |rows| == 0 then 0 else |rows[0]|;
    var anchorXCell := JsRound(centerX / cfg.blockSize - 0.5);
    var anchorBottomYCell := (groundY / cfg.blockSize).Floor - 1;
    var cols := GetGridCols(grid);
    var gridRows := GetGridRows(grid);
    CastleLayout(grid, ClampTopLeft(anchorXCell - bpW / 2, bpW, cols),
                 ClampTopLeft(anchorBottomYCell - (bpH - 1), bpH, gridRows))
  }

  /** Lines 103-105: the compiled rectangles moved to the top-left cell, in world space. */
  function PlacedCastle(l: CastleLayout, local: seq<GridRect>): (ps: seq<PlacedRect>)
    ensures |ps| == |local|
  {
    Worldify(l.grid, TranslateRects(local, l.topLeftX, l.topLeftY))
  }

  /** Lines 110-124 (and lines 49-63 of lib/systems/building-system.ts): the block body of one
      placed rectangle, in its own material, with the team's filter. */
  function TeamBlock(p: PlacedRect, team: Team, cfg: GameConfig): (b: Body)
    ensures IsBlockBody(b) && b.team == Some(team) && b.filter == TeamCollision(team)
    ensures b.gridCells == p.gridCells && b.pos == Point(p.worldX, p.worldY)
    ensures b.health == b.maxHealth == MaxHealthOf(cfg, p.rect.material)
  {
    var m := p.rect.material;
    BlockRecord(p.worldX, p.worldY, p.worldW, p.worldH, m, team, cfg, TeamCollision(team), p.gridCells)
      .(stoneTexture := if m == Stone then StoneTexture(p.worldX, p.worldY, p.worldW, p.worldH) else [])
  }

  function TeamBlocks(ps: seq<PlacedRect>, team: Team, cfg: GameConfig): (bs: seq<Body>)
    ensures |bs| == |ps| && forall i :: 0 <= i < |ps| ==> bs[i] == TeamBlock(ps[i], team, cfg)
  {
    seq(|ps|, i requires 0 <= i < |ps| => TeamBlock(ps[i], team, cfg))
  }

  /** Lines 67-79: a soldier of the team standing at `pos`. */
  function Soldier(pos: Point, team: Team, cfg: GameConfig): (b: Body)
    ensures IsSoldierBody(b) && b.team == Some(team) && b.filter == TeamCollision(team) && b.pos == pos
  {
    Body(0, "soldier", Some(team), 0.0, 0.0, [], TeamCollision(team), pos, Point(0.0, 0.0),
         CircleShape(cfg.soldierRadius), Surface(false, 0.5, 0.2, 0.005), [])
  }

  /** Lines 126-131: one soldier per spawn cell, at the centre of the moved cell. */
  function CastleSoldiers(l: CastleLayout, spawns: seq<Cell>, team: Team, cfg: GameConfig): (bs: seq<Body>)
    ensures |bs| == |spawns|
    ensures forall i :: 0 <= i < |spawns| ==>
              bs[i] == Soldier(CellCenter(l.grid, Cell(l.topLeftX + spawns[i].x, l.topLeftY + spawns[i].y)), team, cfg)
  {
    seq(|spawns|, i requires 0 <= i < |spawns| =>
      Soldier(CellCenter(l.grid, Cell(l.topLeftX + spawns[i].x, l.topLeftY + spawns[i].y)), team, cfg))
  }

  /** Line 135: one rectangle's cells occupied by its material and the team. */
  function Mark(m: map<Cell, Occupant>, p: PlacedRect, team: Team): (r: map<Cell, Occupant>)
    ensures forall c :: c in p.gridCells ==> c in r && r[c] == Occupant(p.rect.material, team)
    ensures forall c :: c !in p.gridCells ==> (c in r <==> c in m) && (c in m ==> r[c] == m[c])
  {
    m + map c | c in p.gridCells :: Occupant(p.rect.material, team)
  }

  /** Lines 133-137: the occupancy after marking each rectangle's cells in turn. */
  function RectsOccupancy(m: map<Cell, Occupant>, ps: seq<PlacedRect>, team: Team): map<Cell, Occupant>
  {
    if ps == [] then m else Mark(RectsOccupancy(m, ps[..|ps| - 1], team), ps[|ps| - 1], team)
  }

  /** When no cell is listed twice, every listed cell ends up holding its own rectangle's
      material and the team, and every other cell keeps what it had. */
  lemma {:induction false} RectsOccupancyFacts(m: map<Cell, Occupant>, ps: seq<PlacedRect>, team: Team)
    requires CellsDisjoint(ps)
    ensures forall i, c :: 0 <= i < |ps| && c in ps[i].gridCells ==>
              c in RectsOccupancy(m, ps, team) && RectsOccupancy(m, ps, team)[c] == Occupant(ps[i].rect.material, team)
    ensures forall c :: (forall i :: 0 <= i < |ps| ==> c !in ps[i].gridCells) ==>
              (c in RectsOccupancy(m, ps, team) <==> c in m) &&
              (c in m ==> RectsOccupancy(m, ps, team)[c] == m[c])
  {
    if ps != [] {
      var init := ps[..|ps| - 1];
      var last := ps[|ps| - 1];
      assert CellsDisjoint(init) by {
        forall i, j, c | 0 <= i < j < |init| && c in init[i].gridCells ensures c !in init[j].gridCells {
          assert init[i] == ps[i] && init[j] == ps[j];
        }
      }
      RectsOccupancyFacts(m, init, team);
      var prev := RectsOccupancy(m, init, team);
      assert RectsOccupancy(m, ps, team) == Mark(prev, last, team);
      forall i, c | 0 <= i < |ps| && c in ps[i].gridCells
        ensures c in Mark(prev, last, team) && Mark(prev, last, team)[c] == Occupant(ps[i].rect.material, team)
      {
        if i < |ps| - 1 {
          assert init[i] == ps[i];
          assert c !in last.gridCells;
        }
      }
      forall c | forall i :: 0 <= i < |ps| ==> c !in ps[i].gridCells
        ensures (c in Mark(prev, last, team) <==> c in m) && (c in m ==> Mark(prev, last, team)[c] == m[c])
      {
        assert c !in last.gridCells;
        forall i | 0 <= i < |init| ensures c !in init[i].gridCells {
          assert init[i] == ps[i];
        }
      }
    }
  }

  /** Lines 111-123: the block body of one placed rectangle, from the body factory. */
  method SpawnTeamBlock(r: PlacedRect, team: Team, cfg: GameConfig) returns (body: Body)
    ensures body == TeamBlock(r, team, cfg)
  {
    body := SpawnRectBody(r.worldX, r.worldY, r.worldW, r.worldH, r.rect.material, team, cfg, TeamCollision(team), r.gridCells);
  }

  /** Lines 110-124 as the loop: one block body per placed rectangle, in order. */
  method SpawnTeamBlocks(ps: seq<PlacedRect>, team: Team, cfg: GameConfig) returns (bodies: seq<Body>)
    ensures bodies == TeamBlocks(ps, team, cfg)
  {
    bodies := [];
    var i := 0;
    while i < |ps|
      invariant 0 <= i <= |ps|
      invariant |bodies| == i && forall k :: 0 <= k < i ==> bodies[k] == TeamBlock(ps[k], team, cfg)
    {
      var body := SpawnTeamBlock(ps[i], team, cfg);
      bodies := bodies + [body];
      i := i + 1;
    }
  }

  /** Lines 126-131 as the loop: one soldier per spawn cell, in order. */
  method SpawnCastleSoldiers(l: CastleLayout, spawns: seq<Cell>, team: Team, cfg: GameConfig)
    returns (bodies: seq<Body>)
    ensures bodies == CastleSoldiers(l, spawns, team, cfg)
  {
    bodies := [];
    var i := 0;
    while i < |spawns|
      invariant 0 <= i <= |spawns|
      invariant bodies == CastleSoldiers(l, spawns[..i], team, cfg)
    {
      var spawn := spawns[i];
      var cell := Cell(l.topLeftX + spawn.x, l.topLeftY + spawn.y);
      var pos := CellCenter(l.grid, cell);
      var soldier := Soldier(pos, team, cfg);
      assert CastleSoldiers(l, spawns[..i + 1], team, cfg) == CastleSoldiers(l, spawns[..i], team, cfg) + [soldier];
      bodies := bodies + [soldier];
      i := i + 1;
    }
    assert spawns[..i] == spawns;
  }

  /** Lines 133-137 as the loop: each rectangle's cells are occupied in turn. */
  method OccupyRects(store: Store, ps: seq<PlacedRect>, team: Team)
    modifies store`occupiedCells
    ensures store.occupiedCells == RectsOccupancy(old(store.occupiedCells), ps, team)
  {
    var i := 0;
    while i < |ps|
      invariant 0 <= i <= |ps|
      invariant store.occupiedCells == RectsOccupancy(old(store.occupiedCells), ps[..i], team)
    {
      var r := ps[i];
      store.OccupyCells(r.gridCells, Occupant(r.rect.material, team));
      assert ps[..i + 1][..i] == ps[..i];
      i := i + 1;
    }
    assert ps[..i] == ps;
  }

  /** All bodies of a castle: its blocks, then its soldiers. */
  function CastleBodies(l: CastleLayout, local: seq<GridRect>, rows: seq<string>, team: Team, cfg: GameConfig)
    : (bs: seq<Body>)
    ensures |bs| == |local| + |SoldierSpawnCells(rows)|
  {
    TeamBlocks(PlacedCastle(l, local), team, cfg) + CastleSoldiers(l, SoldierSpawnCells(rows), team, cfg)
  }

  /** Lines 81-139 for given blueprint rows: the rows are compiled into rectangles (the
      partition the greedy row-major scan cuts from the normalised rows), moved to the clamped top-left cell `l`; one block body per rectangle and
      one soldier per spawn cell are added to the world in a single batch, and every cell of
      every rectangle is occupied by its material and the team. */
  method BuildFromRows(world: World, store: Store, rows: seq<string>, centerX: real, groundY: real, team: Team)
    returns (ghost l: CastleLayout, ghost local: seq<GridRect>)
    requires world.Valid()
    requires store.config.blockSize > 0.0
    modifies world`bodies, world`nextId, store`occupiedCells
    ensures l == Layout(store.width, store.height, store.config, centerX, groundY, rows)
    ensures Compiled(NormalizeBlueprintRows(rows), local)
    ensures world.Valid()
    ensures world.bodies == old(world.bodies) + Stamped(CastleBodies(l, local, rows, team, store.config), old(world.nextId))
    ensures world.nextId == old(world.nextId) + |CastleBodies(l, local, rows, team, store.config)|
    ensures store.occupiedCells == RectsOccupancy(old(store.occupiedCells), PlacedCastle(l, local), team)
  {
    var config := store.config;
    var layout := Layout(store.width, store.height, config, centerX, groundY, rows);
    l := layout;
    var rectsLocal := CompileBlueprintToRects(rows);
    local := rectsLocal;
    var rectsGlobal := TranslateRects(rectsLocal, layout.topLeftX, layout.topLeftY);
    var placedRects := WorldifyRectsOf(layout.grid, rectsGlobal);
    var blocks := SpawnTeamBlocks(placedRects, team, config);
    var localSpawns := SoldierSpawnCells(rows);
    var soldiers := SpawnCastleSoldiers(layout, localSpawns, team, config);
    OccupyRects(store, placedRects, team);
    world.AddAll(blocks + soldiers);
  }

  /** Rows without spawn markers build blocks only: one block body per rectangle. */
  lemma BlocksOnly(l: CastleLayout, local: seq<GridRect>, rows: seq<string>, team: Team, cfg: GameConfig)
    requires SoldierSpawnCells(rows) == []
    ensures CastleBodies(l, local, rows, team, cfg) == TeamBlocks(PlacedCastle(l, local), team, cfg)
  {
    assert CastleSoldiers(l, [], team, cfg) == [];
  }

  /** A castle of `team` built around `centerX` on `groundY` in a window of `width` by `height`:
      `l` is its clamped layout, `local` is the castle blueprint as compiled, the bodies grow by one
      block per rectangle with ids from `firstId` on, and the occupancy marks every rectangle. */
  ghost predicate CastleBuilt(width: real, height: real, cfg: GameConfig, centerX: real, groundY: real, team: Team,
                              bodies: seq<Body>, firstId: nat, occupancy: map<Cell, Occupant>,
                              l: CastleLayout, local: seq<GridRect>, bodies': seq<Body>, occupancy': map<Cell, Occupant>)
    requires cfg.blockSize > 0.0
  {
    l == Layout(width, height, cfg, centerX, groundY, CASTLE_BLUEPRINT) &&
    Compiled(CASTLE_BLUEPRINT, local) &&
    bodies' == bodies + Stamped(TeamBlocks(PlacedCastle(l, local), team, cfg), firstId) &&
    occupancy' == RectsOccupancy(occupancy, PlacedCastle(l, local), team)
  }

  /** Lines 59-140: without an engine nothing happens. Otherwise the team's castle rows (the
      blueprint, mirrored for blue, which is the same blueprint) are built around `centerX` on
      `groundY`: the castle has no spawn marker, so it is one block body per rectangle. That
      no soldier is built rests on reading `getSoldierSpawnCells`, which
      lib/building/blueprint-utils.ts imports but does not define, as the positions of 'p'
      (`SoldierSpawnCells`); the source of that helper is not part of this model. */
  method BuildCastle(world: World?, store: Store, centerX: real, groundY: real, team: Team)
    returns (ghost l: CastleLayout, ghost local: seq<GridRect>)
    requires world != null ==> world.Valid()
    requires store.config.blockSize > 0.0
    modifies {world}`bodies, {world}`nextId, store`occupiedCells
    ensures world == null ==> store.occupiedCells == old(store.occupiedCells)
    ensures world != null ==> world.Valid() && world.nextId == old(world.nextId) + |local|
    ensures world != null ==>
      CastleBuilt(store.width, store.height, store.config, centerX, groundY, team,
                  old(world.bodies), old(world.nextId), old(store.occupiedCells), l, local, world.bodies, store.occupiedCells)
  {
    if world == null {
      return CastleLayout(CreateGridSpec(0.0, 0.0, 1.0), 0, 0), [];
    }
    var bpRows := CastleRows(team);
    CastleRowsSame(team);
    CastleNormalized();
    CastleHasNoSpawnMarkers();
    l, local := BuildFromRows(world, store, bpRows, centerX, groundY, team);
    BlocksOnly(l, local, bpRows, team, store.config);
  }

  /** Non-overlapping rectangles are still non-overlapping once moved and placed; with
      `RectsOccupancyFacts` this says that every cell of a built castle holds the block that
      covers it, and that no other cell changes. */
  lemma PlacedCastleDisjoint(l: CastleLayout, local: seq<GridRect>)
    requires Disjoint(local)
    ensures CellsDisjoint(PlacedCastle(l, local))
  {
    TranslateDisjoint(local, l.topLeftX, l.topLeftY);
    WorldifyDisjoint(l.grid, TranslateRects(local, l.topLeftX, l.topLeftY));
  }

  /** Line 51: `Math.min(260, width * 0.15)`. */
  function Padding(width: real): (p: real)
    ensures p <= 260.0 && p <= width * 0.15
    ensures p == 260.0 || p == width * 0.15
  {
    if 260.0 < width * 0.15 then 260.0 else width * 0.15
  }

  /** Lines 34-47: the static ground strip along the bottom of the window; it collides with
      everything. */
  function Ground(width: real, height: real, groundHeight: real): (b: Body)
    ensures IsGroundBody(b) && b.surface.isStatic
    ensures b.pos == Point(width / 2.0, height - groundHeight / 2.0) && b.shape == RectShape(width, groundHeight)
    ensures b.filter == CollisionFilter(CatBit(Category.Ground), ALL_BITS)
  {
    Body(0, "ground", None, 0.0, 0.0, [], CollisionFilter(CatBit(Category.Ground), ALL_BITS),
         Point(width / 2.0, height - groundHeight / 2.0), Point(0.0, 0.0), RectShape(width, groundHeight),
         Surface(true, 0.9, 0.0, 0.001), [])
  }

  /** What a level reset did, step by step: the window and configuration it read, the id of
      the first castle block, the bodies after the ground, and for each castle its centre, its
      layout, its compiled rectangles, and the bodies and occupancy it started from. */
  datatype LevelTrace = LevelTrace(
    width: real, height: real, groundHeight: real, config: GameConfig, groundY: real,
    afterGround: seq<Body>,
    redX: real, redFirstId: nat, red: CastleLayout, redLocal: seq<GridRect>,
    afterRed: seq<Body>, redOccupancy: map<Cell, Occupant>,
    blueX: real, blueFirstId: nat, blue: CastleLayout, blueLocal: seq<GridRect>)

  /** Lines 24-54: without an engine nothing happens. Otherwise the world and the occupancy
      are cleared first; then the ground is added, then the red castle around x = padding and
      the blue castle around x = width - padding, both standing on the ground's top, in that
      order and with consecutive ids. */
  method ResetLevel(world: World?, store: Store) returns (ghost t: LevelTrace)
    requires world != null ==> world.Valid()
    requires store.config.blockSize > 0.0
    modifies {world}`bodies, {world}`nextId, store`occupiedCells
    ensures world == null ==> store.occupiedCells == old(store.occupiedCells)
    ensures world != null ==> world.Valid()
    ensures world != null ==>
      t.width == old(store.width) && t.height == old(store.height) && t.groundHeight == old(store.groundHeight) &&
      t.config == old(store.config) && t.groundY == t.height - t.groundHeight
    ensures world != null ==>
      t.afterGround == [Ground(t.width, t.height, t.groundHeight).(id := old(world.nextId))] &&
      t.redFirstId == old(world.nextId) + 1 && t.blueFirstId == t.redFirstId + |t.redLocal|
    ensures world != null ==> t.redX == Padding(t.width) && t.blueX == t.width - Padding(t.width)
    ensures world != null ==> t.config.blockSize > 0.0
    ensures world != null ==>
      CastleBuilt(t.width, t.height, t.config, t.redX, t.groundY, Red,
                  t.afterGround, t.redFirstId, map[], t.red, t.redLocal, t.afterRed, t.redOccupancy) &&
      CastleBuilt(t.width, t.height, t.config, t.blueX, t.groundY, Blue,
                  t.afterRed, t.blueFirstId, t.redOccupancy, t.blue, t.blueLocal, world.bodies, store.occupiedCells)
  {
    if world == null {
      var none := CastleLayout(CreateGridSpec(0.0, 0.0, 1.0), 0, 0);
      return LevelTrace(0.0, 0.0, 0.0, store.config, 0.0, [], 0.0, 0, none, [], [], map[], 0.0, 0, none, []);
    }
    world.Clear();
    store.SetOccupiedCells(map[]);
    var ground := Ground(store.width, store.height, store.groundHeight);
    var _ := world.Add(ground);
    var padding := Padding(store.width);
    var groundY := store.height - store.groundHeight;
    ghost var afterGround, redFirstId := world.bodies, world.nextId;
    var redX := padding;
    var red, redLocal := BuildCastle(world, store, redX, groundY, Red);
    ghost var afterRed, redOccupancy, blueFirstId := world.bodies, store.occupiedCells, world.nextId;
    var blueX := store.width - padding;
    var blue, blueLocal := BuildCastle(world, store, blueX, groundY, Blue);
    t := LevelTrace(store.width, store.height, store.groundHeight, store.config, groundY, afterGround,
                    redX, redFirstId, red, redLocal, afterRed, redOccupancy, blueX, blueFirstId, blue, blueLocal);
  }

  /** The position of the first ground body, if any. */
  function FirstGround(bs: seq<Body>): (k: Option<nat>)
    ensures k.Some? ==> k.value < |bs| && IsGroundBody(bs[k.value])
    ensures k.Some? ==> forall j :: 0 <= j < k.value ==> !IsGroundBody(bs[j])
    ensures k.None? ==> forall j :: 0 <= j < |bs| ==> !IsGroundBody(bs[j])
  {
    if |bs| == 0 then None
    else if IsGroundBody(bs[0]) then Some(0)
    else match FirstGround(bs[1..])
      case None => None
      case Some(k) => Some(k + 1)
  }

  /** Lines 145-157: without an engine nothing happens. Otherwise the first ground body, if
      there is one, is moved so that it is centred across the new width and its bottom lies on
      the new bottom of the window; every other body, and the ground's size, stay as they are. */
  method UpdateGroundPosition(world: World?, store: Store, width: real, height: real)
    requires world != null ==> world.Valid()
    modifies {world}`bodies
    ensures world != null ==> world.Valid() && world.nextId == old(world.nextId)
    ensures world != null ==> |world.bodies| == |old(world.bodies)|
    ensures world != null && FirstGround(old(world.bodies)).None? ==> world.bodies == old(world.bodies)
    ensures world != null && FirstGround(old(world.bodies)).Some? ==>
              var k := FirstGround(old(world.bodies)).value;
              world.bodies[k] == old(world.bodies)[k].(pos := Point(width / 2.0, height - store.groundHeight / 2.0)) &&
              forall j :: 0 <= j < |world.bodies| && j != k ==> world.bodies[j] == old(world.bodies)[j]
  {
    if world == null {
      return;
    }
    var found := FirstGround(world.bodies);
    if found.Some? {
      var k := found.value;
      var ground := world.bodies[k];
      world.bodies := world.bodies[k := ground.(pos := Point(width / 2.0, height - store.groundHeight / 2.0))];
    }
  }
}
