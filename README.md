# castle-wars: a verified model of the building and physics core

castle-wars is a two-team artillery game. Each team has a castle built from
blocks of wood, steel, stone and glass. Players fire projectiles at the other
castle and place new pieces on a cell grid. This project models the game's
core in Dafny:

- **Blueprint pipeline.** Text is turned into blueprint rows, and rows are
  normalised to one width. A greedy scan compiles the rows into rectangles of
  one material each. The rectangles are translated onto the grid, placed in
  world space, and turned into block bodies with team collision filters.
- **Grid.** Cell counts, cell centres, the world-to-cell map and clamping.
- **Pieces.** Footprints are rotated by quarter turns and anchored at an
  origin. A piece is placed at a cell and checked against the grid, the
  occupancy map, the ground and the bodies already in the world.
- **Systems.**
  - Level reset: the ground plus two mirrored castles, and the occupancy map.
  - Building: the placement preview and the commit.
  - Collision damage.
  - Projectile firing, with its speed cap and the turn switch.
  - Physics stepping and removal of destroyed blocks.
- **Stores.** The game store (input, turn, floating texts, configuration,
  occupancy) and the blueprint editor's store (painting, spawns, selection,
  moving a selection, the centred castle template, export to rows).

## How the model is built

One Dafny module per source file. Stores and the physics world are classes.
Their methods update fields named in `modifies` clauses. Pure code is
written as functions, each with lemmas about it. Loops in the source are
`method`s with loop invariants. Each such method is proved equal to a
specification function, and the lemmas about that function carry the
properties.

Modelling choices:

- **Missing engine.** A missing physics engine is a `null` world.
- **Engine internals as parameters.** The engine's step, `Query.region` and
  `Math.hypot` are function parameters. `Math.hypot` comes with the
  requirement that it is a Euclidean norm. The random draws of a damage text
  are a `Jitter` parameter.
- **Body ids.** Bodies are records. The world assigns each added body a
  fresh id, which stands for the engine's object identity.
- **Cell keys.** The editor's `"x,y"` keys are `Cell` values; `keyOf` is
  one-to-one on integers. The editor's move lists are a map and a set,
  because their order never affects a result.
- **Numbers.** Coordinates are `real`, cells are `int`, collision words
  are `bv32`.
- **Ground height.** The ground's height is read as `config.groundHeight`
  in lib/systems/level-system.ts:36 and lib/systems/building-system.ts:31,
  but `GameConfig` and `CONFIG` in lib/constants.ts do not declare it. The
  model keeps it as a separate field, `GameStore.Store.groundHeight`.
- **Store fields from outside.** The game store's `occupiedCells`,
  `selectedPieceId`, `selectedRotation` and `selectedMaterial` are read
  and written by the systems, but store/game-store.ts does not declare
  them. They are fields of `GameStore.Store`, and `setOccupiedCells` and
  `occupyCells` are methods of that class.
- **Spawn cells.** `getSoldierSpawnCells` is imported from
  lib/building/blueprint-utils.ts, but that file does not define it. It is
  modelled as the positions of the spawn marker `p`, row by row. That is the
  marker the editor writes and reads back.

## Model

| member | source | states |
|---|---|---|
| BlueprintUtils.TokenToMaterial | lib/building/blueprint-utils.ts:5-19 | a token stands for a material exactly when it is one of w, t, s, g, each naming its own material; every other token is empty |
| BlueprintUtils.MaxRowLength | lib/building/blueprint-utils.ts:22 | the width is at least every row's length and equals some row's length; 0 for no rows |
| BlueprintUtils.PadEnd | lib/building/blueprint-utils.ts:23 | a padded row keeps the row as a prefix, is filled with the pad after it and is as long as the width (a longer row is unchanged) |
| BlueprintUtils.NormalizeBlueprintRows | lib/building/blueprint-utils.ts:21-24 | same number of rows, each as long as the longest row, each starting with its original row and filled with '-' |
| BlueprintUtils.NormalizeIdempotent | lib/building/blueprint-utils.ts:21-24 | normalising twice is normalising once |
| BlueprintUtils.NormalizeUniformRows | lib/building/blueprint-utils.ts:21-24 | rows already of one length are left unchanged |
| BlueprintUtils.SoldierSpawnCells | lib/systems/level-system.ts:126 | a cell is a spawn cell exactly when it lies in the blueprint and holds 'p' |
| MaterialUtils.MaterialToToken | lib/building/material-utils.ts:4-15 | a material's token is a material token, never the empty one, and reads back as that material |
| MaterialUtils.EmptyToken | lib/building/material-utils.ts:17 | the empty token is '-' and stands for no material |
| MaterialUtils.TokenRoundTrip | lib/building/material-utils.ts:4-15 | reading a material token and writing it back gives the same token |
| MaterialUtils.MaterialToTokenInjective | lib/building/material-utils.ts:4-15 | different materials get different tokens |
| TranslateBlueprint.TranslateRects | lib/building/translate-blueprint.ts:3-4 | one rectangle per input rectangle, in order, moved by (dx, dy), with size and material kept |
| TranslateBlueprint.TranslateCovers | lib/building/translate-blueprint.ts:3-4 | a moved rectangle covers a cell exactly when the original covers the cell moved back |
| TranslateBlueprint.TranslateIdentity | lib/building/translate-blueprint.ts:3-4 | moving by (0, 0) changes nothing |
| TranslateBlueprint.TranslateCompose | lib/building/translate-blueprint.ts:3-4 | two moves in a row are one move by the sum |
| TranslateBlueprint.TranslateInverse | lib/building/translate-blueprint.ts:3-4 | moving back by (-dx, -dy) undoes a move |
| TranslateBlueprint.TranslateDisjoint | lib/building/translate-blueprint.ts:3-4 | moved rectangles that did not overlap still do not overlap |
| Registry.MaterialLabel | lib/building/registry.ts:3-9 | each material's body label (wood is "block"); every label is a block label |
| Registry.MaterialLabelInjective | lib/building/registry.ts:3-9 | different materials get different labels |
| Registry.Pieces | lib/building/registry.ts:11-27 | the catalogue entry of each piece id carries that id, its title and its footprint, and the footprint is rectangular |
| Registry.BeamTurnsIntoPillar | lib/building/registry.ts:17-26 | a quarter turn of the 3x1 beam is the 1x3 pillar |
| CastleBlueprint.CastleShape | lib/building/blueprints/castle-blueprint.ts:7-24 | the castle is 14 rows of 17 tokens |
| CastleBlueprint.CastleNormalized | lib/building/blueprints/castle-blueprint.ts:7-24 | normalising the castle changes nothing |
| CastleBlueprint.CastleAlphabet | lib/building/blueprints/castle-blueprint.ts:7-24 | only '-', w, t, s and g occur in the castle |
| CastleBlueprint.CastleHasNoSpawnMarkers | lib/building/blueprints/castle-blueprint.ts:7-24 | the castle has no 'p' marker, so it yields no spawn cells |
| CastleBlueprint.CastlePalindromic | lib/building/blueprints/castle-blueprint.ts:7-24 | every row reads the same backwards |
| CastleBlueprint.SpawnsOnEmptyCells | lib/building/blueprints/castle-blueprint.ts:28-32 | each listed soldier spawn lies inside the castle on an empty cell |
| BlueprintText.ReplaceCrLf | lib/building/blueprint-text.ts:12 | the text with every CR that directly precedes an LF deleted (`CrLfDropped`, a character-by-character filter); no character other than LF is added |
| BlueprintText.ReplaceCrLfNoCr | lib/building/blueprint-text.ts:12 | a text without CR is unchanged |
| BlueprintText.ReplaceCrLfSinglePass | lib/building/blueprint-text.ts:12 | one pass, no rescan: "\r\r\n" becomes "\r\n" |
| BlueprintText.ReplaceCr | lib/building/blueprint-text.ts:12 | same length, every CR becomes LF, nothing else changes and no CR remains |
| BlueprintText.SplitLines | lib/building/blueprint-text.ts:13 | at least one line; no line holds a line feed or a character absent from the text; the lines joined by LF (`JoinLines`, `join("\n")`) give the text back |
| BlueprintText.SplitNoBreak | lib/building/blueprint-text.ts:13 | a text without LF splits into itself alone |
| BlueprintText.SplitPrefix | lib/building/blueprint-text.ts:13 | a piece without LF followed by LF is split off as the first line |
| BlueprintText.SplitJoin | lib/building/blueprint-text.ts:13 | splitting undoes joining: lines without LF come back from their join |
| BlueprintText.LeadingBlankCount | lib/building/blueprint-text.ts:6 | the leading blank lines, up to the first non-blank one |
| BlueprintText.TrimmedEnd | lib/building/blueprint-text.ts:7 | the end of the block once its trailing blank lines are dropped, stopping at the last non-blank line |
| BlueprintText.TrimEdges | lib/building/blueprint-text.ts:3-9 | a contiguous slice of the lines that starts and ends with a non-blank line; empty exactly when every line is blank |
| BlueprintText.TrimEmptyEdges | lib/building/blueprint-text.ts:3-9 | the two loops compute that slice |
| BlueprintText.LeadingWhitespace | lib/building/blueprint-text.ts:23-24 | the length of the leading white-space run of a line |
| BlueprintText.MinIndent | lib/building/blueprint-text.ts:17-26 | none exactly when every line is blank; otherwise the smallest indentation of a non-blank line |
| BlueprintText.DropPrefix | lib/building/blueprint-text.ts:28 | `slice(k)`: the line is its first k characters followed by the result; empty when the line is shorter than k |
| BlueprintText.DropIndent | lib/building/blueprint-text.ts:28 | removing at most its indentation from a non-blank line removes only white space and leaves it non-blank |
| BlueprintText.DropBlank | lib/building/blueprint-text.ts:28 | a blank line stays blank |
| BlueprintText.NormalizedLines | lib/building/blueprint-text.ts:12-13 | at least one line, none holding CR or LF; joined by LF they give the text with CR LF and then CR replaced by LF |
| BlueprintText.NormalizedLinesNoCr | lib/building/blueprint-text.ts:12-13 | a text without CR is split on its line feeds as it stands |
| BlueprintText.CommonIndent | lib/building/blueprint-text.ts:18-26 | at most every non-blank line's indentation and equal to one of them when one exists |
| BlueprintText.Dedent | lib/building/blueprint-text.ts:16-28 | every line loses exactly the common indentation |
| BlueprintText.RowsFromText | lib/building/blueprint-text.ts:11-29 | one row per line of the edge-trimmed text |
| BlueprintText.BlueprintFromText | lib/building/blueprint-text.ts:31-33 | the blueprint's rows are the text's rows, none holding a line break |
| BlueprintText.RowsFromTextLineBreaks | lib/building/blueprint-text.ts:11-29 | no row contains CR or LF |
| BlueprintText.RowsFromTextShape | lib/building/blueprint-text.ts:11-29 | interior blank lines stay, blank exactly where the trimmed line is blank; the first and last rows are not blank |
| BlueprintText.RowsFromTextEmpty | lib/building/blueprint-text.ts:11-29 | no rows exactly when every line is blank; the empty text gives no rows |
| BlueprintText.RowsFromTextDedent | lib/building/blueprint-text.ts:16-28 | every non-blank row is its line minus a white-space prefix of the common length, and some row starts with a non-space |
| BlueprintText.RowsFromTextUnindented | lib/building/blueprint-text.ts:16-28 | if some non-blank line is unindented, the rows are the trimmed lines unchanged |
| Types.JsRound | lib/systems/level-system.ts:91 | `Math.round`: the integer within half of x, halves rounded up |
| Constants.DefaultConfig | lib/constants.ts:33-63 | the shipped tunables (block size 40, speed cap 50, damage threshold 4, healths 100/250/250/40, ...) |
| Constants.CatBit | lib/constants.ts:65-71 | each collision category is a single bit of the low five bits |
| Constants.CatBitsDisjoint | lib/constants.ts:65-71 | two categories share a bit exactly when they are the same category |
| Grid.CreateGridSpec | lib/grid/grid.ts:11-23 | the grid keeps the given size and cell size, with the origin defaulting to (0, 0) |
| Grid.CellCount | lib/grid/grid.ts:25-29 | at least 1; the floor of size over cell size when that is at least 1 |
| Grid.GetGridCols | lib/grid/grid.ts:25-26 | the column count, at least 1 |
| Grid.GetGridRows | lib/grid/grid.ts:28-29 | the row count, at least 1 |
| Grid.CellToWorldCenter | lib/grid/grid.ts:31-34 | the point lies (c + 0.5) cells from the origin on each axis |
| Grid.CellCenter | lib/grid/grid.ts:31-34 | the same for an integer cell |
| Grid.WorldToCell | lib/grid/grid.ts:36-39 | the cell's index range holds the point's offset from the origin in cell units |
| Grid.WorldToCellInterval | lib/grid/grid.ts:36-39 | a point maps to cell c exactly when it lies in c's half-open world box |
| Grid.WorldToCellOfCenter | lib/grid/grid.ts:31-39 | a cell's centre maps back to the cell |
| Grid.Clamp | lib/grid/grid.ts:45-46 | inside [0, n); unchanged when already inside, 0 below, n - 1 above |
| Grid.ClampCellToGrid | lib/grid/grid.ts:41-48 | the clamped cell is on the grid, axis by axis the nearest, and an on-grid cell is unchanged |
| Grid.ClampIdempotent | lib/grid/grid.ts:41-48 | clamping twice is clamping once |
| MatterTypes.GuardsExclusive | types/matter.ts:70-90 | no body passes two of the block, soldier, projectile and ground guards |
| MatterTypes.GetBodyHealth | types/matter.ts:93-95 | a health exactly for blocks, and then the block's health |
| MatterTypes.GetBodyMaxHealth | types/matter.ts:97-99 | a maximum health exactly for blocks, and then the block's |
| MatterTypes.GetBodyTeam | types/matter.ts:101-106 | the team of a soldier or a block, nothing for any other body |
| PhysicsWorld.FindBody | lib/systems/projectile-system.ts:81 | the first position holding the id, or none exactly when no body has it |
| PhysicsWorld.Without | lib/systems/projectile-system.ts:82 | unchanged when the id is absent, one body shorter otherwise |
| PhysicsWorld.WithoutMembers | lib/systems/projectile-system.ts:82 | with distinct ids, removal takes out exactly the bodies with that id and keeps ids distinct |
| PhysicsWorld.Stamped | lib/systems/level-system.ts:139 | the bodies in order, numbered with consecutive ids from the first free one |
| PhysicsWorld.World.constructor | lib/systems/physics-system.ts:12 | an empty world with ids from 0 and the default gravity |
| PhysicsWorld.World.Clear | lib/systems/level-system.ts:30 | every body goes, static ones included; ids stay fresh |
| PhysicsWorld.World.Add | lib/systems/level-system.ts:48 | the body is appended under a fresh id that no body had before |
| PhysicsWorld.World.AddAll | lib/systems/level-system.ts:139 | the bodies are appended in order under consecutive fresh ids |
| PhysicsWorld.World.Remove | lib/systems/projectile-system.ts:82 | the body with that id is taken out (nothing changes when it is absent) and no body has the id afterwards |
| PhysicsSystem.Survivors | lib/systems/physics-system.ts:44-50 | the bodies that are not destroyed blocks, never more than before |
| PhysicsSystem.SurvivorsMembers | lib/systems/physics-system.ts:47 | a body survives exactly when it was there and is not a block at or below zero health |
| PhysicsSystem.SurvivorsAppend | lib/systems/physics-system.ts:45-50 | survivors of a concatenation are the survivors of each part in order, so relative order is kept |
| PhysicsSystem.SurvivorsIdempotent | lib/systems/physics-system.ts:40-51 | a second cleanup removes nothing more |
| PhysicsSystem.SurvivorsFrom | lib/systems/physics-system.ts:44-50 | every survivor was in the world |
| PhysicsSystem.CreateEngine | lib/systems/physics-system.ts:11-24 | a fresh, empty world with gravity 1.5 |
| PhysicsSystem.UpdatePhysics | lib/systems/physics-system.ts:29-35 | without an engine nothing happens; otherwise the engine steps by (1000 / 60) * physicsSpeed milliseconds |
| PhysicsSystem.CleanupDeadBodies | lib/systems/physics-system.ts:40-51 | without an engine nothing happens; otherwise exactly the destroyed blocks are removed, in order, and ids stay fresh |
| PhysicsSystem.RemoveDead | lib/systems/physics-system.ts:44-50 | the loop over the snapshot leaves the survivors of the snapshot |
| PhysicsSystem.RemoveIfDead | lib/systems/physics-system.ts:46-49 | one iteration extends the processed prefix by one body |
| PhysicsSystem.CleanupStepDead | lib/systems/physics-system.ts:47-48 | removing a destroyed body from the world equals advancing the survivor prefix past it |
| PhysicsSystem.CleanupStepAlive | lib/systems/physics-system.ts:47 | a living body stays where it is |
| PhysicsSystem.ClearEngines | lib/systems/physics-system.ts:56-64 | each engine that exists ends up with no bodies |
| CollisionSystem.PairDamage | lib/systems/collision-system.ts:36-40 | a pair deals damage exactly when its relative speed exceeds the threshold; the damage is (relVel - min) * multiplier, positive for a positive multiplier |
| CollisionSystem.DamageText | lib/systems/collision-system.ts:58-73 | big hits (over 20) get size 24, life 1.5 and red; others size 14, life 0.8 and white; the text is the rounded damage, 20 above the body, jittered |
| CollisionSystem.Hit | lib/systems/collision-system.ts:55-56 | only blocks lose health; other bodies are unchanged |
| CollisionSystem.Damaged | lib/systems/collision-system.ts:55-56 | the bodies with that id are hit and no other body changes |
| CollisionSystem.TextsFor | lib/systems/collision-system.ts:55-74 | one text exactly when the body is a block in the world and the damage exceeds 1 |
| CollisionSystem.TextsAfterHit | lib/systems/collision-system.ts:55-74 | hitting bodies does not change which texts later hits emit |
| CollisionSystem.ApplyDamage | lib/systems/collision-system.ts:50-76 | the block with that id loses the damage, and its text, if any, is appended |
| CollisionSystem.DamageToFacts | lib/systems/collision-system.ts:31-44 | the total damage to a body is never negative, and is zero for a body in no pair |
| CollisionSystem.DamageToAppend | lib/systems/collision-system.ts:31-44 | damage adds up across consecutive stretches of pairs |
| CollisionSystem.PairTexts | lib/systems/collision-system.ts:38-43 | a pair below the threshold emits nothing; a pair emits at most two texts |
| CollisionSystem.EventTexts | lib/systems/collision-system.ts:31-44 | an event emits at most two texts per pair |
| CollisionSystem.HitStep | lib/systems/collision-system.ts:38-43 | a damaging pair hits A and then B, keeping each body at its total damage so far |
| CollisionSystem.NoHitStep | lib/systems/collision-system.ts:38 | a pair below the threshold changes nothing |
| CollisionSystem.HitZero | lib/systems/collision-system.ts:29-31 | before any pair, no body is damaged |
| CollisionSystem.HandleCollisions | lib/systems/collision-system.ts:24-45 | every body ends at its health minus the summed damage of the pairs it is in (blocks only), and the texts are appended pair by pair, A's before B's |
| CollisionSystem.HandlePair | lib/systems/collision-system.ts:32-43 | one pair extends the damage so far and appends that pair's texts |
| CollisionSystem.LoopStep | lib/systems/collision-system.ts:31-44 | the loop invariant advances by one pair |
| CollisionSystem.EventTextsStep | lib/systems/collision-system.ts:31-44 | the texts of one more pair come after the earlier ones |
| CollisionSystem.SameTexts | lib/systems/collision-system.ts:55-74 | part-way through an event, the texts are those the untouched bodies would give |
| ProjectileSystem.FirstSoldier | lib/systems/projectile-system.ts:19-21 | the first soldier of the team, or none exactly when the team has no soldier |
| ProjectileSystem.GetCurrentSoldier | lib/systems/projectile-system.ts:12-23 | none without an engine; otherwise a soldier of the team in the world, and none only when there is no such soldier |
| ProjectileSystem.ProjectileFilter | lib/systems/projectile-system.ts:47-50 | the shooter's projectile category; the mask is the ground and both teams, never a projectile |
| ProjectileSystem.ProjectileHitsEnemyOnly | lib/systems/projectile-system.ts:47-50 | a projectile collides with a team's blocks and soldiers exactly when that team is not the shooter's |
| ProjectileSystem.ProjectileIgnores | lib/systems/projectile-system.ts:47-50 | projectiles pass through each other and through placement previews, and hit the ground |
| ProjectileSystem.Capped | lib/systems/projectile-system.ts:67-72 | a velocity at or below the cap is unchanged |
| ProjectileSystem.DragVelocity | lib/systems/projectile-system.ts:64-65 | the drag vector times the velocity multiplier |
| ProjectileSystem.LaunchUncapped | lib/systems/projectile-system.ts:64-72 | at or below the cap the launch velocity is the drag velocity |
| ProjectileSystem.LaunchCapped | lib/systems/projectile-system.ts:67-72 | above the cap the velocity keeps its direction, shrinks by a factor in (0, 1) and has length exactly the cap |
| ProjectileSystem.CappedScales | lib/systems/projectile-system.ts:68-71 | capping scales by max / speed |
| ProjectileSystem.ProjectileRecord | lib/systems/projectile-system.ts:55-62 | a projectile body at the spawn point with the shooter's filter, the configured radius and the given velocity |
| ProjectileSystem.FireProjectile | lib/systems/projectile-system.ts:28-85 | without an engine, or for a drag under 10, nothing changes; otherwise one projectile is appended 30 above the soldier with the capped velocity, and the turn passes |
| ProjectileSystem.RemoveExpiredProjectile | lib/systems/projectile-system.ts:80-84 | the projectile is removed if it is still there, and nothing changes otherwise |
| SpawnRects.SurfaceOf | lib/building/spawn-rects.ts:33-126 | the friction, restitution and density of each material; only stone is static |
| SpawnRects.MaxHealthOf | lib/building/spawn-rects.ts:45-124 | each material's configured full health (wood uses blockMaxHealth) |
| SpawnRects.NextSeed | lib/building/spawn-rects.ts:54 | from a non-negative seed the next value lies in [0, 233280) |
| SpawnRects.JsRemBounds | lib/building/spawn-rects.ts:54 | JavaScript's remainder has the dividend's sign and is smaller than the modulus |
| SpawnRects.TextureFrom | lib/building/spawn-rects.ts:53-66 | k speckles |
| SpawnRects.StoneSpeckles | lib/building/spawn-rects.ts:50-66 | the loop draws the eight speckles of the stone texture |
| SpawnRects.StoneTexture | lib/building/spawn-rects.ts:50-67 | eight speckles seeded by the block's centre |
| SpawnRects.SpotBounds | lib/building/spawn-rects.ts:61-65 | three generator values in range give a speckle within 0.4 of the block size of its centre, sized in [2, 5) |
| SpawnRects.TextureFromStep | lib/building/spawn-rects.ts:53-66 | each speckle uses the next three generator values |
| SpawnRects.TextureFromBounds | lib/building/spawn-rects.ts:53-66 | from a non-negative seed every speckle is in bounds |
| SpawnRects.StoneTextureBounds | lib/building/spawn-rects.ts:50-67 | a stone block at non-negative coordinates gets eight in-bounds speckles |
| SpawnRects.TeamCollision | lib/building/spawn-rects.ts:131-140 | the team's category; the mask is the ground, both teams and the enemy's projectiles |
| SpawnRects.PlacementCollision | lib/building/spawn-rects.ts:142-147 | the team's category; the mask has no projectile bit |
| SpawnRects.TeamMaskProjectileBits | lib/building/spawn-rects.ts:131-140 | a team's mask holds the enemy's projectile bit and not its own |
| SpawnRects.TeamBodiesCollide | lib/building/spawn-rects.ts:131-147 | blocks and soldiers of any teams collide with each other and with previews |
| SpawnRects.BlockRecord | lib/building/spawn-rects.ts:31-48 | a block body labelled by its material |
| SpawnRects.SpawnRectBody | lib/building/spawn-rects.ts:10-129 | a block of the material at the centre and size given, with the team, filter and cells given, full health, the material's surface, and the eight-speckle texture for stone only |
| CompileBlueprint.CoveredAppend | lib/building/compile-blueprint.ts:53 | one more rectangle covers its own cells in addition |
| CompileBlueprint.AheadVisitedIsCovered | lib/building/compile-blueprint.ts:22-55 | a cell the scan has not reached is visited exactly when a rectangle covers it |
| CompileBlueprint.SkipStep | lib/building/compile-blueprint.ts:24 | passing a visited cell keeps the scan invariant |
| CompileBlueprint.EmptyStep | lib/building/compile-blueprint.ts:25-29 | marking an empty cell visited keeps the scan invariant |
| CompileBlueprint.RowStep | lib/building/compile-blueprint.ts:22-23 | the invariant at the end of a row holds at the start of the next |
| CompileBlueprint.RectStepDisjoint | lib/building/compile-blueprint.ts:31-53 | a fresh rectangle overlaps none before it |
| CompileBlueprint.RectStepGreedy | lib/building/compile-blueprint.ts:31-45 | the new rectangle cannot grow right or down |
| CompileBlueprint.RectStepShape | lib/building/compile-blueprint.ts:31-53 | the new rectangle is in bounds, uniform in material and comes later in row-major order |
| CompileBlueprint.RectStepCovered | lib/building/compile-blueprint.ts:47-53 | every material cell passed so far is covered |
| CompileBlueprint.RectStep | lib/building/compile-blueprint.ts:31-53 | cutting a rectangle keeps the scan invariant |
| CompileBlueprint.FreshFromVisited | lib/building/compile-blueprint.ts:31-45 | what the growing loops report makes the rectangle fresh |
| CompileBlueprint.GrowRight | lib/building/compile-blueprint.ts:31-36 | the width is the run of unvisited cells of the material, stopping at the edge, a visited cell or another material |
| CompileBlueprint.GrowDown | lib/building/compile-blueprint.ts:38-45 | the height is the number of rows, from y on, whose w cells are all unvisited and of the material |
| CompileBlueprint.MarkVisited | lib/building/compile-blueprint.ts:47-51 | exactly the rectangle's cells become visited |
| CompileBlueprint.CutRect | lib/building/compile-blueprint.ts:31-53 | the rectangle at the scan position is fresh, and its cells and only those become visited |
| CompileBlueprint.ScanCell | lib/building/compile-blueprint.ts:24-53 | one scan position keeps the scan invariant and the visited matrix in step with it |
| CompileBlueprint.ScanDone | lib/building/compile-blueprint.ts:57 | after the last cell the rectangles partition the material cells, in row-major order, greedily |
| CompileBlueprint.CompileBlueprintToRects | lib/building/compile-blueprint.ts:6-58 | the rectangles partition the normalised blueprint's material cells, each in one material, in row-major order, none extendable right or down |
| CompileBlueprint.CutUnique | lib/building/compile-blueprint.ts:24-45 | after a given prefix of rectangles, only one rectangle is in bounds, fresh, at the first uncovered material cell and unextendable right and down |
| CompileBlueprint.CutCorner | lib/building/compile-blueprint.ts:22-29 | two such rectangles start at the same cell in the same material |
| CompileBlueprint.CutWidthBound | lib/building/compile-blueprint.ts:31-36 | the one cut as wide as it can go is at least as wide as the other |
| CompileBlueprint.CutHeightBound | lib/building/compile-blueprint.ts:38-45 | of two equally wide ones, the one cut as tall as it can go is at least as tall |
| CompileBlueprint.CompiledCut | lib/building/compile-blueprint.ts:22-53 | each rectangle of a compiled list is such a cut after the rectangles before it |
| CompileBlueprint.NextAgrees | lib/building/compile-blueprint.ts:22-53 | two compiled lists that agree on a prefix agree on the next rectangle |
| CompileBlueprint.CompiledPrefixAll | lib/building/compile-blueprint.ts:22-57 | a compiled list that is a prefix of another compiled list is all of it |
| CompileBlueprint.CompiledUnique | lib/building/compile-blueprint.ts:6-58 | partition, row-major order and greedy cuts determine the list: two lists with all three for the same rows are equal |
| CompileBlueprint.CompileStairs | lib/building/compile-blueprint.ts:6-58 | `["ww", "www"]` compiles to the 2-by-2 wood block at (0, 0), then the 1-by-1 wood cell at (2, 1) |
| CompileBlueprint.CompileStep | lib/building/compile-blueprint.ts:6-58 | `["www", "ww"]` compiles to the 3-by-1 wood row at (0, 0), then the 2-by-1 wood row at (0, 1) |
| CompileBlueprint.CompileNoMaterial | lib/building/compile-blueprint.ts:25-29 | rows holding only '-' and 'p' compile to no rectangle |
| WorldifyRects.RowCells | lib/building/worldify-rects.ts:18-20 | the w cells of one row, left to right |
| WorldifyRects.RectCells | lib/building/worldify-rects.ts:16-21 | exactly the rectangle's cells, w * h of them, in row-major order |
| WorldifyRects.RowsCellsMembers | lib/building/worldify-rects.ts:16-21 | the first n rows' cells are exactly those of the rectangle's first n rows |
| WorldifyRects.RowsCellsCount | lib/building/worldify-rects.ts:16-21 | n rows give n * w cells |
| WorldifyRects.RowsCellsOrder | lib/building/worldify-rects.ts:16-21 | the cells come in strict row-major order |
| WorldifyRects.CollectGridCells | lib/building/worldify-rects.ts:16-21 | the nested loops collect exactly the rectangle's cells in order |
| WorldifyRects.Placed | lib/building/worldify-rects.ts:6-30 | the size in pixels; the centre is (x + w/2, y + h/2) cells from the origin; the rectangle and its cells |
| WorldifyRects.Worldify | lib/building/worldify-rects.ts:4-31 | one placement per rectangle, in order |
| WorldifyRects.WorldifyRect | lib/building/worldify-rects.ts:6-30 | the loop version places one rectangle |
| WorldifyRects.WorldifyRectsOf | lib/building/worldify-rects.ts:4-31 | the loop over rectangles gives the placements |
| WorldifyRects.UnitRectCenter | lib/building/worldify-rects.ts:6-30 | a 1x1 rectangle sits on its cell's centre and lists only that cell |
| WorldifyRects.WorldifyDisjoint | lib/building/worldify-rects.ts:4-31 | rectangles that do not overlap list no cell twice |
| PlaceUtils.FpWidth | lib/building/place-utils.ts:8 | the width of the first row, 0 for no rows |
| PlaceUtils.At | lib/building/place-utils.ts:9 | the entry, or 0 outside the footprint |
| PlaceUtils.Rot90 | lib/building/place-utils.ts:13-23 | a w-by-h result with column x of the source becoming row x, read bottom up |
| PlaceUtils.Rot180 | lib/building/place-utils.ts:25-35 | rows and columns both reversed |
| PlaceUtils.Rot270 | lib/building/place-utils.ts:37-45 | column x of the source becomes row w - 1 - x |
| PlaceUtils.Rotated | lib/building/place-utils.ts:3-46 | rotation 0 is a copy, the others are the quarter, half and three-quarter turns |
| PlaceUtils.RotateFootprint | lib/building/place-utils.ts:3-46 | the loops over a zeroed matrix compute the rotated footprint |
| PlaceUtils.Rot90At | lib/building/place-utils.ts:19 | the quarter turn read at a target index |
| PlaceUtils.Rot180At | lib/building/place-utils.ts:31 | the half turn read at a target index |
| PlaceUtils.Rot270At | lib/building/place-utils.ts:42 | the three-quarter turn read at a target index |
| PlaceUtils.RotatedShape | lib/building/place-utils.ts:3-46 | every rotation of a rectangular footprint is rectangular; quarter turns swap width and height |
| PlaceUtils.TwoQuarterTurns | lib/building/place-utils.ts:13-35 | two quarter turns make a half turn |
| PlaceUtils.TwoHalfTurns | lib/building/place-utils.ts:25-35 | two half turns give the footprint back |
| PlaceUtils.ThreeQuarterTurns | lib/building/place-utils.ts:13-45 | three quarter turns are the 270 rotation |
| PlaceUtils.FourQuarterTurns | lib/building/place-utils.ts:13-23 | four quarter turns give a rectangular footprint back |
| PlaceUtils.OccupiedCells | lib/building/place-utils.ts:63 | the cells holding 1 |
| PlaceUtils.RotationKeepsOccupiedCount | lib/building/place-utils.ts:3-46 | rotation keeps the number of occupied cells |
| PlaceUtils.GetFootprintOrigin | lib/building/place-utils.ts:48-54 | the bottom row and the middle column, rounded down |
| PlaceUtils.OccupiedOffsetsFacts | lib/building/place-utils.ts:56-69 | an offset is listed exactly when the cell it names from the origin is occupied, in increasing row-major order |
| PlaceUtils.RowOffsetsFacts | lib/building/place-utils.ts:62-66 | one row's offsets are its occupied columns, in order |
| PlaceUtils.RowsOffsetsFacts | lib/building/place-utils.ts:61-67 | the first m rows' offsets are their occupied cells, in order |
| PlaceUtils.GetOccupiedOffsets | lib/building/place-utils.ts:56-69 | the nested loops compute the offsets |
| PlaceUtils.OffsetsCount | lib/building/place-utils.ts:56-69 | one offset per occupied cell |
| PlaceUtils.RotationKeepsOffsetCount | lib/building/place-utils.ts:56-72 | a rotated piece has as many offsets as the unrotated one |
| PlaceUtils.GetPieceFootprint | lib/building/place-utils.ts:71-72 | the piece's footprint rotated |
| PiecePlacement.CellsAt | lib/building/piece-placement.ts:32-35 | the anchor plus each offset, in order |
| PiecePlacement.LocalRow | lib/building/piece-placement.ts:40 | one token per entry: the material's token for 1, the empty token for 0 |
| PiecePlacement.LocalRows | lib/building/piece-placement.ts:37-41 | the footprint written as blueprint rows |
| PiecePlacement.LocalRowsMaterial | lib/building/piece-placement.ts:37-43 | those rows are already normalised and hold the material exactly at the occupied cells |
| PiecePlacement.PlacedRects | lib/building/piece-placement.ts:44-47 | one placed rectangle per compiled rectangle |
| PiecePlacement.PlacedCell | lib/building/piece-placement.ts:44-47 | a placed rectangle lists a cell exactly when its compiled rectangle covers the cell moved back by anchor minus origin |
| PiecePlacement.PlacedCoverFootprint | lib/building/piece-placement.ts:37-47 | the placed rectangles list exactly the cells the footprint covers at the anchor |
| PiecePlacement.PlacedCoverCell | lib/building/piece-placement.ts:37-47 | the same, for one cell |
| PiecePlacement.InPlacedCovered | lib/building/piece-placement.ts:44-47 | a cell is listed exactly when a compiled rectangle covers it, moved back |
| PiecePlacement.PlacedMaterial | lib/building/piece-placement.ts:37-47 | every placed rectangle is in the chosen material |
| PiecePlacement.PlacedDisjoint | lib/building/piece-placement.ts:43-47 | no cell is listed twice |
| PiecePlacement.GetPiecePlacement | lib/building/piece-placement.ts:14-50 | the occupied cells are the anchor plus each offset; the rectangles are the footprint rows as compiled (a partition, in row-major order, cut greedily), placed at the anchor: exactly those cells, once each, in the chosen material |
| PiecePlacement.OccupiedCellsOf | lib/building/piece-placement.ts:31-35 | the occupied cells are exactly those the footprint covers at the anchor |
| PiecePlacement.PlacedRectsOf | lib/building/piece-placement.ts:37-47 | the placed rectangles are the footprint rows as compiled (partition, row-major, greedy) and moved to the anchor, covering the footprint once each in the chosen material |
| PiecePlacement.CompileLocalRows | lib/building/piece-placement.ts:37-43 | the compiled rectangles partition the footprint's rows, in row-major order, each cut as wide and then as tall as it goes |
| PiecePlacement.OccupiedCellsAt | lib/building/piece-placement.ts:31-35 | a cell is an occupied cell exactly when the footprint covers it at the anchor |
| PiecePlacement.ShrunkRegion | lib/building/piece-placement.ts:80-90 | the query box has the rectangle's centre and is 1 pixel narrower and shorter |
| PiecePlacement.CanPlace | lib/building/piece-placement.ts:52-97 | true exactly when every cell is on the grid, free and above the ground, and no rectangle's shrunk box hits a body other than the ground |
| PiecePlacement.HasNonGround | lib/building/piece-placement.ts:92 | whether some hit body is not the ground |
| GameStore.Other | store/game-store.ts:103 | the other team |
| GameStore.OtherInvolution | store/game-store.ts:101-104 | switching twice gives the turn back |
| GameStore.Pick | store/game-store.ts:87 | a given patch field wins, an absent one keeps the old value |
| GameStore.PatchInput | store/game-store.ts:85-88 | every input field is the patch's when given and the old one otherwise |
| GameStore.PatchInputLaws | store/game-store.ts:85-88 | an empty patch changes nothing, and patching twice with the same patch is patching once |
| GameStore.PatchConfig | store/game-store.ts:131-134 | every configuration key is the patch's when given and the old one otherwise |
| GameStore.Age | store/game-store.ts:118-122 | life drops by 0.02, the text moves by its vertical speed, nothing else changes |
| GameStore.Aged | store/game-store.ts:115-124 | never more texts than before, and every kept text is still alive |
| GameStore.AgedAppend | store/game-store.ts:115-124 | texts age independently, so order is kept |
| GameStore.AgedMembers | store/game-store.ts:123 | a text is kept exactly when its aged life is positive |
| GameStore.Store.constructor | store/game-store.ts:67-81 | the window size, resting input, red to move, no texts, the default configuration, the debug panel closed, no occupancy |
| GameStore.Store.SetDimensions | store/game-store.ts:83 | the new window size |
| GameStore.Store.SetInput | store/game-store.ts:85-88 | only the given input fields change |
| GameStore.Store.ResetInput | store/game-store.ts:90-99 | the input is at rest |
| GameStore.Store.SwitchPlayer | store/game-store.ts:101-104 | the other team moves |
| GameStore.Store.SetCurrentPlayer | store/game-store.ts:106 | the given team moves |
| GameStore.Store.AddFloatingText | store/game-store.ts:110-113 | the text is appended after the others |
| GameStore.Store.UpdateFloatingTexts | store/game-store.ts:115-124 | every text is aged and the expired ones dropped |
| GameStore.Store.ToggleDebugPanel | store/game-store.ts:126-129 | the panel flag flips |
| GameStore.Store.UpdateConfig | store/game-store.ts:131-134 | only the given configuration keys change |
| GameStore.Store.ResetGame | store/game-store.ts:136-147 | red to move, no texts, input at rest; the configuration and occupancy are untouched |
| GameStore.Store.SetOccupiedCells | lib/systems/level-system.ts:31 | the occupancy is replaced |
| GameStore.Store.OccupyCells | lib/systems/level-system.ts:136 | the given cells hold the occupant and every other cell keeps its occupant |
| Geometry.WorldToBodyLocal | lib/matter/geometry.ts:16-22 | the offset from the body's position turned back by the body's angle |
| Geometry.LocalKeepsDistance | lib/matter/geometry.ts:16-22 | for a true rotation, the local point is as far from the origin as the world point is from the body |
| Geometry.GetBodyLocalVertices | lib/matter/geometry.ts:24-26 | one local vertex per vertex, in order |
| Geometry.GetLocalBounds | lib/matter/geometry.ts:28-54 | empty exactly for no vertices; otherwise every vertex lies in the box, each side touches a vertex, width and height are the non-negative extents and the centre is the midpoint |
| LevelSystem.Reverse | lib/systems/level-system.ts:86 | the row read backwards |
| LevelSystem.MirrorRows | lib/systems/level-system.ts:86 | every row reversed, the row count kept |
| LevelSystem.MirrorInvolution | lib/systems/level-system.ts:84-87 | mirroring twice gives the blueprint back |
| LevelSystem.CastleRows | lib/systems/level-system.ts:84-87 | red builds the blueprint, blue the mirrored blueprint |
| LevelSystem.CastleRowsSame | lib/systems/level-system.ts:84-87 | the castle is symmetric, so both teams build the same rows |
| LevelSystem.ClampTopLeft | lib/systems/level-system.ts:98-101 | a blueprint that fits stays on the grid, moved as little as needed; one that does not fit starts at 0 |
| LevelSystem.Layout | lib/systems/level-system.ts:81-101 | the grid of the window; the top-left cell centres the blueprint on the rounded cell under centerX, bottom row on the ground, clamped |
| LevelSystem.PlacedCastle | lib/systems/level-system.ts:103-105 | one placement per compiled rectangle |
| LevelSystem.PlacedCastleDisjoint | lib/systems/level-system.ts:103-105 | the castle's placed rectangles list no cell twice |
| LevelSystem.TeamBlock | lib/systems/level-system.ts:110-124 | a block of the team with the team's filter, at the rectangle's centre, with its cells and full health |
| LevelSystem.TeamBlocks | lib/systems/level-system.ts:110-124 | one block per rectangle, in order |
| LevelSystem.SpawnTeamBlock | lib/systems/level-system.ts:111-123 | the body factory gives that block |
| LevelSystem.SpawnTeamBlocks | lib/systems/level-system.ts:110-124 | the loop gives those blocks |
| LevelSystem.Soldier | lib/systems/level-system.ts:67-79 | a soldier of the team, with the team's filter, at the position given |
| LevelSystem.CastleSoldiers | lib/systems/level-system.ts:126-131 | one soldier per spawn cell, at the centre of the moved cell |
| LevelSystem.SpawnCastleSoldiers | lib/systems/level-system.ts:126-131 | the loop gives those soldiers |
| LevelSystem.Mark | lib/systems/level-system.ts:136 | the rectangle's cells hold its material and the team; other cells are unchanged |
| LevelSystem.RectsOccupancyFacts | lib/systems/level-system.ts:133-137 | for non-overlapping rectangles every listed cell holds its rectangle's material and team, and no other cell changes |
| LevelSystem.OccupyRects | lib/systems/level-system.ts:133-137 | the loop marks each rectangle in turn |
| LevelSystem.CastleBodies | lib/systems/level-system.ts:108-131 | one body per rectangle plus one per spawn cell |
| LevelSystem.BuildFromRows | lib/systems/level-system.ts:81-139 | for given rows: the layout; the rows as compiled (a partition, in row-major order, cut greedily); the blocks then soldiers appended under fresh ids; every rectangle's cells occupied |
| LevelSystem.BlocksOnly | lib/systems/level-system.ts:126-131 | rows without spawn markers give blocks only |
| LevelSystem.BuildCastle | lib/systems/level-system.ts:59-140 | without an engine nothing happens; otherwise one block per rectangle of the castle as compiled (partition, row-major, greedy) is appended under consecutive fresh ids, and the castle's cells are occupied by the team |
| LevelSystem.Padding | lib/systems/level-system.ts:51 | the smaller of 260 and 15% of the width |
| LevelSystem.Ground | lib/systems/level-system.ts:34-47 | a static ground strip across the bottom of the window that collides with everything |
| LevelSystem.ResetLevel | lib/systems/level-system.ts:24-54 | without an engine nothing happens; otherwise the world and occupancy are cleared, the ground is added, then the red castle at the padding and the blue castle at width minus padding, both on the ground's top, each the castle as compiled (partition, row-major, greedy) |
| LevelSystem.FirstGround | lib/systems/level-system.ts:149 | the first ground body, or none exactly when there is none |
| LevelSystem.UpdateGroundPosition | lib/systems/level-system.ts:145-157 | the first ground body is recentred on the new window, its size unchanged; every other body is untouched |
| BuildingSystem.StoreGrid | lib/systems/building-system.ts:15 | the grid of the window, with the block size as cell size |
| BuildingSystem.GetPlacementPreviewAtWorld | lib/systems/building-system.ts:10-36 | none without an engine; otherwise the anchor under the point, the piece's cells and rectangles (the footprint as compiled: partition, row-major, greedy; the same cells, once each, in the selected material), ok exactly when `canPlace` holds; an ok preview lies on free grid cells above the ground |
| BuildingSystem.TryPlaceSelectedPieceAtWorld | lib/systems/building-system.ts:38-71 | false with no change unless there is an engine and the preview is ok; then one team block per rectangle of the compiled footprint (partition, row-major, greedy) is appended, the piece's cells are occupied by the material and team (none overwritten), and the answer is true |
| BuildingSystem.CommitPlacement | lib/systems/building-system.ts:46-69 | one team block per rectangle is appended under fresh ids and the piece's cells are occupied by the selected material and team; cells free beforehand mean no occupied cell is overwritten |
| BuildStore.NormalizeRect | store/build-store.ts:51-56 | the corners are ordered and the rectangle's corner values are kept |
| BuildStore.NormalizeKeepsArea | store/build-store.ts:51-58 | a cell is inside the normalised rectangle exactly when it lies between the two corners |
| BuildStore.Shifted | store/build-store.ts:215-216 | the cell moved by the offset |
| BuildStore.SelectedCells | store/build-store.ts:174-181 | exactly the painted cells inside the selection, with their materials |
| BuildStore.SelectedSpawns | store/build-store.ts:182-189 | exactly the spawns inside the selection |
| BuildStore.ShiftedCells | store/build-store.ts:274-278 | each picked-up block sits at its shifted key with its material |
| BuildStore.ShiftedSpawns | store/build-store.ts:279-283 | each picked-up spawn sits at its shifted key |
| BuildStore.ShiftedOrigin | store/build-store.ts:274-283 | a key is a moved block or spawn exactly when shifting it back lands on a picked-up one |
| BuildStore.MovedCellsContents | store/build-store.ts:263-283 | after a valid move each moved block is at its new key, unselected blocks stay put, and nothing else appears |
| BuildStore.StaysPut | store/build-store.ts:212-283 | a valid move never overwrites a block that was not selected |
| BuildStore.MovePreservesDisjoint | store/build-store.ts:212-283 | a valid move keeps blocks and spawns on different keys |
| BuildStore.MoveStaysOnGrid | store/build-store.ts:212-245 | a valid move leaves every moved block and spawn on the grid |
| BuildStore.TemplateToken | store/build-store.ts:330 | the template token, empty past the end of a row |
| BuildStore.CenterOffset | store/build-store.ts:323-324 | a non-negative offset that centres the template, rounding down, and 0 when it does not fit |
| BuildStore.TemplateCell | store/build-store.ts:331-332 | the template position moved by the centring offsets |
| BuildStore.TemplateContents | store/build-store.ts:328-340 | every template slot already scanned holds its token's material, or a spawn for 'p' |
| BuildStore.TemplateOrigin | store/build-store.ts:328-340 | every written key comes from an on-grid template slot already scanned |
| BuildStore.TemplateStepCells | store/build-store.ts:333-337 | one slot adds its material token's block, if on the grid |
| BuildStore.TemplateStepSpawns | store/build-store.ts:338 | one slot adds a spawn for 'p', if on the grid |
| BuildStore.TemplateKeyStep | store/build-store.ts:333-338 | one slot changes only its own key |
| BuildStore.TemplateRowDone | store/build-store.ts:328-329 | the end of a row is the start of the next |
| BuildStore.TemplateDisjoint | store/build-store.ts:318-342 | the loaded template never puts a block and a spawn on one key |
| BuildStore.ExportRow | store/build-store.ts:348-360 | one token per column |
| BuildStore.ExportRows | store/build-store.ts:344-364 | one row per grid row |
| BuildStore.ExportReadsBack | store/build-store.ts:344-364 | a grid cell exports as 'p' exactly when it is a spawn; otherwise its token reads back as its block's material, or empty |
| BuildStore.Canonical | store/build-store.ts:330-338 | a template token survives a load and export exactly when it is 'p', empty or a material token; any other becomes '-' |
| BuildStore.TemplateExportRoundTrip | store/build-store.ts:318-364 | exporting a loaded template gives each on-grid slot's canonical token and '-' everywhere else |
| BuildStore.CastleTemplateExport | store/build-store.ts:318-364 | on the default 40 by 22 grid, loading the castle and exporting gives the castle back at offset (11, 4) |
| BuildStore.BuildState.constructor | store/build-store.ts:60-77 | a 40 by 22 grid of 40-pixel cells, wood, paint tool, game view, nothing painted, no selection, no move |
| BuildStore.BuildState.SetGrid | store/build-store.ts:79 | the new grid size and cell size |
| BuildStore.BuildState.SetSelectedMaterial | store/build-store.ts:80 | the new material |
| BuildStore.BuildState.SetTool | store/build-store.ts:81-95 | the new tool; any tool other than select drops the selection and any move |
| BuildStore.BuildState.SetViewMode | store/build-store.ts:96 | the new view |
| BuildStore.BuildState.SetPointerDown | store/build-store.ts:97 | the new pointer state |
| BuildStore.BuildState.PaintCell | store/build-store.ts:99-108 | the cell holds the selected material and is no spawn; blocks and spawns stay on different keys |
| BuildStore.BuildState.ClearCell | store/build-store.ts:110-117 | the cell holds neither a block nor a spawn |
| BuildStore.BuildState.ToggleSpawn | store/build-store.ts:119-130 | a spawn is removed, or added with the cell's block removed; blocks and spawns stay on different keys |
| BuildStore.BuildState.ClearSelection | store/build-store.ts:132-141 | no selection, no anchor, no move |
| BuildStore.BuildState.BeginSelection | store/build-store.ts:143-152 | a one-cell selection anchored at the cell, no move |
| BuildStore.BuildState.UpdateSelection | store/build-store.ts:154-160 | with a selection and an anchor, the far corner moves to the cell; otherwise nothing changes |
| BuildStore.BuildState.FinalizeSelection | store/build-store.ts:162-166 | the anchor is dropped and the selection normalised |
| BuildStore.BuildState.StartMoveSelection | store/build-store.ts:168-200 | inside the selection, the selection is normalised and its blocks and spawns are picked up with a zero offset; otherwise nothing changes |
| BuildStore.BuildState.UpdateMoveSelection | store/build-store.ts:202-248 | during a move, the offset is from the move anchor to the cell, and the move is valid exactly when every moved block and spawn lands on the grid on a free or selected key |
| BuildStore.BuildState.CommitMoveSelection | store/build-store.ts:250-303 | an invalid or zero move just ends the move; a valid one moves the picked-up blocks and spawns and the selection by the offset and keeps blocks and spawns apart |
| BuildStore.BuildState.ClearAll | store/build-store.ts:305-316 | nothing painted, no selection, no move |
| BuildStore.BuildState.LoadCastleTemplateCentered | store/build-store.ts:318-342 | the blocks and spawns are those of the castle centred on the grid, on different keys |
| BuildStore.BuildState.ExportBlueprintRows | store/build-store.ts:344-364 | the grid exported row by row |
| BuildStore.ShiftedRect | store/build-store.ts:285-291 | a cell is in the moved selection exactly when the cell moved back is in the old one |
| BuildStore.PickCells | store/build-store.ts:174-181 | the loop picks up exactly the selected blocks |
| BuildStore.PickSpawns | store/build-store.ts:182-189 | the loop picks up exactly the selected spawns |
| BuildStore.CheckMove | store/build-store.ts:208-245 | the move is valid exactly when every picked-up block and then every picked-up spawn lands on the grid on a key that is free or itself picked up |
| BuildStore.AllLand | store/build-store.ts:214-227 | one checking loop, stopping at the first item that does not land, answers true exactly when every item lands |
| BuildStore.ShiftedCellsStep | store/build-store.ts:274-278 | writing one more block extends the shifted blocks |
| BuildStore.ShiftedSpawnsStep | store/build-store.ts:279-283 | writing one more spawn extends the shifted spawns |
| BuildStore.ApplyMove | store/build-store.ts:263-283 | clearing the picked-up keys and writing the shifted ones gives the moved blocks and spawns |
| BuildStore.WriteMovedCells | store/build-store.ts:274-278 | the shifted blocks are written over the base |
| BuildStore.WriteMovedSpawns | store/build-store.ts:279-283 | the shifted spawns are added to the base |
| BuildStore.LoadTemplate | store/build-store.ts:318-340 | the nested loops give the centred template's blocks and spawns |
| BuildStore.LoadTemplateRow | store/build-store.ts:329-339 | after the inner loop, the blocks and spawns are exactly those of every template position up to the end of the row |
| BuildStore.LoadTemplateToken | store/build-store.ts:330-338 | one position adds its block or spawn at its centred key when that key is on the grid, and nothing otherwise |
| BuildStore.WriteToken | store/build-store.ts:334-338 | a material token writes its material at the key, 'p' adds a spawn there, any other token writes nothing |
| BuildStore.ExportGrid | store/build-store.ts:347-362 | the nested loops give the exported rows |

## Left out

- Rendering, React components, hooks, clouds and colours are not part of this model. This covers `setClouds`, the colour table of `GameConfig` and every body's `render` options.
- Engine internals are parameters: the engine step, `Query.region` and `Math.hypot`. Matter's own collision resolution is not modelled.
- Two body fields the game only passes to the engine are not modelled: the projectile's `frictionAir` of 0.005 (lib/systems/projectile-system.ts:58) and the ground's `frictionStatic` of 1.0 (lib/systems/level-system.ts:43). The projectile's friction, restitution and density are modelled, in `ProjectileRecord`.
- `setupCollisionHandlers` is not modelled: it registers a callback with the engine's event system. `HandleCollisions` models that callback. It takes each pair's relative speed as an input instead of computing `Vector.magnitude` of the velocity difference.
- The 5-second timer of `fireProjectile` is not modelled. `RemoveExpiredProjectile` models its callback; when the callback runs is not modelled.
- `Math.random` is not modelled. Its two draws per damage text are the `Jitter` parameter.
- `createGhostEngine` is `CreateEngine` again; the model does not keep a separate ghost-engine store.
- Numbers are reals and integers, not IEEE doubles, so rounding, infinities and NaN are not modelled. For an empty vertex list, `getLocalBounds` returns infinite corners and NaN centres; here it returns `EmptyBounds`.
- `worldToBodyLocal` takes the cosine and sine of the body's angle as inputs; the trigonometry is not modelled.
- The build store's `Number.isFinite` checks on parsed keys are not modelled. Keys are always integer cells here, so those checks never skip an entry.
- `exportBlueprintRowsTrimmed`, called by components/build-sidebar.tsx, is not defined in store/build-store.ts and is not part of this model.
- `GetPlacementPreviewAtWorld`, `TryPlaceSelectedPieceAtWorld`, `ResetLevel` and `Layout` require a positive block size. The source divides by it and never checks it.
- `UpdatePhysics` states the engine step only through the `step` parameter.
- `Aged` and `PairTexts` state bounds and membership; `AgedAppend`, `AgedMembers`, `EventTextsStep` and `HandleCollisions` carry their full meaning.
- Occupancy is never released when a block is destroyed, as in the source.
- `MaxRowLength`, `PadEnd` and `NormalizeBlueprintRows`: JavaScript measures and pads strings in UTF-16 code units, and Dafny strings hold Unicode scalar values. A row with a character outside the Basic Multilingual Plane therefore has a different width here. `CompileBlueprintToRects` indexes cells the same way. Blueprint tokens are all ASCII, so this only matters for rows with foreign characters.
