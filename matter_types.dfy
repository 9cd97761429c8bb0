/** Game bodies as records, with the label-based type guards and accessors of
    types/matter.ts. A body is what the physics engine stores; only the fields
    the game reads or writes are kept. */
module MatterTypes {
  import opened Types

  /** The collision filter of a body: its category bits and the categories it collides with. */
  datatype CollisionFilter = CollisionFilter(category: bv32, mask: bv32)

  /** The body's geometry as created: an axis-aligned rectangle or a circle. */
  datatype Shape = RectShape(w: real, h: real) | CircleShape(radius: real)

  /** One pre-generated speckle of a stone block's texture, relative to the block centre. */
  datatype TextureSpot = TextureSpot(x: real, y: real, size: real)

  /** Surface and mass properties handed to the engine. */
  datatype Surface = Surface(isStatic: bool, friction: real, restitution: real, density: real)

  /** A body record. `tag` is the engine's `label` (a keyword here). `health`,
      `maxHealth`, `gridCells` and `stoneTexture` are only meaningful on blocks;
      `team` is set on blocks and soldiers. `id` is assigned by the world on insertion. */
  datatype Body = Body(
    id: nat,
    tag: string,
    team: Option<Team>,
    health: real,
    maxHealth: real,
    gridCells: seq<Cell>,
    filter: CollisionFilter,
    pos: Point,
    velocity: Point,
    shape: Shape,
    surface: Surface,
    stoneTexture: seq<TextureSpot>)

  /** The labels a block body can carry. */
  predicate IsBlockLabel(tag: string)
  {
    tag == "block" || tag == "steel" || tag == "stone" || tag == "glass"
  }

  /** `isBlockBody`: one of the four block labels. */
  predicate IsBlockBody(b: Body)
  {
    IsBlockLabel(b.tag)
  }

  predicate IsSoldierBody(b: Body)
  {
    b.tag == "soldier"
  }

  predicate IsProjectileBody(b: Body)
  {
    b.tag == "projectile"
  }

  predicate IsGroundBody(b: Body)
  {
    b.tag == "ground"
  }

  /** No body passes two of the four guards. */
  lemma GuardsExclusive(b: Body)
    ensures IsBlockBody(b) ==> !IsSoldierBody(b) && !IsProjectileBody(b) && !IsGroundBody(b)
    ensures IsSoldierBody(b) ==> !IsProjectileBody(b) && !IsGroundBody(b)
    ensures IsProjectileBody(b) ==> !IsGroundBody(b)
  {
  }

  /** `getBodyHealth`: the health of a block, nothing for any other body. */
  function GetBodyHealth(b: Body): (h: Option<real>)
    ensures h.Some? <==> IsBlockBody(b)
    ensures h.Some? ==> h.value == b.health
  {
    if IsBlockBody(b) then Some(b.health) else None
  }

  /** `getBodyMaxHealth`: the maximum health of a block, nothing for any other body. */
  function GetBodyMaxHealth(b: Body): (h: Option<real>)
    ensures h.Some? <==> IsBlockBody(b)
    ensures h.Some? ==> h.value == b.maxHealth
  {
    if IsBlockBody(b) then Some(b.maxHealth) else None
  }

  /** `getBodyTeam`: the team of a soldier or a block, nothing for projectiles, ground or other bodies. */
  function GetBodyTeam(b: Body): (t: Option<Team>)
    ensures (IsSoldierBody(b) || IsBlockBody(b)) ==> t == b.team
    ensures !(IsSoldierBody(b) || IsBlockBody(b)) ==> t == None
  {
    if IsSoldierBody(b) || IsBlockBody(b) then b.team else None
  }

  /** The engine's pairwise filter rule (for bodies outside any collision group): each
      body's mask must accept the other's category. */
  predicate CanCollide(a: CollisionFilter, b: CollisionFilter)
  {
    a.mask & b.category != 0 && b.mask & a.category != 0
  }
}
