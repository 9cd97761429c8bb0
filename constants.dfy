/** Game-wide tunables and the collision-category bits (lib/constants.ts). */
module Constants {

  /** The numeric part of the game configuration; the colour table only feeds the renderers. */
  datatype GameConfig = GameConfig(
    blockSize: real,
    soldierRadius: real,
    projectileRadius: real,
    physicsSpeed: real,
    velocityMultiplier: real,
    maxSpeed: real,
    minDamageVelocity: real,
    damageMultiplier: real,
    blockMaxHealth: real,
    steelMaxHealth: real,
    stoneMaxHealth: real,
    glassMaxHealth: real)

  /** The shipped defaults. */
  function DefaultConfig(): (c: GameConfig)
    ensures c.blockSize == 40.0 && c.soldierRadius == 15.0 && c.projectileRadius == 10.0
    ensures c.physicsSpeed == 0.3
    ensures c.velocityMultiplier == 0.18 && c.maxSpeed == 50.0
    ensures c.minDamageVelocity == 4.0 && c.damageMultiplier == 4.0
    ensures c.blockMaxHealth == 100.0 && c.steelMaxHealth == 250.0
    ensures c.stoneMaxHealth == 250.0 && c.glassMaxHealth == 40.0
    ensures c.blockSize > 0.0 && c.maxSpeed > 0.0 && c.damageMultiplier > 0.0
  {
    GameConfig(40.0, 15.0, 10.0, 0.3, 0.18, 50.0, 4.0, 4.0, 100.0, 250.0, 250.0, 40.0)
  }

  const CONFIG: GameConfig := DefaultConfig()

  /** The five collision categories. */
  datatype Category = Ground | RedTeam | BlueTeam | RedProj | BlueProj

  /** `CAT`: each category is one bit of a 32-bit collision word. */
  function CatBit(c: Category): (b: bv32)
    ensures b != 0 && b & (b - 1) == 0
    ensures b <= 0x10
  {
    match c
    case Ground => 0x0001
    case RedTeam => 0x0002
    case BlueTeam => 0x0004
    case RedProj => 0x0008
    case BlueProj => 0x0010
  }

  /** Distinct categories have disjoint bits; in particular the five values are distinct. */
  lemma CatBitsDisjoint(a: Category, b: Category)
    ensures a != b <==> CatBit(a) & CatBit(b) == 0
    ensures a != b ==> CatBit(a) != CatBit(b)
  {
  }

  /** A mask of -1 (all 32 bits set), as the ground uses. */
  const ALL_BITS: bv32 := 0xFFFF_FFFF
}
