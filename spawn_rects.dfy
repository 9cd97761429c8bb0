/** The block-body factory and the team collision filters (lib/building/spawn-rects.ts). */
module SpawnRects {
  import opened Types
  import opened Constants
  import opened MatterTypes
  import opened Registry

  /** The engine properties of each material; only stone is static. */
  function SurfaceOf(m: Material): (s: Surface)
    ensures s.isStatic <==> m == Stone
    ensures m == Stone ==> s == Surface(true, 0.8, 0.1, 0.01)
    ensures m == Steel ==> s == Surface(false, 0.8, 0.1, 0.05)
    ensures m == Glass ==> s == Surface(false, 0.05, 0.8, 0.0015)
    ensures m == Wood ==> s == Surface(false, 0.8, 0.1, 0.002)
  {
    match m
    case Stone => Surface(true, 0.8, 0.1, 0.01)
    case Steel => Surface(false, 0.8, 0.1, 0.05)
    case Glass => Surface(false, 0.05, 0.8, 0.0015)
    case Wood => Surface(false, 0.8, 0.1, 0.002)
  }

  /** The configured full health of a material; wood uses `blockMaxHealth`. */
  function MaxHealthOf(cfg: GameConfig, m: Material): (h: real)
    ensures m == Wood ==> h == cfg.blockMaxHealth
    ensures m == Steel ==> h == cfg.steelMaxHealth
    ensures m == Stone ==> h == cfg.stoneMaxHealth
    ensures m == Glass ==> h == cfg.glassMaxHealth
  {
    match m
    case Wood => cfg.blockMaxHealth
    case Steel => cfg.steelMaxHealth
    case Stone => cfg.stoneMaxHealth
    case Glass => cfg.glassMaxHealth
  }

  /** The modulus of the texture generator. */
  const LCG_MOD: real := 233280.0

  /** JavaScript's `%` on numbers: the remainder takes the sign of the dividend. */
  function JsRem(a: real, n: real): (r: real)
    requires n > 0.0
  {
    var q := a / n;
    var t := if q >= 0.0 then q.Floor else -((-q).Floor);
    a - n * t as real
  }

  /** One step of the generator: `(seed * 9301 + 49297) % 233280`. */
  function NextSeed(seed: real): (s: real)
    ensures seed >= 0.0 ==> 0.0 <= s < LCG_MOD
  {
    var a := seed * 9301.0 + 49297.0;
    JsRemBounds(a);
    JsRem(a, LCG_MOD)
  }

  /** For a non-negative dividend the JavaScript remainder lies in [0, 233280). */
  lemma JsRemBounds(a: real)
    ensures a >= 0.0 ==> 0.0 <= JsRem(a, LCG_MOD) < LCG_MOD
    ensures a < 0.0 ==> -LCG_MOD < JsRem(a, LCG_MOD) <= 0.0
  {
    var q := a / LCG_MOD;
    assert a == q * LCG_MOD;
    if q >= 0.0 {
      var f := q.Floor as real;
      assert f <= q < f + 1.0;
      assert f * LCG_MOD <= a < f * LCG_MOD + LCG_MOD;
    } else {
      var f := (-q).Floor as real;
      assert f <= -q < f + 1.0;
      assert -(f * LCG_MOD) - LCG_MOD < a <= -(f * LCG_MOD);
    }
  }

  /** The speckle drawn from three consecutive generator values. */
  function Spot(s1: real, s2: real, s3: real, worldW: real, worldH: real): TextureSpot
  {
    TextureSpot((s1 / LCG_MOD - 0.5) * worldW * 0.8, (s2 / LCG_MOD - 0.5) * worldH * 0.8, 2.0 + s3 / LCG_MOD * 3.0)
  }

  /** `k` speckles, each drawing three values from the generator, starting after `seed`. */
  function TextureFrom(seed: real, k: nat, worldW: real, worldH: real): (spots: seq<TextureSpot>)
    ensures |spots| == k
    decreases k
  {
    if k == 0 then []
    else
      var s1 := NextSeed(seed);
      var s2 := NextSeed(s1);
      var s3 := NextSeed(s2);
      [Spot(s1, s2, s3, worldW, worldH)] + TextureFrom(s3, k - 1, worldW, worldH)
  }

  /** The eight-speckle texture of a stone block, seeded by its centre. */
  function StoneTexture(worldX: real, worldY: real, worldW: real, worldH: real): (spots: seq<TextureSpot>)
    ensures |spots| == 8
  {
    TextureFrom(worldX * 1000.0 + worldY, 8, worldW, worldH)
  }

  /** A speckle's offset from the centre stays within 40% of the block's width and height,
      and its size is in [2, 5). */
  predicate SpotInBounds(t: TextureSpot, worldW: real, worldH: real)
  {
    -0.4 * worldW <= t.x < 0.4 * worldW && -0.4 * worldH <= t.y < 0.4 * worldH && 2.0 <= t.size < 5.0
  }

  /** (u / M - 0.5) * w * 0.8 lies in [-0.4 w, 0.4 w) when 0 <= u < M and w > 0. */
  lemma ScaledOffset(u: real, w: real)
    requires 0.0 <= u < LCG_MOD && w > 0.0
    ensures -0.4 * w <= (u / LCG_MOD - 0.5) * w * 0.8 < 0.4 * w
  {
    var t := u / LCG_MOD;
    assert 0.0 <= t < 1.0;
    var v := (t - 0.5) * w * 0.8;
    assert v + 0.4 * w == t * w * 0.8;
    assert 0.4 * w - v == (1.0 - t) * w * 0.8;
    ProductNonNegative(t, w * 0.8);
    ProductPositive(1.0 - t, w * 0.8);
  }

  lemma ProductNonNegative(a: real, b: real)
    requires a >= 0.0 && b > 0.0
    ensures a * b >= 0.0
  {
  }

  lemma ProductPositive(a: real, b: real)
    requires a > 0.0 && b > 0.0
    ensures a * b > 0.0
  {
  }

  /** Three generator values in [0, 233280) give an in-bounds speckle. */
  lemma SpotBounds(s1: real, s2: real, s3: real, worldW: real, worldH: real)
    requires 0.0 <= s1 < LCG_MOD && 0.0 <= s2 < LCG_MOD && 0.0 <= s3 < LCG_MOD
    requires worldW > 0.0 && worldH > 0.0
    ensures SpotInBounds(Spot(s1, s2, s3, worldW, worldH), worldW, worldH)
  {
    ScaledOffset(s1, worldW);
    ScaledOffset(s2, worldH);
    assert 0.0 <= s3 / LCG_MOD < 1.0;
  }

  /** One unfolding of the speckle sequence. */
  lemma TextureFromStep(seed: real, k: nat, worldW: real, worldH: real)
    requires k > 0
    ensures TextureFrom(seed, k, worldW, worldH) ==
      [Spot(NextSeed(seed), NextSeed(NextSeed(seed)), NextSeed(NextSeed(NextSeed(seed))), worldW, worldH)] +
      TextureFrom(NextSeed(NextSeed(NextSeed(seed))), k - 1, worldW, worldH)
  {
  }

  /** From a non-negative seed every speckle is in bounds. */
  lemma {:induction false} TextureFromBounds(seed: real, k: nat, worldW: real, worldH: real)
    requires seed >= 0.0 && worldW > 0.0 && worldH > 0.0
    ensures forall i :: 0 <= i < k ==> SpotInBounds(TextureFrom(seed, k, worldW, worldH)[i], worldW, worldH)
    decreases k
  {
    if k > 0 {
      var s1 := NextSeed(seed);
      var s2 := NextSeed(s1);
      var s3 := NextSeed(s2);
      SpotBounds(s1, s2, s3, worldW, worldH);
      TextureFromBounds(s3, k - 1, worldW, worldH);
      TextureFromStep(seed, k, worldW, worldH);
      var spots := TextureFrom(seed, k, worldW, worldH);
      var rest := TextureFrom(s3, k - 1, worldW, worldH);
      forall i | 0 <= i < k ensures SpotInBounds(spots[i], worldW, worldH) {
        if i > 0 {
          assert spots[i] == rest[i - 1];
        }
      }
    }
  }

  /** A stone block whose centre has non-negative coordinates gets eight in-bounds speckles. */
  lemma StoneTextureBounds(worldX: real, worldY: real, worldW: real, worldH: real)
    requires worldX >= 0.0 && worldY >= 0.0 && worldW > 0.0 && worldH > 0.0
    ensures forall i :: 0 <= i < 8 ==> SpotInBounds(StoneTexture(worldX, worldY, worldW, worldH)[i], worldW, worldH)
  {
    TextureFromBounds(worldX * 1000.0 + worldY, 8, worldW, worldH);
  }

  /** The collision filter of a placed block or soldier: category is its team bit; it collides with the
      ground, both teams and the enemy's projectiles only. */
  function TeamCollision(team: Team): (f: CollisionFilter)
    ensures f.category == CatBit(if team == Red then RedTeam else BlueTeam)
    ensures f.mask == CatBit(Ground) | CatBit(RedTeam) | CatBit(BlueTeam) | CatBit(if team == Red then BlueProj else RedProj)
  {
    var isRed := team == Red;
    CollisionFilter(
      if isRed then CatBit(RedTeam) else CatBit(BlueTeam),
      CatBit(Ground) | CatBit(RedTeam) | CatBit(BlueTeam) | (if isRed then CatBit(BlueProj) else CatBit(RedProj)))
  }

  /** The filter of a placement preview: same category, but no projectile bit in the mask. */
  function PlacementCollision(team: Team): (f: CollisionFilter)
    ensures f.category == TeamCollision(team).category
    ensures f.mask & (CatBit(RedProj) | CatBit(BlueProj)) == 0
    ensures f.mask == CatBit(Ground) | CatBit(RedTeam) | CatBit(BlueTeam)
  {
    CollisionFilter(if team == Red then CatBit(RedTeam) else CatBit(BlueTeam), CatBit(Ground) | CatBit(RedTeam) | CatBit(BlueTeam))
  }

  /** A team mask holds exactly one projectile bit: the enemy's. */
  lemma TeamMaskProjectileBits(team: Team)
    ensures TeamCollision(team).mask & CatBit(if team == Red then BlueProj else RedProj) != 0
    ensures TeamCollision(team).mask & CatBit(if team == Red then RedProj else BlueProj) == 0
  {
  }

  /** Blocks and soldiers of any two teams collide with each other. */
  lemma TeamBodiesCollide(a: Team, b: Team)
    ensures CanCollide(TeamCollision(a), TeamCollision(b))
    ensures CanCollide(TeamCollision(a), PlacementCollision(b))
  {
  }

  /** The block record the factory hands to the engine, before its stone texture is attached. */
  function BlockRecord(worldX: real, worldY: real, worldW: real, worldH: real, material: Material,
                       team: Team, cfg: GameConfig, collision: CollisionFilter, gridCells: seq<Cell>): (b: Body)
    ensures IsBlockBody(b) && b.tag == MaterialLabel(material)
  {
    Body(0, MaterialLabel(material), Some(team), MaxHealthOf(cfg, material), MaxHealthOf(cfg, material),
         gridCells, collision, Point(worldX, worldY), Point(0.0, 0.0), RectShape(worldW, worldH),
         SurfaceOf(material), [])
  }

  /** `spawnRectBody`: a block body at the given centre and size, labelled after its material, at full
      health for that material, with the given team, filter and cells; a stone block also carries the
      eight speckles seeded by `worldX * 1000 + worldY`. */
  method SpawnRectBody(worldX: real, worldY: real, worldW: real, worldH: real, material: Material,
                       team: Team, cfg: GameConfig, collision: CollisionFilter, gridCells: seq<Cell>)
    returns (body: Body)
    ensures IsBlockBody(body) && body.tag == MaterialLabel(material)
    ensures body.team == Some(team)
    ensures body.health == body.maxHealth == MaxHealthOf(cfg, material)
    ensures body.gridCells == gridCells && body.filter == collision
    ensures body.pos == Point(worldX, worldY) && body.shape == RectShape(worldW, worldH)
    ensures body.surface == SurfaceOf(material) && (body.surface.isStatic <==> material == Stone)
    ensures material == Stone ==> body.stoneTexture == StoneTexture(worldX, worldY, worldW, worldH)
    ensures material != Stone ==> body.stoneTexture == []
    ensures body == BlockRecord(worldX, worldY, worldW, worldH, material, team, cfg, collision, gridCells)
                      .(stoneTexture := body.stoneTexture)
  {
    body := BlockRecord(worldX, worldY, worldW, worldH, material, team, cfg, collision, gridCells);
    if material == Stone {
      var textureSpots := StoneSpeckles(worldX, worldY, worldW, worldH);
      body := body.(stoneTexture := textureSpots);
    }
  }

  /** Lines 50-66: eight speckles drawn from the generator seeded by the block's centre,
      three values per speckle. */
  method StoneSpeckles(worldX: real, worldY: real, worldW: real, worldH: real) returns (textureSpots: seq<TextureSpot>)
    ensures textureSpots == StoneTexture(worldX, worldY, worldW, worldH)
  {
    textureSpots := [];
    var seed := worldX * 1000.0 + worldY;
    var seedValue := seed;
    var i := 0;
    while i < 8
      invariant 0 <= i <= 8
      invariant textureSpots + TextureFrom(seedValue, 8 - i, worldW, worldH) == TextureFrom(seed, 8, worldW, worldH)
    {
      TextureFromStep(seedValue, 8 - i, worldW, worldH);
      seedValue := NextSeed(seedValue);
      var s1 := seedValue;
      seedValue := NextSeed(seedValue);
      var s2 := seedValue;
      seedValue := NextSeed(seedValue);
      var s3 := seedValue;
      var spot := Spot(s1, s2, s3, worldW, worldH);
      SpotsAssoc(textureSpots, [spot], TextureFrom(seedValue, 8 - (i + 1), worldW, worldH));
      textureSpots := textureSpots + [spot];
      i := i + 1;
    }
  }

  lemma SpotsAssoc(a: seq<TextureSpot>, b: seq<TextureSpot>, c: seq<TextureSpot>)
    ensures (a + b) + c == a + (b + c)
  {
  }
}
