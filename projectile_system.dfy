/** Firing (lib/systems/projectile-system.ts): finding the shooter, the drag-to-velocity rule
    with its speed cap, the projectile's collision filter, the turn switch and the guarded
    removal of an expired projectile. `Math.hypot` is the parameter `norm`. */
module ProjectileSystem {
  import opened Types
  import opened Constants
  import opened MatterTypes
  import opened PhysicsWorld
  import opened GameStore
  import opened SpawnRects

  /** `norm` is a Euclidean length: non-negative and squaring to the sum of squares. */
  ghost predicate IsNorm(norm: (real, real) -> real)
  {
    forall a, b :: norm(a, b) >= 0.0 && norm(a, b) * norm(a, b) == a * a + b * b
  }

  /** The position of the first soldier of the team. */
  function FirstSoldier(bs: seq<Body>, team: Team): (k: Option<nat>)
    ensures k.Some? ==> k.value < |bs| && IsSoldierBody(bs[k.value]) && bs[k.value].team == Some(team)
    ensures k.Some? ==> forall j :: 0 <= j < k.value ==> !(IsSoldierBody(bs[j]) && bs[j].team == Some(team))
    ensures k.None? ==> forall j :: 0 <= j < |bs| ==> !(IsSoldierBody(bs[j]) && bs[j].team == Some(team))
  {
    if bs == [] then None
    else if IsSoldierBody(bs[0]) && bs[0].team == Some(team) then Some(0)
    else
      match FirstSoldier(bs[1..], team)
      case None => None
      case Some(k) => Some(k + 1)
  }

  /** `getCurrentSoldier`: the first soldier of the team in the world; none without an engine. */
  function GetCurrentSoldier(world: World?, team: Team): (s: Option<Body>)
    reads world
    ensures world == null ==> s == None
    ensures s.Some? ==> s.value in world.bodies && IsSoldierBody(s.value) && s.value.team == Some(team)
    ensures world != null && s.None? ==> forall b :: b in world.bodies ==> !(IsSoldierBody(b) && b.team == Some(team))
  {
    if world == null then None
    else
      match FirstSoldier(world.bodies, team)
      case None => None
      case Some(k) => Some(world.bodies[k])
  }

  /** A projectile's filter: its team's projectile bit, colliding with the ground and both teams. */
  function ProjectileFilter(team: Team): (f: CollisionFilter)
    ensures f.category == CatBit(if team == Red then RedProj else BlueProj)
    ensures f.mask == CatBit(Ground) | CatBit(RedTeam) | CatBit(BlueTeam)
    ensures f.mask & (CatBit(RedProj) | CatBit(BlueProj)) == 0
  {
    var isRed := team == Red;
    var enemyTeam := if isRed then CatBit(BlueTeam) else CatBit(RedTeam);
    CollisionFilter(if isRed then CatBit(RedProj) else CatBit(BlueProj),
                    CatBit(Ground) | enemyTeam | CatBit(RedTeam) | CatBit(BlueTeam))
  }

  /** A projectile hits the enemy's blocks and soldiers and passes through its own team's. */
  lemma ProjectileHitsEnemyOnly(shooter: Team, owner: Team)
    ensures CanCollide(ProjectileFilter(shooter), TeamCollision(owner)) <==> shooter != owner
  {
  }

  /** Projectiles never collide with each other or with placement previews, and always with the ground. */
  lemma ProjectileIgnores(a: Team, b: Team)
    ensures !CanCollide(ProjectileFilter(a), ProjectileFilter(b))
    ensures !CanCollide(ProjectileFilter(a), PlacementCollision(b))
    ensures CanCollide(ProjectileFilter(a), CollisionFilter(CatBit(Ground), ALL_BITS))
  {
  }

  /** Rescales `v` to length `max` when its length `speed` exceeds it (and is not zero). */
  function Capped(v: Point, speed: real, max: real): (r: Point)
    ensures speed <= max ==> r == v
  {
    if speed > max && speed != 0.0 then
      Scale(v, max / speed)
    else v
  }

  /** `v` multiplied by `k`. */
  function Scale(v: Point, k: real): Point
  {
    Point(v.x * k, v.y * k)
  }

  /** The drag vector times `velocityMultiplier`, before the cap. */
  function DragVelocity(dx: real, dy: real, cfg: GameConfig): (v: Point)
    ensures v.x == dx * cfg.velocityMultiplier && v.y == dy * cfg.velocityMultiplier
  {
    Point(dx * cfg.velocityMultiplier, dy * cfg.velocityMultiplier)
  }

  /** The launch velocity: the drag velocity, rescaled to `maxSpeed` when faster. */
  function LaunchVelocity(dx: real, dy: real, cfg: GameConfig, norm: (real, real) -> real): (v: Point)
  {
    var raw := DragVelocity(dx, dy, cfg);
    Capped(raw, norm(raw.x, raw.y), cfg.maxSpeed)
  }

  /** At or below the cap the velocity is the drag vector times `velocityMultiplier`. */
  lemma LaunchUncapped(dx: real, dy: real, cfg: GameConfig, norm: (real, real) -> real)
    requires var raw := DragVelocity(dx, dy, cfg); norm(raw.x, raw.y) <= cfg.maxSpeed
    ensures LaunchVelocity(dx, dy, cfg, norm) == DragVelocity(dx, dy, cfg)
  {
  }

  /** Above the cap the velocity keeps its direction (a multiple in (0, 1) of the drag velocity) and
      its length becomes exactly `maxSpeed`. */
  lemma LaunchCapped(dx: real, dy: real, cfg: GameConfig, norm: (real, real) -> real)
    requires IsNorm(norm) && cfg.maxSpeed > 0.0
    requires var raw := DragVelocity(dx, dy, cfg); norm(raw.x, raw.y) > cfg.maxSpeed
    ensures exists k :: 0.0 < k < 1.0 && LaunchVelocity(dx, dy, cfg, norm) == Scale(DragVelocity(dx, dy, cfg), k)
    ensures var v := LaunchVelocity(dx, dy, cfg, norm); v.x * v.x + v.y * v.y == cfg.maxSpeed * cfg.maxSpeed
  {
    var raw := DragVelocity(dx, dy, cfg);
    var speed := norm(raw.x, raw.y);
    CappedScales(raw, speed, cfg.maxSpeed);
    RatioBelowOne(cfg.maxSpeed, speed);
    var scale := cfg.maxSpeed / speed;
    assert 0.0 < scale < 1.0 && LaunchVelocity(dx, dy, cfg, norm) == Scale(raw, scale);
    ScaledLength(raw.x, raw.y, speed, scale, cfg.maxSpeed);
  }

  lemma CappedScales(v: Point, speed: real, max: real)
    requires 0.0 < max < speed
    ensures Capped(v, speed, max) == Scale(v, max / speed)
  {
  }

  lemma ScaledLength(x: real, y: real, speed: real, scale: real, max: real)
    requires speed * speed == x * x + y * y && scale * speed == max
    ensures (x * scale) * (x * scale) + (y * scale) * (y * scale) == max * max
  {
    calc {
      (x * scale) * (x * scale) + (y * scale) * (y * scale);
      == (scale * scale) * (x * x + y * y);
      == (scale * scale) * (speed * speed);
      == (scale * speed) * (scale * speed);
    }
  }

  lemma RatioBelowOne(a: real, b: real)
    requires 0.0 < a < b
    ensures 0.0 < a / b < 1.0
  {
    var q := a / b;
    assert q * b == a;
    if q >= 1.0 {
      assert false;
    }
    if q <= 0.0 {
      assert false;
    }
  }

  /** The projectile record before the world assigns its id. */
  function ProjectileRecord(x: real, y: real, team: Team, cfg: GameConfig, v: Point): (b: Body)
    ensures IsProjectileBody(b) && b.filter == ProjectileFilter(team)
    ensures b.pos == Point(x, y) && b.velocity == v && b.shape == CircleShape(cfg.projectileRadius)
  {
    Body(0, "projectile", None, 0.0, 0.0, [], ProjectileFilter(team), Point(x, y), v,
         CircleShape(cfg.projectileRadius), Surface(false, 0.005, 0.6, 0.008), [])
  }

  /** The minimum drag length that fires. */
  const MIN_DRAG: real := 10.0

  /** `fireProjectile`: without an engine, or for a drag shorter than 10, nothing happens. Otherwise
      exactly one projectile is added 30 above the soldier, with the launch velocity and the firing
      team's filter, and the turn passes to the other team once. The id of the new projectile is
      returned for the delayed removal. */
  method FireProjectile(world: World?, store: Store, soldier: Body, startX: real, startY: real,
                        currentX: real, currentY: real, currentPlayer: Team, norm: (real, real) -> real)
    returns (ball: Option<nat>)
    requires world != null ==> world.Valid()
    modifies {world}`bodies, {world}`nextId, store`currentPlayer
    ensures world != null ==> world.Valid()
    ensures world == null || norm(startX - currentX, startY - currentY) < MIN_DRAG ==>
      ball == None && store.currentPlayer == old(store.currentPlayer)
    ensures world != null && norm(startX - currentX, startY - currentY) < MIN_DRAG ==>
      world.bodies == old(world.bodies) && world.nextId == old(world.nextId)
    ensures world != null && norm(startX - currentX, startY - currentY) >= MIN_DRAG ==>
      ball == Some(old(world.nextId)) &&
      world.bodies == old(world.bodies) + [ProjectileRecord(soldier.pos.x, soldier.pos.y - 30.0, currentPlayer,
        store.config, LaunchVelocity(startX - currentX, startY - currentY, store.config, norm)).(id := ball.value)] &&
      store.currentPlayer == Other(old(store.currentPlayer))
  {
    if world == null {
      return None;
    }
    var dx := startX - currentX;
    var dy := startY - currentY;
    if norm(dx, dy) < MIN_DRAG {
      return None;
    }
    var spawnX := soldier.pos.x;
    var spawnY := soldier.pos.y - 30.0;
    var config := store.config;
    var v := LaunchVelocity(dx, dy, config, norm);
    var id := world.Add(ProjectileRecord(spawnX, spawnY, currentPlayer, config, v));
    store.SwitchPlayer();
    ball := Some(id);
  }

  /** The timer callback: removes the projectile only if it is still in the world. */
  method RemoveExpiredProjectile(world: World, ball: nat)
    requires world.Valid()
    modifies world`bodies
    ensures world.Valid() && !world.Includes(ball)
    ensures old(world.Includes(ball)) ==> world.bodies == Without(old(world.bodies), ball)
    ensures !old(world.Includes(ball)) ==> world.bodies == old(world.bodies)
  {
    if world.Includes(ball) {
      world.Remove(ball);
    }
  }
}
