/** Collision damage (lib/systems/collision-system.ts): every pair of a collision event
    whose relative speed exceeds the threshold damages both of its bodies by the same
    amount; blocks lose health and show a floating number. The relative speed of each
    pair, computed by the engine, and the two random draws per damaged body are inputs. */
module CollisionSystem {
  import opened Types
  import opened Constants
  import opened MatterTypes
  import opened PhysicsWorld
  import opened GameStore

  /** The two `Math.random()` draws of one damage text, each in [0, 1). */
  datatype Jitter = Jitter(dx: real, dvy: real)

  /** One colliding pair: the two bodies' ids, the magnitude of their velocity difference and
      the random draws used if either shows a damage text. */
  datatype CollisionPair = CollisionPair(bodyA: nat, bodyB: nat, relVel: real, jitterA: Jitter, jitterB: Jitter)

  /** `(relVel - minDamageVelocity) * damageMultiplier`. */
  function Damage(relVel: real, cfg: GameConfig): real
  {
    (relVel - cfg.minDamageVelocity) * cfg.damageMultiplier
  }

  /** The damage a pair deals to each of its bodies, if its relative speed is above the threshold. */
  function PairDamage(p: CollisionPair, cfg: GameConfig): (d: Option<real>)
    ensures d.Some? <==> p.relVel > cfg.minDamageVelocity
    ensures d.Some? ==> d.value == Damage(p.relVel, cfg)
    ensures d.Some? && cfg.damageMultiplier > 0.0 ==> d.value > 0.0
  {
    if p.relVel > cfg.minDamageVelocity then
      ProductPositive(p.relVel - cfg.minDamageVelocity, cfg.damageMultiplier);
      Some(Damage(p.relVel, cfg))
    else None
  }

  lemma ProductPositive(a: real, b: real)
    requires a > 0.0
    ensures b > 0.0 ==> a * b > 0.0
  {
  }

  /** The damage text of a block at `pos`: big hits (over 20) are larger, red and live longer. */
  function DamageText(pos: Point, damage: real, j: Jitter): (t: FloatingText)
    ensures damage > 20.0 ==> t.size == 24.0 && t.life == 1.5 && t.color == "#ff4d4d"
    ensures damage <= 20.0 ==> t.size == 14.0 && t.life == 0.8 && t.color == "#ffffff"
    ensures t.life == t.maxLife && t.text == JsRound(damage) && t.y == pos.y - 20.0
    ensures t.x == pos.x + (j.dx - 0.5) * 20.0 && t.vy == -1.0 - j.dvy
  {
    var isBigHit := damage > 20.0;
    var lifeTime := if isBigHit then 1.5 else 0.8;
    FloatingText(pos.x + (j.dx - 0.5) * 20.0, pos.y - 20.0, JsRound(damage), lifeTime, lifeTime,
                 if isBigHit then "#ff4d4d" else "#ffffff", if isBigHit then 24.0 else 14.0, -1.0 - j.dvy * 1.0)
  }

  /** A body after losing `total` health: only blocks are affected, and there is no clamp at 0. */
  function Hit(b: Body, total: real): (r: Body)
    ensures IsBlockBody(b) ==> r == b.(health := b.health - total)
    ensures !IsBlockBody(b) ==> r == b
  {
    if IsBlockBody(b) then b.(health := b.health - total) else b
  }

  /** Every body with the given id hit by `damage`. */
  function Damaged(bs: seq<Body>, id: nat, damage: real): (r: seq<Body>)
    ensures |r| == |bs|
    ensures forall k :: 0 <= k < |bs| ==> r[k] == (if bs[k].id == id then Hit(bs[k], damage) else bs[k])
  {
    seq(|bs|, k requires 0 <= k < |bs| => if bs[k].id == id then Hit(bs[k], damage) else bs[k])
  }

  /** The text `applyDamage` emits: one for a block in the world hit by more than 1, none otherwise. */
  function TextsFor(bs: seq<Body>, id: nat, damage: real, j: Jitter): (ts: seq<FloatingText>)
    ensures |ts| <= 1
    ensures |ts| == 1 <==> FindBody(bs, id).Some? && IsBlockBody(bs[FindBody(bs, id).value]) && damage > 1.0
    ensures |ts| == 1 ==> ts[0] == DamageText(bs[FindBody(bs, id).value].pos, damage, j)
  {
    match FindBody(bs, id)
    case None => []
    case Some(k) => if IsBlockBody(bs[k]) && damage > 1.0 then [DamageText(bs[k].pos, damage, j)] else []
  }

  /** Hitting bodies leaves the texts other hits would emit unchanged: ids, labels and positions stay. */
  lemma TextsAfterHit(bs: seq<Body>, hitId: nat, d: real, id: nat, damage: real, j: Jitter)
    ensures TextsFor(Damaged(bs, hitId, d), id, damage, j) == TextsFor(bs, id, damage, j)
  {
    var r := Damaged(bs, hitId, d);
    assert forall k :: 0 <= k < |bs| ==> r[k].id == bs[k].id && r[k].tag == bs[k].tag && r[k].pos == bs[k].pos;
    SameIdsSameFind(bs, r, id);
  }

  lemma {:induction false} SameIdsSameFind(a: seq<Body>, b: seq<Body>, id: nat)
    requires |a| == |b| && forall k :: 0 <= k < |a| ==> a[k].id == b[k].id
    ensures FindBody(a, id) == FindBody(b, id)
  {
    if |a| > 0 {
      SameIdsSameFind(a[1..], b[1..], id);
    }
  }

  /** `applyDamage` on the body with the given id: a block loses exactly `damage` health and, when
      `damage` > 1, a text is appended; any other body, or an id not in the world, changes nothing. */
  method ApplyDamage(world: World, store: Store, id: nat, damage: real, j: Jitter)
    requires world.Valid()
    modifies world`bodies, store`floatingTexts
    ensures world.Valid()
    ensures world.bodies == Damaged(old(world.bodies), id, damage)
    ensures store.floatingTexts == old(store.floatingTexts) + TextsFor(old(world.bodies), id, damage, j)
  {
    var found := FindBody(world.bodies, id);
    if found.Some? {
      var k := found.value;
      var body := world.bodies[k];
      if IsBlockBody(body) {
        world.bodies := world.bodies[k := body.(health := body.health - damage)];
        if damage > 1.0 {
          store.AddFloatingText(DamageText(body.pos, damage, j));
        }
      }
    }
    assert world.bodies == Damaged(old(world.bodies), id, damage);
  }

  /** The damage a body with the given id takes in total from the pairs: each qualifying pair counts
      once for each side the body is on. */
  function DamageTo(pairs: seq<CollisionPair>, id: nat, cfg: GameConfig): real
  {
    if pairs == [] then 0.0
    else
      var p := pairs[|pairs| - 1];
      DamageTo(pairs[..|pairs| - 1], id, cfg) + SideDamage(p, id, cfg)
  }

  /** The damage one pair deals to the body with the given id. */
  function SideDamage(p: CollisionPair, id: nat, cfg: GameConfig): real
  {
    match PairDamage(p, cfg)
    case None => 0.0
    case Some(d) => (if p.bodyA == id then d else 0.0) + (if p.bodyB == id then d else 0.0)
  }

  /** Total damage is never negative for a non-negative multiplier, and a body in no pair takes none. */
  lemma {:induction false} DamageToFacts(pairs: seq<CollisionPair>, id: nat, cfg: GameConfig)
    ensures cfg.damageMultiplier >= 0.0 ==> DamageTo(pairs, id, cfg) >= 0.0
    ensures (forall i :: 0 <= i < |pairs| ==> pairs[i].bodyA != id && pairs[i].bodyB != id) ==> DamageTo(pairs, id, cfg) == 0.0
  {
    if pairs != [] {
      var p := pairs[|pairs| - 1];
      DamageToFacts(pairs[..|pairs| - 1], id, cfg);
      var d := PairDamage(p, cfg);
      if d.Some? && cfg.damageMultiplier >= 0.0 {
        ProductNonNegative(p.relVel - cfg.minDamageVelocity, cfg.damageMultiplier);
      }
    }
  }

  lemma ProductNonNegative(a: real, b: real)
    requires a > 0.0 && b >= 0.0
    ensures a * b >= 0.0
  {
  }

  /** Damage adds up across consecutive stretches of pairs. */
  lemma {:induction false} DamageToAppend(p: seq<CollisionPair>, q: seq<CollisionPair>, id: nat, cfg: GameConfig)
    ensures DamageTo(p + q, id, cfg) == DamageTo(p, id, cfg) + DamageTo(q, id, cfg)
    decreases |q|
  {
    if q == [] {
      assert p + q == p;
    } else {
      assert (p + q)[..|p + q| - 1] == p + q[..|q| - 1];
      DamageToAppend(p, q[..|q| - 1], id, cfg);
    }
  }

  /** The texts one pair emits, A's before B's. */
  function PairTexts(bs: seq<Body>, p: CollisionPair, cfg: GameConfig): (ts: seq<FloatingText>)
    ensures PairDamage(p, cfg).None? ==> ts == []
    ensures |ts| <= 2
  {
    match PairDamage(p, cfg)
    case None => []
    case Some(d) => TextsFor(bs, p.bodyA, d, p.jitterA) + TextsFor(bs, p.bodyB, d, p.jitterB)
  }

  /** The texts of a whole event, pair by pair. */
  function EventTexts(bs: seq<Body>, pairs: seq<CollisionPair>, cfg: GameConfig): (ts: seq<FloatingText>)
    ensures |ts| <= 2 * |pairs|
  {
    if pairs == [] then [] else EventTexts(bs, pairs[..|pairs| - 1], cfg) + PairTexts(bs, pairs[|pairs| - 1], cfg)
  }

  /** The state of the bodies after the first pairs: each block has lost the damage dealt to it so far. */
  ghost predicate HitSoFar(now: seq<Body>, before: seq<Body>, pairs: seq<CollisionPair>, cfg: GameConfig)
  {
    |now| == |before| &&
    forall k :: 0 <= k < |before| ==> now[k] == Hit(before[k], DamageTo(pairs, before[k].id, cfg))
  }

  lemma HitStep(now: seq<Body>, before: seq<Body>, pairs: seq<CollisionPair>, p: CollisionPair, cfg: GameConfig,
                mid: seq<Body>, after: seq<Body>)
    requires HitSoFar(now, before, pairs, cfg)
    requires PairDamage(p, cfg).Some?
    requires mid == Damaged(now, p.bodyA, PairDamage(p, cfg).value)
    requires after == Damaged(mid, p.bodyB, PairDamage(p, cfg).value)
    ensures HitSoFar(after, before, pairs + [p], cfg)
  {
    var pairs' := pairs + [p];
    assert pairs'[..|pairs'| - 1] == pairs;
    forall k | 0 <= k < |before|
      ensures after[k] == Hit(before[k], DamageTo(pairs', before[k].id, cfg))
    {
      assert now[k].id == before[k].id && mid[k].id == before[k].id;
    }
  }

  lemma NoHitStep(now: seq<Body>, before: seq<Body>, pairs: seq<CollisionPair>, p: CollisionPair, cfg: GameConfig)
    requires HitSoFar(now, before, pairs, cfg)
    requires PairDamage(p, cfg).None?
    ensures HitSoFar(now, before, pairs + [p], cfg)
  {
    var pairs' := pairs + [p];
    assert pairs'[..|pairs'| - 1] == pairs;
  }

  lemma HitZero(bs: seq<Body>, cfg: GameConfig)
    ensures HitSoFar(bs, bs, [], cfg)
  {
    forall k | 0 <= k < |bs| ensures bs[k] == Hit(bs[k], 0.0) {
      if IsBlockBody(bs[k]) { assert bs[k].(health := bs[k].health - 0.0) == bs[k]; }
    }
  }

  /** `handleCollisions`: pair by pair, a qualifying pair damages A then B. Afterwards every block has
      lost exactly the sum of the damages of the qualifying pairs it took part in, every other body is
      unchanged, and the emitted texts are appended in pair order. */
  method HandleCollisions(world: World, store: Store, pairs: seq<CollisionPair>, cfg: GameConfig)
    requires world.Valid()
    modifies world`bodies, store`floatingTexts
    ensures world.Valid()
    ensures HitSoFar(world.bodies, old(world.bodies), pairs, cfg)
    ensures store.floatingTexts == old(store.floatingTexts) + EventTexts(old(world.bodies), pairs, cfg)
  {
    ghost var before := world.bodies;
    ghost var texts0 := store.floatingTexts;
    HitZero(before, cfg);
    var i := 0;
    while i < |pairs|
      invariant 0 <= i <= |pairs|
      invariant world.Valid()
      invariant HitSoFar(world.bodies, before, pairs[..i], cfg)
      invariant store.floatingTexts == texts0 + EventTexts(before, pairs[..i], cfg)
    {
      ghost var texts := store.floatingTexts;
      HandlePair(world, store, pairs[i], cfg, before, pairs[..i]);
      LoopStep(before, pairs, i, cfg, world.bodies, texts0, texts, store.floatingTexts);
      i := i + 1;
    }
    assert pairs[..i] == pairs;
  }

  lemma LoopStep(before: seq<Body>, pairs: seq<CollisionPair>, i: nat, cfg: GameConfig, bodies: seq<Body>,
                 texts0: seq<FloatingText>, texts: seq<FloatingText>, texts': seq<FloatingText>)
    requires i < |pairs|
    requires texts == texts0 + EventTexts(before, pairs[..i], cfg)
    requires texts' == texts + PairTexts(before, pairs[i], cfg)
    requires HitSoFar(bodies, before, pairs[..i] + [pairs[i]], cfg)
    ensures texts' == texts0 + EventTexts(before, pairs[..i + 1], cfg)
    ensures HitSoFar(bodies, before, pairs[..i + 1], cfg)
  {
    SliceSnoc(pairs, i);
    EventTextsStep(before, pairs[..i], pairs[i], cfg);
    TextsAssoc(texts0, EventTexts(before, pairs[..i], cfg), PairTexts(before, pairs[i], cfg));
  }

  lemma SliceSnoc(pairs: seq<CollisionPair>, i: nat)
    requires i < |pairs|
    ensures pairs[..i + 1] == pairs[..i] + [pairs[i]]
  {
  }

  lemma TextsAssoc(a: seq<FloatingText>, b: seq<FloatingText>, c: seq<FloatingText>)
    ensures (a + b) + c == a + (b + c)
  {
  }

  lemma EventTextsStep(bs: seq<Body>, pairs: seq<CollisionPair>, p: CollisionPair, cfg: GameConfig)
    ensures EventTexts(bs, pairs + [p], cfg) == EventTexts(bs, pairs, cfg) + PairTexts(bs, p, cfg)
  {
    assert (pairs + [p])[..|pairs + [p]| - 1] == pairs;
  }

  /** The body of the loop of `handleCollisions`, for one pair. */
  method HandlePair(world: World, store: Store, pair: CollisionPair, cfg: GameConfig,
                    ghost before: seq<Body>, ghost done: seq<CollisionPair>)
    requires world.Valid() && HitSoFar(world.bodies, before, done, cfg)
    modifies world`bodies, store`floatingTexts
    ensures world.Valid() && HitSoFar(world.bodies, before, done + [pair], cfg)
    ensures store.floatingTexts == old(store.floatingTexts) + PairTexts(before, pair, cfg)
  {
    var relVel := pair.relVel;
    if relVel > cfg.minDamageVelocity {
      var damage := Damage(relVel, cfg);
      ghost var now := world.bodies;
      SameTexts(before, now, done, cfg, pair.bodyA, damage, pair.jitterA);
      SameTexts(before, now, done, cfg, pair.bodyB, damage, pair.jitterB);
      ApplyDamage(world, store, pair.bodyA, damage, pair.jitterA);
      ghost var mid := world.bodies;
      TextsAfterHit(now, pair.bodyA, damage, pair.bodyB, damage, pair.jitterB);
      ApplyDamage(world, store, pair.bodyB, damage, pair.jitterB);
      HitStep(now, before, done, pair, cfg, mid, world.bodies);
    } else {
      NoHitStep(world.bodies, before, done, pair, cfg);
    }
  }

  /** The bodies part way through an event emit the same texts as the bodies before it. */
  lemma SameTexts(before: seq<Body>, now: seq<Body>, pairs: seq<CollisionPair>, cfg: GameConfig,
                  id: nat, damage: real, j: Jitter)
    requires HitSoFar(now, before, pairs, cfg)
    ensures TextsFor(now, id, damage, j) == TextsFor(before, id, damage, j)
  {
    assert forall k :: 0 <= k < |before| ==> now[k].id == before[k].id && now[k].tag == before[k].tag && now[k].pos == before[k].pos;
    SameIdsSameFind(before, now, id);
  }
}
