/** The per-frame physics hooks (lib/systems/physics-system.ts): stepping the engine and
    removing destroyed blocks. A null world stands for "no engine yet". */
module PhysicsSystem {
  import opened Types
  import opened Constants
  import opened MatterTypes
  import opened PhysicsWorld

  /** A destroyed block: health at or below zero. Other bodies never die this way. */
  predicate IsDead(b: Body)
  {
    IsBlockBody(b) && b.health <= 0.0
  }

  /** The bodies that survive cleanup, in their original order. */
  function Survivors(bs: seq<Body>): (r: seq<Body>)
    ensures |r| <= |bs|
  {
    if bs == [] then []
    else Survivors(bs[..|bs| - 1]) + (if IsDead(bs[|bs| - 1]) then [] else [bs[|bs| - 1]])
  }

  /** Exactly the non-dead bodies survive: nothing dead remains, nothing alive is lost. */
  lemma {:induction false} SurvivorsMembers(bs: seq<Body>)
    ensures forall b :: b in Survivors(bs) <==> b in bs && !IsDead(b)
  {
    if bs != [] {
      var init := bs[..|bs| - 1];
      SurvivorsMembers(init);
      assert bs == init + [bs[|bs| - 1]];
    }
  }

  /** Cleanup works body by body, so it keeps the relative order of the survivors. */
  lemma {:induction false} SurvivorsAppend(a: seq<Body>, b: seq<Body>)
    ensures Survivors(a + b) == Survivors(a) + Survivors(b)
    decreases |b|
  {
    if b == [] {
      assert a + b == a;
    } else {
      assert (a + b)[..|a + b| - 1] == a + b[..|b| - 1];
      SurvivorsAppend(a, b[..|b| - 1]);
    }
  }

  /** A second cleanup removes nothing more. */
  lemma {:induction false} SurvivorsIdempotent(bs: seq<Body>)
    ensures Survivors(Survivors(bs)) == Survivors(bs)
  {
    if bs != [] {
      var init := bs[..|bs| - 1];
      var last := bs[|bs| - 1];
      SurvivorsIdempotent(init);
      var tail := if IsDead(last) then [] else [last];
      SurvivorsAppend(Survivors(init), tail);
      assert Survivors(tail) == tail by {
        if !IsDead(last) { assert tail[..0] == []; }
      }
    }
  }

  /** Removing a body whose id does not occur before it takes out exactly that body. */
  lemma WithoutFirst(a: seq<Body>, b: Body, c: seq<Body>)
    requires forall k :: 0 <= k < |a| ==> a[k].id != b.id
    ensures Without(a + [b] + c, b.id) == a + c
  {
    var s := a + [b] + c;
    assert s[|a|].id == b.id;
    var k := FindBody(s, b.id).value;
    assert k == |a|;
    WithoutSplice(s, b.id);
    assert s[..k] == a && s[k + 1..] == c;
  }

  lemma SurvivorsFrom(bs: seq<Body>, b: Body)
    requires b in Survivors(bs)
    ensures b in bs
  {
    SurvivorsMembers(bs);
  }

  /** The length of one frame in milliseconds. */
  const FRAME_MS: real := 1000.0 / 60.0

  /** `createEngine` and `createGhostEngine`: an empty world whose gravity is 1.5. */
  method CreateEngine() returns (world: World)
    ensures fresh(world) && world.Valid()
    ensures world.bodies == [] && world.gravityY == 1.5
  {
    world := new World();
    world.gravityY := 1.5;
  }

  /** `updatePhysics`: advances the engine by one frame scaled by `physicsSpeed`; the engine step
      itself is the function `step`. Without an engine nothing happens. */
  method UpdatePhysics(world: World?, cfg: GameConfig, step: (seq<Body>, real) -> seq<Body>)
    modifies {world}`bodies
    ensures world != null ==> world.bodies == step(old(world.bodies), FRAME_MS * cfg.physicsSpeed)
    ensures world != null ==> world.nextId == old(world.nextId)
  {
    if world == null {
      return;
    }
    world.bodies := step(world.bodies, (1000.0 / 60.0) * cfg.physicsSpeed);
  }

  /** `cleanupDeadBodies`: walks a snapshot of the bodies and removes every destroyed block.
      Survivors keep their order and their fields; no occupancy is touched. Without an engine
      nothing happens. */
  method CleanupDeadBodies(world: World?)
    requires world != null ==> world.Valid()
    modifies {world}`bodies
    ensures world != null ==> world.Valid()
    ensures world != null ==> world.bodies == Survivors(old(world.bodies)) && world.nextId == old(world.nextId)
  {
    if world == null {
      return;
    }
    RemoveDead(world);
  }

  /** The loop of `cleanupDeadBodies` over a snapshot of the world's bodies. */
  method RemoveDead(world: World)
    requires world.Valid()
    modifies world`bodies
    ensures world.Valid()
    ensures world.bodies == Survivors(old(world.bodies)) && world.nextId == old(world.nextId)
  {
    var bodies := world.bodies;
    ghost var n0 := world.nextId;
    var i := 0;
    while i < |bodies|
      invariant 0 <= i <= |bodies|
      invariant DistinctIds(bodies)
      invariant world.Valid() && world.nextId == n0
      invariant world.bodies == Survivors(bodies[..i]) + bodies[i..]
    {
      RemoveIfDead(world, bodies, i);
      i := i + 1;
    }
    assert bodies[..i] == bodies;
  }

  /** One iteration: the snapshot's i-th body is removed when it is a destroyed block. */
  method RemoveIfDead(world: World, bodies: seq<Body>, i: nat)
    requires i < |bodies| && DistinctIds(bodies)
    requires world.Valid() && world.bodies == Survivors(bodies[..i]) + bodies[i..]
    modifies world`bodies
    ensures world.Valid() && world.nextId == old(world.nextId)
    ensures world.bodies == Survivors(bodies[..i + 1]) + bodies[i + 1..]
  {
    var b := bodies[i];
    if IsBlockBody(b) && b.health <= 0.0 {
      CleanupStepDead(bodies, i);
      world.Remove(b.id);
    } else {
      CleanupStepAlive(bodies, i);
    }
  }

  lemma CleanupStepDead(bodies: seq<Body>, i: nat)
    requires i < |bodies| && DistinctIds(bodies) && IsDead(bodies[i])
    ensures Without(Survivors(bodies[..i]) + bodies[i..], bodies[i].id) == Survivors(bodies[..i + 1]) + bodies[i + 1..]
  {
    var b := bodies[i];
    assert bodies[..i + 1] == bodies[..i] + [b];
    assert bodies[..i + 1][..i] == bodies[..i];
    var front := Survivors(bodies[..i]);
    forall k | 0 <= k < |front| ensures front[k].id != b.id {
      assert front[k] in front;
      SurvivorsFrom(bodies[..i], front[k]);
      var m :| 0 <= m < i && bodies[m] == front[k];
    }
    assert bodies[i..] == [b] + bodies[i + 1..];
    assert front + bodies[i..] == front + [b] + bodies[i + 1..];
    WithoutFirst(front, b, bodies[i + 1..]);
  }

  lemma CleanupStepAlive(bodies: seq<Body>, i: nat)
    requires i < |bodies| && !IsDead(bodies[i])
    ensures Survivors(bodies[..i]) + bodies[i..] == Survivors(bodies[..i + 1]) + bodies[i + 1..]
  {
    var b := bodies[i];
    assert bodies[..i + 1] == bodies[..i] + [b];
    assert bodies[..i + 1][..i] == bodies[..i];
    assert bodies[i..] == [b] + bodies[i + 1..];
  }

  /** `clearEngines`: every body of each existing engine goes; a missing engine is skipped. */
  method ClearEngines(engine: World?, ghostEngine: World?)
    modifies {engine}`bodies, {ghostEngine}`bodies
    ensures engine != null ==> engine.Valid() && engine.bodies == []
    ensures ghostEngine != null ==> ghostEngine.Valid() && ghostEngine.bodies == []
  {
    if engine != null {
      engine.Clear();
    }
    if ghostEngine != null {
      ghostEngine.Clear();
    }
  }
}
