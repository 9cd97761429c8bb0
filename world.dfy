/** The physics world as the game sees it: an ordered list of body records.
    Adding assigns each body a fresh id (the engine's body identity); removing
    takes out the body with that id. */
module PhysicsWorld {
  import opened Types
  import opened MatterTypes

  /** The position of the first body with the given id, if any. */
  function FindBody(bs: seq<Body>, id: nat): (k: Option<nat>)
    ensures k.Some? ==> k.value < |bs| && bs[k.value].id == id
    ensures k.Some? ==> forall j :: 0 <= j < k.value ==> bs[j].id != id
    ensures k.None? <==> forall j :: 0 <= j < |bs| ==> bs[j].id != id
  {
    if |bs| == 0 then None
    else if bs[0].id == id then Some(0)
    else
      match FindBody(bs[1..], id)
      case None => None
      case Some(k) => Some(k + 1)
  }

  /** No two bodies share an id. */
  predicate DistinctIds(bs: seq<Body>)
  {
    forall i, j :: 0 <= i < j < |bs| ==> bs[i].id != bs[j].id
  }

  /** The list without the first body carrying the given id (unchanged when there is none). */
  function Without(bs: seq<Body>, id: nat): (r: seq<Body>)
    ensures FindBody(bs, id).None? ==> r == bs
    ensures FindBody(bs, id).Some? ==> |r| == |bs| - 1
  {
    if |bs| == 0 then []
    else if bs[0].id == id then bs[1..]
    else [bs[0]] + Without(bs[1..], id)
  }

  /** Removing the body at the first position holding the id is cutting that position out. */
  lemma {:induction false} WithoutSplice(bs: seq<Body>, id: nat)
    ensures FindBody(bs, id).Some? ==>
      var k := FindBody(bs, id).value; Without(bs, id) == bs[..k] + bs[k + 1..]
  {
    if |bs| > 0 && bs[0].id != id {
      var t := bs[1..];
      WithoutSplice(t, id);
      if FindBody(t, id).Some? {
        var k := FindBody(t, id).value;
        assert bs[..k + 1] == [bs[0]] + t[..k];
        assert bs[k + 2..] == t[k + 1..];
      }
    }
  }

  /** Cutting position k out of a list with distinct ids keeps them distinct and drops
      exactly the bodies carrying the id at k. */
  lemma SpliceMembers(bs: seq<Body>, k: nat)
    requires DistinctIds(bs) && k < |bs|
    ensures DistinctIds(bs[..k] + bs[k + 1..])
    ensures forall b :: b in bs[..k] + bs[k + 1..] <==> b in bs && b.id != bs[k].id
  {
    var r := bs[..k] + bs[k + 1..];
    assert forall i :: 0 <= i < k ==> r[i] == bs[i];
    assert forall i :: k <= i < |r| ==> r[i] == bs[i + 1];
    forall b | b in bs && b.id != bs[k].id ensures b in r {
      var j :| 0 <= j < |bs| && bs[j] == b;
      if j < k { assert r[j] == b; } else { assert r[j - 1] == b; }
    }
  }

  /** Removing a body from a list with distinct ids takes out exactly that body and
      keeps the others in order. */
  lemma WithoutMembers(bs: seq<Body>, id: nat)
    requires DistinctIds(bs)
    ensures DistinctIds(Without(bs, id))
    ensures forall b :: b in Without(bs, id) <==> b in bs && b.id != id
  {
    WithoutSplice(bs, id);
    var f := FindBody(bs, id);
    if f.Some? {
      SpliceMembers(bs, f.value);
    }
  }

  /** The bodies `bs` stamped with consecutive ids starting at `first`. */
  function Stamped(bs: seq<Body>, first: nat): (r: seq<Body>)
    ensures |r| == |bs|
    ensures forall i :: 0 <= i < |bs| ==> r[i] == bs[i].(id := first + i)
  {
    seq(|bs|, i requires 0 <= i < |bs| => bs[i].(id := first + i))
  }

  class World {
    var bodies: seq<Body>
    /** The id the next added body receives. */
    var nextId: nat
    /** The vertical gravity scale; a new engine starts with Matter's default of 1. Only
        creating an engine sets it: no method's frame includes it. */
    var gravityY: real

    /** Ids are distinct and all below `nextId`. */
    ghost predicate Valid()
      reads this
    {
      DistinctIds(bodies) && forall i :: 0 <= i < |bodies| ==> bodies[i].id < nextId
    }

    constructor ()
      ensures Valid() && bodies == [] && nextId == 0 && gravityY == 1.0
    {
      bodies := [];
      nextId := 0;
      gravityY := 1.0;
    }

    /** `world.bodies.includes(body)`. */
    predicate Includes(id: nat)
      reads this
    {
      FindBody(bodies, id).Some?
    }

    /** `Composite.clear(world, false)`: every body goes, static ones included. */
    method Clear()
      modifies this`bodies
      ensures bodies == [] && nextId == old(nextId)
      ensures Valid()
    {
      bodies := [];
    }

    /** `Composite.add(world, body)`: appends the body under a fresh id and returns that id. */
    method Add(b: Body) returns (id: nat)
      requires Valid()
      modifies this`bodies, this`nextId
      ensures Valid()
      ensures id == old(nextId) && nextId == id + 1
      ensures bodies == old(bodies) + [b.(id := id)]
      ensures !old(Includes(id))
    {
      id := nextId;
      bodies := bodies + [b.(id := id)];
      nextId := nextId + 1;
    }

    /** `Composite.add(world, bodies)`: appends the bodies in order under fresh ids. */
    method AddAll(bs: seq<Body>)
      requires Valid()
      modifies this`bodies, this`nextId
      ensures Valid()
      ensures bodies == old(bodies) + Stamped(bs, old(nextId))
      ensures nextId == old(nextId) + |bs|
    {
      var i := 0;
      while i < |bs|
        invariant 0 <= i <= |bs|
        invariant Valid()
        invariant nextId == old(nextId) + i
        invariant bodies == old(bodies) + Stamped(bs[..i], old(nextId))
      {
        var _ := Add(bs[i]);
        assert Stamped(bs[..i + 1], old(nextId)) == Stamped(bs[..i], old(nextId)) + [bs[i].(id := old(nextId) + i)];
        i := i + 1;
      }
      assert bs[..i] == bs;
    }

    /** `Composite.remove(world, body)`: takes out the body with that id; no change when absent. */
    method Remove(id: nat)
      requires Valid()
      modifies this`bodies
      ensures Valid()
      ensures bodies == Without(old(bodies), id) && nextId == old(nextId)
      ensures !Includes(id)
    {
      WithoutMembers(bodies, id);
      bodies := Without(bodies, id);
    }
  }
}
