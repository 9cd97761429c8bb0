/** A body's vertices in its own frame and their bounding box (lib/matter/geometry.ts).
    The body's angle enters through its cosine and sine, which are parameters. */
module Geometry {
  import opened Types

  /** The box, its size and its centre. The source's empty list gives infinite corners and a
      NaN centre; here it is `EmptyBounds`. */
  datatype LocalBounds =
    | EmptyBounds
    | Bounds(minX: real, minY: real, maxX: real, maxY: real, width: real, height: real, centerX: real, centerY: real)

  /** Lines 16-22: `point` relative to the body's position, turned back by the body's angle
      (whose cosine and sine are `cosA` and `sinA`), as `Vector.rotate` by `-angle` computes it. */
  function WorldToBodyLocal(pos: Point, cosA: real, sinA: real, point: Point): (q: Point)
    ensures q.x == (point.x - pos.x) * cosA + (point.y - pos.y) * sinA
    ensures q.y == (point.y - pos.y) * cosA - (point.x - pos.x) * sinA
  {
    var rx := point.x - pos.x;
    var ry := point.y - pos.y;
    Point(rx * cosA + ry * sinA, -(rx * sinA) + ry * cosA)
  }

  /** Turning back by a true angle keeps a vertex's distance from the body's position. */
  lemma LocalKeepsDistance(pos: Point, cosA: real, sinA: real, point: Point)
    requires cosA * cosA + sinA * sinA == 1.0
    ensures var q := WorldToBodyLocal(pos, cosA, sinA, point);
            q.x * q.x + q.y * q.y ==
            (point.x - pos.x) * (point.x - pos.x) + (point.y - pos.y) * (point.y - pos.y)
  {
    var rx := point.x - pos.x;
    var ry := point.y - pos.y;
    calc {
      (rx * cosA + ry * sinA) * (rx * cosA + ry * sinA) + (ry * cosA - rx * sinA) * (ry * cosA - rx * sinA);
      rx * rx * (cosA * cosA + sinA * sinA) + ry * ry * (cosA * cosA + sinA * sinA);
      rx * rx + ry * ry;
    }
  }

  /** Lines 24-26: every vertex of the body in its own frame, in order. */
  function GetBodyLocalVertices(pos: Point, cosA: real, sinA: real, vertices: seq<Point>): (local: seq<Point>)
    ensures |local| == |vertices|
    ensures forall i :: 0 <= i < |vertices| ==> local[i] == WorldToBodyLocal(pos, cosA, sinA, vertices[i])
  {
    seq(|vertices|, i requires 0 <= i < |vertices| => WorldToBodyLocal(pos, cosA, sinA, vertices[i]))
  }

  /** Every vertex lies inside the box. */
  predicate Encloses(vs: seq<Point>, minX: real, minY: real, maxX: real, maxY: real)
  {
    forall k :: 0 <= k < |vs| ==> minX <= vs[k].x <= maxX && minY <= vs[k].y <= maxY
  }

  /** Each side of the box touches some vertex. */
  predicate Tight(vs: seq<Point>, minX: real, minY: real, maxX: real, maxY: real)
  {
    (exists k :: 0 <= k < |vs| && vs[k].x == minX) && (exists k :: 0 <= k < |vs| && vs[k].y == minY) &&
    (exists k :: 0 <= k < |vs| && vs[k].x == maxX) && (exists k :: 0 <= k < |vs| && vs[k].y == maxY)
  }

  /** Lines 28-54: for a non-empty list, the smallest box holding every vertex (each side
      touches a vertex), its width and height, never negative, and its centre. */
  method GetLocalBounds(vertices: seq<Point>) returns (b: LocalBounds)
    ensures b.EmptyBounds? <==> vertices == []
    ensures b.Bounds? ==> Encloses(vertices, b.minX, b.minY, b.maxX, b.maxY)
    ensures b.Bounds? ==> Tight(vertices, b.minX, b.minY, b.maxX, b.maxY)
    ensures b.Bounds? ==> b.width == b.maxX - b.minX >= 0.0 && b.height == b.maxY - b.minY >= 0.0
    ensures b.Bounds? ==> b.centerX == (b.minX + b.maxX) / 2.0 && b.centerY == (b.minY + b.maxY) / 2.0
  {
    if |vertices| == 0 {
      return EmptyBounds;
    }
    // The first vertex beats the infinite starting values on every side.
    var minX := vertices[0].x;
    var minY := vertices[0].y;
    var maxX := vertices[0].x;
    var maxY := vertices[0].y;
    ghost var iMinX, iMinY, iMaxX, iMaxY := 0, 0, 0, 0;
    var i := 1;
    while i < |vertices|
      invariant 1 <= i <= |vertices|
      invariant Encloses(vertices[..i], minX, minY, maxX, maxY)
      invariant 0 <= iMinX < i && vertices[iMinX].x == minX
      invariant 0 <= iMinY < i && vertices[iMinY].y == minY
      invariant 0 <= iMaxX < i && vertices[iMaxX].x == maxX
      invariant 0 <= iMaxY < i && vertices[iMaxY].y == maxY
    {
      var v := vertices[i];
      if v.x < minX { minX := v.x; iMinX := i; }
      if v.y < minY { minY := v.y; iMinY := i; }
      if v.x > maxX { maxX := v.x; iMaxX := i; }
      if v.y > maxY { maxY := v.y; iMaxY := i; }
      assert vertices[..i + 1] == vertices[..i] + [v];
      i := i + 1;
    }
    assert vertices[..i] == vertices;
    var width := maxX - minX;
    var height := maxY - minY;
    b := Bounds(minX, minY, maxX, maxY, width, height, (minX + maxX) / 2.0, (minY + maxY) / 2.0);
  }
}
