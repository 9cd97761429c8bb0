/** The greedy rectangle compiler (lib/building/compile-blueprint.ts): a
    normalised blueprint is tiled, in row-major order, by uniform-material
    rectangles that partition its material cells. */
module CompileBlueprint {
  import opened Types
  import opened BlueprintUtils

  /** Width of a normalised grid: the length of its first row. */
  function Width(g: seq<string>): nat
  {
    if |g| == 0 then 0 else |g[0]|
  }

  ghost predicate Rectangular(g: seq<string>)
  {
    forall i :: 0 <= i < |g| ==> |g[i]| == Width(g)
  }

  /** The material of cell (x, y); cells outside the grid read as empty. */
  function MaterialAt(g: seq<string>, x: int, y: int): Option<Material>
  {
    if 0 <= y < |g| && 0 <= x < |g[y]| then TokenToMaterial(g[y][x]) else None
  }

  /** Some rectangle of rs contains cell (x, y). */
  ghost predicate Covered(rs: seq<GridRect>, x: int, y: int)
  {
    exists i :: 0 <= i < |rs| && InRect(rs[i], x, y)
  }

  /** Cell (y1, x1) comes strictly before cell (y2, x2) in row-major order. */
  predicate Before(y1: int, x1: int, y2: int, x2: int)
  {
    y1 < y2 || (y1 == y2 && x1 < x2)
  }

  /** The w cells of row y starting at column x lie in the grid, all hold material m,
      and none of them is covered by rs. */
  ghost predicate SegmentFree(g: seq<string>, rs: seq<GridRect>, m: Material, x: int, y: int, w: int)
  {
    0 <= y < |g| && 0 <= x && x + w <= Width(g) &&
    forall k :: x <= k < x + w ==> MaterialAt(g, k, y) == Some(m) && !Covered(rs, k, y)
  }

  /** Every rectangle is non-empty and inside the grid. */
  ghost predicate InBounds(g: seq<string>, rs: seq<GridRect>)
  {
    forall i :: 0 <= i < |rs| ==>
      1 <= rs[i].w && 1 <= rs[i].h && 0 <= rs[i].x && rs[i].x + rs[i].w <= Width(g) &&
      0 <= rs[i].y && rs[i].y + rs[i].h <= |g|
  }

  /** Every cell of a rectangle holds that rectangle's material. */
  ghost predicate Uniform(g: seq<string>, rs: seq<GridRect>)
  {
    forall i, x, y :: 0 <= i < |rs| && InRect(rs[i], x, y) ==> MaterialAt(g, x, y) == Some(rs[i].material)
  }

  /** The rectangles partition exactly the material cells of g. */
  ghost predicate Partition(g: seq<string>, rs: seq<GridRect>)
  {
    InBounds(g, rs) && Uniform(g, rs) && Disjoint(rs) &&
    forall x, y :: MaterialAt(g, x, y).Some? <==> Covered(rs, x, y)
  }

  /** Top-left corners strictly increase in row-major order. */
  ghost predicate RowMajor(rs: seq<GridRect>)
  {
    forall i, j :: 0 <= i < j < |rs| ==> Before(rs[i].y, rs[i].x, rs[j].y, rs[j].x)
  }

  /** When rectangle i was cut, it could neither be widened by one column nor
      heightened by one full row of free cells of its material. */
  ghost predicate Greedy(g: seq<string>, rs: seq<GridRect>)
  {
    forall i :: 0 <= i < |rs| ==>
      (rs[i].x + rs[i].w == Width(g) || !SegmentFree(g, rs[..i], rs[i].material, rs[i].x, rs[i].y, rs[i].w + 1)) &&
      (rs[i].y + rs[i].h == |g| || !SegmentFree(g, rs[..i], rs[i].material, rs[i].x, rs[i].y + rs[i].h, rs[i].w))
  }

  /** What the scan produces for grid g: a partition into one-material rectangles, listed
      by top-left corner in row-major order, each cut as wide and then as tall as it could be. */
  ghost predicate Compiled(g: seq<string>, rs: seq<GridRect>)
  {
    Partition(g, rs) && RowMajor(rs) && Greedy(g, rs)
  }

  lemma CoveredAppend(rs: seq<GridRect>, r: GridRect)
    ensures forall x, y :: Covered(rs + [r], x, y) <==> Covered(rs, x, y) || InRect(r, x, y)
  {
    forall x, y ensures Covered(rs + [r], x, y) <==> Covered(rs, x, y) || InRect(r, x, y) {
      if Covered(rs, x, y) {
        var i :| 0 <= i < |rs| && InRect(rs[i], x, y);
        assert (rs + [r])[i] == rs[i];
      }
      if InRect(r, x, y) {
        assert (rs + [r])[|rs|] == r;
      }
      if Covered(rs + [r], x, y) {
        var i :| 0 <= i < |rs + [r]| && InRect((rs + [r])[i], x, y);
        if i < |rs| { assert (rs + [r])[i] == rs[i]; }
      }
    }
  }

  /** What the visited matrix holds while the scan is at (y, x): the cells covered so
      far, and the empty cells already passed. */
  ghost predicate Expected(g: seq<string>, rs: seq<GridRect>, y: int, x: int, cx: int, cy: int)
  {
    Covered(rs, cx, cy) || (MaterialAt(g, cx, cy).None? && Before(cy, cx, y, x))
  }

  ghost predicate VisitedMatches(g: seq<string>, visited: array2<bool>, rs: seq<GridRect>, y: int, x: int)
    reads visited
  {
    visited.Length0 == |g| && visited.Length1 == Width(g) &&
    forall cy, cx :: 0 <= cy < |g| && 0 <= cx < Width(g) ==> (visited[cy, cx] <==> Expected(g, rs, y, x, cx, cy))
  }

  /** The scan invariant that does not mention the visited matrix. */
  ghost predicate ScanInv(g: seq<string>, rs: seq<GridRect>, y: int, x: int)
  {
    Rectangular(g) && InBounds(g, rs) && Uniform(g, rs) && Disjoint(rs) && RowMajor(rs) && Greedy(g, rs) &&
    (forall i :: 0 <= i < |rs| ==> Before(rs[i].y, rs[i].x, y, x)) &&
    (forall cy, cx :: 0 <= cy < |g| && 0 <= cx < Width(g) && Before(cy, cx, y, x) && MaterialAt(g, cx, cy).Some? ==>
       Covered(rs, cx, cy))
  }

  /** A cell not yet reached by the scan is visited exactly when it is covered. */
  lemma AheadVisitedIsCovered(g: seq<string>, visited: array2<bool>, rs: seq<GridRect>, y: int, x: int)
    requires VisitedMatches(g, visited, rs, y, x)
    ensures forall cy, cx :: 0 <= cy < |g| && 0 <= cx < Width(g) && !Before(cy, cx, y, x) ==>
      (visited[cy, cx] <==> Covered(rs, cx, cy))
  {
  }

  /** Passing a visited cell. */
  lemma SkipStep(g: seq<string>, rs: seq<GridRect>, y: int, x: int)
    requires ScanInv(g, rs, y, x) && 0 <= y < |g| && 0 <= x < Width(g)
    requires Expected(g, rs, y, x, x, y)
    ensures ScanInv(g, rs, y, x + 1)
    ensures forall cy, cx :: 0 <= cy < |g| && 0 <= cx < Width(g) ==>
      (Expected(g, rs, y, x + 1, cx, cy) <==> Expected(g, rs, y, x, cx, cy))
  {
  }

  /** Passing an unvisited empty cell, which the scan marks visited. */
  lemma EmptyStep(g: seq<string>, rs: seq<GridRect>, y: int, x: int)
    requires ScanInv(g, rs, y, x) && 0 <= y < |g| && 0 <= x < Width(g)
    requires MaterialAt(g, x, y).None?
    ensures ScanInv(g, rs, y, x + 1)
    ensures forall cy, cx :: 0 <= cy < |g| && 0 <= cx < Width(g) ==>
      (Expected(g, rs, y, x + 1, cx, cy) <==> Expected(g, rs, y, x, cx, cy) || (cy == y && cx == x))
  {
    forall cy, cx | 0 <= cy < |g| && 0 <= cx < Width(g) && Before(cy, cx, y, x + 1) && MaterialAt(g, cx, cy).Some?
      ensures Covered(rs, cx, cy)
    {
      assert Before(cy, cx, y, x);
    }
    forall cy, cx | 0 <= cy < |g| && 0 <= cx < Width(g)
      ensures Expected(g, rs, y, x + 1, cx, cy) <==> Expected(g, rs, y, x, cx, cy) || (cy == y && cx == x)
    {
      assert Before(cy, cx, y, x + 1) <==> Before(cy, cx, y, x) || (cy == y && cx == x);
    }
  }

  /** Moving from the end of row y to the start of row y + 1. */
  lemma RowStep(g: seq<string>, rs: seq<GridRect>, y: int)
    requires ScanInv(g, rs, y, Width(g))
    ensures ScanInv(g, rs, y + 1, 0)
    ensures forall cy, cx :: 0 <= cy < |g| && 0 <= cx < Width(g) ==>
      (Expected(g, rs, y + 1, 0, cx, cy) <==> Expected(g, rs, y, Width(g), cx, cy))
  {
    forall i | 0 <= i < |rs| ensures Before(rs[i].y, rs[i].x, y + 1, 0) {
      assert InRect(rs[i], rs[i].x, rs[i].y);
    }
  }

  /** The facts the scan has about a rectangle r it cuts at (x, y). */
  ghost predicate FreshRect(g: seq<string>, rs: seq<GridRect>, y: int, x: int, r: GridRect)
  {
    0 <= y < |g| && 0 <= x < Width(g) &&
    r.x == x && r.y == y && 1 <= r.w && 1 <= r.h && x + r.w <= Width(g) && y + r.h <= |g| &&
    (forall cy, cx :: InRect(r, cx, cy) ==> MaterialAt(g, cx, cy) == Some(r.material) && !Covered(rs, cx, cy)) &&
    (x + r.w == Width(g) || !SegmentFree(g, rs, r.material, x, y, r.w + 1)) &&
    (y + r.h == |g| || !SegmentFree(g, rs, r.material, x, y + r.h, r.w))
  }

  lemma RectStepDisjoint(g: seq<string>, rs: seq<GridRect>, y: int, x: int, r: GridRect)
    requires Disjoint(rs) && FreshRect(g, rs, y, x, r)
    ensures Disjoint(rs + [r])
  {
    var rs' := rs + [r];
    forall i, j, cx, cy | 0 <= i < j < |rs'| && InRect(rs'[i], cx, cy) ensures !InRect(rs'[j], cx, cy) {
      assert rs'[i] == rs[i];
      if j == |rs| {
        assert Covered(rs, cx, cy);
      } else {
        assert rs'[j] == rs[j];
      }
    }
  }

  lemma RectStepGreedy(g: seq<string>, rs: seq<GridRect>, y: int, x: int, r: GridRect)
    requires Greedy(g, rs) && FreshRect(g, rs, y, x, r)
    ensures Greedy(g, rs + [r])
  {
    var rs' := rs + [r];
    assert forall i :: 0 <= i < |rs| ==> rs'[..i] == rs[..i];
    assert rs'[..|rs|] == rs;
    forall i | 0 <= i < |rs'|
      ensures (rs'[i].x + rs'[i].w == Width(g) || !SegmentFree(g, rs'[..i], rs'[i].material, rs'[i].x, rs'[i].y, rs'[i].w + 1))
      ensures (rs'[i].y + rs'[i].h == |g| || !SegmentFree(g, rs'[..i], rs'[i].material, rs'[i].x, rs'[i].y + rs'[i].h, rs'[i].w))
    {
      if i < |rs| { assert rs'[i] == rs[i]; } else { assert rs'[i] == r; }
    }
  }

  lemma RectStepShape(g: seq<string>, rs: seq<GridRect>, y: int, x: int, r: GridRect)
    requires InBounds(g, rs) && Uniform(g, rs) && RowMajor(rs) && FreshRect(g, rs, y, x, r)
    requires forall i :: 0 <= i < |rs| ==> Before(rs[i].y, rs[i].x, y, x)
    ensures InBounds(g, rs + [r]) && Uniform(g, rs + [r]) && RowMajor(rs + [r])
    ensures forall i :: 0 <= i < |rs + [r]| ==> Before((rs + [r])[i].y, (rs + [r])[i].x, y, x + 1)
  {
    var rs' := rs + [r];
    assert forall i :: 0 <= i < |rs| ==> rs'[i] == rs[i];
    assert rs'[|rs|] == r;
  }

  lemma RectStepCovered(g: seq<string>, rs: seq<GridRect>, y: int, x: int, r: GridRect)
    requires Rectangular(g) && FreshRect(g, rs, y, x, r)
    requires forall cy, cx :: 0 <= cy < |g| && 0 <= cx < Width(g) && Before(cy, cx, y, x) && MaterialAt(g, cx, cy).Some? ==>
       Covered(rs, cx, cy)
    ensures forall cy, cx :: 0 <= cy < |g| && 0 <= cx < Width(g) && Before(cy, cx, y, x + 1) && MaterialAt(g, cx, cy).Some? ==>
       Covered(rs + [r], cx, cy)
    ensures forall cy, cx :: 0 <= cy < |g| && 0 <= cx < Width(g) ==>
      (Expected(g, rs + [r], y, x + 1, cx, cy) <==> Expected(g, rs, y, x, cx, cy) || InRect(r, cx, cy))
  {
    CoveredAppend(rs, r);
    assert InRect(r, x, y);
  }

  /** Cutting rectangle r at the scan position keeps the invariant. */
  lemma RectStep(g: seq<string>, rs: seq<GridRect>, y: int, x: int, r: GridRect)
    requires ScanInv(g, rs, y, x) && FreshRect(g, rs, y, x, r)
    ensures ScanInv(g, rs + [r], y, x + 1)
    ensures forall cy, cx :: 0 <= cy < |g| && 0 <= cx < Width(g) ==>
      (Expected(g, rs + [r], y, x + 1, cx, cy) <==> Expected(g, rs, y, x, cx, cy) || InRect(r, cx, cy))
  {
    RectStepDisjoint(g, rs, y, x, r);
    RectStepGreedy(g, rs, y, x, r);
    RectStepShape(g, rs, y, x, r);
    RectStepCovered(g, rs, y, x, r);
  }

  /** What GrowRight and GrowDown report about the visited matrix makes the cut rectangle fresh. */
  lemma FreshFromVisited(g: seq<string>, visited: array2<bool>, rs: seq<GridRect>, y: int, x: int, r: GridRect)
    requires Rectangular(g) && VisitedMatches(g, visited, rs, y, x)
    requires 0 <= y < |g| && 0 <= x < Width(g)
    requires r.x == x && r.y == y && 1 <= r.w && 1 <= r.h && x + r.w <= Width(g) && y + r.h <= |g|
    requires forall k, j :: y <= k < y + r.h && x <= j < x + r.w ==> !visited[k, j] && MaterialAt(g, j, k) == Some(r.material)
    requires x + r.w == Width(g) || visited[y, x + r.w] || MaterialAt(g, x + r.w, y) != Some(r.material)
    requires y + r.h == |g| || RowBlocked(g, visited, x, y + r.h, r.w, r.material)
    ensures FreshRect(g, rs, y, x, r)
  {
    AheadVisitedIsCovered(g, visited, rs, y, x);
    if y + r.h < |g| {
      var j :| x <= j < x + r.w && (visited[y + r.h, j] || MaterialAt(g, j, y + r.h) != Some(r.material));
      assert !SegmentFree(g, rs, r.material, x, y + r.h, r.w);
    }
  }

  /** Lines 31-36: the run of unvisited cells of material m to the right of (x, y). */
  method GrowRight(g: seq<string>, visited: array2<bool>, x: int, y: int, m: Material) returns (w: int)
    requires visited.Length0 == |g| && visited.Length1 == Width(g)
    requires 0 <= y < |g| && 0 <= x < Width(g) && !visited[y, x] && MaterialAt(g, x, y) == Some(m)
    ensures 1 <= w <= Width(g) - x
    ensures forall k :: x <= k < x + w ==> !visited[y, k] && MaterialAt(g, k, y) == Some(m)
    ensures x + w == Width(g) || visited[y, x + w] || MaterialAt(g, x + w, y) != Some(m)
  {
    var width := Width(g);
    w := 1;
    while x + w < width && !visited[y, x + w] && MaterialAt(g, x + w, y) == Some(m)
      invariant 1 <= w <= width - x
      invariant forall k :: x <= k < x + w ==> !visited[y, k] && MaterialAt(g, k, y) == Some(m)
    {
      w := w + 1;
    }
  }

  /** Some cell of the w-wide run of row `row` from column x is visited or not of material m. */
  ghost predicate RowBlocked(g: seq<string>, visited: array2<bool>, x: int, row: int, w: int, m: Material)
    reads visited
    requires visited.Length0 == |g| && visited.Length1 == Width(g)
    requires 0 <= row < |g| && 0 <= x && x + w <= Width(g)
  {
    exists j :: x <= j < x + w && (visited[row, j] || MaterialAt(g, j, row) != Some(m))
  }

  /** Lines 38-45: how many rows, starting with row y, are unvisited and of material m
      over the whole w-wide run. */
  method GrowDown(g: seq<string>, visited: array2<bool>, x: int, y: int, w: int, m: Material) returns (h: int)
    requires visited.Length0 == |g| && visited.Length1 == Width(g)
    requires 0 <= y < |g| && 0 <= x && 1 <= w && x + w <= Width(g)
    requires forall k :: x <= k < x + w ==> !visited[y, k] && MaterialAt(g, k, y) == Some(m)
    ensures 1 <= h <= |g| - y
    ensures forall k, j :: y <= k < y + h && x <= j < x + w ==> !visited[k, j] && MaterialAt(g, j, k) == Some(m)
    ensures y + h == |g| || RowBlocked(g, visited, x, y + h, w, m)
  {
    var height := |g|;
    h := 1;
    label outer:
    while y + h < height
      invariant 1 <= h <= height - y
      invariant forall k, j :: y <= k < y + h && x <= j < x + w ==> !visited[k, j] && MaterialAt(g, j, k) == Some(m)
    {
      var row := y + h;
      var xx := 0;
      while xx < w
        invariant 0 <= xx <= w
        invariant forall j :: x <= j < x + xx ==> !visited[row, j] && MaterialAt(g, j, row) == Some(m)
      {
        if visited[row, x + xx] || MaterialAt(g, x + xx, row) != Some(m) {
          assert RowBlocked(g, visited, x, row, w, m);
          break outer;
        }
        xx := xx + 1;
      }
      h := h + 1;
    }
  }

  /** Lines 47-51: marks every cell of the w-by-h rectangle at (x, y) visited. */
  method MarkVisited(visited: array2<bool>, x: int, y: int, w: int, h: int)
    requires 0 <= x && 0 <= y && 0 <= w && 0 <= h && x + w <= visited.Length1 && y + h <= visited.Length0
    modifies visited
    ensures forall cy, cx :: 0 <= cy < visited.Length0 && 0 <= cx < visited.Length1 ==>
      visited[cy, cx] == (old(visited[cy, cx]) || (y <= cy < y + h && x <= cx < x + w))
  {
    var yy := 0;
    while yy < h
      invariant 0 <= yy <= h
      invariant forall cy, cx :: 0 <= cy < visited.Length0 && 0 <= cx < visited.Length1 ==>
        visited[cy, cx] == (old(visited[cy, cx]) || (y <= cy < y + yy && x <= cx < x + w))
    {
      var xx := 0;
      while xx < w
        invariant 0 <= xx <= w
        invariant forall cy, cx :: 0 <= cy < visited.Length0 && 0 <= cx < visited.Length1 ==>
          visited[cy, cx] == (old(visited[cy, cx]) || (y <= cy < y + yy && x <= cx < x + w) || (cy == y + yy && x <= cx < x + xx))
      {
        visited[y + yy, x + xx] := true;
        xx := xx + 1;
      }
      yy := yy + 1;
    }
  }

  /** Lines 31-51: cuts the rectangle whose top-left corner is the unvisited
      material cell (x, y) and marks it visited. */
  method CutRect(g: seq<string>, visited: array2<bool>, rects: seq<GridRect>, y: int, x: int, m: Material)
    returns (r: GridRect)
    requires 0 <= y < |g| && 0 <= x < Width(g)
    requires Rectangular(g) && VisitedMatches(g, visited, rects, y, x)
    requires !visited[y, x] && MaterialAt(g, x, y) == Some(m)
    modifies visited
    ensures FreshRect(g, rects, y, x, r) && r.material == m
    ensures forall cy, cx :: 0 <= cy < |g| && 0 <= cx < Width(g) ==>
      visited[cy, cx] == (old(visited[cy, cx]) || InRect(r, cx, cy))
  {
    var w := GrowRight(g, visited, x, y, m);
    var h := GrowDown(g, visited, x, y, w, m);
    r := GridRect(x, y, w, h, m);
    FreshFromVisited(g, visited, rects, y, x, r);
    MarkVisited(visited, x, y, w, h);
  }

  /** Lines 24-53, one scan position: skip a visited cell, mark an empty one, or cut
      the rectangle whose top-left corner is (x, y). */
  method ScanCell(g: seq<string>, visited: array2<bool>, rects: seq<GridRect>, y: int, x: int)
    returns (rects': seq<GridRect>)
    requires 0 <= y < |g| && 0 <= x < Width(g)
    requires ScanInv(g, rects, y, x) && VisitedMatches(g, visited, rects, y, x)
    modifies visited
    ensures ScanInv(g, rects', y, x + 1) && VisitedMatches(g, visited, rects', y, x + 1)
  {
    rects' := rects;
    if visited[y, x] {
      SkipStep(g, rects, y, x);
    } else {
      var mat := MaterialAt(g, x, y);
      if mat.None? {
        EmptyStep(g, rects, y, x);
        visited[y, x] := true;
      } else {
        var r := CutRect(g, visited, rects, y, x, mat.value);
        RectStep(g, rects, y, x, r);
        rects' := rects + [r];
      }
    }
  }

  /** When the scan has passed every cell, the rectangles partition the material cells. */
  lemma ScanDone(g: seq<string>, rs: seq<GridRect>)
    requires ScanInv(g, rs, |g|, 0)
    ensures Partition(g, rs) && RowMajor(rs) && Greedy(g, rs)
  {
    forall x, y | Covered(rs, x, y) ensures MaterialAt(g, x, y).Some? {
      var i :| 0 <= i < |rs| && InRect(rs[i], x, y);
    }
  }

  /** Scans the normalised blueprint row by row with a visited matrix; from each
      unvisited material cell it grows a run to the right, then grows downwards while
      the whole run-wide row below is unvisited and of the same material, marks the
      rectangle visited and emits it. */
  method CompileBlueprintToRects(rows: seq<string>) returns (rects: seq<GridRect>)
    ensures Partition(NormalizeBlueprintRows(rows), rects)
    ensures RowMajor(rects)
    ensures Greedy(NormalizeBlueprintRows(rows), rects)
  {
    var normalized := NormalizeBlueprintRows(rows);
    var height := |normalized|;
    var width := if height == 0 then 0 else |normalized[0]|;
    assert Rectangular(normalized);
    var visited := new bool[height, width]((_, _) => false);
    rects := [];

    var y := 0;
    while y < height
      invariant 0 <= y <= height
      invariant ScanInv(normalized, rects, y, 0)
      invariant VisitedMatches(normalized, visited, rects, y, 0)
    {
      var x := 0;
      while x < width
        invariant 0 <= x <= width
        invariant ScanInv(normalized, rects, y, x)
        invariant VisitedMatches(normalized, visited, rects, y, x)
      {
        rects := ScanCell(normalized, visited, rects, y, x);
        x := x + 1;
      }
      RowStep(normalized, rects, y);
      y := y + 1;
    }
    ScanDone(normalized, rects);
  }

  /** The facts that fix the rectangle r the scan cuts once the rectangles `done` are cut:
      its top-left corner is the first material cell, in row-major order, that `done` leaves
      uncovered; each of its rows is a free run of its material; and it is as wide, then
      as tall, as such runs allow. */
  ghost predicate CutAfter(g: seq<string>, done: seq<GridRect>, r: GridRect)
  {
    && 1 <= r.w && 1 <= r.h && 0 <= r.x && 0 <= r.y && r.x + r.w <= Width(g) && r.y + r.h <= |g|
    && (forall row :: r.y <= row < r.y + r.h ==> SegmentFree(g, done, r.material, r.x, row, r.w))
    && (forall cx, cy :: Before(cy, cx, r.y, r.x) && MaterialAt(g, cx, cy).Some? ==> Covered(done, cx, cy))
    && (r.x + r.w == Width(g) || !SegmentFree(g, done, r.material, r.x, r.y, r.w + 1))
    && (r.y + r.h == |g| || !SegmentFree(g, done, r.material, r.x, r.y + r.h, r.w))
  }

  /** Given what was cut before, at most one rectangle can be cut next. */
  lemma CutUnique(g: seq<string>, done: seq<GridRect>, r1: GridRect, r2: GridRect)
    requires CutAfter(g, done, r1) && CutAfter(g, done, r2)
    ensures r1 == r2
  {
    CutCorner(g, done, r1, r2);
    CutWidthBound(g, done, r1, r2);
    CutWidthBound(g, done, r2, r1);
    CutHeightBound(g, done, r1, r2);
    CutHeightBound(g, done, r2, r1);
  }

  /** Two next cuts start at the same cell, the first free material cell, in its material. */
  lemma CutCorner(g: seq<string>, done: seq<GridRect>, r1: GridRect, r2: GridRect)
    requires CutAfter(g, done, r1) && CutAfter(g, done, r2)
    ensures r1.x == r2.x && r1.y == r2.y && r1.material == r2.material
  {
    assert SegmentFree(g, done, r1.material, r1.x, r1.y, r1.w);
    assert SegmentFree(g, done, r2.material, r2.x, r2.y, r2.w);
    assert MaterialAt(g, r1.x, r1.y) == Some(r1.material) && !Covered(done, r1.x, r1.y);
    assert MaterialAt(g, r2.x, r2.y) == Some(r2.material) && !Covered(done, r2.x, r2.y);
  }

  /** A next cut is at least as wide as any other from the same corner: the cell just past
      it is not a free cell of its material. */
  lemma CutWidthBound(g: seq<string>, done: seq<GridRect>, r1: GridRect, r2: GridRect)
    requires CutAfter(g, done, r1) && CutAfter(g, done, r2)
    requires r1.x == r2.x && r1.y == r2.y && r1.material == r2.material
    ensures r2.w <= r1.w
  {
    assert SegmentFree(g, done, r1.material, r1.x, r1.y, r1.w);
    assert SegmentFree(g, done, r2.material, r2.x, r2.y, r2.w);
    if r1.x + r1.w < Width(g) {
      assert !SegmentFree(g, done, r1.material, r1.x, r1.y, r1.w + 1);
    }
  }

  /** Of two next cuts of equal width from the same corner, each is at least as tall as the
      other: the row just below it is not a free run of its material. */
  lemma CutHeightBound(g: seq<string>, done: seq<GridRect>, r1: GridRect, r2: GridRect)
    requires CutAfter(g, done, r1) && CutAfter(g, done, r2)
    requires r1.x == r2.x && r1.y == r2.y && r1.material == r2.material && r1.w == r2.w
    ensures r2.h <= r1.h
  {
    if r1.y + r1.h < |g| {
      assert !SegmentFree(g, done, r1.material, r1.x, r1.y + r1.h, r1.w);
    }
  }

  /** Every rectangle of a compiled list is the one cut after the rectangles before it. */
  lemma CompiledCut(g: seq<string>, rs: seq<GridRect>, i: int)
    requires Compiled(g, rs) && 0 <= i < |rs|
    ensures CutAfter(g, rs[..i], rs[i])
  {
    CompiledRowsFree(g, rs, i);
    CompiledCornerFirst(g, rs, i);
  }

  /** The rows of a compiled rectangle are free runs of its material when it is cut. */
  lemma CompiledRowsFree(g: seq<string>, rs: seq<GridRect>, i: int)
    requires Compiled(g, rs) && 0 <= i < |rs|
    ensures var r := rs[i];
      forall row :: r.y <= row < r.y + r.h ==> SegmentFree(g, rs[..i], r.material, r.x, row, r.w)
  {
    var r := rs[i];
    var done := rs[..i];
    forall row | r.y <= row < r.y + r.h ensures SegmentFree(g, done, r.material, r.x, row, r.w) {
      forall k | r.x <= k < r.x + r.w ensures MaterialAt(g, k, row) == Some(r.material) && !Covered(done, k, row) {
        assert InRect(rs[i], k, row);
      }
    }
  }

  /** Every material cell before a compiled rectangle's corner is covered by an earlier one. */
  lemma CompiledCornerFirst(g: seq<string>, rs: seq<GridRect>, i: int)
    requires Compiled(g, rs) && 0 <= i < |rs|
    ensures var r := rs[i];
      forall cx, cy :: Before(cy, cx, r.y, r.x) && MaterialAt(g, cx, cy).Some? ==> Covered(rs[..i], cx, cy)
  {
    var r := rs[i];
    var done := rs[..i];
    forall cx, cy | Before(cy, cx, r.y, r.x) && MaterialAt(g, cx, cy).Some? ensures Covered(done, cx, cy) {
      assert Covered(rs, cx, cy);
      var j :| 0 <= j < |rs| && InRect(rs[j], cx, cy);
      CornerNotAfter(rs, i, j, cx, cy);
      assert j < i;
      assert InRect(done[j], cx, cy);
    }
  }

  /** In row-major order, no cell of rectangle j, or of a later one, comes before the corner
      of rectangle i. */
  lemma CornerNotAfter(rs: seq<GridRect>, i: int, j: int, cx: int, cy: int)
    requires RowMajor(rs) && 0 <= i < |rs| && 0 <= j < |rs| && InRect(rs[j], cx, cy)
    ensures i <= j ==> !Before(cy, cx, rs[i].y, rs[i].x)
  {
  }

  /** Two compiled lists that agree on their first n rectangles agree on one more. */
  lemma NextAgrees(g: seq<string>, a: seq<GridRect>, b: seq<GridRect>, n: int)
    requires Compiled(g, a) && Compiled(g, b)
    requires 0 <= n < |a| && n < |b| && a[..n] == b[..n]
    ensures a[..n + 1] == b[..n + 1]
  {
    CompiledCut(g, a, n);
    CompiledCut(g, b, n);
    CutUnique(g, a[..n], a[n], b[n]);
    assert a[..n + 1] == a[..n] + [a[n]];
    assert b[..n + 1] == b[..n] + [b[n]];
  }

  /** A compiled list that begins another compiled list is all of it: it already covers
      every material cell, so nothing is left to cut. */
  lemma CompiledPrefixAll(g: seq<string>, a: seq<GridRect>, b: seq<GridRect>)
    requires Compiled(g, a) && Compiled(g, b)
    requires |a| <= |b| && b[..|a|] == a
    ensures |a| == |b|
  {
    CornerUncovered(g, b, |a|);
  }

  /** The corner of the compiled rectangle n, if there is one, is a material cell the
      rectangles before it leave uncovered. */
  lemma CornerUncovered(g: seq<string>, rs: seq<GridRect>, n: int)
    requires Compiled(g, rs) && 0 <= n <= |rs|
    ensures n < |rs| ==> MaterialAt(g, rs[n].x, rs[n].y).Some? && !Covered(rs[..n], rs[n].x, rs[n].y)
  {
    if n < |rs| {
      CompiledCut(g, rs, n);
      assert SegmentFree(g, rs[..n], rs[n].material, rs[n].x, rs[n].y, rs[n].w);
    }
  }

  /** A blueprint has exactly one compiled rectangle list: partition, row-major order and
      greedy cutting together leave no choice. */
  lemma CompiledUnique(g: seq<string>, a: seq<GridRect>, b: seq<GridRect>)
    requires Compiled(g, a) && Compiled(g, b)
    ensures a == b
  {
    var n := 0;
    while n < |a| && n < |b|
      invariant 0 <= n <= |a| && n <= |b| && a[..n] == b[..n]
      decreases |a| - n
    {
      NextAgrees(g, a, b, n);
      n := n + 1;
    }
    if n == |a| {
      CompiledPrefixAll(g, a, b);
    } else {
      CompiledPrefixAll(g, b, a);
    }
    assert a == a[..n] && b == b[..n];
  }

  // Worked examples. Each holds for every list the compiler may return, since
  // `CompileBlueprintToRects` ensures `Compiled` of its result and `CompiledUnique` leaves
  // one such list.

  /** `["ww", "www"]` normalised, and the rectangles it compiles to. */
  const STAIRS: seq<string> := ["ww-", "www"]
  const STAIRS_RECTS: seq<GridRect> := [GridRect(0, 0, 2, 2, Wood), GridRect(2, 1, 1, 1, Wood)]

  /** `["www", "ww"]` normalised, and the rectangles it compiles to. */
  const STEP: seq<string> := ["www", "ww-"]
  const STEP_RECTS: seq<GridRect> := [GridRect(0, 0, 3, 1, Wood), GridRect(0, 1, 2, 1, Wood)]

  /** Wood on a 3-wide, 2-high grid except at the hole (hx, hy). */
  function WoodBut(x: int, y: int, hx: int, hy: int): Option<Material>
  {
    if 0 <= y < 2 && 0 <= x < 3 && (x != hx || y != hy) then Some(Wood) else None
  }

  lemma StairsCells()
    ensures forall x, y :: MaterialAt(STAIRS, x, y) == WoodBut(x, y, 2, 0)
  {
    forall x, y ensures MaterialAt(STAIRS, x, y) == WoodBut(x, y, 2, 0) {
      if 0 <= y < 2 && 0 <= x < 3 {
        assert STAIRS[y][x] == if x == 2 && y == 0 then '-' else 'w';
      }
    }
  }

  lemma StepCells()
    ensures forall x, y :: MaterialAt(STEP, x, y) == WoodBut(x, y, 2, 1)
  {
    forall x, y ensures MaterialAt(STEP, x, y) == WoodBut(x, y, 2, 1) {
      if 0 <= y < 2 && 0 <= x < 3 {
        assert STEP[y][x] == if x == 2 && y == 1 then '-' else 'w';
      }
    }
  }

  lemma StairsPartition()
    ensures Partition(STAIRS, STAIRS_RECTS)
  {
    StairsCells();
    forall x, y | MaterialAt(STAIRS, x, y).Some? ensures Covered(STAIRS_RECTS, x, y) {
      if y == 0 || x < 2 {
        assert InRect(STAIRS_RECTS[0], x, y);
      } else {
        assert InRect(STAIRS_RECTS[1], x, y);
      }
    }
  }

  lemma StairsGreedy()
    ensures RowMajor(STAIRS_RECTS) && Greedy(STAIRS, STAIRS_RECTS)
  {
    StairsCells();
    assert !SegmentFree(STAIRS, STAIRS_RECTS[..0], Wood, 0, 0, 3) by {
      assert MaterialAt(STAIRS, 2, 0) == None;
    }
  }

  lemma StepPartition()
    ensures Partition(STEP, STEP_RECTS)
  {
    StepCells();
    forall x, y | MaterialAt(STEP, x, y).Some? ensures Covered(STEP_RECTS, x, y) {
      if y == 0 {
        assert InRect(STEP_RECTS[0], x, y);
      } else {
        assert InRect(STEP_RECTS[1], x, y);
      }
    }
  }

  lemma StepGreedy()
    ensures RowMajor(STEP_RECTS) && Greedy(STEP, STEP_RECTS)
  {
    StepCells();
    assert MaterialAt(STEP, 2, 1) == None;
  }

  /** `["ww", "www"]`: the 2-by-2 block first, then the single cell sticking out of row 1. */
  lemma CompileStairs(rs: seq<GridRect>)
    requires Compiled(NormalizeBlueprintRows(["ww", "www"]), rs)
    ensures rs == [GridRect(0, 0, 2, 2, Wood), GridRect(2, 1, 1, 1, Wood)]
  {
    NormalizePadsTo(["ww", "www"], STAIRS);
    StairsPartition();
    StairsGreedy();
    CompiledUnique(STAIRS, rs, STAIRS_RECTS);
  }

  /** `["www", "ww"]`: the whole first row, then the two cells of the second. */
  lemma CompileStep(rs: seq<GridRect>)
    requires Compiled(NormalizeBlueprintRows(["www", "ww"]), rs)
    ensures rs == [GridRect(0, 0, 3, 1, Wood), GridRect(0, 1, 2, 1, Wood)]
  {
    NormalizePadsTo(["www", "ww"], STEP);
    StepPartition();
    StepGreedy();
    CompiledUnique(STEP, rs, STEP_RECTS);
  }

  /** Two rows, one of length 2 and one of length 3, are padded to the given three-wide rows. */
  lemma NormalizePadsTo(rows: seq<string>, g: seq<string>)
    requires |rows| == 2 && |g| == 2
    requires |g[0]| == 3 && |g[1]| == 3
    requires (|rows[0]| == 2 && |rows[1]| == 3) || (|rows[0]| == 3 && |rows[1]| == 2)
    requires forall i, j :: 0 <= i < 2 && 0 <= j < |rows[i]| ==> g[i][j] == rows[i][j]
    requires forall i, j :: 0 <= i < 2 && |rows[i]| <= j < 3 ==> g[i][j] == EMPTY_CELL
    ensures NormalizeBlueprintRows(rows) == g
  {
    var n := NormalizeBlueprintRows(rows);
    assert MaxRowLength(rows) == 3;
    forall i | 0 <= i < 2 ensures n[i] == g[i] {
      forall j | 0 <= j < 3 ensures n[i][j] == g[i][j] {
        if j < |rows[i]| {
          assert n[i][..|rows[i]|][j] == rows[i][j];
        }
      }
    }
  }

  /** Rows holding only empty and spawn tokens compile to no rectangle at all. */
  lemma CompileNoMaterial(rows: seq<string>, rs: seq<GridRect>)
    requires forall i, j :: 0 <= i < |rows| && 0 <= j < |rows[i]| ==> rows[i][j] == '-' || rows[i][j] == 'p'
    requires Compiled(NormalizeBlueprintRows(rows), rs)
    ensures rs == []
  {
    NoMaterialCells(rows);
    FirstCellMaterial(NormalizeBlueprintRows(rows), rs);
  }

  /** Normalised rows of empty and spawn tokens hold no material. */
  lemma NoMaterialCells(rows: seq<string>)
    requires forall i, j :: 0 <= i < |rows| && 0 <= j < |rows[i]| ==> rows[i][j] == '-' || rows[i][j] == 'p'
    ensures forall x, y :: MaterialAt(NormalizeBlueprintRows(rows), x, y) == None
  {
    var g := NormalizeBlueprintRows(rows);
    forall x, y ensures MaterialAt(g, x, y) == None {
      if 0 <= y < |g| && 0 <= x < |g[y]| {
        if x < |rows[y]| {
          assert g[y][..|rows[y]|][x] == rows[y][x];
        }
        assert g[y][x] == '-' || g[y][x] == 'p';
      }
    }
  }

  /** A partition's first rectangle starts on a material cell. */
  lemma FirstCellMaterial(g: seq<string>, rs: seq<GridRect>)
    requires Partition(g, rs)
    ensures |rs| > 0 ==> MaterialAt(g, rs[0].x, rs[0].y).Some?
  {
    if |rs| > 0 {
      assert InRect(rs[0], rs[0].x, rs[0].y);
    }
  }
}
