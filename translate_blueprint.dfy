/** Moving compiled rectangles in cell space (lib/building/translate-blueprint.ts). */
module TranslateBlueprint {
  import opened Types

  /** Lines 3-4: every rectangle shifted by (dx, dy); size, material and order are kept. */
  function TranslateRects(rects: seq<GridRect>, dx: int, dy: int): (r: seq<GridRect>)
    ensures |r| == |rects|
    ensures forall i :: 0 <= i < |rects| ==>
              r[i].x == rects[i].x + dx && r[i].y == rects[i].y + dy &&
              r[i].w == rects[i].w && r[i].h == rects[i].h && r[i].material == rects[i].material
  {
    seq(|rects|, i requires 0 <= i < |rects| => rects[i].(x := rects[i].x + dx, y := rects[i].y + dy))
  }

  /** A cell is covered by a translated rectangle exactly when the cell shifted back is
      covered by the original one. */
  lemma TranslateCovers(rects: seq<GridRect>, dx: int, dy: int, i: int, cx: int, cy: int)
    requires 0 <= i < |rects|
    ensures InRect(TranslateRects(rects, dx, dy)[i], cx, cy) <==> InRect(rects[i], cx - dx, cy - dy)
  {
  }

  /** Translating by (0, 0) changes nothing. */
  lemma TranslateIdentity(rects: seq<GridRect>)
    ensures TranslateRects(rects, 0, 0) == rects
  {
    var r := TranslateRects(rects, 0, 0);
    assert forall i :: 0 <= i < |rects| ==> r[i] == rects[i];
  }

  /** Translating by (a, b) and then by (c, d) is translating by (a + c, b + d). */
  lemma TranslateCompose(rects: seq<GridRect>, a: int, b: int, c: int, d: int)
    ensures TranslateRects(TranslateRects(rects, a, b), c, d) == TranslateRects(rects, a + c, b + d)
  {
    var lhs := TranslateRects(TranslateRects(rects, a, b), c, d);
    var rhs := TranslateRects(rects, a + c, b + d);
    assert forall i :: 0 <= i < |rects| ==> lhs[i] == rhs[i];
  }

  /** Translating back by (-dx, -dy) undoes a translation. */
  lemma TranslateInverse(rects: seq<GridRect>, dx: int, dy: int)
    ensures TranslateRects(TranslateRects(rects, dx, dy), -dx, -dy) == rects
  {
    TranslateCompose(rects, dx, dy, -dx, -dy);
    TranslateIdentity(rects);
  }

  /** Moving non-overlapping rectangles keeps them non-overlapping. */
  lemma TranslateDisjoint(rects: seq<GridRect>, dx: int, dy: int)
    requires Disjoint(rects)
    ensures Disjoint(TranslateRects(rects, dx, dy))
  {
    var moved := TranslateRects(rects, dx, dy);
    forall i, j, x, y | 0 <= i < j < |moved| && InRect(moved[i], x, y) ensures !InRect(moved[j], x, y) {
      TranslateCovers(rects, dx, dy, i, x, y);
      TranslateCovers(rects, dx, dy, j, x, y);
    }
  }
}
