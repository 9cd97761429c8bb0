/** Shared value types of the building pipeline: materials, teams, grid cells,
    cell-space rectangles and world points. */
module Types {

  datatype Option<+T> = None | Some(value: T)

  /** The four building materials; each drives a body's physical properties. */
  datatype Material = Wood | Steel | Stone | Glass

  /** The two players. */
  datatype Team = Red | Blue

  /** An integer grid cell; x grows to the right, y grows downwards. */
  datatype Cell = Cell(x: int, y: int)

  /** A uniform-material rectangle of cells with top-left corner (x, y), w cells wide and h cells high. */
  datatype GridRect = GridRect(x: int, y: int, w: int, h: int, material: Material)

  /** One footprint cell: 1 when the piece occupies it. */
  type Bit = b: int | 0 <= b <= 1

  /** A quarter-turn rotation of a piece. */
  datatype Rotation = R0 | R90 | R180 | R270

  /** The placeable pieces. */
  datatype PieceId = Unit | Beam3 | Pillar3

  /** A piece: its id, display label (`label` in the source, a keyword here) and footprint (rows top to bottom). */
  datatype PieceDef = PieceDef(id: PieceId, title: string, footprint: seq<seq<Bit>>)

  /** A point in world (pixel) space. */
  datatype Point = Point(x: real, y: real)

  /** Cell (cx, cy) lies inside rectangle r. */
  predicate InRect(r: GridRect, cx: int, cy: int)
  {
    r.x <= cx < r.x + r.w && r.y <= cy < r.y + r.h
  }

  /** No cell belongs to two rectangles. */
  ghost predicate Disjoint(rs: seq<GridRect>)
  {
    forall i, j, x, y :: 0 <= i < j < |rs| && InRect(rs[i], x, y) ==> !InRect(rs[j], x, y)
  }

  /** `n` copies of character c. */
  function Repeat(c: char, n: nat): (s: string)
    ensures |s| == n && forall i :: 0 <= i < n ==> s[i] == c
  {
    if n == 0 then "" else Repeat(c, n - 1) + [c]
  }

  /** `Math.round`: the nearest integer, halves rounded up. */
  function JsRound(x: real): (r: int)
    ensures r as real - 0.5 <= x < r as real + 0.5
  {
    (x + 0.5).Floor
  }

  function Max(a: int, b: int): int { if a < b then b else a }
  function Min(a: int, b: int): int { if a < b then a else b }
}
