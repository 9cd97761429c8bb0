/** Blueprint tokens and row normalisation (lib/building/blueprint-utils.ts). */
module BlueprintUtils {
  import opened Types

  /** The token of an empty cell. */
  const EMPTY_CELL: char := '-'

  /** The material a blueprint token stands for; every character other than
      'w', 't', 's' and 'g' (including '-' and the spawn token 'p') is empty. */
  function TokenToMaterial(token: char): (m: Option<Material>)
    ensures m.Some? <==> token in {'w', 't', 's', 'g'}
    ensures token == 'w' <==> m == Some(Wood)
    ensures token == 't' <==> m == Some(Steel)
    ensures token == 's' <==> m == Some(Stone)
    ensures token == 'g' <==> m == Some(Glass)
  {
    match token
    case 'w' => Some(Wood)
    case 't' => Some(Steel)
    case 's' => Some(Stone)
    case 'g' => Some(Glass)
    case _ => None
  }

  /** The length of the longest row (0 for no rows): the `reduce` with Math.max. */
  function MaxRowLength(rows: seq<string>): (width: nat)
    ensures forall i :: 0 <= i < |rows| ==> |rows[i]| <= width
    ensures rows == [] ==> width == 0
    ensures rows != [] ==> exists i :: 0 <= i < |rows| && |rows[i]| == width
  {
    if rows == [] then 0
    else
      var rest := MaxRowLength(rows[1..]);
      assert forall i :: 1 <= i < |rows| ==> rows[i] == rows[1..][i - 1];
      if |rows[0]| < rest then rest else |rows[0]|
  }

  /** String.prototype.padEnd with a one-character pad. */
  function PadEnd(s: string, width: int, pad: char): (r: string)
    ensures |s| >= width ==> r == s
    ensures |s| < width ==> |r| == width
    ensures |r| >= |s| && r[..|s|] == s
    ensures forall j :: |s| <= j < |r| ==> r[j] == pad
  {
    if |s| >= width then s else s + Repeat(pad, width - |s|)
  }

  /** Pads every row with '-' up to the longest row, keeping the rows and their order. */
  function NormalizeBlueprintRows(rows: seq<string>): (r: seq<string>)
    ensures |r| == |rows|
    ensures forall i :: 0 <= i < |r| ==> |r[i]| == MaxRowLength(rows)
    ensures forall i :: 0 <= i < |r| ==> |rows[i]| <= |r[i]| && r[i][..|rows[i]|] == rows[i]
    ensures forall i, j :: 0 <= i < |r| && |rows[i]| <= j < |r[i]| ==> r[i][j] == EMPTY_CELL
  {
    var width := MaxRowLength(rows);
    seq(|rows|, i requires 0 <= i < |rows| => PadEnd(rows[i], width, EMPTY_CELL))
  }

  /** Normalising an already normalised blueprint changes nothing. */
  lemma NormalizeIdempotent(rows: seq<string>)
    ensures NormalizeBlueprintRows(NormalizeBlueprintRows(rows)) == NormalizeBlueprintRows(rows)
  {
    var n := NormalizeBlueprintRows(rows);
    var width := MaxRowLength(n);
    if n != [] {
      assert width == MaxRowLength(rows);
    }
    var nn := NormalizeBlueprintRows(n);
    assert forall i :: 0 <= i < |n| ==> nn[i] == PadEnd(n[i], width, EMPTY_CELL) == n[i];
  }

  /** Rows that already share one length are left as they are. */
  lemma NormalizeUniformRows(rows: seq<string>, w: nat)
    requires forall i :: 0 <= i < |rows| ==> |rows[i]| == w
    ensures NormalizeBlueprintRows(rows) == rows
  {
    var n := NormalizeBlueprintRows(rows);
    if rows != [] {
      var k :| 0 <= k < |rows| && |rows[k]| == MaxRowLength(rows);
      assert forall i :: 0 <= i < |rows| ==> n[i] == PadEnd(rows[i], w, EMPTY_CELL) == rows[i];
    }
  }

  /** `getSoldierSpawnCells`, called at line 126 of lib/systems/level-system.ts: the
      spawn-marker positions of a blueprint, row by row, i.e. the cells holding 'p'. Its
      definition is not part of this model; the 'p' marker is the one the build store
      exports and reads back. */
  function SoldierSpawnCells(rows: seq<string>): (cells: seq<Cell>)
    ensures forall c :: c in cells <==> 0 <= c.y < |rows| && 0 <= c.x < |rows[c.y]| && rows[c.y][c.x] == 'p'
  {
    SpawnsFromRow(rows, 0)
  }

  /** The 'p' positions of rows y, y+1, ... */
  function SpawnsFromRow(rows: seq<string>, y: nat): (cells: seq<Cell>)
    requires y <= |rows|
    ensures forall c :: c in cells <==> y <= c.y < |rows| && 0 <= c.x < |rows[c.y]| && rows[c.y][c.x] == 'p'
    decreases |rows| - y
  {
    if y == |rows| then [] else SpawnsInRow(rows[y], 0, y) + SpawnsFromRow(rows, y + 1)
  }

  /** The 'p' positions of row y from column x on. */
  function SpawnsInRow(row: string, x: nat, y: int): (cells: seq<Cell>)
    requires x <= |row|
    ensures forall c :: c in cells <==> c.y == y && x <= c.x < |row| && row[c.x] == 'p'
    decreases |row| - x
  {
    if x == |row| then []
    else if row[x] == 'p' then [Cell(x, y)] + SpawnsInRow(row, x + 1, y)
    else SpawnsInRow(row, x + 1, y)
  }
}
