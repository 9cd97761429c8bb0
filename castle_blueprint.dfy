/** The built-in castle blueprint and its soldier spawn points
    (lib/building/blueprints/castle-blueprint.ts). */
module CastleBlueprint {
  import opened Types
  import opened BlueprintUtils

  /** Rows top to bottom; '-' is empty, 'w' wood, 't' steel, 's' stone, 'g' glass. */
  const CASTLE_BLUEPRINT: seq<string> := [
    "-------ggg-------",
    "-------g-g-------",
    "-----sssssss-----",
    "-----s-----s-----",
    "-----s-----s-----",
    "---sss-----sss---",
    "---s---------s---",
    "--ttt-------ttt--",
    "--sss-------sss--",
    "--s-s-------s-s--",
    "--sss--www--sss--",
    "---w---www---w---",
    "---wtttssstttw---",
    "----sssssssss----"
  ]

  /** Spawn cells relative to the blueprint's top-left corner. */
  const CASTLE_SOLDIER_SPAWNS: seq<Cell> := [Cell(4, 4), Cell(8, 1), Cell(12, 4)]

  /** The blueprint is a 17-wide, 14-high rectangle. */
  lemma CastleShape()
    ensures |CASTLE_BLUEPRINT| == 14
    ensures forall i :: 0 <= i < 14 ==> |CASTLE_BLUEPRINT[i]| == 17
  {
  }

  /** Normalising the castle changes nothing. */
  lemma CastleNormalized()
    ensures NormalizeBlueprintRows(CASTLE_BLUEPRINT) == CASTLE_BLUEPRINT
  {
    CastleShape();
    NormalizeUniformRows(CASTLE_BLUEPRINT, 17);
  }

  /** Only empty and material tokens occur. */
  lemma CastleAlphabet()
    ensures forall i, j :: 0 <= i < |CASTLE_BLUEPRINT| && 0 <= j < |CASTLE_BLUEPRINT[i]| ==>
      CASTLE_BLUEPRINT[i][j] in {'-', 'w', 't', 's', 'g'}
  {
    var rows := CASTLE_BLUEPRINT;
    forall i, j | 0 <= i < |rows| && 0 <= j < |rows[i]| ensures rows[i][j] in {'-', 'w', 't', 's', 'g'} {
      if i < 7 { RowsAlphabetTop(i, j); } else { RowsAlphabetBottom(i, j); }
    }
  }

  lemma RowsAlphabetTop(i: int, j: int)
    requires 0 <= i < 7 && 0 <= j < |CASTLE_BLUEPRINT[i]|
    ensures CASTLE_BLUEPRINT[i][j] in {'-', 'w', 't', 's', 'g'}
  {
  }

  lemma RowsAlphabetBottom(i: int, j: int)
    requires 7 <= i < 14 && 0 <= j < |CASTLE_BLUEPRINT[i]|
    ensures CASTLE_BLUEPRINT[i][j] in {'-', 'w', 't', 's', 'g'}
  {
  }

  /** There is no spawn marker 'p', so the blueprint itself yields no spawn cells. */
  lemma CastleHasNoSpawnMarkers()
    ensures SoldierSpawnCells(CASTLE_BLUEPRINT) == []
  {
    var cells := SoldierSpawnCells(CASTLE_BLUEPRINT);
    if cells != [] {
      var c := cells[0];
      assert c in cells;
      CastleAlphabet();
      assert false;
    }
  }

  /** Every row reads the same backwards: the castle is left-right symmetric. */
  lemma CastlePalindromic()
    ensures forall i, j :: 0 <= i < |CASTLE_BLUEPRINT| && 0 <= j < |CASTLE_BLUEPRINT[i]| ==>
      CASTLE_BLUEPRINT[i][j] == CASTLE_BLUEPRINT[i][|CASTLE_BLUEPRINT[i]| - 1 - j]
  {
    var rows := CASTLE_BLUEPRINT;
    CastleShape();
    forall i, j | 0 <= i < |rows| && 0 <= j < |rows[i]| ensures rows[i][j] == rows[i][|rows[i]| - 1 - j] {
      var h := if j <= 8 then j else 16 - j;
      if i < 4 { MirrorRows0(i, h); }
      else if i < 7 { MirrorRows4(i, h); }
      else if i < 11 { MirrorRows7(i, h); }
      else { MirrorRows11(i, h); }
    }
  }

  /** Rows 0-3 mirror around their middle column, checked on the left half. */
  lemma MirrorRows0(i: int, j: int)
    requires 0 <= i < 4 && 0 <= j <= 8
    ensures CASTLE_BLUEPRINT[i][j] == CASTLE_BLUEPRINT[i][16 - j]
  {
  }

  /** Rows 4-6 likewise. */
  lemma MirrorRows4(i: int, j: int)
    requires 4 <= i < 7 && 0 <= j <= 8
    ensures CASTLE_BLUEPRINT[i][j] == CASTLE_BLUEPRINT[i][16 - j]
  {
  }

  /** Rows 7-10 likewise. */
  lemma MirrorRows7(i: int, j: int)
    requires 7 <= i < 11 && 0 <= j <= 8
    ensures CASTLE_BLUEPRINT[i][j] == CASTLE_BLUEPRINT[i][16 - j]
  {
  }

  /** Rows 11-13 likewise. */
  lemma MirrorRows11(i: int, j: int)
    requires 11 <= i < 14 && 0 <= j <= 8
    ensures CASTLE_BLUEPRINT[i][j] == CASTLE_BLUEPRINT[i][16 - j]
  {
  }

  /** Each spawn point lies inside the blueprint on an empty cell. */
  lemma SpawnsOnEmptyCells()
    ensures forall c :: c in CASTLE_SOLDIER_SPAWNS ==>
      0 <= c.y < |CASTLE_BLUEPRINT| && 0 <= c.x < |CASTLE_BLUEPRINT[c.y]| &&
      CASTLE_BLUEPRINT[c.y][c.x] == EMPTY_CELL
  {
  }
}
