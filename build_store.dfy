/** The blueprint editor's state (store/build-store.ts): painted cells and soldier spawns
    on a `cols` by `rows` grid, a rectangular selection whose contents can be dragged to a
    new place, the castle template and the export to blueprint rows.
    The store's `"x,y"` keys are cells. `moveCells` and `moveSpawns`, arrays of distinct
    entries in the source, are a map and a set here: their order never affects a result. */
module BuildStore {
  import opened Types
  import opened BlueprintUtils
  import opened MaterialUtils
  import opened CastleBlueprint

  /** The editor's pointer tools. */
  datatype Tool = PaintTool | EraseTool | SoldierTool | SelectTool

  /** Whether the editor shows bare cells or game bodies. */
  datatype ViewMode = CellsView | GameView

  /** A selection between two corner cells, both included; the corners may come in any order. */
  datatype SelectionRect = SelectionRect(x0: int, y0: int, x1: int, y1: int)

  /** A move by whole cells. */
  datatype Move = Move(dx: int, dy: int)

  /** Lines 51-56: the same rectangle with its corners ordered; an ordered rectangle is
      its own normal form. */
  function NormalizeRect(r: SelectionRect): (n: SelectionRect)
    ensures n.x0 <= n.x1 && n.y0 <= n.y1
    ensures {n.x0, n.x1} == {r.x0, r.x1} && {n.y0, n.y1} == {r.y0, r.y1}
    ensures r.x0 <= r.x1 && r.y0 <= r.y1 ==> n == r
  {
    SelectionRect(Min(r.x0, r.x1), Min(r.y0, r.y1), Max(r.x0, r.x1), Max(r.y0, r.y1))
  }

  /** Lines 57-58: the cell lies inside the rectangle, borders included. */
  predicate InSelection(x: int, y: int, r: SelectionRect)
  {
    r.x0 <= x <= r.x1 && r.y0 <= y <= r.y1
  }

  /** Normalising a rectangle keeps the cells between its two corners. */
  lemma NormalizeKeepsArea(r: SelectionRect, x: int, y: int)
    ensures InSelection(x, y, NormalizeRect(r)) <==>
              (r.x0 <= x <= r.x1 || r.x1 <= x <= r.x0) && (r.y0 <= y <= r.y1 || r.y1 <= y <= r.y0)
  {
  }

  /** No key holds both a block and a spawn. */
  predicate KeysApart(cells: map<Cell, Material>, spawns: set<Cell>)
  {
    cells.Keys !! spawns
  }

  /** A cell moved by `d`. */
  function Shifted(c: Cell, d: Move): (s: Cell)
    ensures s.x - c.x == d.dx && s.y - c.y == d.dy
  {
    Cell(c.x + d.dx, c.y + d.dy)
  }

  /** Lines 174-181: the painted cells inside the selection, with their materials. */
  function SelectedCells(cells: map<Cell, Material>, sel: SelectionRect): (m: map<Cell, Material>)
    ensures forall c :: c in m <==> c in cells && InSelection(c.x, c.y, sel)
    ensures forall c :: c in m ==> m[c] == cells[c]
  {
    map c | c in cells && InSelection(c.x, c.y, sel) :: cells[c]
  }

  /** Lines 182-189: the spawns inside the selection. */
  function SelectedSpawns(spawns: set<Cell>, sel: SelectionRect): (s: set<Cell>)
    ensures forall c :: c in s <==> c in spawns && InSelection(c.x, c.y, sel)
  {
    set c | c in spawns && InSelection(c.x, c.y, sel)
  }

  /** Lines 208-210 and 263-265: the keys of everything being moved. */
  function SelectedKeys(moveCells: map<Cell, Material>, moveSpawns: set<Cell>): set<Cell>
  {
    moveCells.Keys + moveSpawns
  }

  /** Lines 215-227: a moved item may land on `t` when `t` is on the grid and holds no
      block or spawn that stays behind. */
  predicate Lands(t: Cell, cols: int, rows: int, cells: map<Cell, Material>, spawns: set<Cell>, keys: set<Cell>)
  {
    0 <= t.x < cols && 0 <= t.y < rows && !((t in spawns || t in cells) && t !in keys)
  }

  /** Lines 212-245: every moved block and every moved spawn lands. */
  predicate MoveFits(cols: int, rows: int, cells: map<Cell, Material>, spawns: set<Cell>,
                     moveCells: map<Cell, Material>, moveSpawns: set<Cell>, d: Move)
  {
    var keys := SelectedKeys(moveCells, moveSpawns);
    (forall c :: c in moveCells ==> Lands(Shifted(c, d), cols, rows, cells, spawns, keys)) &&
    (forall s :: s in moveSpawns ==> Lands(Shifted(s, d), cols, rows, cells, spawns, keys))
  }

  /** The moved blocks at their new keys. */
  function ShiftedCells(moveCells: map<Cell, Material>, d: Move): (m: map<Cell, Material>)
    ensures forall c :: c in moveCells ==> Shifted(c, d) in m && m[Shifted(c, d)] == moveCells[c]
  {
    map c | c in moveCells :: Shifted(c, d) := moveCells[c]
  }

  /** The moved spawns at their new keys. */
  function ShiftedSpawns(moveSpawns: set<Cell>, d: Move): (s: set<Cell>)
    ensures forall c :: c in moveSpawns ==> Shifted(c, d) in s
  {
    set c | c in moveSpawns :: Shifted(c, d)
  }

  /** Every key of the moved blocks or spawns is the shift of a moved key. */
  lemma ShiftedOrigin(moveCells: map<Cell, Material>, moveSpawns: set<Cell>, d: Move, t: Cell)
    ensures t in ShiftedCells(moveCells, d) <==> Shifted(t, Move(-d.dx, -d.dy)) in moveCells
    ensures t in ShiftedSpawns(moveSpawns, d) <==> Shifted(t, Move(-d.dx, -d.dy)) in moveSpawns
  {
    var o := Shifted(t, Move(-d.dx, -d.dy));
    assert Shifted(o, d) == t;
  }

  /** Lines 267-283: the blocks after a move: every selected key is emptied, then every
      moved block is written at its shifted key. */
  function MovedCells(cells: map<Cell, Material>, moveCells: map<Cell, Material>, moveSpawns: set<Cell>, d: Move)
    : map<Cell, Material>
  {
    (cells - SelectedKeys(moveCells, moveSpawns)) + ShiftedCells(moveCells, d)
  }

  /** Lines 267-283: the spawns after a move. */
  function MovedSpawns(spawns: set<Cell>, moveCells: map<Cell, Material>, moveSpawns: set<Cell>, d: Move): set<Cell>
  {
    (spawns - SelectedKeys(moveCells, moveSpawns)) + ShiftedSpawns(moveSpawns, d)
  }

  /** What a valid move does to the blocks: each moved block sits at its shifted key with
      its material, each block that was not selected stays where it was, and a key holds a
      block only for one of these two reasons. */
  lemma MovedCellsContents(cells: map<Cell, Material>, spawns: set<Cell>, cols: int, rows: int,
                           moveCells: map<Cell, Material>, moveSpawns: set<Cell>, d: Move)
    requires MoveFits(cols, rows, cells, spawns, moveCells, moveSpawns, d)
    ensures forall c :: c in moveCells ==>
              Shifted(c, d) in MovedCells(cells, moveCells, moveSpawns, d) &&
              MovedCells(cells, moveCells, moveSpawns, d)[Shifted(c, d)] == moveCells[c]
    ensures forall c :: c in cells && c !in SelectedKeys(moveCells, moveSpawns) ==>
              c in MovedCells(cells, moveCells, moveSpawns, d) && MovedCells(cells, moveCells, moveSpawns, d)[c] == cells[c]
    ensures forall t :: t in MovedCells(cells, moveCells, moveSpawns, d) ==>
              (t in cells && t !in SelectedKeys(moveCells, moveSpawns)) || Shifted(t, Move(-d.dx, -d.dy)) in moveCells
  {
    forall c | c in cells && c !in SelectedKeys(moveCells, moveSpawns)
      ensures c in MovedCells(cells, moveCells, moveSpawns, d) && MovedCells(cells, moveCells, moveSpawns, d)[c] == cells[c]
    {
      StaysPut(cells, spawns, cols, rows, moveCells, moveSpawns, d, c);
    }
    forall t | t in MovedCells(cells, moveCells, moveSpawns, d)
      ensures (t in cells && t !in SelectedKeys(moveCells, moveSpawns)) || Shifted(t, Move(-d.dx, -d.dy)) in moveCells
    {
      ShiftedOrigin(moveCells, moveSpawns, d, t);
    }
  }

  /** A block that was not selected is not overwritten by a valid move. */
  lemma StaysPut(cells: map<Cell, Material>, spawns: set<Cell>, cols: int, rows: int,
                 moveCells: map<Cell, Material>, moveSpawns: set<Cell>, d: Move, c: Cell)
    requires MoveFits(cols, rows, cells, spawns, moveCells, moveSpawns, d)
    requires c in cells && c !in SelectedKeys(moveCells, moveSpawns)
    ensures c in MovedCells(cells, moveCells, moveSpawns, d) && MovedCells(cells, moveCells, moveSpawns, d)[c] == cells[c]
  {
    var o := Shifted(c, Move(-d.dx, -d.dy));
    assert Shifted(o, d) == c;
    ShiftedOrigin(moveCells, moveSpawns, d, c);
    assert o in moveCells ==> Lands(c, cols, rows, cells, spawns, SelectedKeys(moveCells, moveSpawns));
  }

  /** A valid move keeps blocks and spawns on different keys, provided they were apart
      before and the moved blocks and spawns were apart. */
  lemma MovePreservesDisjoint(cells: map<Cell, Material>, spawns: set<Cell>, cols: int, rows: int,
                              moveCells: map<Cell, Material>, moveSpawns: set<Cell>, d: Move)
    requires KeysApart(cells, spawns) && moveCells.Keys !! moveSpawns
    requires MoveFits(cols, rows, cells, spawns, moveCells, moveSpawns, d)
    ensures KeysApart(MovedCells(cells, moveCells, moveSpawns, d), MovedSpawns(spawns, moveCells, moveSpawns, d))
  {
    var keys := SelectedKeys(moveCells, moveSpawns);
    forall t | t in MovedCells(cells, moveCells, moveSpawns, d) ensures t !in MovedSpawns(spawns, moveCells, moveSpawns, d) {
      var o := Shifted(t, Move(-d.dx, -d.dy));
      assert Shifted(o, d) == t;
      ShiftedOrigin(moveCells, moveSpawns, d, t);
      assert o in moveCells ==> Lands(t, cols, rows, cells, spawns, keys);
      assert o in moveSpawns ==> Lands(t, cols, rows, cells, spawns, keys);
    }
  }

  /** A valid move leaves every moved block and spawn on the grid. */
  lemma MoveStaysOnGrid(cells: map<Cell, Material>, spawns: set<Cell>, cols: int, rows: int,
                        moveCells: map<Cell, Material>, moveSpawns: set<Cell>, d: Move, t: Cell)
    requires MoveFits(cols, rows, cells, spawns, moveCells, moveSpawns, d)
    requires t in ShiftedCells(moveCells, d) || t in ShiftedSpawns(moveSpawns, d)
    ensures 0 <= t.x < cols && 0 <= t.y < rows
  {
    ShiftedOrigin(moveCells, moveSpawns, d, t);
    var o := Shifted(t, Move(-d.dx, -d.dy));
    assert Shifted(o, d) == t;
  }

  /** Line 330: the template token at (x, y), empty past the end of a row. */
  function TemplateToken(bp: seq<string>, x: int, y: int): (t: char)
    ensures 0 <= y < |bp| && 0 <= x < |bp[y]| ==> t == bp[y][x]
    ensures !(0 <= y < |bp| && 0 <= x < |bp[y]|) ==> t == EMPTY_CELL
  {
    if 0 <= y < |bp| && 0 <= x < |bp[y]| then bp[y][x] else EMPTY_CELL
  }

  /** Line 322: the template's width is its first row's length. */
  function TemplateWidth(bp: seq<string>): nat
  {
    if |bp| == 0 then 0 else |bp[0]|
  }

  /** Lines 323-324: the offset that centres an extent of `size` cells in `n` cells, never
      negative. */
  function CenterOffset(n: int, size: int): (off: int)
    ensures off >= 0
    ensures size <= n ==> off + size <= n && n - size - 1 <= 2 * off <= n - size
    ensures size > n ==> off == 0
  {
    Max(0, (n - size) / 2)
  }

  /** The template position (x, y) is inside the template box and lands on the grid. */
  predicate TemplateSlot(bp: seq<string>, cols: int, rows: int, x: int, y: int)
  {
    0 <= x < TemplateWidth(bp) && 0 <= y < |bp| &&
    CenterOffset(cols, TemplateWidth(bp)) + x < cols && CenterOffset(rows, |bp|) + y < rows
  }

  /** Where template position (x, y) lands on the grid. */
  function TemplateCell(bp: seq<string>, cols: int, rows: int, x: int, y: int): (c: Cell)
    ensures c.x - x == CenterOffset(cols, TemplateWidth(bp)) && c.y - y == CenterOffset(rows, |bp|)
  {
    Cell(CenterOffset(cols, TemplateWidth(bp)) + x, CenterOffset(rows, |bp|) + y)
  }

  /** Lines 326-340, restricted to the positions before row `ly`, column `lx`: the blocks
      the template writes there. */
  function TemplateCellsBefore(bp: seq<string>, cols: int, rows: int, lx: int, ly: int): map<Cell, Material>
  {
    map x, y | 0 <= x < TemplateWidth(bp) && 0 <= y < |bp| && TemplateSlot(bp, cols, rows, x, y) && (y < ly || (y == ly && x < lx)) &&
               TokenToMaterial(TemplateToken(bp, x, y)).Some? ::
      TemplateCell(bp, cols, rows, x, y) := TokenToMaterial(TemplateToken(bp, x, y)).value
  }

  /** Lines 326-340, restricted likewise: the spawns the template writes there. */
  function TemplateSpawnsBefore(bp: seq<string>, cols: int, rows: int, lx: int, ly: int): set<Cell>
  {
    set x, y | 0 <= x < TemplateWidth(bp) && 0 <= y < |bp| && TemplateSlot(bp, cols, rows, x, y) && (y < ly || (y == ly && x < lx)) &&
               TemplateToken(bp, x, y) == 'p' ::
      TemplateCell(bp, cols, rows, x, y)
  }

  /** Lines 318-342: the blocks of the whole template, centred on the grid. */
  function TemplateCells(bp: seq<string>, cols: int, rows: int): map<Cell, Material>
  {
    TemplateCellsBefore(bp, cols, rows, 0, |bp|)
  }

  /** Lines 318-342: the spawns of the whole template, centred on the grid. */
  function TemplateSpawns(bp: seq<string>, cols: int, rows: int): set<Cell>
  {
    TemplateSpawnsBefore(bp, cols, rows, 0, |bp|)
  }

  /** The template writes a block where its token names a material and a spawn where it
      holds 'p', at the centred key, and nothing else; so blocks and spawns never share a key. */
  lemma TemplateContents(bp: seq<string>, cols: int, rows: int, lx: int, ly: int, x: int, y: int)
    requires TemplateSlot(bp, cols, rows, x, y) && (y < ly || (y == ly && x < lx))
    ensures var c := TemplateCell(bp, cols, rows, x, y);
      var t := TemplateToken(bp, x, y);
      && (c in TemplateCellsBefore(bp, cols, rows, lx, ly) <==> TokenToMaterial(t).Some?)
      && (TokenToMaterial(t).Some? ==> TemplateCellsBefore(bp, cols, rows, lx, ly)[c] == TokenToMaterial(t).value)
      && (c in TemplateSpawnsBefore(bp, cols, rows, lx, ly) <==> t == 'p')
  {
    var c := TemplateCell(bp, cols, rows, x, y);
    if c in TemplateCellsBefore(bp, cols, rows, lx, ly) {
      var x', y' :| TemplateSlot(bp, cols, rows, x', y') && (y' < ly || (y' == ly && x' < lx)) &&
                    TokenToMaterial(TemplateToken(bp, x', y')).Some? && TemplateCell(bp, cols, rows, x', y') == c;
      assert x' == x && y' == y;
    }
    if c in TemplateSpawnsBefore(bp, cols, rows, lx, ly) {
      var x', y' :| TemplateSlot(bp, cols, rows, x', y') && (y' < ly || (y' == ly && x' < lx)) &&
                    TemplateToken(bp, x', y') == 'p' && TemplateCell(bp, cols, rows, x', y') == c;
      assert x' == x && y' == y;
    }
  }

  /** Every key the template writes comes from a template position before (lx, ly). */
  lemma TemplateOrigin(bp: seq<string>, cols: int, rows: int, lx: int, ly: int, c: Cell)
    requires c in TemplateCellsBefore(bp, cols, rows, lx, ly) || c in TemplateSpawnsBefore(bp, cols, rows, lx, ly)
    ensures var x := c.x - CenterOffset(cols, TemplateWidth(bp));
      var y := c.y - CenterOffset(rows, |bp|);
      TemplateSlot(bp, cols, rows, x, y) && (y < ly || (y == ly && x < lx)) && c == TemplateCell(bp, cols, rows, x, y)
  {
  }

  /** One step of the template loops: position (x, y) adds its block, if any. */
  lemma TemplateStepCells(bp: seq<string>, cols: int, rows: int, x: int, y: int)
    requires 0 <= x < TemplateWidth(bp) && 0 <= y < |bp|
    ensures var c := TemplateCell(bp, cols, rows, x, y);
      var m := TokenToMaterial(TemplateToken(bp, x, y));
      TemplateCellsBefore(bp, cols, rows, x + 1, y) ==
        if TemplateSlot(bp, cols, rows, x, y) && m.Some? then TemplateCellsBefore(bp, cols, rows, x, y)[c := m.value]
        else TemplateCellsBefore(bp, cols, rows, x, y)
  {
    var c := TemplateCell(bp, cols, rows, x, y);
    var m := TokenToMaterial(TemplateToken(bp, x, y));
    var slot := TemplateSlot(bp, cols, rows, x, y);
    var before := TemplateCellsBefore(bp, cols, rows, x, y);
    var after := TemplateCellsBefore(bp, cols, rows, x + 1, y);
    forall k | k != c || !slot ensures (k in after <==> k in before) && (k in after ==> after[k] == before[k]) {
      TemplateKeyStep(bp, cols, rows, x, y, k);
    }
    TemplateKeyStep(bp, cols, rows, x, y, c);
    MapStep(before, after, c, slot, m);
  }

  /** One step of the template loops: position (x, y) adds its spawn, if any. */
  lemma TemplateStepSpawns(bp: seq<string>, cols: int, rows: int, x: int, y: int)
    requires 0 <= x < TemplateWidth(bp) && 0 <= y < |bp|
    ensures var c := TemplateCell(bp, cols, rows, x, y);
      TemplateSpawnsBefore(bp, cols, rows, x + 1, y) ==
        if TemplateSlot(bp, cols, rows, x, y) && TemplateToken(bp, x, y) == 'p' then TemplateSpawnsBefore(bp, cols, rows, x, y) + {c}
        else TemplateSpawnsBefore(bp, cols, rows, x, y)
  {
    var c := TemplateCell(bp, cols, rows, x, y);
    var before := TemplateSpawnsBefore(bp, cols, rows, x, y);
    var after := TemplateSpawnsBefore(bp, cols, rows, x + 1, y);
    var expected := if TemplateSlot(bp, cols, rows, x, y) && TemplateToken(bp, x, y) == 'p' then before + {c} else before;
    forall k | k in after || k in expected ensures k in after && k in expected {
      TemplateKeyStep(bp, cols, rows, x, y, k);
    }
  }

  /** A map that agrees with `before` away from `c` and holds `m` at `c` when `slot` is set
      is `before` with `c` written, or `before` itself when nothing is written. */
  lemma MapStep(before: map<Cell, Material>, after: map<Cell, Material>, c: Cell, slot: bool, m: Option<Material>)
    requires forall k :: k != c || !slot ==> (k in after <==> k in before) && (k in after ==> after[k] == before[k])
    requires slot ==> c !in before && (c in after <==> m.Some?) && (m.Some? ==> after[c] == m.value)
    ensures after == if slot && m.Some? then before[c := m.value] else before
  {
    if slot && m.Some? {
      var expected := before[c := m.value];
      assert forall k :: k in after || k in expected ==> k in after && k in expected && after[k] == expected[k];
      assert after == expected;
    } else {
      assert forall k :: k in after || k in before ==> k in after && k in before && after[k] == before[k];
      assert after == before;
    }
  }

  /** The step at (x, y) seen from one key: a key other than (x, y)'s cell has the same
      contents before and after it; (x, y)'s cell gets its token's block or spawn. */
  lemma TemplateKeyStep(bp: seq<string>, cols: int, rows: int, x: int, y: int, k: Cell)
    requires 0 <= x < TemplateWidth(bp) && 0 <= y < |bp|
    ensures var c := TemplateCell(bp, cols, rows, x, y);
      var m := TokenToMaterial(TemplateToken(bp, x, y));
      var before := TemplateCellsBefore(bp, cols, rows, x, y);
      var after := TemplateCellsBefore(bp, cols, rows, x + 1, y);
      && (k != c || !TemplateSlot(bp, cols, rows, x, y) ==>
            (k in after <==> k in before) && (k in after ==> after[k] == before[k]) &&
            (k in TemplateSpawnsBefore(bp, cols, rows, x + 1, y) <==> k in TemplateSpawnsBefore(bp, cols, rows, x, y)))
      && (k == c && TemplateSlot(bp, cols, rows, x, y) ==>
            k !in before && (k in after <==> m.Some?) && (m.Some? ==> after[k] == m.value) &&
            (k in TemplateSpawnsBefore(bp, cols, rows, x + 1, y) <==> TemplateToken(bp, x, y) == 'p'))
  {
    var kx := k.x - CenterOffset(cols, TemplateWidth(bp));
    var ky := k.y - CenterOffset(rows, |bp|);
    if TemplateSlot(bp, cols, rows, kx, ky) && (ky < y || (ky == y && kx < x)) {
      TemplateContents(bp, cols, rows, x, y, kx, ky);
      TemplateContents(bp, cols, rows, x + 1, y, kx, ky);
    } else if TemplateSlot(bp, cols, rows, kx, ky) && kx == x && ky == y {
      TemplateContents(bp, cols, rows, x + 1, y, kx, ky);
      if k in TemplateCellsBefore(bp, cols, rows, x, y) || k in TemplateSpawnsBefore(bp, cols, rows, x, y) {
        TemplateOrigin(bp, cols, rows, x, y, k);
      }
    } else {
      if k in TemplateCellsBefore(bp, cols, rows, x + 1, y) || k in TemplateSpawnsBefore(bp, cols, rows, x + 1, y) {
        TemplateOrigin(bp, cols, rows, x + 1, y, k);
      }
      if k in TemplateCellsBefore(bp, cols, rows, x, y) || k in TemplateSpawnsBefore(bp, cols, rows, x, y) {
        TemplateOrigin(bp, cols, rows, x, y, k);
      }
    }
  }

  /** Finishing row y is starting row y + 1. */
  lemma TemplateRowDone(bp: seq<string>, cols: int, rows: int, y: int)
    ensures TemplateCellsBefore(bp, cols, rows, TemplateWidth(bp), y) == TemplateCellsBefore(bp, cols, rows, 0, y + 1)
    ensures TemplateSpawnsBefore(bp, cols, rows, TemplateWidth(bp), y) == TemplateSpawnsBefore(bp, cols, rows, 0, y + 1)
  {
  }

  /** The template never puts a block and a spawn on the same key. */
  lemma TemplateDisjoint(bp: seq<string>, cols: int, rows: int)
    ensures KeysApart(TemplateCells(bp, cols, rows), TemplateSpawns(bp, cols, rows))
  {
    forall c | c in TemplateCells(bp, cols, rows) && c in TemplateSpawns(bp, cols, rows) ensures false {
      TemplateOrigin(bp, cols, rows, 0, |bp|, c);
      var x := c.x - CenterOffset(cols, TemplateWidth(bp));
      var y := c.y - CenterOffset(rows, |bp|);
      TemplateContents(bp, cols, rows, 0, |bp|, x, y);
    }
  }

  /** Lines 351-358: a spawn exports as 'p', a block as its material's token, anything
      else as '-'. */
  function ExportToken(cells: map<Cell, Material>, spawns: set<Cell>, c: Cell): char
  {
    if c in spawns then 'p'
    else if c in cells then MaterialToToken(cells[c])
    else EMPTY_CELL
  }

  /** Lines 347-362: row y of the export, one token per column. */
  function ExportRow(cols: int, cells: map<Cell, Material>, spawns: set<Cell>, y: int): (row: string)
    ensures |row| == Max(0, cols)
    ensures forall x :: 0 <= x < |row| ==> row[x] == ExportToken(cells, spawns, Cell(x, y))
  {
    seq(Max(0, cols), x requires 0 <= x < Max(0, cols) => ExportToken(cells, spawns, Cell(x, y)))
  }

  /** Lines 344-364: the editor grid as blueprint rows, top to bottom. */
  function ExportRows(cols: int, rows: int, cells: map<Cell, Material>, spawns: set<Cell>): (out: seq<string>)
    ensures |out| == Max(0, rows)
    ensures forall y :: 0 <= y < |out| ==> out[y] == ExportRow(cols, cells, spawns, y)
  {
    seq(Max(0, rows), y requires 0 <= y < Max(0, rows) => ExportRow(cols, cells, spawns, y))
  }

  /** Reading an export back recovers the editor grid: a cell of the grid exports as 'p'
      exactly when it holds a spawn, and otherwise its token reads back as its block's
      material, or as empty when it has none. */
  lemma ExportReadsBack(cols: int, rows: int, cells: map<Cell, Material>, spawns: set<Cell>, x: int, y: int)
    requires 0 <= x < cols && 0 <= y < rows
    ensures var t := ExportRows(cols, rows, cells, spawns)[y][x];
      && (t == 'p' <==> Cell(x, y) in spawns)
      && (Cell(x, y) !in spawns ==>
            TokenToMaterial(t) == if Cell(x, y) in cells then Some(cells[Cell(x, y)]) else None)
  {
    var c := Cell(x, y);
    assert ExportRows(cols, rows, cells, spawns)[y][x] == ExportToken(cells, spawns, c);
    if c in cells && c !in spawns {
      assert MaterialToToken(cells[c]) in {'w', 't', 's', 'g'};
    }
  }

  /** The token a template position exports as: material tokens and 'p' survive, every
      other character becomes '-'. */
  function Canonical(t: char): (r: char)
    ensures r == t || r == EMPTY_CELL
    ensures r == t <==> t == 'p' || t == EMPTY_CELL || TokenToMaterial(t).Some?
  {
    if t == 'p' || TokenToMaterial(t).Some? then t else EMPTY_CELL
  }

  /** Loading a template and exporting it gives back the template at its centred place:
      each template position on the grid exports as its own token (with unknown
      characters as '-'), and every grid cell outside the template box exports as '-'. */
  lemma TemplateExportRoundTrip(bp: seq<string>, cols: int, rows: int, x: int, y: int)
    requires 0 <= x < cols && 0 <= y < rows
    ensures var out := ExportRows(cols, rows, TemplateCells(bp, cols, rows), TemplateSpawns(bp, cols, rows));
      var tx := x - CenterOffset(cols, TemplateWidth(bp));
      var ty := y - CenterOffset(rows, |bp|);
      && (TemplateSlot(bp, cols, rows, tx, ty) ==> out[y][x] == Canonical(TemplateToken(bp, tx, ty)))
      && (!TemplateSlot(bp, cols, rows, tx, ty) ==> out[y][x] == EMPTY_CELL)
  {
    var cells := TemplateCells(bp, cols, rows);
    var spawns := TemplateSpawns(bp, cols, rows);
    var c := Cell(x, y);
    var tx := x - CenterOffset(cols, TemplateWidth(bp));
    var ty := y - CenterOffset(rows, |bp|);
    assert ExportRows(cols, rows, cells, spawns)[y][x] == ExportToken(cells, spawns, c);
    if TemplateSlot(bp, cols, rows, tx, ty) {
      assert TemplateCell(bp, cols, rows, tx, ty) == c;
      TemplateContents(bp, cols, rows, 0, |bp|, tx, ty);
      var t := TemplateToken(bp, tx, ty);
      if TokenToMaterial(t).Some? {
        TokenRoundTrip(t);
      }
    } else if c in cells || c in spawns {
      TemplateOrigin(bp, cols, rows, 0, |bp|, c);
    }
  }

  /** The castle loaded into the default 40 by 22 editor grid sits 11 columns and 4 rows
      from the corner, and its export shows the castle blueprint there unchanged. */
  lemma CastleTemplateExport(x: int, y: int)
    requires 0 <= y < |CASTLE_BLUEPRINT| && 0 <= x < |CASTLE_BLUEPRINT[y]|
    ensures ExportRows(40, 22, TemplateCells(CASTLE_BLUEPRINT, 40, 22), TemplateSpawns(CASTLE_BLUEPRINT, 40, 22))[4 + y][11 + x]
            == CASTLE_BLUEPRINT[y][x]
  {
    CastleShape();
    CastleAlphabet();
    assert TemplateWidth(CASTLE_BLUEPRINT) == 17;
    assert CenterOffset(40, 17) == 11 && CenterOffset(22, 14) == 4;
    TemplateExportRoundTrip(CASTLE_BLUEPRINT, 40, 22, 11 + x, 4 + y);
  }

  /** The editor store. */
  class BuildState {
    var cols: int
    var rows: int
    var cellSize: real
    var selectedMaterial: Material
    var tool: Tool
    var viewMode: ViewMode
    var isPointerDown: bool
    /** The painted blocks, keyed by cell. */
    var cells: map<Cell, Material>
    /** The soldier spawns. */
    var spawns: set<Cell>
    var selection: Option<SelectionRect>
    var selectionAnchor: Option<Cell>
    var movingAnchor: Option<Cell>
    var moveOffset: Move
    var moveValid: bool
    /** The blocks picked up by the current move, at their original keys. */
    var moveCells: map<Cell, Material>
    /** The spawns picked up by the current move, at their original keys. */
    var moveSpawns: set<Cell>

    /** No key holds both a block and a spawn. */
    predicate Apart()
      reads this
    {
      KeysApart(cells, spawns)
    }

    /** The pending move is in its resting state. */
    predicate MoveIdle()
      reads this
    {
      movingAnchor == None && moveOffset == Move(0, 0) && moveValid && moveCells == map[] && moveSpawns == {}
    }

    /** Lines 61-77: an empty 40 by 22 grid of 40-pixel cells, painting wood. */
    constructor ()
      ensures cols == 40 && rows == 22 && cellSize == 40.0 && selectedMaterial == Wood
      ensures tool == PaintTool && viewMode == GameView && !isPointerDown
      ensures cells == map[] && spawns == {} && Apart()
      ensures selection == None && selectionAnchor == None && MoveIdle()
    {
      cols := 40;
      rows := 22;
      cellSize := 40.0;
      selectedMaterial := Wood;
      tool := PaintTool;
      viewMode := GameView;
      isPointerDown := false;
      cells := map[];
      spawns := {};
      selection := None;
      selectionAnchor := None;
      movingAnchor := None;
      moveOffset := Move(0, 0);
      moveValid := true;
      moveCells := map[];
      moveSpawns := {};
    }

    /** Line 79. */
    method SetGrid(cols: int, rows: int, cellSize: real)
      modifies this`cols, this`rows, this`cellSize
      ensures this.cols == cols && this.rows == rows && this.cellSize == cellSize
    {
      this.cols := cols;
      this.rows := rows;
      this.cellSize := cellSize;
    }

    /** Line 80. */
    method SetSelectedMaterial(material: Material)
      modifies this`selectedMaterial
      ensures selectedMaterial == material
    {
      selectedMaterial := material;
    }

    /** Lines 81-95: any tool but select drops the selection and the pending move. */
    method SetTool(t: Tool)
      modifies this`tool, this`selection, this`selectionAnchor, this`movingAnchor, this`moveOffset,
               this`moveValid, this`moveCells, this`moveSpawns
      ensures tool == t
      ensures t == SelectTool ==>
                selection == old(selection) && selectionAnchor == old(selectionAnchor) &&
                movingAnchor == old(movingAnchor) && moveOffset == old(moveOffset) && moveValid == old(moveValid) &&
                moveCells == old(moveCells) && moveSpawns == old(moveSpawns)
      ensures t != SelectTool ==> selection == None && selectionAnchor == None && MoveIdle()
    {
      tool := t;
      if t != SelectTool {
        selectionAnchor := None;
        movingAnchor := None;
        moveOffset := Move(0, 0);
        moveValid := true;
        moveCells := map[];
        moveSpawns := {};
        if selection.Some? {
          selection := None;
        }
      }
    }

    /** Line 96. */
    method SetViewMode(mode: ViewMode)
      modifies this`viewMode
      ensures viewMode == mode
    {
      viewMode := mode;
    }

    /** Line 97. */
    method SetPointerDown(down: bool)
      modifies this`isPointerDown
      ensures isPointerDown == down
    {
      isPointerDown := down;
    }

    /** Lines 99-108: the cell gets the selected material and loses any spawn; every other
        key keeps what it had. */
    method PaintCell(x: int, y: int)
      modifies this`cells, this`spawns
      ensures cells == old(cells)[Cell(x, y) := selectedMaterial]
      ensures spawns == old(spawns) - {Cell(x, y)}
      ensures old(Apart()) ==> Apart()
    {
      var k := Cell(x, y);
      cells := cells[k := selectedMaterial];
      spawns := spawns - {k};
    }

    /** Lines 110-117: the cell loses its block and its spawn. */
    method ClearCell(x: int, y: int)
      modifies this`cells, this`spawns
      ensures cells == old(cells) - {Cell(x, y)} && spawns == old(spawns) - {Cell(x, y)}
      ensures old(Apart()) ==> Apart()
    {
      var k := Cell(x, y);
      cells := cells - {k};
      spawns := spawns - {k};
    }

    /** Lines 119-130: an existing spawn is removed and the blocks stay; otherwise a spawn
        is added and any block on that key is removed. */
    method ToggleSpawn(x: int, y: int)
      modifies this`cells, this`spawns
      ensures Cell(x, y) in old(spawns) ==> spawns == old(spawns) - {Cell(x, y)} && cells == old(cells)
      ensures Cell(x, y) !in old(spawns) ==> spawns == old(spawns) + {Cell(x, y)} && cells == old(cells) - {Cell(x, y)}
      ensures old(Apart()) ==> Apart()
    {
      var k := Cell(x, y);
      var nextSpawns := spawns;
      var nextCells := cells;
      if k in nextSpawns {
        nextSpawns := nextSpawns - {k};
      } else {
        nextSpawns := nextSpawns + {k};
        nextCells := nextCells - {k};
      }
      spawns := nextSpawns;
      cells := nextCells;
    }

    /** Lines 132-141. */
    method ClearSelection()
      modifies this`selection, this`selectionAnchor, this`movingAnchor, this`moveOffset,
               this`moveValid, this`moveCells, this`moveSpawns
      ensures selection == None && selectionAnchor == None && MoveIdle()
    {
      selection := None;
      selectionAnchor := None;
      movingAnchor := None;
      moveOffset := Move(0, 0);
      moveValid := true;
      moveCells := map[];
      moveSpawns := {};
    }

    /** Lines 143-152: a one-cell selection anchored at (x, y), with no pending move. */
    method BeginSelection(x: int, y: int)
      modifies this`selection, this`selectionAnchor, this`movingAnchor, this`moveOffset,
               this`moveValid, this`moveCells, this`moveSpawns
      ensures selection == Some(SelectionRect(x, y, x, y)) && selectionAnchor == Some(Cell(x, y)) && MoveIdle()
    {
      selection := Some(SelectionRect(x, y, x, y));
      selectionAnchor := Some(Cell(x, y));
      movingAnchor := None;
      moveOffset := Move(0, 0);
      moveValid := true;
      moveCells := map[];
      moveSpawns := {};
    }

    /** Lines 154-160: while a selection is being drawn, its second corner follows the pointer. */
    method UpdateSelection(x: int, y: int)
      modifies this`selection
      ensures old(selection).Some? && selectionAnchor.Some? ==>
                selection == Some(old(selection).value.(x1 := x, y1 := y))
      ensures !(old(selection).Some? && selectionAnchor.Some?) ==> selection == old(selection)
    {
      if selection.None? || selectionAnchor.None? {
        return;
      }
      selection := Some(selection.value.(x1 := x, y1 := y));
    }

    /** Lines 162-166: the selection's corners are ordered and drawing ends. */
    method FinalizeSelection()
      modifies this`selection, this`selectionAnchor
      ensures selectionAnchor == None
      ensures old(selection).None? ==> selection == None
      ensures old(selection).Some? ==> selection == Some(NormalizeRect(old(selection).value))
      ensures selection.Some? ==> selection.value.x0 <= selection.value.x1 && selection.value.y0 <= selection.value.y1
    {
      if selection.None? {
        selectionAnchor := None;
        return;
      }
      selection := Some(NormalizeRect(selection.value));
      selectionAnchor := None;
    }

    /** Lines 168-200: a press inside the selection picks up every block and spawn in it and
        anchors the move at the pressed cell; a press anywhere else, or with no selection,
        changes nothing. */
    method StartMoveSelection(x: int, y: int)
      modifies this`selection, this`selectionAnchor, this`movingAnchor, this`moveOffset,
               this`moveValid, this`moveCells, this`moveSpawns
      ensures old(selection).None? || !InSelection(x, y, NormalizeRect(old(selection).value)) ==>
                selection == old(selection) && selectionAnchor == old(selectionAnchor) &&
                movingAnchor == old(movingAnchor) && moveOffset == old(moveOffset) && moveValid == old(moveValid) &&
                moveCells == old(moveCells) && moveSpawns == old(moveSpawns)
      ensures old(selection).Some? && InSelection(x, y, NormalizeRect(old(selection).value)) ==>
                && selection == Some(NormalizeRect(old(selection).value))
                && movingAnchor == Some(Cell(x, y)) && moveOffset == Move(0, 0) && moveValid
                && moveCells == SelectedCells(cells, selection.value)
                && moveSpawns == SelectedSpawns(spawns, selection.value)
                && selectionAnchor == None
      ensures moveCells.Keys <= cells.Keys || moveCells == old(moveCells)
    {
      if selection.None? {
        return;
      }
      var sel := NormalizeRect(selection.value);
      if !InSelection(x, y, sel) {
        return;
      }
      var picked := PickCells(cells, sel);
      var pickedSpawns := PickSpawns(spawns, sel);
      selection := Some(sel);
      movingAnchor := Some(Cell(x, y));
      moveOffset := Move(0, 0);
      moveValid := true;
      moveCells := picked;
      moveSpawns := pickedSpawns;
      selectionAnchor := None;
    }

    /** Lines 202-248: the offset from the move anchor to (x, y), and whether every picked-up
        block and spawn would land on the grid on a key no unselected block or spawn holds.
        Without a selection or a move in progress nothing changes. */
    method UpdateMoveSelection(x: int, y: int)
      modifies this`moveOffset, this`moveValid
      ensures movingAnchor.None? || selection.None? ==> moveOffset == old(moveOffset) && moveValid == old(moveValid)
      ensures movingAnchor.Some? && selection.Some? ==>
                && moveOffset == Move(x - movingAnchor.value.x, y - movingAnchor.value.y)
                && moveValid == MoveFits(cols, rows, cells, spawns, moveCells, moveSpawns, moveOffset)
    {
      if movingAnchor.None? || selection.None? {
        return;
      }
      var d := Move(x - movingAnchor.value.x, y - movingAnchor.value.y);
      var valid := CheckMove(cols, rows, cells, spawns, moveCells, moveSpawns, d);
      moveOffset := d;
      moveValid := valid;
    }

    /** Lines 250-303: with a move in progress, an invalid or zero move is dropped and the
        blocks and spawns stay; a valid move empties every picked-up key, writes each block
        and spawn at its shifted key and shifts the selection with them. Either way the move
        ends. A commit whose validity was checked against the current blocks and spawns
        keeps them apart. */
    method CommitMoveSelection()
      modifies this`cells, this`spawns, this`selection, this`movingAnchor, this`moveOffset,
               this`moveValid, this`moveCells, this`moveSpawns
      ensures old(selection).None? || old(movingAnchor).None? ==> unchanged(this)
      ensures old(selection).Some? && old(movingAnchor).Some? && (!old(moveValid) || old(moveOffset) == Move(0, 0)) ==>
                cells == old(cells) && spawns == old(spawns) && selection == old(selection) &&
                movingAnchor == None && moveOffset == Move(0, 0) && moveValid == old(moveValid) &&
                moveCells == map[] && moveSpawns == {}
      ensures old(selection).Some? && old(movingAnchor).Some? && old(moveValid) && old(moveOffset) != Move(0, 0) ==>
                && cells == MovedCells(old(cells), old(moveCells), old(moveSpawns), old(moveOffset))
                && spawns == MovedSpawns(old(spawns), old(moveCells), old(moveSpawns), old(moveOffset))
                && selection == Some(ShiftedRect(NormalizeRect(old(selection).value), old(moveOffset)))
                && MoveIdle()
      ensures old(Apart() && moveCells.Keys !! moveSpawns &&
                  moveValid == MoveFits(cols, rows, cells, spawns, moveCells, moveSpawns, moveOffset))
              ==> Apart()
    {
      if selection.None? || movingAnchor.None? {
        return;
      }
      if !moveValid {
        movingAnchor := None;
        moveOffset := Move(0, 0);
        moveCells := map[];
        moveSpawns := {};
        return;
      }
      var d := moveOffset;
      if d.dx == 0 && d.dy == 0 {
        movingAnchor := None;
        moveOffset := Move(0, 0);
        moveCells := map[];
        moveSpawns := {};
        return;
      }
      ghost var fits := MoveFits(cols, rows, cells, spawns, moveCells, moveSpawns, d);
      if Apart() && moveCells.Keys !! moveSpawns && fits {
        MovePreservesDisjoint(cells, spawns, cols, rows, moveCells, moveSpawns, d);
      }
      var nextCells, nextSpawns := ApplyMove(cells, spawns, moveCells, moveSpawns, d);
      var sel := NormalizeRect(selection.value);
      cells := nextCells;
      spawns := nextSpawns;
      selection := Some(ShiftedRect(sel, d));
      movingAnchor := None;
      moveOffset := Move(0, 0);
      moveValid := true;
      moveCells := map[];
      moveSpawns := {};
    }

    /** Lines 305-316: an empty editor with no selection. */
    method ClearAll()
      modifies this`cells, this`spawns, this`selection, this`selectionAnchor, this`movingAnchor,
               this`moveOffset, this`moveValid, this`moveCells, this`moveSpawns
      ensures cells == map[] && spawns == {} && Apart()
      ensures selection == None && selectionAnchor == None && MoveIdle()
    {
      cells := map[];
      spawns := {};
      selection := None;
      selectionAnchor := None;
      movingAnchor := None;
      moveOffset := Move(0, 0);
      moveValid := true;
      moveCells := map[];
      moveSpawns := {};
    }

    /** Lines 318-342: the castle blueprint, centred on the grid, replaces every block and
        spawn; blocks and spawns end up apart. */
    method LoadCastleTemplateCentered()
      modifies this`cells, this`spawns
      ensures cells == TemplateCells(CASTLE_BLUEPRINT, cols, rows)
      ensures spawns == TemplateSpawns(CASTLE_BLUEPRINT, cols, rows)
      ensures Apart()
    {
      var next, nextSpawns := LoadTemplate(CASTLE_BLUEPRINT, cols, rows);
      TemplateDisjoint(CASTLE_BLUEPRINT, cols, rows);
      cells := next;
      spawns := nextSpawns;
    }

    /** Lines 344-364: the grid as `rows` blueprint rows of `cols` tokens each, reading
        back as the editor's blocks and spawns (see `ExportReadsBack`). */
    method ExportBlueprintRows() returns (out: seq<string>)
      ensures out == ExportRows(cols, rows, cells, spawns)
    {
      out := ExportGrid(cols, rows, cells, spawns);
    }
  }

  /** Lines 286-291: the rectangle moved by `d`. */
  function ShiftedRect(r: SelectionRect, d: Move): (s: SelectionRect)
    ensures forall x, y :: InSelection(x, y, r) <==> InSelection(x + d.dx, y + d.dy, s)
  {
    SelectionRect(r.x0 + d.dx, r.y0 + d.dy, r.x1 + d.dx, r.y1 + d.dy)
  }

  /** Lines 174-181: the loop over the painted cells, keeping those inside the selection. */
  method PickCells(cells: map<Cell, Material>, sel: SelectionRect) returns (picked: map<Cell, Material>)
    ensures picked == SelectedCells(cells, sel)
  {
    picked := map[];
    var todo := cells.Keys;
    while todo != {}
      invariant todo <= cells.Keys
      invariant picked == SelectedCells(cells - todo, sel)
      decreases |todo|
    {
      var k :| k in todo;
      if InSelection(k.x, k.y, sel) {
        picked := picked[k := cells[k]];
      }
      todo := todo - {k};
    }
    assert cells - todo == cells;
  }

  /** Lines 182-189: the loop over the spawns, keeping those inside the selection. */
  method PickSpawns(spawns: set<Cell>, sel: SelectionRect) returns (picked: set<Cell>)
    ensures picked == SelectedSpawns(spawns, sel)
  {
    picked := {};
    var todo := spawns;
    while todo != {}
      invariant todo <= spawns
      invariant picked == SelectedSpawns(spawns - todo, sel)
      decreases |todo|
    {
      var k :| k in todo;
      if InSelection(k.x, k.y, sel) {
        picked := picked + {k};
      }
      todo := todo - {k};
    }
  }

  /** Lines 212-245: the two checking loops, each stopping at the first item that does not
      land, the spawns checked only when every block landed. */
  method CheckMove(cols: int, rows: int, cells: map<Cell, Material>, spawns: set<Cell>,
                   moveCells: map<Cell, Material>, moveSpawns: set<Cell>, d: Move)
    returns (valid: bool)
    ensures valid == MoveFits(cols, rows, cells, spawns, moveCells, moveSpawns, d)
  {
    var selectedKeys := moveCells.Keys + moveSpawns;
    valid := AllLand(moveCells.Keys, cols, rows, cells, spawns, selectedKeys, d);
    if valid {
      valid := AllLand(moveSpawns, cols, rows, cells, spawns, selectedKeys, d);
    }
  }

  /** One of the two loops of lines 214-243: true exactly when every item of `items`,
      shifted by the move, lands; the loop stops at the first item that does not. */
  method AllLand(items: set<Cell>, cols: int, rows: int, cells: map<Cell, Material>, spawns: set<Cell>,
                 selectedKeys: set<Cell>, d: Move)
    returns (valid: bool)
    ensures valid <==> forall c :: c in items ==> Lands(Shifted(c, d), cols, rows, cells, spawns, selectedKeys)
  {
    valid := true;
    var todo := items;
    while todo != {}
      invariant todo <= items
      invariant forall c :: c in items && c !in todo ==> Lands(Shifted(c, d), cols, rows, cells, spawns, selectedKeys)
      decreases |todo|
    {
      var c :| c in todo;
      var nx := c.x + d.dx;
      var ny := c.y + d.dy;
      if nx < 0 || ny < 0 || nx >= cols || ny >= rows {
        valid := false;
        return;
      }
      var nk := Cell(nx, ny);
      var occupiedByOther := (nk in spawns || nk in cells) && nk !in selectedKeys;
      if occupiedByOther {
        valid := false;
        return;
      }
      todo := todo - {c};
    }
  }

  /** Writing one more moved block at its shifted key extends the shifted map by it. */
  lemma ShiftedCellsStep(moveCells: map<Cell, Material>, todo: set<Cell>, c: Cell, d: Move)
    requires c in todo && todo <= moveCells.Keys
    ensures ShiftedCells(moveCells - (todo - {c}), d) == ShiftedCells(moveCells - todo, d)[Shifted(c, d) := moveCells[c]]
  {
    var lhs := ShiftedCells(moveCells - (todo - {c}), d);
    var rhs := ShiftedCells(moveCells - todo, d)[Shifted(c, d) := moveCells[c]];
    forall t | t in lhs || t in rhs ensures t in lhs && t in rhs && lhs[t] == rhs[t] {
      var o := Shifted(t, Move(-d.dx, -d.dy));
      assert Shifted(o, d) == t;
      ShiftedOrigin(moveCells - (todo - {c}), {}, d, t);
      ShiftedOrigin(moveCells - todo, {}, d, t);
    }
  }

  /** Writing one more moved spawn at its shifted key extends the shifted set by it. */
  lemma ShiftedSpawnsStep(moveSpawns: set<Cell>, todo: set<Cell>, s: Cell, d: Move)
    requires s in todo && todo <= moveSpawns
    ensures ShiftedSpawns(moveSpawns - (todo - {s}), d) == ShiftedSpawns(moveSpawns - todo, d) + {Shifted(s, d)}
  {
    forall t | t in ShiftedSpawns(moveSpawns - (todo - {s}), d) || t in ShiftedSpawns(moveSpawns - todo, d) + {Shifted(s, d)}
      ensures t in ShiftedSpawns(moveSpawns - (todo - {s}), d) && t in ShiftedSpawns(moveSpawns - todo, d) + {Shifted(s, d)}
    {
      var o := Shifted(t, Move(-d.dx, -d.dy));
      assert Shifted(o, d) == t;
      ShiftedOrigin(map[], moveSpawns - (todo - {s}), d, t);
      ShiftedOrigin(map[], moveSpawns - todo, d, t);
    }
  }

  /** Updating a union at one key is updating its right-hand side there. */
  lemma UnionUpdate(base: map<Cell, Material>, m: map<Cell, Material>, k: Cell, v: Material)
    ensures (base + m)[k := v] == base + m[k := v]
  {
  }

  /** Lines 263-283: empty every picked-up key, then write each moved block and spawn at
      its shifted key. */
  method ApplyMove(cells: map<Cell, Material>, spawns: set<Cell>, moveCells: map<Cell, Material>,
                   moveSpawns: set<Cell>, d: Move)
    returns (nextCells: map<Cell, Material>, nextSpawns: set<Cell>)
    ensures nextCells == MovedCells(cells, moveCells, moveSpawns, d)
    ensures nextSpawns == MovedSpawns(spawns, moveCells, moveSpawns, d)
  {
    var selectedKeys := moveCells.Keys + moveSpawns;
    nextCells := WriteMovedCells(cells - selectedKeys, moveCells, d);
    nextSpawns := WriteMovedSpawns(spawns - selectedKeys, moveSpawns, d);
  }

  /** Lines 274-278: each moved block written at its shifted key. */
  method WriteMovedCells(base: map<Cell, Material>, moveCells: map<Cell, Material>, d: Move)
    returns (nextCells: map<Cell, Material>)
    ensures nextCells == base + ShiftedCells(moveCells, d)
  {
    nextCells := base;
    var todo := moveCells.Keys;
    while todo != {}
      invariant todo <= moveCells.Keys
      invariant nextCells == base + ShiftedCells(moveCells - todo, d)
      decreases |todo|
    {
      var c :| c in todo;
      ShiftedCellsStep(moveCells, todo, c, d);
      UnionUpdate(base, ShiftedCells(moveCells - todo, d), Shifted(c, d), moveCells[c]);
      nextCells := nextCells[Shifted(c, d) := moveCells[c]];
      todo := todo - {c};
    }
    assert moveCells - todo == moveCells;
  }

  /** Lines 279-283: each moved spawn written at its shifted key. */
  method WriteMovedSpawns(base: set<Cell>, moveSpawns: set<Cell>, d: Move) returns (nextSpawns: set<Cell>)
    ensures nextSpawns == base + ShiftedSpawns(moveSpawns, d)
  {
    nextSpawns := base;
    var todo := moveSpawns;
    while todo != {}
      invariant todo <= moveSpawns
      invariant nextSpawns == base + ShiftedSpawns(moveSpawns - todo, d)
      decreases |todo|
    {
      var s :| s in todo;
      ShiftedSpawnsStep(moveSpawns, todo, s, d);
      nextSpawns := nextSpawns + {Shifted(s, d)};
      todo := todo - {s};
    }
  }

  /** Lines 318-340: the outer loop over the template's rows. */
  method LoadTemplate(bp: seq<string>, cols: int, rows: int)
    returns (next: map<Cell, Material>, nextSpawns: set<Cell>)
    ensures next == TemplateCells(bp, cols, rows) && nextSpawns == TemplateSpawns(bp, cols, rows)
  {
    var bpH := |bp|;
    next := map[];
    nextSpawns := {};
    var y := 0;
    while y < bpH
      invariant 0 <= y <= bpH
      invariant next == TemplateCellsBefore(bp, cols, rows, 0, y)
      invariant nextSpawns == TemplateSpawnsBefore(bp, cols, rows, 0, y)
    {
      next, nextSpawns := LoadTemplateRow(bp, cols, rows, y, next, nextSpawns);
      TemplateRowDone(bp, cols, rows, y);
      y := y + 1;
    }
  }

  /** Lines 329-339: the inner loop over row y, writing a block for each material token and
      a spawn for each 'p' that lands on the grid. */
  method LoadTemplateRow(bp: seq<string>, cols: int, rows: int, y: int,
                         cells: map<Cell, Material>, spawns: set<Cell>)
    returns (next: map<Cell, Material>, nextSpawns: set<Cell>)
    requires 0 <= y < |bp|
    requires cells == TemplateCellsBefore(bp, cols, rows, 0, y) && spawns == TemplateSpawnsBefore(bp, cols, rows, 0, y)
    ensures next == TemplateCellsBefore(bp, cols, rows, TemplateWidth(bp), y)
    ensures nextSpawns == TemplateSpawnsBefore(bp, cols, rows, TemplateWidth(bp), y)
  {
    var bpW := if |bp| == 0 then 0 else |bp[0]|;
    next := cells;
    nextSpawns := spawns;
    var x := 0;
    while x < bpW
      invariant 0 <= x <= bpW
      invariant next == TemplateCellsBefore(bp, cols, rows, x, y)
      invariant nextSpawns == TemplateSpawnsBefore(bp, cols, rows, x, y)
    {
      next, nextSpawns := LoadTemplateToken(bp, cols, rows, x, y, next, nextSpawns);
      x := x + 1;
    }
  }

  /** Lines 330-338: position (x, y) of the template writes its block or spawn at its
      centred key when that key is on the grid. */
  method LoadTemplateToken(bp: seq<string>, cols: int, rows: int, x: int, y: int,
                           cells: map<Cell, Material>, spawns: set<Cell>)
    returns (next: map<Cell, Material>, nextSpawns: set<Cell>)
    requires 0 <= x < TemplateWidth(bp) && 0 <= y < |bp|
    requires cells == TemplateCellsBefore(bp, cols, rows, x, y) && spawns == TemplateSpawnsBefore(bp, cols, rows, x, y)
    ensures next == TemplateCellsBefore(bp, cols, rows, x + 1, y)
    ensures nextSpawns == TemplateSpawnsBefore(bp, cols, rows, x + 1, y)
  {
    var bpW := if |bp| == 0 then 0 else |bp[0]|;
    var offX := Max(0, (cols - bpW) / 2);
    var offY := Max(0, (rows - |bp|) / 2);
    var token := TemplateToken(bp, x, y);
    var gx := offX + x;
    var gy := offY + y;
    TemplateStepCells(bp, cols, rows, x, y);
    TemplateStepSpawns(bp, cols, rows, x, y);
    if gx < 0 || gy < 0 || gx >= cols || gy >= rows {
      return cells, spawns;
    }
    var k := Cell(gx, gy);
    assert k == TemplateCell(bp, cols, rows, x, y) && TemplateSlot(bp, cols, rows, x, y);
    next, nextSpawns := WriteToken(cells, spawns, k, token);
  }

  /** Lines 334-338: a material token writes its block at `k`, a 'p' adds a spawn there. */
  method WriteToken(cells: map<Cell, Material>, spawns: set<Cell>, k: Cell, token: char)
    returns (next: map<Cell, Material>, nextSpawns: set<Cell>)
    ensures next == if TokenToMaterial(token).Some? then cells[k := TokenToMaterial(token).value] else cells
    ensures nextSpawns == if token == 'p' then spawns + {k} else spawns
  {
    next := cells;
    nextSpawns := spawns;
    if token == 'w' { next := next[k := Wood]; }
    if token == 't' { next := next[k := Steel]; }
    if token == 's' { next := next[k := Stone]; }
    if token == 'g' { next := next[k := Glass]; }
    if token == 'p' { nextSpawns := nextSpawns + {k}; }
  }

  /** Lines 347-362: the nested loops building each row token by token. */
  method ExportGrid(cols: int, rows: int, cells: map<Cell, Material>, spawns: set<Cell>) returns (out: seq<string>)
    ensures out == ExportRows(cols, rows, cells, spawns)
  {
    out := [];
    var y := 0;
    while y < rows
      invariant 0 <= y <= Max(0, rows)
      invariant |out| == y && forall j :: 0 <= j < y ==> out[j] == ExportRow(cols, cells, spawns, j)
    {
      var row := "";
      var x := 0;
      while x < cols
        invariant 0 <= x <= Max(0, cols)
        invariant |row| == x && forall i :: 0 <= i < x ==> row[i] == ExportToken(cells, spawns, Cell(i, y))
      {
        var k := Cell(x, y);
        if k in spawns {
          row := row + "p";
        } else {
          if k !in cells {
            row := row + "-";
          } else if cells[k] == Wood {
            row := row + "w";
          } else if cells[k] == Steel {
            row := row + "t";
          } else if cells[k] == Stone {
            row := row + "s";
          } else {
            row := row + "g";
          }
        }
        x := x + 1;
      }
      out := out + [row];
      y := y + 1;
    }
  }
}
