/** Piece footprints (lib/building/place-utils.ts): quarter-turn rotation, the anchor
    origin of a footprint and the offsets of its occupied cells from that origin. */
module PlaceUtils {
  import opened Types

  type Footprint = seq<seq<Bit>>

  /** `footprint[0]?.length ?? 0`: the width is read from the first row. */
  function FpWidth(fp: Footprint): (w: nat)
    ensures |fp| == 0 ==> w == 0
    ensures |fp| > 0 ==> w == |fp[0]|
  {
    if |fp| == 0 then 0 else |fp[0]|
  }

  /** Line 9: the cell at column x of row y, 0 when the row or the column does not exist. */
  function At(fp: Footprint, x: int, y: int): (b: Bit)
    ensures (0 <= y < |fp| && 0 <= x < |fp[y]|) ==> b == fp[y][x]
    ensures !(0 <= y < |fp| && 0 <= x < |fp[y]|) ==> b == 0
  {
    if 0 <= y < |fp| && 0 <= x < |fp[y]| then fp[y][x] else 0
  }

  /** Every row has the width of the first, and there is at least one cell. */
  predicate Rectangular(fp: Footprint)
  {
    |fp| >= 1 && |fp[0]| >= 1 && forall k :: 0 <= k < |fp| ==> |fp[k]| == |fp[0]|
  }

  /** The row [f(0), ..., f(n - 1)]. */
  function RowOf(n: nat, f: int -> Bit): (row: seq<Bit>)
    ensures |row| == n && forall j :: 0 <= j < n ==> row[j] == f(j)
  {
    seq(n, j => f(j))
  }

  /** The h×w result of a quarter turn clockwise: column x of the source becomes row x,
      read bottom to top. */
  function Rot90(fp: Footprint): (out: Footprint)
    ensures |out| == FpWidth(fp) && forall i :: 0 <= i < |out| ==> |out[i]| == |fp|
    ensures forall x, y :: 0 <= x < FpWidth(fp) && 0 <= y < |fp| ==> out[x][|fp| - 1 - y] == At(fp, x, y)
  {
    var h, w := |fp|, FpWidth(fp);
    var out := seq(w, i requires 0 <= i < w => RowOf(h, j => At(fp, i, h - 1 - j)));
    out
  }

  /** The half turn: rows and columns are both reversed. */
  function Rot180(fp: Footprint): (out: Footprint)
    ensures |out| == |fp| && forall i :: 0 <= i < |out| ==> |out[i]| == FpWidth(fp)
    ensures forall x, y :: 0 <= x < FpWidth(fp) && 0 <= y < |fp| ==> out[|fp| - 1 - y][FpWidth(fp) - 1 - x] == At(fp, x, y)
  {
    var h, w := |fp|, FpWidth(fp);
    var out := seq(h, i requires 0 <= i < h => RowOf(w, j => At(fp, w - 1 - j, h - 1 - i)));
    out
  }

  /** The quarter turn anticlockwise: column x of the source becomes row w - 1 - x. */
  function Rot270(fp: Footprint): (out: Footprint)
    ensures |out| == FpWidth(fp) && forall i :: 0 <= i < |out| ==> |out[i]| == |fp|
    ensures forall x, y :: 0 <= x < FpWidth(fp) && 0 <= y < |fp| ==> out[FpWidth(fp) - 1 - x][y] == At(fp, x, y)
  {
    var h, w := |fp|, FpWidth(fp);
    var out := seq(w, i requires 0 <= i < w => RowOf(h, j => At(fp, w - 1 - i, j)));
    out
  }

  /** Lines 3-46: the rotated footprint; rotation 0 is a row-by-row copy. */
  function Rotated(fp: Footprint, rot: Rotation): (out: Footprint)
    ensures rot == R0 ==> out == fp
    ensures rot == R90 ==> out == Rot90(fp)
    ensures rot == R180 ==> out == Rot180(fp)
    ensures rot == R270 ==> out == Rot270(fp)
  {
    match rot
    case R0 => fp
    case R90 => Rot90(fp)
    case R180 => Rot180(fp)
    case R270 => Rot270(fp)
  }

  /** Lines 3-46: the rotation as the source computes it, filling a zeroed matrix in
      nested loops over the source rows y and columns x. */
  method RotateFootprint(fp: Footprint, rot: Rotation) returns (out: Footprint)
    ensures out == Rotated(fp, rot)
  {
    var h, w := |fp|, FpWidth(fp);
    match rot {
      case R0 =>
        out := seq(h, i requires 0 <= i < h => fp[i]);
      case R90 =>
        out := seq(w, _ => seq(h, _ => 0));
        var y := 0;
        while y < h
          invariant 0 <= y <= h
          invariant |out| == w && forall k :: 0 <= k < w ==> |out[k]| == h
          invariant forall i, j :: 0 <= i < w && 0 <= j < h && h - 1 - j < y ==> out[i][j] == At(fp, i, h - 1 - j)
        {
          var x := 0;
          while x < w
            invariant 0 <= x <= w
            invariant |out| == w && forall k :: 0 <= k < w ==> |out[k]| == h
            invariant forall i, j :: 0 <= i < w && 0 <= j < h && (h - 1 - j < y || (h - 1 - j == y && i < x)) ==>
                        out[i][j] == At(fp, i, h - 1 - j)
          {
            var row: seq<Bit> := out[x][h - 1 - y := At(fp, x, y)];
            out := out[x := row];
            x := x + 1;
          }
          y := y + 1;
        }
        SameMatrix(out, Rot90(fp));
      case R180 =>
        out := seq(h, _ => seq(w, _ => 0));
        var y := 0;
        while y < h
          invariant 0 <= y <= h
          invariant |out| == h && forall k :: 0 <= k < h ==> |out[k]| == w
          invariant forall i, j :: 0 <= i < h && 0 <= j < w && h - 1 - i < y ==> out[i][j] == At(fp, w - 1 - j, h - 1 - i)
        {
          var x := 0;
          while x < w
            invariant 0 <= x <= w
            invariant |out| == h && forall k :: 0 <= k < h ==> |out[k]| == w
            invariant forall i, j :: 0 <= i < h && 0 <= j < w && (h - 1 - i < y || (h - 1 - i == y && w - 1 - j < x)) ==>
                        out[i][j] == At(fp, w - 1 - j, h - 1 - i)
          {
            var row: seq<Bit> := out[h - 1 - y][w - 1 - x := At(fp, x, y)];
            out := out[h - 1 - y := row];
            x := x + 1;
          }
          y := y + 1;
        }
        SameMatrix(out, Rot180(fp));
      case R270 =>
        out := seq(w, _ => seq(h, _ => 0));
        var y := 0;
        while y < h
          invariant 0 <= y <= h
          invariant |out| == w && forall k :: 0 <= k < w ==> |out[k]| == h
          invariant forall i, j :: 0 <= i < w && 0 <= j < h && j < y ==> out[i][j] == At(fp, w - 1 - i, j)
        {
          var x := 0;
          while x < w
            invariant 0 <= x <= w
            invariant |out| == w && forall k :: 0 <= k < w ==> |out[k]| == h
            invariant forall i, j :: 0 <= i < w && 0 <= j < h && (j < y || (j == y && w - 1 - i < x)) ==>
                        out[i][j] == At(fp, w - 1 - i, j)
          {
            var row: seq<Bit> := out[w - 1 - x][y := At(fp, x, y)];
            out := out[w - 1 - x := row];
            x := x + 1;
          }
          y := y + 1;
        }
        SameMatrix(out, Rot270(fp));
    }
  }

  /** Two matrices with the same shape and the same entries are equal. */
  lemma SameMatrix(a: Footprint, b: Footprint)
    requires |a| == |b| && forall i :: 0 <= i < |a| ==> |a[i]| == |b[i]|
    requires forall i, j :: 0 <= i < |a| && 0 <= j < |a[i]| ==> a[i][j] == b[i][j]
    ensures a == b
  {
    assert forall i :: 0 <= i < |a| ==> a[i] == b[i];
  }

  /** Rot90 read at a target index. */
  lemma Rot90At(fp: Footprint, i: int, j: int)
    requires 0 <= i < FpWidth(fp) && 0 <= j < |fp|
    ensures Rot90(fp)[i][j] == At(fp, i, |fp| - 1 - j)
  {
    var y := |fp| - 1 - j;
    assert Rot90(fp)[i][|fp| - 1 - y] == At(fp, i, y);
  }

  /** Rot180 read at a target index. */
  lemma Rot180At(fp: Footprint, i: int, j: int)
    requires 0 <= i < |fp| && 0 <= j < FpWidth(fp)
    ensures Rot180(fp)[i][j] == At(fp, FpWidth(fp) - 1 - j, |fp| - 1 - i)
  {
    var x, y := FpWidth(fp) - 1 - j, |fp| - 1 - i;
    assert Rot180(fp)[|fp| - 1 - y][FpWidth(fp) - 1 - x] == At(fp, x, y);
  }

  /** Rot270 read at a target index. */
  lemma Rot270At(fp: Footprint, i: int, j: int)
    requires 0 <= i < FpWidth(fp) && 0 <= j < |fp|
    ensures Rot270(fp)[i][j] == At(fp, FpWidth(fp) - 1 - i, j)
  {
    var x := FpWidth(fp) - 1 - i;
    assert Rot270(fp)[FpWidth(fp) - 1 - x][j] == At(fp, x, j);
  }

  /** Every rotation of a rectangular footprint is rectangular; quarter turns swap the sides. */
  lemma RotatedShape(fp: Footprint, rot: Rotation)
    requires Rectangular(fp)
    ensures Rectangular(Rotated(fp, rot))
    ensures rot in {R90, R270} ==> |Rotated(fp, rot)| == FpWidth(fp) && FpWidth(Rotated(fp, rot)) == |fp|
    ensures rot in {R0, R180} ==> |Rotated(fp, rot)| == |fp| && FpWidth(Rotated(fp, rot)) == FpWidth(fp)
  {
  }

  /** Two quarter turns make a half turn. */
  lemma {:induction false} TwoQuarterTurns(fp: Footprint)
    requires Rectangular(fp)
    ensures Rot90(Rot90(fp)) == Rot180(fp)
  {
    var r := Rot90(fp);
    var a, b := Rot90(r), Rot180(fp);
    forall i, j | 0 <= i < |a| && 0 <= j < |a[i]| ensures a[i][j] == b[i][j] {
      Rot90At(r, i, j);
      Rot90At(fp, FpWidth(fp) - 1 - j, i);
      Rot180At(fp, i, j);
    }
    SameMatrix(a, b);
  }

  /** Two half turns give back the footprint. */
  lemma {:induction false} TwoHalfTurns(fp: Footprint)
    requires Rectangular(fp)
    ensures Rot180(Rot180(fp)) == fp
  {
    var r := Rot180(fp);
    var a := Rot180(r);
    forall i, j | 0 <= i < |a| && 0 <= j < |a[i]| ensures a[i][j] == fp[i][j] {
      Rot180At(r, i, j);
      Rot180At(fp, |fp| - 1 - i, FpWidth(fp) - 1 - j);
    }
    SameMatrix(a, fp);
  }

  /** Three quarter turns clockwise are one quarter turn anticlockwise. */
  lemma ThreeQuarterTurns(fp: Footprint)
    requires Rectangular(fp)
    ensures Rot90(Rot90(Rot90(fp))) == Rot270(fp)
  {
    TwoQuarterTurns(fp);
    QuarterAfterHalf(fp);
  }

  /** A quarter turn after a half turn is the three-quarter turn. */
  lemma {:induction false} QuarterAfterHalf(fp: Footprint)
    requires Rectangular(fp)
    ensures Rot90(Rot180(fp)) == Rot270(fp)
  {
    var s := Rot180(fp);
    var a, b := Rot90(s), Rot270(fp);
    forall i, j | 0 <= i < |a| && 0 <= j < |a[i]| ensures a[i][j] == b[i][j] {
      Rot90At(s, i, j);
      Rot180At(fp, |fp| - 1 - j, i);
      Rot270At(fp, i, j);
    }
    SameMatrix(a, b);
  }

  /** Four quarter turns give back a rectangular footprint. */
  lemma {:induction false} FourQuarterTurns(fp: Footprint)
    requires Rectangular(fp)
    ensures Rot90(Rot90(Rot90(Rot90(fp)))) == fp
  {
    TwoQuarterTurns(fp);
    RotatedShape(fp, R180);
    TwoQuarterTurns(Rot180(fp));
    TwoHalfTurns(fp);
  }

  /** The cell (x, y) lies in the footprint's w×h box and holds a 1. */
  predicate Occupied(fp: Footprint, x: int, y: int)
  {
    0 <= y < |fp| && 0 <= x < FpWidth(fp) && At(fp, x, y) == 1
  }

  /** The occupied cells of a footprint. */
  function OccupiedCells(fp: Footprint): (cells: set<Cell>)
    ensures forall c :: c in cells <==> Occupied(fp, c.x, c.y)
  {
    set x, y | 0 <= y < |fp| && 0 <= x < FpWidth(fp) && At(fp, x, y) == 1 :: Cell(x, y)
  }

  /** Maps f from S into T and g from T into S that undo each other: the two sets have the same size. */
  lemma {:induction false} BijectionCard<A, B>(S: set<A>, T: set<B>, f: A -> B, g: B -> A)
    requires forall a :: a in S ==> f(a) in T && g(f(a)) == a
    requires forall b :: b in T ==> g(b) in S && f(g(b)) == b
    ensures |S| == |T|
    decreases S
  {
    if S == {} {
      assert T == {} by {
        if b :| b in T { assert g(b) in S; }
      }
    } else {
      var a :| a in S;
      var S', T' := S - {a}, T - {f(a)};
      BijectionCard(S', T', f, g);
    }
  }

  /** Rotation keeps the number of occupied cells. */
  lemma RotationKeepsOccupiedCount(fp: Footprint, rot: Rotation)
    ensures |OccupiedCells(Rotated(fp, rot))| == |OccupiedCells(fp)|
  {
    match rot {
      case R0 =>
      case R90 => Rot90Count(fp);
      case R180 => if FpWidth(fp) == 0 { EmptyRotations(fp, rot); } else { Rot180Count(fp); }
      case R270 => Rot270Count(fp);
    }
  }

  lemma EmptyRotations(fp: Footprint, rot: Rotation)
    requires FpWidth(fp) == 0
    ensures OccupiedCells(Rotated(fp, rot)) == {} == OccupiedCells(fp)
  {
    var out := Rotated(fp, rot);
    assert OccupiedCells(out) == {} by {
      if rot == R90 || rot == R270 {
        assert |out| == 0;
      } else if rot == R180 && |fp| > 0 {
        assert FpWidth(out) == 0;
      }
    }
  }

  /** Where a cell of the footprint lands under a quarter turn, and back. */
  function To90(fp: Footprint, c: Cell): Cell { Cell(|fp| - 1 - c.y, c.x) }
  function From90(fp: Footprint, d: Cell): Cell { Cell(d.y, |fp| - 1 - d.x) }
  /** Where a cell lands under a half turn; the map is its own inverse. */
  function To180(fp: Footprint, c: Cell): Cell { Cell(FpWidth(fp) - 1 - c.x, |fp| - 1 - c.y) }
  /** Where a cell lands under a three-quarter turn, and back. */
  function To270(fp: Footprint, c: Cell): Cell { Cell(c.y, FpWidth(fp) - 1 - c.x) }
  function From270(fp: Footprint, d: Cell): Cell { Cell(FpWidth(fp) - 1 - d.y, d.x) }

  lemma Rot90Forward(fp: Footprint)
    ensures forall c :: c in OccupiedCells(fp) ==> To90(fp, c) in OccupiedCells(Rot90(fp)) && From90(fp, To90(fp, c)) == c
  {
    forall c | c in OccupiedCells(fp) ensures To90(fp, c) in OccupiedCells(Rot90(fp)) {
      Rot90At(fp, c.x, |fp| - 1 - c.y);
    }
  }

  lemma Rot90Backward(fp: Footprint)
    ensures forall d :: d in OccupiedCells(Rot90(fp)) ==> From90(fp, d) in OccupiedCells(fp) && To90(fp, From90(fp, d)) == d
  {
    forall d | d in OccupiedCells(Rot90(fp)) ensures From90(fp, d) in OccupiedCells(fp) {
      Rot90At(fp, d.y, d.x);
    }
  }

  lemma Rot90Count(fp: Footprint)
    ensures |OccupiedCells(Rot90(fp))| == |OccupiedCells(fp)|
  {
    Rot90Forward(fp);
    Rot90Backward(fp);
    BijectionCard(OccupiedCells(fp), OccupiedCells(Rot90(fp)), c => To90(fp, c), d => From90(fp, d));
  }

  lemma Rot180Forward(fp: Footprint)
    requires FpWidth(fp) > 0
    ensures forall c :: c in OccupiedCells(fp) ==> To180(fp, c) in OccupiedCells(Rot180(fp)) && To180(fp, To180(fp, c)) == c
  {
    forall c | c in OccupiedCells(fp) ensures To180(fp, c) in OccupiedCells(Rot180(fp)) {
      Rot180At(fp, |fp| - 1 - c.y, FpWidth(fp) - 1 - c.x);
    }
  }

  lemma Rot180Backward(fp: Footprint)
    requires FpWidth(fp) > 0
    ensures forall d :: d in OccupiedCells(Rot180(fp)) ==> To180(fp, d) in OccupiedCells(fp) && To180(fp, To180(fp, d)) == d
  {
    forall d | d in OccupiedCells(Rot180(fp)) ensures To180(fp, d) in OccupiedCells(fp) {
      Rot180At(fp, d.y, d.x);
    }
  }

  lemma Rot180Count(fp: Footprint)
    requires FpWidth(fp) > 0
    ensures |OccupiedCells(Rot180(fp))| == |OccupiedCells(fp)|
  {
    Rot180Forward(fp);
    Rot180Backward(fp);
    BijectionCard(OccupiedCells(fp), OccupiedCells(Rot180(fp)), c => To180(fp, c), d => To180(fp, d));
  }

  lemma Rot270Forward(fp: Footprint)
    ensures forall c :: c in OccupiedCells(fp) ==> To270(fp, c) in OccupiedCells(Rot270(fp)) && From270(fp, To270(fp, c)) == c
  {
    forall c | c in OccupiedCells(fp) ensures To270(fp, c) in OccupiedCells(Rot270(fp)) {
      Rot270At(fp, FpWidth(fp) - 1 - c.x, c.y);
    }
  }

  lemma Rot270Backward(fp: Footprint)
    ensures forall d :: d in OccupiedCells(Rot270(fp)) ==> From270(fp, d) in OccupiedCells(fp) && To270(fp, From270(fp, d)) == d
  {
    forall d | d in OccupiedCells(Rot270(fp)) ensures From270(fp, d) in OccupiedCells(fp) {
      Rot270At(fp, d.y, d.x);
    }
  }

  lemma Rot270Count(fp: Footprint)
    ensures |OccupiedCells(Rot270(fp))| == |OccupiedCells(fp)|
  {
    Rot270Forward(fp);
    Rot270Backward(fp);
    BijectionCard(OccupiedCells(fp), OccupiedCells(Rot270(fp)), c => To270(fp, c), d => From270(fp, d));
  }

  /** Lines 48-54: the anchor of a footprint is the middle column (rounded down) of its
      bottom row. */
  function GetFootprintOrigin(fp: Footprint): (o: Cell)
    ensures o.y == |fp| - 1
    ensures 0 <= 2 * o.x <= FpWidth(fp) <= 2 * o.x + 1
    ensures FpWidth(fp) >= 1 ==> 0 <= o.x < FpWidth(fp)
  {
    Cell(FpWidth(fp) / 2, |fp| - 1)
  }

  /** A cell offset from the footprint origin. */
  datatype Offset = Offset(dx: int, dy: int)

  /** The offsets of the 1 cells among columns 0 .. n - 1 of row y. */
  function RowOffsets(fp: Footprint, o: Cell, y: int, n: nat): seq<Offset>
  {
    if n == 0 then []
    else RowOffsets(fp, o, y, n - 1) + (if At(fp, n - 1, y) == 1 then [Offset(n - 1 - o.x, y - o.y)] else [])
  }

  /** The offsets of the 1 cells in rows 0 .. m - 1, row by row. */
  function RowsOffsets(fp: Footprint, o: Cell, m: nat): seq<Offset>
  {
    if m == 0 then [] else RowsOffsets(fp, o, m - 1) + RowOffsets(fp, o, m - 1, FpWidth(fp))
  }

  /** Lines 56-69: the offsets from the origin of the occupied cells, row by row. */
  function OccupiedOffsets(fp: Footprint): seq<Offset>
  {
    RowsOffsets(fp, GetFootprintOrigin(fp), |fp|)
  }

  /** One offset per occupied cell, in row-major order. */
  lemma OccupiedOffsetsFacts(fp: Footprint)
    ensures forall d :: d in OccupiedOffsets(fp) <==>
              Occupied(fp, d.dx + GetFootprintOrigin(fp).x, d.dy + GetFootprintOrigin(fp).y)
    ensures OffsetsIncreasing(OccupiedOffsets(fp))
  {
    RowsOffsetsFacts(fp, GetFootprintOrigin(fp), |fp|);
  }

  /** The membership half of the facts above. */
  lemma OccupiedOffsetsMembers(fp: Footprint)
    ensures forall d :: d in OccupiedOffsets(fp) <==>
              Occupied(fp, d.dx + GetFootprintOrigin(fp).x, d.dy + GetFootprintOrigin(fp).y)
  {
    OccupiedOffsetsFacts(fp);
  }

  /** Offsets strictly increase in row-major order (so none repeats). */
  predicate OffsetsIncreasing(offs: seq<Offset>)
  {
    forall i, j :: 0 <= i < j < |offs| ==> OffsetBefore(offs[i], offs[j])
  }

  predicate OffsetBefore(a: Offset, b: Offset)
  {
    a.dy < b.dy || (a.dy == b.dy && a.dx < b.dx)
  }

  lemma {:induction false} RowOffsetsFacts(fp: Footprint, o: Cell, y: int, n: nat)
    ensures forall d :: d in RowOffsets(fp, o, y, n) <==>
              d.dy == y - o.y && 0 <= d.dx + o.x < n && At(fp, d.dx + o.x, y) == 1
    ensures OffsetsIncreasing(RowOffsets(fp, o, y, n))
    ensures forall i :: 0 <= i < |RowOffsets(fp, o, y, n)| ==>
              RowOffsets(fp, o, y, n)[i].dy == y - o.y && RowOffsets(fp, o, y, n)[i].dx < n - o.x
  {
    if n > 0 {
      RowOffsetsFacts(fp, o, y, n - 1);
      var prev := RowOffsets(fp, o, y, n - 1);
      var offs := RowOffsets(fp, o, y, n);
      if At(fp, n - 1, y) == 1 {
        assert offs == prev + [Offset(n - 1 - o.x, y - o.y)];
        forall i, j | 0 <= i < j < |offs| ensures OffsetBefore(offs[i], offs[j]) {
          if j < |prev| { assert offs[i] == prev[i] && offs[j] == prev[j]; }
          else { assert offs[i] == prev[i]; }
        }
      } else {
        assert offs == prev;
      }
    }
  }

  lemma {:induction false} RowsOffsetsFacts(fp: Footprint, o: Cell, m: nat)
    requires m <= |fp|
    ensures forall d :: d in RowsOffsets(fp, o, m) <==>
              0 <= d.dy + o.y < m && Occupied(fp, d.dx + o.x, d.dy + o.y)
    ensures OffsetsIncreasing(RowsOffsets(fp, o, m))
    ensures forall i :: 0 <= i < |RowsOffsets(fp, o, m)| ==> RowsOffsets(fp, o, m)[i].dy < m - o.y
  {
    if m > 0 {
      RowsOffsetsFacts(fp, o, m - 1);
      RowOffsetsFacts(fp, o, m - 1, FpWidth(fp));
      ConcatIncreasing(RowsOffsets(fp, o, m - 1), RowOffsets(fp, o, m - 1, FpWidth(fp)), m - 1 - o.y);
    }
  }

  /** Rows before row k followed by row k stay in row-major order. */
  lemma ConcatIncreasing(a: seq<Offset>, b: seq<Offset>, k: int)
    requires OffsetsIncreasing(a) && OffsetsIncreasing(b)
    requires forall i :: 0 <= i < |a| ==> a[i].dy < k
    requires forall i :: 0 <= i < |b| ==> b[i].dy == k
    ensures OffsetsIncreasing(a + b)
    ensures forall i :: 0 <= i < |a + b| ==> (a + b)[i].dy <= k
  {
    var offs := a + b;
    forall i, j | 0 <= i < j < |offs| ensures OffsetBefore(offs[i], offs[j]) {
      if j < |a| { assert offs[i] == a[i] && offs[j] == a[j]; }
      else if i < |a| { assert offs[i] == a[i] && offs[j] == b[j - |a|]; }
      else { assert offs[i] == b[i - |a|] && offs[j] == b[j - |a|]; }
    }
    forall i | 0 <= i < |offs| ensures offs[i].dy <= k {
      if i < |a| { assert offs[i] == a[i]; } else { assert offs[i] == b[i - |a|]; }
    }
  }

  /** Lines 56-69 as the source computes it: nested loops over rows and the first row's
      width, pushing the offset of every 1 cell. */
  method GetOccupiedOffsets(fp: Footprint) returns (offsets: seq<Offset>)
    ensures offsets == OccupiedOffsets(fp)
  {
    var origin := GetFootprintOrigin(fp);
    offsets := [];
    var y := 0;
    while y < |fp|
      invariant 0 <= y <= |fp|
      invariant offsets == RowsOffsets(fp, origin, y)
    {
      var x := 0;
      while x < FpWidth(fp)
        invariant 0 <= x <= FpWidth(fp)
        invariant offsets == RowsOffsets(fp, origin, y) + RowOffsets(fp, origin, y, x)
      {
        if At(fp, x, y) == 1 {
          offsets := offsets + [Offset(x - origin.x, y - origin.y)];
        }
        x := x + 1;
      }
      y := y + 1;
    }
  }

  /** A list without repeats has as many elements as its set. */
  lemma {:induction false} DistinctCard<T>(s: seq<T>)
    requires forall i, j :: 0 <= i < j < |s| ==> s[i] != s[j]
    ensures |set x | x in s| == |s|
  {
    if s != [] {
      var last := s[|s| - 1];
      var init := s[..|s| - 1];
      DistinctCard(init);
      assert (set x | x in s) == (set x | x in init) + {last};
      assert last !in init;
    }
  }

  /** There is one offset per occupied cell. */
  lemma OffsetsCount(fp: Footprint)
    ensures |OccupiedOffsets(fp)| == |OccupiedCells(fp)|
  {
    var offs := OccupiedOffsets(fp);
    var o := GetFootprintOrigin(fp);
    OffsetsDistinct(fp);
    DistinctCard(offs);
    OffsetsToCells(fp);
    var S := set d | d in offs;
    BijectionCard(S, OccupiedCells(fp), d => CellAt(o, d), c => OffsetOf(o, c));
  }

  /** The cell an offset names from the origin, and the offset of a cell. */
  function CellAt(o: Cell, d: Offset): Cell { Cell(d.dx + o.x, d.dy + o.y) }
  function OffsetOf(o: Cell, c: Cell): Offset { Offset(c.x - o.x, c.y - o.y) }

  lemma OffsetsDistinct(fp: Footprint)
    ensures forall i, j :: 0 <= i < j < |OccupiedOffsets(fp)| ==> OccupiedOffsets(fp)[i] != OccupiedOffsets(fp)[j]
  {
    OccupiedOffsetsFacts(fp);
    var offs := OccupiedOffsets(fp);
    forall i, j | 0 <= i < j < |offs| ensures offs[i] != offs[j] {
      assert OffsetBefore(offs[i], offs[j]);
    }
  }

  lemma OffsetsToCells(fp: Footprint)
    ensures var o := GetFootprintOrigin(fp);
      (forall d :: d in (set d | d in OccupiedOffsets(fp)) ==> CellAt(o, d) in OccupiedCells(fp) && OffsetOf(o, CellAt(o, d)) == d) &&
      (forall c :: c in OccupiedCells(fp) ==> OffsetOf(o, c) in (set d | d in OccupiedOffsets(fp)) && CellAt(o, OffsetOf(o, c)) == c)
  {
    OccupiedOffsetsMembers(fp);
  }

  /** Rotation keeps the number of occupied offsets. */
  lemma RotationKeepsOffsetCount(fp: Footprint, rot: Rotation)
    ensures |OccupiedOffsets(Rotated(fp, rot))| == |OccupiedOffsets(fp)|
  {
    OffsetsCount(fp);
    OffsetsCount(Rotated(fp, rot));
    RotationKeepsOccupiedCount(fp, rot);
  }

  /** Lines 71-72: the footprint of a piece at a rotation. */
  method GetPieceFootprint(piece: PieceDef, rot: Rotation) returns (out: Footprint)
    ensures out == Rotated(piece.footprint, rot)
  {
    out := RotateFootprint(piece.footprint, rot);
  }
}
