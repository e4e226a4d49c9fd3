/** The T-spin pattern, legal placements and the list of setups the search
    must report, stated on board values. */
module TSpin {
  import opened Geometry

  const NumRows := 20
  const NumCols := 10

  /** A board snapshot: `g[row][col]` is true when the cell is occupied;
      row 0 is the top. */
  type Grid = seq<seq<bool>>

  predicate IsGrid(g: Grid) {
    |g| == NumRows && forall i :: 0 <= i < NumRows ==> |g[i]| == NumCols
  }

  predicate InGrid(c: Cell) {
    0 <= c.row < NumRows && 0 <= c.col < NumCols
  }

  /** Two boards that agree on every cell are the same board. */
  lemma GridExt(g: Grid, h: Grid)
    requires IsGrid(g) && IsGrid(h)
    requires forall i, j :: 0 <= i < NumRows && 0 <= j < NumCols ==> g[i][j] == h[i][j]
    ensures g == h
  {
    forall i | 0 <= i < NumRows ensures g[i] == h[i] {
      assert forall j :: 0 <= j < NumCols ==> g[i][j] == h[i][j];
    }
  }

  /** The empty board. */
  function EmptyGrid(): (g: Grid)
    ensures IsGrid(g)
  {
    seq(NumRows, i => seq(NumCols, j => false))
  }

  /** The 3x3 window whose top-left cell is (i, r) is a T-spin slot: its centre
      cross is free, both bottom corners are occupied and exactly one top
      corner is occupied. */
  predicate TSpinAt(g: Grid, i: int, r: int)
    requires IsGrid(g) && 0 <= i <= NumRows - 3 && 0 <= r <= NumCols - 3
  {
    !g[i + 1][r] && !g[i + 1][r + 1] && !g[i + 1][r + 2] && !g[i][r + 1] && !g[i + 2][r + 1]
    && g[i + 2][r] && g[i + 2][r + 2]
    && g[i][r] != g[i][r + 2]
  }

  /** Some window of the board is a T-spin slot. */
  predicate HasTSpin(g: Grid)
    requires IsGrid(g)
  {
    exists i, r | 0 <= i <= NumRows - 3 && 0 <= r <= NumCols - 3 :: TSpinAt(g, i, r)
  }

  /** A rotation table: four states of four cell offsets each. */
  predicate IsTable(table: seq<seq<Cell>>) {
    |table| == 4 && forall k :: 0 <= k < 4 ==> |table[k]| == 4
  }

  /** A rotation state: four distinct cells with non-negative offsets. */
  predicate Shape(pos: seq<Cell>) {
    |pos| == 4 && Distinct(pos) && forall j :: 0 <= j < 4 ==> 0 <= pos[j].row && 0 <= pos[j].col
  }

  /** The absolute cells of a rotation state `pos` anchored at (x, y). */
  function PieceCells(pos: seq<Cell>, x: int, y: int): (cells: seq<Cell>)
    requires |pos| == 4
    ensures |cells| == 4
  {
    seq(4, j requires 0 <= j < 4 => Cell(x + pos[j].row, y + pos[j].col))
  }

  /** Distinct offsets give distinct cells wherever the piece is anchored. */
  lemma PieceCellsDistinct(pos: seq<Cell>, x: int, y: int)
    requires |pos| == 4 && Distinct(pos)
    ensures Distinct(PieceCells(pos, x, y))
  {
    var cells := PieceCells(pos, x, y);
    forall a, b | 0 <= a < b < 4 ensures cells[a] != cells[b] {
      assert pos[a] != pos[b];
    }
  }

  /** Every cell is on the board. */
  predicate OnBoard(cells: seq<Cell>) {
    forall j :: 0 <= j < |cells| ==> InGrid(cells[j])
  }

  /** The board with cell c set to v. */
  function SetCell(g: Grid, c: Cell, v: bool): (h: Grid)
    requires IsGrid(g) && InGrid(c)
    ensures IsGrid(h)
    ensures forall i, j :: 0 <= i < NumRows && 0 <= j < NumCols ==>
      h[i][j] == (if Cell(i, j) == c then v else g[i][j])
  {
    g[c.row := g[c.row][c.col := v]]
  }

  /** Writing the four cells of a placement one after the other marks
      exactly the placement. */
  lemma PlaceBySteps(g: Grid, cells: seq<Cell>)
    requires IsGrid(g) && |cells| == 4 && OnBoard(cells)
    ensures var g1 := SetCell(g, cells[0], true);
      var g2 := SetCell(g1, cells[1], true);
      var g3 := SetCell(g2, cells[2], true);
      SetCell(g3, cells[3], true) == Place(g, cells)
  {
    var g1 := SetCell(g, cells[0], true);
    var g2 := SetCell(g1, cells[1], true);
    var g3 := SetCell(g2, cells[2], true);
    GridExt(SetCell(g3, cells[3], true), Place(g, cells));
  }

  /** Writing back the saved values of four distinct cells, one after the
      other, undoes the placement. */
  lemma RestoreBySteps(g: Grid, cells: seq<Cell>)
    requires IsGrid(g) && |cells| == 4 && OnBoard(cells) && Distinct(cells)
    ensures var v := Under(g, cells);
      var h1 := SetCell(Place(g, cells), cells[0], v[0]);
      var h2 := SetCell(h1, cells[1], v[1]);
      var h3 := SetCell(h2, cells[2], v[2]);
      SetCell(h3, cells[3], v[3]) == g
  {
    var v := Under(g, cells);
    var h1 := SetCell(Place(g, cells), cells[0], v[0]);
    var h2 := SetCell(h1, cells[1], v[1]);
    var h3 := SetCell(h2, cells[2], v[2]);
    GridExt(SetCell(h3, cells[3], v[3]), g);
  }

  /** The values a board holds under the four cells of a placement. */
  function Under(g: Grid, cells: seq<Cell>): (v: seq<bool>)
    requires IsGrid(g) && |cells| == 4 && OnBoard(cells)
    ensures |v| == 4
    ensures forall j :: 0 <= j < 4 ==> v[j] == g[cells[j].row][cells[j].col]
  {
    [g[cells[0].row][cells[0].col], g[cells[1].row][cells[1].col],
     g[cells[2].row][cells[2].col], g[cells[3].row][cells[3].col]]
  }

  /** Overwriting every slot of a four-slot buffer in turn leaves exactly the
      values written. */
  lemma FillFour(s: seq<bool>, a: bool, b: bool, c: bool, d: bool)
    requires |s| == 4
    ensures s[0 := a][1 := b][2 := c][3 := d] == [a, b, c, d]
  {
  }

  /** Every cell is on the board and unoccupied. */
  predicate Fits(g: Grid, cells: seq<Cell>)
    requires IsGrid(g)
  {
    forall j :: 0 <= j < |cells| ==> InGrid(cells[j]) && !g[cells[j].row][cells[j].col]
  }

  /** A cell rests on the floor or on an occupied cell. */
  predicate Grounded(g: Grid, c: Cell)
    requires IsGrid(g) && InGrid(c)
  {
    c.row == NumRows - 1 || g[c.row + 1][c.col]
  }

  /** A fitting placement is supported when at least one of its cells is
      grounded. */
  predicate Supported(g: Grid, cells: seq<Cell>)
    requires IsGrid(g) && Fits(g, cells)
  {
    exists j :: 0 <= j < |cells| && Grounded(g, cells[j])
  }

  /** Cell c is one of the four cells of a placement. */
  predicate Covers(cells: seq<Cell>, c: Cell)
    requires |cells| == 4
  {
    c == cells[0] || c == cells[1] || c == cells[2] || c == cells[3]
  }

  /** The board with the four cells of a placement set to occupied. */
  function Place(g: Grid, cells: seq<Cell>): (h: Grid)
    requires IsGrid(g) && |cells| == 4
    ensures IsGrid(h)
    ensures forall i, j :: 0 <= i < NumRows && 0 <= j < NumCols ==>
      h[i][j] == (g[i][j] || Covers(cells, Cell(i, j)))
  {
    seq(NumRows, i requires 0 <= i < NumRows =>
      seq(NumCols, j requires 0 <= j < NumCols => g[i][j] || Covers(cells, Cell(i, j))))
  }

  /** State `pos` anchored at (x, y) is a legal placement: in bounds, free
      and supported. */
  predicate IsLegal(g: Grid, pos: seq<Cell>, x: int, y: int)
    requires IsGrid(g) && |pos| == 4
  {
    var cells := PieceCells(pos, x, y);
    Fits(g, cells) && Supported(g, cells)
  }

  /** The placement is legal and creates a T-spin slot. */
  predicate IsSetup(g: Grid, pos: seq<Cell>, x: int, y: int)
    requires IsGrid(g) && |pos| == 4
  {
    IsLegal(g, pos, x, y) && HasTSpin(Place(g, PieceCells(pos, x, y)))
  }

  /** A placement with a cell off the board or on an occupied cell is not a
      setup. */
  lemma BlockedNotSetup(g: Grid, pos: seq<Cell>, x: int, y: int, j: int)
    requires IsGrid(g) && |pos| == 4 && 0 <= j < 4
    requires var c := PieceCells(pos, x, y)[j]; !InGrid(c) || g[c.row][c.col]
    ensures !IsSetup(g, pos, x, y)
  {
  }

  /** A fitting placement none of whose cells is grounded is not a setup. */
  lemma FloatingNotSetup(g: Grid, pos: seq<Cell>, x: int, y: int)
    requires IsGrid(g) && |pos| == 4 && Fits(g, PieceCells(pos, x, y))
    requires forall j :: 0 <= j < 4 ==> !Grounded(g, PieceCells(pos, x, y)[j])
    ensures !IsSetup(g, pos, x, y)
  {
  }

  /** A fitting, supported placement is a setup exactly when the board with
      the piece written in holds a T-spin slot. */
  lemma LegalSetup(g: Grid, pos: seq<Cell>, x: int, y: int, j: int)
    requires IsGrid(g) && |pos| == 4 && Fits(g, PieceCells(pos, x, y))
    requires 0 <= j < 4 && Grounded(g, PieceCells(pos, x, y)[j])
    ensures IsSetup(g, pos, x, y) == HasTSpin(Place(g, PieceCells(pos, x, y)))
  {
  }

  /** A reported setup: rotation index, anchor row, anchor column. */
  datatype Setup = Setup(rotInd: int, row: int, col: int)

  /** The candidates among the columns [0, y) of anchor row x in rotation
      rot that pass the test `ok`, in column order. */
  function ColsUpTo(ok: (int, int, int) -> bool, rot: int, x: int, y: nat): seq<Setup>
    decreases y
  {
    if y == 0 then []
    else
      var last := if ok(rot, x, y - 1) then [Setup(rot, x, y - 1)] else [];
      ColsUpTo(ok, rot, x, y - 1) + last
  }

  /** The candidates among the anchor rows [0, x) of rotation rot that pass
      `ok`, row by row. */
  function RowsUpTo(ok: (int, int, int) -> bool, rot: int, x: nat, cols: nat): seq<Setup>
    decreases x
  {
    if x == 0 then []
    else RowsUpTo(ok, rot, x - 1, cols) + ColsUpTo(ok, rot, x - 1, cols)
  }

  /** The candidates among the rotations [0, rot) that pass `ok`, rotation by
      rotation. */
  function RotsUpTo(ok: (int, int, int) -> bool, rot: nat, rows: nat, cols: nat): seq<Setup>
    decreases rot
  {
    if rot == 0 then []
    else RotsUpTo(ok, rot - 1, rows, cols) + RowsUpTo(ok, rot - 1, rows, cols)
  }

  /** The test the search applies to candidate (rotation k, row x, column y). */
  function SetupTest(g: Grid, table: seq<seq<Cell>>): (int, int, int) -> bool
    requires IsGrid(g) && IsTable(table)
  {
    (k: int, x: int, y: int) => 0 <= k < 4 && IsSetup(g, table[k], x, y)
  }

  /** What the search reports for board g and rotation table `table`: nothing
      when the board already holds a T-spin slot, otherwise every setup in
      rotation-major, then row, then column order, over every rotation state
      of the table and every anchor (row, column) of the board. */
  function SetupsOf(g: Grid, table: seq<seq<Cell>>): seq<Setup>
    requires IsGrid(g) && IsTable(table)
  {
    if HasTSpin(g) then [] else RotsUpTo(SetupTest(g, table), |table|, |g|, |g[0]|)
  }

  /** `SetupsOf` on a board without a T-spin slot, with the board size and
      the number of rotations given as variables. */
  lemma SetupsOfSearch(g: Grid, table: seq<seq<Cell>>, rots: nat, rows: nat, cols: nat)
    requires IsGrid(g) && IsTable(table) && !HasTSpin(g)
    requires rots == |table| && rows == NumRows && cols == NumCols
    ensures SetupsOf(g, table) == RotsUpTo(SetupTest(g, table), rots, rows, cols)
  {
  }

  /** The search's candidate order on setups. */
  predicate Precedes(a: Setup, b: Setup) {
    a.rotInd < b.rotInd
    || (a.rotInd == b.rotInd && a.row < b.row)
    || (a.rotInd == b.rotInd && a.row == b.row && a.col < b.col)
  }

  predicate Increasing(s: seq<Setup>) {
    forall a, b :: 0 <= a < b < |s| ==> Precedes(s[a], s[b])
  }

  lemma AppendIncreasing(s: seq<Setup>, t: seq<Setup>)
    requires Increasing(s) && Increasing(t)
    requires forall a, b :: 0 <= a < |s| && 0 <= b < |t| ==> Precedes(s[a], t[b])
    ensures Increasing(s + t)
  {
    forall a, b | 0 <= a < b < |s + t| ensures Precedes((s + t)[a], (s + t)[b]) {
      if b < |s| {
        assert (s + t)[a] == s[a] && (s + t)[b] == s[b];
      } else if a >= |s| {
        assert (s + t)[a] == t[a - |s|] && (s + t)[b] == t[b - |s|];
      } else {
        assert (s + t)[a] == s[a] && (s + t)[b] == t[b - |s|];
      }
    }
  }

  lemma AppendAssoc(a: seq<Setup>, b: seq<Setup>, c: seq<Setup>)
    ensures (a + b) + c == a + (b + c)
  {
  }

  /** Candidate s lies in columns [0, y) of anchor row x, rotation rot, and
      passes `ok`. */
  predicate InCols(ok: (int, int, int) -> bool, rot: int, x: int, y: int, s: Setup) {
    s.rotInd == rot && s.row == x && 0 <= s.col < y && ok(s.rotInd, s.row, s.col)
  }

  /** Candidate s lies in anchor rows [0, x) of rotation rot and passes `ok`. */
  predicate InRows(ok: (int, int, int) -> bool, rot: int, x: int, cols: int, s: Setup) {
    s.rotInd == rot && 0 <= s.row < x && 0 <= s.col < cols && ok(s.rotInd, s.row, s.col)
  }

  /** Candidate s lies in rotations [0, rot) and passes `ok`. */
  predicate InRots(ok: (int, int, int) -> bool, rot: int, rows: int, cols: int, s: Setup) {
    0 <= s.rotInd < rot && 0 <= s.row < rows && 0 <= s.col < cols
    && ok(s.rotInd, s.row, s.col)
  }

  /** Every entry of a column prefix is a candidate of that row passing `ok`. */
  lemma {:induction false} ColsSound(ok: (int, int, int) -> bool, rot: int, x: int, y: nat)
    ensures forall k :: 0 <= k < |ColsUpTo(ok, rot, x, y)| ==> InCols(ok, rot, x, y, ColsUpTo(ok, rot, x, y)[k])
  {
    if y > 0 {
      ColsSound(ok, rot, x, y - 1);
    }
  }

  /** Every entry of a row prefix is a candidate of that rotation passing `ok`. */
  lemma {:induction false} RowsSound(ok: (int, int, int) -> bool, rot: int, x: nat, cols: nat)
    ensures forall k :: 0 <= k < |RowsUpTo(ok, rot, x, cols)| ==> InRows(ok, rot, x, cols, RowsUpTo(ok, rot, x, cols)[k])
  {
    if x > 0 {
      var a, b := RowsUpTo(ok, rot, x - 1, cols), ColsUpTo(ok, rot, x - 1, cols);
      RowsSound(ok, rot, x - 1, cols);
      ColsSound(ok, rot, x - 1, cols);
      assert RowsUpTo(ok, rot, x, cols) == a + b;
      forall k | 0 <= k < |a + b| ensures InRows(ok, rot, x, cols, (a + b)[k]) {
        if k < |a| { assert (a + b)[k] == a[k]; } else { assert (a + b)[k] == b[k - |a|]; }
      }
    }
  }

  /** Every entry of a rotation prefix is a candidate passing `ok`. */
  lemma {:induction false} RotsSound(ok: (int, int, int) -> bool, rot: nat, rows: nat, cols: nat)
    ensures forall k :: 0 <= k < |RotsUpTo(ok, rot, rows, cols)| ==> InRots(ok, rot, rows, cols, RotsUpTo(ok, rot, rows, cols)[k])
  {
    if rot > 0 {
      var a, b := RotsUpTo(ok, rot - 1, rows, cols), RowsUpTo(ok, rot - 1, rows, cols);
      RotsSound(ok, rot - 1, rows, cols);
      RowsSound(ok, rot - 1, rows, cols);
      assert RotsUpTo(ok, rot, rows, cols) == a + b;
      forall k | 0 <= k < |a + b| ensures InRots(ok, rot, rows, cols, (a + b)[k]) {
        if k < |a| { assert (a + b)[k] == a[k]; } else { assert (a + b)[k] == b[k - |a|]; }
      }
    }
  }

  /** Every candidate of the row that passes `ok` is in the column prefix. */
  lemma {:induction false} ColsComplete(ok: (int, int, int) -> bool, rot: int, x: int, y: nat, s: Setup)
    requires InCols(ok, rot, x, y, s)
    ensures s in ColsUpTo(ok, rot, x, y)
  {
    var a := ColsUpTo(ok, rot, x, y - 1);
    var last := if ok(rot, x, y - 1) then [Setup(rot, x, y - 1)] else [];
    assert ColsUpTo(ok, rot, x, y) == a + last;
    if s.col < y - 1 {
      ColsComplete(ok, rot, x, y - 1, s);
      assert s in a;
    } else {
      assert s in last;
    }
  }

  lemma {:induction false} RowsComplete(ok: (int, int, int) -> bool, rot: int, x: nat, cols: nat, s: Setup)
    requires InRows(ok, rot, x, cols, s)
    ensures s in RowsUpTo(ok, rot, x, cols)
  {
    var a, b := RowsUpTo(ok, rot, x - 1, cols), ColsUpTo(ok, rot, x - 1, cols);
    assert RowsUpTo(ok, rot, x, cols) == a + b;
    if s.row < x - 1 {
      RowsComplete(ok, rot, x - 1, cols, s);
      assert s in a;
    } else {
      ColsComplete(ok, rot, x - 1, cols, s);
      assert s in b;
    }
  }

  lemma {:induction false} RotsComplete(ok: (int, int, int) -> bool, rot: nat, rows: nat, cols: nat, s: Setup)
    requires InRots(ok, rot, rows, cols, s)
    ensures s in RotsUpTo(ok, rot, rows, cols)
  {
    var a, b := RotsUpTo(ok, rot - 1, rows, cols), RowsUpTo(ok, rot - 1, rows, cols);
    assert RotsUpTo(ok, rot, rows, cols) == a + b;
    if s.rotInd < rot - 1 {
      RotsComplete(ok, rot - 1, rows, cols, s);
      assert s in a;
    } else {
      RowsComplete(ok, rot - 1, rows, cols, s);
      assert s in b;
    }
  }

  lemma {:induction false} ColsIncreasing(ok: (int, int, int) -> bool, rot: int, x: int, y: nat)
    ensures Increasing(ColsUpTo(ok, rot, x, y))
  {
    if y > 0 {
      var a := ColsUpTo(ok, rot, x, y - 1);
      var last := if ok(rot, x, y - 1) then [Setup(rot, x, y - 1)] else [];
      ColsIncreasing(ok, rot, x, y - 1);
      ColsSound(ok, rot, x, y - 1);
      AppendIncreasing(a, last);
    }
  }

  lemma {:induction false} RowsIncreasing(ok: (int, int, int) -> bool, rot: int, x: nat, cols: nat)
    ensures Increasing(RowsUpTo(ok, rot, x, cols))
  {
    if x > 0 {
      var a, b := RowsUpTo(ok, rot, x - 1, cols), ColsUpTo(ok, rot, x - 1, cols);
      RowsIncreasing(ok, rot, x - 1, cols);
      ColsIncreasing(ok, rot, x - 1, cols);
      RowsSound(ok, rot, x - 1, cols);
      ColsSound(ok, rot, x - 1, cols);
      AppendIncreasing(a, b);
    }
  }

  lemma {:induction false} RotsIncreasing(ok: (int, int, int) -> bool, rot: nat, rows: nat, cols: nat)
    ensures Increasing(RotsUpTo(ok, rot, rows, cols))
  {
    if rot > 0 {
      var a, b := RotsUpTo(ok, rot - 1, rows, cols), RowsUpTo(ok, rot - 1, rows, cols);
      RotsIncreasing(ok, rot - 1, rows, cols);
      RowsIncreasing(ok, rot - 1, rows, cols);
      RotsSound(ok, rot - 1, rows, cols);
      RowsSound(ok, rot - 1, rows, cols);
      AppendIncreasing(a, b);
    }
  }

  /** A candidate is enumerated exactly when it lies in range and passes
      `ok`. */
  lemma RotsMembers(ok: (int, int, int) -> bool, rot: nat, rows: nat, cols: nat, s: Setup)
    ensures s in RotsUpTo(ok, rot, rows, cols) <==> InRots(ok, rot, rows, cols, s)
  {
    var all := RotsUpTo(ok, rot, rows, cols);
    if s in all {
      RotsSound(ok, rot, rows, cols);
      var k :| 0 <= k < |all| && all[k] == s;
      assert InRots(ok, rot, rows, cols, all[k]);
    }
    if InRots(ok, rot, rows, cols, s) {
      RotsComplete(ok, rot, rows, cols, s);
    }
  }

  /** Soundness and completeness: a triple is reported exactly when the board
      holds no T-spin slot yet, the triple is in range, and it is a legal
      placement that creates one. */
  lemma SetupsMembers(g: Grid, table: seq<seq<Cell>>, s: Setup)
    requires IsGrid(g) && IsTable(table)
    ensures s in SetupsOf(g, table) <==>
      !HasTSpin(g) && 0 <= s.rotInd < 4 && 0 <= s.row < NumRows && 0 <= s.col < NumCols
      && IsSetup(g, table[s.rotInd], s.row, s.col)
  {
    if !HasTSpin(g) {
      var ok := SetupTest(g, table);
      RotsMembers(ok, |table|, |g|, |g[0]|, s);
      assert ok(s.rotInd, s.row, s.col) == (0 <= s.rotInd < 4 && IsSetup(g, table[s.rotInd], s.row, s.col));
    }
  }

  /** What a reported placement satisfies: it lies on the board, covers only
      free cells, has a grounded cell, and creates a T-spin slot. */
  predicate Reportable(g: Grid, table: seq<seq<Cell>>, s: Setup)
    requires IsGrid(g) && IsTable(table)
  {
    0 <= s.rotInd < 4 &&
    var cells := PieceCells(table[s.rotInd], s.row, s.col);
    (forall j :: 0 <= j < 4 ==> InGrid(cells[j]) && !g[cells[j].row][cells[j].col])
    && (exists j :: 0 <= j < 4 && (cells[j].row == NumRows - 1 || g[cells[j].row + 1][cells[j].col]))
    && HasTSpin(Place(g, cells))
  }

  /** Soundness spelled out: every reported placement lies on the board,
      covers only free cells, has a grounded cell, and creates a T-spin
      slot. */
  lemma SetupsSound(g: Grid, table: seq<seq<Cell>>)
    requires IsGrid(g) && IsTable(table)
    ensures forall k :: 0 <= k < |SetupsOf(g, table)| ==> Reportable(g, table, SetupsOf(g, table)[k])
  {
    forall k | 0 <= k < |SetupsOf(g, table)| ensures Reportable(g, table, SetupsOf(g, table)[k]) {
      var s := SetupsOf(g, table)[k];
      SetupsMembers(g, table, s);
      var cells := PieceCells(table[s.rotInd], s.row, s.col);
      assert Fits(g, cells) && Supported(g, cells);
      var j :| 0 <= j < 4 && Grounded(g, cells[j]);
    }
  }

  /** A board that already holds a T-spin slot gets no setups. */
  lemma ShortCircuit(g: Grid, table: seq<seq<Cell>>)
    requires IsGrid(g) && IsTable(table) && HasTSpin(g)
    ensures SetupsOf(g, table) == []
  {
  }

  /** Order and uniqueness: the reported setups follow the search order
      strictly, so no placement is reported twice. */
  lemma SetupsOrdered(g: Grid, table: seq<seq<Cell>>)
    requires IsGrid(g) && IsTable(table)
    ensures Increasing(SetupsOf(g, table))
    ensures forall a, b :: 0 <= a < b < |SetupsOf(g, table)| ==> SetupsOf(g, table)[a] != SetupsOf(g, table)[b]
  {
    RotsIncreasing(SetupTest(g, table), 4, NumRows, NumCols);
  }

  /** The empty board holds no T-spin slot. */
  lemma EmptyHasNoTSpin()
    ensures !HasTSpin(EmptyGrid())
  {
    var g := EmptyGrid();
    forall i, r | 0 <= i <= NumRows - 3 && 0 <= r <= NumCols - 3 ensures !TSpinAt(g, i, r) {
      assert !g[i + 2][r];
    }
  }

  /** A board whose only occupied cells are one top corner and both bottom
      corners of the window at (i, r). */
  function CornerGrid(i: int, r: int): (g: Grid)
    ensures IsGrid(g)
  {
    seq(NumRows, a => seq(NumCols, b => (a, b) == (i, r) || (a, b) == (i + 2, r) || (a, b) == (i + 2, r + 2)))
  }

  /** Such a board holds a T-spin slot, so the search reports nothing on it. */
  lemma CornerGridShortCircuit(i: int, r: int, table: seq<seq<Cell>>)
    requires 0 <= i <= NumRows - 3 && 0 <= r <= NumCols - 3 && IsTable(table)
    ensures HasTSpin(CornerGrid(i, r))
    ensures SetupsOf(CornerGrid(i, r), table) == []
  {
    assert TSpinAt(CornerGrid(i, r), i, r);
  }
}
