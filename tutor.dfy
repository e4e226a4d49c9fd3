/** The search state and its two in-place operations: testing the board for a
    T-spin slot, optionally with the current piece written into it, and
    searching every placement of the current piece for setups. */
module Tutor {
  import opened Geometry
  import opened TSpin

  /** The occupancy array `b` holds the board value `g`. */
  ghost predicate Holds(b: array2<bool>, g: Grid)
    requires b.Length0 == NumRows && b.Length1 == NumCols && IsGrid(g)
    reads b
  {
    forall i, j :: 0 <= i < NumRows && 0 <= j < NumCols ==> b[i, j] == g[i][j]
  }

  /** The board value an occupancy array holds. */
  ghost function GridOf(b: array2<bool>): (g: Grid)
    requires b.Length0 == NumRows && b.Length1 == NumCols
    reads b
    ensures IsGrid(g)
    ensures forall i, j :: 0 <= i < NumRows && 0 <= j < NumCols ==> g[i][j] == b[i, j]
  {
    seq(NumRows, i requires 0 <= i < NumRows reads b =>
      seq(NumCols, j requires 0 <= j < NumCols reads b => b[i, j]))
  }

  /** An array holds exactly one board value. */
  lemma HoldsGridOf(b: array2<bool>, g: Grid)
    requires b.Length0 == NumRows && b.Length1 == NumCols && IsGrid(g) && Holds(b, g)
    ensures GridOf(b) == g
  {
    GridExt(GridOf(b), g);
  }

  /** What the search leaves in `boardPieceCopy`: its old contents when no
      candidate was written in, and otherwise the four free cells the last
      legal candidate covered. */
  predicate Scratched(before: seq<bool>, after: seq<bool>) {
    after == before || after == [false, false, false, false]
  }

  class TSpinTutor {
    /** `boardState`: occupancy, row 0 at the top. The array is allocated
        once and only its elements change. */
    const board: array2<bool>
    /** `boardPieceCopy`: the values under the four cells of a trial
        placement. */
    const pieceCopy: array<bool>
    /** The setups found by the last search. */
    var setups: seq<Setup>
    /** The piece in play, supplied by the screen classification. */
    var curBlock: Tetrimino

    ghost predicate Valid() {
      board.Length0 == NumRows && board.Length1 == NumCols && pieceCopy.Length == 4
    }

    /** The rotation table of the piece in play (`curBlock.pos`). */
    function Table(): (table: seq<seq<Cell>>)
      reads this
      ensures IsTable(table)
    {
      PosTable(curBlock)
    }

    /** The initial state: an empty 20 x 10 board, no setups, piece O. */
    constructor ()
      ensures Valid() && fresh(board) && fresh(pieceCopy)
      ensures GridOf(board) == EmptyGrid()
      ensures setups == [] && curBlock == O
    {
      board := new bool[NumRows, NumCols]((i, j) => false);
      pieceCopy := new bool[4](k => false);
      setups := [];
      curBlock := O;
      new;
      GridExt(GridOf(board), EmptyGrid());
    }

    /** The window scan of `boardContainsTSpin` over the board value `g` the
        array holds: every 3x3 window, row by row, stopping at the first
        T-spin slot. */
    method ScanForTSpin(ghost g: Grid) returns (found: bool)
      requires Valid() && IsGrid(g) && Holds(board, g)
      ensures found == HasTSpin(g)
    {
      found := false;
      label baseIter:
      for i := 0 to NumRows - 2
        invariant !found
        invariant forall i', r' :: 0 <= i' < i && 0 <= r' <= NumCols - 3 ==> !TSpinAt(g, i', r')
      {
        for r := 0 to NumCols - 2
          invariant !found
          invariant forall r' :: 0 <= r' < r ==> !TSpinAt(g, i, r')
        {
          if !board[i + 1, r] && !board[i + 1, r + 1] && !board[i + 1, r + 2] && !board[i, r + 1] && !board[i + 2, r + 1]
            && board[i + 2, r] && board[i + 2, r + 2]
            && (board[i, r] != board[i, r + 2])
          {
            assert TSpinAt(g, i, r);
            found := true;
            break baseIter;
          }
        }
      }
    }

    /** One save-and-mark pair of `boardContainsTSpin`: copy the value of
        cell c into slot k of `pieceCopy`, then mark c occupied. */
    method SaveAndMark(k: int, c: Cell, ghost g: Grid)
      requires Valid() && 0 <= k < 4 && InGrid(c) && IsGrid(g) && Holds(board, g)
      modifies board, pieceCopy
      ensures Holds(board, SetCell(g, c, true))
      ensures pieceCopy[..] == old(pieceCopy[..])[k := g[c.row][c.col]]
    {
      pieceCopy[k] := board[c.row, c.col];
      board[c.row, c.col] := true;
    }

    /** One restoring write of `boardContainsTSpin`: put slot k of
        `pieceCopy` back into cell c. */
    method WriteBack(k: int, c: Cell, ghost g: Grid)
      requires Valid() && 0 <= k < 4 && InGrid(c) && IsGrid(g) && Holds(board, g)
      modifies board
      ensures Holds(board, SetCell(g, c, pieceCopy[k]))
    {
      board[c.row, c.col] := pieceCopy[k];
    }

    /** The first block of `boardContainsTSpin` with `useNewBlock`: the four
        save-and-mark pairs, which leave the placement written into the board
        and the values it covered in `pieceCopy`. */
    method WriteCells(cells: seq<Cell>, ghost g0: Grid)
      requires Valid() && |cells| == 4 && OnBoard(cells) && Distinct(cells) && IsGrid(g0) && Holds(board, g0)
      modifies board, pieceCopy
      ensures Holds(board, Place(g0, cells))
      ensures pieceCopy[..] == Under(g0, cells)
    {
      assert InGrid(cells[0]) && InGrid(cells[1]) && InGrid(cells[2]) && InGrid(cells[3]);
      ghost var v := Under(g0, cells);
      FillFour(pieceCopy[..], v[0], v[1], v[2], v[3]);
      SaveAndMark(0, cells[0], g0);
      ghost var g1 := SetCell(g0, cells[0], true);
      SaveAndMark(1, cells[1], g1);
      ghost var g2 := SetCell(g1, cells[1], true);
      SaveAndMark(2, cells[2], g2);
      ghost var g3 := SetCell(g2, cells[2], true);
      SaveAndMark(3, cells[3], g3);
      PlaceBySteps(g0, cells);
    }

    /** The last block of `boardContainsTSpin` with `useNewBlock`: the four
        restoring writes, which give back the board `g0` the placement was
        written into because its four cells are distinct. */
    method RestoreCells(cells: seq<Cell>, ghost g0: Grid)
      requires Valid() && |cells| == 4 && OnBoard(cells) && Distinct(cells) && IsGrid(g0)
      requires Holds(board, Place(g0, cells)) && pieceCopy[..] == Under(g0, cells)
      modifies board
      ensures Holds(board, g0)
    {
      assert InGrid(cells[0]) && InGrid(cells[1]) && InGrid(cells[2]) && InGrid(cells[3]);
      ghost var v := Under(g0, cells);
      WriteBack(0, cells[0], Place(g0, cells));
      ghost var h1 := SetCell(Place(g0, cells), cells[0], v[0]);
      WriteBack(1, cells[1], h1);
      ghost var h2 := SetCell(h1, cells[1], v[1]);
      WriteBack(2, cells[2], h2);
      ghost var h3 := SetCell(h2, cells[2], v[2]);
      WriteBack(3, cells[3], h3);
      RestoreBySteps(g0, cells);
    }

    /** The body of `boardContainsTSpin` with `useNewBlock`: write the four
        cells into the board, saving what they covered in `pieceCopy`, scan
        for a T-spin slot, then write the saved values back. */
    method ContainsTSpinWith(cells: seq<Cell>, ghost g: Grid) returns (found: bool)
      requires Valid() && |cells| == 4 && OnBoard(cells) && Distinct(cells) && IsGrid(g) && Holds(board, g)
      modifies board, pieceCopy
      ensures Holds(board, g)
      ensures found == HasTSpin(Place(g, cells))
      ensures pieceCopy[..] == Under(g, cells)
    {
      WriteCells(cells, g);
      found := ScanForTSpin(Place(g, cells));
      RestoreCells(cells, g);
    }

    /** Whether the board holds a T-spin slot; with `useNewBlock`, whether it
        does once the current piece is written at rotation `rotInd` and anchor
        (x, y). The covered cells are saved in `pieceCopy` and restored
        afterwards, so the array holds the same board value `g` on return. */
    method BoardContainsTSpin(useNewBlock: bool, x: int, y: int, rotInd: int, ghost g: Grid) returns (found: bool)
      requires Valid() && IsGrid(g) && Holds(board, g)
      requires useNewBlock ==> (0 <= rotInd < 4 && OnBoard(PieceCells(Table()[rotInd], x, y)))
      modifies board, pieceCopy
      ensures Holds(board, g)
      ensures !useNewBlock ==> found == HasTSpin(g)
      ensures useNewBlock ==> found == HasTSpin(Place(g, PieceCells(Table()[rotInd], x, y)))
      ensures useNewBlock ==> pieceCopy[..] == Under(g, PieceCells(Table()[rotInd], x, y))
      ensures !useNewBlock ==> pieceCopy[..] == old(pieceCopy[..])
    {
      if useNewBlock {
        var cells := PieceCells(Table()[rotInd], x, y);
        PosDistinct(curBlock, rotInd);
        PieceCellsDistinct(Table()[rotInd], x, y);
        found := ContainsTSpinWith(cells, g);
      } else {
        found := ScanForTSpin(g);
      }
    }

    /** The legality test of `searchTSpinSetups` for rotation state `pos`
        anchored at (x, y): every cell on the board and free, and at least one
        resting on the floor or on an occupied cell. An early `return false`
        stands for the source's `continue boardIter`. */
    method IsLegalPlacement(pos: seq<Cell>, x: int, y: int, ghost g: Grid) returns (legal: bool)
      requires Valid() && IsGrid(g) && Holds(board, g) && Shape(pos) && 0 <= x && 0 <= y
      ensures legal == IsLegal(g, pos, x, y)
    {
      ghost var cells := PieceCells(pos, x, y);
      var touchingGround := false;
      for j := 0 to 4
        invariant Fits(g, cells[..j])
        invariant touchingGround <==> exists j' :: 0 <= j' < j && Grounded(g, cells[j'])
      {
        var cx := x + pos[j].row;
        var cy := y + pos[j].col;
        if cx >= NumRows || cy >= NumCols {
          BlockedNotSetup(g, pos, x, y, j);
          return false;
        }
        if board[cx, cy] {
          BlockedNotSetup(g, pos, x, y, j);
          return false;
        }
        assert cells[j] == Cell(cx, cy) && InGrid(cells[j]);
        assert Grounded(g, cells[j]) == (cx == NumRows - 1 || board[cx + 1, cy]);
        if cx == NumRows - 1 || board[cx + 1, cy] {
          touchingGround := true;
        }
        assert cells[..j + 1] == cells[..j] + [cells[j]];
      }
      assert cells[..4] == cells;
      legal := touchingGround;
    }

    /** One candidate of the `boardIter` loop: whether rotation state `pos`
        anchored at (x, y) is a legal placement whose cells, once written,
        create a T-spin slot. The board is restored afterwards. */
    method TryPlacement(pos: seq<Cell>, x: int, y: int, ghost g: Grid) returns (hit: bool)
      requires Valid() && IsGrid(g) && Holds(board, g) && Shape(pos) && 0 <= x && 0 <= y
      modifies board, pieceCopy
      ensures Holds(board, g)
      ensures hit == IsSetup(g, pos, x, y)
      ensures Scratched(old(pieceCopy[..]), pieceCopy[..])
    {
      var legal := IsLegalPlacement(pos, x, y, g);
      if !legal {
        return false;
      }
      var cells := PieceCells(pos, x, y);
      PieceCellsDistinct(pos, x, y);
      hit := ContainsTSpinWith(cells, g);
      assert pieceCopy[..] == [false, false, false, false];
    }

    /** The `boardIter` loop of `searchTSpinSetups`: every anchor column of
        row x in rotation state i of `table`, appending each legal placement
        that creates a T-spin slot. The candidate test is the ghost `ok`,
        which agrees with `IsSetup` on this row; its trigger keeps the solver
        from expanding `IsSetup` for candidates the loop has not visited. */
    method SearchRow(table: seq<seq<Cell>>, i: int, x: int, ghost g: Grid,
                     ghost ok: (int, int, int) -> bool, ghost cols: nat)
      requires Valid() && IsGrid(g) && Holds(board, g) && IsTable(table) && 0 <= i < 4 && Shape(table[i])
      requires 0 <= x && cols == NumCols
      requires forall y {:trigger IsSetup(g, table[i], x, y)} :: ok(i, x, y) == IsSetup(g, table[i], x, y)
      modifies this`setups, board, pieceCopy
      ensures Holds(board, g)
      ensures setups == old(setups) + ColsUpTo(ok, i, x, cols)
      ensures Scratched(old(pieceCopy[..]), pieceCopy[..])
    {
      ghost var prefix := setups;
      ghost var copy := pieceCopy[..];
      assert prefix + ColsUpTo(ok, i, x, 0) == prefix;
      for y := 0 to NumCols
        invariant Holds(board, g)
        invariant setups == prefix + ColsUpTo(ok, i, x, y)
        invariant Scratched(copy, pieceCopy[..])
      {
        ghost var before := ColsUpTo(ok, i, x, y);
        var hit := TryPlacement(table[i], x, y, g);
        assert ok(i, x, y) == hit;
        if hit {
          assert ColsUpTo(ok, i, x, y + 1) == before + [Setup(i, x, y)];
          setups := setups + [Setup(i, x, y)];
          AppendAssoc(prefix, before, [Setup(i, x, y)]);
        } else {
          assert ColsUpTo(ok, i, x, y + 1) == before;
        }
      }
    }

    /** One pass of the `rotIter` loop of `searchTSpinSetups`: every row of
        rotation state i, with the ghost candidate test `ok` as in
        `SearchRow`. */
    method SearchRotation(table: seq<seq<Cell>>, i: int, ghost g: Grid, ghost ok: (int, int, int) -> bool,
                          ghost rows: nat, ghost cols: nat)
      requires Valid() && IsGrid(g) && Holds(board, g) && IsTable(table) && 0 <= i < 4 && Shape(table[i])
      requires forall x, y {:trigger IsSetup(g, table[i], x, y)} :: ok(i, x, y) == IsSetup(g, table[i], x, y)
      requires rows == NumRows && cols == NumCols
      modifies this`setups, board, pieceCopy
      ensures Holds(board, g)
      ensures setups == old(setups) + RowsUpTo(ok, i, rows, cols)
      ensures Scratched(old(pieceCopy[..]), pieceCopy[..])
    {
      ghost var done := setups;
      ghost var copy := pieceCopy[..];
      assert done + RowsUpTo(ok, i, 0, cols) == done;
      for x := 0 to NumRows
        invariant Holds(board, g)
        invariant setups == done + RowsUpTo(ok, i, x, cols)
        invariant Scratched(copy, pieceCopy[..])
      {
        SearchRow(table, i, x, g, ok, cols);
        assert RowsUpTo(ok, i, x + 1, cols) == RowsUpTo(ok, i, x, cols) + ColsUpTo(ok, i, x, cols);
        AppendAssoc(done, RowsUpTo(ok, i, x, cols), ColsUpTo(ok, i, x, cols));
      }
    }

    /** The `rotIter` loop of `searchTSpinSetups` over a rotation table:
        every rotation state, row and column in that order. */
    method SearchAll(table: seq<seq<Cell>>, ghost g: Grid, ghost ok: (int, int, int) -> bool,
                     ghost rows: nat, ghost cols: nat)
      requires Valid() && IsGrid(g) && Holds(board, g) && IsTable(table)
      requires forall k :: 0 <= k < 4 ==> Shape(table[k])
      requires forall k, x, y {:trigger IsSetup(g, table[k], x, y)} ::
        0 <= k < 4 ==> ok(k, x, y) == IsSetup(g, table[k], x, y)
      requires rows == NumRows && cols == NumCols
      modifies this`setups, board, pieceCopy
      ensures Holds(board, g)
      ensures setups == old(setups) + RotsUpTo(ok, |table|, rows, cols)
      ensures Scratched(old(pieceCopy[..]), pieceCopy[..])
    {
      ghost var start := setups;
      ghost var copy := pieceCopy[..];
      assert start + RotsUpTo(ok, 0, rows, cols) == start;
      for i := 0 to |table|
        invariant Holds(board, g)
        invariant setups == start + RotsUpTo(ok, i, rows, cols)
        invariant Scratched(copy, pieceCopy[..])
      {
        SearchRotation(table, i, g, ok, rows, cols);
        assert RotsUpTo(ok, i + 1, rows, cols) == RotsUpTo(ok, i, rows, cols) + RowsUpTo(ok, i, rows, cols);
        AppendAssoc(start, RotsUpTo(ok, i, rows, cols), RowsUpTo(ok, i, rows, cols));
      }
    }

    /** Rebuild `setups`: empty when the board already holds a T-spin slot,
        otherwise every legal placement of the current piece that creates one,
        in rotation, row, column order. The board is unchanged. */
    method SearchTSpinSetups()
      requires Valid()
      modifies this`setups, board, pieceCopy
      ensures GridOf(board) == old(GridOf(board))
      ensures setups == SetupsOf(GridOf(board), Table())
      ensures Scratched(old(pieceCopy[..]), pieceCopy[..])
    {
      ghost var g := GridOf(board);
      assert Holds(board, g);
      if |setups| > 0 {
        setups := [];
      }
      var present := BoardContainsTSpin(false, 0, 0, 0, g);
      if present {
        HoldsGridOf(board, g);
        return;
      }
      var table := Table();
      forall k | 0 <= k < 4 ensures Shape(table[k]) {
        PosDistinct(curBlock, k);
        PosBounds(curBlock, k);
      }
      // The enumeration functions are given the board size through ghost
      // variables, so that the solver does not unfold them on the literals.
      ghost var rows: nat, cols: nat := NumRows, NumCols;
      SearchAll(table, g, SetupTest(g, table), rows, cols);
      SetupsOfSearch(g, table, |table|, rows, cols);
      HoldsGridOf(board, g);
    }
  }
}
