/** A worked board: the search specification reports a concrete T-spin setup
    for the T piece, and reports nothing once that slot exists. */
module Worked {
  import opened Geometry
  import opened TSpin

  /** Bottom row occupied at columns 0, 2 and 3, and the cell above column 3
      occupied: a T-spin slot at window (17, 0) still lacks its top corner. */
  function OpenSlot(): (g: Grid)
    ensures IsGrid(g)
  {
    seq(NumRows, a =>
      if a == 19 then [true, false, true, true, false, false, false, false, false, false]
      else if a == 18 then [false, false, false, true, false, false, false, false, false, false]
      else seq(NumCols, b => false))
  }

  /** The board holds no T-spin slot: the only window with both bottom corners
      occupied has neither top corner occupied. */
  lemma OpenSlotHasNone()
    ensures !HasTSpin(OpenSlot())
  {
    var g := OpenSlot();
    forall i, r | 0 <= i <= NumRows - 3 && 0 <= r <= NumCols - 3 ensures !TSpinAt(g, i, r) {
      if i == 17 && r == 0 {
        assert !g[17][0] && !g[17][2];
      } else {
        assert !g[i + 2][r] || !g[i + 2][r + 2];
      }
    }
  }

  /** Rotation state 0 of the T is its canonical cells. */
  lemma TState0()
    ensures PosTable(T)[0] == [Cell(0, 1), Cell(1, 0), Cell(1, 1), Cell(1, 2)]
  {
    assert PosTable(T)[0] == Canonical(T);
  }

  /** The T in its canonical state anchored at row 16, column 2 covers
      (16, 3), (17, 2), (17, 3) and (17, 4): every cell is free, (17, 3) rests
      on (18, 3), and the piece supplies the missing top corner (17, 2). */
  lemma OpenSlotTSetup()
    ensures IsSetup(OpenSlot(), [Cell(0, 1), Cell(1, 0), Cell(1, 1), Cell(1, 2)], 16, 2)
  {
    var g := OpenSlot();
    var cells := PieceCells([Cell(0, 1), Cell(1, 0), Cell(1, 1), Cell(1, 2)], 16, 2);
    assert cells == [Cell(16, 3), Cell(17, 2), Cell(17, 3), Cell(17, 4)];
    assert Fits(g, cells);
    assert Grounded(g, cells[2]);
    assert TSpinAt(Place(g, cells), 17, 0);
  }

  /** So the search reports that placement for the T piece. */
  lemma TPieceSetup()
    ensures Setup(0, 16, 2) in SetupsOf(OpenSlot(), PosTable(T))
  {
    TState0();
    OpenSlotTSetup();
    OpenSlotHasNone();
    SetupsMembers(OpenSlot(), PosTable(T), Setup(0, 16, 2));
  }
}
