# T-spin setup search

A model of the setup-search engine of `TSpinTutor`, an overlay that watches a
falling-block puzzle game and marks every placement of the piece in play that
would open a T-spin slot. A slot is a 3x3 window of the 20 x 10 board whose
centre cross is free, whose two bottom corners are occupied and which has
exactly one occupied top corner. The engine consists of three parts:

- the `Tetrimino` enum. It gives each of the seven pieces four canonical
  cells, and its constructor derives a 4 x 4 rotation table (`pos`) from them;
- `boardContainsTSpin`. It scans the board for a slot, optionally after
  writing the current piece into the board at a given rotation and anchor
  and restoring the covered cells afterwards;
- `searchTSpinSetups`. It clears `setups` and returns early when a slot
  already exists. Otherwise it tries every rotation, anchor row and anchor
  column. It keeps the placements that stay on the board, cover only free
  cells and rest at least one cell on the floor or on a block, and, once
  written in, create a slot.

The project has four modules:

- `Geometry` (`geometry.dfy`): the pieces, the canonical cells and the
  closed-form rotation table, as pure functions with lemmas.
- `TSpin` (`tspin.dfy`): board values (`seq<seq<bool>>`), the slot
  predicate, legality, and `SetupsOf`. `SetupsOf` is the list the search
  must produce, written as three nested enumerations in the loop order. The
  module also holds the lemmas about that list.
- `Tutor` (`tutor.dfy`): class `TSpinTutor`. Its fields are the
  `array2<bool>` board (`boardState`), the four-slot `array<bool>`
  `pieceCopy` (`boardPieceCopy`), the `seq<Setup>` `setups` and the piece in
  play, `curBlock`. The methods follow the source's loops and in-place
  writes, and each is proved against the `TSpin` functions.
- `Worked` (`examples_board.dfy`): a concrete board on which the
  specification reports a T placement.

Java's `(x, y)` offset pairs are (row, column), and the model's `Cell(row,
col)` keeps that reading. `numRows`/`numCols` are `TSpin.NumRows` = 20 and
`TSpin.NumCols` = 10. Java's `ArrayList<int[]>` of `{i, x, y}` triples is
a `seq<Setup>` with `Setup(rotInd, row, col)`. All values involved are
below 30, so 32-bit arithmetic never wraps and the model uses `int`.

Three points about the code fix how the model is written:

- The rotation states could also be derived by three successive quarter
  turns, each re-normalised about the previous state's bounding box. The code
  computes each state in closed form from the canonical `maxX`/`maxY` (lines
  30-38). The model uses the closed form, and `Geometry.RotationClosure`
  proves that a quarter turn about each state's own bounding box carries
  state k to state k + 1 (mod 4), so the two agree for every normalised
  shape.
- The code saves each old value into `boardPieceCopy` and then writes `true`
  (lines 344-354). The model does the same, and the search methods state
  that `pieceCopy` ends either unchanged or holding four `false` values,
  since every legal candidate covers only free cells.
- The code checks only the upper bounds (`cx >= numRows || cy >= numCols`).
  Lower bounds cannot fail, because anchors and offsets are non-negative.
  The model requires this of its callers and proves the offset bounds.

## Model

| member | source | states |
|---|---|---|
| Geometry.Canonical | TETRIS_AI4/src/main/scala/nu/tengstrand/tetrisanalyzer/TSpinTutor.java:21-27 | four cells per piece; the cells are the enum constants' literals, whose shape `CanonicalWellFormed` proves |
| Geometry.MaxRow | TETRIS_AI4/src/main/scala/nu/tengstrand/tetrisanalyzer/TSpinTutor.java:30 | `maxX` bounds every row offset and is attained by one of them |
| Geometry.MaxCol | TETRIS_AI4/src/main/scala/nu/tengstrand/tetrisanalyzer/TSpinTutor.java:31 | `maxY` bounds every column offset and is attained by one of them |
| Geometry.State | TETRIS_AI4/src/main/scala/nu/tengstrand/tetrisanalyzer/TSpinTutor.java:33-38 | row k of `pos` has four cells; `StateBounds`, `StateDistinct` and `RotationClosure` state what they are |
| Geometry.Rotations | TETRIS_AI4/src/main/scala/nu/tengstrand/tetrisanalyzer/TSpinTutor.java:33-38 | the table has four states of four cells each, and state 0 is the canonical shape |
| Geometry.PosTable | TETRIS_AI4/src/main/scala/nu/tengstrand/tetrisanalyzer/TSpinTutor.java:28-38 | each piece's `pos` table has four states of four cells; `PosBounds`, `PosDistinct` and `PosClosure` state their properties |
| Geometry.Rotate | TETRIS_AI4/src/main/scala/nu/tengstrand/tetrisanalyzer/TSpinTutor.java:35 | the reference quarter turn (x, y) to (y, maxX - x) about a shape's own box, four cells |
| Geometry.CanonicalWellFormed | TETRIS_AI4/src/main/scala/nu/tengstrand/tetrisanalyzer/TSpinTutor.java:21-27 | every canonical shape has non-negative offsets, a 0 in each axis, and four distinct cells |
| Geometry.StateBounds | TETRIS_AI4/src/main/scala/nu/tengstrand/tetrisanalyzer/TSpinTutor.java:30-38 | every offset of every state lies in [0, max(maxX, maxY)] on both axes |
| Geometry.OrientedInjective | TETRIS_AI4/src/main/scala/nu/tengstrand/tetrisanalyzer/TSpinTutor.java:34-37 | each state's cell map sends distinct cells to distinct cells |
| Geometry.StateDistinct | TETRIS_AI4/src/main/scala/nu/tengstrand/tetrisanalyzer/TSpinTutor.java:33-38 | every state of a shape with distinct cells has distinct cells |
| Geometry.StateExtents | TETRIS_AI4/src/main/scala/nu/tengstrand/tetrisanalyzer/TSpinTutor.java:30-38 | the row extent of states 1 and 3 is `maxY`, and that of state 2 is `maxX` |
| Geometry.RotationClosure | TETRIS_AI4/src/main/scala/nu/tengstrand/tetrisanalyzer/TSpinTutor.java:33-38 | the quarter turn about a state's own box carries state k to state k + 1 mod 4 |
| Geometry.FourTurnsIdentity | TETRIS_AI4/src/main/scala/nu/tengstrand/tetrisanalyzer/TSpinTutor.java:33-38 | four quarter turns give back the canonical cells |
| Geometry.RotationsWellFormed | TETRIS_AI4/src/main/scala/nu/tengstrand/tetrisanalyzer/TSpinTutor.java:28-38 | each state of the table is in bounds, distinct, and turns into the next one |
| Geometry.PosDistinct | TETRIS_AI4/src/main/scala/nu/tengstrand/tetrisanalyzer/TSpinTutor.java:20-38 | every state of every piece has four distinct cells |
| Geometry.PosClosure | TETRIS_AI4/src/main/scala/nu/tengstrand/tetrisanalyzer/TSpinTutor.java:20-38 | the quarter turn carries each state of every piece to the next one |
| Geometry.PosBounds | TETRIS_AI4/src/main/scala/nu/tengstrand/tetrisanalyzer/TSpinTutor.java:20-38 | every offset of every piece is non-negative and at most the piece's larger extent |
| TSpin.EmptyGrid | TETRIS_AI4/src/main/scala/nu/tengstrand/tetrisanalyzer/TSpinTutor.java:66 | the freshly allocated board value is a 20 x 10 grid; `EmptyHasNoTSpin` states that it holds no slot |
| TSpin.PieceCells | TETRIS_AI4/src/main/scala/nu/tengstrand/tetrisanalyzer/TSpinTutor.java:305-306 | the four absolute cells (x + dx, y + dy) of a placement |
| TSpin.PieceCellsDistinct | TETRIS_AI4/src/main/scala/nu/tengstrand/tetrisanalyzer/TSpinTutor.java:344-354 | distinct offsets give four distinct board cells at any anchor |
| TSpin.SetCell | TETRIS_AI4/src/main/scala/nu/tengstrand/tetrisanalyzer/TSpinTutor.java:345 | one array write: the written cell holds the new value and every other cell is unchanged |
| TSpin.Place | TETRIS_AI4/src/main/scala/nu/tengstrand/tetrisanalyzer/TSpinTutor.java:343-355 | the board with a placement written in: a cell is occupied iff it was, or the piece covers it |
| TSpin.Under | TETRIS_AI4/src/main/scala/nu/tengstrand/tetrisanalyzer/TSpinTutor.java:344-353 | the values `boardPieceCopy` saves: slot j holds the old value of cell j |
| TSpin.PlaceBySteps | TETRIS_AI4/src/main/scala/nu/tengstrand/tetrisanalyzer/TSpinTutor.java:343-355 | the four successive writes of `true` produce exactly `Place` |
| TSpin.RestoreBySteps | TETRIS_AI4/src/main/scala/nu/tengstrand/tetrisanalyzer/TSpinTutor.java:368-373 | writing the saved values back one by one restores the original board, because the four cells are distinct |
| TSpin.BlockedNotSetup | TETRIS_AI4/src/main/scala/nu/tengstrand/tetrisanalyzer/TSpinTutor.java:307-314 | a placement with a cell off the board or on an occupied cell is never a setup |
| TSpin.FloatingNotSetup | TETRIS_AI4/src/main/scala/nu/tengstrand/tetrisanalyzer/TSpinTutor.java:320-323 | a fitting placement with no grounded cell is never a setup |
| TSpin.LegalSetup | TETRIS_AI4/src/main/scala/nu/tengstrand/tetrisanalyzer/TSpinTutor.java:302-327 | a fitting, grounded placement is a setup iff the board with it written in holds a slot |
| TSpin.ColsSound | TETRIS_AI4/src/main/scala/nu/tengstrand/tetrisanalyzer/TSpinTutor.java:301-328 | every entry of the column enumeration is in the row, in range, and passes the test |
| TSpin.RowsSound | TETRIS_AI4/src/main/scala/nu/tengstrand/tetrisanalyzer/TSpinTutor.java:299-329 | every entry of the row enumeration is in the rotation, in range, and passes the test |
| TSpin.RotsSound | TETRIS_AI4/src/main/scala/nu/tengstrand/tetrisanalyzer/TSpinTutor.java:298-330 | every entry of the rotation enumeration is in range and passes the test |
| TSpin.ColsComplete | TETRIS_AI4/src/main/scala/nu/tengstrand/tetrisanalyzer/TSpinTutor.java:301-328 | every in-range candidate of the row that passes the test is enumerated |
| TSpin.RowsComplete | TETRIS_AI4/src/main/scala/nu/tengstrand/tetrisanalyzer/TSpinTutor.java:299-329 | every in-range candidate of the rotation that passes the test is enumerated |
| TSpin.RotsComplete | TETRIS_AI4/src/main/scala/nu/tengstrand/tetrisanalyzer/TSpinTutor.java:298-330 | every in-range candidate that passes the test is enumerated |
| TSpin.ColsIncreasing | TETRIS_AI4/src/main/scala/nu/tengstrand/tetrisanalyzer/TSpinTutor.java:301 | the column enumeration is strictly increasing in column |
| TSpin.RowsIncreasing | TETRIS_AI4/src/main/scala/nu/tengstrand/tetrisanalyzer/TSpinTutor.java:299-301 | the row enumeration is strictly increasing in (row, column) |
| TSpin.RotsIncreasing | TETRIS_AI4/src/main/scala/nu/tengstrand/tetrisanalyzer/TSpinTutor.java:298-301 | the rotation enumeration is strictly increasing in (rotation, row, column) |
| TSpin.RotsMembers | TETRIS_AI4/src/main/scala/nu/tengstrand/tetrisanalyzer/TSpinTutor.java:298-330 | a candidate is enumerated iff it is in range and passes the test |
| TSpin.SetupsMembers | TETRIS_AI4/src/main/scala/nu/tengstrand/tetrisanalyzer/TSpinTutor.java:289-331 | a triple is reported iff the board holds no slot yet, the triple is in range, and its placement is legal and creates a slot |
| TSpin.SetupsSound | TETRIS_AI4/src/main/scala/nu/tengstrand/tetrisanalyzer/TSpinTutor.java:302-327 | every entry of the list is on the board, covers only free cells, has a grounded cell and creates a slot |
| TSpin.ShortCircuit | TETRIS_AI4/src/main/scala/nu/tengstrand/tetrisanalyzer/TSpinTutor.java:293-296 | a board that already holds a slot gets an empty list |
| TSpin.SetupsOrdered | TETRIS_AI4/src/main/scala/nu/tengstrand/tetrisanalyzer/TSpinTutor.java:298-326 | the list is strictly increasing in (rotation, row, column), so no triple appears twice |
| TSpin.EmptyHasNoTSpin | TETRIS_AI4/src/main/scala/nu/tengstrand/tetrisanalyzer/TSpinTutor.java:356-367 | the empty board holds no slot |
| TSpin.CornerGridShortCircuit | TETRIS_AI4/src/main/scala/nu/tengstrand/tetrisanalyzer/TSpinTutor.java:358-362 | a board holding just one window's bottom corners and one top corner holds a slot, and the search reports nothing on it |
| Tutor.GridOf | TETRIS_AI4/src/main/scala/nu/tengstrand/tetrisanalyzer/TSpinTutor.java:66 | the board value `boardState` holds, cell by cell |
| Tutor.TSpinTutor.Table | TETRIS_AI4/src/main/scala/nu/tengstrand/tetrisanalyzer/TSpinTutor.java:298 | `curBlock.pos` is a table of four states of four cells |
| Tutor.TSpinTutor.constructor | TETRIS_AI4/src/main/scala/nu/tengstrand/tetrisanalyzer/TSpinTutor.java:64-72 | an empty board, no setups, piece O |
| Tutor.TSpinTutor.ScanForTSpin | TETRIS_AI4/src/main/scala/nu/tengstrand/tetrisanalyzer/TSpinTutor.java:356-367 | the `baseIter` scan returns true iff some window of the board is a slot |
| Tutor.TSpinTutor.SaveAndMark | TETRIS_AI4/src/main/scala/nu/tengstrand/tetrisanalyzer/TSpinTutor.java:344-345 | slot k of the copy gets the cell's old value, and the cell becomes occupied |
| Tutor.TSpinTutor.WriteBack | TETRIS_AI4/src/main/scala/nu/tengstrand/tetrisanalyzer/TSpinTutor.java:369 | the cell gets slot k of the copy back |
| Tutor.TSpinTutor.WriteCells | TETRIS_AI4/src/main/scala/nu/tengstrand/tetrisanalyzer/TSpinTutor.java:343-355 | afterwards the array holds `Place(g, cells)` and the copy holds the four covered values |
| Tutor.TSpinTutor.RestoreCells | TETRIS_AI4/src/main/scala/nu/tengstrand/tetrisanalyzer/TSpinTutor.java:368-373 | the four write-backs leave the array holding the original board |
| Tutor.TSpinTutor.ContainsTSpinWith | TETRIS_AI4/src/main/scala/nu/tengstrand/tetrisanalyzer/TSpinTutor.java:343-373 | the result is a slot test of the board with the cells written in, and the array is restored |
| Tutor.TSpinTutor.BoardContainsTSpin | TETRIS_AI4/src/main/scala/nu/tengstrand/tetrisanalyzer/TSpinTutor.java:341-375 | without a piece: a slot test of the board. With one: a slot test of the board with that rotation written in, after which the board is restored and the copy holds the covered values |
| Tutor.TSpinTutor.IsLegalPlacement | TETRIS_AI4/src/main/scala/nu/tengstrand/tetrisanalyzer/TSpinTutor.java:302-323 | true iff every cell is on the board and free and one of them is grounded |
| Tutor.TSpinTutor.TryPlacement | TETRIS_AI4/src/main/scala/nu/tengstrand/tetrisanalyzer/TSpinTutor.java:302-327 | true iff the candidate is a setup; the board is unchanged and `pieceCopy` is unchanged or all `false` |
| Tutor.TSpinTutor.SearchRow | TETRIS_AI4/src/main/scala/nu/tengstrand/tetrisanalyzer/TSpinTutor.java:301-328 | appends exactly the row's setups, in column order; `pieceCopy` is unchanged or all `false` |
| Tutor.TSpinTutor.SearchRotation | TETRIS_AI4/src/main/scala/nu/tengstrand/tetrisanalyzer/TSpinTutor.java:299-329 | appends exactly the rotation's setups, row by row; `pieceCopy` is unchanged or all `false` |
| Tutor.TSpinTutor.SearchAll | TETRIS_AI4/src/main/scala/nu/tengstrand/tetrisanalyzer/TSpinTutor.java:298-330 | appends exactly the table's setups, rotation by rotation; `pieceCopy` is unchanged or all `false` |
| Tutor.TSpinTutor.SearchTSpinSetups | TETRIS_AI4/src/main/scala/nu/tengstrand/tetrisanalyzer/TSpinTutor.java:289-331 | `setups` becomes `SetupsOf(board, curBlock.pos)`, the board is unchanged, and `pieceCopy` is unchanged or all `false` |
| Worked.OpenSlotHasNone | TETRIS_AI4/src/main/scala/nu/tengstrand/tetrisanalyzer/TSpinTutor.java:358-362 | the example board holds no slot |
| Worked.TState0 | TETRIS_AI4/src/main/scala/nu/tengstrand/tetrisanalyzer/TSpinTutor.java:23 | state 0 of the T is its canonical cells |
| Worked.OpenSlotTSetup | TETRIS_AI4/src/main/scala/nu/tengstrand/tetrisanalyzer/TSpinTutor.java:302-327 | the T at rotation 0, anchor (16, 2), is a legal placement that creates a slot at window (17, 0) |
| Worked.TPieceSetup | TETRIS_AI4/src/main/scala/nu/tengstrand/tetrisanalyzer/TSpinTutor.java:289-331 | the search specification reports (0, 16, 2) for the T on that board |

## Left out

- The overlay window, screen capture, pixel classification, fonts, drawing,
  the frame timer and random numbers are I/O and timing around the engine.
  The board value and the piece in play are the model's inputs.
- `determineCurrentTetrimino` and the other writes of `curBlock`, `nextBlock`
  and the shadow arrays belong to the screen classifier, so they are not
  modelled. `curBlock` is a field that the search only reads.
- `showDebugInfo` and the debug drawing are display concerns.
- Java's flat `int[8]` rows of `pos` are a sequence of four `Cell`s.
  `setups.clear()` and `setups.add(...)` are reassignments of the `seq`
  field.
- Tutor.TSpinTutor.SearchRow: the search calls `ContainsTSpinWith` directly
  with the cells of the rotation state it holds, instead of calling
  `boardContainsTSpin(true, x, y, i)`. Both write, scan and restore the same
  four cells, because the state is `curBlock.pos[i]`. The call goes through
  `TryPlacement`, which also runs the legality test.
- Tutor.TSpinTutor.IsLegalPlacement: Java's `continue boardIter` is an
  early `return false`.
- Tutor.TSpinTutor.BoardContainsTSpin: with `useNewBlock`, the method
  requires the four cells to be on the board. The source would throw
  `ArrayIndexOutOfBoundsException` otherwise, and its only caller checks
  the bounds first.
- Tutor.TSpinTutor.SearchTSpinSetups: `boardState`, `boardPieceCopy` and
  `setups` are static fields of one class in the source and fields of one
  object here. Other code that writes them between calls is not part of
  this model.
