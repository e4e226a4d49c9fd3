/** Piece geometry: the seven tetriminoes, their canonical cells and the
    four rotation states derived from them by closed-form index arithmetic. */
module Geometry {

  /** The seven piece types, in the order the enum declares them. */
  datatype Tetrimino = I | O | T | S | Z | J | L

  /** A cell offset relative to a piece anchor. The source stores each pair
      as (x, y) and uses x as the row and y as the column. */
  datatype Cell = Cell(row: int, col: int)

  function Max(a: int, b: int): (m: int)
    ensures m >= a && m >= b && (m == a || m == b)
  {
    if a >= b then a else b
  }

  /** The largest row offset of a four-cell shape (`maxX`). */
  function MaxRow(s: seq<Cell>): (m: int)
    requires |s| == 4
    ensures forall k :: 0 <= k < 4 ==> s[k].row <= m
    ensures exists k :: 0 <= k < 4 && s[k].row == m
  {
    Max(Max(Max(s[0].row, s[1].row), s[2].row), s[3].row)
  }

  /** The largest column offset of a four-cell shape (`maxY`). */
  function MaxCol(s: seq<Cell>): (m: int)
    requires |s| == 4
    ensures forall k :: 0 <= k < 4 ==> s[k].col <= m
    ensures exists k :: 0 <= k < 4 && s[k].col == m
  {
    Max(Max(Max(s[0].col, s[1].col), s[2].col), s[3].col)
  }

  /** The canonical (rotation 0) cells of each piece. */
  function Canonical(p: Tetrimino): (s: seq<Cell>)
    ensures |s| == 4
  {
    match p
    case I => [Cell(0, 0), Cell(1, 0), Cell(2, 0), Cell(3, 0)]
    case O => [Cell(0, 0), Cell(1, 0), Cell(0, 1), Cell(1, 1)]
    case T => [Cell(0, 1), Cell(1, 0), Cell(1, 1), Cell(1, 2)]
    case S => [Cell(0, 0), Cell(1, 0), Cell(1, 1), Cell(2, 1)]
    case Z => [Cell(0, 1), Cell(1, 1), Cell(1, 0), Cell(2, 0)]
    case J => [Cell(0, 0), Cell(0, 1), Cell(0, 2), Cell(1, 2)]
    case L => [Cell(1, 0), Cell(1, 1), Cell(1, 2), Cell(0, 2)]
  }

  /** One cell of rotation state `k`, given the canonical bounding box. */
  function Oriented(c: Cell, k: nat, maxX: int, maxY: int): Cell
    requires k < 4
  {
    if k == 0 then c
    else if k == 1 then Cell(c.col, maxX - c.row)
    else if k == 2 then Cell(maxX - c.row, maxY - c.col)
    else Cell(maxY - c.col, c.row)
  }

  /** Rotation state `k` of a four-cell canonical shape, as the enum
      constructor builds row `k` of its `pos` table. */
  function State(s: seq<Cell>, k: nat): (r: seq<Cell>)
    requires |s| == 4 && k < 4
    ensures |r| == 4
  {
    var maxX, maxY := MaxRow(s), MaxCol(s);
    seq(4, j requires 0 <= j < 4 => Oriented(s[j], k, maxX, maxY))
  }

  /** The whole `pos` table of a shape: its four rotation states. */
  function Rotations(s: seq<Cell>): (table: seq<seq<Cell>>)
    requires |s| == 4
    ensures |table| == 4
    ensures forall k :: 0 <= k < 4 ==> |table[k]| == 4
    ensures table[0] == s
  {
    [State(s, 0), State(s, 1), State(s, 2), State(s, 3)]
  }

  /** The `pos` table of piece `p`: its four rotation states. */
  function PosTable(p: Tetrimino): (table: seq<seq<Cell>>)
    ensures |table| == 4
    ensures forall k :: 0 <= k < 4 ==> |table[k]| == 4
  {
    Rotations(Canonical(p))
  }

  /** The geometric quarter turn about a shape's own bounding box:
      (x, y) goes to (y, maxX - x). */
  function Rotate(s: seq<Cell>): (r: seq<Cell>)
    requires |s| == 4
    ensures |r| == 4
  {
    var maxX := MaxRow(s);
    seq(4, j requires 0 <= j < 4 => Cell(s[j].col, maxX - s[j].row))
  }

  /** The larger side of a shape's bounding box, max(maxX, maxY). */
  function Extent(s: seq<Cell>): int
    requires |s| == 4
  {
    Max(MaxRow(s), MaxCol(s))
  }

  /** Four non-negative cells whose least row and least column are 0. */
  predicate Normalized(s: seq<Cell>) {
    |s| == 4
    && (forall k :: 0 <= k < 4 ==> s[k].row >= 0 && s[k].col >= 0)
    && (exists k :: 0 <= k < 4 && s[k].row == 0)
    && (exists k :: 0 <= k < 4 && s[k].col == 0)
  }

  /** The cells of a shape are pairwise distinct. */
  predicate Distinct(s: seq<Cell>) {
    forall a, b :: 0 <= a < b < |s| ==> s[a] != s[b]
  }

  /** Every canonical piece is normalised and has four distinct cells. */
  lemma CanonicalWellFormed(p: Tetrimino)
    ensures Normalized(Canonical(p)) && Distinct(Canonical(p))
  {
    var s := Canonical(p);
    match p
    case I => assert s[0].row == 0 && s[0].col == 0;
    case O => assert s[0].row == 0 && s[0].col == 0;
    case T => assert s[0].row == 0 && s[1].col == 0;
    case S => assert s[0].row == 0 && s[0].col == 0;
    case Z => assert s[0].row == 0 && s[2].col == 0;
    case J => assert s[0].row == 0 && s[0].col == 0;
    case L => assert s[3].row == 0 && s[0].col == 0;
  }

  /** Offset bounds: every cell of every state of a non-negative shape lies in
      [0, max(maxX, maxY)] on both axes. */
  lemma StateBounds(s: seq<Cell>, k: nat)
    requires Normalized(s) && k < 4
    ensures |State(s, k)| == 4
    ensures forall j :: 0 <= j < 4 ==>
      0 <= State(s, k)[j].row <= Extent(s) &&
      0 <= State(s, k)[j].col <= Extent(s)
  {
    var maxX, maxY := MaxRow(s), MaxCol(s);
    forall j | 0 <= j < 4
      ensures 0 <= State(s, k)[j].row <= Extent(s)
      ensures 0 <= State(s, k)[j].col <= Extent(s)
    {
      assert 0 <= s[j].row <= maxX && 0 <= s[j].col <= maxY;
    }
  }

  /** Each state's cell map is injective. */
  lemma OrientedInjective(c: Cell, d: Cell, k: nat, maxX: int, maxY: int)
    requires k < 4 && c != d
    ensures Oriented(c, k, maxX, maxY) != Oriented(d, k, maxX, maxY)
  {
    if k == 1 || k == 2 || k == 3 {
      assert c.row != d.row || c.col != d.col;
    }
  }

  /** Distinct cells: each state of a shape with distinct cells has distinct
      cells. */
  lemma StateDistinct(s: seq<Cell>, k: nat)
    requires |s| == 4 && Distinct(s) && k < 4
    ensures Distinct(State(s, k))
  {
    var maxX, maxY := MaxRow(s), MaxCol(s);
    forall a, b | 0 <= a < b < 4 ensures State(s, k)[a] != State(s, k)[b] {
      OrientedInjective(s[a], s[b], k, maxX, maxY);
    }
  }

  /** The bounding box of each state: states 1 and 3 swap the two extents. */
  lemma StateExtents(s: seq<Cell>)
    requires Normalized(s)
    ensures MaxRow(State(s, 1)) == MaxCol(s)
    ensures MaxRow(State(s, 2)) == MaxRow(s)
    ensures MaxRow(State(s, 3)) == MaxCol(s)
  {
    var maxX, maxY := MaxRow(s), MaxCol(s);
    var kr :| 0 <= kr < 4 && s[kr].row == 0;
    var kc :| 0 <= kc < 4 && s[kc].col == 0;
    var kx :| 0 <= kx < 4 && s[kx].row == maxX;
    var ky :| 0 <= ky < 4 && s[ky].col == maxY;
    var s1, s2, s3 := State(s, 1), State(s, 2), State(s, 3);
    assert s1[ky].row == maxY;
    assert s2[kr].row == maxX;
    assert s3[kc].row == maxY;
    assert forall j :: 0 <= j < 4 ==> s1[j].row <= maxY && s2[j].row <= maxX && s3[j].row <= maxY;
  }

  /** Rotation closure: the quarter turn, taken about the bounding box of the
      state it is applied to, carries state k to state k + 1 (mod 4). */
  lemma RotationClosure(s: seq<Cell>, k: nat)
    requires Normalized(s) && k < 4
    ensures Rotate(State(s, k)) == State(s, (k + 1) % 4)
  {
    StateExtents(s);
    var maxX, maxY := MaxRow(s), MaxCol(s);
    var src, dst := State(s, k), State(s, (k + 1) % 4);
    forall j | 0 <= j < 4 ensures Rotate(src)[j] == dst[j] {
      if k == 0 {
        assert MaxRow(src) == maxX;
      }
    }
  }

  /** Four quarter turns return the canonical cells. */
  lemma FourTurnsIdentity(s: seq<Cell>)
    requires Normalized(s)
    ensures Rotate(Rotate(Rotate(Rotate(s)))) == s
  {
    var s0, s1, s2, s3 := State(s, 0), State(s, 1), State(s, 2), State(s, 3);
    assert s0 == s;
    RotationClosure(s, 0);
    assert Rotate(s) == s1;
    RotationClosure(s, 1);
    assert Rotate(s1) == s2;
    RotationClosure(s, 2);
    assert Rotate(s2) == s3;
    RotationClosure(s, 3);
    assert Rotate(s3) == s0;
  }

  /** Offset bounds, distinctness and rotation closure for every state of a
      normalised shape with distinct cells. */
  lemma RotationsWellFormed(s: seq<Cell>, k: nat)
    requires Normalized(s) && Distinct(s) && k < 4
    ensures |Rotations(s)[k]| == 4 && Distinct(Rotations(s)[k])
    ensures forall j :: 0 <= j < 4 ==>
      0 <= Rotations(s)[k][j].row <= Extent(s) &&
      0 <= Rotations(s)[k][j].col <= Extent(s)
    ensures Rotate(Rotations(s)[k]) == Rotations(s)[(k + 1) % 4]
  {
    assert Rotations(s)[k] == State(s, k);
    assert Rotations(s)[(k + 1) % 4] == State(s, (k + 1) % 4);
    StateBounds(s, k);
    StateDistinct(s, k);
    RotationClosure(s, k);
  }

  /** Each state of every piece has four distinct cells. */
  lemma PosDistinct(p: Tetrimino, k: nat)
    requires k < 4
    ensures |PosTable(p)[k]| == 4 && Distinct(PosTable(p)[k])
  {
    var s := Canonical(p);
    CanonicalWellFormed(p);
    RotationsWellFormed(s, k);
  }

  /** The quarter turn carries each state of every piece to the next one. */
  lemma PosClosure(p: Tetrimino, k: nat)
    requires k < 4
    ensures Rotate(PosTable(p)[k]) == PosTable(p)[(k + 1) % 4]
  {
    var s := Canonical(p);
    CanonicalWellFormed(p);
    RotationsWellFormed(s, k);
  }

  /** Every offset of every piece state is non-negative and at most
      max(maxX, maxY) of the canonical cells. */
  lemma PosBounds(p: Tetrimino, k: nat)
    requires k < 4
    ensures forall j :: 0 <= j < 4 ==>
      0 <= PosTable(p)[k][j].row <= Extent(Canonical(p)) &&
      0 <= PosTable(p)[k][j].col <= Extent(Canonical(p))
  {
    var s := Canonical(p);
    CanonicalWellFormed(p);
    RotationsWellFormed(s, k);
  }
}
