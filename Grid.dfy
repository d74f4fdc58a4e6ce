/**
 * The occupancy of the board as a value: `g[x][y]` is the piece on row `x`, column `y`,
 * if any. The board object exposes its current occupancy in this form, and the movement
 * rules are stated over it.
 */
module Grids {
  import opened Results
  import opened Coordinates
  import opened Pieces

  type Grid = seq<seq<Option<Piece>>>

  /** Eight rows of eight cells. */
  predicate IsGrid(g: Grid)
  {
    |g| == 8 && forall x :: 0 <= x < 8 ==> |g[x]| == 8
  }

  function At(g: Grid, c: Coords): Option<Piece>
    requires IsGrid(g) && InBounds(c)
  {
    g[c.x][c.y]
  }

  /** Two grids that agree on every cell are the same grid. */
  lemma Extensionality(g: Grid, h: Grid)
    requires IsGrid(g) && IsGrid(h)
    requires forall c :: InBounds(c) ==> At(g, c) == At(h, c)
    ensures g == h
  {
    forall x | 0 <= x < 8
      ensures g[x] == h[x]
    {
      forall y | 0 <= y < 8
        ensures g[x][y] == h[x][y]
      {
        assert At(g, Coords(x, y)) == At(h, Coords(x, y));
      }
    }
  }

  /** The grid with one cell overwritten. */
  function Put(g: Grid, c: Coords, v: Option<Piece>): (r: Grid)
    requires IsGrid(g) && InBounds(c)
    ensures IsGrid(r)
    ensures forall d :: InBounds(d) ==> At(r, d) == if d == c then v else At(g, d)
  {
    g[c.x := g[c.x][c.y := v]]
  }

  /**
   * The occupancy after relocating the occupant of `s` to `e`: the end square is
   * overwritten with the start's occupant first, and the start is cleared afterwards,
   * so when `s == e` the occupant is lost.
   */
  function Relocate(g: Grid, s: Coords, e: Coords): (r: Grid)
    requires IsGrid(g) && InBounds(s) && InBounds(e)
    ensures IsGrid(r)
    ensures At(r, s) == None
    ensures s != e ==> At(r, e) == At(g, s)
    ensures forall d :: InBounds(d) && d != s && d != e ==> At(r, d) == At(g, d)
  {
    Put(Put(g, e, At(g, s)), s, None)
  }

  function Occupied(v: Option<Piece>): nat
  {
    if v.Some? then 1 else 0
  }

  /** The number of occupied cells of one row. */
  function RowCount(row: seq<Option<Piece>>): nat
  {
    if row == [] then 0 else Occupied(row[0]) + RowCount(row[1..])
  }

  /** The number of pieces on the board. */
  function PieceCount(g: Grid): nat
  {
    if g == [] then 0 else RowCount(g[0]) + PieceCount(g[1..])
  }

  lemma {:induction false} RowCountUpdate(row: seq<Option<Piece>>, i: int, v: Option<Piece>)
    requires 0 <= i < |row|
    ensures RowCount(row[i := v]) == RowCount(row) - Occupied(row[i]) + Occupied(v)
  {
    if i == 0 {
      assert row[i := v][1..] == row[1..];
    } else {
      assert row[i := v][1..] == row[1..][i - 1 := v];
      RowCountUpdate(row[1..], i - 1, v);
    }
  }

  lemma {:induction false} PieceCountUpdate(g: Grid, i: int, row: seq<Option<Piece>>)
    requires 0 <= i < |g|
    ensures PieceCount(g[i := row]) == PieceCount(g) - RowCount(g[i]) + RowCount(row)
  {
    if i == 0 {
      assert g[i := row][1..] == g[1..];
    } else {
      assert g[i := row][1..] == g[1..][i - 1 := row];
      PieceCountUpdate(g[1..], i - 1, row);
    }
  }

  /** Overwriting one cell changes the count by the difference of the two occupants. */
  lemma PutCount(g: Grid, c: Coords, v: Option<Piece>)
    requires IsGrid(g) && InBounds(c)
    ensures PieceCount(Put(g, c, v)) == PieceCount(g) - Occupied(At(g, c)) + Occupied(v)
  {
    RowCountUpdate(g[c.x], c.y, v);
    PieceCountUpdate(g, c.x, g[c.x][c.y := v]);
  }

  /**
   * A relocation between two different squares removes exactly the end square's former
   * occupant; a relocation of a square onto itself removes its occupant.
   */
  lemma RelocateCount(g: Grid, s: Coords, e: Coords)
    requires IsGrid(g) && InBounds(s) && InBounds(e)
    ensures s != e ==> PieceCount(Relocate(g, s, e)) == PieceCount(g) - Occupied(At(g, e))
    ensures s == e ==> PieceCount(Relocate(g, s, e)) == PieceCount(g) - Occupied(At(g, s))
  {
    var g1 := Put(g, e, At(g, s));
    PutCount(g, e, At(g, s));
    PutCount(g1, s, None);
  }

  /** The kinds on a back rank, column by column. */
  function BackRankKind(y: int): PieceType
    requires 0 <= y < 8
  {
    [Rook, Knight, Bishop, Queen, King, Bishop, Knight, Rook][y]
  }

  /**
   * The starting occupant of a cell: black back rank on row 0, black pawns on row 1,
   * white pawns on row 6, white back rank on row 7, nothing on rows 2 to 5.
   */
  function InitialAt(x: int, y: int): Option<Piece>
    requires 0 <= x < 8 && 0 <= y < 8
  {
    if x == 0 then Some(Piece(Black, BackRankKind(y)))
    else if x == 1 then Some(Piece(Black, Pawn))
    else if x == 6 then Some(Piece(White, Pawn))
    else if x == 7 then Some(Piece(White, BackRankKind(y)))
    else None
  }

  function InitialGrid(): (g: Grid)
    ensures IsGrid(g)
    ensures forall c :: InBounds(c) ==> At(g, c) == InitialAt(c.x, c.y)
  {
    seq(8, x requires 0 <= x < 8 => seq(8, y requires 0 <= y < 8 => InitialAt(x, y)))
  }

  /** A row whose cells are all occupied counts all of them; an empty row counts none. */
  lemma {:induction false} RowCountUniform(row: seq<Option<Piece>>)
    ensures (forall i :: 0 <= i < |row| ==> row[i].Some?) ==> RowCount(row) == |row|
    ensures (forall i :: 0 <= i < |row| ==> row[i].None?) ==> RowCount(row) == 0
  {
    if row != [] {
      RowCountUniform(row[1..]);
      assert forall i :: 0 <= i < |row| - 1 ==> row[1..][i] == row[i + 1];
    }
  }

  /** A game starts with 32 pieces: two full rows per side and four empty rows between. */
  lemma InitialPieceCount()
    ensures PieceCount(InitialGrid()) == 32
  {
    var g := InitialGrid();
    forall x | 0 <= x < 8
      ensures RowCount(g[x]) == if x < 2 || x >= 6 then 8 else 0
    {
      assert forall y :: 0 <= y < 8 ==> g[x][y] == At(g, Coords(x, y));
      RowCountUniform(g[x]);
    }
    assert g[7..][1..] == [];
    assert g[6..][1..] == g[7..];
    assert g[5..][1..] == g[6..];
    assert g[4..][1..] == g[5..];
    assert g[3..][1..] == g[4..];
    assert g[2..][1..] == g[3..];
    assert g[1..][1..] == g[2..];
  }
}
