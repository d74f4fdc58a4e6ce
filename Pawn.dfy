/**
 * Pawn movement: one step forward, two from the home row, or one step diagonally forward
 * onto an enemy piece. Forward moves need every square they pass over, the end included,
 * to be empty.
 */
module PawnRules {
  import opened Results
  import opened Coordinates
  import opened Pieces
  import opened Grids
  import opened Squares
  import opened Boards

  /** White pawns advance toward row 0, black pawns toward row 7. */
  function Direction(p: Piece): (d: int)
    ensures d == -1 || d == 1
    ensures d == -1 <==> p.color == White
  {
    if IsWhite(p) then -1 else 1
  }

  /** The home row, from which a double step is allowed: row 6 for white, row 1 for black. */
  predicate IsInitPosition(p: Piece, x: int, y: int)
  {
    (IsWhite(p) && x == 6) || (!IsWhite(p) && x == 1)
  }

  /** Whether `to` lies ahead of, or on, `from` when travelling in direction `dir`. */
  predicate Ahead(from: int, to: int, dir: int)
  {
    (dir == 1 && from <= to) || (dir == -1 && to <= from)
  }

  /** The rows after `x` up to and including `endX`, stepping by `dir`, are empty in column `y`. */
  function ColumnClear(g: Grid, y: int, x: int, endX: int, dir: int): bool
    requires IsGrid(g) && 0 <= y < 8 && 0 <= x < 8 && 0 <= endX < 8 && Ahead(x, endX, dir)
    decreases if dir == 1 then endX - x else x - endX
  {
    x == endX || (At(g, Coords(x + dir, y)) == None && ColumnClear(g, y, x + dir, endX, dir))
  }

  /** The same condition without recursion: every row strictly past `x`, up to `endX` inclusive, is empty. */
  lemma {:induction false} ColumnClearIff(g: Grid, y: int, x: int, endX: int, dir: int)
    requires IsGrid(g) && 0 <= y < 8 && 0 <= x < 8 && 0 <= endX < 8 && Ahead(x, endX, dir)
    ensures ColumnClear(g, y, x, endX, dir) <==>
      forall r :: Ahead(x + dir, r, dir) && Ahead(r, endX, dir) ==> At(g, Coords(r, y)) == None
    decreases if dir == 1 then endX - x else x - endX
  {
    if x != endX {
      ColumnClearIff(g, y, x + dir, endX, dir);
    }
  }

  /** A forward move: the same column, one step, or two from the home row, over empty squares. */
  predicate ValidForwardMove(g: Grid, p: Piece, s: Coords, e: Coords)
    requires IsGrid(g) && InBounds(s) && InBounds(e)
  {
    (e.x - s.x == Direction(p) || (e.x - s.x == 2 * Direction(p) && IsInitPosition(p, s.x, s.y))) &&
    s.y == e.y &&
    ColumnClear(g, s.y, s.x, e.x, Direction(p))
  }

  /** A capture: one row forward, one column aside, onto a piece of the other colour. */
  predicate IsValidCaptureMove(p: Piece, capturable: Option<Piece>, s: Coords, e: Coords)
  {
    capturable != None &&
    IsWhite(capturable.value) != IsWhite(p) &&
    e.x - s.x == Direction(p) &&
    Abs(e.y - s.y) == 1
  }

  predicate ValidMove(g: Grid, p: Piece, s: Coords, e: Coords)
    requires IsGrid(g) && InBounds(s) && InBounds(e)
  {
    ValidForwardMove(g, p, s, e) || IsValidCaptureMove(p, At(g, e), s, e)
  }

  /** A forward move never ends on an occupied square: the scan covers the end square. */
  lemma ForwardLandsOnEmpty(g: Grid, p: Piece, s: Coords, e: Coords)
    requires IsGrid(g) && InBounds(s) && InBounds(e)
    requires ValidForwardMove(g, p, s, e)
    ensures At(g, e) == None
  {
    ColumnClearIff(g, s.y, s.x, e.x, Direction(p));
    assert Ahead(s.x + Direction(p), e.x, Direction(p)) && Ahead(e.x, e.x, Direction(p));
  }

  /**
   * The pawn's moves spelled out: a single step onto an empty square, a double step from
   * the home row over two empty squares, or a diagonal step onto an enemy piece.
   */
  lemma ValidMoveIff(g: Grid, p: Piece, s: Coords, e: Coords)
    requires IsGrid(g) && InBounds(s) && InBounds(e)
    ensures ValidMove(g, p, s, e) <==>
      (s.y == e.y && e.x - s.x == Direction(p) && At(g, e) == None) ||
      (s.y == e.y && e.x - s.x == 2 * Direction(p) && IsInitPosition(p, s.x, s.y) &&
        At(g, Coords(s.x + Direction(p), s.y)) == None && At(g, e) == None) ||
      (e.x - s.x == Direction(p) && Abs(e.y - s.y) == 1 && At(g, e) != None && At(g, e).value.color != p.color)
  {
    var d := Direction(p);
    if s.y == e.y && e.x - s.x == 2 * d && IsInitPosition(p, s.x, s.y) {
      var mid := s.x + d;
      assert ColumnClear(g, s.y, mid, e.x, d) <==> At(g, e) == None && ColumnClear(g, s.y, e.x, e.x, d);
      assert ColumnClear(g, s.y, s.x, e.x, d) <==>
        At(g, Coords(mid, s.y)) == None && ColumnClear(g, s.y, mid, e.x, d);
    } else if s.y == e.y && e.x - s.x == d {
      assert ColumnClear(g, s.y, s.x, e.x, d) <==> At(g, e) == None && ColumnClear(g, s.y, e.x, e.x, d);
    }
  }

  /** A pawn never moves onto a piece of its own colour. */
  lemma NeverOntoOwnColour(g: Grid, p: Piece, s: Coords, e: Coords)
    requires IsGrid(g) && InBounds(s) && InBounds(e)
    requires ValidMove(g, p, s, e)
    ensures At(g, e) == None || At(g, e).value.color != p.color
  {
    if ValidForwardMove(g, p, s, e) {
      ForwardLandsOnEmpty(g, p, s, e);
    }
  }

  /** The scan of the forward path: reports an occupied square between the start (excluded) and the end (included). */
  method ForwardPathBlocked(b: Board, p: Piece, s: Coords, e: Coords) returns (blocked: bool)
    requires b.Valid() && InBounds(s) && InBounds(e) && Ahead(s.x, e.x, Direction(p))
    ensures blocked == !ColumnClear(b.Grid(), s.y, s.x, e.x, Direction(p))
  {
    var xPos := s.x;
    while xPos != e.x
      invariant 0 <= xPos < 8 && Ahead(xPos, e.x, Direction(p))
      invariant ColumnClear(b.Grid(), s.y, s.x, e.x, Direction(p)) == ColumnClear(b.Grid(), s.y, xPos, e.x, Direction(p))
      decreases if Direction(p) == 1 then e.x - xPos else xPos - e.x
    {
      var square := b.GetSquare(xPos + Direction(p), s.y);
      if !square.value.IsEmpty() {
        return true;
      }
      xPos := xPos + Direction(p);
    }
    return false;
  }

  method IsValidForwardMove(b: Board, p: Piece, s: Coords, e: Coords) returns (ok: bool)
    requires b.Valid() && InBounds(s) && InBounds(e)
    ensures ok == ValidForwardMove(b.Grid(), p, s, e)
  {
    ok := (e.x - s.x == Direction(p) || (e.x - s.x == 2 * Direction(p) && IsInitPosition(p, s.x, s.y))) && s.y == e.y;
    if ok {
      var blocked := ForwardPathBlocked(b, p, s, e);
      ok := !blocked;
    }
  }

  /** The pawn's verdict on the current board: a forward move or a capture. */
  method IsMoveValid(b: Board, p: Piece, s: Coords, e: Coords) returns (ok: bool)
    requires b.Valid() && InBounds(s) && InBounds(e)
    ensures ok == ValidMove(b.Grid(), p, s, e)
  {
    ok := IsValidForwardMove(b, p, s, e);
    if !ok {
      ok := IsValidCaptureMove(p, b.GetSquareAt(e).value.GetPiece(), s, e);
    }
  }
}
