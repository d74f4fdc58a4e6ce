/** Bishop movement: any distance along a diagonal, with every square in between empty. */
module BishopRules {
  import opened Results
  import opened Coordinates
  import opened Pieces
  import opened Grids
  import opened Squares
  import opened Boards
  import opened PieceRules

  /** The step, +1 or -1, that leads from `a` toward `b` on one axis (-1 when they are equal). */
  function Step(a: int, b: int): (d: int)
    ensures d == 1 || d == -1
    ensures d == 1 <==> b > a
  {
    if b - a > 0 then 1 else -1
  }

  /** The coordinate `k` steps away from `a` in direction `d`. */
  function Shift(a: int, k: int, d: int): int
  {
    if d == 1 then a + k else a - k
  }

  /** The square `k` diagonal steps away from `c` in direction (dx, dy). */
  function Diag(c: Coords, k: int, dx: int, dy: int): Coords
  {
    Coords(Shift(c.x, k, dx), Shift(c.y, k, dy))
  }

  /** The occupant of `c`, or nothing when `c` is off the board. */
  function CellAt(g: Grid, c: Coords): (r: Option<Piece>)
    requires IsGrid(g)
    ensures !InBounds(c) ==> r == None
    ensures InBounds(c) ==> r == At(g, c)
  {
    if InBounds(c) then At(g, c) else None
  }

  /** The squares `k`, `k + 1`, ..., `n - 1` diagonal steps away from `s` are all empty. */
  function ClearFrom(g: Grid, s: Coords, dx: int, dy: int, k: int, n: int): bool
    requires IsGrid(g)
    decreases n - k
  {
    k >= n || (CellAt(g, Diag(s, k, dx, dy)) == None && ClearFrom(g, s, dx, dy, k + 1, n))
  }

  /** The same condition without recursion. */
  lemma {:induction false} ClearFromIff(g: Grid, s: Coords, dx: int, dy: int, k: int, n: int)
    requires IsGrid(g)
    ensures ClearFrom(g, s, dx, dy, k, n) <==> forall j :: k <= j < n ==> CellAt(g, Diag(s, j, dx, dy)) == None
    decreases n - k
  {
    if k < n {
      ClearFromIff(g, s, dx, dy, k + 1, n);
    }
  }

  /** Every square strictly between two ends of a diagonal is on the board. */
  lemma BetweenOnBoard(s: Coords, e: Coords, j: int)
    requires InBounds(s) && InBounds(e) && Abs(e.x - s.x) == Abs(e.y - s.y)
    requires 0 <= j <= Abs(e.x - s.x)
    ensures InBounds(Diag(s, j, Step(s.x, e.x), Step(s.y, e.y)))
  {
  }

  /**
   * The bishop's rule: a diagonal move of positive length, onto a square without a piece
   * of its own colour, with every square strictly between start and end empty.
   */
  predicate ValidMove(g: Grid, p: Piece, s: Coords, e: Coords)
    requires IsGrid(g) && InBounds(s) && InBounds(e)
  {
    var diffX, diffY := Abs(e.x - s.x), Abs(e.y - s.y);
    diffX == diffY && diffX > 0 &&
    NotCapturingOwnPiece(p, At(g, e)) &&
    ClearFrom(g, s, Step(s.x, e.x), Step(s.y, e.y), 1, diffX)
  }

  /** The rule in closed form, with the squares in between named one by one. */
  lemma ValidMoveIff(g: Grid, p: Piece, s: Coords, e: Coords)
    requires IsGrid(g) && InBounds(s) && InBounds(e)
    ensures ValidMove(g, p, s, e) <==>
      Abs(e.x - s.x) == Abs(e.y - s.y) > 0 &&
      NotCapturingOwnPiece(p, At(g, e)) &&
      forall j :: 0 < j < Abs(e.x - s.x) ==>
        InBounds(Diag(s, j, Step(s.x, e.x), Step(s.y, e.y))) &&
        At(g, Diag(s, j, Step(s.x, e.x), Step(s.y, e.y))) == None
  {
    var n := Abs(e.x - s.x);
    var dx, dy := Step(s.x, e.x), Step(s.y, e.y);
    ClearFromIff(g, s, dx, dy, 1, n);
    if Abs(e.x - s.x) == Abs(e.y - s.y) {
      forall j | 0 < j < n
        ensures InBounds(Diag(s, j, dx, dy))
      {
        BetweenOnBoard(s, e, j);
      }
    }
  }

  /** The scan of the diagonal: reports an occupied square strictly between start and end. */
  method PathBlocked(b: Board, s: Coords, e: Coords) returns (blocked: bool)
    requires b.Valid() && InBounds(s) && InBounds(e) && Abs(e.x - s.x) == Abs(e.y - s.y) > 0
    ensures blocked == !ClearFrom(b.Grid(), s, Step(s.x, e.x), Step(s.y, e.y), 1, Abs(e.x - s.x))
  {
    var dirX := if e.x - s.x > 0 then 1 else -1;
    var dirY := if e.y - s.y > 0 then 1 else -1;
    ghost var n, g := Abs(e.x - s.x), b.Grid();
    assert dirX == Step(s.x, e.x) && dirY == Step(s.y, e.y);
    var xPos, yPos := s.x + dirX, s.y + dirY;
    ghost var k := 1;
    while xPos != e.x || yPos != e.y
      invariant 1 <= k <= n
      invariant Coords(xPos, yPos) == Diag(s, k, dirX, dirY)
      invariant ClearFrom(g, s, dirX, dirY, 1, n) == ClearFrom(g, s, dirX, dirY, k, n)
      decreases n - k
    {
      var square := b.GetSquare(xPos, yPos);
      if !square.value.IsEmpty() {
        return true;
      }
      xPos, yPos, k := xPos + dirX, yPos + dirY, k + 1;
    }
    return false;
  }

  /** The bishop's verdict on the current board. */
  method IsMoveValid(b: Board, p: Piece, s: Coords, e: Coords) returns (ok: bool)
    requires b.Valid() && InBounds(s) && InBounds(e)
    ensures ok == ValidMove(b.Grid(), p, s, e)
  {
    var diffX := Abs(e.x - s.x);
    var diffY := Abs(e.y - s.y);
    ok := diffX == diffY && diffX > 0;
    if ok {
      ok := NotCapturingOwnPieceOn(b, p, e);
    }
    if ok {
      var blocked := PathBlocked(b, s, e);
      ok := !blocked;
    }
  }
}
