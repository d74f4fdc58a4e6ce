/**
 * The 8x8 board: every cell holds its own `Square` object, created once when the board
 * is laid out. Lookup is bounds-checked; `MakeMove` relocates one occupant.
 */
module Boards {
  import opened Results
  import opened Coordinates
  import opened Pieces
  import opened Grids
  import opened Squares

  const ROWS := 8
  const COLUMNS := 8

  /** The receipt of a relocation: both squares, the piece moved and the one displaced. */
  datatype Move = Move(startSquare: Square, endSquare: Square, pieceMoved: Piece, pieceCaptured: Option<Piece>)

  /** The rows a side starts on: its back rank, then its pawn row. */
  function FirstRow(c: Color): int
  {
    if c == Black then 0 else 7
  }

  function SecondRow(c: Color): int
  {
    if c == Black then 1 else 6
  }

  class Board {
    const squares: array2<Square?>
    /** Where each square of the board sits; keeps the 64 squares distinct. */
    ghost var Position: map<Square, Coords>

    /** Every square placed so far is recorded at its own coordinates. */
    ghost predicate Partial()
      reads this, squares
    {
      squares.Length0 == ROWS && squares.Length1 == COLUMNS &&
      forall x, y :: 0 <= x < ROWS && 0 <= y < COLUMNS && squares[x, y] != null ==>
        squares[x, y] in Position && Position[squares[x, y]] == Coords(x, y)
    }

    /** All 64 cells hold a square, and no square sits in two cells. */
    ghost predicate Valid()
      reads this, squares
    {
      Partial() &&
      forall x, y :: 0 <= x < ROWS && 0 <= y < COLUMNS ==> squares[x, y] != null
    }

    /** The current occupancy of the board. */
    ghost function Grid(): (g: Grid)
      reads this, squares, Position.Keys
      requires Valid()
      ensures IsGrid(g)
      ensures forall c :: InBounds(c) ==> At(g, c) == squares[c.x, c.y].piece
    {
      Rows(8)
    }

    /** The first `n` rows of the occupancy. */
    ghost function Rows(n: nat): (g: seq<seq<Option<Piece>>>)
      reads this, squares, Position.Keys
      requires Valid() && n <= 8
      ensures |g| == n
      ensures forall x :: 0 <= x < n ==> |g[x]| == 8 && forall y :: 0 <= y < 8 ==> g[x][y] == squares[x, y].piece
    {
      if n == 0 then [] else Rows(n - 1) + [Cells(n - 1, 8)]
    }

    /** The first `n` cells of row `x`. */
    ghost function Cells(x: nat, n: nat): (r: seq<Option<Piece>>)
      reads this, squares, Position.Keys
      requires Valid() && x < 8 && n <= 8
      ensures |r| == n
      ensures forall y :: 0 <= y < n ==> r[y] == squares[x, y].piece
    {
      if n == 0 then [] else Cells(x, n - 1) + [squares[x, n - 1].piece]
    }

    /** Bounds-checked lookup: fails outside rows and columns 0..7, otherwise the cell's square. */
    function GetSquare(x: int, y: int): (r: Result<Square, Failure>)
      reads this, squares
      requires Valid()
      ensures r.Ok? <==> 0 <= x <= 7 && 0 <= y <= 7
      ensures r.Err? ==> r.error == IndexOutOfBound
      ensures r.Ok? ==> r.value == squares[x, y] && r.value in Position && Position[r.value] == Coords(x, y)
    {
      if x < 0 || x > 7 || y < 0 || y > 7 then Err(IndexOutOfBound) else Ok(squares[x, y])
    }

    /** The same lookup addressed by a coordinate pair; its square holds the occupant of that cell. */
    function GetSquareAt(c: Coords): (r: Result<Square, Failure>)
      reads this, squares
      requires Valid()
      ensures r == GetSquare(c.x, c.y)
      ensures r.Ok? <==> InBounds(c)
      ensures r.Ok? ==> r.value.piece == At(Grid(), c)
    {
      GetSquare(c.x, c.y)
    }

    /**
     * Relocation: the end square receives the start square's occupant and the start square
     * is cleared, in that order; the displaced occupant is reported as captured. The receipt
     * demands a moved piece, so an empty start, or a start that is the end itself (whose
     * occupant is cleared by the second write), fails after both writes are done.
     * When the two squares are the board's own, at cells `s` and `e`, the occupancy
     * afterwards is the relocation from `s` to `e`.
     */
    method MakeMove(src: Square, dst: Square, ghost s: Coords, ghost e: Coords) returns (r: Result<Move, Failure>)
      modifies src, dst
      ensures src.piece == None
      ensures src != dst ==> dst.piece == old(src.piece)
      ensures r.Err? <==> src == dst || old(src.piece) == None
      ensures r.Err? ==> r.error == NullMovedPiece
      ensures r.Ok? ==> r.value == Move(src, dst, old(src.piece).value, old(dst.piece))
      ensures old(Valid()) && InBounds(s) && InBounds(e) && squares[s.x, s.y] == src && squares[e.x, e.y] == dst ==>
        Grid() == Relocate(old(Grid()), s, e)
    {
      var pieceCaptured := dst.GetPiece();
      dst.SetPiece(src.GetPiece());
      src.SetPiece(None);
      var pieceMoved := dst.GetPiece();
      if old(Valid()) && InBounds(s) && InBounds(e) && squares[s.x, s.y] == src && squares[e.x, e.y] == dst {
        ghost var g0, g1 := old(Grid()), Grid();
        forall c | InBounds(c)
          ensures At(g1, c) == At(Relocate(g0, s, e), c)
        {
          var q := squares[c.x, c.y];
          assert Position[q] == c && Position[src] == s && Position[dst] == e;
          assert At(g0, c) == old(q.piece) && At(g1, c) == q.piece;
          assert At(g0, s) == old(src.piece);
        }
        Extensionality(g1, Relocate(g0, s, e));
      }
      if pieceMoved == None {
        return Err(NullMovedPiece);
      }
      return Ok(Move(src, dst, pieceMoved.value, pieceCaptured));
    }

    /** A board laid out for the start of a game, every cell holding a fresh square. */
    constructor NewBoard()
      ensures Valid() && fresh(squares)
      ensures forall q :: q in Position.Keys ==> fresh(q)
      ensures Grid() == InitialGrid()
      ensures forall c :: InBounds(c) ==> At(Grid(), c) == InitialAt(c.x, c.y)
    {
      squares := new Square?[ROWS, COLUMNS]((_, _) => null);
      Position := map[];
      new;
      PlaceAll();
      InitialLayout(this);
    }

    /** The three placement steps of a new board: black pieces, white pieces, then the empty rows. */
    method PlaceAll()
      requires Partial() && Position == map[]
      modifies this, squares
      ensures Partial()
      ensures forall q :: q in Position.Keys ==> fresh(q)
      ensures forall x, y :: 0 <= x < ROWS && 0 <= y < COLUMNS ==>
        squares[x, y] != null && squares[x, y].piece == InitialAt(x, y)
    {
      CreateAndPlacePieces(Black);
      label BlackPlaced:
      CreateAndPlacePieces(White);
      label WhitePlaced:
      InitEmptySquares();
      forall x, y | 0 <= x < ROWS && 0 <= y < COLUMNS
        ensures squares[x, y] != null && squares[x, y].piece == InitialAt(x, y)
      {
        if x < 2 {
          assert FirstRow(Black) == 0 && SecondRow(Black) == 1;
          assert squares[x, y] == old@WhitePlaced(squares[x, y]) == old@BlackPlaced(squares[x, y]);
          assert squares[x, y].piece == old@BlackPlaced(squares[x, y].piece);
        } else if x >= 6 {
          assert FirstRow(White) == 7 && SecondRow(White) == 6;
          assert squares[x, y] == old@WhitePlaced(squares[x, y]);
          assert squares[x, y].piece == old@WhitePlaced(squares[x, y].piece);
        }
      }
    }

    /** Stores a new square in one cell. */
    method Place(x: int, y: int, s: Square)
      requires Partial() && 0 <= x < ROWS && 0 <= y < COLUMNS && s !in Position
      modifies this, squares
      ensures Partial() && squares[x, y] == s
      ensures Position == old(Position)[s := Coords(x, y)]
      ensures forall q :: q in Position.Keys ==> q in old(Position.Keys) || q == s
      ensures forall a, b :: 0 <= a < ROWS && 0 <= b < COLUMNS && (a != x || b != y) ==>
        squares[a, b] == old(squares[a, b])
    {
      squares[x, y] := s;
      Position := Position[s := Coords(x, y)];
    }

    /** Puts a side's back rank and pawn row on the board, each piece in a fresh square. */
    method CreateAndPlacePieces(color: Color)
      requires Partial()
      modifies this, squares
      ensures Partial()
      ensures forall q :: q in Position.Keys ==> q in old(Position.Keys) || fresh(q)
      ensures forall y :: 0 <= y < COLUMNS ==>
        squares[FirstRow(color), y] != null && squares[FirstRow(color), y].piece == Some(Piece(color, BackRankKind(y)))
      ensures forall y :: 0 <= y < COLUMNS ==>
        squares[SecondRow(color), y] != null && squares[SecondRow(color), y].piece == Some(Piece(color, Pawn))
      ensures forall x, y :: 0 <= x < ROWS && 0 <= y < COLUMNS && x != FirstRow(color) && x != SecondRow(color) ==>
        squares[x, y] == old(squares[x, y])
    {
      var firstRow, secondRow := FirstRow(color), SecondRow(color);
      // The back rank, one column per iteration, with the kinds of `BackRankKind`.
      var column := 0;
      for i := 0 to COLUMNS
        invariant Partial() && column == i
        invariant forall q :: q in Position.Keys ==> q in old(Position.Keys) || fresh(q)
        invariant forall y :: 0 <= y < i ==>
          squares[firstRow, y] != null && squares[firstRow, y].piece == Some(Piece(color, BackRankKind(y)))
        invariant forall x, y :: 0 <= x < ROWS && 0 <= y < COLUMNS && x != firstRow ==>
          squares[x, y] == old(squares[x, y])
      {
        var s := new Square.NewSquareWith(Some(NewPiece(BackRankKind(column), color)));
        Place(firstRow, column, s);
        column := column + 1;
      }

      column := 0;
      for i := 0 to COLUMNS
        invariant 0 <= firstRow < ROWS && 0 <= secondRow < ROWS && firstRow != secondRow
        invariant Partial() && column == i
        invariant forall q :: q in Position.Keys ==> q in old(Position.Keys) || fresh(q)
        invariant forall q :: q in Position.Keys ==> q in old(Position.Keys) || fresh(q)
        invariant forall y :: 0 <= y < COLUMNS ==>
          squares[firstRow, y] != null && squares[firstRow, y].piece == Some(Piece(color, BackRankKind(y)))
        invariant forall y :: 0 <= y < i ==>
          squares[secondRow, y] != null && squares[secondRow, y].piece == Some(Piece(color, Pawn))
        invariant forall x, y :: 0 <= x < ROWS && 0 <= y < COLUMNS && x != firstRow && x != secondRow ==>
          squares[x, y] == old(squares[x, y])
      {
        var s := new Square.NewSquareWith(Some(NewPiece(Pawn, color)));
        Place(secondRow, column, s);
        column := column + 1;
      }
    }

    /** Fills rows 2 to 5 with fresh empty squares. */
    method InitEmptySquares()
      requires Partial()
      modifies this, squares
      ensures Partial()
      ensures forall q :: q in Position.Keys ==> q in old(Position.Keys) || fresh(q)
      ensures forall x, y :: 2 <= x < 6 && 0 <= y < COLUMNS ==> squares[x, y] != null && squares[x, y].piece == None
      ensures forall x, y :: 0 <= x < ROWS && 0 <= y < COLUMNS && !(2 <= x < 6) ==> squares[x, y] == old(squares[x, y])
    {
      for i := 2 to 6
        invariant Partial()
        invariant forall q :: q in Position.Keys ==> q in old(Position.Keys) || fresh(q)
        invariant forall x, y :: 2 <= x < i && 0 <= y < COLUMNS ==> squares[x, y] != null && squares[x, y].piece == None
        invariant forall x, y :: 0 <= x < ROWS && 0 <= y < COLUMNS && !(2 <= x < i) ==> squares[x, y] == old(squares[x, y])
      {
        for j := 0 to 8
          invariant Partial()
          invariant forall q :: q in Position.Keys ==> q in old(Position.Keys) || fresh(q)
          invariant forall x, y :: ((2 <= x < i && 0 <= y < COLUMNS) || (x == i && 0 <= y < j)) ==>
            squares[x, y] != null && squares[x, y].piece == None
          invariant forall x, y :: 0 <= x < ROWS && 0 <= y < COLUMNS && !(2 <= x < i) && !(x == i && y < j) ==>
            squares[x, y] == old(squares[x, y])
        {
          var s := new Square.NewEmptySquare();
          Place(i, j, s);
        }
      }
    }
  }

  /** A board whose every cell holds its starting occupant has the starting occupancy. */
  lemma InitialLayout(b: Board)
    requires b.Valid()
    requires forall x, y :: 0 <= x < ROWS && 0 <= y < COLUMNS ==> b.squares[x, y].piece == InitialAt(x, y)
    ensures b.Grid() == InitialGrid()
  {
    forall c | InBounds(c)
      ensures At(b.Grid(), c) == At(InitialGrid(), c)
    {
    }
    Extensionality(b.Grid(), InitialGrid());
  }
}
