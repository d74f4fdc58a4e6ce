/** A board cell: a mutable holder of at most one piece. */
module Squares {
  import opened Results
  import opened Pieces

  class Square {
    /** The occupant; `None` stands for the null reference of an empty cell. */
    var piece: Option<Piece>

    constructor NewEmptySquare()
      ensures piece == None
    {
      piece := None;
    }

    constructor NewSquareWith(p: Option<Piece>)
      ensures piece == p
    {
      piece := p;
    }

    /** Replaces the occupant: the previous one is dropped, so a cell never holds two pieces. */
    method SetPiece(p: Option<Piece>)
      modifies this
      ensures piece == p
    {
      piece := p;
    }

    function GetPiece(): Option<Piece>
      reads this
    {
      piece
    }

    function IsEmpty(): (b: bool)
      reads this
      ensures b <==> GetPiece() == None
    {
      piece.None?
    }
  }
}
