/** The check shared by the movement rules: a piece may not land on a piece of its own colour. */
module PieceRules {
  import opened Results
  import opened Coordinates
  import opened Pieces
  import opened Grids
  import opened Boards

  /**
   * Whether a destination occupied by `capturable` (or empty) is open to `p`: it must be
   * empty or hold a piece of the other colour.
   */
  predicate NotCapturingOwnPiece(p: Piece, capturable: Option<Piece>)
  {
    capturable == None || IsWhite(p) != IsWhite(capturable.value)
  }

  /** Stated through colours: the destination is open exactly when it holds no piece of `p`'s colour. */
  lemma NotCapturingOwnPieceIff(p: Piece, capturable: Option<Piece>)
    ensures NotCapturingOwnPiece(p, capturable) <==> !(capturable.Some? && capturable.value.color == p.color)
  {
  }

  /** The check as the pieces perform it: looking up the destination on the board. */
  method NotCapturingOwnPieceOn(b: Board, p: Piece, c: Coords) returns (ok: bool)
    requires b.Valid() && InBounds(c)
    ensures ok == NotCapturingOwnPiece(p, At(b.Grid(), c))
  {
    var capturablePiece := b.GetSquareAt(c).value.GetPiece();
    ok := capturablePiece == None || IsWhite(p) != IsWhite(capturablePiece.value);
  }
}
