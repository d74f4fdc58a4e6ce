/** Pieces as values: a colour and one of six kinds, both fixed at creation. */
module Pieces {

  datatype Color = Black | White

  datatype PieceType = Pawn | Rook | Knight | Bishop | Queen | King

  datatype Piece = Piece(color: Color, kind: PieceType)

  /** The factory: one piece per kind, carrying the requested colour. */
  function NewPiece(t: PieceType, c: Color): (p: Piece)
    ensures p.kind == t && p.color == c
  {
    match t
    case King => Piece(c, King)
    case Queen => Piece(c, Queen)
    case Rook => Piece(c, Rook)
    case Knight => Piece(c, Knight)
    case Bishop => Piece(c, Bishop)
    case Pawn => Piece(c, Pawn)
  }

  /** Whether the colour fixed at creation is white. */
  predicate IsWhite(p: Piece)
  {
    p.color == White
  }

  lemma IsWhiteIff(p: Piece)
    ensures IsWhite(p) <==> p.color != Black
  {
  }
}
