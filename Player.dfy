/** A participant, fixed to one side for its whole life. */
module Players {
  import opened Pieces

  class Player {
    const white: bool

    constructor NewWhiteSide()
      ensures IsWhiteSide()
    {
      white := true;
    }

    constructor NewBlackSide()
      ensures !IsWhiteSide()
    {
      white := false;
    }

    function IsWhiteSide(): bool
    {
      white
    }

    /** A player owns exactly the pieces of its side's colour. */
    predicate Owns(p: Piece)
    {
      IsWhiteSide() == IsWhite(p)
    }
  }

  /** Between a white and a black player, every piece has exactly one owner: the one of its colour. */
  lemma ExactlyOneOwner(w: Player, k: Player, p: Piece)
    requires w.IsWhiteSide() && !k.IsWhiteSide()
    ensures w.Owns(p) != k.Owns(p)
    ensures w.Owns(p) <==> p.color == White
  {
  }
}
