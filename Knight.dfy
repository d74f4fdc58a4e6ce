/** Knight movement: the eight L-shaped offsets, jumping over anything in between. */
module KnightRules {
  import opened Coordinates

  /** The eight destinations an L-shaped jump from `c` can reach, in the engine's order. */
  function AllowedMoves(c: Coords): (r: seq<Coords>)
    ensures |r| == 8
  {
    var startX, startY := c.x, c.y;
    [ Of(startX + 1, startY + 2),
      Of(startX - 1, startY + 2),
      Of(startX + 1, startY - 2),
      Of(startX - 1, startY - 2),

      Of(startX + 2, startY - 1),
      Of(startX + 2, startY + 1),
      Of(startX - 2, startY - 1),
      Of(startX - 2, startY + 1) ]
  }

  /** The knight's own test: membership of the end in the list, by value. The board is not consulted. */
  predicate DoValidate(s: Coords, e: Coords)
  {
    e in AllowedMoves(s)
  }

  /** The list is exactly the offsets (+-1, +-2) and (+-2, +-1). */
  lemma DoValidateIff(s: Coords, e: Coords)
    ensures DoValidate(s, e) <==>
      (Abs(e.x - s.x) == 1 && Abs(e.y - s.y) == 2) || (Abs(e.x - s.x) == 2 && Abs(e.y - s.y) == 1)
  {
  }

  /** A jump can be retraced: the offsets are closed under negation. */
  lemma Symmetric(s: Coords, e: Coords)
    requires DoValidate(s, e)
    ensures DoValidate(e, s)
  {
    DoValidateIff(s, e);
    DoValidateIff(e, s);
  }

  /** Staying on the start square is not a knight move. */
  lemma NoNullMove(s: Coords)
    ensures !DoValidate(s, s)
  {
    DoValidateIff(s, s);
  }
}
