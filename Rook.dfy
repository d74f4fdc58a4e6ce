/** The rook's rule as the code has it: no geometry, no own-colour check. */
module RookRules {
  import opened Coordinates
  import opened Grids

  /** Every move is accepted, whatever the board and whatever the two squares. */
  function IsMoveValid(g: Grid, s: Coords, e: Coords): (ok: bool)
    ensures ok
  {
    true
  }
}
