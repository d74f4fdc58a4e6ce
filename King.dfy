/** The king's own test, combined elsewhere with the shared own-colour check. */
module KingRules {
  import opened Coordinates

  /** The king places no constraint of its own on the two squares. */
  function DoValidate(s: Coords, e: Coords): (ok: bool)
    ensures ok
  {
    true
  }
}
