/** Board addresses: an immutable pair compared by value. */
module Coordinates {

  /** Row `x` (0 is black's back rank, 7 is white's) and column `y`. Any integers are accepted. */
  datatype Coords = Coords(x: int, y: int)

  /** The factory: builds the pair without any range check. */
  function Of(x: int, y: int): (c: Coords)
    ensures c.x == x && c.y == y
  {
    Coords(x, y)
  }

  /** The range the board enforces when it is indexed. */
  predicate InBounds(c: Coords)
  {
    0 <= c.x <= 7 && 0 <= c.y <= 7
  }

  /** Coordinates are equal exactly when both components are. */
  lemma EqualIff(a: Coords, b: Coords)
    ensures a == b <==> a.x == b.x && a.y == b.y
  {
  }

  function Abs(n: int): (r: nat)
    ensures r == n || r == -n
  {
    if n < 0 then -n else n
  }
}
