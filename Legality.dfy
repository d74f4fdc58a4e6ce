/**
 * The legality test a game applies to a piece: each kind of piece answers with its own
 * rule. Pawn and bishop have rules of their own; rook and queen accept everything; knight
 * and king go through the shared rule, the own-colour check followed by the kind's own test.
 */
module Legality {
  import opened Results
  import opened Coordinates
  import opened Pieces
  import opened Grids
  import opened Boards
  import opened PieceRules
  import PawnRules
  import KnightRules
  import BishopRules
  import RookRules
  import QueenRules
  import KingRules

  /** The kind's own test, for the kinds that use the shared rule. */
  function DoValidate(kind: PieceType, s: Coords, e: Coords): bool
    requires kind == Knight || kind == King
  {
    if kind == Knight then KnightRules.DoValidate(s, e) else KingRules.DoValidate(s, e)
  }

  /** The shared rule: the destination is open to the piece and the kind's own test passes. */
  predicate DefaultMoveValid(g: Grid, p: Piece, s: Coords, e: Coords)
    requires IsGrid(g) && InBounds(e) && (p.kind == Knight || p.kind == King)
  {
    NotCapturingOwnPiece(p, At(g, e)) && DoValidate(p.kind, s, e)
  }

  /** Whether piece `p` may go from `s` to `e` on a board whose occupancy is `g`. */
  predicate MoveValid(g: Grid, p: Piece, s: Coords, e: Coords)
    requires IsGrid(g) && InBounds(s) && InBounds(e)
  {
    match p.kind
    case Pawn => PawnRules.ValidMove(g, p, s, e)
    case Bishop => BishopRules.ValidMove(g, p, s, e)
    case Rook => RookRules.IsMoveValid(g, s, e)
    case Queen => QueenRules.IsMoveValid(g, s, e)
    case Knight => DefaultMoveValid(g, p, s, e)
    case King => DefaultMoveValid(g, p, s, e)
  }

  /** Every kind except rook and queen refuses a destination holding a piece of its own colour. */
  lemma OwnColourRespected(g: Grid, p: Piece, s: Coords, e: Coords)
    requires IsGrid(g) && InBounds(s) && InBounds(e)
    requires p.kind != Rook && p.kind != Queen
    requires MoveValid(g, p, s, e)
    ensures At(g, e) == None || At(g, e).value.color != p.color
  {
    match p.kind
    case Pawn => PawnRules.NeverOntoOwnColour(g, p, s, e);
    case Bishop => NotCapturingOwnPieceIff(p, At(g, e));
    case Knight => NotCapturingOwnPieceIff(p, At(g, e));
    case King => NotCapturingOwnPieceIff(p, At(g, e));
  }

  /** A piece standing on its start square cannot stay put, unless it is a rook or a queen. */
  lemma NullMoveRejected(g: Grid, p: Piece, s: Coords)
    requires IsGrid(g) && InBounds(s) && At(g, s) == Some(p)
    requires p.kind != Rook && p.kind != Queen
    ensures !MoveValid(g, p, s, s)
  {
    match p.kind
    case Pawn => PawnRules.ValidMoveIff(g, p, s, s);
    case Bishop =>
    case Knight => KnightRules.NoNullMove(s);
    case King =>
  }

  /** Rook and queen accept every move, including onto their own colour and onto their own square. */
  lemma RookAndQueenAcceptAll(g: Grid, p: Piece, s: Coords, e: Coords)
    requires IsGrid(g) && InBounds(s) && InBounds(e)
    requires p.kind == Rook || p.kind == Queen
    ensures MoveValid(g, p, s, e)
  {
  }

  /** For a king the only condition left is an empty or enemy-held destination, at any distance. */
  lemma KingNeedsOnlyOpenDestination(g: Grid, p: Piece, s: Coords, e: Coords)
    requires IsGrid(g) && InBounds(s) && InBounds(e)
    requires p.kind == King
    ensures MoveValid(g, p, s, e) <==> (At(g, e) == None || At(g, e).value.color != p.color)
  {
    NotCapturingOwnPieceIff(p, At(g, e));
  }

  /** A knight jumps: only its destination is looked at, so boards differing elsewhere give the same answer. */
  lemma KnightIgnoresPath(g: Grid, h: Grid, p: Piece, s: Coords, e: Coords)
    requires IsGrid(g) && IsGrid(h) && InBounds(s) && InBounds(e)
    requires p.kind == Knight && At(g, e) == At(h, e)
    ensures MoveValid(g, p, s, e) == MoveValid(h, p, s, e)
    ensures MoveValid(g, p, s, e) <==>
      NotCapturingOwnPiece(p, At(g, e)) &&
      ((Abs(e.x - s.x) == 1 && Abs(e.y - s.y) == 2) || (Abs(e.x - s.x) == 2 && Abs(e.y - s.y) == 1))
  {
    KnightRules.DoValidateIff(s, e);
  }

  /** The test as the game runs it: the piece's own method, reading the board and changing nothing. */
  method IsMoveValid(b: Board, p: Piece, s: Coords, e: Coords) returns (ok: bool)
    requires b.Valid() && InBounds(s) && InBounds(e)
    ensures ok == MoveValid(b.Grid(), p, s, e)
  {
    match p.kind
    case Pawn =>
      ok := PawnRules.IsMoveValid(b, p, s, e);
    case Bishop =>
      ok := BishopRules.IsMoveValid(b, p, s, e);
    case Rook =>
      ok := true;
    case Queen =>
      ok := true;
    case Knight =>
      ok := NotCapturingOwnPieceOn(b, p, e);
      ok := ok && e in KnightRules.AllowedMoves(s);
    case King =>
      ok := NotCapturingOwnPieceOn(b, p, e);
  }
}
