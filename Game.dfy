/**
 * A match between a white and a black player: the board, whose turn it is, the moves
 * accepted so far and the pieces they captured. A move is accepted when it is the mover's
 * turn, the mover owns the piece on the start square and that piece's rule allows the move.
 */
module Games {
  import opened Results
  import opened Coordinates
  import opened Pieces
  import opened Grids
  import opened Squares
  import opened Boards
  import opened Players
  import opened Legality

  class DefaultGame {
    const board: Board
    const white: Player
    const black: Player
    var currentTurn: Player
    /** History: every accepted move, oldest first. */
    var movesPlayed: seq<Move>
    /** Every piece taken by an accepted move, oldest first. */
    var capturedPieces: seq<Piece>

    /**
     * The board is well formed, the two players sit on opposite sides, the side to move is
     * white after an even number of moves and black after an odd one, the moves alternate
     * colours starting with white, and no move captured more than one piece.
     */
    ghost predicate Valid()
      reads this, board, board.squares
    {
      board.Valid() &&
      white.IsWhiteSide() && !black.IsWhiteSide() &&
      currentTurn == (if |movesPlayed| % 2 == 0 then white else black) &&
      (forall i :: 0 <= i < |movesPlayed| ==> movesPlayed[i].pieceMoved.color == (if i % 2 == 0 then White else Black)) &&
      |capturedPieces| <= |movesPlayed|
    }

    /**
     * Sets up a match: the white-side player takes white whichever argument it was passed
     * in, a fresh board is laid out, history and captures start empty and white is to move.
     */
    constructor Initialize(p1: Player, p2: Player)
      requires p1.IsWhiteSide() != p2.IsWhiteSide()
      ensures Valid() && fresh(board) && fresh(board.squares)
      ensures forall q :: q in board.Position.Keys ==> fresh(q)
      ensures white == (if p1.IsWhiteSide() then p1 else p2) && black == (if p1.IsWhiteSide() then p2 else p1)
      ensures movesPlayed == [] && capturedPieces == [] && currentTurn == white
      ensures board.Grid() == InitialGrid()
    {
      if p1.IsWhiteSide() && !p2.IsWhiteSide() {
        white := p1;
        black := p2;
      } else {
        white := p2;
        black := p1;
      }
      board := new Board.NewBoard();
      movesPlayed := [];
      capturedPieces := [];
      currentTurn := white;
      new;
      SetTurn(White);
    }

    /** A new match, refused when the two players are on the same side. */
    static method NewGame(p1: Player, p2: Player) returns (r: Result<DefaultGame, Failure>)
      ensures r.Err? <==> p1.IsWhiteSide() == p2.IsWhiteSide()
      ensures r.Err? ==> r.error == IllegalArgument
      ensures r.Ok? ==> fresh(r.value) && r.value.Valid()
      ensures r.Ok? ==> fresh(r.value.board) && fresh(r.value.board.squares)
      ensures r.Ok? ==> forall q :: q in r.value.board.Position.Keys ==> fresh(q)
      ensures r.Ok? ==> r.value.WhiteSidePlayer() in {p1, p2} && r.value.BlackSidePlayer() in {p1, p2}
      ensures r.Ok? ==> r.value.movesPlayed == [] && r.value.capturedPieces == [] && r.value.currentTurn == r.value.white
      ensures r.Ok? ==> r.value.board.Grid() == InitialGrid()
    {
      if p1.IsWhiteSide() == p2.IsWhiteSide() {
        return Err(IllegalArgument);
      }
      var game := new DefaultGame.Initialize(p1, p2);
      return Ok(game);
    }

    function GetBoard(): (b: Board)
      reads this, board, board.squares
      requires Valid()
      ensures b.Valid()
    {
      board
    }

    /** The player on the white side. */
    function WhiteSidePlayer(): (p: Player)
      reads this, board, board.squares
      requires Valid()
      ensures p.IsWhiteSide()
    {
      white
    }

    /** The player on the black side. */
    function BlackSidePlayer(): (p: Player)
      reads this, board, board.squares
      requires Valid()
      ensures !p.IsWhiteSide()
    {
      black
    }

    /** The turn test is by identity: only the very player object whose turn it is may move. */
    predicate TurnIsValid(player: Player)
      reads this
    {
      player == currentTurn
    }

    method SetTurn(turn: Color)
      modifies this
      ensures currentTurn == (if turn == Black then black else white)
      ensures movesPlayed == old(movesPlayed) && capturedPieces == old(capturedPieces)
    {
      currentTurn := if turn == Black then black else white;
    }

    /** Hands the turn to the other side. */
    method SwitchTurn()
      modifies this
      ensures currentTurn == (if old(currentTurn) == black then white else black)
      ensures movesPlayed == old(movesPlayed) && capturedPieces == old(capturedPieces)
    {
      currentTurn := if currentTurn == black then white else black;
    }

    /** Logs an accepted move, and the piece it took if it took one. */
    method SaveHistory(move: Move)
      modifies this
      ensures capturedPieces == old(capturedPieces) + (if move.pieceCaptured.Some? then [move.pieceCaptured.value] else [])
      ensures movesPlayed == old(movesPlayed) + [move]
      ensures currentTurn == old(currentTurn)
    {
      if move.pieceCaptured.Some? {
        capturedPieces := capturedPieces + [move.pieceCaptured.value];
      }
      movesPlayed := movesPlayed + [move];
    }

    /** Whether `player` may make the move now: its turn, a piece of its own on `start`, and that piece's rule. */
    ghost predicate Accepts(player: Player, start: Coords, end: Coords)
      reads this, board, board.squares, board.Position.Keys
      requires Valid() && InBounds(start) && InBounds(end)
    {
      player == currentTurn && At(board.Grid(), start).Some? &&
      player.Owns(At(board.Grid(), start).value) &&
      MoveValid(board.Grid(), At(board.Grid(), start).value, start, end)
    }

    /**
     * The effect of an accepted move: the board relocates the piece, then the move is logged
     * and the turn passes. When start and end are the same square the relocation loses the
     * piece and fails, and nothing is logged.
     */
    method Commit(startSquare: Square, endSquare: Square, start: Coords, end: Coords) returns (r: Result<(), Failure>)
      requires Valid() && InBounds(start) && InBounds(end)
      requires startSquare == board.squares[start.x, start.y] && endSquare == board.squares[end.x, end.y]
      requires At(board.Grid(), start).Some? && At(board.Grid(), start).value.color == (if currentTurn == white then White else Black)
      modifies this, startSquare, endSquare
      ensures Valid()
      ensures r.Err? <==> start == end
      ensures r.Err? ==> r.error == NullMovedPiece
      ensures board.Grid() == Relocate(old(board.Grid()), start, end)
      ensures r.Err? ==> movesPlayed == old(movesPlayed) && capturedPieces == old(capturedPieces) && currentTurn == old(currentTurn)
      ensures r.Ok? ==> (
        var g := old(board.Grid());
        movesPlayed == old(movesPlayed) + [Boards.Move(startSquare, endSquare, At(g, start).value, At(g, end))] &&
        capturedPieces == old(capturedPieces) + (if At(g, end).Some? then [At(g, end).value] else []) &&
        currentTurn == (if old(currentTurn) == black then white else black))
    {
      var move := board.MakeMove(startSquare, endSquare, start, end);
      if move.Err? {
        return Err(move.error);
      }
      SaveHistory(move.value);
      SwitchTurn();
      return Ok(());
    }

    /**
     * One move attempt. Off-board coordinates fail first. Out of turn, with a piece of the
     * other side, or against the piece's rule, the answer is false and nothing changes. On
     * the mover's turn an empty start square fails. An accepted move relocates the piece,
     * is logged with its capture and passes the turn; a rook or queen "moved" onto its own
     * square is accepted by its rule but then vanishes from the board and the attempt fails,
     * with history and turn untouched.
     */
    method Move(player: Player, start: Coords, end: Coords) returns (r: Result<bool, Failure>)
      requires Valid()
      modifies this, board.Position.Keys
      ensures Valid()
      ensures r == Err(IndexOutOfBound) <==> !(InBounds(start) && InBounds(end))
      ensures r == Ok(false) || r == Err(IndexOutOfBound) || r == Err(NullPiece) ==>
        board.Grid() == old(board.Grid()) && movesPlayed == old(movesPlayed) &&
        capturedPieces == old(capturedPieces) && currentTurn == old(currentTurn)
      ensures InBounds(start) && InBounds(end) ==>
        (r == Err(NullPiece) <==> player == old(currentTurn) && old(At(board.Grid(), start)) == None)
      ensures InBounds(start) && InBounds(end) ==>
        (r == Ok(true) || r == Err(NullMovedPiece) <==> old(Accepts(player, start, end)))
      ensures r.Err? ==> r.error != IllegalArgument
      ensures InBounds(start) && InBounds(end) ==>
        (r == Ok(false) <==>
          !old(Accepts(player, start, end)) && !(player == old(currentTurn) && old(At(board.Grid(), start)) == None))
      ensures r == Err(NullMovedPiece) ==> (
        start == end &&
        board.Grid() == Relocate(old(board.Grid()), start, end) && movesPlayed == old(movesPlayed) &&
        capturedPieces == old(capturedPieces) && currentTurn == old(currentTurn))
      ensures r == Ok(true) ==> (
        var g := old(board.Grid());
        start != end &&
        board.Grid() == Relocate(g, start, end) &&
        |movesPlayed| == |old(movesPlayed)| + 1 && movesPlayed[..|old(movesPlayed)|] == old(movesPlayed) &&
        movesPlayed[|old(movesPlayed)|].pieceMoved == At(g, start).value &&
        movesPlayed[|old(movesPlayed)|].pieceCaptured == At(g, end) &&
        capturedPieces == old(capturedPieces) + (if At(g, end).Some? then [At(g, end).value] else []) &&
        currentTurn == (if old(currentTurn) == black then white else black))
    {
      ghost var g := board.Grid();
      var startSquare := board.GetSquareAt(start);
      if startSquare.Err? {
        return Err(startSquare.error);
      }
      var endSquare := board.GetSquareAt(end);
      if endSquare.Err? {
        return Err(endSquare.error);
      }
      var sourcePiece := startSquare.value.GetPiece();
      var validMove := TurnIsValid(player);
      if validMove {
        if sourcePiece == None {
          return Err(NullPiece);
        }
        validMove := player.Owns(sourcePiece.value);
        if validMove {
          validMove := IsMoveValid(board, sourcePiece.value, start, end);
        }
      }
      if validMove {
        var committed := Commit(startSquare.value, endSquare.value, start, end);
        if committed.Err? {
          return Err(committed.error);
        }
      }
      return Ok(validMove);
    }
  }

  /**
   * Turns are decided by identity with the player of the side to move: before any move
   * only the white player may play, and after one accepted move only the black one.
   */
  lemma TurnFollowsHistory(game: DefaultGame)
    requires game.Valid()
    ensures |game.movesPlayed| % 2 == 0 ==> game.TurnIsValid(game.white) && !game.TurnIsValid(game.black)
    ensures |game.movesPlayed| % 2 == 1 ==> game.TurnIsValid(game.black) && !game.TurnIsValid(game.white)
  {
  }

  /**
   * Black cannot open: in a new game a black player's pawn push is refused, and the board
   * keeps its starting layout.
   */
  method BlackCannotMoveFirst() returns (game: DefaultGame, m: Result<bool, Failure>)
    ensures m == Ok(false)
    ensures game.Valid() && game.board.Grid() == InitialGrid() && game.movesPlayed == []
  {
    var black := new Player.NewBlackSide();
    var white := new Player.NewWhiteSide();
    var r := DefaultGame.NewGame(black, white);
    game := r.value;
    var mover := new Player.NewBlackSide();
    m := game.Move(mover, Coords(1, 3), Coords(2, 3));
  }

  /**
   * White opens with a pawn: in a new game the white player's one-step push from row 6 to
   * row 5 is accepted, the start square empties and the end square holds the white pawn.
   */
  method WhiteMovesPawn() returns (game: DefaultGame, m: Result<bool, Failure>)
    ensures m == Ok(true)
    ensures game.Valid() && game.movesPlayed != []
    ensures At(game.board.Grid(), Coords(6, 3)) == None
    ensures At(game.board.Grid(), Coords(5, 3)) == Some(Piece(White, Pawn))
  {
    var black := new Player.NewBlackSide();
    var white := new Player.NewWhiteSide();
    var r := DefaultGame.NewGame(black, white);
    game := r.value;
    ghost var g := game.board.Grid();
    assert At(g, Coords(6, 3)) == Some(Piece(White, Pawn)) && At(g, Coords(5, 3)) == None;
    m := game.Move(white, Coords(6, 3), Coords(5, 3));
  }
}
