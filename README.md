# Chess move legality engine, modelled in Dafny

This project models the core of a small Java chess engine, `demo.chess`. The engine holds an
8x8 `Board` of `Square` objects, each holding at most one `Piece`. A `DefaultGame` pairs a
white and a black `Player`, tracks whose turn it is, and accepts or refuses moves. A move is
accepted when it is the mover's turn, the mover owns the piece on the start square, and that
piece's own rule allows the move. An accepted move relocates the piece, is logged together with
any captured piece, and passes the turn.

Layout:

- `Results.dfy`: `Option` stands for a nullable reference. `Result`/`Failure` stand for the
  exceptions the engine throws.
- `Coords.dfy`, `Piece.dfy`: board coordinates and pieces, as values.
- `Grid.dfy`: the occupancy of the board as a value (`seq<seq<Option<Piece>>>`). It also holds
  relocation, piece counting and the starting layout.
- `Square.dfy`, `Board.dfy`: the mutable cells and the board.
  - The board is a class over an `array2<Square?>`.
  - A ghost map from each square to its cell keeps the 64 squares distinct.
  - `Board.Grid()` reads the current occupancy off the squares.
- `PieceRules.dfy`: the shared own-colour check.
- One module per rule: `Pawn.dfy`, `Knight.dfy`, `Bishop.dfy`, `Rook.dfy`, `Queen.dfy`,
  `King.dfy`.
- `Legality.dfy`: the dispatch from a piece to its rule.
- `Player.dfy`, `Game.dfy`: the players and the game.

Each rule is a pure predicate over the grid. Pawn and bishop scan their path square by square,
so each has a loop method that reads the board. Each such method is proved to return exactly
its predicate on `b.Grid()`. The game's `Move` is proved against the ghost predicate `Accepts`
and against `Relocate` on the grid.

The code differs from a reading of the engine as chess, and the model follows the code:

- A rook or a queen accepts every move: any distance, onto its own colour, onto its own square.
- A king checks only that it does not land on its own colour. Distance is not checked.
- A rook or queen "moved" onto its own square is cleared from the board. The move record then
  lacks a moved piece and the attempt fails (`NullMovedPiece`). History and turn are untouched.
- `Piece` declares an abstract `doValidate`. Pawn, bishop, rook and queen override
  `isMoveValid` instead and do not implement `doValidate`, so those classes do not compile as
  written. The model gives each kind the behaviour of the method it does define: the override
  for pawn, bishop, rook and queen, and the inherited rule (own-colour check, then
  `doValidate`) for knight and king.

## Model

| member | source | states |
|---|---|---|
| Coordinates.Of | src/main/java/demo/chess/game/Coords.java:16-19 | the factory keeps both components unchanged, with no range check |
| Coordinates.EqualIff | src/main/java/demo/chess/game/Coords.java:5-9 | coordinates are equal exactly when both components are equal (value equality) |
| Pieces.NewPiece | src/main/java/demo/chess/game/piece/Piece.java:28-47 | the factory returns a piece of the requested kind and colour |
| Pieces.IsWhiteIff | src/main/java/demo/chess/game/piece/Piece.java:24-26 | `Pieces.IsWhite` (the colour test `isWhite`) holds exactly when the piece's colour is not black |
| Grids.Relocate | src/main/java/demo/chess/game/Board.java:28-37 | afterwards the start is empty; between different squares the end holds the start's former occupant; every other cell is unchanged |
| Grids.RelocateCount | src/main/java/demo/chess/game/Board.java:28-37 | a relocation between two squares removes exactly the end's former occupant from the count; one onto the same square removes the piece |
| Grids.InitialGrid | src/main/java/demo/chess/game/Board.java:40-70 | the starting layout, cell by cell: black back rank on row 0, black pawns on row 1, white pawns on row 6, white back rank on row 7 |
| Grids.InitialPieceCount | src/main/java/demo/chess/game/Board.java:19-26 | the starting grid holds exactly 32 pieces; `Boards.Board.NewBoard` proves that a new board's occupancy is this grid |
| Squares.Square.NewEmptySquare | src/main/java/demo/chess/game/Square.java:28-30 | a new empty square holds no piece |
| Squares.Square.NewSquareWith | src/main/java/demo/chess/game/Square.java:32-34 | a new square holds the given piece |
| Squares.Square.SetPiece | src/main/java/demo/chess/game/Square.java:16-18 | the occupant is replaced by the given one |
| Squares.Square.IsEmpty | src/main/java/demo/chess/game/Square.java:20-26 | true exactly when the square holds no piece, i.e. when `Squares.Square.GetPiece` (the getter `getPiece`) returns no piece |
| Boards.Board.GetSquare | src/main/java/demo/chess/game/Board.java:77-82 | fails with IndexOutOfBound exactly when a coordinate is outside 0..7; otherwise it is the square stored at that cell |
| Boards.Board.GetSquareAt | src/main/java/demo/chess/game/Board.java:73-75 | the same lookup as by two integers; its square holds that cell's occupant in the grid |
| Boards.Board.MakeMove | src/main/java/demo/chess/game/Board.java:28-37 | the start square is cleared and a distinct end square receives its piece. It fails with NullMovedPiece exactly when the squares coincide or the start was empty; otherwise the record holds both squares, the piece moved and the piece displaced. For the board's own squares the occupancy becomes `Relocate`. The record is the datatype `Boards.Move` (the nested class at Board.java:93-111) |
| Boards.Board.NewBoard | src/main/java/demo/chess/game/Board.java:19-26 | a new board is well formed (64 distinct squares), its array and all its squares are newly allocated, and its occupancy is exactly the starting grid |
| Boards.Board.CreateAndPlacePieces | src/main/java/demo/chess/game/Board.java:40-70 | one side's back rank is Rook, Knight, Bishop, Queen, King, Bishop, Knight, Rook, its pawn row is eight pawns, and every other row is untouched |
| Boards.Board.InitEmptySquares | src/main/java/demo/chess/game/Board.java:84-91 | rows 2 to 5 get fresh empty squares and the other rows are untouched |
| PieceRules.NotCapturingOwnPieceIff | src/main/java/demo/chess/game/piece/Piece.java:16-19 | a destination is open to a piece exactly when it holds no piece of the same colour |
| PieceRules.NotCapturingOwnPieceOn | src/main/java/demo/chess/game/piece/Piece.java:16-19 | the board lookup gives the own-colour verdict on the destination's current occupant |
| PawnRules.Direction | src/main/java/demo/chess/game/piece/Pawn.java:51-53 | a pawn advances by one row at a time, toward row 0 exactly when it is white |
| PawnRules.ColumnClearIff | src/main/java/demo/chess/game/piece/Pawn.java:39-48 | the recursive path condition equals "every row after the start, up to and including the end, is empty in that column" |
| PawnRules.ForwardLandsOnEmpty | src/main/java/demo/chess/game/piece/Pawn.java:31-48 | a valid forward move ends on an empty square, because the scan includes the end |
| PawnRules.ValidMoveIff | src/main/java/demo/chess/game/piece/Pawn.java:13-57 | a pawn move is exactly one of: a single step onto an empty square; a double step from the home row (`PawnRules.IsInitPosition`, Pawn.java:54-57) over two empty squares; a diagonal step onto an enemy piece (`PawnRules.IsValidCaptureMove`, Pawn.java:20-29) |
| PawnRules.NeverOntoOwnColour | src/main/java/demo/chess/game/piece/Pawn.java:13-37 | a valid pawn move never lands on a piece of its own colour |
| PawnRules.ForwardPathBlocked | src/main/java/demo/chess/game/piece/Pawn.java:39-48 | the scan reports a blocked path exactly when the column is not clear between start and end |
| PawnRules.IsValidForwardMove | src/main/java/demo/chess/game/piece/Pawn.java:31-37 | the method's verdict equals the forward-move predicate on the current board |
| PawnRules.IsMoveValid | src/main/java/demo/chess/game/piece/Pawn.java:13-29 | the method's verdict equals the pawn rule (forward or capture) on the current board |
| KnightRules.AllowedMoves | src/main/java/demo/chess/game/piece/Knight.java:22-38 | the list holds eight destinations |
| KnightRules.DoValidateIff | src/main/java/demo/chess/game/piece/Knight.java:16-38 | the end is in the list exactly when the offsets are (1, 2) or (2, 1) in absolute value |
| KnightRules.Symmetric | src/main/java/demo/chess/game/piece/Knight.java:22-38 | a knight jump can be retraced from its end |
| KnightRules.NoNullMove | src/main/java/demo/chess/game/piece/Knight.java:16-19 | staying on the start square is never a knight move |
| BishopRules.Step | src/main/java/demo/chess/game/piece/Bishop.java:32-33 | each direction is +1 or -1, and +1 exactly when the end lies ahead on that axis |
| BishopRules.ClearFromIff | src/main/java/demo/chess/game/piece/Bishop.java:35-39 | the recursive path condition equals "every listed diagonal square is empty or off the board" |
| BishopRules.ValidMoveIff | src/main/java/demo/chess/game/piece/Bishop.java:19-28 | a bishop move is a diagonal of positive length onto a square with no piece of its own colour, and every square strictly between is on the board and empty |
| BishopRules.PathBlocked | src/main/java/demo/chess/game/piece/Bishop.java:31-45 | the scan reports a blocked path exactly when some square strictly between start and end is occupied |
| BishopRules.IsMoveValid | src/main/java/demo/chess/game/piece/Bishop.java:19-28 | the method's verdict equals the bishop rule on the current board |
| RookRules.IsMoveValid | src/main/java/demo/chess/game/piece/Rook.java:12-15 | every rook move is accepted |
| QueenRules.IsMoveValid | src/main/java/demo/chess/game/piece/Queen.java:12-15 | every queen move is accepted |
| KingRules.DoValidate | src/main/java/demo/chess/game/piece/King.java:12-15 | the king's own test accepts every pair of squares |
| Legality.OwnColourRespected | src/main/java/demo/chess/game/piece/Piece.java:59-62 | every kind other than rook and queen refuses a destination holding a piece of its own colour |
| Legality.NullMoveRejected | src/main/java/demo/chess/game/piece/Piece.java:59-62 | a piece other than a rook or queen cannot move onto its own square |
| Legality.RookAndQueenAcceptAll | src/main/java/demo/chess/game/piece/Rook.java:12-15 | rook and queen accept any move, whatever the board |
| Legality.KingNeedsOnlyOpenDestination | src/main/java/demo/chess/game/piece/King.java:12-15 | a king move is valid exactly when the destination is empty or holds an enemy piece, at any distance |
| Legality.KnightIgnoresPath | src/main/java/demo/chess/game/piece/Knight.java:16-19 | a knight's verdict depends only on its destination cell, and it is the own-colour check plus an L-shaped offset |
| Legality.IsMoveValid | src/main/java/demo/chess/game/piece/Piece.java:59-62 | the verdict of the piece's own method equals the rule for its kind on the current board |
| Players.Player.NewWhiteSide | src/main/java/demo/chess/player/Player.java:12-14 | the new player is on the white side |
| Players.Player.NewBlackSide | src/main/java/demo/chess/player/Player.java:16-18 | the new player is on the black side |
| Players.ExactlyOneOwner | src/main/java/demo/chess/player/Player.java:21-29 | of a white and a black player exactly one owns a given piece (`Players.Player.Owns`), and the white-side one (`Players.Player.IsWhiteSide`) owns exactly the white pieces |
| Games.DefaultGame.Initialize | src/main/java/demo/chess/game/DefaultGame.java:74-91 | the white-side argument becomes white and the other black, the board, its array and all its squares are newly allocated and hold the starting grid, history and captures are empty, and white is to move |
| Games.DefaultGame.NewGame | src/main/java/demo/chess/game/DefaultGame.java:24-28 | fails with IllegalArgument exactly when both players are on the same side; otherwise a fresh, well-formed game whose board and squares are newly allocated, at the starting grid with white to move |
| Games.DefaultGame.GetBoard | src/main/java/demo/chess/game/DefaultGame.java:31-34 | the game's board is well formed |
| Games.DefaultGame.WhiteSidePlayer | src/main/java/demo/chess/game/DefaultGame.java:66-68 | the white-side player is on the white side |
| Games.DefaultGame.BlackSidePlayer | src/main/java/demo/chess/game/DefaultGame.java:70-72 | the black-side player is on the black side |
| Games.DefaultGame.SetTurn | src/main/java/demo/chess/game/DefaultGame.java:93-95 | the side to move becomes the player of the given colour, and history is unchanged |
| Games.DefaultGame.SwitchTurn | src/main/java/demo/chess/game/DefaultGame.java:97-99 | the turn passes to the other player, and history is unchanged |
| Games.DefaultGame.SaveHistory | src/main/java/demo/chess/game/DefaultGame.java:58-64 | the move is appended to the history, and its captured piece, if any, to the captures |
| Games.DefaultGame.Commit | src/main/java/demo/chess/game/DefaultGame.java:48-53 | an accepted move relocates the piece on the board. It fails exactly when start and end coincide, leaving history and turn alone; otherwise it logs the move and its capture and passes the turn, keeping the game valid |
| Games.DefaultGame.Move | src/main/java/demo/chess/game/DefaultGame.java:36-56 | fails with IndexOutOfBound exactly when a square is off the board, and with NullPiece exactly on the mover's turn from an empty start; succeeds or fails with NullMovedPiece exactly when the move is accepted; never fails with IllegalArgument; on the board it returns false exactly when the move is not accepted and is not the NullPiece case, and a refusal changes nothing; an accepted move relocates the piece, logs it with its capture and passes the turn; the game stays valid (details below) |
| Games.TurnFollowsHistory | src/main/java/demo/chess/game/DefaultGame.java:103-105 | `Games.DefaultGame.TurnIsValid`, the identity test against the side to move, admits only white after an even number of moves and only black after an odd number |
| Games.BlackCannotMoveFirst | src/test/java/demo/chess/GameTest.java:141-151 | in a new game a separately created black player's push from (1, 3) to (2, 3) returns false, and the board keeps the starting grid with an empty history |
| Games.WhiteMovesPawn | src/test/java/demo/chess/GameTest.java:164-172 | in a new game the white player's push from (6, 3) to (5, 3) returns true; afterwards (6, 3) is empty and (5, 3) holds the white pawn |

`Games.DefaultGame.Move` keeps the game valid (colours alternate in the history, starting with
white). Its contract states:

- It fails with IndexOutOfBound exactly when a coordinate is off the board.
- On the mover's turn with an empty start, it fails with NullPiece.
- It succeeds or fails with NullMovedPiece exactly when the move is accepted.
- It never fails with IllegalArgument. On the board it returns false exactly when the move is
  not accepted and is not the NullPiece case.
- A refusal or an early failure changes nothing.
- An accepted move relocates the piece, appends one record with the right moved and captured
  pieces, logs the capture, and passes the turn.

## Left out

- Exceptions: the engine throws them. The model returns them as `Failure` values: IndexOutOfBound, NullPiece, NullMovedPiece and IllegalArgument.
- Lombok: `@EqualsAndHashCode` on `Coords` becomes datatype equality, and the generated accessors are not modelled.
- `Game.java` is only an interface that `DefaultGame` implements. It is not modelled separately.
- Only two unit tests are modelled, as the opening scenarios `BlackCannotMoveFirst` and `WhiteMovesPawn`. The other tests are not modelled.
- Piece identity: pieces are values, not objects, so history and captures compare pieces by colour and kind.
- `Piece.type()` is the `kind` field.
- The `default` branches that throw in `Piece.newPiece` and `Board.createAndPlacePieces` cannot be reached with the two enums, so they are not modelled.
- Boards.Board.CreateAndPlacePieces: the eight back-rank statements are written as one loop over the column. The column's kind comes from `BackRankKind`.
- Coordinates are Java `int`s, modelled as unbounded integers. Arithmetic is only done on coordinates that the board has already bounds-checked, so wrap-around cannot occur.
- Bishop has a private copy of the own-colour check that is identical to `Piece`'s. Both are modelled by `PieceRules`.
- Boards.Board.MakeMove takes two ghost cells besides the two squares. They only serve to state the effect on the occupancy.
- `Board.Move` keeps references to its two squares. Only `getPieceCaptured` is read by the engine.
- Games.DefaultGame.Initialize requires players of different sides. The engine throws `IllegalArgumentException` for same-side players inside `initialize`, after the game object is allocated. The model returns IllegalArgument from Games.DefaultGame.NewGame before constructing, so no half-initialised game exists.
- The rule predicates and methods require both squares on the board. The engine's only caller, `DefaultGame.move`, bounds-checks both squares before consulting a rule. Bounds failures are therefore modelled where they arise: at `Board.getSquare` and in `DefaultGame.move`.
