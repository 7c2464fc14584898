# Chess match controller

A Dafny model of the `ChessMatch` class of a small Java chess system. The
class owns an 8x8 board of optional chess pieces and does four things:

- it sets up a fixed initial position: five rooks and a king per side, on the
  c, d and e files of rows 1-2 and 7-8;
- it returns a copy of the board (`getPieces`);
- it answers which squares the piece on a square may move to
  (`possibleMoves`);
- it performs a move (`performChessMove`). First it checks that the source
  square holds a piece and that this piece can move somewhere. Then it checks
  that the target is one of that piece's possible moves. Only then does it
  change the board. It lifts the piece off the source, removes the target's
  occupant as the capture, puts the piece on the target and returns the
  capture.

The model has two modules:

- `Boardgame` (boardgame.dfy) is the abstract board value. A `Grid<T>` is a
  sequence of rows of `Option<T>`. `Put` places or removes an occupant, and
  `Occupied` and `Holding` are the sets of occupied squares and of squares
  holding a given piece. Lemmas say how `Put` changes those sets.
- `Chess` (chess.dfy) holds the pieces, the error outcomes, the move function
  `Moved`, the initial position and the `ChessMatch` class. The class keeps
  its board in an `array2` that its methods update in place.
  `Snapshot()` reads that array as a `Grid`. Every method's contract is
  stated over `Snapshot()`, except those of `PlaceNewPiece` and
  `InitialSetup`, which speak of the array cells directly; the constructor's
  contract brings the set-up board back to `Snapshot() == InitialBoard()`.

How a rook or a king moves is decided by the piece classes, and they are not
part of this model. A match is therefore constructed with a move rule
`rule(board, from, to)`, a total predicate saying whether the piece on `from`
may move to `to`. "The piece has a possible move" means that some square of
the 8x8 board satisfies the rule (`AnyPossibleMove`). In the program that
query is the piece's own `isThereAnyPossibleMove` method, which is not part of this model;
the model supplies its own scan of the rule's move matrix
(`ChessMatch.IsThereAnyPossibleMove`) in its place, and proves the scan's
answer equal to `AnyPossibleMove`.

Chess squares are converted to grid squares by the fixed mapping
row = 8 - rank, column = file - 'a' (`ToPosition`). The conversion class
itself is not part of this model, so the mapping is taken as given.

## Model

| member | source | states |
|---|---|---|
| Chess.ChessMatch.MakeMove | src/chess/ChessMatch.java:43-48 | the new board is `Moved(old board, source, target)`; the capture is the target's previous occupant, or none when source and target are the same square |
| Chess.Moved | src/chess/ChessMatch.java:43-48 | after a move the target holds the piece that stood on the source, the source is empty when it differs from the target, and every other square keeps its occupant |
| Chess.MovedInPlace | src/chess/ChessMatch.java:43-48 | moving a piece onto its own square leaves the whole board unchanged |
| Chess.MovedPieceCount | src/chess/ChessMatch.java:43-48 | a move to another square loses no piece except the capture: the number of occupied squares drops by one exactly when the target was occupied |
| Chess.MovedHolding | src/chess/ChessMatch.java:43-48 | for any piece value, the squares holding it after a move are the squares holding it before, minus the source, with the target added exactly when the moving piece is that value |
| Chess.MovedPiecesOfEachKind | src/chess/ChessMatch.java:43-48 | for every kind and colour, a move lowers the number of such pieces by one exactly when the captured piece is of that kind and colour, and changes no other count |
| Chess.ChessMatch.PerformChessMove | src/chess/ChessMatch.java:34-41 | fails with NoPiece iff the source is empty, with NoPossibleMoves iff its piece has no possible move, and with IllegalTarget iff the target is not one of its possible moves; a failure leaves the board unchanged; success applies `Moved` and returns the target's previous occupant |
| Chess.ChessMatch.ValidateSourcePosition | src/chess/ChessMatch.java:50-57 | passes iff the square holds a piece that has a possible move; otherwise it fails with NoPiece (empty square) or NoPossibleMoves (occupied square whose piece cannot move) |
| Chess.ChessMatch.ValidateTargetPosition | src/chess/ChessMatch.java:59-63 | passes iff the rule allows the piece on the source to move to the target, and fails with IllegalTarget otherwise |
| Chess.ChessMatch.IsThereAnyPossibleMove | src/chess/ChessMatch.java:54 | stands in for the piece's own query called here: the scan of the move matrix answers true iff some square of the 8x8 board is a possible move of the piece |
| Chess.ChessMatch.PossibleMoves | src/chess/ChessMatch.java:28-32 | fails exactly as source validation does; on success it returns an 8x8 matrix whose cell (i, j) says whether the piece may move to square (i, j); it changes nothing |
| Chess.ChessMatch.GetPieces | src/chess/ChessMatch.java:18-26 | returns a fresh 8x8 matrix whose cell (i, j) is the board's occupant of square (i, j); the board is unchanged |
| Chess.ToPosition | src/chess/ChessMatch.java:66 | a chess square with file 'a'..'h' and rank 1..8 maps to a square on the 8x8 board |
| Chess.ChessMatch.PlaceNewPiece | src/chess/ChessMatch.java:65-67 | the square named in chess notation holds the new piece, and every other square keeps its occupant |
| Chess.ChessMatch.InitialSetup | src/chess/ChessMatch.java:69-83 | every square of the initial position that holds a piece receives that piece, and every other square keeps its occupant |
| Chess.ChessMatch.constructor | src/chess/ChessMatch.java:13-16 | a new match has a fresh 8x8 board equal to the initial board |
| Chess.InitialBoard | src/chess/ChessMatch.java:69-83 | the initial board is 8x8, and each square holds the occupant of the initial position |
| Chess.InitialOccupied | src/chess/ChessMatch.java:69-83 | the occupied squares of the initial board are exactly c1, c2, d2, e2, e1, d1, c7, c8, d7, e7, e8 and d8 |
| Chess.InitialPieceCount | src/chess/ChessMatch.java:69-83 | the initial board holds twelve pieces on twelve distinct squares |
| Chess.InitialPosition | src/chess/ChessMatch.java:69-83 | exactly one king of each colour stands on the initial board, White's on d1 and Black's on d8; the white rooks stand on c1, c2, d2, e2 and e1, and the black rooks on c7, c8, d7, e7 and e8 |
| Boardgame.Put | src/chess/ChessMatch.java:44-46 | writing a square gives it the new occupant and leaves every other square as it was |
| Boardgame.OccupiedPut | src/chess/ChessMatch.java:44-46 | placing a piece adds its square to the occupied set, and removing one takes the square out |
| Boardgame.HoldingPut | src/chess/ChessMatch.java:44-46 | writing a square moves it into or out of the set of squares holding a given piece, and changes nothing else in that set |

## Left out

- Per-piece move generation (`Rook`, `King` and the `ChessPiece` methods `possibleMoves` and `possibleMove`) is not part of this model. It becomes the move rule parameter described above.
- The chess-notation position class and its conversion are not part of this model. Methods take grid squares that lie on the board, and `ToPosition` states the conversion mapping as given.
- The `Board` class is not part of this model. Its bounds checks and their exceptions become on-board preconditions. Any refusal it makes to place a piece on an occupied square is also left out. The initial setup places its twelve pieces on twelve distinct squares of an empty board, so such a refusal could not fire there.
- A piece's own record of the square it stands on, kept by `Board`, is not modelled; the board alone records where each piece stands.
- Chess.ChessMatch.ValidateTargetPosition: requires an occupied source square. `ValidateTargetPosition` in ChessMatch.java dereferences the piece on that square without a check, and its only caller validates the source square first.
- The exception type and its messages are left out. The three failures are the error values NoPiece, NoPossibleMoves and IllegalTarget, returned instead of thrown.
- Console rendering, input parsing and the program entry point are I/O and are left out.
- The code has no turn alternation, piece ownership checks, check or checkmate detection, castling, en passant, promotion or undo. The model follows the code and has none of these either.
