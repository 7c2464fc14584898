/**
 * The chess match controller: an 8x8 board of optional chess pieces, the
 * initial position of five rooks and a king per side, the validation of a
 * requested move and the move itself (lift the piece off the source square,
 * take whatever stands on the target square as the capture, put the piece
 * down on the target square).
 *
 * How an individual rook or king moves is not part of this model: a match is
 * built over a move rule `rule(board, from, to)` that says whether the piece
 * standing on `from` may move to `to` on `board`.
 */
module Chess {
  import opened Boardgame

  datatype Color = White | Black

  datatype Kind = Rook | King

  datatype ChessPiece = ChessPiece(kind: Kind, color: Color)

  /** The abstract value of the match's board. */
  type Board = Grid<ChessPiece>

  const Rows: nat := 8
  const Columns: nat := 8

  predicate IsBoard(g: Board)
  {
    IsGrid(g, Rows, Columns)
  }

  predicate OnBoard(p: Position)
  {
    0 <= p.row < Rows && 0 <= p.column < Columns
  }

  /**
   * Per-piece move generation, supplied from outside: whether the piece on
   * square `from` of the board may move to square `to`.
   */
  type MoveRule = (Board, Position, Position) -> bool

  /** Why a requested move was refused. */
  datatype Error =
    | NoPiece          // there is no piece on the source square
    | NoPossibleMoves  // the piece on the source square cannot move anywhere
    | IllegalTarget    // the piece on the source square cannot move to the target square

  datatype Outcome = Pass | Fail(error: Error)

  datatype Result<+T> = Ok(value: T) | Err(error: Error)

  // ---------------------------------------------------------------------------
  // Squares in chess notation
  // ---------------------------------------------------------------------------

  /** A square in chess notation: a column letter 'a'..'h' and a row number 1..8. */
  predicate IsChessSquare(column: char, row: int)
  {
    'a' <= column <= 'h' && 1 <= row <= 8
  }

  /**
   * The grid square of a chess square: row 8 is the top grid row and column
   * 'a' the leftmost grid column.
   */
  function ToPosition(column: char, row: int): (p: Position)
    ensures IsChessSquare(column, row) ==> OnBoard(p)
  {
    Position(8 - row, column as int - 'a' as int)
  }

  // ---------------------------------------------------------------------------
  // Possible moves
  // ---------------------------------------------------------------------------

  /** The piece on `from` has at least one target square on the board. */
  predicate AnyPossibleMove(g: Board, rule: MoveRule, from: Position)
  {
    exists r, c :: 0 <= r < Rows && 0 <= c < Columns && rule(g, from, Position(r, c))
  }

  /** The matrix of possible moves of the piece on `from`, row by row. */
  function MoveMatrix(g: Board, rule: MoveRule, from: Position): (m: seq<seq<bool>>)
    ensures |m| == Rows && forall i :: 0 <= i < Rows ==> |m[i]| == Columns
    ensures forall i, j :: 0 <= i < Rows && 0 <= j < Columns ==> m[i][j] == rule(g, from, Position(i, j))
  {
    seq(Rows, i => seq(Columns, j => rule(g, from, Position(i, j))))
  }

  // ---------------------------------------------------------------------------
  // The move itself
  // ---------------------------------------------------------------------------

  /**
   * The board after the piece on `s` moves to `t`: the source square is
   * cleared, the target square is cleared (its occupant is the capture) and
   * the moving piece is placed on the target square.
   */
  function Moved(g: Board, s: Position, t: Position): (r: Board)
    requires IsBoard(g) && OnBoard(s) && OnBoard(t)
    ensures IsBoard(r)
    ensures Get(r, t) == Get(g, s)
    ensures s != t ==> Get(r, s) == None
    ensures forall q :: OnBoard(q) && q != s && q != t ==> Get(r, q) == Get(g, q)
  {
    var lifted := Put(g, s, None);
    var cleared := Put(lifted, t, None);
    Put(cleared, t, Get(g, s))
  }

  /** Moving a piece onto its own square leaves the board as it was. */
  lemma MovedInPlace(g: Board, s: Position)
    requires IsBoard(g) && OnBoard(s)
    ensures Moved(g, s, s) == g
  {
    SameGrid(Moved(g, s, s), g);
  }

  /**
   * The size of a set after one element leaves it and another may join it:
   * with `s` in the set exactly when `movedIn` holds, the result is one
   * smaller exactly when `t` was in the set.
   */
  lemma CountAfterMove<T>(before: set<T>, s: T, t: T, movedIn: bool)
    requires s != t && (s in before <==> movedIn)
    ensures |if movedIn then before - {s} + {t} else before - {s} - {t}| ==
      if t in before then |before| - 1 else |before|
  {
    var left := before - {s};
    if movedIn {
      assert |left| == |before| - 1;
      if t in before {
        assert left + {t} == left;
      } else {
        assert |left + {t}| == |left| + 1;
      }
    } else {
      assert left == before;
    }
  }

  /**
   * A move of a piece to another square keeps every piece on the board except
   * the captured one: the number of occupied squares drops by one exactly when
   * the target square was occupied.
   */
  lemma MovedPieceCount(g: Board, s: Position, t: Position)
    requires IsBoard(g) && OnBoard(s) && OnBoard(t)
    requires Get(g, s).Some? && s != t
    ensures |Occupied(Moved(g, s, t))| == if Get(g, t).Some? then |Occupied(g)| - 1 else |Occupied(g)|
  {
    var lifted := Put(g, s, None);
    var cleared := Put(lifted, t, None);
    OccupiedPut(g, s, None);
    OccupiedPut(lifted, t, None);
    OccupiedPut(cleared, t, Get(g, s));
    CountAfterMove(Occupied(g), s, t, true);
  }

  /**
   * The squares holding `x` after a move: the source square is no longer
   * among them, and the target square is among them exactly when the moving
   * piece is `x`.
   */
  lemma MovedHolding(g: Board, s: Position, t: Position, x: Option<ChessPiece>)
    requires IsBoard(g) && OnBoard(s) && OnBoard(t) && x.Some?
    ensures Holding(Moved(g, s, t), x) ==
      if Get(g, s) == x then Holding(g, x) - {s} + {t} else Holding(g, x) - {s} - {t}
  {
    var lifted := Put(g, s, None);
    var cleared := Put(lifted, t, None);
    HoldingPut(g, s, None, x);
    HoldingPut(lifted, t, None, x);
    HoldingPut(cleared, t, Get(g, s), x);
  }

  /**
   * A move changes no piece into another: for every kind and colour, the
   * number of such pieces on the board drops by one when the captured piece
   * is of that kind and colour, and stays the same otherwise.
   */
  lemma MovedPiecesOfEachKind(g: Board, s: Position, t: Position, piece: ChessPiece)
    requires IsBoard(g) && OnBoard(s) && OnBoard(t)
    requires Get(g, s).Some? && s != t
    ensures |Holding(Moved(g, s, t), Some(piece))| ==
      if Get(g, t) == Some(piece) then |Holding(g, Some(piece))| - 1 else |Holding(g, Some(piece))|
  {
    var x := Some(piece);
    var before := Holding(g, x);
    MovedHolding(g, s, t, x);
    assert s in before <==> Get(g, s) == x;
    assert t in before <==> Get(g, t) == x;
    CountAfterMove(before, s, t, Get(g, s) == x);
  }

  // ---------------------------------------------------------------------------
  // The initial position
  // ---------------------------------------------------------------------------

  /**
   * What stands on square `p` when a match starts: the c, d and e files of
   * rows 1 and 2 hold White's pieces, those of rows 7 and 8 Black's; each
   * side's king stands on the d file of its back row (d1, d8) and the other
   * five squares hold rooks.  Every other square is empty.
   */
  function InitialOccupant(p: Position): Option<ChessPiece>
  {
    var row := 8 - p.row;
    var onDFile := p.column == 3;
    if !(2 <= p.column <= 4) then None
    else if row == 1 || row == 2 then Some(ChessPiece(if row == 1 && onDFile then King else Rook, White))
    else if row == 7 || row == 8 then Some(ChessPiece(if row == 8 && onDFile then King else Rook, Black))
    else None
  }

  /** The board of a new match. */
  function InitialBoard(): (g: Board)
    ensures IsBoard(g)
    ensures forall q :: OnBoard(q) ==> Get(g, q) == InitialOccupant(q)
  {
    seq(Rows, i => seq(Columns, j => InitialOccupant(Position(i, j))))
  }

  /**
   * The squares of the initial position that hold a piece: c1, c2, d2, e2,
   * e1, d1, c7, c8, d7, e7, e8 and d8.
   */
  const InitialSquares: set<Position> :=
    {Position(7, 2), Position(6, 2), Position(6, 3), Position(6, 4), Position(7, 4), Position(7, 3),
     Position(1, 2), Position(0, 2), Position(1, 3), Position(1, 4), Position(0, 4), Position(0, 3)}

  /** The occupied squares of the initial board are exactly the twelve listed above. */
  lemma InitialOccupied()
    ensures Occupied(InitialBoard()) == InitialSquares
  {
    var g := InitialBoard();
    forall q | q in Occupied(g)
      ensures q in InitialSquares
    {
      assert InitialOccupant(q).Some?;
    }
    forall q | q in InitialSquares
      ensures q in Occupied(g)
    {
      assert OnBoard(q) && InitialOccupant(q).Some?;
    }
  }

  /** The twelve squares listed above are distinct. */
  lemma InitialSquaresCount()
    ensures |InitialSquares| == 12
  {
  }

  /** The initial position holds twelve pieces, on twelve distinct squares. */
  lemma InitialPieceCount()
    ensures |Occupied(InitialBoard())| == 12
  {
    InitialOccupied();
    InitialSquaresCount();
  }

  /**
   * Exactly one king of each colour stands on the initial board: the white
   * king on d1 and the black king on d8.  The rooks stand on the other ten
   * occupied squares.
   */
  lemma InitialPosition()
    ensures Holding(InitialBoard(), Some(ChessPiece(King, White))) == {ToPosition('d', 1)}
    ensures Holding(InitialBoard(), Some(ChessPiece(King, Black))) == {ToPosition('d', 8)}
    ensures Holding(InitialBoard(), Some(ChessPiece(Rook, White))) ==
      {ToPosition('c', 1), ToPosition('c', 2), ToPosition('d', 2), ToPosition('e', 2), ToPosition('e', 1)}
    ensures Holding(InitialBoard(), Some(ChessPiece(Rook, Black))) ==
      {ToPosition('c', 7), ToPosition('c', 8), ToPosition('d', 7), ToPosition('e', 7), ToPosition('e', 8)}
  {
  }

  // ---------------------------------------------------------------------------
  // The match
  // ---------------------------------------------------------------------------

  /**
   * A chess match: the board, updated in place by moves, and the move rule
   * of its pieces.
   */
  class ChessMatch {
    const board: array2<Option<ChessPiece>>
    const rule: MoveRule

    ghost predicate Valid()
    {
      board.Length0 == Rows && board.Length1 == Columns
    }

    /** The current contents of the board, square by square. */
    function Snapshot(): (g: Board)
      reads board
      ensures IsGrid(g, board.Length0, board.Length1)
      ensures forall i, j :: 0 <= i < board.Length0 && 0 <= j < board.Length1 ==> g[i][j] == board[i, j]
    {
      seq(board.Length0, i requires 0 <= i < board.Length0 reads board =>
        seq(board.Length1, j requires 0 <= j < board.Length1 reads board => board[i, j]))
    }

    /** A new match, with its board in the initial position. */
    constructor (rule: MoveRule)
      ensures Valid() && fresh(board) && this.rule == rule
      ensures Snapshot() == InitialBoard()
    {
      this.rule := rule;
      board := new Option<ChessPiece>[Rows, Columns]((i, j) => None);
      new;
      InitialSetup();
      SameGrid(Snapshot(), InitialBoard());
    }

    /**
     * A copy of the board: a fresh matrix of the board's dimensions whose
     * cell (i, j) is the board's occupant of square (i, j).
     */
    method GetPieces() returns (mat: array2<Option<ChessPiece>>)
      requires Valid()
      ensures fresh(mat)
      ensures mat.Length0 == Rows && mat.Length1 == Columns
      ensures forall i, j :: 0 <= i < Rows && 0 <= j < Columns ==> mat[i, j] == Get(Snapshot(), Position(i, j))
    {
      mat := new Option<ChessPiece>[board.Length0, board.Length1]((i, j) => None);
      for i := 0 to board.Length0
        invariant forall i', j :: 0 <= i' < i && 0 <= j < Columns ==> mat[i', j] == board[i', j]
      {
        for j := 0 to board.Length1
          invariant forall i', j' :: 0 <= i' < i && 0 <= j' < Columns ==> mat[i', j'] == board[i', j']
          invariant forall j' :: 0 <= j' < j ==> mat[i, j'] == board[i, j']
        {
          mat[i, j] := board[i, j];
        }
      }
    }

    /**
     * The possible moves of the piece on `source`, as a matrix with one entry
     * per square, after checking that there is a piece there and that it can
     * move somewhere.
     */
    method PossibleMoves(source: Position) returns (r: Result<seq<seq<bool>>>)
      requires Valid() && OnBoard(source)
      ensures r == Err(NoPiece) <==> Get(Snapshot(), source).None?
      ensures r == Err(NoPossibleMoves) <==>
        Get(Snapshot(), source).Some? && !AnyPossibleMove(Snapshot(), rule, source)
      ensures r.Ok? <==> Get(Snapshot(), source).Some? && AnyPossibleMove(Snapshot(), rule, source)
      ensures r.Ok? ==> |r.value| == Rows && forall i :: 0 <= i < Rows ==> |r.value[i]| == Columns
      ensures r.Ok? ==> forall i, j :: 0 <= i < Rows && 0 <= j < Columns ==>
        r.value[i][j] == rule(Snapshot(), source, Position(i, j))
    {
      var o := ValidateSourcePosition(source);
      if o.Fail? {
        return Err(o.error);
      }
      r := Ok(MoveMatrix(Snapshot(), rule, source));
    }

    /**
     * Move the piece on `source` to `target` when the move is valid: there is
     * a piece on `source`, it has a possible move, and `target` is one of its
     * possible moves.  The result is the captured piece, if any.  A refused
     * move leaves the board as it was.
     */
    method PerformChessMove(source: Position, target: Position) returns (r: Result<Option<ChessPiece>>)
      requires Valid() && OnBoard(source) && OnBoard(target)
      modifies board
      ensures r == Err(NoPiece) <==> Get(old(Snapshot()), source).None?
      ensures r == Err(NoPossibleMoves) <==>
        Get(old(Snapshot()), source).Some? && !AnyPossibleMove(old(Snapshot()), rule, source)
      ensures r == Err(IllegalTarget) <==>
        Get(old(Snapshot()), source).Some? && AnyPossibleMove(old(Snapshot()), rule, source) &&
        !rule(old(Snapshot()), source, target)
      ensures r.Ok? <==>
        Get(old(Snapshot()), source).Some? && AnyPossibleMove(old(Snapshot()), rule, source) &&
        rule(old(Snapshot()), source, target)
      ensures r.Err? ==> Snapshot() == old(Snapshot())
      ensures r.Ok? ==> Snapshot() == Moved(old(Snapshot()), source, target)
      ensures r.Ok? ==> r.value == if source == target then None else Get(old(Snapshot()), target)
    {
      var o := ValidateSourcePosition(source);
      if o.Fail? {
        return Err(o.error);
      }
      o := ValidateTargetPosition(source, target);
      if o.Fail? {
        return Err(o.error);
      }
      var captured := MakeMove(source, target);
      r := Ok(captured);
    }

    /**
     * Lift the piece off `source`, remove the occupant of `target` as the
     * capture and put the lifted piece on `target`.  When `source` and
     * `target` are the same square the capture is empty and the board ends
     * as it was.
     */
    method MakeMove(source: Position, target: Position) returns (captured: Option<ChessPiece>)
      requires Valid() && OnBoard(source) && OnBoard(target)
      modifies board
      ensures Snapshot() == Moved(old(Snapshot()), source, target)
      ensures captured == if source == target then None else Get(old(Snapshot()), target)
    {
      var p := board[source.row, source.column];
      board[source.row, source.column] := None;
      captured := board[target.row, target.column];
      board[target.row, target.column] := None;
      board[target.row, target.column] := p;
      SameGrid(Snapshot(), Moved(old(Snapshot()), source, target));
    }

    /**
     * Whether the piece on `position` has any possible move: a scan of its
     * move matrix for a true entry.  In the program this query is a method of
     * the piece itself, which is not part of this model; the scan over the
     * move rule's matrix stands in for it.
     */
    method IsThereAnyPossibleMove(position: Position) returns (b: bool)
      requires Valid()
      ensures b == AnyPossibleMove(Snapshot(), rule, position)
    {
      var mat := MoveMatrix(Snapshot(), rule, position);
      for i := 0 to Rows
        invariant forall i', j :: 0 <= i' < i && 0 <= j < Columns ==> !mat[i'][j]
      {
        for j := 0 to Columns
          invariant forall i', j' :: 0 <= i' < i && 0 <= j' < Columns ==> !mat[i'][j']
          invariant forall j' :: 0 <= j' < j ==> !mat[i][j']
        {
          if mat[i][j] {
            return true;
          }
        }
      }
      return false;
    }

    /**
     * The source square must hold a piece, and that piece must have at least
     * one possible move.
     */
    method ValidateSourcePosition(position: Position) returns (o: Outcome)
      requires Valid() && OnBoard(position)
      ensures o == Fail(NoPiece) <==> Get(Snapshot(), position).None?
      ensures o == Fail(NoPossibleMoves) <==>
        Get(Snapshot(), position).Some? && !AnyPossibleMove(Snapshot(), rule, position)
      ensures o == Pass <==> Get(Snapshot(), position).Some? && AnyPossibleMove(Snapshot(), rule, position)
    {
      if board[position.row, position.column].None? {
        return Fail(NoPiece);
      }
      var any := IsThereAnyPossibleMove(position);
      if !any {
        return Fail(NoPossibleMoves);
      }
      return Pass;
    }

    /** The target square must be one of the possible moves of the piece on the source square. */
    method ValidateTargetPosition(source: Position, target: Position) returns (o: Outcome)
      requires Valid() && OnBoard(source) && OnBoard(target) && Get(Snapshot(), source).Some?
      ensures o == Pass <==> rule(Snapshot(), source, target)
      ensures o == Fail(IllegalTarget) <==> !rule(Snapshot(), source, target)
    {
      if !rule(Snapshot(), source, target) {
        return Fail(IllegalTarget);
      }
      return Pass;
    }

    /** Put `piece` on the square named in chess notation by `column` and `row`. */
    method PlaceNewPiece(piece: ChessPiece, column: char, row: int)
      requires Valid() && IsChessSquare(column, row)
      modifies board
      ensures board[ToPosition(column, row).row, ToPosition(column, row).column] == Some(piece)
      ensures forall i, j {:trigger board[i, j]} :: 0 <= i < Rows && 0 <= j < Columns && (i != ToPosition(column, row).row || j != ToPosition(column, row).column) ==>
        board[i, j] == old(board[i, j])
    {
      var p := ToPosition(column, row);
      board[p.row, p.column] := Some(piece);
    }

    /**
     * Place the twelve pieces of the initial position: every square of the
     * initial position that holds a piece receives it, every other square
     * keeps its occupant.
     */
    method InitialSetup()
      requires Valid()
      modifies board
      ensures forall i, j :: 0 <= i < Rows && 0 <= j < Columns && InitialOccupant(Position(i, j)).Some? ==>
        board[i, j] == InitialOccupant(Position(i, j))
      ensures forall i, j :: 0 <= i < Rows && 0 <= j < Columns && InitialOccupant(Position(i, j)).None? ==>
        board[i, j] == old(board[i, j])
    {
      PlaceNewPiece(ChessPiece(Rook, White), 'c', 1);
      PlaceNewPiece(ChessPiece(Rook, White), 'c', 2);
      PlaceNewPiece(ChessPiece(Rook, White), 'd', 2);
      PlaceNewPiece(ChessPiece(Rook, White), 'e', 2);
      PlaceNewPiece(ChessPiece(Rook, White), 'e', 1);
      PlaceNewPiece(ChessPiece(King, White), 'd', 1);

      PlaceNewPiece(ChessPiece(Rook, Black), 'c', 7);
      PlaceNewPiece(ChessPiece(Rook, Black), 'c', 8);
      PlaceNewPiece(ChessPiece(Rook, Black), 'd', 7);
      PlaceNewPiece(ChessPiece(Rook, Black), 'e', 7);
      PlaceNewPiece(ChessPiece(Rook, Black), 'e', 8);
      PlaceNewPiece(ChessPiece(King, Black), 'd', 8);
    }
  }
}
