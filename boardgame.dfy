/**
 * The generic board layer of the game: a rectangular grid of squares, each
 * holding at most one piece.  The match controller reads and writes its board
 * only through the operations below (look up, remove, place), so they are the
 * vocabulary in which its contracts are stated.
 */
module Boardgame {

  datatype Option<+T> = None | Some(value: T)

  /** A square of the grid, 0-indexed: row 0 is the top row. */
  datatype Position = Position(row: int, column: int)

  /** The abstract value of a board: rows of optional occupants. */
  type Grid<T> = seq<seq<Option<T>>>

  /** `g` has `rows` rows of `columns` squares each. */
  predicate IsGrid<T>(g: Grid<T>, rows: nat, columns: nat)
  {
    |g| == rows && forall i :: 0 <= i < rows ==> |g[i]| == columns
  }

  /** `p` names a square of `g`. */
  predicate Within<T>(g: Grid<T>, p: Position)
  {
    0 <= p.row < |g| && 0 <= p.column < |g[p.row]|
  }

  /** The occupant of square `p`, or None when it is empty. */
  function Get<T>(g: Grid<T>, p: Position): Option<T>
    requires Within(g, p)
  {
    g[p.row][p.column]
  }

  /**
   * Overwrite square `p` with `x`: placing a piece when `x` is Some, removing
   * the occupant when `x` is None.  Every other square keeps its occupant.
   */
  function Put<T>(g: Grid<T>, p: Position, x: Option<T>): (r: Grid<T>)
    requires Within(g, p)
    ensures |r| == |g| && forall i :: 0 <= i < |g| ==> |r[i]| == |g[i]|
    ensures Within(r, p) && Get(r, p) == x
    ensures forall q {:trigger Get(r, q)} :: Within(g, q) && q != p ==> Get(r, q) == Get(g, q)
  {
    g[p.row := g[p.row][p.column := x]]
  }

  /** The set of occupied squares of `g`. */
  function Occupied<T>(g: Grid<T>): (s: set<Position>)
    ensures forall q {:trigger q in s} :: q in s <==> Within(g, q) && Get(g, q).Some?
  {
    var s := set i, j | 0 <= i < |g| && 0 <= j < |g[i]| && g[i][j].Some? :: Position(i, j);
    assert forall q :: Within(g, q) && Get(g, q).Some? ==> q in s by {
      forall q | Within(g, q) && Get(g, q).Some? ensures q in s {
        assert q == Position(q.row, q.column);
      }
    }
    s
  }

  /**
   * Placing a piece adds its square to the occupied set; removing one takes
   * the square out.  Nothing else about the occupied set changes.
   */
  lemma OccupiedPut<T>(g: Grid<T>, p: Position, x: Option<T>)
    requires Within(g, p)
    ensures Occupied(Put(g, p, x)) == if x.Some? then Occupied(g) + {p} else Occupied(g) - {p}
  {
    var r := Put(g, p, x);
    assert forall q :: Within(r, q) <==> Within(g, q);
  }

  /** The set of squares whose occupant is `x`. */
  function Holding<T(==)>(g: Grid<T>, x: Option<T>): (s: set<Position>)
    ensures forall q {:trigger q in s} :: q in s <==> Within(g, q) && Get(g, q) == x
  {
    var s := set i, j | 0 <= i < |g| && 0 <= j < |g[i]| && g[i][j] == x :: Position(i, j);
    assert forall q :: Within(g, q) && Get(g, q) == x ==> q in s by {
      forall q | Within(g, q) && Get(g, q) == x ensures q in s {
        assert q == Position(q.row, q.column);
      }
    }
    s
  }

  /** Two grids of the same shape that agree on every square are the same grid. */
  lemma SameGrid<T>(a: Grid<T>, b: Grid<T>)
    requires |a| == |b| && forall i :: 0 <= i < |a| ==> |a[i]| == |b[i]|
    requires forall q :: Within(a, q) ==> Get(a, q) == Get(b, q)
    ensures a == b
  {
    forall i | 0 <= i < |a|
      ensures a[i] == b[i]
    {
      forall j | 0 <= j < |a[i]|
        ensures a[i][j] == b[i][j]
      {
        assert Get(a, Position(i, j)) == Get(b, Position(i, j));
      }
    }
  }

  /** Overwriting square `p` with `y` moves `p` into or out of the squares holding `x`. */
  lemma HoldingPut<T>(g: Grid<T>, p: Position, y: Option<T>, x: Option<T>)
    requires Within(g, p)
    ensures Holding(Put(g, p, y), x) == if y == x then Holding(g, x) + {p} else Holding(g, x) - {p}
  {
    var r := Put(g, p, y);
    assert forall q :: Within(r, q) <==> Within(g, q);
  }
}
