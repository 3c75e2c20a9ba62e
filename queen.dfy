/**
 * `pieces/Queen.java`: the queen moves along a row, a column or a diagonal,
 * and a move collides when a square strictly between origin and target is
 * occupied. Each of the source's early-exit loops is a bounded `exists`.
 */
module QueenMoves {
  import opened Wrappers
  import opened Pieces
  import opened Position
  import opened CheckScanner

  /** `isValidMovement`: same column, same row, or as many columns as rows (the zero move included). */
  predicate QueenMovement(q: Piece, col: int, row: int)
  {
    (q.col == col || q.row == row) || Abs(q.col - col) == Abs(q.row - row)
  }

  predicate Occupied(ps: seq<Piece>, col: int, row: int)
  {
    GetPiece(ps, col, row).Some?
  }

  /** The square `i` steps from the queen in direction (dc, dr) is occupied. */
  predicate OccupiedStep(ps: seq<Piece>, q: Piece, dc: int, dr: int, i: int)
  {
    Occupied(ps, q.col + i * dc, q.row + i * dr)
  }

  /**
   * `moveCollidesWithPiece`, direction by direction as the source tests them:
   * the four straight loops run over the squares strictly between, the four
   * diagonal loops over steps 1 to |dc| - 1.
   */
  predicate QueenCollides(ps: seq<Piece>, q: Piece, col: int, row: int)
  {
    || (q.col > col && q.row == row && exists c :: col < c < q.col && Occupied(ps, c, q.row))
    || (q.col < col && q.row == row && exists c :: q.col < c < col && Occupied(ps, c, q.row))
    || (q.row > row && q.col == col && exists r :: row < r < q.row && Occupied(ps, q.col, r))
    || (q.row < row && q.col == col && exists r :: q.row < r < row && Occupied(ps, q.col, r))
    || (q.col > col && q.row > row && exists i :: 1 <= i < q.col - col && OccupiedStep(ps, q, -1, -1, i))
    || (q.col < col && q.row > row && exists i :: 1 <= i < col - q.col && OccupiedStep(ps, q, 1, -1, i))
    || (q.col > col && q.row < row && exists i :: 1 <= i < q.col - col && OccupiedStep(ps, q, -1, 1, i))
    || (q.col < col && q.row < row && exists i :: 1 <= i < col - q.col && OccupiedStep(ps, q, 1, 1, i))
  }

  function Sign(x: int): int
  {
    if x < 0 then -1 else if x == 0 then 0 else 1
  }

  function Max(a: int, b: int): int
  {
    if a < b then b else a
  }

  /** (col, row) lies `k` unit steps from the queen in direction (dc, dr). */
  predicate OnRay(q: Piece, col: int, row: int, dc: int, dr: int, k: int)
  {
    0 <= k && col == q.col + k * dc && row == q.row + k * dr
  }

  /** The square `i` steps from the queen toward (col, row) is occupied. */
  predicate OccupiedToward(ps: seq<Piece>, q: Piece, col: int, row: int, i: int)
  {
    OccupiedStep(ps, q, Sign(col - q.col), Sign(row - q.row), i)
  }

  /**
   * A queen movement is a walk of some number of unit steps along one of the
   * eight directions that the check scanner's rays use.
   */
  lemma QueenMovementIsLine(q: Piece, col: int, row: int)
    ensures QueenMovement(q, col, row) <==>
      exists dc, dr, k :: Neighbour(dc, dr) && OnRay(q, col, row, dc, dr, k)
  {
    var dc, dr := Sign(col - q.col), Sign(row - q.row);
    var k := Max(Abs(col - q.col), Abs(row - q.row));
    if QueenMovement(q, col, row) {
      if col == q.col && row == q.row {
        assert Neighbour(1, 0) && OnRay(q, col, row, 1, 0, 0);
      } else {
        assert Neighbour(dc, dr) && OnRay(q, col, row, dc, dr, k);
      }
    }
    if exists dc, dr, k :: Neighbour(dc, dr) && OnRay(q, col, row, dc, dr, k) {
      var dc, dr, k :| Neighbour(dc, dr) && OnRay(q, col, row, dc, dr, k);
      assert dc in {-1, 0, 1} && dr in {-1, 0, 1};
    }
  }

  /**
   * For a line move other than the zero move, the collision test holds exactly
   * when one of the squares strictly between origin and target is occupied;
   * neither endpoint is inspected.
   */
  lemma CollidesIffBetweenOccupied(ps: seq<Piece>, q: Piece, col: int, row: int)
    requires QueenMovement(q, col, row) && (col != q.col || row != q.row)
    ensures QueenCollides(ps, q, col, row) <==>
      exists i :: 0 < i < Max(Abs(col - q.col), Abs(row - q.row))
        && OccupiedToward(ps, q, col, row, i)
  {
    if QueenCollides(ps, q, col, row) {
      CollisionIsBetween(ps, q, col, row);
    }
    if exists i :: 0 < i < Max(Abs(col - q.col), Abs(row - q.row)) && OccupiedToward(ps, q, col, row, i) {
      var i :| 0 < i < Max(Abs(col - q.col), Abs(row - q.row)) && OccupiedToward(ps, q, col, row, i);
      BetweenCollides(ps, q, col, row, i);
    }
  }

  /** A collision is an occupied square strictly between origin and target. */
  lemma CollisionIsBetween(ps: seq<Piece>, q: Piece, col: int, row: int)
    requires QueenMovement(q, col, row) && (col != q.col || row != q.row)
    requires QueenCollides(ps, q, col, row)
    ensures exists i :: 0 < i < Max(Abs(col - q.col), Abs(row - q.row)) && OccupiedToward(ps, q, col, row, i)
  {
    if q.col == col || q.row == row {
      StraightCollisionIsBetween(ps, q, col, row);
    } else {
      DiagonalCollisionIsBetween(ps, q, col, row);
    }
  }

  /** `CollisionIsBetween` along a row or a column. */
  lemma StraightCollisionIsBetween(ps: seq<Piece>, q: Piece, col: int, row: int)
    requires (q.col == col) != (q.row == row)
    requires QueenCollides(ps, q, col, row)
    ensures exists i :: 0 < i < Max(Abs(col - q.col), Abs(row - q.row)) && OccupiedToward(ps, q, col, row, i)
  {
    if q.col > col {
      var c :| col < c < q.col && Occupied(ps, c, q.row);
      assert OccupiedToward(ps, q, col, row, q.col - c);
    } else if q.col < col {
      var c :| q.col < c < col && Occupied(ps, c, q.row);
      assert OccupiedToward(ps, q, col, row, c - q.col);
    } else if q.row > row {
      var r :| row < r < q.row && Occupied(ps, q.col, r);
      assert OccupiedToward(ps, q, col, row, q.row - r);
    } else {
      var r :| q.row < r < row && Occupied(ps, q.col, r);
      assert OccupiedToward(ps, q, col, row, r - q.row);
    }
  }

  /** `CollisionIsBetween` along a diagonal. */
  lemma DiagonalCollisionIsBetween(ps: seq<Piece>, q: Piece, col: int, row: int)
    requires Abs(col - q.col) == Abs(row - q.row) && col != q.col
    requires QueenCollides(ps, q, col, row)
    ensures exists i :: 0 < i < Max(Abs(col - q.col), Abs(row - q.row)) && OccupiedToward(ps, q, col, row, i)
  {
    if q.col > col && q.row > row {
      var i :| 1 <= i < q.col - col && OccupiedStep(ps, q, -1, -1, i);
      assert OccupiedToward(ps, q, col, row, i);
    } else if q.col < col && q.row > row {
      var i :| 1 <= i < col - q.col && OccupiedStep(ps, q, 1, -1, i);
      assert OccupiedToward(ps, q, col, row, i);
    } else if q.col > col && q.row < row {
      var i :| 1 <= i < q.col - col && OccupiedStep(ps, q, -1, 1, i);
      assert OccupiedToward(ps, q, col, row, i);
    } else {
      var i :| 1 <= i < col - q.col && OccupiedStep(ps, q, 1, 1, i);
      assert OccupiedToward(ps, q, col, row, i);
    }
  }

  /** An occupied square strictly between origin and target is a collision. */
  lemma BetweenCollides(ps: seq<Piece>, q: Piece, col: int, row: int, i: int)
    requires QueenMovement(q, col, row) && (col != q.col || row != q.row)
    requires 0 < i < Max(Abs(col - q.col), Abs(row - q.row)) && OccupiedToward(ps, q, col, row, i)
    ensures QueenCollides(ps, q, col, row)
  {
    if q.row == row {
      if q.col > col {
        assert Occupied(ps, q.col - i, q.row);
      } else {
        assert Occupied(ps, q.col + i, q.row);
      }
    } else if q.col == col {
      if q.row > row {
        assert Occupied(ps, q.col, q.row - i);
      } else {
        assert Occupied(ps, q.col, q.row + i);
      }
    }
  }

  /** A move to a neighbouring square never collides: every loop range is empty. */
  lemma AdjacentNeverCollides(ps: seq<Piece>, q: Piece, col: int, row: int)
    requires Neighbour(col - q.col, row - q.row)
    ensures !QueenCollides(ps, q, col, row)
  {
    assert col - q.col in {-1, 0, 1} && row - q.row in {-1, 0, 1};
  }
}
