/**
 * The piece record of `pieces/Piece.java`. A Java `Piece` is a mutable object
 * whose `col`, `row` and `isFirstMove` the board overwrites; here it is a value
 * and the board replaces the record in its list instead.
 */
module Pieces {
  /** The `name` field: the six piece classes. */
  datatype Kind = Pawn | Knight | Bishop | Rook | Queen | King

  /** A piece: kind, colour, square (`col`, `row`; row 0 is rank 8) and `isFirstMove`. */
  datatype Piece = Piece(kind: Kind, white: bool, col: int, row: int, firstMove: bool)

  /** A piece as any constructor builds it: `isFirstMove` starts out true. */
  function NewPiece(kind: Kind, col: int, row: int, white: bool): (p: Piece)
    ensures p.firstMove
    ensures p.kind == kind && p.white == white && p.col == col && p.row == row
  {
    Piece(kind, white, col, row, true)
  }

  /** `Piece.isValidMovement`: the base class accepts every target square. */
  predicate DefaultMovement(p: Piece, col: int, row: int): (ok: bool)
    ensures ok
  {
    true
  }

  /** `Piece.moveCollidesWithPiece`: the base class never reports a collision. */
  predicate DefaultCollides(p: Piece, col: int, row: int): (hit: bool)
    ensures !hit
  {
    false
  }
}
