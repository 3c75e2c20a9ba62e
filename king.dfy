/**
 * `pieces/King.java`: a king steps to one of its eight neighbours, or castles
 * when `canCastle` allows it. Both read the board and never change it.
 */
module KingMoves {
  import opened Wrappers
  import opened Pieces
  import opened Position
  import opened CheckScanner

  /** A same-colour Rook that has not moved yet: the rook `canCastle` asks for in a corner. */
  predicate UnmovedRook(r: Option<Piece>, white: bool)
  {
    r.Some? && r.value.kind == Rook && r.value.white == white && r.value.firstMove
  }

  /** `canCastle`: the king-side test for target column 6, the queen-side one for column 2. */
  function CanCastle(ps: seq<Piece>, king: Piece, col: int, row: int): (ok: bool)
    ensures ok ==> king.firstMove && king.row == row && !IsKingChecked(ps, StandStill(ps, king))
    ensures ok ==> col == 6 || col == 2
    ensures ok && col == 6 ==>
      && UnmovedRook(GetPiece(ps, 7, row), king.white)
      && GetPiece(ps, 5, row).None? && GetPiece(ps, 6, row).None?
      && !IsKingChecked(ps, NewMove(ps, king, 5, row)) && !IsKingChecked(ps, NewMove(ps, king, 6, row))
    ensures ok && col == 2 ==>
      && UnmovedRook(GetPiece(ps, 0, row), king.white)
      && GetPiece(ps, 3, row).None? && GetPiece(ps, 2, row).None? && GetPiece(ps, 1, row).None?
      && !IsKingChecked(ps, NewMove(ps, king, 3, row)) && !IsKingChecked(ps, NewMove(ps, king, 2, row))
  {
    if !king.firstMove || king.row != row then false
    else if IsKingChecked(ps, StandStill(ps, king)) then false
    else if col == 6 then
      UnmovedRook(GetPiece(ps, 7, row), king.white)
      && GetPiece(ps, 5, row).None? && GetPiece(ps, 6, row).None?
      && !IsKingChecked(ps, NewMove(ps, king, 5, row)) && !IsKingChecked(ps, NewMove(ps, king, 6, row))
    else if col == 2 then
      UnmovedRook(GetPiece(ps, 0, row), king.white)
      && GetPiece(ps, 3, row).None? && GetPiece(ps, 2, row).None? && GetPiece(ps, 1, row).None?
      && !IsKingChecked(ps, NewMove(ps, king, 3, row)) && !IsKingChecked(ps, NewMove(ps, king, 2, row))
    else false
  }

  /** The two arithmetic tests of `isValidMovement`, a one-square diagonal or a one-square orthogonal step. */
  predicate KingStep(dc: int, dr: int)
  {
    Abs(dc * dr) == 1 || Abs(dc) + Abs(dr) == 1
  }

  /** The step test is exactly "one of the eight neighbouring squares", the squares `hitByKing` scans. */
  lemma KingStepIsNeighbour(dc: int, dr: int)
    ensures KingStep(dc, dr) <==> Neighbour(dc, dr)
  {
    if Abs(dc * dr) == 1 {
      assert Abs(dc * dr) == Abs(dc) * Abs(dr);
      assert Abs(dc) >= 1 && Abs(dr) >= 1;
      assert Abs(dc) * Abs(dr) >= Abs(dc) && Abs(dc) * Abs(dr) >= Abs(dr);
    }
    if Neighbour(dc, dr) {
      assert dc in {-1, 0, 1} && dr in {-1, 0, 1};
    }
  }

  /** `isValidMovement`: a step to a neighbouring square, or a castle. */
  function KingMovement(ps: seq<Piece>, king: Piece, col: int, row: int): (ok: bool)
    ensures ok <==> Neighbour(col - king.col, row - king.row) || CanCastle(ps, king, col, row)
  {
    KingStepIsNeighbour(col - king.col, row - king.row);
    KingStep(col - king.col, row - king.row) || CanCastle(ps, king, col, row)
  }

  /** A castle is the only way a king moves more than one square, and it stays on the king's row and targets column 6 or 2. */
  lemma KingLongMoveIsCastle(ps: seq<Piece>, king: Piece, col: int, row: int)
    requires KingMovement(ps, king, col, row)
    requires !Neighbour(col - king.col, row - king.row)
    ensures CanCastle(ps, king, col, row) && row == king.row && (col == 6 || col == 2)
  {
  }
}
