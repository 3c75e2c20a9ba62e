/**
 * `main/CheckScanner.java`: is the mover's king attacked once a move is laid
 * over the board? The scan never changes the board: `PieceAt` answers what a
 * square would hold after the move (the "virtual board"), and the rays,
 * knight jumps, king steps and pawn diagonals are read from it.
 */
module CheckScanner {
  import opened Wrappers
  import opened Pieces
  import opened Position

  /**
   * `pieceAt`: off the board nothing; on the destination the mover; on the
   * mover's square and on the captured piece's square nothing; elsewhere the
   * real board.
   */
  function PieceAt(ps: seq<Piece>, m: Move, col: int, row: int): (r: Option<Piece>)
    ensures !IsInsideBoard(col, row) ==> r.None?
    ensures IsInsideBoard(col, row) && col == m.newCol && row == m.newRow ==> r == Some(m.piece)
    ensures (col != m.newCol || row != m.newRow) && At(m.piece, col, row) ==> r.None?
    ensures r.Some? ==> r.value == m.piece || (r.value in ps && At(r.value, col, row))
  {
    if col < 0 || col > 7 || row < 0 || row > 7 then None
    else if col == m.newCol && row == m.newRow then Some(m.piece)
    else if col == m.piece.col && row == m.piece.row then None
    else if m.capture.Some? && col == m.capture.value.col && row == m.capture.value.row then None
    else GetPiece(ps, col, row)
  }

  /** The virtual board at an offset (dc, dr) from (kc, kr). */
  function Offset(ps: seq<Piece>, m: Move, kc: int, kr: int, dc: int, dr: int): Option<Piece>
  {
    PieceAt(ps, m, kc + dc, kr + dr)
  }

  /** `checkKnight`, `checkKing`, `checkPawn`: a piece of the other colour and of the given kind. */
  predicate Enemy(p: Option<Piece>, kingWhite: bool, k: Kind)
  {
    p.Some? && p.value.white != kingWhite && p.value.kind == k
  }

  /** The pieces that attack along a ray: Rook or Queen orthogonally, Bishop or Queen diagonally. */
  predicate Slider(k: Kind, diagonal: bool)
  {
    k == Queen || (if diagonal then k == Bishop else k == Rook)
  }

  /**
   * The loop of `hitByRook` / `hitByBishop` from step `i` on: the first occupied
   * square of the ray decides, and the ray ends after step 7.
   */
  function Ray(ps: seq<Piece>, m: Move, kingWhite: bool, kc: int, kr: int, dc: int, dr: int,
               diagonal: bool, i: int): bool
    requires 1 <= i <= 8
    decreases 8 - i
  {
    if i == 8 then false
    else match Offset(ps, m, kc, kr, i * dc, i * dr)
      case None => Ray(ps, m, kingWhite, kc, kr, dc, dr, diagonal, i + 1)
      case Some(p) => p.white != kingWhite && Slider(p.kind, diagonal)
  }

  /** Step `k` is the first occupied square of the ray counted from step `i`. */
  predicate FirstBlocker(ps: seq<Piece>, m: Move, kc: int, kr: int, dc: int, dr: int, i: int, k: int)
  {
    && i <= k < 8
    && Offset(ps, m, kc, kr, k * dc, k * dr).Some?
    && forall j :: i <= j < k ==> Offset(ps, m, kc, kr, j * dc, j * dr).None?
  }

  /** A ray reports an attack exactly when its first occupied square holds an enemy slider of its kind. */
  lemma {:induction false} RayFirstBlocker(ps: seq<Piece>, m: Move, kingWhite: bool, kc: int, kr: int,
                                           dc: int, dr: int, diagonal: bool, i: int)
    requires 1 <= i <= 8
    ensures Ray(ps, m, kingWhite, kc, kr, dc, dr, diagonal, i) <==>
      exists k :: FirstBlocker(ps, m, kc, kr, dc, dr, i, k)
        && Offset(ps, m, kc, kr, k * dc, k * dr).value.white != kingWhite
        && Slider(Offset(ps, m, kc, kr, k * dc, k * dr).value.kind, diagonal)
    decreases 8 - i
  {
    if i < 8 {
      match Offset(ps, m, kc, kr, i * dc, i * dr)
      case Some(p) =>
        assert FirstBlocker(ps, m, kc, kr, dc, dr, i, i);
        forall k | FirstBlocker(ps, m, kc, kr, dc, dr, i, k) ensures k == i {
        }
      case None =>
        RayFirstBlocker(ps, m, kingWhite, kc, kr, dc, dr, diagonal, i + 1);
        forall k | FirstBlocker(ps, m, kc, kr, dc, dr, i, k)
          ensures FirstBlocker(ps, m, kc, kr, dc, dr, i + 1, k)
        {
        }
        forall k | FirstBlocker(ps, m, kc, kr, dc, dr, i + 1, k)
          ensures FirstBlocker(ps, m, kc, kr, dc, dr, i, k)
        {
        }
    }
  }

  /** `hitByRook`: an orthogonal ray from (kc, kr) in direction (dc, dr). */
  function HitByRook(ps: seq<Piece>, m: Move, kingWhite: bool, kc: int, kr: int, dc: int, dr: int): bool
  {
    Ray(ps, m, kingWhite, kc, kr, dc, dr, false, 1)
  }

  /** `hitByBishop`: a diagonal ray from (kc, kr) in direction (dc, dr). */
  function HitByBishop(ps: seq<Piece>, m: Move, kingWhite: bool, kc: int, kr: int, dc: int, dr: int): bool
  {
    Ray(ps, m, kingWhite, kc, kr, dc, dr, true, 1)
  }

  /** `hitByKnight`: the eight knight squares, in the source's order. */
  function HitByKnight(ps: seq<Piece>, m: Move, kingWhite: bool, kc: int, kr: int): bool
  {
    || Enemy(Offset(ps, m, kc, kr, -1, -2), kingWhite, Knight)
    || Enemy(Offset(ps, m, kc, kr, 1, -2), kingWhite, Knight)
    || Enemy(Offset(ps, m, kc, kr, 2, -1), kingWhite, Knight)
    || Enemy(Offset(ps, m, kc, kr, 2, 1), kingWhite, Knight)
    || Enemy(Offset(ps, m, kc, kr, 1, 2), kingWhite, Knight)
    || Enemy(Offset(ps, m, kc, kr, -1, 2), kingWhite, Knight)
    || Enemy(Offset(ps, m, kc, kr, -2, 1), kingWhite, Knight)
    || Enemy(Offset(ps, m, kc, kr, -2, -1), kingWhite, Knight)
  }

  /** A knight's jump: one square one way and two the other. */
  predicate KnightJump(dc: int, dr: int)
  {
    (Abs(dc) == 1 && Abs(dr) == 2) || (Abs(dc) == 2 && Abs(dr) == 1)
  }

  /** The eight unrolled tests are exactly "an enemy Knight stands a knight's jump away". */
  lemma KnightAttackIsJump(ps: seq<Piece>, m: Move, kingWhite: bool, kc: int, kr: int)
    ensures HitByKnight(ps, m, kingWhite, kc, kr) <==>
      exists dc, dr :: KnightJump(dc, dr) && Enemy(Offset(ps, m, kc, kr, dc, dr), kingWhite, Knight)
  {
    if exists dc, dr :: KnightJump(dc, dr) && Enemy(Offset(ps, m, kc, kr, dc, dr), kingWhite, Knight) {
      var dc, dr :| KnightJump(dc, dr) && Enemy(Offset(ps, m, kc, kr, dc, dr), kingWhite, Knight);
      assert dc in {-2, -1, 1, 2} && dr in {-2, -1, 1, 2};
    }
    if HitByKnight(ps, m, kingWhite, kc, kr) {
      if Enemy(Offset(ps, m, kc, kr, -1, -2), kingWhite, Knight) {
        assert KnightJump(-1, -2);
      } else if Enemy(Offset(ps, m, kc, kr, 1, -2), kingWhite, Knight) {
        assert KnightJump(1, -2);
      } else if Enemy(Offset(ps, m, kc, kr, 2, -1), kingWhite, Knight) {
        assert KnightJump(2, -1);
      } else if Enemy(Offset(ps, m, kc, kr, 2, 1), kingWhite, Knight) {
        assert KnightJump(2, 1);
      } else if Enemy(Offset(ps, m, kc, kr, 1, 2), kingWhite, Knight) {
        assert KnightJump(1, 2);
      } else if Enemy(Offset(ps, m, kc, kr, -1, 2), kingWhite, Knight) {
        assert KnightJump(-1, 2);
      } else if Enemy(Offset(ps, m, kc, kr, -2, 1), kingWhite, Knight) {
        assert KnightJump(-2, 1);
      } else {
        assert KnightJump(-2, -1);
      }
    }
  }

  /** `hitByKing`: the eight neighbouring squares, in the source's order. */
  function HitByKing(ps: seq<Piece>, m: Move, kingWhite: bool, kc: int, kr: int): bool
  {
    || Enemy(Offset(ps, m, kc, kr, -1, -1), kingWhite, King)
    || Enemy(Offset(ps, m, kc, kr, 1, -1), kingWhite, King)
    || Enemy(Offset(ps, m, kc, kr, 0, -1), kingWhite, King)
    || Enemy(Offset(ps, m, kc, kr, -1, 0), kingWhite, King)
    || Enemy(Offset(ps, m, kc, kr, 1, 0), kingWhite, King)
    || Enemy(Offset(ps, m, kc, kr, -1, 1), kingWhite, King)
    || Enemy(Offset(ps, m, kc, kr, 1, 1), kingWhite, King)
    || Enemy(Offset(ps, m, kc, kr, 0, 1), kingWhite, King)
  }

  /** A king's step: to one of the eight neighbouring squares. */
  predicate Neighbour(dc: int, dr: int)
  {
    -1 <= dc <= 1 && -1 <= dr <= 1 && (dc != 0 || dr != 0)
  }

  /** The eight unrolled tests are exactly "an enemy King stands on a neighbouring square". */
  lemma KingAttackIsNeighbour(ps: seq<Piece>, m: Move, kingWhite: bool, kc: int, kr: int)
    ensures HitByKing(ps, m, kingWhite, kc, kr) <==>
      exists dc, dr :: Neighbour(dc, dr) && Enemy(Offset(ps, m, kc, kr, dc, dr), kingWhite, King)
  {
    if exists dc, dr :: Neighbour(dc, dr) && Enemy(Offset(ps, m, kc, kr, dc, dr), kingWhite, King) {
      var dc, dr :| Neighbour(dc, dr) && Enemy(Offset(ps, m, kc, kr, dc, dr), kingWhite, King);
      assert dc in {-1, 0, 1} && dr in {-1, 0, 1};
    }
    if HitByKing(ps, m, kingWhite, kc, kr) {
      if Enemy(Offset(ps, m, kc, kr, -1, -1), kingWhite, King) {
        assert Neighbour(-1, -1);
      } else if Enemy(Offset(ps, m, kc, kr, 1, -1), kingWhite, King) {
        assert Neighbour(1, -1);
      } else if Enemy(Offset(ps, m, kc, kr, 0, -1), kingWhite, King) {
        assert Neighbour(0, -1);
      } else if Enemy(Offset(ps, m, kc, kr, -1, 0), kingWhite, King) {
        assert Neighbour(-1, 0);
      } else if Enemy(Offset(ps, m, kc, kr, 1, 0), kingWhite, King) {
        assert Neighbour(1, 0);
      } else if Enemy(Offset(ps, m, kc, kr, -1, 1), kingWhite, King) {
        assert Neighbour(-1, 1);
      } else if Enemy(Offset(ps, m, kc, kr, 1, 1), kingWhite, King) {
        assert Neighbour(1, 1);
      } else {
        assert Neighbour(0, 1);
      }
    }
  }

  /**
   * `hitByPawn`: the two diagonal squares one row toward the enemy's side. Row 0
   * is rank 8, so a White king looks one row down the indices (toward row 0).
   */
  function HitByPawn(ps: seq<Piece>, m: Move, kingWhite: bool, kc: int, kr: int): bool
  {
    var colorVal := if kingWhite then -1 else 1;
    || Enemy(Offset(ps, m, kc, kr, 1, colorVal), kingWhite, Pawn)
    || Enemy(Offset(ps, m, kc, kr, -1, colorVal), kingWhite, Pawn)
  }

  /** The disjunction `isKingChecked` returns once the scan origin is chosen. */
  function Attacked(ps: seq<Piece>, m: Move, kingWhite: bool, kc: int, kr: int): bool
  {
    || HitByRook(ps, m, kingWhite, kc, kr, 0, 1)
    || HitByRook(ps, m, kingWhite, kc, kr, 1, 0)
    || HitByRook(ps, m, kingWhite, kc, kr, 0, -1)
    || HitByRook(ps, m, kingWhite, kc, kr, -1, 0)
    || HitByBishop(ps, m, kingWhite, kc, kr, -1, -1)
    || HitByBishop(ps, m, kingWhite, kc, kr, 1, -1)
    || HitByBishop(ps, m, kingWhite, kc, kr, 1, 1)
    || HitByBishop(ps, m, kingWhite, kc, kr, -1, 1)
    || HitByKnight(ps, m, kingWhite, kc, kr)
    || HitByPawn(ps, m, kingWhite, kc, kr)
    || HitByKing(ps, m, kingWhite, kc, kr)
  }

  /** A pawn's capturing step seen from its target: one column either way, one row toward the pawn's side. */
  predicate PawnDiagonal(dc: int, dr: int, kingWhite: bool)
  {
    Abs(dc) == 1 && dr == (if kingWhite then -1 else 1)
  }

  /** The two unrolled tests are exactly "an enemy Pawn stands on a diagonal square it captures from". */
  lemma PawnAttackIsDiagonal(ps: seq<Piece>, m: Move, kingWhite: bool, kc: int, kr: int)
    ensures HitByPawn(ps, m, kingWhite, kc, kr) <==>
      exists dc, dr :: PawnDiagonal(dc, dr, kingWhite) && Enemy(Offset(ps, m, kc, kr, dc, dr), kingWhite, Pawn)
  {
    var colorVal := if kingWhite then -1 else 1;
    if exists dc, dr :: PawnDiagonal(dc, dr, kingWhite) && Enemy(Offset(ps, m, kc, kr, dc, dr), kingWhite, Pawn) {
      var dc, dr :| PawnDiagonal(dc, dr, kingWhite) && Enemy(Offset(ps, m, kc, kr, dc, dr), kingWhite, Pawn);
      assert dc in {-1, 1} && dr == colorVal;
    }
    if HitByPawn(ps, m, kingWhite, kc, kr) {
      if Enemy(Offset(ps, m, kc, kr, 1, colorVal), kingWhite, Pawn) {
        assert PawnDiagonal(1, colorVal, kingWhite);
      } else {
        assert PawnDiagonal(-1, colorVal, kingWhite);
      }
    }
  }

  /** A ray direction: one orthogonal step for a Rook's lines, one diagonal step for a Bishop's. */
  predicate Direction(dc: int, dr: int, diagonal: bool)
  {
    if diagonal then Abs(dc) == 1 && Abs(dr) == 1 else Abs(dc) + Abs(dr) == 1
  }

  /** Along some ray of the given kind, the first occupied square holds an enemy slider of that kind. */
  ghost predicate SliderReaches(ps: seq<Piece>, m: Move, kingWhite: bool, kc: int, kr: int, diagonal: bool)
  {
    exists dc, dr, k :: Direction(dc, dr, diagonal) && FirstBlocker(ps, m, kc, kr, dc, dr, 1, k)
      && Offset(ps, m, kc, kr, k * dc, k * dr).value.white != kingWhite
      && Slider(Offset(ps, m, kc, kr, k * dc, k * dr).value.kind, diagonal)
  }

  /** Some ray of the given kind reaches an enemy slider, read one whole ray at a time. */
  lemma SliderReachesSomeRay(ps: seq<Piece>, m: Move, kingWhite: bool, kc: int, kr: int, diagonal: bool)
    ensures SliderReaches(ps, m, kingWhite, kc, kr, diagonal) <==>
      exists dc, dr :: Direction(dc, dr, diagonal) && Ray(ps, m, kingWhite, kc, kr, dc, dr, diagonal, 1)
  {
    forall dc, dr {
      RayFirstBlocker(ps, m, kingWhite, kc, kr, dc, dr, diagonal, 1);
    }
  }

  /** The four orthogonal scans report an attack exactly when a Rook or Queen is first on some orthogonal ray. */
  lemma RookRaysReach(ps: seq<Piece>, m: Move, kingWhite: bool, kc: int, kr: int)
    ensures || HitByRook(ps, m, kingWhite, kc, kr, 0, 1) || HitByRook(ps, m, kingWhite, kc, kr, 1, 0)
            || HitByRook(ps, m, kingWhite, kc, kr, 0, -1) || HitByRook(ps, m, kingWhite, kc, kr, -1, 0)
      <==> SliderReaches(ps, m, kingWhite, kc, kr, false)
  {
    SliderReachesSomeRay(ps, m, kingWhite, kc, kr, false);
    if SliderReaches(ps, m, kingWhite, kc, kr, false) {
      var dc, dr :| Direction(dc, dr, false) && Ray(ps, m, kingWhite, kc, kr, dc, dr, false, 1);
      assert (dc, dr) in {(0, 1), (1, 0), (0, -1), (-1, 0)};
    }
    if HitByRook(ps, m, kingWhite, kc, kr, 0, 1) {
      assert Direction(0, 1, false);
    } else if HitByRook(ps, m, kingWhite, kc, kr, 1, 0) {
      assert Direction(1, 0, false);
    } else if HitByRook(ps, m, kingWhite, kc, kr, 0, -1) {
      assert Direction(0, -1, false);
    } else if HitByRook(ps, m, kingWhite, kc, kr, -1, 0) {
      assert Direction(-1, 0, false);
    }
  }

  /** The four diagonal scans report an attack exactly when a Bishop or Queen is first on some diagonal ray. */
  lemma BishopRaysReach(ps: seq<Piece>, m: Move, kingWhite: bool, kc: int, kr: int)
    ensures || HitByBishop(ps, m, kingWhite, kc, kr, -1, -1) || HitByBishop(ps, m, kingWhite, kc, kr, 1, -1)
            || HitByBishop(ps, m, kingWhite, kc, kr, 1, 1) || HitByBishop(ps, m, kingWhite, kc, kr, -1, 1)
      <==> SliderReaches(ps, m, kingWhite, kc, kr, true)
  {
    SliderReachesSomeRay(ps, m, kingWhite, kc, kr, true);
    if SliderReaches(ps, m, kingWhite, kc, kr, true) {
      var dc, dr :| Direction(dc, dr, true) && Ray(ps, m, kingWhite, kc, kr, dc, dr, true, 1);
      assert (dc, dr) in {(-1, -1), (1, -1), (1, 1), (-1, 1)};
    }
    if HitByBishop(ps, m, kingWhite, kc, kr, -1, -1) {
      assert Direction(-1, -1, true);
    } else if HitByBishop(ps, m, kingWhite, kc, kr, 1, -1) {
      assert Direction(1, -1, true);
    } else if HitByBishop(ps, m, kingWhite, kc, kr, 1, 1) {
      assert Direction(1, 1, true);
    } else if HitByBishop(ps, m, kingWhite, kc, kr, -1, 1) {
      assert Direction(-1, 1, true);
    }
  }

  /**
   * What it means for a square to be attacked on the virtual board: a Rook,
   * Bishop or Queen is the first piece on one of its rays, or an enemy Knight
   * is a knight's jump away, or an enemy Pawn captures onto it, or the enemy
   * King stands next to it.
   */
  ghost predicate AttackedBy(ps: seq<Piece>, m: Move, kingWhite: bool, kc: int, kr: int)
  {
    || SliderReaches(ps, m, kingWhite, kc, kr, false)
    || SliderReaches(ps, m, kingWhite, kc, kr, true)
    || (exists dc, dr :: KnightJump(dc, dr) && Enemy(Offset(ps, m, kc, kr, dc, dr), kingWhite, Knight))
    || (exists dc, dr :: PawnDiagonal(dc, dr, kingWhite) && Enemy(Offset(ps, m, kc, kr, dc, dr), kingWhite, Pawn))
    || (exists dc, dr :: Neighbour(dc, dr) && Enemy(Offset(ps, m, kc, kr, dc, dr), kingWhite, King))
  }

  /** The eleven scans of `isKingChecked` together find exactly the attacks `AttackedBy` describes. */
  lemma AttackedMeans(ps: seq<Piece>, m: Move, kingWhite: bool, kc: int, kr: int)
    ensures Attacked(ps, m, kingWhite, kc, kr) <==> AttackedBy(ps, m, kingWhite, kc, kr)
  {
    RookRaysReach(ps, m, kingWhite, kc, kr);
    BishopRaysReach(ps, m, kingWhite, kc, kr);
    KnightAttackIsJump(ps, m, kingWhite, kc, kr);
    PawnAttackIsDiagonal(ps, m, kingWhite, kc, kr);
    KingAttackIsNeighbour(ps, m, kingWhite, kc, kr);
  }

  /**
   * `isKingChecked`: the mover's king is in check after the move exactly
   * when the mover's colour has a king and the square it will stand on (the
   * destination for a King move, the king's own square otherwise) is
   * attacked on the virtual board.
   */
  function IsKingChecked(ps: seq<Piece>, m: Move): (r: bool)
    ensures r <==> (FindKing(ps, m.piece.white).Some? &&
      AttackedBy(ps, m, m.piece.white,
                 if m.piece.kind == King then m.newCol else FindKing(ps, m.piece.white).value.col,
                 if m.piece.kind == King then m.newRow else FindKing(ps, m.piece.white).value.row))
  {
    match FindKing(ps, m.piece.white)
    case None => false
    case Some(king) =>
      var kingCol := if m.piece.kind == King then m.newCol else king.col;
      var kingRow := if m.piece.kind == King then m.newRow else king.row;
      AttackedMeans(ps, m, king.white, kingCol, kingRow);
      Attacked(ps, m, king.white, kingCol, kingRow)
  }

  /** The move that stands still on the king's own square: what `updateGameState` and `canCastle` ask about. */
  function StandStill(ps: seq<Piece>, king: Piece): Move
  {
    NewMove(ps, king, king.col, king.row)
  }

  /** On a board with one piece per square, a stand-still move's virtual board is the real board. */
  lemma StandStillSeesRealBoard(ps: seq<Piece>, king: Piece, col: int, row: int)
    requires UniqueSquares(ps) && king in ps
    requires IsInsideBoard(king.col, king.row)
    requires IsInsideBoard(col, row)
    ensures PieceAt(ps, StandStill(ps, king), col, row) == GetPiece(ps, col, row)
  {
    UniqueGetPiece(ps, king);
  }
}
