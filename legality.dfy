/**
 * The legality gate `isValidMove`, the exhaustive search of
 * `CheckScanner.isGameOver`, the insufficient-material rule and the game-end
 * decision of `updateGameState` / `finishGame` in `main/Board.java`.
 */
module Legality {
  import opened Wrappers
  import opened Pieces
  import opened Position
  import opened CheckScanner
  import opened KingMoves
  import opened QueenMoves
  import opened Text

  /**
   * The movement and collision predicates of the piece classes this model
   * does not contain (`Pawn`, `Rook`, `Bishop`, `Knight`). They are given, not
   * defined: every result below holds whatever they answer.
   */
  datatype UnseenRules = UnseenRules(movement: (Position, Piece, int, int) -> bool,
                                     collides: (Position, Piece, int, int) -> bool)

  /** `piece.isValidMovement(col, row)`, dispatched on the piece's class. */
  function Movement(rules: UnseenRules, pos: Position, p: Piece, col: int, row: int): bool
  {
    match p.kind
    case King => KingMovement(pos.pieces, p, col, row)
    case Queen => QueenMovement(p, col, row)
    case _ => rules.movement(pos, p, col, row)
  }

  /** `piece.moveCollidesWithPiece(col, row)`: the King keeps the default of `Piece`. */
  function Collides(rules: UnseenRules, pos: Position, p: Piece, col: int, row: int): bool
  {
    match p.kind
    case King => DefaultCollides(p, col, row)
    case Queen => QueenCollides(pos.pieces, p, col, row)
    case _ => rules.collides(pos, p, col, row)
  }

  /**
   * `isValidMove`: refused when the game is over, when the mover is not of the
   * side to move, when the capture is of the mover's colour, when the piece
   * cannot move so, when its path is blocked, or when its own king would be
   * attacked on the board with the move laid over it.
   */
  predicate IsValidMove(rules: UnseenRules, pos: Position, m: Move)
  {
    && !pos.gameOver
    && m.piece.white == pos.whiteToMove
    && !SameTeam(Some(m.piece), m.capture)
    && Movement(rules, pos, m.piece, m.newCol, m.newRow)
    && !Collides(rules, pos, m.piece, m.newCol, m.newRow)
    && !IsKingChecked(pos.pieces, m)
  }

  /**
   * A valid move, read through the check scan: the game is not over, the
   * mover is of the side to move, it takes no piece of its own colour, its
   * class allows the move and finds the path clear, and, when its side has a
   * king, no enemy piece on the board after the move reaches the square that
   * king will stand on.
   */
  lemma ValidMoveMeaning(rules: UnseenRules, pos: Position, m: Move)
    ensures IsValidMove(rules, pos, m) <==>
      && !pos.gameOver
      && m.piece.white == pos.whiteToMove
      && (m.capture.None? || m.capture.value.white != m.piece.white)
      && Movement(rules, pos, m.piece, m.newCol, m.newRow)
      && !Collides(rules, pos, m.piece, m.newCol, m.newRow)
      && (FindKing(pos.pieces, m.piece.white).None? ||
          !AttackedBy(pos.pieces, m, m.piece.white,
                      if m.piece.kind == King then m.newCol else FindKing(pos.pieces, m.piece.white).value.col,
                      if m.piece.kind == King then m.newRow else FindKing(pos.pieces, m.piece.white).value.row))
  {
  }

  /** A piece that has at least one valid destination among the 64 squares. */
  predicate CanMove(rules: UnseenRules, pos: Position, p: Piece)
  {
    exists col, row {:trigger IsValidMove(rules, pos, NewMove(pos.pieces, p, col, row))} | 0 <= col < 8 && 0 <= row < 8 ::
      IsValidMove(rules, pos, NewMove(pos.pieces, p, col, row))
  }

  /** A listed piece of the given colour that can move. */
  predicate Mobile(rules: UnseenRules, pos: Position, white: bool, p: Piece)
  {
    p.white == white && CanMove(rules, pos, p)
  }

  /** What `isGameOver(king)` searches for: a piece of the king's colour with a valid move to one of the 64 squares. */
  predicate HasLegalMove(rules: UnseenRules, pos: Position, white: bool)
  {
    MobileFrom(rules, pos, white, 0)
  }

  /** The list walk of `isGameOver` from index `i` on: some later piece can move. */
  predicate MobileFrom(rules: UnseenRules, pos: Position, white: bool, i: nat)
    decreases |pos.pieces| - i
  {
    i < |pos.pieces| && (Mobile(rules, pos, white, pos.pieces[i]) || MobileFrom(rules, pos, white, i + 1))
  }

  /** The walk from `i` succeeds exactly when some piece at or after `i` can move. */
  lemma {:induction false} MobileFromExists(rules: UnseenRules, pos: Position, white: bool, i: nat)
    ensures MobileFrom(rules, pos, white, i) <==>
      exists j {:trigger Mobile(rules, pos, white, pos.pieces[j])} :: i <= j < |pos.pieces| && Mobile(rules, pos, white, pos.pieces[j])
    decreases |pos.pieces| - i
  {
    if i < |pos.pieces| {
      MobileFromExists(rules, pos, white, i + 1);
    }
  }

  /** Some piece of the colour can move exactly when the list holds one that can. */
  lemma HasLegalMoveExists(rules: UnseenRules, pos: Position, white: bool)
    ensures HasLegalMove(rules, pos, white) <==>
      exists j {:trigger Mobile(rules, pos, white, pos.pieces[j])} :: 0 <= j < |pos.pieces| && Mobile(rules, pos, white, pos.pieces[j])
  {
    MobileFromExists(rules, pos, white, 0);
  }

  /** A piece never validly stays on its own square: `getPiece` finds the piece itself there, and it is of its own team. */
  lemma StandingStillIsNeverValid(rules: UnseenRules, pos: Position, p: Piece)
    requires UniqueSquares(pos.pieces) && p in pos.pieces
    ensures !IsValidMove(rules, pos, NewMove(pos.pieces, p, p.col, p.row))
  {
    UniqueGetPiece(pos.pieces, p);
  }

  /**
   * A valid queen move runs along one of the eight directions, and every
   * square strictly between origin and target is empty.
   */
  lemma ValidQueenMove(rules: UnseenRules, pos: Position, m: Move)
    requires m.piece.kind == Queen && IsValidMove(rules, pos, m)
    requires m.newCol != m.piece.col || m.newRow != m.piece.row
    ensures exists dc, dr, k :: Neighbour(dc, dr) && OnRay(m.piece, m.newCol, m.newRow, dc, dr, k)
    ensures forall i :: 0 < i < Max(Abs(m.newCol - m.piece.col), Abs(m.newRow - m.piece.row)) ==>
      !OccupiedToward(pos.pieces, m.piece, m.newCol, m.newRow, i)
  {
    QueenMovementIsLine(m.piece, m.newCol, m.newRow);
    CollidesIffBetweenOccupied(pos.pieces, m.piece, m.newCol, m.newRow);
  }

  /**
   * A valid king move is a step to a neighbouring square, or a castle for
   * which the king is unmoved, not in check, and the corner rook is in place.
   */
  lemma ValidKingMove(rules: UnseenRules, pos: Position, m: Move)
    requires m.piece.kind == King && IsValidMove(rules, pos, m)
    ensures Neighbour(m.newCol - m.piece.col, m.newRow - m.piece.row) || CanCastle(pos.pieces, m.piece, m.newCol, m.newRow)
    ensures !Neighbour(m.newCol - m.piece.col, m.newRow - m.piece.row) ==>
      && m.piece.firstMove && m.newRow == m.piece.row
      && !IsKingChecked(pos.pieces, StandStill(pos.pieces, m.piece))
      && UnmovedRook(GetPiece(pos.pieces, if m.newCol == 6 then 7 else 0, m.newRow), m.piece.white)
  {
  }

  /** The non-King pieces of one colour: the stream filter of `insufficientMaterial`. */
  function NonKings(ps: seq<Piece>, white: bool): (r: seq<Piece>)
    ensures forall p :: p in r <==> p in ps && p.white == white && p.kind != King
    ensures |r| <= |ps|
  {
    if |ps| == 0 then []
    else if ps[0].white == white && ps[0].kind != King then [ps[0]] + NonKings(ps[1..], white)
    else NonKings(ps[1..], white)
  }

  /** Java's `%` truncates toward zero: a negative dividend gives a non-positive remainder. */
  function JavaRem(a: int, b: int): int
    requires b > 0
  {
    if a >= 0 then a % b else -((-a) % b)
  }

  /** The square colour of `(p.col + p.row) % 2`. */
  function SquareColour(p: Piece): int
  {
    JavaRem(p.col + p.row, 2)
  }

  /** `insufficientMaterial(isWhite)`, test by test in the source's order. */
  function InsufficientMaterial(ps: seq<Piece>, white: bool): bool
  {
    var pieces := NonKings(ps, white);
    if exists p :: p in pieces && p.kind in {Queen, Rook, Pawn} then false
    else if |pieces| == 0 then true
    else if |pieces| == 1 then pieces[0].kind == Bishop || pieces[0].kind == Knight
    else if |pieces| <= 2 && forall p :: p in pieces ==> p.kind == Knight then true
    else if forall p :: p in pieces ==> p.kind == Bishop then |set p | p in pieces :: SquareColour(p)| == 1
    else false
  }

  /** One distinct value in a non-empty collection means every element has it. */
  lemma OneColourIffAllAlike(pieces: seq<Piece>)
    requires |pieces| > 0
    ensures |set p | p in pieces :: SquareColour(p)| == 1 <==>
      forall p, q :: p in pieces && q in pieces ==> SquareColour(p) == SquareColour(q)
  {
    var colours := set p | p in pieces :: SquareColour(p);
    var c0 := SquareColour(pieces[0]);
    assert c0 in colours;
    if forall p, q :: p in pieces && q in pieces ==> SquareColour(p) == SquareColour(q) {
      assert colours == {c0};
    }
    if |colours| == 1 {
      forall p, q | p in pieces && q in pieces
        ensures SquareColour(p) == SquareColour(q)
      {
        assert SquareColour(p) in colours && SquareColour(q) in colours;
        if SquareColour(p) != SquareColour(q) {
          assert {SquareColour(p), SquareColour(q)} <= colours;
          assert |{SquareColour(p), SquareColour(q)}| == 2;
          SubsetCard({SquareColour(p), SquareColour(q)}, colours);
        }
      }
    }
  }

  lemma SubsetCard(a: set<int>, b: set<int>)
    requires a <= b
    ensures |a| <= |b|
  {
    assert b == a + (b - a);
  }

  /**
   * The cases of the insufficient-material rule: a Queen, Rook or Pawn means
   * enough material; a bare king, a lone minor piece or at most two Knights
   * mean too little; several Bishops mean too little exactly when they all
   * stand on squares of one colour; any other mix of two or more minor
   * pieces (a Knight with a Bishop, three or more Knights) means enough.
   */
  lemma InsufficientMaterialCases(ps: seq<Piece>, white: bool)
    ensures (exists p :: p in ps && p.white == white && p.kind in {Queen, Rook, Pawn}) ==> !InsufficientMaterial(ps, white)
    ensures (forall p :: p in ps && p.white == white ==> p.kind == King) ==> InsufficientMaterial(ps, white)
    ensures |NonKings(ps, white)| == 1 && NonKings(ps, white)[0].kind in {Bishop, Knight} ==> InsufficientMaterial(ps, white)
    ensures |NonKings(ps, white)| <= 2 && (forall p :: p in ps && p.white == white ==> p.kind in {King, Knight})
      ==> InsufficientMaterial(ps, white)
    ensures |NonKings(ps, white)| >= 2 && (forall p :: p in ps && p.white == white ==> p.kind in {King, Bishop}) ==>
      (InsufficientMaterial(ps, white) <==>
        forall p, q :: p in NonKings(ps, white) && q in NonKings(ps, white) ==> SquareColour(p) == SquareColour(q))
    ensures |NonKings(ps, white)| >= 2 && (exists p :: p in NonKings(ps, white) && p.kind != Bishop)
      && !(|NonKings(ps, white)| == 2 && forall p :: p in NonKings(ps, white) ==> p.kind == Knight)
      ==> !InsufficientMaterial(ps, white)
  {
    var pieces := NonKings(ps, white);
    assert |pieces| > 0 ==> pieces[0] in pieces;
    if exists p :: p in ps && p.white == white && p.kind in {Queen, Rook, Pawn} {
      var p :| p in ps && p.white == white && p.kind in {Queen, Rook, Pawn};
      assert p in pieces;
    }
    if |pieces| >= 2 && forall p :: p in ps && p.white == white ==> p.kind in {King, Bishop} {
      assert pieces[0] in pieces && pieces[0].kind == Bishop;
      OneColourIffAllAlike(pieces);
    }
  }

  /** What `updateGameState` concludes for the side to move. */
  datatype Verdict = Checkmate | Stalemate | DeadPosition | Check | Play

  /** The side to move's king, standing still, is attacked. */
  predicate SideInCheck(pos: Position)
    requires FindKing(pos.pieces, pos.whiteToMove).Some?
  {
    IsKingChecked(pos.pieces, StandStill(pos.pieces, FindKing(pos.pieces, pos.whiteToMove).value))
  }

  /**
   * `updateGameState`: no legal move is mate when in check and stalemate
   * otherwise; then insufficient material on both sides is a draw; then check.
   */
  function Judge(rules: UnseenRules, pos: Position): (v: Verdict)
    requires FindKing(pos.pieces, pos.whiteToMove).Some?
  {
    var king := FindKing(pos.pieces, pos.whiteToMove).value;
    if !HasLegalMove(rules, pos, king.white) then
      (if SideInCheck(pos) then Checkmate else Stalemate)
    else if InsufficientMaterial(pos.pieces, true) && InsufficientMaterial(pos.pieces, false) then DeadPosition
    else if SideInCheck(pos) then Check
    else Play
  }

  /** The ladder of `updateGameState` on its three questions: no legal move, in check, dead material on both sides. */
  function Decide(stuck: bool, inCheck: bool, dead: bool): Verdict
  {
    if stuck then (if inCheck then Checkmate else Stalemate)
    else if dead then DeadPosition
    else if inCheck then Check
    else Play
  }

  /** No listed piece of the side to move has a valid destination among the 64 squares. */
  predicate Stuck(rules: UnseenRules, pos: Position)
  {
    forall j {:trigger Mobile(rules, pos, pos.whiteToMove, pos.pieces[j])} :: 0 <= j < |pos.pieces| ==>
      !Mobile(rules, pos, pos.whiteToMove, pos.pieces[j])
  }

  /**
   * The five verdicts, each characterised on its own: checkmate exactly when
   * no piece of the side to move can move and its king is attacked, stalemate
   * when none can move and the king is safe, a dead position when some piece
   * can move but neither side has mating material, and otherwise check or play
   * as the king is attacked or not.
   */
  lemma JudgeVerdicts(rules: UnseenRules, pos: Position)
    requires FindKing(pos.pieces, pos.whiteToMove).Some?
    ensures Judge(rules, pos) == Checkmate <==> Stuck(rules, pos) && SideInCheck(pos)
    ensures Judge(rules, pos) == Stalemate <==> Stuck(rules, pos) && !SideInCheck(pos)
    ensures Judge(rules, pos) == DeadPosition <==>
      !Stuck(rules, pos) && InsufficientMaterial(pos.pieces, true) && InsufficientMaterial(pos.pieces, false)
    ensures Judge(rules, pos) == Check <==>
      !Stuck(rules, pos) && !(InsufficientMaterial(pos.pieces, true) && InsufficientMaterial(pos.pieces, false))
      && SideInCheck(pos)
    ensures Judge(rules, pos) == Play <==>
      !Stuck(rules, pos) && !(InsufficientMaterial(pos.pieces, true) && InsufficientMaterial(pos.pieces, false))
      && !SideInCheck(pos)
  {
    HasLegalMoveExists(rules, pos, pos.whiteToMove);
  }

  /** The message `updateGameState` hands to `finishGame`, for the three endings. */
  function EndMessage(v: Verdict, whiteToMove: bool): Option<string>
  {
    match v
    case Checkmate => Some(if whiteToMove then "Black wins!" else "White wins!")
    case Stalemate => Some("Stalemate!")
    case DeadPosition => Some("Draw: Insufficient material!")
    case _ => None
  }

  /** `finishGame`'s result tag, read off the message. */
  function ResultTag(message: string): string
  {
    if Contains(message, "White wins") then "1-0"
    else if Contains(message, "Black wins") then "0-1"
    else "1/2-1/2"
  }

  /**
   * The game-end split: checkmate gives the point to the side that just
   * moved, stalemate and insufficient material are drawn, and play goes on
   * exactly while the side to move has a legal move and the material suffices.
   */
  lemma GameEndResult(rules: UnseenRules, pos: Position)
    requires FindKing(pos.pieces, pos.whiteToMove).Some?
    ensures Judge(rules, pos) == Checkmate ==>
      ResultTag(EndMessage(Checkmate, pos.whiteToMove).value) == (if pos.whiteToMove then "0-1" else "1-0")
    ensures Judge(rules, pos) in {Stalemate, DeadPosition} ==>
      ResultTag(EndMessage(Judge(rules, pos), pos.whiteToMove).value) == "1/2-1/2"
    ensures EndMessage(Judge(rules, pos), pos.whiteToMove).None? <==>
      HasLegalMove(rules, pos, pos.whiteToMove)
      && !(InsufficientMaterial(pos.pieces, true) && InsufficientMaterial(pos.pieces, false))
  {
    var white, black := "White wins", "Black wins";
    assert OccursAt("White wins!", white, 0);
    assert OccursAt("Black wins!", black, 0);
    LacksFirstLetter("Black wins!", white);
    LacksFirstLetter("Stalemate!", white);
    LacksFirstLetter("Stalemate!", black);
    LacksFirstLetter("Draw: Insufficient material!", white);
    LacksFirstLetter("Draw: Insufficient material!", black);
  }
}
