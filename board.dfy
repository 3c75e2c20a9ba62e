/**
 * The rules state of `main/Board.java` as a class whose fields the methods
 * overwrite: the piece list, the side to move, the en-passant tile, the game
 * flags, the last move, the capture lists and the three move histories.
 * Every method is specified against the pure functions of `Commit`,
 * `Legality`, `Notation` and `Fen`, so the properties proved there are
 * properties of these methods.
 */
module ChessBoard {
  import opened Wrappers
  import opened Pieces
  import opened Position
  import opened CheckScanner
  import opened Legality
  import opened Commit
  import opened Notation
  import opened Fen
  import opened Text

  /** The placement field of the standard starting position. */
  const StartingPlacement := "rnbqkbnr/pppppppp/8/8/8/8/PPPPPPPP/RNBQKBNR"
  /** `fenStartingPosition`. */
  const StartingFen := StartingPlacement + " w KQkq - 0 1"

  /** `pieceIcon`: the chess symbol of a piece, hollow for White and solid for Black. */
  function PieceIcon(p: Piece): (s: string)
    ensures |s| == 1
  {
    match p.kind
    case Queen => if p.white then "♕" else "♛"
    case Rook => if p.white then "♖" else "♜"
    case Bishop => if p.white then "♗" else "♝"
    case Knight => if p.white then "♘" else "♞"
    case Pawn => if p.white then "♙" else "♟"
    case King => if p.white then "♔" else "♚"
  }

  /** The icon tells kind and colour apart: two pieces with one icon are of one kind and one colour. */
  lemma PieceIconDistinguishes(p: Piece, q: Piece)
    requires PieceIcon(p) == PieceIcon(q)
    ensures p.kind == q.kind && p.white == q.white
  {
    assert PieceIcon(p)[0] == PieceIcon(q)[0];
  }

  /** The piece `capture` is handed when the move is committed: the destination's occupant, or the pawn behind an en-passant landing. */
  function Taken(pos: Position, m: Move): Option<Piece>
  {
    match CaptureIndex(pos, m)
    case None => None
    case Some(c) => Some(pos.pieces[c])
  }

  /** A capture log after `capture`: the taken piece's icon is added to the log that collects pieces of its colour. */
  function Logged(log: seq<string>, taken: Option<Piece>, collectsWhite: bool): (r: seq<string>)
    ensures taken.Some? && taken.value.white == collectsWhite ==> r == log + [PieceIcon(taken.value)]
    ensures !(taken.Some? && taken.value.white == collectsWhite) ==> r == log
  {
    if taken.Some? && taken.value.white == collectsWhite then log + [PieceIcon(taken.value)] else log
  }

  /** The SAN core `makeMove` builds on the board before the move. */
  function SanBefore(rules: UnseenRules, pos: Position, m: Move): string
    requires IsInsideBoard(m.oldCol, m.oldRow) && IsInsideBoard(m.newCol, m.newRow)
  {
    SanCore(m, IsCaptureMove(pos, m), IsPromotionMove(m), IsKingSideCastle(m), IsQueenSideCastle(m),
            Disambiguation(rules, pos, m))
  }

  /** The first half of `makeMove`'s SAN, computed on the board before the move as `buildSanCore` does. */
  method BuildSanCore(rules: UnseenRules, pos: Position, m: Move) returns (san: string)
    requires IsInsideBoard(m.oldCol, m.oldRow) && IsInsideBoard(m.newCol, m.newRow)
    ensures san == SanBefore(rules, pos, m)
  {
    var d := Disambiguate(rules, pos, m);
    san := SanCore(m, IsCaptureMove(pos, m), IsPromotionMove(m), IsKingSideCastle(m), IsQueenSideCastle(m), d);
  }

  /**
   * The promotion tests agree: the pawn `promotePawn` replaces (own
   * promotion row) is one `isPromotionMove` marks with `=Q` and `toUci` marks
   * with `q`; `isPromotionMove` also accepts a pawn on its own back row.
   */
  lemma PromotionTestsAgree(m: Move)
    ensures Promotes(m) <==> UciPromotes(m.piece, m.newRow)
    ensures IsPromotionMove(m) <==> Promotes(m) || (m.piece.kind == Pawn && m.newRow == PromotionRow(!m.piece.white))
  {
  }

  /**
   * The en-passant tests agree on the board: the SAN's `isEnPassantCapture`
   * holds exactly when `movePawn` sees a pawn landing on the marked tile and
   * that tile is empty.
   */
  lemma EnPassantTestsAgree(pos: Position, m: Move)
    requires IsInsideBoard(m.newCol, m.newRow)
    ensures IsEnPassantCapture(pos, m) <==>
      LandsOnEnPassantTile(pos, m) && GetPiece(pos.pieces, m.newCol, m.newRow).None?
  {
  }

  /**
   * `recordMove`'s move log: a White move opens a new numbered entry; a Black
   * move is appended to the last entry, or opens `1...` when the log is empty.
   */
  function AppendDisplay(display: seq<string>, white: bool, notation: string): (r: seq<string>)
    ensures white ==> r == display + [NatString(|display| + 1) + ". " + notation]
    ensures !white && |display| > 0 ==> |r| == |display| && r[..|r| - 1] == display[..|display| - 1]
    ensures !white && |display| > 0 ==> r[|r| - 1] == display[|display| - 1] + " " + notation
    ensures !white && |display| == 0 ==> r == ["1... " + notation]
  {
    if white then display + [NatString(|display| + 1) + ". " + notation]
    else if |display| == 0 then ["1... " + notation]
    else display[..|display| - 1] + [display[|display| - 1] + " " + notation]
  }

  /** The log `recordMove` builds for a game whose plies alternate from White. */
  function RecordedDisplay(sans: seq<string>): seq<string>
  {
    if |sans| == 0 then []
    else AppendDisplay(RecordedDisplay(sans[..|sans| - 1]), (|sans| - 1) % 2 == 0, sans[|sans| - 1])
  }

  /** `rebuildDisplayMovesForPointer`: the log of the first `n` plies, numbered by ply index. */
  function RebuiltDisplay(sans: seq<string>, n: nat): seq<string>
    requires n <= |sans|
  {
    if n == 0 then []
    else
      var d := RebuiltDisplay(sans, n - 1);
      var i := n - 1;
      if i % 2 == 0 then d + [NatString(i / 2 + 1) + ". " + sans[i]]
      else if |d| > 0 then d[..|d| - 1] + [d[|d| - 1] + " " + sans[i]]
      else d
  }

  /**
   * The live move log and the review log agree: recording a game move by
   * move, White first, gives the log that review mode rebuilds from the SAN
   * list, one entry per full move.
   */
  lemma {:induction false} RecordedDisplayIsRebuilt(sans: seq<string>)
    ensures RecordedDisplay(sans) == RebuiltDisplay(sans, |sans|)
    ensures |RecordedDisplay(sans)| == (|sans| + 1) / 2
  {
    if |sans| > 0 {
      var n := |sans|;
      var init := sans[..n - 1];
      RecordedDisplayIsRebuilt(init);
      RebuiltAgree(init, sans, n - 1);
      RebuiltStep(sans, n);
      calc {
        RecordedDisplay(sans);
        AppendDisplay(RecordedDisplay(init), (n - 1) % 2 == 0, sans[n - 1]);
        AppendDisplay(RebuiltDisplay(sans, n - 1), (n - 1) % 2 == 0, sans[n - 1]);
        RebuiltDisplay(sans, n);
      }
    }
  }

  /** One more ply of the review log is what `recordMove` appends for it, White on even plies. */
  lemma RebuiltStep(sans: seq<string>, n: nat)
    requires 0 < n <= |sans| && |RebuiltDisplay(sans, n - 1)| == n / 2
    ensures RebuiltDisplay(sans, n) == AppendDisplay(RebuiltDisplay(sans, n - 1), (n - 1) % 2 == 0, sans[n - 1])
    ensures |RebuiltDisplay(sans, n)| == (n + 1) / 2
  {
    var d := RebuiltDisplay(sans, n - 1);
    if (n - 1) % 2 == 0 {
      assert |d| + 1 == (n - 1) / 2 + 1;
    } else {
      assert |d| > 0;
    }
  }

  /** The review log after ply `i`, in the in-place form `rebuildDisplayMovesForPointer` writes it. */
  lemma RebuiltNext(sans: seq<string>, i: nat)
    requires i < |sans|
    ensures var d := RebuiltDisplay(sans, i);
      && (i % 2 == 0 ==> RebuiltDisplay(sans, i + 1) == d + [NatString(i / 2 + 1) + ". " + sans[i]])
      && (i % 2 == 1 && |d| > 0 ==> RebuiltDisplay(sans, i + 1) == d[|d| - 1 := d[|d| - 1] + " " + sans[i]])
      && (i % 2 == 1 && |d| == 0 ==> RebuiltDisplay(sans, i + 1) == d)
  {
    var d := RebuiltDisplay(sans, i);
    if i % 2 == 1 && |d| > 0 {
      assert d[..|d| - 1] + [d[|d| - 1] + " " + sans[i]] == d[|d| - 1 := d[|d| - 1] + " " + sans[i]];
    }
  }

  /** The review log of the first `n` plies reads only those plies. */
  lemma {:induction false} RebuiltAgree(a: seq<string>, b: seq<string>, n: nat)
    requires n <= |a| && n <= |b| && a[..n] == b[..n]
    ensures RebuiltDisplay(a, n) == RebuiltDisplay(b, n)
  {
    if n > 0 {
      assert a[..n - 1] == a[..n][..n - 1] && b[..n - 1] == b[..n][..n - 1];
      RebuiltAgree(a, b, n - 1);
      assert a[n - 1] == a[..n][n - 1] && b[n - 1] == b[..n][n - 1];
    }
  }

  /** How many plies `rebuildDisplayMovesForPointer` shows: indices 0 to `pointer`, within the list. */
  function ShownPlies(pointer: int, count: nat): (n: nat)
    ensures n <= count
    ensures pointer < 0 ==> n == 0
    ensures 0 <= pointer < count ==> n == pointer + 1
    ensures pointer >= count ==> n == count
  {
    if pointer < 0 then 0 else if pointer + 1 < count then pointer + 1 else count
  }

  /** `stepAnalysis`: the review pointer moves by `delta`, clamped to -1 (before the first move) and the last ply. */
  function StepPointer(pointer: int, delta: int, count: nat): (r: int)
    ensures -1 <= r && (count > 0 ==> r < count) && (count == 0 ==> r == -1)
    ensures -1 <= pointer + delta < count ==> r == pointer + delta
    ensures pointer + delta < -1 ==> r == -1
    ensures pointer + delta >= count ==> r == count - 1
  {
    var maxPointer := count - 1;
    var target := pointer + delta;
    var capped := if maxPointer < target then maxPointer else target;
    if capped < -1 then -1 else capped
  }

  /**
   * What the board records about the game as it goes: whether the last move
   * gave check or mate, whether the game is over or still active, the result
   * tag, and the moves in UCI, in SAN and as the numbered move log.
   */
  datatype Annals = Annals(deliveredCheck: bool, deliveredMate: bool, over: bool, active: bool, resultTag: string,
                           moves: seq<string>, sans: seq<string>, display: seq<string>)

  /**
   * The record after a move's side effects, given the record before, the SAN
   * core, the verdict on the new position, whether it is check and the side
   * to move there: the flags follow the verdict, a verdict that ends the game
   * ends it with the tag read off its message, and the move is appended in
   * UCI and in SAN with `#` after mate and `+` after check.
   */
  function Announcement(before: Annals, m: Move, san: string, verdict: Verdict, inCheck: bool, whiteToMoveNext: bool): Annals
    requires IsInsideBoard(m.oldCol, m.oldRow) && IsInsideBoard(m.newCol, m.newRow)
  {
    var notation := Annotated(san, inCheck, verdict == Checkmate);
    var end := EndMessage(verdict, whiteToMoveNext);
    Annals(inCheck, verdict == Checkmate, end.Some?, end.None?,
           if end.Some? then ResultTag(end.value) else before.resultTag,
           before.moves + [ToUci(m.oldCol, m.oldRow, m.newCol, m.newRow, m.piece)],
           before.sans + [notation],
           AppendDisplay(before.display, m.piece.white, notation))
  }

  /** How far `isGameOver` scans from index `i` on: through the first piece of the king's colour that can move, or to the end of the list. */
  function ScanFrom(rules: UnseenRules, pos: Position, white: bool, i: nat): (n: nat)
    requires i <= |pos.pieces|
    ensures i <= n <= |pos.pieces|
    decreases |pos.pieces| - i
  {
    if i == |pos.pieces| then i
    else if Mobile(rules, pos, white, pos.pieces[i]) then i + 1
    else ScanFrom(rules, pos, white, i + 1)
  }

  /** When no piece from `i` on can move the scan runs to the end of the list; otherwise it stops right after a piece that can move. */
  lemma {:induction false} ScanFromStops(rules: UnseenRules, pos: Position, white: bool, i: nat)
    requires i <= |pos.pieces|
    ensures !MobileFrom(rules, pos, white, i) ==> ScanFrom(rules, pos, white, i) == |pos.pieces|
    ensures ScanFrom(rules, pos, white, i) < |pos.pieces| ==>
      Mobile(rules, pos, white, pos.pieces[ScanFrom(rules, pos, white, i) - 1])
    decreases |pos.pieces| - i
  {
    if i < |pos.pieces| {
      ScanFromStops(rules, pos, white, i + 1);
    }
  }

  /** `selectedPiece` after `isGameOver` has visited the first `n` pieces: the king while scanning the king, null while scanning another piece of its colour. */
  function LastSelected(ps: seq<Piece>, king: Piece, n: nat, init: Option<Piece>): Option<Piece>
    requires n <= |ps|
  {
    if n == 0 then init
    else if ps[n - 1].white == king.white then (if ps[n - 1] == king then Some(king) else None)
    else LastSelected(ps, king, n - 1, init)
  }

  /** `selectedPiece` after `updateGameState` has run `isGameOver` on the king of the side to move. */
  function ScanSelection(rules: UnseenRules, pos: Position, init: Option<Piece>): Option<Piece>
    requires FindKing(pos.pieces, pos.whiteToMove).Some?
  {
    LastSelected(pos.pieces, FindKing(pos.pieces, pos.whiteToMove).value,
                 ScanFrom(rules, pos, pos.whiteToMove, 0), init)
  }

  /** What `makeMove` changes before its side effects: the pieces, the side to move, the en-passant tile, the last move and the two capture logs. */
  datatype Trail = Trail(pieces: seq<Piece>, whiteToMove: bool, enPassantTile: int, lastMove: Option<Move>,
                         capturedByWhite: seq<string>, capturedByBlack: seq<string>)

  /** The trail after committing `m` on `pos` with capture logs `byWhite` and `byBlack`. */
  function Committed(pos: Position, m: Move, byWhite: seq<string>, byBlack: seq<string>): Trail
    requires Picked(pos.pieces, m)
  {
    var next := Commit.Commit(pos, m);
    Trail(next.pieces, next.whiteToMove, next.enPassantTile, Some(Recorded(pos, m)),
          Logged(byWhite, Taken(pos, m), false), Logged(byBlack, Taken(pos, m), true))
  }

  class Board {
    /** The movement and collision rules of the piece classes not in this model. */
    const rules: UnseenRules
    /** `fenStartingPosition`: the FEN a new board and a new game start from. */
    const fenStartingPosition: string

    var pieces: seq<Piece>
    var selectedPiece: Option<Piece>
    var enPassantTile: int
    var lastMove: Option<Move>
    var whiteToMove: bool
    var gameOver: bool
    var gameActive: bool
    var moveHistory: seq<string>
    var displayMoves: seq<string>
    var capturedByWhite: seq<string>
    var capturedByBlack: seq<string>
    var sanHistory: seq<string>
    var lastResultTag: string
    var lastMoveDeliveredCheck: bool
    var lastMoveDeliveredMate: bool

    var analysisMode: bool
    var analysisPointer: int
    var snapshotCount: nat
    var reviewUciMoves: seq<string>
    var reviewSanMoves: seq<string>

    /** A game in progress is never over: `finishGame` clears `isGameActive` when it sets `isGameOver`. */
    ghost predicate Valid()
      reads this`gameActive, this`gameOver
    {
      gameActive ==> !gameOver
    }

    /** What the rules read of the board. */
    function State(): Position
      reads this`pieces, this`whiteToMove, this`enPassantTile, this`gameOver
    {
      Position(pieces, whiteToMove, enPassantTile, gameOver)
    }

    /** `Board()`: the standard starting position, no game in progress yet, and the review fields as `clearAnalysisReview` leaves them. */
    constructor(rules: UnseenRules)
      ensures Valid() && this.rules == rules
      ensures fenStartingPosition == StartingFen && WellFormedFen(fenStartingPosition)
      ensures State() == LoadedPosition(fenStartingPosition) && !gameActive
      ensures moveHistory == [] && displayMoves == [] && sanHistory == [] && lastMove == None
      ensures capturedByWhite == [] && capturedByBlack == [] && lastResultTag == "*"
      ensures !analysisMode && analysisPointer == -1 && snapshotCount == 0
      ensures reviewUciMoves == [] && reviewSanMoves == []
      ensures selectedPiece == None && !lastMoveDeliveredCheck && !lastMoveDeliveredMate
    {
      this.rules := rules;
      fenStartingPosition := StartingFen;
      pieces, selectedPiece, enPassantTile, lastMove := [], None, -1, None;
      whiteToMove, gameOver, gameActive := true, false, false;
      moveHistory, displayMoves, capturedByWhite, capturedByBlack, sanHistory := [], [], [], [], [];
      lastResultTag, lastMoveDeliveredCheck, lastMoveDeliveredMate := "*", false, false;
      new;
      ClearAnalysisReview();
      assert selectedPiece == None && !lastMoveDeliveredCheck && !lastMoveDeliveredMate;
      StartingFenWellFormed();
      LoadStartingPosition();
    }

    /** `startNewGame`: the starting position with a game in progress and empty logs; the selection and the check and mate flags are left as they were. */
    method StartNewGame()
      requires WellFormedFen(fenStartingPosition)
      modifies this`analysisMode, this`analysisPointer, this`snapshotCount, this`reviewUciMoves, this`reviewSanMoves
      modifies this`pieces, this`moveHistory, this`lastMove, this`gameOver, this`capturedByWhite,
               this`capturedByBlack, this`displayMoves, this`sanHistory, this`lastResultTag,
               this`whiteToMove, this`enPassantTile, this`gameActive
      ensures Valid() && gameActive && lastResultTag == "*"
      ensures State() == LoadedPosition(fenStartingPosition)
      ensures moveHistory == [] && displayMoves == [] && sanHistory == [] && lastMove == None
      ensures capturedByWhite == [] && capturedByBlack == []
      ensures !analysisMode && analysisPointer == -1 && snapshotCount == 0
      ensures reviewUciMoves == [] && reviewSanMoves == []
      ensures selectedPiece == old(selectedPiece)
      ensures lastMoveDeliveredCheck == old(lastMoveDeliveredCheck) && lastMoveDeliveredMate == old(lastMoveDeliveredMate)
    {
      ClearAnalysisReview();
      LoadStartingPosition();
      assert selectedPiece == old(selectedPiece) && lastMoveDeliveredCheck == old(lastMoveDeliveredCheck);
      BeginGame();
    }

    /** The two assignments that close the reset of `startNewGame`: a game in progress with an open result. */
    method BeginGame()
      requires !gameOver
      modifies this`gameActive, this`lastResultTag
      ensures Valid() && gameActive && lastResultTag == "*"
    {
      gameActive := true;
      lastResultTag := "*";
    }

    /** `loadPositionFromFEN(fenStartingPosition)`, as the constructor and `startNewGame` call it. */
    method LoadStartingPosition()
      requires WellFormedFen(fenStartingPosition)
      modifies this`pieces, this`moveHistory, this`lastMove, this`gameOver, this`capturedByWhite,
               this`capturedByBlack, this`displayMoves, this`sanHistory, this`lastResultTag,
               this`whiteToMove, this`enPassantTile
      ensures State() == LoadedPosition(fenStartingPosition)
      ensures moveHistory == [] && displayMoves == [] && sanHistory == [] && lastMove == None
      ensures capturedByWhite == [] && capturedByBlack == [] && lastResultTag == "*"
      ensures Valid()
    {
      LoadPositionFromFEN(fenStartingPosition);
    }

    /** `clearAnalysisReview`: review mode off, the pointer before the first move, no snapshots and no review moves. */
    method ClearAnalysisReview()
      modifies this`analysisMode, this`analysisPointer, this`snapshotCount, this`reviewUciMoves, this`reviewSanMoves
      ensures !analysisMode && analysisPointer == -1 && snapshotCount == 0
      ensures reviewUciMoves == [] && reviewSanMoves == []
    {
      analysisMode, analysisPointer, snapshotCount, reviewUciMoves, reviewSanMoves := false, -1, 0, [], [];
    }

    /** `enableManualSetup`: play may start on whatever position is set up. */
    method EnableManualSetup()
      modifies this`gameActive, this`gameOver
      ensures Valid() && gameActive && !gameOver
    {
      gameActive := true;
      gameOver := false;
    }

    /**
     * `loadPositionFromFEN`: the logs, captures and last move are cleared,
     * the placement field is walked square by square, then the side to move,
     * the corner rooks' first-move flags and the en-passant tile are read.
     */
    method LoadPositionFromFEN(fen: string)
      requires WellFormedFen(fen)
      modifies this`pieces, this`moveHistory, this`lastMove, this`gameOver, this`capturedByWhite,
               this`capturedByBlack, this`displayMoves, this`sanHistory, this`lastResultTag,
               this`whiteToMove, this`enPassantTile
      ensures State() == LoadedPosition(fen)
      ensures moveHistory == [] && displayMoves == [] && sanHistory == [] && lastMove == None
      ensures capturedByWhite == [] && capturedByBlack == [] && lastResultTag == "*"
      ensures Valid()
    {
      ClearForLoad();
      var parts := Split(fen);
      SetUpPosition(parts);
    }

    /** The clearing that opens `loadPositionFromFEN`: no pieces, an empty log, no captures, an open result. */
    method ClearForLoad()
      modifies this`pieces, this`moveHistory, this`lastMove, this`gameOver, this`capturedByWhite,
               this`capturedByBlack, this`displayMoves, this`sanHistory, this`lastResultTag
      ensures pieces == [] && !gameOver
      ensures moveHistory == [] && displayMoves == [] && sanHistory == [] && lastMove == None
      ensures capturedByWhite == [] && capturedByBlack == [] && lastResultTag == "*"
    {
      pieces := [];
      moveHistory := [];
      lastMove := None;
      gameOver := false;
      capturedByWhite, capturedByBlack, displayMoves, sanHistory := [], [], [], [];
      lastResultTag := "*";
    }

    /** The fields of `loadPositionFromFEN` after the split, read onto a cleared board. */
    method SetUpPosition(parts: seq<string>)
      requires FieldsPresent(parts) && pieces == [] && !gameOver
      modifies this`pieces, this`whiteToMove, this`enPassantTile
      ensures State() == FieldsPosition(parts)
    {
      PlacePieces(parts[0]);
      assert pieces == PlaceFrom(parts[0], 0, 0);
      whiteToMove := parts[1] == "w";
      SetCastlingRights(parts[2]);
      if parts[3] == "-" {
        enPassantTile := -1;
      } else {
        enPassantTile := (7 - (parts[3][1] as int - '1' as int)) * 8 + (parts[3][0] as int - 'a' as int);
      }
    }

    /** The placement loop of `loadPositionFromFEN`: pieces are appended square by square, in reading order. */
    method PlacePieces(placement: string)
      modifies this`pieces
      ensures pieces == old(pieces) + PlaceFrom(placement, 0, 0)
    {
      var row, col := 0, 0;
      for i := 0 to |placement|
        invariant pieces + PlaceFrom(placement[i..], col, row) == old(pieces) + PlaceFrom(placement, 0, 0)
      {
        var ch := placement[i];
        assert placement[i..] == [ch] + placement[i + 1..];
        if ch == '/' {
          row := row + 1;
          col := 0;
        } else if IsDigit(ch) {
          col := col + NumericValue(ch);
        } else {
          var isWhite := 'A' <= ch <= 'Z';
          match KindOf(ToLower(ch)) {
            case Some(k) =>
              pieces := pieces + [NewPiece(k, col, row, isWhite)];
            case None =>
          }
          col := col + 1;
        }
      }
      assert placement[|placement|..] == [];
    }

    /** The castling field of `loadPositionFromFEN`: each corner rook's first-move flag, black queen side first. */
    method SetCastlingRights(castling: string)
      modifies this`pieces
      ensures pieces == WithCastlingRights(old(pieces), castling)
    {
      pieces := SetCornerRook(pieces, 0, 0, Contains(castling, "q"));
      pieces := SetCornerRook(pieces, 7, 0, Contains(castling, "k"));
      pieces := SetCornerRook(pieces, 0, 7, Contains(castling, "Q"));
      pieces := SetCornerRook(pieces, 7, 7, Contains(castling, "K"));
    }

    /** `removePiece`: the piece at index `i` leaves the list. */
    method RemovePiece(i: nat)
      requires i < |pieces|
      modifies this`pieces
      ensures pieces == RemoveAt(old(pieces), i)
    {
      pieces := pieces[..i] + pieces[i + 1..];
    }

    /** `promotePawn`: a Queen of the pawn's colour is appended on the landing square and the pawn is removed. */
    method PromotePawn(m: Move)
      requires Picked(pieces, m)
      modifies this`pieces
      ensures pieces == RemoveAt(old(pieces) + [PromotedQueen(m)], MoverIndex(old(pieces), m))
    {
      var k := MoverIndex(pieces, m);
      pieces := pieces + [NewPiece(Queen, m.newCol, m.newRow, m.piece.white)];
      RemovePiece(k);
    }

    /**
     * `movePawn`: the piece the move takes (redirected behind the landing
     * square on the en-passant tile), the new en-passant tile, and promotion
     * on the far row.
     */
    method MovePawn(m: Move) returns (taken: Option<nat>)
      requires Picked(pieces, m) && m.piece.kind == Pawn
      modifies this`pieces, this`enPassantTile
      ensures taken == CaptureIndex(old(State()), m)
      ensures pieces == AfterPromotion(old(State()), m)
      ensures enPassantTile == NextEnPassantTile(old(State()), m)
      ensures Record() == old(Record())
    {
      var colorIndex := if m.piece.white then 1 else -1;
      taken := IndexAt(pieces, m.newCol, m.newRow);
      if TileNum(m.newCol, m.newRow) == enPassantTile {
        taken := IndexAt(pieces, m.newCol, m.newRow + colorIndex);
      }
      if Abs(m.piece.row - m.newRow) == 2 {
        enPassantTile := TileNum(m.newCol, m.newRow + colorIndex);
      } else {
        enPassantTile := -1;
      }
      var promotionRow := if m.piece.white then 0 else 7;
      if m.newRow == promotionRow {
        PromotePawn(m);
      }
    }

    /** `moveKing`: a two-column king move carries the Rook of the corner it heads for to the square it crosses. */
    method MoveKing(m: Move) returns (castled: bool)
      requires Picked(pieces, m) && m.piece.kind == King
      modifies this`pieces
      ensures castled <==> RookIndex(old(pieces), m).Some?
      ensures pieces == AfterCastle(old(State()), m)
    {
      castled := false;
      if Abs(m.piece.col - m.newCol) == 2 {
        var rookStartCol := if m.piece.col < m.newCol then 7 else 0;
        var rookTargetCol := if m.piece.col < m.newCol then 5 else 3;
        var j := IndexAt(pieces, rookStartCol, m.piece.row);
        if j.Some? && pieces[j.value].kind == Rook {
          pieces := pieces[j.value := Moved(pieces[j.value], rookTargetCol, m.piece.row)];
          castled := true;
        }
      }
    }

    /** `capture`: the piece's icon goes to the other side's captures (White pieces to Black's), then the piece at `slot` leaves the list. */
    method Capture(taken: Option<Piece>, slot: Option<nat>)
      requires slot.Some? ==> slot.value < |pieces|
      modifies this`pieces, this`capturedByWhite, this`capturedByBlack
      ensures capturedByBlack == Logged(old(capturedByBlack), taken, true)
      ensures capturedByWhite == Logged(old(capturedByWhite), taken, false)
      ensures pieces == if taken.Some? && slot.Some? then RemoveAt(old(pieces), slot.value) else old(pieces)
      ensures Record() == old(Record())
    {
      if taken.None? {
        return;
      }
      if taken.value.white {
        capturedByBlack := capturedByBlack + [PieceIcon(taken.value)];
      } else {
        capturedByWhite := capturedByWhite + [PieceIcon(taken.value)];
      }
      if slot.Some? {
        RemovePiece(slot.value);
      }
    }

    /** The piece moves of `makeMove`: `movePawn` or `moveKing`, then the mover lands on its new square as moved. */
    method MovePiece(m: Move) returns (taken: Option<nat>, castled: bool)
      requires Built(pieces, m)
      modifies this`pieces, this`enPassantTile
      ensures taken == CaptureIndex(old(State()), m)
      ensures castled == RookIndex(old(pieces), m).Some?
      ensures pieces == AfterLanding(old(State()), m)
      ensures enPassantTile == NextEnPassantTile(old(State()), m)
    {
      ghost var pos := State();
      var k := MoverIndex(pieces, m);
      taken := IndexAt(pieces, m.newCol, m.newRow);
      castled := false;
      if m.piece.kind == Pawn {
        taken := MovePawn(m);
      } else if m.piece.kind == King {
        castled := MoveKing(m);
      }
      assert pieces == AfterCastle(pos, m);
      if !Promotes(m) {
        pieces := pieces[k := Moved(m.piece, m.newCol, m.newRow)];
      }
    }

    /**
     * The board half of `makeMove`: the pieces move, the taken piece is
     * logged and removed, the turn passes and the move becomes `lastMove`.
     */
    method CommitMove(m: Move)
      requires Built(pieces, m)
      modifies this`pieces, this`enPassantTile, this`capturedByWhite, this`capturedByBlack, this`whiteToMove, this`lastMove
      ensures Trace() == Committed(old(State()), m, old(capturedByWhite), old(capturedByBlack))
      ensures Record() == old(Record())
    {
      var pos := State();
      var taken, castled := MovePiece(m);
      Capture(Taken(pos, m), CaptureSlot(pos, m));
      HandOver(m.(piece := Moved(m.piece, m.newCol, m.newRow), capture := Taken(pos, m),
                  isCastle := castled, isPromotion := Promotes(m)));
    }

    /** The end of `makeMove`'s board update: the turn passes and `last` becomes the last move. */
    method HandOver(last: Move)
      modifies this`whiteToMove, this`lastMove
      ensures Trace() == old(Trace()).(whiteToMove := !old(whiteToMove), lastMove := Some(last))
      ensures Record() == old(Record())
    {
      whiteToMove := !whiteToMove;
      lastMove := Some(last);
    }

    /**
     * `makeMove(move, triggerSideEffects)`. On an inactive board with side
     * effects requested nothing happens. Otherwise the piece list becomes
     * `Commit` of the old position, the side to move flips, the en-passant
     * tile and last move are updated and the taken piece's icon is logged;
     * with side effects the game state is judged and the move recorded in
     * UCI and SAN, with `#` on mate and `+` on check.
     */
    method MakeMove(m: Move, triggerSideEffects: bool)
      returns (ghost next: Position, ghost san: string, ghost verdict: Verdict, ghost inCheck: bool)
      requires Valid()
      requires Built(pieces, m)
      requires triggerSideEffects ==> IsInsideBoard(m.oldCol, m.oldRow) && IsInsideBoard(m.newCol, m.newRow)
      requires triggerSideEffects && gameActive ==> FindKing(Commit.Commit(State(), m).pieces, !whiteToMove).Some?
      modifies this`pieces, this`enPassantTile, this`capturedByWhite, this`capturedByBlack, this`whiteToMove, this`lastMove,
               this`lastMoveDeliveredCheck, this`lastMoveDeliveredMate, this`selectedPiece, this`gameOver,
               this`gameActive, this`lastResultTag, this`moveHistory, this`displayMoves, this`sanHistory
      ensures Valid()
      ensures triggerSideEffects && !old(gameActive) ==> unchanged(this)
      ensures !triggerSideEffects || old(gameActive) ==>
        && next == Commit.Commit(old(State()), m)
        && Trace() == Committed(old(State()), m, old(capturedByWhite), old(capturedByBlack))
      ensures !triggerSideEffects ==> Record() == old(Record()) && selectedPiece == old(selectedPiece)
      ensures triggerSideEffects && old(gameActive) ==>
        && san == SanBefore(rules, old(State()), m)
        && verdict == Judge(rules, next)
        && inCheck == SideInCheck(next)
        && Record() == Announcement(old(Record()), m, san, verdict, inCheck, next.whiteToMove)
    {
      next, san, verdict, inCheck := old(State()), "", Play, false;
      if triggerSideEffects && !gameActive {
        return;
      }
      next := Commit.Commit(State(), m);
      if triggerSideEffects {
        next, san, verdict, inCheck := PlayMove(m);
      } else {
        CommitMove(m);
      }
    }

    /** The fields a move commits. */
    function Trace(): Trail
      reads this`pieces, this`whiteToMove, this`enPassantTile, this`lastMove, this`capturedByWhite, this`capturedByBlack
    {
      Trail(pieces, whiteToMove, enPassantTile, lastMove, capturedByWhite, capturedByBlack)
    }

    /** The board's record of the game. */
    function Record(): Annals
      reads this`lastMoveDeliveredCheck, this`lastMoveDeliveredMate, this`gameOver, this`gameActive,
            this`lastResultTag, this`moveHistory, this`sanHistory, this`displayMoves
    {
      Annals(lastMoveDeliveredCheck, lastMoveDeliveredMate, gameOver, gameActive, lastResultTag,
             moveHistory, sanHistory, displayMoves)
    }

    /** `makeMove` with side effects on an active board: the SAN core is read off the board before the move, then the move is committed and announced. */
    method PlayMove(m: Move) returns (ghost next: Position, ghost san: string, ghost verdict: Verdict, ghost inCheck: bool)
      requires Valid() && gameActive
      requires Built(pieces, m)
      requires IsInsideBoard(m.oldCol, m.oldRow) && IsInsideBoard(m.newCol, m.newRow)
      requires FindKing(Commit.Commit(State(), m).pieces, !whiteToMove).Some?
      modifies this`pieces, this`enPassantTile, this`capturedByWhite, this`capturedByBlack, this`whiteToMove, this`lastMove,
               this`lastMoveDeliveredCheck, this`lastMoveDeliveredMate, this`selectedPiece, this`gameOver,
               this`gameActive, this`lastResultTag, this`moveHistory, this`displayMoves, this`sanHistory
      ensures Valid()
      ensures next == Commit.Commit(old(State()), m)
      ensures Trace() == Committed(old(State()), m, old(capturedByWhite), old(capturedByBlack))
      ensures san == SanBefore(rules, old(State()), m)
      ensures verdict == Judge(rules, next) && inCheck == SideInCheck(next)
      ensures Record() == Announcement(old(Record()), m, san, verdict, inCheck, next.whiteToMove)
    {
      var pos := State();
      var sanCore := BuildSanCore(rules, pos, m);
      san := sanCore;
      CommitMove(m);
      next := Commit.Commit(pos, m);
      verdict, inCheck := Announce(m, sanCore, next);
    }

    /**
     * The side-effect half of `makeMove`, on the position the move produced:
     * the game state is judged, then the move is recorded with `#` after a
     * mating move and `+` after a checking one.
     */
    method Announce(m: Move, sanCore: string, ghost next: Position) returns (ghost verdict: Verdict, ghost inCheck: bool)
      requires next == State()
      requires Valid() && gameActive && FindKing(next.pieces, next.whiteToMove).Some?
      requires IsInsideBoard(m.oldCol, m.oldRow) && IsInsideBoard(m.newCol, m.newRow)
      modifies this`lastMoveDeliveredCheck, this`lastMoveDeliveredMate, this`selectedPiece, this`gameOver,
               this`gameActive, this`lastResultTag, this`moveHistory, this`displayMoves, this`sanHistory
      ensures Valid()
      ensures verdict == Judge(rules, next) && inCheck == SideInCheck(next)
      ensures Record() == Announcement(old(Record()), m, sanCore, verdict, inCheck, next.whiteToMove)
      ensures Trace() == old(Trace())
    {
      verdict := UpdateGameState();
      inCheck := lastMoveDeliveredCheck;
      var notation := Annotated(sanCore, lastMoveDeliveredCheck, lastMoveDeliveredMate);
      RecordMove(m, notation);
    }

    /**
     * `updateGameState` on an active board: records whether the side to move
     * is in check; ends the game on mate, stalemate or insufficient material
     * on both sides, exactly as `Judge` decides.
     */
    method UpdateGameState() returns (ghost verdict: Verdict)
      requires Valid()
      requires gameActive ==> FindKing(pieces, whiteToMove).Some?
      modifies this`lastMoveDeliveredCheck, this`lastMoveDeliveredMate, this`selectedPiece, this`gameOver,
               this`gameActive, this`lastResultTag
      ensures Valid()
      ensures !old(gameActive) ==> unchanged(this)
      ensures old(gameActive) ==> verdict == Judge(rules, old(State()))
      ensures old(gameActive) ==>
        && lastMoveDeliveredCheck == SideInCheck(old(State()))
        && lastMoveDeliveredMate == (verdict == Checkmate)
        && gameOver == EndMessage(verdict, whiteToMove).Some?
        && gameActive == EndMessage(verdict, whiteToMove).None?
        && lastResultTag == (if gameOver then ResultTag(EndMessage(verdict, whiteToMove).value) else old(lastResultTag))
        && selectedPiece == ScanSelection(rules, old(State()), old(selectedPiece))
      ensures Trace() == old(Trace())
    {
      verdict := Play;
      if !gameActive {
        return;
      }
      var pos := State();
      var kingChecked, over, dead := Survey(pos);
      var v := Decide(over, kingChecked, dead);
      verdict := v;
      Conclude(v);
    }

    /** The verdict `Judge` gives is the one the answers of `Survey` lead to. */
    lemma JudgeFromSurvey(pos: Position, kingChecked: bool, over: bool, dead: bool)
      requires FindKing(pos.pieces, pos.whiteToMove).Some?
      requires kingChecked == SideInCheck(pos)
      requires over == !HasLegalMove(rules, pos, pos.whiteToMove)
      requires dead == (!over && InsufficientMaterial(pos.pieces, true) && InsufficientMaterial(pos.pieces, false))
      ensures Judge(rules, pos) == Decide(over, kingChecked, dead)
    {
      JudgeVerdicts(rules, pos);
    }

    /**
     * The questions `updateGameState` asks of the board: is the side to move
     * in check, can it move at all (`isGameOver`), and, only when it can, is
     * the material insufficient on both sides.
     */
    method Survey(pos: Position) returns (kingChecked: bool, over: bool, dead: bool)
      requires FindKing(pos.pieces, pos.whiteToMove).Some?
      modifies this`lastMoveDeliveredCheck, this`lastMoveDeliveredMate, this`selectedPiece
      ensures kingChecked == SideInCheck(pos) && lastMoveDeliveredCheck == kingChecked && !lastMoveDeliveredMate
      ensures Judge(rules, pos) == Decide(over, kingChecked, dead)
      ensures selectedPiece == ScanSelection(rules, pos, old(selectedPiece))
      ensures Trace() == old(Trace())
    {
      lastMoveDeliveredCheck := false;
      lastMoveDeliveredMate := false;
      var king := FindKing(pos.pieces, pos.whiteToMove).value;
      kingChecked := IsKingChecked(pos.pieces, StandStill(pos.pieces, king));
      lastMoveDeliveredCheck := kingChecked;
      over := IsGameOver(pos, king);
      dead := false;
      if !over {
        dead := InsufficientMaterial(pos.pieces, true) && InsufficientMaterial(pos.pieces, false);
      }
      JudgeFromSurvey(pos, kingChecked, over, dead);
    }

    /**
     * The branches that close `updateGameState`: with no legal move, mate when
     * in check (the side that just moved wins) and stalemate otherwise; then
     * insufficient material on both sides ends the game as a draw.
     */
    method Conclude(v: Verdict)
      requires Valid() && gameActive
      modifies this`lastMoveDeliveredMate, this`gameOver, this`gameActive, this`lastResultTag
      ensures Valid()
      ensures lastMoveDeliveredMate == (if v == Checkmate then true else old(lastMoveDeliveredMate))
      ensures gameOver == EndMessage(v, whiteToMove).Some?
      ensures gameActive == EndMessage(v, whiteToMove).None?
      ensures lastResultTag == (if gameOver then ResultTag(EndMessage(v, whiteToMove).value) else old(lastResultTag))
      ensures Trace() == old(Trace())
    {
      match v
      case Checkmate =>
        lastMoveDeliveredMate := true;
        FinishGame(if whiteToMove then "Black wins!" else "White wins!");
      case Stalemate =>
        FinishGame("Stalemate!");
      case DeadPosition =>
        FinishGame("Draw: Insufficient material!");
      case _ =>
    }

    /** `finishGame`: the game is over, no longer active, and the result tag is read off the message. */
    method FinishGame(message: string)
      modifies this`gameOver, this`gameActive, this`lastResultTag
      ensures gameOver && !gameActive && Valid()
      ensures lastResultTag == ResultTag(message)
    {
      gameOver := true;
      gameActive := false;
      if Contains(message, "White wins") {
        lastResultTag := "1-0";
      } else if Contains(message, "Black wins") {
        lastResultTag := "0-1";
      } else {
        lastResultTag := "1/2-1/2";
      }
    }

    /**
     * `CheckScanner.isGameOver(king)`: every piece of the king's colour is
     * tried on every square, rows outer and columns inner, and the scan stops
     * at the first valid move. It leaves `selectedPiece` pointing at the king
     * or at nothing, as set for the last piece it scanned.
     */
    method IsGameOver(pos: Position, king: Piece) returns (over: bool)
      modifies this`selectedPiece
      ensures over <==> !HasLegalMove(rules, pos, king.white)
      ensures selectedPiece == LastSelected(pos.pieces, king, ScanFrom(rules, pos, king.white, 0), old(selectedPiece))
      ensures Trace() == old(Trace())
    {
      var ps := pos.pieces;
      ghost var init := selectedPiece;
      var i := 0;
      while i < |ps|
        invariant 0 <= i <= |ps|
        invariant HasLegalMove(rules, pos, king.white) == MobileFrom(rules, pos, king.white, i)
        invariant selectedPiece == LastSelected(ps, king, i, init)
        invariant ScanFrom(rules, pos, king.white, 0) == ScanFrom(rules, pos, king.white, i)
      {
        var piece := ps[i];
        if piece.white == king.white {
          selectedPiece := if piece == king then Some(king) else None;
          var canMove := PieceCanMove(pos, piece);
          if canMove {
            assert Mobile(rules, pos, king.white, ps[i]);
            return false;
          }
        }
        i := i + 1;
      }
      return true;
    }

    /** The inner loops of `isGameOver`: `piece` is tried on every square, rows outer and columns inner. */
    method PieceCanMove(pos: Position, piece: Piece) returns (found: bool)
      ensures found == CanMove(rules, pos, piece)
    {
      var row := 0;
      while row < 8
        invariant 0 <= row <= 8
        invariant forall r, c :: 0 <= r < row && 0 <= c < 8 ==> !IsValidMove(rules, pos, NewMove(pos.pieces, piece, c, r))
      {
        var col := 0;
        while col < 8
          invariant 0 <= col <= 8
          invariant forall c :: 0 <= c < col ==> !IsValidMove(rules, pos, NewMove(pos.pieces, piece, c, row))
        {
          if IsValidMove(rules, pos, NewMove(pos.pieces, piece, col, row)) {
            return true;
          }
          col := col + 1;
        }
        row := row + 1;
      }
      return false;
    }

    /** `recordMove`: the UCI string, the move-log entry and the SAN string are appended. */
    method RecordMove(m: Move, notation: string)
      requires IsInsideBoard(m.oldCol, m.oldRow) && IsInsideBoard(m.newCol, m.newRow)
      modifies this`moveHistory, this`displayMoves, this`sanHistory
      ensures moveHistory == old(moveHistory) + [ToUci(m.oldCol, m.oldRow, m.newCol, m.newRow, m.piece)]
      ensures displayMoves == AppendDisplay(old(displayMoves), m.piece.white, notation)
      ensures sanHistory == old(sanHistory) + [notation]
      ensures Trace() == old(Trace())
    {
      moveHistory := moveHistory + [ToUci(m.oldCol, m.oldRow, m.newCol, m.newRow, m.piece)];
      if m.piece.white {
        var moveNumber := |displayMoves| + 1;
        displayMoves := displayMoves + [NatString(moveNumber) + ". " + notation];
      } else {
        if |displayMoves| == 0 {
          displayMoves := displayMoves + ["1... " + notation];
        } else {
          var idx := |displayMoves| - 1;
          displayMoves := displayMoves[idx := displayMoves[idx] + " " + notation];
        }
      }
      sanHistory := sanHistory + [notation];
    }

    /** `rebuildDisplayMovesForPointer`: the move log and SAN list of review mode, up to the pointer. */
    method RebuildDisplayMovesForPointer()
      modifies this`displayMoves, this`sanHistory
      ensures displayMoves == RebuiltDisplay(reviewSanMoves, ShownPlies(analysisPointer, |reviewSanMoves|))
      ensures sanHistory == reviewSanMoves[..ShownPlies(analysisPointer, |reviewSanMoves|)]
    {
      displayMoves := [];
      sanHistory := [];
      var i := 0;
      while i <= analysisPointer && i < |reviewSanMoves|
        invariant 0 <= i <= ShownPlies(analysisPointer, |reviewSanMoves|)
        invariant displayMoves == RebuiltDisplay(reviewSanMoves, i)
        invariant sanHistory == reviewSanMoves[..i]
      {
        ShowPly(reviewSanMoves, i);
        i := i + 1;
      }
    }

    /** One pass of the loop of `rebuildDisplayMovesForPointer`: ply `i` joins the log and the SAN list. */
    method ShowPly(sans: seq<string>, i: nat)
      requires i < |sans|
      requires displayMoves == RebuiltDisplay(sans, i) && sanHistory == sans[..i]
      modifies this`displayMoves, this`sanHistory
      ensures displayMoves == RebuiltDisplay(sans, i + 1) && sanHistory == sans[..i + 1]
    {
      var notation := sans[i];
      RebuiltNext(sans, i);
      if i % 2 == 0 {
        var moveNumber := i / 2 + 1;
        displayMoves := displayMoves + [NatString(moveNumber) + ". " + notation];
      } else {
        var idx := |displayMoves| - 1;
        if idx >= 0 {
          displayMoves := displayMoves[idx := displayMoves[idx] + " " + notation];
        }
      }
      assert sans[..i + 1] == sans[..i] + [notation];
      sanHistory := sanHistory + [notation];
    }

    /**
     * `stepAnalysis`: in review mode with snapshots, the pointer moves by
     * `delta` within [-1, last ply]; when it moved, the log is rebuilt.
     */
    method StepAnalysis(delta: int)
      modifies this`analysisPointer, this`displayMoves, this`sanHistory
      ensures !old(analysisMode) || snapshotCount == 0 ==> unchanged(this)
      ensures old(analysisMode) && snapshotCount > 0 ==>
        analysisPointer == StepPointer(old(analysisPointer), delta, |reviewUciMoves|)
      ensures old(analysisMode) && snapshotCount > 0 && analysisPointer != old(analysisPointer) ==>
        displayMoves == RebuiltDisplay(reviewSanMoves, ShownPlies(analysisPointer, |reviewSanMoves|))
        && sanHistory == reviewSanMoves[..ShownPlies(analysisPointer, |reviewSanMoves|)]
      ensures analysisPointer == old(analysisPointer) ==> unchanged(this)
    {
      if !analysisMode || snapshotCount == 0 {
        return;
      }
      var newPointer := StepPointer(analysisPointer, delta, |reviewUciMoves|);
      if newPointer == analysisPointer {
        return;
      }
      analysisPointer := newPointer;
      RebuildDisplayMovesForPointer();
    }
  }

  /** The starting position has the four fields `loadPositionFromFEN` reads. */
  lemma StartingFenWellFormed()
    ensures WellFormedFen(StartingFen)
  {
    StartingFenFields();
    PlacementSpaceFree();
    FieldsAfterDash();
    FourFields(StartingFen, StartingPlacement, "w KQkq - 0 1", "KQkq - 0 1", "- 0 1");
  }

  /** A space-free placement field, `w`, `KQkq` and fields starting with `-` make four fields. */
  lemma FourFields(fen: string, placement: string, f1: string, f2: string, f3: string)
    requires fen == placement + [' '] + f1 && ' ' !in placement
    requires f1 == "w" + [' '] + f2 && f2 == "KQkq" + [' '] + f3
    requires SplitOn(f3, ' ') == ["-", "0", "1"]
    ensures WellFormedFen(fen)
  {
    SplitOnField(placement, f1, ' ');
    SplitOnField("w", f2, ' ');
    SplitOnField("KQkq", f3, ' ');
    var r := SplitOn(fen, ' ');
    assert r == [placement] + (["w"] + (["KQkq"] + ["-", "0", "1"]));
    assert |r| == 6 && r[3] == "-" && r[5] == "1";
    assert DropTrailingEmpty(r) == r;
    assert fen[|placement|] == ' ';
    assert Split(fen) == r;
  }

  /** The starting position, field by field. */
  lemma StartingFenFields()
    ensures StartingFen == StartingPlacement + [' '] + "w KQkq - 0 1"
    ensures "w KQkq - 0 1" == "w" + [' '] + "KQkq - 0 1"
    ensures "KQkq - 0 1" == "KQkq" + [' '] + "- 0 1"
    ensures ' ' in StartingFen
  {
    assert StartingFen[43] == ' ';
  }

  /** The placement field holds no space. */
  lemma PlacementSpaceFree()
    ensures ' ' !in StartingPlacement
  {
    forall i | 0 <= i < |StartingPlacement|
      ensures StartingPlacement[i] != ' '
    {
    }
  }

  /** The last three fields of the starting position. */
  lemma FieldsAfterDash()
    ensures SplitOn("- 0 1", ' ') == ["-", "0", "1"]
  {
    assert "- 0 1" == "-" + [' '] + "0 1";
    assert "0 1" == "0" + [' '] + "1";
    SplitOnField("-", "0 1", ' ');
    SplitOnField("0", "1", ' ');
    SplitOnWhole("1", ' ');
  }
}
