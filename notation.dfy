/**
 * The move notations of `main/Board.java`: square names, UCI strings and
 * their parsing back into moves, and the core of standard algebraic notation
 * (SAN) with its disambiguation prefix and check marks.
 */
module Notation {
  import opened Wrappers
  import opened Pieces
  import opened Position
  import opened Legality
  import opened Text

  /** The file letter of a column: `(char) ('a' + col)`. */
  function FileChar(col: int): (c: char)
    requires 0 <= col < 8
    ensures 'a' <= c <= 'h' && c as int - 'a' as int == col
  {
    ('a' as int + col) as char
  }

  /** `squareName`: the file letter, then the rank `8 - row`. */
  function SquareName(col: int, row: int): (s: string)
    requires IsInsideBoard(col, row)
    ensures |s| == 2 && 'a' <= s[0] <= 'h' && '1' <= s[1] <= '8'
  {
    [FileChar(col), DigitChar(8 - row)]
  }

  /** `Character.getNumericValue` on the ASCII digits and Latin letters; -1 on anything else. */
  function NumericValue(c: char): (v: int)
    ensures '0' <= c <= '9' ==> v == c as int - '0' as int
    ensures v >= -1
  {
    if '0' <= c <= '9' then c as int - '0' as int
    else if 'a' <= c <= 'z' then c as int - 'a' as int + 10
    else if 'A' <= c <= 'Z' then c as int - 'A' as int + 10
    else -1
  }

  /** The square a square name denotes: the inverse of `SquareName`. */
  lemma SquareNameInverse(col: int, row: int)
    requires IsInsideBoard(col, row)
    ensures SquareName(col, row)[0] as int - 'a' as int == col
    ensures 8 - NumericValue(SquareName(col, row)[1]) == row
  {
  }

  /** A pawn moving to its promotion row: the promotion suffix `q` of `toUci`. */
  predicate UciPromotes(piece: Piece, toRow: int)
  {
    piece.kind == Pawn && toRow == (if piece.white then 0 else 7)
  }

  /** `toUci`: origin, destination, and `q` for a pawn reaching its promotion row. */
  function ToUci(fromCol: int, fromRow: int, toCol: int, toRow: int, piece: Piece): (s: string)
    requires IsInsideBoard(fromCol, fromRow) && IsInsideBoard(toCol, toRow)
    ensures |s| == (if UciPromotes(piece, toRow) then 5 else 4)
    ensures s[..2] == SquareName(fromCol, fromRow) && s[2..4] == SquareName(toCol, toRow)
    ensures |s| == 5 ==> s[4] == 'q'
  {
    SquareName(fromCol, fromRow) + SquareName(toCol, toRow) + (if UciPromotes(piece, toRow) then "q" else "")
  }

  /**
   * `createMoveFromUci`: null for a string shorter than four characters or
   * for an empty origin square, otherwise the move the `Move` constructor
   * builds for the piece on the origin square. A fifth character is ignored.
   */
  function CreateMoveFromUci(ps: seq<Piece>, uci: string): (r: Option<Move>)
    ensures |uci| < 4 ==> r.None?
    ensures r.Some? ==> r.value.piece in ps && r.value == NewMove(ps, r.value.piece, r.value.newCol, r.value.newRow)
    ensures |uci| >= 4 ==>
      (r.None? <==> GetPiece(ps, uci[0] as int - 'a' as int, 8 - NumericValue(uci[1])).None?)
    ensures r.Some? ==>
      && GetPiece(ps, uci[0] as int - 'a' as int, 8 - NumericValue(uci[1])) == Some(r.value.piece)
      && r.value.newCol == uci[2] as int - 'a' as int
      && r.value.newRow == 8 - NumericValue(uci[3])
  {
    if |uci| < 4 then None
    else
      var fromCol := uci[0] as int - 'a' as int;
      var fromRow := 8 - NumericValue(uci[1]);
      var toCol := uci[2] as int - 'a' as int;
      var toRow := 8 - NumericValue(uci[3]);
      match GetPiece(ps, fromCol, fromRow)
      case None => None
      case Some(piece) => Some(NewMove(ps, piece, toCol, toRow))
  }

  /**
   * Round trip: on a board with one piece per square, parsing the UCI string
   * of a listed piece's move rebuilds exactly that move, promotion or not.
   */
  lemma UciRoundTrip(ps: seq<Piece>, p: Piece, col: int, row: int)
    requires UniqueSquares(ps) && p in ps
    requires IsInsideBoard(p.col, p.row) && IsInsideBoard(col, row)
    ensures CreateMoveFromUci(ps, ToUci(p.col, p.row, col, row, p)) == Some(NewMove(ps, p, col, row))
  {
    var u := ToUci(p.col, p.row, col, row, p);
    SquareNameInverse(p.col, p.row);
    SquareNameInverse(col, row);
    assert u[0] == SquareName(p.col, p.row)[0] && u[1] == SquareName(p.col, p.row)[1];
    assert u[2] == SquareName(col, row)[0] && u[3] == SquareName(col, row)[1];
    UniqueGetPiece(ps, p);
  }

  /** `pieceLetter`: N, B, R, Q, K, and nothing for a pawn. */
  function PieceLetter(kind: Kind): (s: string)
    ensures kind == Pawn <==> s == ""
    ensures |s| <= 1
    ensures |s| == 1 ==> s[0] in {'N', 'B', 'R', 'Q', 'K'}
  {
    match kind
    case Knight => "N"
    case Bishop => "B"
    case Rook => "R"
    case Queen => "Q"
    case King => "K"
    case Pawn => ""
  }

  /** Different kinds of piece get different letters. */
  lemma PieceLetterInjective(a: Kind, b: Kind)
    requires PieceLetter(a) == PieceLetter(b)
    ensures a == b
  {
    match a
    case Pawn =>
    case Knight => assert PieceLetter(b)[0] == 'N';
    case Bishop => assert PieceLetter(b)[0] == 'B';
    case Rook => assert PieceLetter(b)[0] == 'R';
    case Queen => assert PieceLetter(b)[0] == 'Q';
    case King => assert PieceLetter(b)[0] == 'K';
  }

  /** `isPromotionMove`: a pawn reaching the first or the last row. */
  predicate IsPromotionMove(m: Move)
  {
    m.piece.kind == Pawn && (m.newRow == 0 || m.newRow == 7)
  }

  /** `isEnPassantCapture`: a pawn landing on the marked, empty tile. */
  predicate IsEnPassantCapture(pos: Position, m: Move)
  {
    && m.piece.kind == Pawn
    && pos.enPassantTile != -1
    && TileNum(m.newCol, m.newRow) == pos.enPassantTile
    && GetPiece(pos.pieces, m.newCol, m.newRow).None?
  }

  /** `isKingSideCastle` and `isQueenSideCastle`: a King moving two columns right or left. */
  predicate IsKingSideCastle(m: Move)
  {
    m.piece.kind == King && m.newCol - m.oldCol == 2
  }

  predicate IsQueenSideCastle(m: Move)
  {
    m.piece.kind == King && m.oldCol - m.newCol == 2
  }

  /** `captureMove` of `makeMove`: a piece on the target square or an en-passant capture. */
  predicate IsCaptureMove(pos: Position, m: Move)
  {
    m.capture.Some? || IsEnPassantCapture(pos, m)
  }

  /** Another piece of the mover's kind and colour that could also move validly to the target: one iteration of `disambiguate` that sets `conflict`. */
  predicate Rival(rules: UnseenRules, pos: Position, m: Move, i: int)
  {
    && 0 <= i < |pos.pieces|
    && pos.pieces[i] != m.piece
    && pos.pieces[i].kind == m.piece.kind
    && pos.pieces[i].white == m.piece.white
    && IsValidMove(rules, pos, NewMove(pos.pieces, pos.pieces[i], m.newCol, m.newRow))
  }

  predicate Conflict(rules: UnseenRules, pos: Position, m: Move)
  {
    exists i {:trigger Rival(rules, pos, m, i)} | 0 <= i < |pos.pieces| :: Rival(rules, pos, m, i)
  }

  predicate SameFile(rules: UnseenRules, pos: Position, m: Move)
  {
    exists i {:trigger Rival(rules, pos, m, i)} | 0 <= i < |pos.pieces| :: Rival(rules, pos, m, i) && pos.pieces[i].col == m.oldCol
  }

  predicate SameRank(rules: UnseenRules, pos: Position, m: Move)
  {
    exists i {:trigger Rival(rules, pos, m, i)} | 0 <= i < |pos.pieces| :: Rival(rules, pos, m, i) && pos.pieces[i].row == m.oldRow
  }

  /**
   * What `disambiguate` returns: nothing for a pawn or without a rival;
   * otherwise the origin file, unless a rival shares the file but none the
   * rank (then the origin rank), or rivals share both (then file and rank).
   */
  function Disambiguation(rules: UnseenRules, pos: Position, m: Move): string
    requires IsInsideBoard(m.oldCol, m.oldRow)
  {
    if m.piece.kind == Pawn || !Conflict(rules, pos, m) then ""
    else
      var sameFile, sameRank := SameFile(rules, pos, m), SameRank(rules, pos, m);
      if !sameFile && !sameRank then [FileChar(m.oldCol)]
      else if sameFile && !sameRank then [DigitChar(8 - m.oldRow)]
      else if !sameFile && sameRank then [FileChar(m.oldCol)]
      else [FileChar(m.oldCol), DigitChar(8 - m.oldRow)]
  }

  /** The walk of `disambiguate` over the piece list. */
  method Disambiguate(rules: UnseenRules, pos: Position, m: Move) returns (s: string)
    requires IsInsideBoard(m.oldCol, m.oldRow)
    ensures s == Disambiguation(rules, pos, m)
  {
    if m.piece.kind == Pawn {
      return "";
    }
    var conflict, sameFile, sameRank := false, false, false;
    var i := 0;
    while i < |pos.pieces|
      invariant 0 <= i <= |pos.pieces|
      invariant conflict <==> exists j {:trigger Rival(rules, pos, m, j)} | 0 <= j < i :: Rival(rules, pos, m, j)
      invariant sameFile <==> exists j {:trigger Rival(rules, pos, m, j)} | 0 <= j < i :: Rival(rules, pos, m, j) && pos.pieces[j].col == m.oldCol
      invariant sameRank <==> exists j {:trigger Rival(rules, pos, m, j)} | 0 <= j < i :: Rival(rules, pos, m, j) && pos.pieces[j].row == m.oldRow
    {
      var other := pos.pieces[i];
      if other != m.piece && other.kind == m.piece.kind && other.white == m.piece.white {
        if IsValidMove(rules, pos, NewMove(pos.pieces, other, m.newCol, m.newRow)) {
          conflict := true;
          if other.col == m.oldCol {
            sameFile := true;
          }
          if other.row == m.oldRow {
            sameRank := true;
          }
        }
      }
      assert Rival(rules, pos, m, i) <==>
        other != m.piece && other.kind == m.piece.kind && other.white == m.piece.white
        && IsValidMove(rules, pos, NewMove(pos.pieces, other, m.newCol, m.newRow));
      i := i + 1;
    }
    if !conflict {
      return "";
    }
    var fileChar := FileChar(m.oldCol);
    var rank := [DigitChar(8 - m.oldRow)];
    if !sameFile && !sameRank {
      return [fileChar];
    }
    if sameFile && !sameRank {
      return rank;
    }
    if !sameFile && sameRank {
      return [fileChar];
    }
    return [fileChar] + rank;
  }

  /** A piece fits a disambiguation prefix when it stands on the file and on the rank the prefix names. */
  predicate FitsPrefix(prefix: string, m: Move, p: Piece)
  {
    && (|prefix| > 0 && 'a' <= prefix[0] <= 'h' ==> p.col == m.oldCol)
    && (|prefix| > 0 && '1' <= prefix[|prefix| - 1] <= '8' ==> p.row == m.oldRow)
  }

  /**
   * The prefix does its job for a piece other than a pawn: the mover fits it,
   * and on a board with one piece per square no rival that could reach the
   * same target fits it.
   */
  lemma DisambiguationIdentifies(rules: UnseenRules, pos: Position, m: Move)
    requires m.piece.kind != Pawn
    requires IsInsideBoard(m.oldCol, m.oldRow) && UniqueSquares(pos.pieces)
    requires m.piece in pos.pieces && m.oldCol == m.piece.col && m.oldRow == m.piece.row
    ensures FitsPrefix(Disambiguation(rules, pos, m), m, m.piece)
    ensures forall i :: Rival(rules, pos, m, i) ==> !FitsPrefix(Disambiguation(rules, pos, m), m, pos.pieces[i])
  {
    var d := Disambiguation(rules, pos, m);
    if Conflict(rules, pos, m) {
      var f, r := FileChar(m.oldCol), DigitChar(8 - m.oldRow);
      assert !('a' <= r <= 'h') && '1' <= r <= '8';
      assert !('1' <= f <= '8');
    }
    forall i | Rival(rules, pos, m, i)
      ensures !FitsPrefix(d, m, pos.pieces[i])
    {
      var p := pos.pieces[i];
      assert Conflict(rules, pos, m);
      UniqueGetPiece(pos.pieces, m.piece);
      UniqueGetPiece(pos.pieces, p);
      if p.col == m.oldCol {
        assert SameFile(rules, pos, m);
      } else if p.row == m.oldRow {
        assert SameRank(rules, pos, m);
      }
    }
  }

  /**
   * `buildSanCore`, with the disambiguation prefix passed in: castles as
   * O-O / O-O-O; otherwise piece letter and prefix (or a capturing pawn's
   * file), `x` for a capture, the target square, `=Q` for a promotion.
   */
  function SanCore(m: Move, isCapture: bool, isPromotion: bool, kingSideCastle: bool, queenSideCastle: bool,
                   disambiguation: string): (s: string)
    requires IsInsideBoard(m.oldCol, m.oldRow) && IsInsideBoard(m.newCol, m.newRow)
    ensures kingSideCastle ==> s == "O-O"
    ensures !kingSideCastle && queenSideCastle ==> s == "O-O-O"
  {
    if kingSideCastle then "O-O"
    else if queenSideCastle then "O-O-O"
    else
      SanLead(m, isCapture, disambiguation) + (if isCapture then "x" else "") + SquareName(m.newCol, m.newRow)
      + (if isPromotion then "=Q" else "")
  }

  /** What a non-castling SAN core opens with: the piece letter and disambiguation, or a capturing pawn's file. */
  function SanLead(m: Move, isCapture: bool, disambiguation: string): string
    requires IsInsideBoard(m.oldCol, m.oldRow)
  {
    if m.piece.kind != Pawn then PieceLetter(m.piece.kind) + disambiguation
    else if isCapture then [FileChar(m.oldCol)]
    else ""
  }

  /** A disambiguation prefix is made of file letters and rank digits. */
  predicate PrefixLike(d: string)
  {
    forall i :: 0 <= i < |d| ==> 'a' <= d[i] <= 'h' || '1' <= d[i] <= '8'
  }

  lemma DisambiguationIsPrefixLike(rules: UnseenRules, pos: Position, m: Move)
    requires IsInsideBoard(m.oldCol, m.oldRow)
    ensures PrefixLike(Disambiguation(rules, pos, m)) && |Disambiguation(rules, pos, m)| <= 2
  {
  }

  /** The target square a (non-castling) SAN string names: the two characters before any `=Q`. */
  function SanTarget(san: string): Option<(int, int)>
  {
    var core := if |san| >= 2 && san[|san| - 2..] == "=Q" then san[..|san| - 2] else san;
    if |core| < 2 then None
    else Some((core[|core| - 2] as int - 'a' as int, 8 - NumericValue(core[|core| - 1])))
  }

  /**
   * Reading a SAN core back: it names the move's target square, it ends in
   * `=Q` exactly for a promotion, it holds an `x` exactly for a capture, and
   * it opens with the piece letter, or with a file letter for a pawn.
   */
  lemma SanCoreReadBack(m: Move, isCapture: bool, isPromotion: bool, d: string)
    requires IsInsideBoard(m.oldCol, m.oldRow) && IsInsideBoard(m.newCol, m.newRow)
    requires PrefixLike(d)
    ensures var s := SanCore(m, isCapture, isPromotion, false, false, d);
      && SanTarget(s) == Some((m.newCol, m.newRow))
      && (|s| >= 2 && s[|s| - 2..] == "=Q" <==> isPromotion)
      && ('x' in s <==> isCapture)
      && (m.piece.kind != Pawn ==> s[0] == PieceLetter(m.piece.kind)[0])
      && (m.piece.kind == Pawn ==> 'a' <= s[0] <= 'h')
  {
    SanCoreEnds(m, isCapture, isPromotion, d);
    SanCoreCaptureMark(m, isCapture, isPromotion, d);
    SanCoreOpening(m, isCapture, isPromotion, d);
  }

  /** A SAN core ends with the target square, then `=Q` exactly for a promotion. */
  lemma SanCoreEnds(m: Move, isCapture: bool, isPromotion: bool, d: string)
    requires IsInsideBoard(m.oldCol, m.oldRow) && IsInsideBoard(m.newCol, m.newRow)
    ensures var s := SanCore(m, isCapture, isPromotion, false, false, d);
      && SanTarget(s) == Some((m.newCol, m.newRow))
      && (|s| >= 2 && s[|s| - 2..] == "=Q" <==> isPromotion)
  {
    var s := SanCore(m, isCapture, isPromotion, false, false, d);
    var sq := SquareName(m.newCol, m.newRow);
    var core := SanLead(m, isCapture, d) + (if isCapture then "x" else "") + sq;
    assert s == core + (if isPromotion then "=Q" else "");
    assert core[|core| - 2..] == sq;
    if isPromotion {
      assert s[|s| - 2..] == "=Q";
      assert s[..|s| - 2] == core;
    } else {
      assert s[|s| - 1] == sq[1] && s[|s| - 2] == sq[0];
    }
    SquareNameInverse(m.newCol, m.newRow);
  }

  /** A SAN core holds an `x` exactly for a capture. */
  lemma SanCoreCaptureMark(m: Move, isCapture: bool, isPromotion: bool, d: string)
    requires IsInsideBoard(m.oldCol, m.oldRow) && IsInsideBoard(m.newCol, m.newRow)
    requires PrefixLike(d)
    ensures 'x' in SanCore(m, isCapture, isPromotion, false, false, d) <==> isCapture
  {
    assert 'x' !in SanLead(m, isCapture, d);
    assert 'x' !in SquareName(m.newCol, m.newRow);
    assert 'x' !in (if isPromotion then "=Q" else "");
  }

  /** A SAN core opens with the piece letter, or with a file letter for a pawn. */
  lemma SanCoreOpening(m: Move, isCapture: bool, isPromotion: bool, d: string)
    requires IsInsideBoard(m.oldCol, m.oldRow) && IsInsideBoard(m.newCol, m.newRow)
    ensures var s := SanCore(m, isCapture, isPromotion, false, false, d);
      && (m.piece.kind != Pawn ==> s[0] == PieceLetter(m.piece.kind)[0])
      && (m.piece.kind == Pawn ==> 'a' <= s[0] <= 'h')
  {
    var s := SanCore(m, isCapture, isPromotion, false, false, d);
    var sq := SquareName(m.newCol, m.newRow);
    var lead := SanLead(m, isCapture, d);
    assert s == lead + (if isCapture then "x" else "") + sq + (if isPromotion then "=Q" else "");
    if m.piece.kind == Pawn {
      assert s[0] == (lead + (if isCapture then "x" else "") + sq)[0];
    }
  }

  /** The SAN of a move as recorded: the core, then `#` for mate or `+` for check. */
  function Annotated(core: string, check: bool, mate: bool): (s: string)
    ensures |core| <= |s| <= |core| + 1 && s[..|core|] == core
    ensures (|s| > |core| && s[|core|] == '#') <==> mate
    ensures (|s| > |core| && s[|core|] == '+') <==> !mate && check
  {
    core + (if mate then "#" else if check then "+" else "")
  }
}
