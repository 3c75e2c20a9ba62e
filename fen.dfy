/**
 * The parsing half of `loadPositionFromFEN` in `main/Board.java`: the
 * fields of a FEN string (PGN Standard, section 16.1), the piece-placement
 * walk, the side to move, the castling flags of the corner rooks and the
 * en-passant target square. Nothing is validated, as in the source.
 */
module Fen {
  import opened Wrappers
  import opened Pieces
  import opened Position
  import opened Legality
  import opened Notation
  import opened Text

  /** The pieces between separators, empty ones included. */
  function SplitOn(s: string, sep: char): (r: seq<string>)
    ensures |r| >= 1
    ensures forall i :: 0 <= i < |r| ==> sep !in r[i]
  {
    if |s| == 0 then [""]
    else
      var rest := SplitOn(s[1..], sep);
      if s[0] == sep then [""] + rest else [[s[0]] + rest[0]] + rest[1..]
  }

  /** A field free of the separator, then the separator: the field is split off unchanged. */
  lemma {:induction false} SplitOnField(a: string, b: string, sep: char)
    requires sep !in a
    ensures SplitOn(a + [sep] + b, sep) == [a] + SplitOn(b, sep)
  {
    if |a| == 0 {
      assert a + [sep] + b == [sep] + b;
      assert ([sep] + b)[1..] == b;
    } else {
      SplitOnField(a[1..], b, sep);
      assert (a + [sep] + b)[1..] == a[1..] + [sep] + b;
      assert [a[0]] + a[1..] == a;
    }
  }

  /** A string free of the separator is one field. */
  lemma {:induction false} SplitOnWhole(a: string, sep: char)
    requires sep !in a
    ensures SplitOn(a, sep) == [a]
  {
    if |a| > 0 {
      SplitOnWhole(a[1..], sep);
      assert [a[0]] + a[1..] == a;
    }
  }

  /** The trailing empty fields removed: a prefix ending in a non-empty field, followed only by empty ones. */
  function DropTrailingEmpty(r: seq<string>): (t: seq<string>)
    ensures |t| <= |r| && t == r[..|t|]
    ensures |t| > 0 ==> t[|t| - 1] != ""
    ensures forall i :: |t| <= i < |r| ==> r[i] == ""
  {
    if |r| == 0 || r[|r| - 1] != "" then r else DropTrailingEmpty(r[..|r| - 1])
  }

  /** `String.split(" ")`: the input itself when it holds no space, else the fields with trailing empty ones dropped. */
  function Split(s: string): (r: seq<string>)
    ensures forall i :: 0 <= i < |r| ==> ' ' !in r[i]
  {
    if ' ' !in s then [s] else DropTrailingEmpty(SplitOn(s, ' '))
  }

  /** `Character.isDigit`, on the ASCII digits. */
  predicate IsDigit(c: char)
  {
    '0' <= c <= '9'
  }

  /** `Character.toLowerCase` on ASCII letters. */
  function ToLower(c: char): char
  {
    if 'A' <= c <= 'Z' then (c as int - 'A' as int + 'a' as int) as char else c
  }

  /** The piece class a lower-case FEN letter names; the `switch` of the placement walk. */
  function KindOf(c: char): Option<Kind>
  {
    match c
    case 'r' => Some(Rook)
    case 'n' => Some(Knight)
    case 'b' => Some(Bishop)
    case 'q' => Some(Queen)
    case 'k' => Some(King)
    case 'p' => Some(Pawn)
    case _ => None
  }

  /**
   * The pieces the placement walk adds, from `col`/`row` on: `/` starts the
   * next row, a digit skips that many columns, any other character takes one
   * column and adds a piece when it names one (upper case for White).
   */
  function PlaceFrom(s: string, col: int, row: int): (r: seq<Piece>)
    ensures |r| <= |s|
    ensures forall p :: p in r ==> p.firstMove
  {
    if |s| == 0 then []
    else if s[0] == '/' then PlaceFrom(s[1..], 0, row + 1)
    else if IsDigit(s[0]) then PlaceFrom(s[1..], col + NumericValue(s[0]), row)
    else
      match KindOf(ToLower(s[0]))
      case Some(k) => [NewPiece(k, col, row, 'A' <= s[0] <= 'Z')] + PlaceFrom(s[1..], col + 1, row)
      case None => PlaceFrom(s[1..], col + 1, row)
  }

  /** Square `a` comes before square `b` in reading order (rank 8 first, file a first). */
  predicate Precedes(a: Piece, b: Piece)
  {
    a.row < b.row || (a.row == b.row && a.col < b.col)
  }

  predicate AtOrAfter(p: Piece, col: int, row: int)
  {
    p.row > row || (p.row == row && p.col >= col)
  }

  /** The walk only ever moves forward: every piece it adds lies at or after the walk's current square. */
  lemma {:induction false} PlaceFromForward(s: string, col: int, row: int)
    ensures forall p :: p in PlaceFrom(s, col, row) ==> AtOrAfter(p, col, row)
    decreases |s|
  {
    if |s| > 0 {
      if s[0] == '/' {
        PlaceFromForward(s[1..], 0, row + 1);
      } else if IsDigit(s[0]) {
        PlaceFromForward(s[1..], col + NumericValue(s[0]), row);
      } else {
        PlaceFromForward(s[1..], col + 1, row);
      }
    }
  }

  /** Pieces in strict reading order. */
  predicate Ordered(ps: seq<Piece>)
  {
    forall i, j :: 0 <= i < j < |ps| ==> Precedes(ps[i], ps[j])
  }

  /** The added pieces come in strict reading order. */
  lemma {:induction false} PlaceFromOrdered(s: string, col: int, row: int)
    ensures Ordered(PlaceFrom(s, col, row))
    decreases |s|
  {
    if |s| > 0 {
      if s[0] == '/' {
        PlaceFromOrdered(s[1..], 0, row + 1);
      } else if IsDigit(s[0]) {
        PlaceFromOrdered(s[1..], col + NumericValue(s[0]), row);
        assert PlaceFrom(s, col, row) == PlaceFrom(s[1..], col + NumericValue(s[0]), row);
      } else {
        PlaceFromOrdered(s[1..], col + 1, row);
        PlaceFromForward(s[1..], col + 1, row);
        var ps := PlaceFrom(s, col, row);
        var rest := PlaceFrom(s[1..], col + 1, row);
        if KindOf(ToLower(s[0])).Some? {
          assert ps == [ps[0]] + rest && At(ps[0], col, row);
          forall i, j | 0 <= i < j < |ps|
            ensures Precedes(ps[i], ps[j])
          {
            assert ps[j] == rest[j - 1];
            if i == 0 {
              assert ps[j] in rest;
            } else {
              assert ps[i] == rest[i - 1];
            }
          }
        } else {
          assert ps == rest;
        }
      }
    }
  }

  /** Pieces in strict reading order stand on distinct squares. */
  lemma OrderedUnique(ps: seq<Piece>)
    requires Ordered(ps)
    ensures UniqueSquares(ps)
  {
    forall i, j | 0 <= i < j < |ps|
      ensures !At(ps[j], ps[i].col, ps[i].row)
    {
      assert Precedes(ps[i], ps[j]);
    }
  }

  /** `isFirstMove` of a corner rook: set from the castling field when `getPiece` finds a Rook (of either colour) there. */
  function SetCornerRook(ps: seq<Piece>, col: int, row: int, flag: bool): (r: seq<Piece>)
    ensures |r| == |ps|
  {
    match IndexAt(ps, col, row)
    case None => ps
    case Some(j) => if ps[j].kind == Rook then ps[j := ps[j].(firstMove := flag)] else ps
  }

  /** Setting a flag moves no piece and changes no kind or colour. */
  lemma SetCornerRookKeepsSquares(ps: seq<Piece>, col: int, row: int, flag: bool)
    ensures forall i :: 0 <= i < |ps| ==> Same(SetCornerRook(ps, col, row, flag)[i], ps[i])
  {
  }

  /** Two records of one piece on one square, whatever their first-move flags. */
  predicate Same(p: Piece, q: Piece)
  {
    p.kind == q.kind && p.white == q.white && p.col == q.col && p.row == q.row
  }

  /** The four corner rooks, in the source's order, from the castling field. */
  function WithCastlingRights(ps: seq<Piece>, castling: string): (r: seq<Piece>)
    ensures |r| == |ps|
  {
    var a := SetCornerRook(ps, 0, 0, Contains(castling, "q"));
    var b := SetCornerRook(a, 7, 0, Contains(castling, "k"));
    var c := SetCornerRook(b, 0, 7, Contains(castling, "Q"));
    SetCornerRook(c, 7, 7, Contains(castling, "K"))
  }

  /** The castling field moves no piece and changes no kind or colour. */
  lemma CastlingRightsKeepSquares(ps: seq<Piece>, castling: string)
    ensures forall i :: 0 <= i < |ps| ==> Same(WithCastlingRights(ps, castling)[i], ps[i])
  {
    var a := SetCornerRook(ps, 0, 0, Contains(castling, "q"));
    var b := SetCornerRook(a, 7, 0, Contains(castling, "k"));
    var c := SetCornerRook(b, 0, 7, Contains(castling, "Q"));
    var d := SetCornerRook(c, 7, 7, Contains(castling, "K"));
    assert d == WithCastlingRights(ps, castling);
    SetCornerRookKeepsSquares(ps, 0, 0, Contains(castling, "q"));
    SetCornerRookKeepsSquares(a, 7, 0, Contains(castling, "k"));
    SetCornerRookKeepsSquares(b, 0, 7, Contains(castling, "Q"));
    SetCornerRookKeepsSquares(c, 7, 7, Contains(castling, "K"));
  }

  /** The en-passant field: `-` for none, else the tile number of the named square. */
  function EnPassantField(f: string): int
    requires f == "-" || |f| >= 2
  {
    if f == "-" then -1 else (7 - (f[1] as int - '1' as int)) * 8 + (f[0] as int - 'a' as int)
  }

  /** The en-passant field decodes a square name to that square's tile number. */
  lemma EnPassantFieldInverse(col: int, row: int)
    requires IsInsideBoard(col, row)
    ensures EnPassantField(SquareName(col, row)) == TileNum(col, row)
  {
    var n := SquareName(col, row);
    assert n[0] as int - 'a' as int == col;
    assert n[1] as int - '1' as int == 7 - row;
  }

  /** The four fields the source reads without checking that they exist. */
  predicate FieldsPresent(parts: seq<string>)
  {
    |parts| >= 4 && (parts[3] == "-" || |parts[3]| >= 2)
  }

  predicate WellFormedFen(fen: string)
  {
    FieldsPresent(Split(fen))
  }

  /** The position read off the fields: placement, side to move, castling rights, en-passant square. */
  function FieldsPosition(parts: seq<string>): Position
    requires FieldsPresent(parts)
  {
    Position(WithCastlingRights(PlaceFrom(parts[0], 0, 0), parts[2]), parts[1] == "w", EnPassantField(parts[3]), false)
  }

  /** The position `loadPositionFromFEN` sets up. */
  function LoadedPosition(fen: string): Position
    requires WellFormedFen(fen)
  {
    FieldsPosition(Split(fen))
  }

  /** A loaded position never has two pieces on one square, whatever the placement field says. */
  lemma LoadedSquaresUnique(fen: string)
    requires WellFormedFen(fen)
    ensures UniqueSquares(LoadedPosition(fen).pieces)
  {
    var parts := Split(fen);
    var placed := PlaceFrom(parts[0], 0, 0);
    PlaceFromOrdered(parts[0], 0, 0);
    OrderedUnique(placed);
    var ps := WithCastlingRights(placed, parts[2]);
    CastlingRightsKeepSquares(placed, parts[2]);
    forall i, j | 0 <= i < j < |ps|
      ensures !At(ps[j], ps[i].col, ps[i].row)
    {
      assert !At(placed[j], placed[i].col, placed[i].row);
      assert Same(ps[i], placed[i]) && Same(ps[j], placed[j]);
    }
  }
}
