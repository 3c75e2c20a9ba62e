/**
 * The board lookups of `main/Board.java` that the rules read: the piece list,
 * `getPiece`, `findKing`, `getTileNum`, `isInsideBoard`, `sameTeam`, and the
 * move record that `new Move(board, piece, col, row)` builds.
 */
module Position {
  import opened Wrappers
  import opened Pieces

  /** What the legality gate reads of a board: `pieceList`, `isWhiteToMove`, `enPassantTile`, `isGameOver`. */
  datatype Position = Position(pieces: seq<Piece>, whiteToMove: bool, enPassantTile: int, gameOver: bool)

  /**
   * A move: the moving piece, its origin, its destination, the piece it takes,
   * and the two flags the commit sets.
   */
  datatype Move = Move(piece: Piece, oldCol: int, oldRow: int, newCol: int, newRow: int,
                       capture: Option<Piece>, isCastle: bool, isPromotion: bool)

  /** `isInsideBoard`: both coordinates in [0, 8). */
  predicate IsInsideBoard(col: int, row: int)
  {
    0 <= col < 8 && 0 <= row < 8
  }

  /** `getTileNum`: squares are numbered row by row, eight to a row. */
  function TileNum(col: int, row: int): (t: int)
    ensures IsInsideBoard(col, row) ==> 0 <= t < 64 && t / 8 == row && t % 8 == col
  {
    row * 8 + col
  }

  /** Two on-board squares with the same tile number are the same square. */
  lemma TileNumInjective(c1: int, r1: int, c2: int, r2: int)
    requires IsInsideBoard(c1, r1) && IsInsideBoard(c2, r2)
    requires TileNum(c1, r1) == TileNum(c2, r2)
    ensures c1 == c2 && r1 == r2
  {
    assert r1 == TileNum(c1, r1) / 8 == TileNum(c2, r2) / 8 == r2;
  }

  predicate At(p: Piece, col: int, row: int)
  {
    p.col == col && p.row == row
  }

  /** What a walk of the piece list looks for: the piece on a square, the King of a colour, or one given piece. */
  datatype Probe = OnSquare(col: int, row: int) | KingOf(white: bool) | Equal(piece: Piece)

  predicate Matches(p: Piece, probe: Probe)
  {
    match probe
    case OnSquare(col, row) => At(p, col, row)
    case KingOf(white) => p.kind == King && p.white == white
    case Equal(q) => p == q
  }

  /** The index of the first element from `i` on that matches `probe`: the shape of every list walk in `Board`. */
  function FirstFrom(ps: seq<Piece>, probe: Probe, i: nat): (r: Option<nat>)
    requires i <= |ps|
    ensures r.Some? ==> i <= r.value < |ps| && Matches(ps[r.value], probe)
    decreases |ps| - i
  {
    if i == |ps| then None
    else if Matches(ps[i], probe) then Some(i)
    else FirstFrom(ps, probe, i + 1)
  }

  /** The walk finds nothing exactly when no element from `i` on matches, and what it finds is the first match. */
  lemma {:induction false} FirstFromFirst(ps: seq<Piece>, probe: Probe, i: nat)
    requires i <= |ps|
    ensures FirstFrom(ps, probe, i).Some? ==>
      forall j :: i <= j < FirstFrom(ps, probe, i).value ==> !Matches(ps[j], probe)
    ensures FirstFrom(ps, probe, i).None? <==> forall j :: i <= j < |ps| ==> !Matches(ps[j], probe)
    decreases |ps| - i
  {
    if i < |ps| {
      FirstFromFirst(ps, probe, i + 1);
    }
  }

  /** The index of the first piece standing on (col, row). */
  function IndexAt(ps: seq<Piece>, col: int, row: int): (r: Option<nat>)
    ensures r.Some? ==> r.value < |ps| && At(ps[r.value], col, row)
  {
    FirstFrom(ps, OnSquare(col, row), 0)
  }

  /** `getPiece`: the first piece of the list standing on (col, row), or null. */
  function GetPiece(ps: seq<Piece>, col: int, row: int): (r: Option<Piece>)
    ensures r.Some? ==> r.value in ps && At(r.value, col, row)
  {
    match IndexAt(ps, col, row)
    case None => None
    case Some(i) => Some(ps[i])
  }

  /** `getPiece` answers null exactly when no listed piece stands on the square. */
  lemma GetPieceNone(ps: seq<Piece>, col: int, row: int)
    ensures GetPiece(ps, col, row).None? <==> forall p :: p in ps ==> !At(p, col, row)
  {
    FirstFromFirst(ps, OnSquare(col, row), 0);
  }

  /** `findKing`: the first King of the given colour in the list, or null. */
  function FindKing(ps: seq<Piece>, white: bool): (r: Option<Piece>)
    ensures r.Some? ==> r.value in ps && r.value.kind == King && r.value.white == white
  {
    match FirstFrom(ps, KingOf(white), 0)
    case None => None
    case Some(i) => Some(ps[i])
  }

  /** `findKing` answers null exactly when the list holds no King of that colour. */
  lemma FindKingNone(ps: seq<Piece>, white: bool)
    ensures FindKing(ps, white).None? <==> forall p :: p in ps ==> !(p.kind == King && p.white == white)
  {
    FirstFromFirst(ps, KingOf(white), 0);
  }

  /** The index of the first element equal to `p`: where a Java reference to `p` points in the list. */
  function IndexOf(ps: seq<Piece>, p: Piece): (r: Option<nat>)
    ensures r.Some? ==> r.value < |ps| && ps[r.value] == p
    ensures r.None? <==> p !in ps
  {
    FirstFromFirst(ps, Equal(p), 0);
    FirstFrom(ps, Equal(p), 0)
  }

  /** `pieceList.remove(piece)`: drops the first element equal to `p`, if any. */
  function RemoveFirst(ps: seq<Piece>, p: Piece): (r: seq<Piece>)
    ensures p in ps ==> multiset(r) == multiset(ps) - multiset{p}
    ensures p !in ps ==> r == ps
  {
    match IndexOf(ps, p)
    case None => ps
    case Some(k) =>
      assert ps == ps[..k] + [ps[k]] + ps[k+1..];
      ps[..k] + ps[k+1..]
  }

  /** `Math.abs`. */
  function Abs(x: int): nat
  {
    if x < 0 then -x else x
  }

  /** `sameTeam`: both pieces present and of one colour. */
  predicate SameTeam(a: Option<Piece>, b: Option<Piece>)
  {
    a.Some? && b.Some? && a.value.white == b.value.white
  }

  /** `new Move(board, piece, newCol, newRow)`: origin from the piece, capture from the destination square. */
  function NewMove(ps: seq<Piece>, piece: Piece, newCol: int, newRow: int): Move
  {
    Move(piece, piece.col, piece.row, newCol, newRow, GetPiece(ps, newCol, newRow), false, false)
  }

  /** At most one piece per square. */
  predicate UniqueSquares(ps: seq<Piece>)
  {
    forall i, j :: 0 <= i < j < |ps| ==> !At(ps[j], ps[i].col, ps[i].row)
  }

  /** On a board with one piece per square, `getPiece` finds every listed piece on its own square. */
  lemma UniqueGetPiece(ps: seq<Piece>, p: Piece)
    requires UniqueSquares(ps)
    requires p in ps
    ensures GetPiece(ps, p.col, p.row) == Some(p)
  {
    var i :| 0 <= i < |ps| && ps[i] == p;
    FirstFromFirst(ps, OnSquare(p.col, p.row), 0);
    var k := IndexAt(ps, p.col, p.row).value;
    assert At(ps[k], ps[i].col, ps[i].row);
  }
}
