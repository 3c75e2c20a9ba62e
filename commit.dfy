/**
 * The list surgery of `makeMove` in `main/Board.java` (`movePawn`,
 * `promotePawn`, `moveKing`, the mover's update and `capture`), as a pure
 * function of the board before the move. Java objects are identified by
 * their index in `pieceList`: the mover and the captured piece are the ones
 * `getPiece` finds on their squares, because every caller builds its move
 * with `new Move(board, piece, col, row)` from a piece it looked up.
 */
module Commit {
  import opened Wrappers
  import opened Pieces
  import opened Position

  /** The mover is the piece `getPiece` finds on its own square. */
  predicate Picked(ps: seq<Piece>, m: Move)
  {
    GetPiece(ps, m.piece.col, m.piece.row) == Some(m.piece)
  }

  /** A move built by the `Move` constructor on this board for a piece picked from it: its capture is the destination's occupant. */
  predicate Built(ps: seq<Piece>, m: Move)
  {
    Picked(ps, m) && m == NewMove(ps, m.piece, m.newCol, m.newRow)
  }

  /** Where the mover sits in the list. */
  function MoverIndex(ps: seq<Piece>, m: Move): (k: nat)
    requires Picked(ps, m)
    ensures k < |ps| && ps[k] == m.piece
  {
    IndexAt(ps, m.piece.col, m.piece.row).value
  }

  /** `colorIndex` of `movePawn`: the row offset from an en-passant landing back to the pawn it takes. */
  function ColorIndex(white: bool): int
  {
    if white then 1 else -1
  }

  /** The row on which a pawn of the given colour promotes: row 0 (rank 8) for White. */
  function PromotionRow(white: bool): int
  {
    if white then 0 else 7
  }

  /** `movePawn`'s en-passant test: a pawn landing on the tile numbered `enPassantTile`. */
  predicate LandsOnEnPassantTile(pos: Position, m: Move)
  {
    m.piece.kind == Pawn && TileNum(m.newCol, m.newRow) == pos.enPassantTile
  }

  /**
   * The list index of `move.capture` when `capture` runs: for an en-passant
   * landing the piece on the square behind the landing square, otherwise the
   * piece the move was built with.
   */
  function CaptureIndex(pos: Position, m: Move): (c: Option<nat>)
    ensures c.Some? ==> c.value < |pos.pieces|
  {
    if LandsOnEnPassantTile(pos, m) then IndexAt(pos.pieces, m.newCol, m.newRow + ColorIndex(m.piece.white))
    else IndexAt(pos.pieces, m.newCol, m.newRow)
  }

  /** `movePawn`'s bookkeeping: a pawn's two-row step marks the square behind it, any other pawn move clears the tile, other pieces leave it. */
  function NextEnPassantTile(pos: Position, m: Move): (t: int)
    ensures m.piece.kind != Pawn ==> t == pos.enPassantTile
    ensures m.piece.kind == Pawn && m.newRow == m.piece.row - 2 * ColorIndex(m.piece.white) ==>
      t == TileNum(m.newCol, (m.piece.row + m.newRow) / 2)
    ensures m.piece.kind == Pawn && Abs(m.piece.row - m.newRow) != 2 ==> t == -1
  {
    if m.piece.kind != Pawn then pos.enPassantTile
    else if Abs(m.piece.row - m.newRow) == 2 then TileNum(m.newCol, m.newRow + ColorIndex(m.piece.white))
    else -1
  }

  /** `movePawn` calls `promotePawn`: a pawn reaching its promotion row. */
  predicate Promotes(m: Move)
  {
    m.piece.kind == Pawn && m.newRow == PromotionRow(m.piece.white)
  }

  /** The Queen `promotePawn` appends, of the pawn's colour, on the landing square. */
  function PromotedQueen(m: Move): Piece
  {
    NewPiece(Queen, m.newCol, m.newRow, m.piece.white)
  }

  /** `moveKing`: the corner the rook comes from and the column it goes to. */
  function RookStart(m: Move): int
  {
    if m.piece.col < m.newCol then 7 else 0
  }

  function RookTarget(m: Move): int
  {
    if m.piece.col < m.newCol then 5 else 3
  }

  /** `moveKing`: a king moving two columns relocates the Rook `getPiece` finds in the corner of its row, if there is one. */
  function RookIndex(ps: seq<Piece>, m: Move): (j: Option<nat>)
    ensures j.Some? ==> j.value < |ps| && ps[j.value].kind == Rook && At(ps[j.value], RookStart(m), m.piece.row)
    ensures j.Some? ==> m.piece.kind == King && Abs(m.piece.col - m.newCol) == 2
  {
    if m.piece.kind == King && Abs(m.piece.col - m.newCol) == 2 then
      match IndexAt(ps, RookStart(m), m.piece.row)
      case Some(j) => if ps[j].kind == Rook then Some(j) else None
      case None => None
    else None
  }

  /** A piece after it moved: new square and `isFirstMove = false`. */
  function Moved(p: Piece, col: int, row: int): Piece
  {
    p.(col := col, row := row, firstMove := false)
  }

  /** `pieceList.remove(i)`: the list without its `i`-th element. */
  function RemoveAt(s: seq<Piece>, i: nat): (r: seq<Piece>)
    requires i < |s|
    ensures |r| == |s| - 1
  {
    s[..i] + s[i+1..]
  }

  /** After `promotePawn` the pawn is gone and the captured piece, if it was not the pawn, may have shifted down one place. */
  function CaptureSlot(pos: Position, m: Move): (c: Option<nat>)
    requires Picked(pos.pieces, m)
  {
    match CaptureIndex(pos, m)
    case None => None
    case Some(c) =>
      var k := MoverIndex(pos.pieces, m);
      if !Promotes(m) then Some(c)
      else if c == k then None
      else if c > k then Some(c - 1)
      else Some(c)
  }

  /** Step 1, `movePawn` / `promotePawn`: the Queen is appended and the pawn removed. */
  function AfterPromotion(pos: Position, m: Move): (s: seq<Piece>)
    requires Picked(pos.pieces, m)
    ensures |s| == |pos.pieces|
  {
    if Promotes(m) then RemoveAt(pos.pieces + [PromotedQueen(m)], MoverIndex(pos.pieces, m)) else pos.pieces
  }

  /** Step 2, `moveKing`: the castling rook is relocated and marked as moved. */
  function AfterCastle(pos: Position, m: Move): (s: seq<Piece>)
    requires Picked(pos.pieces, m)
    ensures |s| == |pos.pieces|
  {
    var s := AfterPromotion(pos, m);
    match RookIndex(pos.pieces, m)
    case None => s
    case Some(j) => s[j := Moved(pos.pieces[j], RookTarget(m), m.piece.row)]
  }

  /** Step 3: the mover lands with `isFirstMove = false` (a promoted pawn is no longer in the list). */
  function AfterLanding(pos: Position, m: Move): (s: seq<Piece>)
    requires Picked(pos.pieces, m)
    ensures |s| == |pos.pieces|
  {
    var s := AfterCastle(pos, m);
    if Promotes(m) then s else s[MoverIndex(pos.pieces, m) := Moved(m.piece, m.newCol, m.newRow)]
  }

  /** Step 4, `capture`: the captured piece leaves the list. */
  function AfterCapture(pos: Position, m: Move): (s: seq<Piece>)
    requires Picked(pos.pieces, m)
  {
    var s := AfterLanding(pos, m);
    match CaptureSlot(pos, m)
    case None => s
    case Some(c) => if c < |s| then RemoveAt(s, c) else s
  }

  /**
   * The position `makeMove` leaves behind on an active board: the new piece
   * list, the other side to move, the new en-passant tile.
   */
  function Commit(pos: Position, m: Move): (r: Position)
    requires Picked(pos.pieces, m)
    ensures r.whiteToMove == !pos.whiteToMove && r.gameOver == pos.gameOver
    ensures r.enPassantTile == NextEnPassantTile(pos, m)
  {
    Position(AfterCapture(pos, m), !pos.whiteToMove, NextEnPassantTile(pos, m), pos.gameOver)
  }

  /** `lastMove` after the commit: the mover with its new square, the piece taken, and the castle and promotion flags. */
  function Recorded(pos: Position, m: Move): (r: Move)
    ensures r.oldCol == m.oldCol && r.oldRow == m.oldRow && r.newCol == m.newCol && r.newRow == m.newRow
    ensures r.piece == Moved(m.piece, m.newCol, m.newRow)
  {
    m.(piece := Moved(m.piece, m.newCol, m.newRow),
       capture := match CaptureIndex(pos, m) case None => None case Some(c) => Some(pos.pieces[c]),
       isCastle := RookIndex(pos.pieces, m).Some?,
       isPromotion := Promotes(m))
  }

  lemma RemoveAtMultiset(s: seq<Piece>, i: nat)
    requires i < |s|
    ensures multiset(RemoveAt(s, i)) + multiset{s[i]} == multiset(s)
  {
    assert s == s[..i] + [s[i]] + s[i+1..];
  }

  lemma RemoveAtIndex(s: seq<Piece>, i: nat, c: nat)
    requires i < |s| && c < |s| && c != i
    ensures (if c > i then c - 1 else c) < |RemoveAt(s, i)|
    ensures RemoveAt(s, i)[if c > i then c - 1 else c] == s[c]
  {
  }

  /** The pieces whose squares the move changes: the mover, the castling rook and the captured piece, each counted once. */
  function Departed(pos: Position, m: Move): multiset<Piece>
    requires Picked(pos.pieces, m)
  {
    var ps := pos.pieces;
    var k := MoverIndex(ps, m);
    multiset{ps[k]}
    + (match RookIndex(ps, m) case None => multiset{} case Some(j) => multiset{ps[j]})
    + (match CaptureIndex(pos, m)
       case None => multiset{}
       case Some(c) => if c == k || Some(c) == RookIndex(ps, m) then multiset{} else multiset{ps[c]})
  }

  /** The pieces the move puts down: the landed mover (unless promoted or taken), the relocated rook (unless taken), the new Queen. */
  function Arrived(pos: Position, m: Move): multiset<Piece>
    requires Picked(pos.pieces, m)
  {
    var ps := pos.pieces;
    var k := MoverIndex(ps, m);
    (if Promotes(m) || CaptureIndex(pos, m) == Some(k) then multiset{} else multiset{Moved(m.piece, m.newCol, m.newRow)})
    + (match RookIndex(ps, m)
       case None => multiset{}
       case Some(j) => if CaptureIndex(pos, m) == Some(j) then multiset{} else multiset{Moved(ps[j], RookTarget(m), m.piece.row)})
    + (if Promotes(m) then multiset{PromotedQueen(m)} else multiset{})
  }

  /**
   * Nothing but the mover, the captured piece and the castling rook moves:
   * the committed list is the old list with the departed pieces taken out and
   * the arrived ones put in.
   */
  lemma CommitMovesOnlyWhatItTouches(pos: Position, m: Move)
    requires Picked(pos.pieces, m)
    ensures multiset(Commit(pos, m).pieces) + Departed(pos, m) == multiset(pos.pieces) + Arrived(pos, m)
  {
    if Promotes(m) {
      PromotionMovesOnlyWhatItTouches(pos, m);
    } else if RookIndex(pos.pieces, m).Some? {
      CastleMovesOnlyWhatItTouches(pos, m);
    } else {
      PlainMoveMovesOnlyWhatItTouches(pos, m);
    }
  }

  lemma PromotionMovesOnlyWhatItTouches(pos: Position, m: Move)
    requires Picked(pos.pieces, m) && Promotes(m)
    ensures multiset(Commit(pos, m).pieces) + Departed(pos, m) == multiset(pos.pieces) + Arrived(pos, m)
  {
    var ps := pos.pieces;
    var k := MoverIndex(ps, m);
    var q := PromotedQueen(m);
    var s3 := AfterLanding(pos, m);
    PromotionLanding(pos, m);
    assert RookIndex(ps, m).None?;
    assert Arrived(pos, m) == multiset{q};
    if CaptureIndex(pos, m).Some? && CaptureIndex(pos, m).value != k {
      var c := CaptureIndex(pos, m).value;
      var c' := PromotionCaptureSlot(pos, m);
      assert Departed(pos, m) == multiset{ps[k]} + multiset{ps[c]};
      assert Commit(pos, m).pieces == RemoveAt(s3, c');
      RemoveAtMultiset(s3, c');
    } else {
      assert Departed(pos, m) == multiset{ps[k]};
      assert CaptureSlot(pos, m).None?;
      assert Commit(pos, m).pieces == s3;
    }
  }

  /** After `promotePawn` the list holds the Queen instead of the pawn. */
  lemma PromotionLanding(pos: Position, m: Move)
    requires Picked(pos.pieces, m) && Promotes(m)
    ensures multiset(AfterLanding(pos, m)) + multiset{pos.pieces[MoverIndex(pos.pieces, m)]}
         == multiset(pos.pieces) + multiset{PromotedQueen(m)}
  {
    var ps := pos.pieces;
    var k := MoverIndex(ps, m);
    var q := PromotedQueen(m);
    assert AfterLanding(pos, m) == RemoveAt(ps + [q], k);
    RemoveAtMultiset(ps + [q], k);
    assert (ps + [q])[k] == ps[k];
  }

  /** After `promotePawn` a captured piece other than the pawn is found one place lower when it came after the pawn. */
  lemma PromotionCaptureSlot(pos: Position, m: Move) returns (c': nat)
    requires Picked(pos.pieces, m) && Promotes(m)
    requires CaptureIndex(pos, m).Some? && CaptureIndex(pos, m).value != MoverIndex(pos.pieces, m)
    ensures CaptureSlot(pos, m) == Some(c') && c' < |AfterLanding(pos, m)|
    ensures AfterLanding(pos, m)[c'] == pos.pieces[CaptureIndex(pos, m).value]
  {
    var ps := pos.pieces;
    var k := MoverIndex(ps, m);
    var c := CaptureIndex(pos, m).value;
    RemoveAtIndex(ps + [PromotedQueen(m)], k, c);
    c' := if c > k then c - 1 else c;
  }

  lemma CastleMovesOnlyWhatItTouches(pos: Position, m: Move)
    requires Picked(pos.pieces, m) && RookIndex(pos.pieces, m).Some?
    ensures multiset(Commit(pos, m).pieces) + Departed(pos, m) == multiset(pos.pieces) + Arrived(pos, m)
  {
    CastleLanding(pos, m);
    if CaptureIndex(pos, m).Some? {
      CastleWithCapture(pos, m);
    } else {
      assert Commit(pos, m).pieces == AfterLanding(pos, m);
    }
  }

  lemma CastleWithCapture(pos: Position, m: Move)
    requires Picked(pos.pieces, m) && RookIndex(pos.pieces, m).Some? && CaptureIndex(pos, m).Some?
    ensures multiset(Commit(pos, m).pieces) + Departed(pos, m) == multiset(pos.pieces) + Arrived(pos, m)
  {
    var ps, k, j, c := pos.pieces, MoverIndex(pos.pieces, m), RookIndex(pos.pieces, m).value, CaptureIndex(pos, m).value;
    var mover, rook := Moved(m.piece, m.newCol, m.newRow), Moved(ps[j], RookTarget(m), m.piece.row);
    var s3 := AfterLanding(pos, m);
    CastleLanding(pos, m);
    assert CaptureSlot(pos, m) == Some(c);
    assert Commit(pos, m).pieces == RemoveAt(s3, c);
    RemoveAtMultiset(s3, c);
    CastleDepartedArrived(pos, m);
    CastleAlgebra(multiset(Commit(pos, m).pieces), multiset(s3), multiset(ps), s3[c], ps[k], ps[j], mover, rook);
    if c != k && c != j {
      assert s3[c] == ps[c];
    }
  }

  /** The multiset bookkeeping of a castle that also captures, with every piece of the board abstracted away. */
  lemma CastleAlgebra(r: multiset<Piece>, s: multiset<Piece>, p: multiset<Piece>, x: Piece, pk: Piece, pj: Piece,
                      mover: Piece, rook: Piece)
    requires r + multiset{x} == s
    requires s + multiset{pk} + multiset{pj} == p + multiset{mover} + multiset{rook}
    ensures x == mover ==> r + (multiset{pk} + multiset{pj}) == p + multiset{rook}
    ensures x == rook ==> r + (multiset{pk} + multiset{pj}) == p + multiset{mover}
    ensures r + (multiset{pk} + multiset{pj} + multiset{x}) == p + (multiset{mover} + multiset{rook})
  {
    forall z
      ensures (r + (multiset{pk} + multiset{pj} + multiset{x}))[z] == (p + (multiset{mover} + multiset{rook}))[z]
      ensures x == mover ==> (r + (multiset{pk} + multiset{pj}))[z] == (p + multiset{rook})[z]
      ensures x == rook ==> (r + (multiset{pk} + multiset{pj}))[z] == (p + multiset{mover})[z]
    {
      assert (r + multiset{x})[z] == s[z];
      assert (s + multiset{pk} + multiset{pj})[z] == (p + multiset{mover} + multiset{rook})[z];
    }
  }

  /** The departed and arrived pieces of a castle that also captures. */
  lemma CastleDepartedArrived(pos: Position, m: Move)
    requires Picked(pos.pieces, m) && RookIndex(pos.pieces, m).Some? && CaptureIndex(pos, m).Some?
    ensures !Promotes(m)
    ensures var ps, k, j, c := pos.pieces, MoverIndex(pos.pieces, m), RookIndex(pos.pieces, m).value, CaptureIndex(pos, m).value;
      var mover, rook := Moved(m.piece, m.newCol, m.newRow), Moved(ps[j], RookTarget(m), m.piece.row);
      && (c == k ==> Departed(pos, m) == multiset{ps[k]} + multiset{ps[j]} && Arrived(pos, m) == multiset{rook})
      && (c == j ==> Departed(pos, m) == multiset{ps[k]} + multiset{ps[j]} && Arrived(pos, m) == multiset{mover})
      && (c != k && c != j ==>
            Departed(pos, m) == multiset{ps[k]} + multiset{ps[j]} + multiset{ps[c]}
            && Arrived(pos, m) == multiset{mover} + multiset{rook})
  {
  }

  /** After `moveKing` and the king's own update the list holds the king and the rook on their new squares. */
  lemma CastleLanding(pos: Position, m: Move)
    requires Picked(pos.pieces, m) && RookIndex(pos.pieces, m).Some?
    ensures !Promotes(m) && RookIndex(pos.pieces, m).value != MoverIndex(pos.pieces, m)
    ensures var ps, k, j := pos.pieces, MoverIndex(pos.pieces, m), RookIndex(pos.pieces, m).value;
      && AfterLanding(pos, m)[k] == Moved(m.piece, m.newCol, m.newRow)
      && AfterLanding(pos, m)[j] == Moved(ps[j], RookTarget(m), m.piece.row)
      && multiset(AfterLanding(pos, m)) + multiset{ps[k]} + multiset{ps[j]}
         == multiset(ps) + multiset{Moved(m.piece, m.newCol, m.newRow)} + multiset{Moved(ps[j], RookTarget(m), m.piece.row)}
  {
    var ps := pos.pieces;
    var k := MoverIndex(ps, m);
    var j := RookIndex(ps, m).value;
    var mover := Moved(m.piece, m.newCol, m.newRow);
    var rook := Moved(ps[j], RookTarget(m), m.piece.row);
    assert AfterLanding(pos, m) == ps[j := rook][k := mover];
    assert multiset(ps[j := rook]) + multiset{ps[j]} == multiset(ps) + multiset{rook};
  }

  lemma PlainMoveMovesOnlyWhatItTouches(pos: Position, m: Move)
    requires Picked(pos.pieces, m) && !Promotes(m) && RookIndex(pos.pieces, m).None?
    ensures multiset(Commit(pos, m).pieces) + Departed(pos, m) == multiset(pos.pieces) + Arrived(pos, m)
  {
    var ps := pos.pieces;
    var k := MoverIndex(ps, m);
    var mover := Moved(m.piece, m.newCol, m.newRow);
    assert AfterLanding(pos, m) == ps[k := mover];
    if CaptureIndex(pos, m).Some? {
      PlainCapture(pos, m);
    } else {
      assert Commit(pos, m).pieces == ps[k := mover];
      assert multiset(ps[k := mover]) + multiset{ps[k]} == multiset(ps) + multiset{mover};
      assert Departed(pos, m) == multiset{ps[k]} && Arrived(pos, m) == multiset{mover};
    }
  }

  /** The capturing case of `PlainMoveMovesOnlyWhatItTouches`. */
  lemma PlainCapture(pos: Position, m: Move)
    requires Picked(pos.pieces, m) && !Promotes(m) && RookIndex(pos.pieces, m).None? && CaptureIndex(pos, m).Some?
    ensures multiset(Commit(pos, m).pieces) + Departed(pos, m) == multiset(pos.pieces) + Arrived(pos, m)
  {
    var ps := pos.pieces;
    var k := MoverIndex(ps, m);
    var mover := Moved(m.piece, m.newCol, m.newRow);
    var c := CaptureIndex(pos, m).value;
    assert AfterLanding(pos, m) == ps[k := mover];
    assert CaptureSlot(pos, m) == Some(c);
    assert Commit(pos, m).pieces == RemoveAt(ps[k := mover], c);
    ReplaceThenRemove(ps, k, mover, c);
    if c == k {
      assert Departed(pos, m) == multiset{ps[k]} && Arrived(pos, m) == multiset{};
    } else {
      assert Departed(pos, m) == multiset{ps[k]} + multiset{ps[c]} && Arrived(pos, m) == multiset{mover};
    }
  }

  /** Setting entry `k` to `mover` and then dropping entry `c` trades `ps[k]`, and `ps[c]` when it is another entry, for `mover` unless `c` is `k`. */
  lemma ReplaceThenRemove(ps: seq<Piece>, k: nat, mover: Piece, c: nat)
    requires k < |ps| && c < |ps|
    ensures c == k ==> multiset(RemoveAt(ps[k := mover], c)) + multiset{ps[k]} == multiset(ps)
    ensures c != k ==> multiset(RemoveAt(ps[k := mover], c)) + multiset{ps[k]} + multiset{ps[c]} == multiset(ps) + multiset{mover}
  {
    var s3 := ps[k := mover];
    assert multiset(s3) + multiset{ps[k]} == multiset(ps) + multiset{mover};
    RemoveAtMultiset(s3, c);
    if c == k {
      assert s3[c] == mover;
    } else {
      assert s3[c] == ps[c];
    }
  }

  lemma RemoveAtKeeps(s: seq<Piece>, c: nat, i: nat)
    requires c < |s| && i < |s| && i != c
    ensures s[i] in RemoveAt(s, c)
  {
    RemoveAtIndex(s, c, i);
  }

  /** Every element that survives a removal was an element at another index. */
  lemma RemoveAtOrigin(s: seq<Piece>, c: nat, x: Piece)
    requires c < |s| && x in RemoveAt(s, c)
    ensures exists i :: 0 <= i < |s| && i != c && s[i] == x
  {
    var t :| 0 <= t < |RemoveAt(s, c)| && RemoveAt(s, c)[t] == x;
    if t < c {
      assert s[t] == x;
    } else {
      assert s[t + 1] == x;
    }
  }

  /** Unless it promotes or (when landing on a stale en-passant tile) takes itself, the mover stands on its destination with `isFirstMove = false`. */
  lemma MoverLands(pos: Position, m: Move)
    requires Picked(pos.pieces, m) && !Promotes(m)
    requires CaptureIndex(pos, m) != Some(MoverIndex(pos.pieces, m))
    ensures Moved(m.piece, m.newCol, m.newRow) in Commit(pos, m).pieces
  {
    var k := MoverIndex(pos.pieces, m);
    var s3 := AfterLanding(pos, m);
    assert s3[k] == Moved(m.piece, m.newCol, m.newRow);
    assert CaptureSlot(pos, m) == CaptureIndex(pos, m);
    if CaptureIndex(pos, m).Some? {
      RemoveAtKeeps(s3, CaptureIndex(pos, m).value, k);
    }
  }

  /** Castling: the corner Rook stands on column 5 or 3 of the king's row with `isFirstMove = false`, and the move is flagged as a castle. */
  lemma RookRelocated(pos: Position, m: Move)
    requires Picked(pos.pieces, m) && RookIndex(pos.pieces, m).Some?
    requires CaptureIndex(pos, m) != RookIndex(pos.pieces, m)
    ensures Moved(pos.pieces[RookIndex(pos.pieces, m).value], RookTarget(m), m.piece.row) in Commit(pos, m).pieces
    ensures Recorded(pos, m).isCastle
  {
    var j := RookIndex(pos.pieces, m).value;
    var s3 := AfterLanding(pos, m);
    CastleLanding(pos, m);
    assert CaptureSlot(pos, m) == CaptureIndex(pos, m);
    if CaptureIndex(pos, m).Some? {
      RemoveAtKeeps(s3, CaptureIndex(pos, m).value, j);
    }
  }

  /** Promotion: a same-colour Queen on the landing square ends the list, and the move is flagged as a promotion. */
  lemma QueenAppended(pos: Position, m: Move)
    requires Picked(pos.pieces, m) && Promotes(m)
    ensures |Commit(pos, m).pieces| > 0
    ensures Commit(pos, m).pieces[|Commit(pos, m).pieces| - 1] == PromotedQueen(m)
    ensures PromotedQueen(m).kind == Queen && PromotedQueen(m).white == m.piece.white
    ensures At(PromotedQueen(m), m.newCol, m.newRow)
    ensures Recorded(pos, m).isPromotion
  {
    var ps := pos.pieces;
    var k := MoverIndex(ps, m);
    var s3 := AfterLanding(pos, m);
    assert s3 == RemoveAt(ps + [PromotedQueen(m)], k);
    assert s3[|s3| - 1] == PromotedQueen(m);
    if CaptureIndex(pos, m).Some? && CaptureIndex(pos, m).value != k {
      var c' := PromotionCaptureSlot(pos, m);
      assert c' < |s3| - 1;
      assert Commit(pos, m).pieces == RemoveAt(s3, c');
    } else {
      assert CaptureSlot(pos, m).None?;
    }
  }

  /** On a board with one piece per square, no two entries of the list are equal. */
  lemma UniqueDistinct(ps: seq<Piece>, i: nat, c: nat)
    requires UniqueSquares(ps) && i < |ps| && c < |ps| && i != c
    ensures ps[i] != ps[c]
  {
    if i < c {
      assert !At(ps[c], ps[i].col, ps[i].row);
    } else {
      assert !At(ps[i], ps[c].col, ps[c].row);
    }
  }

  /**
   * On a board with one piece per square, an enemy piece taken by the move
   * is no longer in the list (a castling rook, if any, being the mover's own).
   */
  lemma CapturedLeaves(pos: Position, m: Move)
    requires Picked(pos.pieces, m) && UniqueSquares(pos.pieces)
    requires CaptureIndex(pos, m).Some?
    requires pos.pieces[CaptureIndex(pos, m).value].white != m.piece.white
    requires RookIndex(pos.pieces, m).Some? ==> pos.pieces[RookIndex(pos.pieces, m).value].white == m.piece.white
    ensures pos.pieces[CaptureIndex(pos, m).value] !in Commit(pos, m).pieces
  {
    if Promotes(m) {
      PromotionCapturedLeaves(pos, m);
    } else {
      PlainCapturedLeaves(pos, m);
    }
  }

  lemma PromotionCapturedLeaves(pos: Position, m: Move)
    requires Picked(pos.pieces, m) && UniqueSquares(pos.pieces) && Promotes(m)
    requires CaptureIndex(pos, m).Some?
    requires pos.pieces[CaptureIndex(pos, m).value].white != m.piece.white
    ensures pos.pieces[CaptureIndex(pos, m).value] !in Commit(pos, m).pieces
  {
    var ps := pos.pieces;
    var k := MoverIndex(ps, m);
    var c := CaptureIndex(pos, m).value;
    var c' := PromotionCaptureSlot(pos, m);
    assert AfterLanding(pos, m) == RemoveAt(ps + [PromotedQueen(m)], k);
    assert Commit(pos, m).pieces == RemoveAt(AfterLanding(pos, m), c');
    PromotedListOmits(ps, PromotedQueen(m), k, c, c');
  }

  /** Dropping entry `k` of `ps + [q]` and then the entry that was `c` leaves no copy of `ps[c]`, on a board with one piece per square. */
  lemma PromotedListOmits(ps: seq<Piece>, q: Piece, k: nat, c: nat, c': nat)
    requires UniqueSquares(ps) && k < |ps| && c < |ps| && c != k && q != ps[c]
    requires c' == if c > k then c - 1 else c
    ensures ps[c] !in RemoveAt(RemoveAt(ps + [q], k), c')
  {
    var full := ps + [q];
    var s3 := RemoveAt(full, k);
    forall i | 0 <= i < |s3| && i != c'
      ensures s3[i] != ps[c]
    {
      var i0 := if i < k then i else i + 1;
      assert s3[i] == full[i0];
      if i0 < |ps| {
        UniqueDistinct(ps, i0, c);
      }
    }
    if ps[c] in RemoveAt(s3, c') {
      RemoveAtOrigin(s3, c', ps[c]);
    }
  }

  lemma PlainCapturedLeaves(pos: Position, m: Move)
    requires Picked(pos.pieces, m) && UniqueSquares(pos.pieces) && !Promotes(m)
    requires CaptureIndex(pos, m).Some?
    requires pos.pieces[CaptureIndex(pos, m).value].white != m.piece.white
    requires RookIndex(pos.pieces, m).Some? ==> pos.pieces[RookIndex(pos.pieces, m).value].white == m.piece.white
    ensures pos.pieces[CaptureIndex(pos, m).value] !in Commit(pos, m).pieces
  {
    var ps := pos.pieces;
    var k := MoverIndex(ps, m);
    var c := CaptureIndex(pos, m).value;
    var s3 := AfterLanding(pos, m);
    var victim := ps[c];
    assert CaptureSlot(pos, m) == Some(c);
    assert Commit(pos, m).pieces == RemoveAt(s3, c);
    forall i | 0 <= i < |s3| && i != c
      ensures s3[i] != victim
    {
      if i == k {
        assert s3[k] == Moved(m.piece, m.newCol, m.newRow);
      } else if RookIndex(ps, m) == Some(i) {
        CastleLanding(pos, m);
        assert s3[i].white == ps[i].white;
      } else {
        assert s3[i] == ps[i];
        UniqueDistinct(ps, i, c);
      }
    }
    if victim in RemoveAt(s3, c) {
      RemoveAtOrigin(s3, c, victim);
    }
  }

  /**
   * En passant: after a pawn's two-row step, a pawn of the other colour that
   * lands on the marked tile takes whatever stands on the stepping pawn's
   * landing square.
   */
  lemma EnPassantTakesTheSteppingPawn(pos: Position, step: Move, m: Move)
    requires Picked(pos.pieces, step) && step.piece.kind == Pawn
    requires IsInsideBoard(step.piece.col, step.piece.row) && IsInsideBoard(step.newCol, step.newRow)
    requires step.newRow == step.piece.row - 2 * ColorIndex(step.piece.white)
    requires m.piece.kind == Pawn && m.piece.white != step.piece.white
    requires IsInsideBoard(m.newCol, m.newRow)
    requires TileNum(m.newCol, m.newRow) == Commit(pos, step).enPassantTile
    ensures LandsOnEnPassantTile(Commit(pos, step), m)
    ensures m.newCol == step.newCol && m.newRow + ColorIndex(m.piece.white) == step.newRow
    ensures CaptureIndex(Commit(pos, step), m) == IndexAt(Commit(pos, step).pieces, step.newCol, step.newRow)
  {
    var skipped := step.newRow + ColorIndex(step.piece.white);
    assert Abs(step.piece.row - step.newRow) == 2;
    assert IsInsideBoard(step.newCol, skipped);
    TileNumInjective(m.newCol, m.newRow, step.newCol, skipped);
  }
}
