# Chess rules and game review, in Dafny

This project models the core of a Java Swing chess program: the rules half of
`Board` (legality gate, move commit, FEN import, game-end decision, UCI and SAN
notation, move log), the attack scan of `CheckScanner`, the `King`, `Queen` and
base `Piece` classes, the post-game grader `GameAnalyzer` and the text report of
`GameReviewFormatter`.

Board orientation follows the program: row 0 is rank 8, White promotes on row 0
and a White pawn attacks towards row − 1. A piece is a value (`Pieces.Piece`:
kind, colour, square, first-move flag). A board is a sequence of pieces, and a
Java object is identified by its index in `pieceList`. Each property below is
proved by the Dafny verifier.

Modules, one or two per source file:

- `Pieces` (`pieces/Piece.java`): the piece record and the default movement and collision predicates.
- `Position` (`main/Board.java` lookups): `getPiece`, `findKing`, `getTileNum`, `isInsideBoard`, `sameTeam`, and the move record.
- `CheckScanner` (`main/CheckScanner.java`): the virtual board `PieceAt` and the ray, knight, king and pawn scans.
- `KingMoves` and `QueenMoves` (`pieces/King.java`, `pieces/Queen.java`): their movement and collision rules.
- `Legality` (`main/Board.java`, `main/CheckScanner.java`):
  - `isValidMove`;
  - the exhaustive search of `isGameOver`;
  - `insufficientMaterial`;
  - the game-end ladder of `updateGameState` / `finishGame`.
- `Commit` (`main/Board.java`): `makeMove`'s list surgery as a pure function (`movePawn`, `promotePawn`, `moveKing`, `capture`, `removePiece`).
- `Fen` (`main/Board.java`): the parsing half of `loadPositionFromFEN`.
- `Notation` (`main/Board.java`): `squareName`, `toUci`, `createMoveFromUci`, `pieceLetter`, `disambiguate`, `buildSanCore`, and the check and mate marks.
- `ChessBoard` (`main/Board.java`): the class `Board`, whose methods update its fields in place. Each is specified against the functions above.
- `GameAnalyzer` (`analysis/GameAnalyzer.java`): grading, the `analyze` loop with the engine as a parameter, and the `Summary` statistics.
- `GameReviewFormatter` (`analysis/GameReviewFormatter.java`): the report lines.
- `Text` and `Wrappers`: decimal rendering, `contains`/`startsWith`/`join`, and `Option`.

## Model

| member | source | states |
|---|---|---|
| Pieces.NewPiece | src/main/java/pieces/Piece.java:13-20 | a new piece has the kind, colour and square it was built with and `isFirstMove` true |
| Pieces.DefaultMovement | src/main/java/pieces/Piece.java:47-49 | the base movement predicate accepts every target |
| Pieces.DefaultCollides | src/main/java/pieces/Piece.java:51-53 | the base collision predicate never reports a collision |
| Position.TileNum | src/main/java/main/Board.java:511-513 | on the board, the tile number lies in [0, 64) and its quotient and remainder by 8 are the row and column |
| Position.TileNumInjective | src/main/java/main/Board.java:511-513 | two on-board squares with the same tile number are the same square |
| Position.FirstFromFirst | src/main/java/main/Board.java:332-341 | the list walk returns the first matching index, and none exactly when no element matches |
| Position.GetPiece | src/main/java/main/Board.java:332-341 | a piece returned is in the list and stands on the square asked for |
| Position.GetPieceNone | src/main/java/main/Board.java:332-341 | `getPiece` gives null exactly when no listed piece stands on the square |
| Position.FindKing | src/main/java/main/Board.java:515-522 | a piece returned is a listed king of the colour asked for |
| Position.FindKingNone | src/main/java/main/Board.java:515-522 | `findKing` gives null exactly when no king of that colour is listed |
| Position.IndexOf | src/main/java/main/Board.java:471-473 | the index found holds the piece, and there is none exactly when the piece is absent |
| Position.RemoveFirst | src/main/java/main/Board.java:471-473 | `pieceList.remove` takes exactly one copy of a listed piece out of the multiset of pieces |
| Position.UniqueGetPiece | src/main/java/main/Board.java:332-341 | with at most one piece per square, `getPiece` on a listed piece's square returns that piece |
| CheckScanner.PieceAt | src/main/java/main/CheckScanner.java:42-52 | virtual board: off-board squares are empty, the destination holds the mover, the origin is empty, any other answer is a listed piece on that square |
| CheckScanner.RayFirstBlocker | src/main/java/main/CheckScanner.java:54-86 | a ray reports a hit exactly when its first occupied square holds an enemy rook or queen (straight) or bishop or queen (diagonal) |
| CheckScanner.KnightAttackIsJump | src/main/java/main/CheckScanner.java:88-101 | the knight scan hits exactly when an enemy knight stands on one of the eight (±1,±2)/(±2,±1) offsets |
| CheckScanner.KingAttackIsNeighbour | src/main/java/main/CheckScanner.java:103-116 | the king scan hits exactly when an enemy king stands on one of the eight neighbouring squares |
| CheckScanner.PawnAttackIsDiagonal | src/main/java/main/CheckScanner.java:118-127 | the pawn scan hits exactly when an enemy pawn stands one column either side and one row toward Black's side of a White king (toward White's side of a Black king) |
| CheckScanner.SliderReachesSomeRay | src/main/java/main/CheckScanner.java:54-86 | an enemy slider is first on some ray of the kind exactly when some ray walk of that kind reports a hit |
| CheckScanner.RookRaysReach | src/main/java/main/CheckScanner.java:26-29 | the four orthogonal scans report a hit exactly when an enemy rook or queen is the first piece on some orthogonal ray |
| CheckScanner.BishopRaysReach | src/main/java/main/CheckScanner.java:31-34 | the four diagonal scans report a hit exactly when an enemy bishop or queen is the first piece on some diagonal ray |
| CheckScanner.AttackedMeans | src/main/java/main/CheckScanner.java:26-38 | the eleven scans together hit exactly when a slider is first on a ray, or an enemy knight is a jump away, or an enemy pawn captures onto the square, or the enemy king stands next to it |
| CheckScanner.IsKingChecked | src/main/java/main/CheckScanner.java:13-39 | the move leaves the mover's king in check exactly when its colour has a king and `AttackedBy` holds at the square that king will stand on: the destination for a king move, the king's own square otherwise |
| CheckScanner.StandStillSeesRealBoard | src/main/java/main/CheckScanner.java:42-52 | for a king standing still, the virtual board is the real board on every square |
| KingMoves.CanCastle | src/main/java/pieces/King.java:27-64 | castling needs an unmoved king on the target row and not in check; kingside needs an unmoved same-colour rook on col 7, cols 5 and 6 empty and no check on either; queenside needs a rook on col 0, cols 1 to 3 empty and no check on cols 3 and 2; no other column castles |
| KingMoves.KingStepIsNeighbour | src/main/java/pieces/King.java:23-25 | the arithmetic step test (`abs(dc*dr)==1` or `abs(dc)+abs(dr)==1`) holds exactly for the eight neighbours |
| KingMoves.KingMovement | src/main/java/pieces/King.java:23-25 | a king moves to a neighbouring square or castles, and nowhere else |
| KingMoves.KingLongMoveIsCastle | src/main/java/pieces/King.java:23-64 | a king move to a non-neighbouring square is a castle on its own row to column 6 or 2 |
| QueenMoves.QueenMovementIsLine | src/main/java/pieces/Queen.java:22-27 | the queen's target is exactly a point of one of the eight rays from its square (distance 0 included) |
| QueenMoves.CollidesIffBetweenOccupied | src/main/java/pieces/Queen.java:30-89 | a line move collides exactly when some square strictly between origin and target is occupied |
| QueenMoves.BetweenCollides | src/main/java/pieces/Queen.java:30-89 | an occupied square strictly between origin and target makes the move collide |
| QueenMoves.CollisionIsBetween | src/main/java/pieces/Queen.java:30-89 | a collision is always caused by an occupied square strictly between, never by the endpoints |
| QueenMoves.StraightCollisionIsBetween | src/main/java/pieces/Queen.java:32-59 | the four straight loops only find squares strictly between origin and target |
| QueenMoves.DiagonalCollisionIsBetween | src/main/java/pieces/Queen.java:60-86 | the four diagonal loops only find squares strictly between origin and target |
| QueenMoves.AdjacentNeverCollides | src/main/java/pieces/Queen.java:30-89 | a move of distance one never collides |
| Legality.MobileFromExists | src/main/java/main/CheckScanner.java:129-144 | the list walk from index i finds a movable piece exactly when some later piece of the colour has a valid move |
| Legality.HasLegalMoveExists | src/main/java/main/CheckScanner.java:129-144 | `isGameOver` is false exactly when some piece of the king's colour has a valid move to one of the 64 squares |
| Legality.StandingStillIsNeverValid | src/main/java/main/Board.java:475-502 | a move onto the mover's own square is never valid |
| Legality.ValidMoveMeaning | src/main/java/main/Board.java:475-502 | a move is valid exactly when the game is not over, the mover is of the side to move, it takes no piece of its own colour, its class allows the move with a clear path, and no enemy piece on the board after the move reaches the square its king will stand on |
| Legality.ValidQueenMove | src/main/java/main/Board.java:475-502 | a valid queen move lies on one of its rays and no square strictly between is occupied |
| Legality.ValidKingMove | src/main/java/main/Board.java:475-502 | a valid king move is a step, or a castle by an unmoved king not in check with an unmoved rook in the corner |
| Legality.NonKings | src/main/java/main/Board.java:771-773 | the filtered list holds exactly the non-king pieces of the colour |
| Legality.OneColourIffAllAlike | src/main/java/main/Board.java:797-804 | one distinct square colour means all bishops stand on the same colour |
| Legality.InsufficientMaterialCases | src/main/java/main/Board.java:770-807 | a queen, rook or pawn gives false; a lone king, a single minor piece, or at most two knights give true; several bishops give true exactly when all stand on one square colour; any other mix of two or more minor pieces (a knight with a bishop, three or more knights) gives false |
| Legality.JudgeVerdicts | src/main/java/main/Board.java:605-636 | checkmate exactly when no listed piece of the side to move can move and its king is attacked; stalemate when none can move and the king is safe; a dead position when some piece can move and both sides lack mating material; otherwise check or play as the king is attacked or not |
| Legality.GameEndResult | src/main/java/main/Board.java:605-651 | mate scores for the side that moved, stalemate and dead material are 1/2-1/2, and play goes on exactly while a legal move exists and the material suffices |
| Commit.MoverIndex | src/main/java/main/Board.java:347-371 | the mover is found in the list |
| Commit.CaptureIndex | src/main/java/main/Board.java:427-434 | a piece removed as captured is a listed piece |
| Commit.RookIndex | src/main/java/main/Board.java:408-425 | a rook is relocated only for a king move of two columns, and it is a rook on the corner square of the king's row |
| Commit.RemoveAt | src/main/java/main/Board.java:471-473 | removing one element shortens the list by one |
| Commit.AfterPromotion | src/main/java/main/Board.java:427-453 | the pawn step keeps the list length (queen in, pawn out) |
| Commit.AfterCastle | src/main/java/main/Board.java:408-425 | the king step keeps the list length |
| Commit.AfterLanding | src/main/java/main/Board.java:359-370 | landing the mover keeps the list length |
| Commit.Commit | src/main/java/main/Board.java:347-376 | the side to move flips exactly once, the game-over flag is untouched and the en-passant tile is the pawn rule's |
| Commit.NextEnPassantTile | src/main/java/main/Board.java:430-440 | a non-pawn move leaves the tile as it was; a pawn's two-row step forward marks the square it passed over; any other pawn move clears the tile |
| Commit.Recorded | src/main/java/main/Board.java:365-376 | `lastMove` records origin and destination, and its piece is the mover on its new square with `isFirstMove` false |
| Commit.CommitMovesOnlyWhatItTouches | src/main/java/main/Board.java:347-473 | the pieces after the commit are the pieces before, less the mover, the captured piece and the castling rook, plus their new versions: nothing else changes |
| Commit.PromotionMovesOnlyWhatItTouches | src/main/java/main/Board.java:427-473 | the same frame property for a promotion |
| Commit.CastleMovesOnlyWhatItTouches | src/main/java/main/Board.java:408-425 | the same frame property for a castle |
| Commit.CastleWithCapture | src/main/java/main/Board.java:408-473 | the same frame property for a castle that also removes a captured piece |
| Commit.PlainMoveMovesOnlyWhatItTouches | src/main/java/main/Board.java:359-473 | the same frame property for a move that neither promotes nor castles |
| Commit.PlainCapture | src/main/java/main/Board.java:455-473 | the same frame property for a plain capture |
| Commit.MoverLands | src/main/java/main/Board.java:365-370 | unless it promoted or was itself removed, the mover stands on its destination with `isFirstMove` false |
| Commit.RookRelocated | src/main/java/main/Board.java:408-425 | a castle moves the corner rook to column 5 or 3 with `isFirstMove` false and sets `isCastle` |
| Commit.QueenAppended | src/main/java/main/Board.java:443-453 | a pawn reaching row 0 (White) or 7 (Black) is replaced by a same-colour queen on the destination, appended at the end, and `isPromotion` is set |
| Commit.CapturedLeaves | src/main/java/main/Board.java:455-473 | an enemy piece captured by the move is no longer on the board |
| Commit.PromotionCapturedLeaves | src/main/java/main/Board.java:449-473 | the same for a capturing promotion |
| Commit.PlainCapturedLeaves | src/main/java/main/Board.java:455-473 | the same for a move that does not promote |
| Commit.EnPassantTakesTheSteppingPawn | src/main/java/main/Board.java:427-440 | after a two-row pawn step, an enemy pawn landing on the en-passant tile lands on the skipped square and captures what stands on the stepping pawn's square |
| Fen.SplitOn | src/main/java/main/Board.java:538 | splitting gives at least one field and no field contains the separator |
| Fen.SplitOnField | src/main/java/main/Board.java:538 | a leading field up to the separator is split off unchanged |
| Fen.SplitOnWhole | src/main/java/main/Board.java:538 | a string without the separator is its own single field |
| Fen.DropTrailingEmpty | src/main/java/main/Board.java:538 | `String.split` keeps a prefix of the fields that ends in a non-empty field, and every field it drops is empty |
| Fen.Split | src/main/java/main/Board.java:538 | no field contains a space |
| Fen.PlaceFrom | src/main/java/main/Board.java:541-575 | the placement walk adds at most one piece per character, and every piece it adds has `isFirstMove` set |
| Fen.PlaceFromForward | src/main/java/main/Board.java:541-575 | the placement walk only moves forward in reading order |
| Fen.PlaceFromOrdered | src/main/java/main/Board.java:541-575 | the pieces placed are in strictly increasing reading order |
| Fen.OrderedUnique | src/main/java/main/Board.java:541-575 | pieces in strictly increasing reading order never share a square |
| Fen.SetCornerRook | src/main/java/main/Board.java:579-594 | setting one corner rook's flag keeps the list length |
| Fen.SetCornerRookKeepsSquares | src/main/java/main/Board.java:579-594 | setting a corner rook's flag changes no kind, colour or square |
| Fen.WithCastlingRights | src/main/java/main/Board.java:579-594 | the castling field keeps the list length |
| Fen.CastlingRightsKeepSquares | src/main/java/main/Board.java:579-594 | the castling field changes only first-move flags |
| Fen.EnPassantFieldInverse | src/main/java/main/Board.java:596-600 | the en-passant field decodes a square name back to that square's tile number |
| Fen.LoadedSquaresUnique | src/main/java/main/Board.java:528-600 | a loaded position never has two pieces on one square |
| Notation.FileChar | src/main/java/main/Board.java:1142 | the file letter is `a` to `h` and decodes back to the column |
| Notation.SquareName | src/main/java/main/Board.java:1141-1145 | a square name is a file letter and a rank digit |
| Notation.NumericValue | src/main/java/main/Board.java:1100-1102 | `Character.getNumericValue` of a digit is its value |
| Notation.SquareNameInverse | src/main/java/main/Board.java:1099-1102 | decoding a square name (`c - 'a'`, `8 - digit`) gives back column and row |
| Notation.ToUci | src/main/java/main/Board.java:1128-1139 | the UCI string is origin name then destination name, plus `q` exactly when a pawn reaches its promotion row |
| Notation.CreateMoveFromUci | src/main/java/main/Board.java:1095-1109 | a string shorter than 4 gives null; otherwise null exactly when no piece stands on the square `(c - 'a', 8 - digit)` the first two characters name; a move built moves that piece to the square the next two characters name, with the capture the `Move` constructor finds there |
| Notation.UciRoundTrip | src/main/java/main/Board.java:1095-1145 | decoding the UCI string of a listed piece's move gives back that move |
| Notation.PieceLetter | src/main/java/main/Board.java:1390-1405 | the letter is empty exactly for a pawn, else one of N, B, R, Q, K |
| Notation.PieceLetterInjective | src/main/java/main/Board.java:1390-1405 | different kinds get different letters |
| Notation.Disambiguate | src/main/java/main/Board.java:1407-1450 | the loop over rivals computes the disambiguation function: nothing without a rival, the rank when one shares only the file, file and rank when both are shared, the file otherwise |
| Notation.DisambiguationIdentifies | src/main/java/main/Board.java:1407-1450 | the prefix fits the mover's origin and fits no rival that could reach the same square |
| Notation.DisambiguationIsPrefixLike | src/main/java/main/Board.java:1438-1449 | the prefix is empty, a file, a rank, or file then rank |
| Notation.SanCore | src/main/java/main/Board.java:1365-1371 | a king move two columns right is `O-O` and two columns left `O-O-O` |
| Notation.SanCoreReadBack | src/main/java/main/Board.java:1372-1388 | a SAN core reads back: its target square is the destination, it ends in `=Q` exactly on promotion, has `x` exactly on capture, and opens with the piece letter or the pawn's file |
| Notation.SanCoreEnds | src/main/java/main/Board.java:1383-1386 | the destination square and `=Q` close the SAN core |
| Notation.SanCoreCaptureMark | src/main/java/main/Board.java:1377-1382 | `x` appears exactly when capturing |
| Notation.SanCoreOpening | src/main/java/main/Board.java:1373-1379 | the SAN core opens with the piece letter, or a file letter for a pawn |
| Notation.Annotated | src/main/java/main/Board.java:382-388 | the notation is the core plus `#` exactly after mate, else `+` exactly after check |
| Text.NatStringValue | src/main/java/main/Board.java:1115 | the decimal rendering of a number reads back as that number |
| ChessBoard.PieceIcon | src/main/java/main/Board.java:748-768 | each piece gets a one-character symbol |
| ChessBoard.PieceIconDistinguishes | src/main/java/main/Board.java:748-768 | the symbol determines kind and colour |
| ChessBoard.Logged | src/main/java/main/Board.java:459-463 | a captured piece's symbol is appended to the list of the side that took it, and nothing else changes |
| ChessBoard.BuildSanCore | src/main/java/main/Board.java:352-357 | the SAN core is built from the flags of the board before the move |
| ChessBoard.PromotionTestsAgree | src/main/java/main/Board.java:1340-1345 | the pawns `promotePawn` replaces are exactly those `toUci` marks with `q`; `isPromotionMove` accepts those and also a pawn reaching its own back row |
| ChessBoard.EnPassantTestsAgree | src/main/java/main/Board.java:1347-1355 | `isEnPassantCapture` holds exactly when `movePawn` sees a pawn land on the marked tile and that square is empty |
| ChessBoard.AppendDisplay | src/main/java/main/Board.java:1113-1123 | a White move opens a numbered entry; a Black move keeps all entries but the last and turns the last into `last + " " + notation`, or opens `1...` on an empty log |
| ChessBoard.RecordedDisplayIsRebuilt | src/main/java/main/Board.java:1229-1246 | the log built move by move is the log rebuilt from the SAN list, with one entry per White-Black pair |
| ChessBoard.RebuiltStep | src/main/java/main/Board.java:1232-1244 | each rebuild step is the record step of that ply |
| ChessBoard.RebuiltNext | src/main/java/main/Board.java:1232-1244 | an even ply opens entry `i/2+1`, an odd ply extends the last entry |
| ChessBoard.RebuiltAgree | src/main/java/main/Board.java:1229-1246 | the rebuild depends only on the plies it shows |
| ChessBoard.ShownPlies | src/main/java/main/Board.java:1232 | the review shows plies 0 to the pointer, none for a negative pointer, and the whole SAN list when the pointer is at or past its end |
| ChessBoard.StepPointer | src/main/java/main/Board.java:1659-1660 | the new pointer is `pointer + delta` when that lies in [−1, count − 1], −1 below that range and `count − 1` above it |
| ChessBoard.ScanFrom | src/main/java/main/CheckScanner.java:130-143 | the scan stops within the list |
| ChessBoard.ScanFromStops | src/main/java/main/CheckScanner.java:130-143 | the scan runs off the end exactly when no later piece can move, and otherwise stops just after a movable piece |
| ChessBoard.Board.constructor | src/main/java/main/Board.java:105-114 | a new board's starting FEN is the standard one and it holds that position, with empty move and capture logs, result `*`, no game in progress, no selected piece, the check and mate flags false, and review mode off with the pointer at −1 and no review moves |
| ChessBoard.Board.StartNewGame | src/main/java/main/Board.java:297-325 | the position of the starting FEN, a game in progress, result `*`, empty move and capture logs, and review mode cleared (off, pointer −1, no snapshots, no review moves); only the fields `startNewGame` writes may change, and the selected piece and the check and mate flags keep their values |
| ChessBoard.Board.ClearAnalysisReview | src/main/java/main/Board.java:1323-1334 | review mode off, the pointer at −1, no snapshots and no review moves |
| ChessBoard.Board.LoadStartingPosition | src/main/java/main/Board.java:299 | the starting FEN is loaded: its position, empty logs and result `*` |
| ChessBoard.Board.BeginGame | src/main/java/main/Board.java:300-301 | a game is in progress with an open result `*` |
| ChessBoard.Board.EnableManualSetup | src/main/java/main/Board.java:327-330 | a game in progress that is not over |
| ChessBoard.Board.LoadPositionFromFEN | src/main/java/main/Board.java:528-603 | the board becomes the loaded position, with every log cleared and result `*` |
| ChessBoard.Board.ClearForLoad | src/main/java/main/Board.java:529-537 | the piece list and every log are cleared and the game is not over |
| ChessBoard.Board.SetUpPosition | src/main/java/main/Board.java:538-600 | placement, side to move, castling flags and en-passant tile are read off the fields |
| ChessBoard.Board.PlacePieces | src/main/java/main/Board.java:541-575 | the walk appends exactly the pieces the placement field names |
| ChessBoard.Board.SetCastlingRights | src/main/java/main/Board.java:579-594 | the four corner rooks get their flags from the castling field |
| ChessBoard.Board.RemovePiece | src/main/java/main/Board.java:471-473 | one piece leaves the list |
| ChessBoard.Board.PromotePawn | src/main/java/main/Board.java:449-453 | a queen is appended and the pawn removed |
| ChessBoard.Board.MovePawn | src/main/java/main/Board.java:427-447 | the en-passant capture, the next en-passant tile and the promotion follow the pawn rule |
| ChessBoard.Board.MoveKing | src/main/java/main/Board.java:408-425 | the rook is relocated exactly when a rook stands in the corner for a two-column king move |
| ChessBoard.Board.Capture | src/main/java/main/Board.java:455-469 | a captured piece is logged for the side that took it and leaves the list; no capture changes nothing |
| ChessBoard.Board.MovePiece | src/main/java/main/Board.java:359-370 | the pawn or king step, then the mover lands |
| ChessBoard.Board.CommitMove | src/main/java/main/Board.java:352-376 | pieces, side to move, en-passant tile, last move and capture logs are those of the commit function |
| ChessBoard.Board.HandOver | src/main/java/main/Board.java:374-376 | the side to move flips and the last move is recorded |
| ChessBoard.Board.MakeMove | src/main/java/main/Board.java:347-406 | an inactive game with side effects is a no-op; otherwise the board becomes the commit of the move, and with side effects the game state and the annotated move log follow |
| ChessBoard.Board.PlayMove | src/main/java/main/Board.java:343-406 | a move in a game in progress commits and records the move as `Announcement` describes |
| ChessBoard.Board.Announce | src/main/java/main/Board.java:378-390 | the verdict on the new position, the check and mate flags, and the move appended in UCI and in annotated SAN |
| ChessBoard.Board.UpdateGameState | src/main/java/main/Board.java:605-636 | the flags follow the verdict, a game-ending verdict ends the game with its result tag, and an inactive game is untouched |
| ChessBoard.Board.Survey | src/main/java/main/Board.java:610-626 | the check flag, the exhaustive search and the material test answer the verdict's three questions |
| ChessBoard.Board.Conclude | src/main/java/main/Board.java:617-628 | the ending verdicts end the game with their result tags; the others leave it running |
| ChessBoard.Board.FinishGame | src/main/java/main/Board.java:638-659 | the game is over and inactive, with the tag read off the message |
| ChessBoard.Board.IsGameOver | src/main/java/main/CheckScanner.java:129-144 | the search reports game over exactly when no piece of the king's colour has a valid move, and leaves `selectedPiece` as the scan's last assignment |
| ChessBoard.Board.PieceCanMove | src/main/java/main/CheckScanner.java:133-140 | the 64-square loop finds a valid destination exactly when one exists |
| ChessBoard.Board.RecordMove | src/main/java/main/Board.java:1111-1126 | the UCI string, the display entry and the SAN are appended |
| ChessBoard.Board.RebuildDisplayMovesForPointer | src/main/java/main/Board.java:1229-1246 | the move log and SAN list become those of the plies up to the pointer |
| ChessBoard.Board.ShowPly | src/main/java/main/Board.java:1233-1243 | one loop step extends the rebuilt log by one ply |
| ChessBoard.Board.StepAnalysis | src/main/java/main/Board.java:1655-1669 | outside review, or without snapshots, nothing changes; otherwise the pointer moves by the clamped step and the log is rebuilt when it moved |
| ChessBoard.StartingFenWellFormed | src/main/java/main/Board.java:32 | the starting FEN has the four fields the loader reads |
| GameAnalyzer.Clamp | src/main/java/analysis/GameAnalyzer.java:109 | `max(0, loss)` is the loss or 0, non-negative and at least the loss |
| GameAnalyzer.ClassifyBands | src/main/java/analysis/GameAnalyzer.java:143-149 | Blunder from 7, Mistake in [4, 7), Inaccuracy in [2, 4), Good below 2, each in both directions |
| GameAnalyzer.ClassifyMonotone | src/main/java/analysis/GameAnalyzer.java:143-149 | a larger loss never gets a milder severity |
| GameAnalyzer.QualityTagCases | src/main/java/analysis/GameAnalyzer.java:151-182 | Mate exactly for a mate severity; otherwise Brilliant, Great or Best exactly when the best move was played, and a top-tier tag exactly when it was or the loss is below 0.15 |
| GameAnalyzer.QualityTagMonotone | src/main/java/analysis/GameAnalyzer.java:166-181 | when the best move was not played, a larger loss never gets a better tag |
| GameAnalyzer.GradeMeaning | src/main/java/analysis/GameAnalyzer.java:59-84 | an entry carries the ply, the colour (even ply is White), the move, the engine's best move and line, the loss in pawns from the mover's side, a mate severity and tag exactly when the engine saw a mate, and a best-move tag only for the engine's move |
| GameAnalyzer.ClassifyNotMate | src/main/java/analysis/GameAnalyzer.java:143-149 | a classified loss never reads as a mate |
| GameAnalyzer.GradeEvaluations | src/main/java/analysis/GameAnalyzer.java:63-70 | evaluations are centipawn scores over 100 |
| GameAnalyzer.GradeChain | src/main/java/analysis/GameAnalyzer.java:63-86 | the evaluation after a ply is the evaluation before the next, and colours alternate |
| GameAnalyzer.AnsweredThroughMeans | src/main/java/analysis/GameAnalyzer.java:56-69 | the engine answered every prefix up to k exactly when each of those calls succeeded |
| GameAnalyzer.Graded | src/main/java/analysis/GameAnalyzer.java:59-87 | one entry per ply graded |
| GameAnalyzer.GradedAt | src/main/java/analysis/GameAnalyzer.java:59-87 | entry i is the grade of ply i against the answers before and after it |
| GameAnalyzer.EntriesChain | src/main/java/analysis/GameAnalyzer.java:63-86 | consecutive entries chain their evaluations and alternate colours |
| GameAnalyzer.Analyze | src/main/java/analysis/GameAnalyzer.java:50-90 | no engine gives an empty summary; otherwise the call fails exactly when an engine call fails, and the summary is that of one graded entry per move |
| GameAnalyzer.LossSum | src/main/java/analysis/GameAnalyzer.java:116 | the sum of clamped losses is non-negative |
| GameAnalyzer.MaxLoss | src/main/java/analysis/GameAnalyzer.java:119 | the maximum clamped loss is non-negative |
| GameAnalyzer.MinLoss | src/main/java/analysis/GameAnalyzer.java:120 | the minimum clamped loss is non-negative |
| GameAnalyzer.CountSeverity | src/main/java/analysis/GameAnalyzer.java:110-112 | a severity count never exceeds the number of entries |
| GameAnalyzer.CountTopTier | src/main/java/analysis/GameAnalyzer.java:113-115 | the top-tier count never exceeds the number of entries |
| GameAnalyzer.Side | src/main/java/analysis/GameAnalyzer.java:127-131 | an entry is among one side's entries exactly when it is an entry of the game played by that colour |
| GameAnalyzer.LossSumBetween | src/main/java/analysis/GameAnalyzer.java:116-120 | the loss sum lies between n times the minimum and n times the maximum |
| GameAnalyzer.MeanBetween | src/main/java/analysis/GameAnalyzer.java:109 | a sum between n·lo and n·hi has its mean between lo and hi |
| GameAnalyzer.LossOrder | src/main/java/analysis/GameAnalyzer.java:109-120 | 0 ≤ min ≤ average ≤ max, all 0 without entries |
| GameAnalyzer.SummaryLossOrder | src/main/java/analysis/GameAnalyzer.java:106-123 | the summary's min, average and max loss are ordered and 0 without entries |
| GameAnalyzer.AccuracyRange | src/main/java/analysis/GameAnalyzer.java:117-118 | accuracy lies in [0, 100] |
| GameAnalyzer.LossSumZero | src/main/java/analysis/GameAnalyzer.java:116 | the loss sum is 0 exactly when no entry lost anything |
| GameAnalyzer.AccuracyPerfect | src/main/java/analysis/GameAnalyzer.java:117-118 | accuracy is 100 exactly when no entry lost anything |
| GameAnalyzer.SidesPartition | src/main/java/analysis/GameAnalyzer.java:126-131 | White's and Black's entries and loss sums add up to the whole game's |
| GameAnalyzer.LossSumAppend | src/main/java/analysis/GameAnalyzer.java:116 | the loss sum is additive over concatenation |
| GameAnalyzer.SummaryCounts | src/main/java/analysis/GameAnalyzer.java:108-115 | inaccuracies + mistakes + blunders and the best count never exceed the move count, which is the number of entries |
| GameAnalyzer.SummaryAccuracies | src/main/java/analysis/GameAnalyzer.java:118-137 | overall and per-side accuracies lie in [0, 100], and a side without moves scores 100 |
| GameReviewFormatter.LabelFromTable | src/main/java/analysis/GameReviewFormatter.java:64-87 | from case k on, the m-th known tag gets the m-th label and a tag not among those cases is returned as it is |
| GameReviewFormatter.KnownTagsDistinct | src/main/java/analysis/GameReviewFormatter.java:64-84 | no two cases of the switch share a tag |
| GameReviewFormatter.LabelForTable | src/main/java/analysis/GameReviewFormatter.java:60-88 | null or blank gives `• Unknown`, the k-th known tag gets the k-th label, any other tag is shown as it is |
| GameReviewFormatter.KnownLabelsDistinct | src/main/java/analysis/GameReviewFormatter.java:62-84 | the ten labels differ from each other and from the Unknown label |
| GameReviewFormatter.QualityTagKnown | src/main/java/analysis/GameReviewFormatter.java:64-84 | every tag the analyzer produces is one of the ten known cases |
| GameReviewFormatter.LimitPv | src/main/java/analysis/GameReviewFormatter.java:49-54 | the PV is returned whole when it has at most `max` moves, else its first `max` moves |
| GameReviewFormatter.MoveLabelReadBack | src/main/java/analysis/GameReviewFormatter.java:43-47 | a label opens with the digits of move number `plyIndex/2+1` and a dot, a space follows exactly for White, and it ends with the SAN of that ply when present and non-null, else the played move |
| GameReviewFormatter.LossSegment | src/main/java/analysis/GameReviewFormatter.java:28-30 | the loss part is empty exactly when the severity starts with "Mate" |
| GameReviewFormatter.LineSegment | src/main/java/analysis/GameReviewFormatter.java:32-34 | the line part is empty exactly when the best line is |
| GameReviewFormatter.EntryLineOpensWithDigit | src/main/java/analysis/GameReviewFormatter.java:25-27 | a move line opens with a digit of its move number |
| GameReviewFormatter.LineTail | src/main/java/analysis/GameReviewFormatter.java:28-34 | after the tag label comes the loss part exactly when the severity is not a mate, and the best-move part straight away for a mate |
| GameReviewFormatter.ReportLines | src/main/java/analysis/GameReviewFormatter.java:15-36 | k entries give the five header lines and k more |
| GameReviewFormatter.ReportLinesAt | src/main/java/analysis/GameReviewFormatter.java:23-36 | after the header, line j is the line of entry j |
| GameReviewFormatter.ReportShape | src/main/java/analysis/GameReviewFormatter.java:15-40 | the report is the header, one line per entry in order, and `No moves to analyze.` last exactly when there are no entries |
| GameReviewFormatter.BuildReport | src/main/java/analysis/GameReviewFormatter.java:14-41 | the loop builds exactly that report |

Behaviour of the source that a reader might not expect, kept as it is:

- A non-pawn move leaves the en-passant tile as it was, so an en-passant capture stays possible on later plies and not only on the very next one.
- `loadPositionFromFEN` validates nothing. A rank that does not add up to eight files, or an unknown letter, raises no error: unknown letters just take a column.
- FEN import sets the first-move flags of the four corner rooks only. The king's flag is not restored from the castling field.
- Accuracy divides a side's clamped loss sum by `count * 500`. It is therefore 100 minus the mean clamped loss divided by 5, so an average loss of 5 pawns still scores 99.

Also as in the source: the virtual board of the check scan clears only `move.capture`'s square. When `isValidMove` runs, a pawn to be taken en passant is not yet the move's capture, so it still stands on the virtual board.

## Left out

- I/O, the engine process, sounds, painting, clocks, the Swing event wiring and the `notify*` callbacks are not part of this model.
- The engine is a parameter: a function from the moves played so far to an answer, or to nothing when the call fails with an I/O error. The UCI text it is sent (the moves joined by spaces) is not modelled.
- `String.format("%.2f", …)` is the parameter `fmt` of the formatter. Doubles are modelled as exact reals, so rounding is not captured.
- A null principal variation is modelled as an empty list, as the `Entry` constructor stores it.
- GameAnalyzer.Analyze: calls `Grade` for each ply instead of the source's inline locals. It passes the move prefix to the engine instead of the joined `history` string.
- `Pawn`, `Rook`, `Bishop`, `Knight` and the `Move` constructor are not part of this model. Their movement and collision rules are the parameter `UnseenRules`. A `Move` is built as `Position.NewMove` infers it (origin from the piece, capture from `getPiece` on the destination).
- Piece identity and aliasing are not modelled: pieces are values found by index. The `Move`'s piece reference left behind after a promotion is not modelled.
- The `value` field of a piece only feeds the on-screen material score, so it is not modelled.
- ChessBoard.Board.MakeMove: requires a king of the side to move after the commit. Without one, the source's `updateGameState` throws a `NullPointerException`, and that path is not modelled.
- ChessBoard.Board.StartNewGame: requires `fenStartingPosition` to have the four fields the loader reads. The constructor sets it to the standard FEN, which has them, and the source never changes it. `resetClock`, the engine reset and the notifications are left out as I/O.
- Fen.IsDigit, Fen.ToLower: model `Character.isDigit` and `Character.toLowerCase` on ASCII only. Java also accepts other Unicode digits, such as the full-width `'１'`..`'８'`, and lowercases letters such as the Kelvin sign U+212A to `'k'`. The model treats those characters as unknown.
- Fen.PlaceFrom: tests upper case with `'A'..'Z'` instead of `Character.isUpperCase`, and counts empty squares with the ASCII `IsDigit`. A FEN using non-ASCII digits or letters places pieces differently in Java, and that is not modelled.
- Notation.NumericValue: gives the value of ASCII digits and Latin letters and -1 otherwise. Java's `getNumericValue` also gives values for other Unicode digits and letters, such as the full-width ones.
- Notation.CreateMoveFromUci: strings are sequences of Unicode scalar values, so `|uci|` counts characters where Java's `length()` counts UTF-16 code units. The two differ only outside the Basic Multilingual Plane. Character decoding is ASCII, as in `NumericValue`.
- ChessBoard.Board.LoadPositionFromFEN: requires the four fields the source reads. On fewer fields, or a one-character en-passant field, the source throws, and that path is not modelled.
- `getPgn`, `captureLiveGameState`/`restoreLiveGameState`, the analysis snapshots and `applySnapshotForPointer` are left out as review UI. The snapshot count is kept only as the guard of `stepAnalysis`.
