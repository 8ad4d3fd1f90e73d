# Chess rules board and alpha-beta engine, modelled in Dafny

This project models the two core pieces of a small chess backend.

- The **rules board** (`backend/chess/chess_board.py`). A mutable `Board` holds an 8×8 grid,
  the side to move, the castling rights, the en-passant target, the halfmove and fullmove
  clocks, a history of snapshots and a table of repetition counts keyed by a FEN-like string.
  It generates pseudo-legal moves and then legal moves, including promotions, en passant and
  castling with the in-check and through-check tests. It also makes and undoes moves, detects
  check, checkmate, stalemate, the fifty-move draw and threefold repetition, and parses moves
  typed as text.
- The **engine** (`backend/chess/chess_engine.py`). It scores a position by material, mobility
  and check, and runs a fail-soft alpha-beta search on the live board. The search plays each
  move, recurses, restores the snapshot and orders captures and promotions first. The engine
  then picks the root move with the best searched value.

The model keeps the source's shape.

- `ChessBoard.Board` is a class whose fields are the source's fields. Its methods reassign them
  under `modifies` clauses and are proved against value-level specification functions on a
  `Position` datatype, which is what the source snapshots. These functions live in `Positions`,
  `MoveGen`, `Keys`, `Game` and `MoveText`.
- The loops of the source (the king scan, the attack scans, move generation, the legality
  filter, the position key, the material sum, the search loops) are methods with loop
  invariants.
- The engine's methods in `ChessEngine` work on the live board. Each is proved to return the
  value of a function in `SearchSpec` and `AlphaBeta`.
- Behaviour that may look surprising is kept as written. Castling is offered without checking
  that a rook stands on the corner, and applying it puts a rook on f or d regardless.
  Parsing requires the promotion letter to match exactly; there is no auto-queen. An
  en-passant move records no captured piece.
- `AlphaBeta` is a generic game-tree library. It proves that the source's alpha-beta search
  computes plain minimax with the full window, in any move order, and that the root choice is
  a best move.

## Model

| member | source | states |
|---|---|---|
| ChessTypes.Id | backend/chess/chess_board.py:325-329 | the identity of a move is exactly its squares, promotion and the three flags; captured piece and mover are not part of it |
| ChessTypes.Opponent | backend/chess/chess_board.py:155 | the other colour is never the same colour |
| ChessTypes.Symbol | backend/chess/chess_board.py:13-14 | white pieces print as the upper-case letter, black as a different, lower-case one |
| ChessTypes.SymbolRoundTrip | backend/chess/chess_board.py:13-14 | a piece symbol determines the piece again and is never a digit, so it cannot be confused with an empty-square count in a key |
| ChessTypes.LowerString | backend/chess/chess_board.py:34 | lower-casing maps every character and keeps the length |
| ChessTypes.StripLeft | backend/chess/chess_board.py:34 | the result is a suffix of the input, starts with a character `str.strip()` keeps, and only characters it removes were dropped |
| ChessTypes.StripRight | backend/chess/chess_board.py:34 | the result is a prefix of the input, ends with a character `str.strip()` keeps, and only characters it removes were dropped |
| ChessTypes.FileIndex | backend/chess/chess_board.py:35 | a file letter gives its index in "abcdefgh"; any other character is refused, where the source raises |
| ChessTypes.AlgebraicToCoords | backend/chess/chess_board.py:32-38 | a parsed square needs two characters after stripping; its column is a file and its row lies in -1..8 (the rank digit is not range-checked) |
| ChessTypes.CoordsToAlgebraic | backend/chess/chess_board.py:41-43 | every board square has a two-character name, file letter then rank digit 1..8 |
| ChessTypes.SquareNamePlain | backend/chess/chess_board.py:34 | stripping and lower-casing leave a square name unchanged |
| ChessTypes.CoordsRoundTrip | backend/chess/chess_board.py:32-43 | naming a board square and parsing the name gives the square back |
| ChessTypes.AlgebraicRoundTrip | backend/chess/chess_board.py:32-43 | every name a1..h8 parses to a board square whose name is the text again |
| Positions.SetAt | backend/chess/chess_board.py:362 | writing one square keeps the 8×8 shape, stores the value and leaves every other square alone |
| Positions.StartGridSquares | backend/chess/chess_board.py:72-79 | the starting grid has pawns on rows 1 and 6, the back ranks R N B Q K B N R and empty squares elsewhere |
| Positions.KingFrom | backend/chess/chess_board.py:92-98 | the scan returns the first king of the colour in row-major order from the start square, and nothing exactly when there is no such king |
| PawnAttackFinding.AttackMissedAsWritten | backend/chess/chess_board.py:105-112 | with a black pawn on d2 and the white king on e1, the king is attacked, yet the source's scan reports no attack |
| MoveGen.PawnArrivals | backend/chess/chess_board.py:172-176 | a pawn reaching the last row yields the four promotions Q, R, B, N in that order; any other arrival yields one plain move |
| MoveGen.PawnPushes | backend/chess/chess_board.py:169-182 | pushes come from the pawn's square, are never special moves, and number at most five |
| MoveGen.PawnCapture | backend/chess/chess_board.py:184-195 | diagonal captures on one side come from the pawn's square and are never special moves |
| MoveGen.PawnEnPassant | backend/chess/chess_board.py:197-201 | at most one en-passant move, flagged as such, landing one row forward |
| MoveGen.PawnMoves | backend/chess/chess_board.py:168-201 | every pawn move comes from the pawn, none castles, and en passant lands one row forward |
| MoveGen.StepMoves | backend/chess/chess_board.py:203-212 | knight and king steps give at most one move per offset, from the piece's square |
| MoveGen.RayMoves | backend/chess/chess_board.py:221-232 | a ray gives at most one move per square it can still reach before the edge |
| MoveGen.SliderSteps | backend/chess/chess_board.py:214-219 | the directions of a slider are unit steps, at most eight |
| MoveGen.SlideMoves | backend/chess/chess_board.py:214-232 | slider moves come from the piece's square, at most sixteen per direction, none special |
| MoveGen.CastleMoves | backend/chess/chess_board.py:245-259 | at most two castling moves, each flagged as exactly one of kingside and queenside |
| MoveGen.PieceMoves | backend/chess/chess_board.py:159-265 | every generated move records the piece on the source square as its mover |
| MoveGen.PseudoFrom | backend/chess/chess_board.py:267-274 | every move from the scan is generated by a piece of the given colour |
| MoveGen.MovedGrid | backend/chess/chess_board.py:361-393 | moving the pieces keeps the grid 8×8 |
| MoveGen.Apply | backend/chess/chess_board.py:345-427 | applying a move keeps the position well formed and leaves side to move, move number and counts alone |
| MoveGen.GeneratedApplicable | backend/chess/chess_board.py:345-350 | a generated move starts on an occupied square, so applying it never fails the source's assertion |
| MoveGen.LegalFrom | backend/chess/chess_board.py:276-294 | the legality filter keeps at most the candidates it was given |
| MoveGen.LegalFromMembers | backend/chess/chess_board.py:276-294 | a move survives the filter exactly when it was a candidate and passes the castling and king-safety tests |
| MoveGen.PseudoGenerated | backend/chess/chess_board.py:267-274 | every pseudo-legal move is generated and applicable |
| MoveGen.LegalMoves | backend/chess/chess_board.py:276-294 | every legal move is generated and applicable |
| MoveGen.LegalMovesExactly | backend/chess/chess_board.py:278-293 | a move is legal exactly when it is pseudo-legal and passes the tests; a legal move never leaves its own king in check |
| MoveGen.NoCastlingOutOfCheck | backend/chess/chess_board.py:280-282 | no castling move is legal while the side is in check |
| MoveGen.CastlingPathSafe | backend/chess/chess_board.py:283-286 | a legal castling move crosses only unattacked squares (f and g files kingside, d and c queenside) |
| MoveGenFacts.PromotionPushComplete | backend/chess/chess_board.py:170-174 | a free push onto the last row gives exactly the four promotion moves |
| MoveGenFacts.PromotionCaptureComplete | backend/chess/chess_board.py:188-193 | a capture onto the last row gives exactly the four promotion captures |
| MoveGenFacts.PromotionExactlyOnLastRow | backend/chess/chess_board.py:168-195 | a pawn move that is not en passant promotes exactly when it reaches the last row, and only to Q, R, B or N |
| MoveGenFacts.DoublePushRule | backend/chess/chess_board.py:178-182 | a two-square push starts on the pawn's start rank over two empty squares, and is offered whenever that holds |
| MoveGenFacts.CastleOffered | backend/chess/chess_board.py:245-259 | a castling move is offered only for a king on its home square with the right held and the squares between empty |
| MoveGenFacts.CastleKingsideAvailable | backend/chess/chess_board.py:246-256 | with the king home, the right held and f and g empty, kingside castling is generated |
| MoveGenFacts.CastleQueensideAvailable | backend/chess/chess_board.py:250-259 | with the king home, the right held and b, c and d empty, queenside castling is generated |
| MoveGenFacts.PseudoFromMember | backend/chess/chess_board.py:267-274 | every scanned move is one of the moves of the piece on its source square |
| MoveGenFacts.RightsOnlyShrink | backend/chess/chess_board.py:400-427 | castling rights never grow; a king move drops both of its side's rights; a rook leaving or captured on a corner drops that corner's right; other moves keep them |
| MoveGenFacts.HalfmoveClockRule | backend/chess/chess_board.py:352-356 | the halfmove clock resets on a pawn move, a capture or en passant, and otherwise grows by one |
| MoveGenFacts.EnPassantTargetOnePly | backend/chess/chess_board.py:358-398 | an en-passant target exists after a move exactly when it was a double push, on the file of arrival halfway between the rows |
| MoveGenFacts.EnPassantTargetOfDoublePush | backend/chess/chess_board.py:395-398 | a generated double push sets the target to the square it crossed, which is empty afterwards |
| MoveGenFacts.DoublePushTarget | backend/chess/chess_board.py:395-398 | a generated two-row pawn move starts on the start rank and targets the crossed square |
| MoveGenFacts.EnPassantRemovesPawnBehind | backend/chess/chess_board.py:364-368 | en passant empties the square behind the destination, lands the pawn and resets the clock |
| MoveGenFacts.CastlingPlacesRook | backend/chess/chess_board.py:370-386 | castling moves the king and puts the rook on the square it crossed, emptying the corner |
| MoveGenFacts.PlainMoveSquares | backend/chess/chess_board.py:361-393 | a plain or promoting move empties its source and puts on its destination the mover, or, for a promoting pawn, a piece of the promoted kind and the mover's colour |
| MoveGenFacts.ApplyFrame | backend/chess/chess_board.py:345-398 | a move changes no square outside those it touches |
| MoveGenFacts.PawnCapturesAreAttacks | backend/chess/chess_board.py:184-195 | every square a pawn can capture on counts as attacked by that pawn's side |
| Keys.Digit | backend/chess/chess_board.py:450 | a count of empty squares is written as its decimal digit |
| Keys.RightsLetters | backend/chess/chess_board.py:457 | the rights are written with letters from K, Q, k, q |
| Keys.RightsLettersEmpty | backend/chess/chess_board.py:457 | the rights string is empty exactly when no right is held |
| Keys.EncodeFromDecodes | backend/chess/chess_board.py:441-455 | the run-length encoding of the rest of a row decodes to the pending empties followed by that rest |
| Keys.RankKeyRoundTrip | backend/chess/chess_board.py:441-455 | the rank string decodes back to the row, so different rows give different keys |
| Keys.KeyIgnoresClocks | backend/chess/chess_board.py:438-459 | the position key does not depend on the clocks or the counts |
| Keys.DashFields | backend/chess/chess_board.py:457-458 | the rights field is "-" exactly when no right is held, the en-passant field exactly when there is no target |
| Game.Counted | backend/chess/chess_board.py:461-463 | counting adds one sighting of the current key, leaves every other key's count and the rest of the position alone |
| Game.StartPosition | backend/chess/chess_board.py:71-87 | the starting position is the standard setup, White to move, all rights, no target, clocks 0 and 1, and its own key counted once |
| Game.Play | backend/chess/chess_board.py:333-342 | a ply applies the move, passes the turn, advances the move number after Black's move and counts the new position |
| Game.SameIdSamePlay | backend/chess/chess_board.py:325-335 | two moves with the same identity have the same effect, so the move applied may be the caller's rather than the generator's |
| Game.GameOverExactly | backend/chess/chess_board.py:479-483 | checkmate or stalemate holds exactly when no move is legal, and never both |
| Game.PlayCounts | backend/chess/chess_board.py:461-463 | a ply adds one sighting of the reached position's key and no other |
| Game.TwoPliesOneMove | backend/chess/chess_board.py:338-340 | a white ply followed by a black ply advances the move number by exactly one and gives the move back to White |
| Game.StartNotDrawn | backend/chess/chess_board.py:485-490 | the starting position is neither a repetition draw nor a fifty-move draw |
| ChessBoard.StartingPlacement | backend/chess/chess_board.py:72-79 | the setup loops produce the starting grid |
| ChessBoard.MovedPlacement | backend/chess/chess_board.py:361-393 | the in-place square writes produce the moved grid |
| ChessBoard.ApplyParts | backend/chess/chess_board.py:345-427 | applying a move is the moved grid, the rights minus those lost, the double-push target and the clock rule, field by field |
| ChessBoard.DoublePushTarget | backend/chess/chess_board.py:395-398 | the target is the midpoint of a pawn's two-row move and nothing otherwise |
| ChessBoard.RightsAfter | backend/chess/chess_board.py:400-427 | the discards remove exactly the rights lost by the king, rook or captured rook |
| ChessBoard.EncodeRank | backend/chess/chess_board.py:441-455 | the row loop writes the row's run-length string |
| ChessBoard.PlacementKey | backend/chess/chess_board.py:440-456 | the rank loop writes the eight rank strings joined by "/" |
| ChessBoard.FindCastle | backend/chess/chess_board.py:498-501 | the scan returns the first castling move of the requested side |
| ChessBoard.FindMatch | backend/chess/chess_board.py:520-523 | the scan returns the first move with the given squares and promotion |
| ChessBoard.Board.constructor | backend/chess/chess_board.py:58-67 | a new board holds the starting position with an empty history |
| ChessBoard.Board.SetupStartingPosition | backend/chess/chess_board.py:71-87 | the board is reset to the starting position, history cleared, its key counted once |
| ChessBoard.Board.ResetToInitial | backend/chess/chess_board.py:72-86 | the setup before counting: standard grid, White, all rights, no history, no counts |
| ChessBoard.Board.KingPosition | backend/chess/chess_board.py:92-98 | the scan finds the first king of the colour, or nothing where the source raises |
| ChessBoard.Board.KingSquareIsFirst | backend/chess/chess_board.py:92-98 | a king with no king of its colour before it in row-major order is the one found |
| ChessBoard.Board.IsSquareAttackedBy | backend/chess/chess_board.py:102-152 | the scan reports exactly whether a pawn, knight, slider or king of the colour attacks the square (pawn direction corrected, see Findings) |
| ChessBoard.Board.PawnAttackScan | backend/chess/chess_board.py:105-112 | the pawn part of the scan looks on the row the attacking pawns stand on |
| ChessBoard.Board.KnightAttackScan | backend/chess/chess_board.py:114-123 | the knight part reports a knight of the colour a knight's jump away |
| ChessBoard.Board.SlideAttackScan | backend/chess/chess_board.py:125-140 | the slider part reports a rook or queen on a file or rank, or a bishop or queen on a diagonal, with nothing in between |
| ChessBoard.Board.KingAttackScan | backend/chess/chess_board.py:142-151 | the king part reports an adjacent king of the colour |
| ChessBoard.Board.RayScan | backend/chess/chess_board.py:132-140 | one ray reports whether its first occupied square holds a matching slider of the colour |
| ChessBoard.Board.IsInCheck | backend/chess/chess_board.py:154-155 | the side is in check exactly when its king is attacked by the other side |
| ChessBoard.Board.Arrivals | backend/chess/chess_board.py:172-176 | the arrival branch yields the promotions or the plain move |
| ChessBoard.Board.PawnPushesAt | backend/chess/chess_board.py:169-182 | the push branch yields the single and double pushes |
| ChessBoard.Board.PawnCaptureAt | backend/chess/chess_board.py:185-195 | the capture branch for one side yields its captures |
| ChessBoard.Board.PawnMovesAt | backend/chess/chess_board.py:168-201 | the pawn branch yields pushes, captures and en passant in that order |
| ChessBoard.Board.EnPassantAt | backend/chess/chess_board.py:197-201 | the en-passant branch yields the capture onto the target when it is diagonally forward |
| ChessBoard.Board.StepMovesAt | backend/chess/chess_board.py:203-212 | the offset loop yields the steps onto empty or enemy squares |
| ChessBoard.Board.RayMovesAt | backend/chess/chess_board.py:221-232 | the ray loop yields the empty squares and the first enemy piece |
| ChessBoard.Board.SlideMovesAt | backend/chess/chess_board.py:214-232 | the direction loop yields every ray in order |
| ChessBoard.Board.CastleMovesAt | backend/chess/chess_board.py:245-259 | the castling branch yields the castles whose right is held and path empty |
| ChessBoard.Board.GeneratePseudoMovesForPiece | backend/chess/chess_board.py:159-265 | the moves of the piece on a square, mover recorded |
| ChessBoard.Board.GeneratePseudoLegalMoves | backend/chess/chess_board.py:267-274 | the moves of every piece of the colour in row-major order |
| ChessBoard.Board.Snapshot | backend/chess/chess_board.py:298-307 | the snapshot is the position the fields hold |
| ChessBoard.Board.Restore | backend/chess/chess_board.py:309-318 | the fields take the snapshot's values and the history is untouched |
| ChessBoard.Board.ApplyMove | backend/chess/chess_board.py:345-427 | the board afterwards holds the applied position |
| ChessBoard.Board.IncrementPositionCount | backend/chess/chess_board.py:461-463 | the board afterwards holds the counted position |
| ChessBoard.Board.PositionKeyOf | backend/chess/chess_board.py:438-459 | the key is placement, side, rights and target, separated by spaces |
| ChessBoard.Board.CastleChecks | backend/chess/chess_board.py:280-286 | a castling move passes exactly when the side is not in check and the crossed squares are unattacked |
| ChessBoard.Board.KingSafeAfter | backend/chess/chess_board.py:288-292 | trying a move reports whether the own king is safe afterwards and leaves the board as it was |
| ChessBoard.Board.GenerateLegalMoves | backend/chess/chess_board.py:276-294 | the legal moves of a colour, the board unchanged |
| ChessBoard.Board.FilterLegal | backend/chess/chess_board.py:277-294 | the filter loop keeps the passing candidates in order, the board unchanged |
| ChessBoard.Board.PassesLegality | backend/chess/chess_board.py:279-293 | one candidate passes exactly when its castling tests and king safety hold |
| ChessBoard.Board.AllLegalMoves | backend/chess/chess_board.py:476-477 | the legal moves of the side to move |
| ChessBoard.Board.PlayPly | backend/chess/chess_board.py:335-342 | the board afterwards holds the played ply; the history is untouched |
| ChessBoard.Board.MakeMove | backend/chess/chess_board.py:322-343 | the move is accepted exactly when a legal move has its identity; then the ply is played and the old position pushed on the history, otherwise nothing changes |
| ChessBoard.Board.Commit | backend/chess/chess_board.py:333-342 | the old position is pushed on the history and the ply is played |
| ChessBoard.Board.Undo | backend/chess/chess_board.py:429-434 | undo succeeds exactly when there is history; it restores the last snapshot and pops it, otherwise nothing changes |
| ChessBoard.Board.UndoInvertsMakeMove | backend/chess/chess_board.py:322-343 | making a move and undoing it leaves position and history exactly as they were; the move is made exactly when a legal move has its identity |
| ChessBoard.Board.IsCheckmate | backend/chess/chess_board.py:479-480 | in check with no legal move |
| ChessBoard.Board.IsStalemate | backend/chess/chess_board.py:482-483 | not in check with no legal move |
| ChessBoard.Board.IsDrawBy50 | backend/chess/chess_board.py:485-486 | the halfmove clock has reached 100 |
| ChessBoard.Board.IsDrawByThreefold | backend/chess/chess_board.py:488-490 | the current key has been counted at least three times |
| ChessBoard.Board.ParseMoveStr | backend/chess/chess_board.py:494-523 | the parsed move is the text's meaning among the legal moves, the board unchanged |
| ChessBoard.Board.CastleAmongLegal | backend/chess/chess_board.py:497-508 | the first legal castling move of the requested side |
| ChessBoard.Board.MatchAmongLegal | backend/chess/chess_board.py:519-523 | the first legal move with the given squares and promotion |
| MoveText.FirstCastle | backend/chess/chess_board.py:498-501 | a castling move of the requested side from the list, and none exactly when the list has none |
| MoveText.FirstMatch | backend/chess/chess_board.py:520-523 | the earliest matching move of the list, and none exactly when nothing matches |
| MoveText.ParseMove | backend/chess/chess_board.py:494-523 | a parsed move is always one of the legal moves |
| MoveText.CastlingTokens | backend/chess/chess_board.py:496-508 | a castling token gives a castling move of that side exactly when one is legal |
| MoveText.CoordinatesShadowedByCastling | backend/chess/chess_board.py:497-508 | "e1g1" and "e8c8" mean castling whoever is to move, never the coordinate move |
| MoveText.WrongLengthRefused | backend/chess/chess_board.py:510-511 | text that is no castling token and not four or five characters long is refused |
| MoveText.CoordinateParse | backend/chess/chess_board.py:513-523 | if either half names no square nothing is found; otherwise a move is found exactly when some legal move has that source, that destination and the requested promotion (none for four characters, the kind named by the fifth), and it is the earliest such legal move |
| MoveText.MoveString | backend/chess/chess_board.py:494-523 | a move written out has four characters, five with a promotion |
| MoveText.NormalPlain | backend/chess/chess_board.py:495 | text without spaces or capitals is unchanged by normalisation |
| MoveText.MoveStringShape | backend/chess/chess_board.py:494-523 | the written move is the source square, the destination and the lower-case promotion letter |
| MoveText.MoveStringRoundTrip | backend/chess/chess_board.py:494-523 | writing a legal move and parsing the text finds a legal move with the same squares and promotion |
| SearchSpec.PieceValue | backend/chess/chess_engine.py:9 | values lie in 0..900 and only the king is worth nothing |
| SearchSpec.SquareValue | backend/chess/chess_engine.py:16-19 | an empty square adds nothing, a white piece its value, a black piece minus its value |
| SearchSpec.RowMaterial | backend/chess/chess_engine.py:14-19 | a row's material is bounded by 900 per square |
| SearchSpec.Material | backend/chess/chess_engine.py:13-19 | the grid's material is bounded by 7200 per row |
| SearchSpec.Eval | backend/chess/chess_engine.py:11-30 | every evaluation lies strictly inside the search sentinels ±10^9 |
| SearchSpec.Tacticals | backend/chess/chess_engine.py:42-45 | exactly the captures and promotions of the list |
| SearchSpec.Quiets | backend/chess/chess_engine.py:42-45 | exactly the moves of the list that neither capture nor promote |
| SearchSpec.PartitionCount | backend/chess/chess_engine.py:45 | the two groups together hold every move as often as the list does |
| SearchSpec.OrderMovesSpec | backend/chess/chess_engine.py:41-45 | ordering permutes the moves, puts every capture or promotion before every other move, and keeps each group in generation order |
| SearchSpec.GroupsKeepOrder | backend/chess/chess_engine.py:41-45 | the tactical moves, and the quiet moves, are each a subsequence of the generated list: the sort is stable |
| SearchSpec.OrderMovesPermutes | backend/chess/chess_engine.py:45 | ordering is a permutation |
| SearchSpec.TacticalsFirst | backend/chess/chess_engine.py:41-45 | no quiet move precedes a capture or promotion |
| SearchSpec.ChildIsSearch | backend/chess/chess_engine.py:48-55 | a child searched in the tree is the search of the position the ply reaches |
| SearchSpec.OrderedMovesApplicable | backend/chess/chess_engine.py:37-45 | every move the engine orders can be applied |
| SearchSpec.EngineMovesAreLegal | backend/chess/chess_engine.py:37-45 | the engine searches exactly the legal moves, each as often, each applicable |
| SearchSpec.LeafIsGameOver | backend/chess/chess_engine.py:33-39 | a position has no moves to search exactly when it is checkmate or stalemate |
| SearchSpec.EngineBounded | backend/chess/chess_engine.py:11-30 | in both trees every evaluation lies strictly inside the sentinels |
| SearchSpec.SameMoves | backend/chess/chess_engine.py:41-45 | the ordered and unordered trees offer the same moves |
| SearchSpec.SearchIsMinimax | backend/chess/chess_engine.py:32-73 | the pruned, reordered search with the full window equals plain minimax over the legal moves in generation order |
| SearchSpec.ChosenMoveIsBest | backend/chess/chess_engine.py:75-106 | a move is chosen exactly when one is legal; it is legal, its minimax value is the position's, and no legal move is better for the side to move |
| SearchSpec.ChosenMoveIsFirstBest | backend/chess/chess_engine.py:85-104 | the chosen move is the first move in the engine's order whose value is the position's minimax value; no earlier move reaches it |
| AlphaBeta.BestShift | backend/chess/chess_engine.py:58-71 | the best-so-far start can be pulled out of the minimax fold |
| AlphaBeta.BestIsBest | backend/chess/chess_engine.py:58-71 | the fold dominates its start and every child, and equals the start or some child |
| AlphaBeta.BestSameMoves | backend/chess/chess_engine.py:41-45 | the fold depends only on the set of moves, not their order |
| AlphaBeta.MinimaxInRange | backend/chess/chess_engine.py:36 | with bounded evaluations, minimax stays strictly inside the sentinels |
| AlphaBeta.MinimaxIgnoresOrder | backend/chess/chess_engine.py:41-45 | trees with the same moves in any order have the same minimax values |
| AlphaBeta.SameEmptiness | backend/chess/chess_engine.py:37-39 | trees with the same moves have moves at the same nodes |
| AlphaBeta.BestAcross | backend/chess/chess_engine.py:58-71 | folding children with equal values in two trees gives the same result |
| AlphaBeta.AlphaBetaBrackets | backend/chess/chess_engine.py:32-73 | the fail-soft search returns minimax inside the window, a lower bound at or above beta and an upper bound at or below alpha |
| AlphaBeta.MaxStep | backend/chess/chess_engine.py:58-64 | one White update with its cutoff keeps the bracketing of the fold |
| AlphaBeta.MinStep | backend/chess/chess_engine.py:65-71 | one Black update with its cutoff keeps the bracketing of the fold |
| AlphaBeta.MaxLoopBrackets | backend/chess/chess_engine.py:47-64 | the White move loop never drops below its start and brackets the minimax fold |
| AlphaBeta.MinLoopBrackets | backend/chess/chess_engine.py:47-71 | the Black move loop never rises above its start and brackets the minimax fold |
| AlphaBeta.AlphaBetaIsMinimax | backend/chess/chess_engine.py:32-73 | with the full window the search equals minimax |
| AlphaBeta.ChooseLoopBest | backend/chess/chess_engine.py:88-104 | the root loop keeps a move whose value is the fold's best, and has a move exactly when one was seen |
| AlphaBeta.ChooseIsOptimal | backend/chess/chess_engine.py:75-106 | the chosen move exists exactly when a move does, reaches the root's minimax value and is no worse than any other move |
| AlphaBeta.ChooseAcross | backend/chess/chess_engine.py:75-106 | the choice made in the ordered tree is optimal in the unordered one |
| AlphaBeta.ChooseLoopKeeps | backend/chess/chess_engine.py:98-104 | when no move strictly improves on the value so far, the root loop keeps the move it had |
| AlphaBeta.ChooseLoopFirst | backend/chess/chess_engine.py:88-104 | when some move strictly improves on the value so far, the root loop returns the earliest move whose value is the loop's final value; a later equal move never displaces it |
| AlphaBeta.FirstWhenHeadImproves | backend/chess/chess_engine.py:98-104 | if the first move strictly improves on the value so far, the loop returns the earliest move whose value is the loop's final value |
| AlphaBeta.FirstWhenHeadKept | backend/chess/chess_engine.py:98-104 | if the first move does not improve but a later one does, the answer is the earliest later move with the final value |
| AlphaBeta.ChooseFirstBest | backend/chess/chess_engine.py:75-106 | with moves present, the root returns the earliest move whose value is the root's minimax value |
| AlphaBeta.ChooseFirstAcross | backend/chess/chess_engine.py:75-106 | the earliest-best choice in one ordering reaches the minimax value of any ordering of the same moves, and no earlier move in its order does |
| ChessEngine.MaterialBalance | backend/chess/chess_engine.py:13-19 | the nested loop sums the material of the grid |
| ChessEngine.Evaluate | backend/chess/chess_engine.py:11-30 | the evaluation of the board's position, the board unchanged |
| ChessEngine.Search | backend/chess/chess_engine.py:32-73 | the search on the live board returns the alpha-beta value of its position and restores it |
| ChessEngine.IsLeaf | backend/chess/chess_engine.py:33 | the search stops exactly at depth zero, checkmate or stalemate |
| ChessEngine.SearchChildren | backend/chess/chess_engine.py:47-73 | the move loop with its cutoffs returns the tree's loop value, the board restored |
| ChessEngine.SearchChild | backend/chess/chess_engine.py:48-56 | one child: the search of the reached position, the board restored from the snapshot |
| ChessEngine.PlayAndSearch | backend/chess/chess_engine.py:48-55 | the ply played on the board, then the search one ply less deep |
| ChessEngine.ChooseMove | backend/chess/chess_engine.py:75-86 | the engine's move is the tree's choice for the board's position, the board unchanged |
| ChessEngine.ChooseAmong | backend/chess/chess_engine.py:88-106 | the root loop with strict improvement returns the tree's root choice |

## Left out

- `print_board` and `piece_at` are not modelled. The first only renders text; the second only
  reads one square, which the model does directly.
- All I/O and the rest of the backend (web layer, game sessions) are not part of this model.
- ChessBoard.Board.KingPosition: where the source raises `RuntimeError` on a missing king, the
  model returns None. `Positions.InCheck` treats a side without a king as not in check.
- ChessBoard.Board.ApplyMove: the source's `assert piece is not None` becomes the precondition
  `Applicable`. Every generated move meets it (`MoveGen.GeneratedApplicable`). `MakeMove` only
  applies moves whose identity is legal.
- ChessEngine.ChooseMove: requires depth at least 1. With depth 0 the source calls `_search`
  with depth -1, which never meets its `depth == 0` test and recurses until the game ends or
  the interpreter's recursion limit. The search works on natural depths.
- The source's second emptiness test in `_search` (chess_engine.py:38-39) cannot fire once
  checkmate and stalemate are excluded. The model asserts this and has no branch for it.
- The engine's sort is modelled as `SearchSpec.OrderMoves`: a stable partition with captures
  and promotions first. That is what a stable sort on a 0/1 key with `reverse=True` does. An
  en-passant capture carries no `captured` piece in the source, so it is ordered as a quiet
  move, and the model keeps that.
- The search's play-a-ply steps (chess_engine.py:48-53) are factored into
  `ChessBoard.Board.PlayPly`, which does the same as `make_move` without the legality check
  and the history push.
- `SearchSpec.Next` maps a move that cannot be applied to the same position. The search only
  ever plays legal moves, so this case is never reached.
- ChessTypes.LowerString: lower-casing is modelled for ASCII letters only. Python's
  `str.lower` also maps other Unicode letters. Whitespace stripping (`ChessTypes.IsSpace`)
  covers every character `str.strip()` removes.
- The corrected pawn-attack scan (see "## Findings") is used by every member built on
  `Positions.AttackedBy`: `Positions.InCheck`, `MoveGen.LegalMoves`, the castling-path test,
  `ChessBoard.Board.IsSquareAttackedBy`, `ChessBoard.Board.IsInCheck`,
  `ChessBoard.Board.GenerateLegalMoves`, `ChessBoard.Board.IsCheckmate`,
  `ChessBoard.Board.IsStalemate`, `ChessBoard.Board.MakeMove`, `Game.IsCheckmate`,
  `Game.IsStalemate`, `SearchSpec.Eval`, `ChessEngine.Evaluate`, `ChessEngine.Search` and
  `ChessEngine.ChooseMove`. On positions where a pawn gives
  check these follow the intended rule, not the source as written.
- ChessTypes.AlgebraicToCoords: only ASCII digits are accepted as the rank. Python's `int`
  also accepts other Unicode decimal digits.
- Integers are unbounded, as they are in Python. Nothing in the core wraps around.
- Performance behaviour (the quadratic legality filter, the repeated move generation) is not
  modelled.

## Findings

| source | as written | input that shows it | evidently intended | confidence | as-written member | corrected member |
|---|---|---|---|---|---|---|
| backend/chess/chess_board.py:105-112 | the pawn-attack scan looks for attacking pawns one row towards the attacker's own promotion side (row r-1 for White, r+1 for Black), i.e. where such pawns would stand to be attacked by the target, not to attack it | black king a8, black pawn d2, white king e1: the black pawn attacks e1, but `is_square_attacked_by((7, 4), "b")` looks at row 8 (off the board) and reports no attack, so White is not "in check" and may ignore it | a pawn of colour C attacks the square one row forward of it, so the scan should look at row r+1 for White attackers and r-1 for Black ones | not executed | PawnAttackFinding.AttackMissedAsWritten | MoveGenFacts.PawnCapturesAreAttacks |

The as-written scan is `Positions.AttackedByAsWritten`. The corrected predicate
`Positions.AttackedBy` is the one the rest of the model uses: for check, legality, the
castling-path test and the evaluation.
