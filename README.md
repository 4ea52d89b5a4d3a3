# A verified model of a browser chess engine

This project models the core of a small JavaScript chess game in Dafny:

- the rules engine `gameLogic.js`;
- the computer opponent `aiPlayer.js`;
- the functions of `ui.js` that change the game state: making a move, committing its side effects, the computer's promotion, and moving through the game history.

The JavaScript keeps the game in module globals: the 8×8 board, the side to move, the castling rights, the en passant square, the two clocks, the history list and its cursor, and the game-over flag. The model keeps them in a class, `Game.GameState`:

- The board is an `array2<Cell>`.
- The other globals are fields.
- A ghost copy of the board, `cells`, is a row-major sequence of 64 cells that `Valid()` ties to the array.

Every function that works by changing those globals is a method of the class or takes the game object as a parameter. Each method is proved equal to a pure function over position values. The properties the program promises are proved about those functions.

The modules follow the program's structure:

- **Pieces:** colours, pieces and their FEN letters.
- **Boards:** `Board`, `Position`, `Rights` and board access.
- **Fen:** `parseFen` as a function from text to `Option<Position>`. This includes JavaScript's `split`, and `parseInt` read as an exact integer.
- **Geometry:** pseudo-legal move generation (`addMoveIfValid`, `getPawnMoves` … `getKingMoves`).
- **Attacks:** `isSquareAttacked`, `findKing` and `isKingInCheck`.
- **Legality:** the simulate/test/undo filter of `generateLegalMoves`, plus `hasLegalMoves` and `getAllLegalMoves`.
- **Material:** `hasInsufficientMaterial`.
- **Keys:** the repetition key, `getBoardPositionString`.
- **History:** `pushHistoryState`, `checkThreefoldRepetition`, and the undo and redo targets.
- **Notation:** `getAlgebraicNotation` and `checkAmbiguity`.
- **Evaluation:** `evaluateBoard`.
- **Search:** `minimax` with alpha-beta pruning, plus `updateCastlingRightsSim`.
- **Strategy:** the difficulty levels of `calculateBestMove`.
- **Commit:** the board, rights, clock and end-test effects of `makeMove` and `finishMoveProcessing`.
- **Game:** the class and its methods.
- **Ai:** the search and level methods.
- **Ui:** the user-interface state changes.

The FEN format is the one of section 16.1 of the PGN standard. The two draw rules the program tests loosely follow FIDE Laws of Chess, articles 5.2.2 (dead position) and 9.2 (repetition); the list below names where they differ.

Where the program deviates from the chess rules, the model does what the code does:

- A black rook leaving its corner keeps Black's castling right, because the rook clause of `finishMoveProcessing` tests only the white rook's letter (see Findings).
- The fifty-move test triggers at a halfmove clock of 100.
- Threefold repetition is never reported before history index 8.
- A repetition is reported only when three earlier history entries match the new position, that is on its fourth occurrence: `finishMoveProcessing` tests for it before it pushes the new entry.
- Insufficient material is reported when each side has only its king, plus one knight or bishops all on squares of one colour. So K+N against K+N, K+N against K+B, and K+B against K+B with bishops on opposite colours all count as drawn, although none of them is a dead position.
- A missing king is never in check.
- Characters after a complete FEN rank are ignored.
- White-space characters inside a FEN rank are skipped.
- In the search, an en passant capture removes the pawn beside the moving pawn's *origin* row, as `minimax` does. Level 2 removes it beside the destination row.
- Castling and promotion are not carried out inside the search, as in the source.

Randomness is modelled as an oracle. Both the `Math.random` shuffle in `calculateBestMove` and the shuffle at each search node become a function parameter `order`. Its only assumed property is that it permutes the list (`IsShuffle`). The search node passes its path of moves from the root to `order`, so each node may get its own arbitrary order.

A score is a `real` or ±∞. `Infinity` and `-Infinity` are the only non-finite values the program produces.

## Model

| member | source | states |
|---|---|---|
| Pieces.Opponent | gameLogic.js:187-189 | the opponent is the other colour |
| Pieces.PlayerForPiece | gameLogic.js:177-185 | a square has an owner exactly when it holds a piece, and `isPlayerPiece(p, c)` holds exactly when that owner is `c` |
| Pieces.LetterRoundTrip | gameLogic.js:5-10 | reading a piece's FEN letter gives the piece back, and a letter that reads as a piece is that piece's letter |
| Boards.At | gameLogic.js:159-163 | off-board coordinates read as an empty square |
| Boards.SetAt | gameLogic.js:165-175 | writing a square changes exactly that square when it is on the board, and nothing otherwise |
| Game.GameState.constructor | gameLogic.js:14-22 | the initial globals: empty board, White to move, all four rights, no en passant square, clocks 0 and 1, empty history at index -1, game not over |
| Game.GameState.GetPieceAt | gameLogic.js:159-163 | returns the cell at (r, c), or empty when off the board |
| Game.GameState.SetPieceAt | gameLogic.js:165-175 | the board afterwards is the old board with that one square replaced; an off-board write changes nothing |
| Fen.SplitJoin | gameLogic.js:34 | splitting the join of fields that do not contain the separator gives back those fields |
| Fen.JoinSplit | gameLogic.js:34 | joining the pieces of a split gives back the text |
| Fen.ParseNatString | gameLogic.js:145-152 | `parseInt` reads the decimal numeral of `n` as `n` |
| Fen.ParseRanksIff | gameLogic.js:54-92 | the placement is read exactly when every one of its ranks is accepted |
| Fen.FenEp | gameLogic.js:111-137 | an en passant square that is read lies on the board, on row 2 when White is to move and row 5 when Black is |
| Fen.FenHalfmove | gameLogic.js:145-148 | the halfmove clock read is never negative (NaN and negative values read as 0) |
| Fen.FenFullmove | gameLogic.js:149-152 | the fullmove number read is at least 1 |
| Fen.FenAccepted | gameLogic.js:32-156 | parseFen succeeds iff there are six space-separated fields, eight ranks that are each accepted, and a side to move of `w` or `b`; the castling, en passant and clock fields never make it fail |
| Fen.ParseRanksAt | gameLogic.js:59-89 | square (i, j) of the read placement is column j of the i-th rank |
| Fen.FenBoardRead | gameLogic.js:54-89 | the board of an accepted text holds, on row r and column c, the cell in column c of the r-th rank: ranks top first, each left to right |
| Game.GameState.ParseFen | gameLogic.js:32-156 | the result is true exactly when the text is accepted; on success the state is the position the text spells and the game is not over |
| Game.GameState.ParseFields | gameLogic.js:40-156 | same as ParseFen, once the fields have been split |
| Game.GameState.ParseBoard | gameLogic.js:54-92 | returns true iff every rank is accepted, and the board is then the placement read |
| Game.GameState.ParseRankInto | gameLogic.js:57-91 | scans one rank into its row: success iff the rank is accepted, only that row is written, and the row then holds the rank's cells |
| Game.GameState.FillEmpty | gameLogic.js:66-78 | a digit's run of empty squares is written only when it fits in the row; nothing else in the row or on the board changes |
| Game.GameState.ParseCastling | gameLogic.js:99-108 | each of K, Q, k, q grants its right and nothing else grants one |
| Game.GameState.ParseEnPassant | gameLogic.js:111-137 | `-` leaves the en passant global unchanged; otherwise the global becomes the square read for the side to move |
| Game.GameState.ParseAfterBoard | gameLogic.js:140-155 | leaves the board alone; succeeds iff the side is `w` or `b`, and then sets the remaining fields from the text |
| Geometry.AddMoveIfValid | gameLogic.js:292-308 | either nothing is added, or the destination is added, lies on the board and does not hold an own piece |
| Game.GameState.AddMoveIfValid | gameLogic.js:292-308 | appends to the move list exactly as the function does |
| Geometry.PawnPushesIff | gameLogic.js:317-331 | a pawn's forward moves are one step onto an empty square, flagged as a promotion on the last rank, plus a second step from the start row when both squares are empty |
| Game.GameState.GetPawnPushes | gameLogic.js:317-331 | computes exactly the forward moves |
| Geometry.PawnCaptureAtIff | gameLogic.js:336-348 | one pass of the capture loop adds exactly an enemy piece's square on the forward diagonal (promotion-flagged on the last row) and the en passant target there when it holds no own piece |
| Geometry.PawnMovesIff | gameLogic.js:310-351 | a pawn's moves are exactly its forward moves and the capture destinations in the two neighbouring columns |
| Game.GameState.GetPawnCapture | gameLogic.js:336-348 | adds the regular capture and the en passant capture for one column |
| Game.GameState.GetPawnMoves | gameLogic.js:310-351 | the pawn's moves, forward moves first, then the captures on the left and the right |
| Geometry.OffsetMovesIff | gameLogic.js:353-363 | a knight or king step is generated iff it is one of the offsets, lands on the board, and does not land on an own piece |
| Game.GameState.GetOffsetMoves | gameLogic.js:353-363 | the moves of the offset loop, in offset order |
| Game.GameState.GetKnightMoves | gameLogic.js:353-363 | the knight's moves |
| Geometry.RayMovesIff | gameLogic.js:365-385 | a slider reaches a square along a direction iff every square before it on that ray is empty and the square is empty or holds an enemy |
| Game.GameState.CollectRay | gameLogic.js:368-383 | the ray loop appends exactly the ray's moves |
| Game.GameState.RaySquare | gameLogic.js:372-381 | the step for one square reports if the square is blocked, adding an empty square, or a blocking enemy, but never an own piece |
| Game.GameState.GetSlidingMoves | gameLogic.js:365-385 | the moves of all directions, in order |
| Game.GameState.GetBishopMoves | gameLogic.js:387-390 | the four diagonal rays |
| Game.GameState.GetRookMoves | gameLogic.js:392-395 | the four orthogonal rays |
| Game.GameState.GetQueenMoves | gameLogic.js:397-402 | the diagonal rays followed by the orthogonal ones |
| Geometry.KingsideCastleIff | gameLogic.js:414-435 | kingside castling is offered iff the right is held, the king is not attacked, the two squares beside it are empty and not attacked, and the own rook stands three files away |
| Geometry.QueensideCastleIff | gameLogic.js:414-450 | queenside castling is offered iff the right is held, the king is not attacked, three squares are empty, the two the king crosses are not attacked, and the rook stands four files away |
| Game.GameState.TryKingside | gameLogic.js:423-435 | computes the kingside test |
| Game.GameState.TryQueenside | gameLogic.js:437-450 | computes the queenside test |
| Game.GameState.GetKingMoves | gameLogic.js:404-454 | the eight steps followed by the castling moves |
| Geometry.PseudoMovesShaped | gameLogic.js:292-454 | every generated move lands on the board, off its origin and not on an own piece; en passant moves are a pawn's diagonal forward step; castling moves are the king moving two files along its row past an empty square |
| Game.GameState.GetPseudoMoves | gameLogic.js:203-210 | selects the generator by piece kind |
| Attacks.AttackedIff | gameLogic.js:457-510 | a square is attacked iff one of these holds: an enemy pawn attacks diagonally; an enemy knight attacks; an enemy rook or queen sees it along a clear rank or file; an enemy bishop or queen sees it along a clear diagonal; the enemy king is adjacent |
| Attacks.FirstFromSight | gameLogic.js:481-507 | the first piece on a ray is at distance n iff it stands there and all closer squares are empty |
| Game.GameState.IsSquareAttacked | gameLogic.js:457-510 | returns exactly whether the square is attacked |
| Game.GameState.PawnAttackScan | gameLogic.js:458-467 | the pawn loop finds an attacking pawn iff there is one |
| Game.GameState.KnightAttackScan | gameLogic.js:469-477 | the knight loop finds an attacking knight iff there is one |
| Game.GameState.SliderAttackScan | gameLogic.js:479-508 | the ray loop finds an attacking slider or adjacent king iff there is one |
| Game.GameState.FirstOnRay | gameLogic.js:482-507 | the inner loop stops at the first piece on the ray, or at the edge |
| Attacks.FindKingFrom | gameLogic.js:512-523 | a square that is found holds the player's king |
| Attacks.FindKingFromSpec | gameLogic.js:512-523 | no king is found iff the board has none; a king that is found is the first one in row-major order |
| Game.GameState.FindKing | gameLogic.js:512-523 | returns the first square holding the player's king, or nothing |
| Attacks.MissingKingNotInCheck | gameLogic.js:525-529 | a side without a king is never in check |
| Game.GameState.IsKingInCheck | gameLogic.js:525-529 | true iff the king exists and its square is attacked by the opponent |
| Legality.UndoRestores | gameLogic.js:225-282 | undoing a simulated move, castling and en passant included, restores the board exactly |
| Game.GameState.SimulateMove | gameLogic.js:225-257 | the board after the trial move, the en passant victim and the rook that was moved, as the simulation computes them |
| Game.GameState.UndoMove | gameLogic.js:264-282 | the board after the undo code runs |
| Game.GameState.TryMove | gameLogic.js:219-283 | tests one move and restores the board, rights and en passant square; true iff the move does not leave the mover's king in check |
| Legality.FilterLegalIff | gameLogic.js:213-286 | a move survives the filter iff it was generated and is legal |
| Game.GameState.FilterByTrying | gameLogic.js:213-286 | the filter loop keeps exactly the legal moves, in order, and leaves the state unchanged |
| Game.GameState.KeepIfLegal | gameLogic.js:219-285 | one step of the filter loop records its verdict and keeps the move iff it is legal |
| Legality.LegalMovesIff | gameLogic.js:192-289 | a move is legal from a square iff that square holds a piece of the side to move, the move is generated for it, and it does not leave the king in check |
| Game.GameState.GenerateLegalMoves | gameLogic.js:192-289 | returns the legal moves from the square and leaves the state unchanged |
| Legality.HasLegalMovesIff | gameLogic.js:531-553 | a side has a legal move iff its list of all legal moves is not empty |
| Game.GameState.HasLegalMoves | gameLogic.js:531-553 | computes it without changing the state |
| Game.GameState.CheckGameEndCondition | gameLogic.js:558-567 | checkmate, stalemate or not over, as the side to move's legal moves and check status decide |
| Material.TallyFacts | gameLogic.js:576-593 | the tally counts every piece, lists exactly the kinds each side has, and splits each side's bishops into light and dark |
| Material.HeavyPieceSuffices | gameLogic.js:612-613 | a pawn, rook or queen on the board means the material is sufficient |
| Material.BishopsOnBothColoursSuffice | gameLogic.js:604-611 | a king and only bishops, with bishops on both colours, is not a draw on that side |
| Material.KingBishopEachIsDraw | gameLogic.js:617-631 | king and bishop against king and bishop is insufficient whatever the bishops' colours, because both sides already pass the per-side test |
| Game.GameState.HasInsufficientMaterial | gameLogic.js:570-635 | computes the material test |
| Keys.KeyRoundTrip | gameLogic.js:637-681 | parsing the repetition key, followed by two clocks (the second at least 1), gives back the position with those clocks (an off-row en passant square reads as none) |
| Keys.KeyDeterminesPosition | gameLogic.js:637-661 | equal keys mean equal boards, sides and rights, and equivalent en passant squares |
| Keys.PlacementParses | gameLogic.js:639-653 | the placement part of the key splits into eight rank codes that parse back to the board |
| Keys.RankCodeParses | gameLogic.js:640-652 | the code of one row parses back to that row |
| Keys.CastlingStringParses | gameLogic.js:663-670 | the castling string parses back to the same rights |
| Keys.EpStringParses | gameLogic.js:672-681 | the en passant string parses back to the square, when it is valid for the side to move |
| History.KeyIffSame | gameLogic.js:683-702 | two keys are equal iff the positions agree on board, side, rights and en passant string |
| Game.BoardPositionString | gameLogic.js:637-661 | builds the key, rank by rank |
| Game.RowCode | gameLogic.js:640-652 | the run-length code of one row |
| History.ThreefoldRepeats | gameLogic.js:683-702 | a reported repetition means the index is at least 8 and three earlier entries up to the index have the same key |
| History.RepeatsThreefold | gameLogic.js:683-702 | three such entries at index 8 or later mean a repetition is reported |
| Game.GameState.CheckThreefoldRepetition | gameLogic.js:683-702 | computes the test |
| History.Pushed | gameLogic.js:706-736 | the new entry is last, records the position and the move's notation and number, and the cursor moves one on |
| History.PushTruncates | gameLogic.js:725-732 | entries after the cursor are dropped before pushing, and the earlier ones are kept |
| History.PushKeepsAll | gameLogic.js:725-731 | at the end of the history nothing is dropped |
| Game.GameState.PushHistoryState | gameLogic.js:706-736 | history and cursor become the pushed ones |
| Notation.NoHintIffNoRival | gameLogic.js:794-836 | the notation has no disambiguation iff no other piece of that kind can legally reach the destination |
| Notation.HintIsUnambiguous | gameLogic.js:765-836 | the file, rank or square given never fits a rival |
| Notation.NotationMarksCapture | gameLogic.js:753-788 | a notation other than castling contains `x` iff the move captures, en passant included: no file, rank or piece letter is `x` |
| Notation.NotationLeadsWithPiece | gameLogic.js:756-788 | a notation other than castling starts with an upper-case letter iff a piece other than a pawn moved, and then with that piece's letter; a pawn's starts with a file letter |
| Notation.NotationLength | gameLogic.js:756-788 | a pawn's notation has 2 characters, or 4 iff it captures; another piece's has 3 to 6, and 3 only without a capture |
| Notation.NotationEndsWithDestination | gameLogic.js:742-791 | every non-castling notation ends with the destination square |
| Game.GameState.IsRival | gameLogic.js:805-826 | inspects one square for a rival, restoring the state |
| Game.GameState.CheckAmbiguity | gameLogic.js:794-836 | computes the file and rank flags of the rivals without changing the state |
| Game.Disambiguation | gameLogic.js:765-781 | the hint text the flags select |
| Game.GameState.GetAlgebraicNotation | gameLogic.js:742-791 | computes the notation without changing the state |
| Legality.AllLegalMovesIff | aiPlayer.js:323-356 | a move is listed iff it is legal for the player |
| Legality.PieceMovesIff | aiPlayer.js:329-352 | the moves listed for one square are exactly the legal moves from it |
| Ai.GetAllLegalMoves | aiPlayer.js:323-356 | lists every legal move, in board order, and restores the state |
| Ai.CollectRow | aiPlayer.js:328-353 | the moves of one row are appended |
| Ai.CollectSquare | aiPlayer.js:330-351 | the moves of one square are appended |
| Ai.PushTagged | aiPlayer.js:340-349 | each generated target is appended with its origin and piece |
| Evaluation.MirrorNegates | aiPlayer.js:364-415 | mirroring the board and swapping colours negates the score |
| Evaluation.SymmetricIsLevel | aiPlayer.js:364-415 | a colour-symmetric board scores 0 |
| Ai.EvaluateBoard | aiPlayer.js:364-415 | the loop computes the score: material plus a tenth of positional bonus, White minus Black |
| Ai.AddSquare | aiPlayer.js:369-404 | one square adds its material and positional value to its owner's sums |
| Search.UpdateRightsSim | aiPlayer.js:620-649 | the simulated rights only ever lose rights; a king move clears both of its side's; other moves keep them unless a rook moves or is taken |
| Ai.UpdateCastlingRightsSim | aiPlayer.js:620-649 | the rights become the simulated ones |
| Commit.RightsAfterIsSimulated | aiPlayer.js:620-649 | the search's rights update is the intended commit-time rule, where a rook of either colour clears its corner |
| Search.ChildPosition | aiPlayer.js:471-512 | a child position has the other side to move, loses rights only, sets en passant iff a pawn made a double step, and resets or advances the clocks |
| Search.LegalMoveIsSafe | aiPlayer.js:471-512 | every legal move can be simulated within the board |
| Search.UndoChildRestores | aiPlayer.js:519-530 | the undo restores the board |
| Ai.ApplySearchBoard | aiPlayer.js:471-489 | the board of the child, with the moved piece, the captured piece and the en passant victim returned |
| Ai.SimulateSearchMove | aiPlayer.js:471-512 | the state becomes the child position, and the saved fields are those undo needs |
| Ai.UndoSearchMove | aiPlayer.js:519-530 | the state becomes the one before the move |
| Search.AlphaBetaBounds | aiPlayer.js:426-613 | the pruned score is the exact minimax value when that lies strictly inside the window, and on the same side of the window otherwise |
| Search.RootIsExact | aiPlayer.js:426-613 | with a window of −∞ to +∞ the pruned search returns the exact minimax value |
| Search.MinimaxMoveIsLegal | aiPlayer.js:465-611 | a move returned by the search is legal for the side at that node |
| Ai.Minimax | aiPlayer.js:426-613 | returns exactly the search function's result and restores the state |
| Ai.SearchChild | aiPlayer.js:471-530 | simulates, searches one level down and undoes, returning the child's score |
| Ai.MaxNode | aiPlayer.js:465-544 | the maximizing loop with its cut-off |
| Ai.MinNode | aiPlayer.js:546-611 | the minimizing loop with its cut-off |
| Strategy.NonLosingIff | aiPlayer.js:94-117 | level 0 keeps a move iff it captures or does not land on an attacked square |
| Ai.IsNotHanging | aiPlayer.js:95-116 | probes one move and restores the board |
| Ai.FilterNonLosing | aiPlayer.js:94-117 | the filter keeps exactly the non-losing moves in order |
| Strategy.ProbeRestores | aiPlayer.js:100-114 | the level-0 probe leaves the board as it was |
| Strategy.CapturesIff | aiPlayer.js:127 | level 1 keeps a move iff it lands on a piece or is en passant |
| Ai.FilterCaptures | aiPlayer.js:127 | the filter keeps exactly the captures in order |
| Strategy.OnePlyRestores | aiPlayer.js:143-172 | the level-2 simulate and undo restore the board |
| Ai.OnePlyEvaluation | aiPlayer.js:143-172 | the score of the board after the move, with the state restored |
| Ai.ApplyOnePly | aiPlayer.js:143-156 | the level-2 board after the move, en passant victim beside the destination |
| Ai.UndoOnePly | aiPlayer.js:167-172 | restores the board |
| Strategy.BestOnePly | aiPlayer.js:141-180 | the chosen move is among those examined and its score is its own |
| Strategy.Level2IsOptimal | aiPlayer.js:137-189 | no legal move scores strictly better for the side to move than level 2's choice |
| Ai.MediumMove | aiPlayer.js:137-189 | computes level 2's choice and restores the state |
| Ai.KeepBetter | aiPlayer.js:175-179 | the best so far is replaced iff the new score is strictly better for the side to move |
| Strategy.BestMoveIsLegal | aiPlayer.js:75-220 | no move is chosen iff there is no legal move; a chosen move is always legal |
| Strategy.Level0AvoidsHanging | aiPlayer.js:92-124 | when a non-losing move exists, level 0 plays one |
| Strategy.Level1PrefersCaptures | aiPlayer.js:126-135 | when a capture exists, level 1 plays one |
| Strategy.Level3FollowsSearch | aiPlayer.js:191-204 | when the search returns a move, level 3 plays it, and its score is the exact depth-3 minimax value |
| Strategy.OtherLevelsPickFirst | aiPlayer.js:206-208 | any other level plays the first shuffled move |
| Ai.CalculateBestMove | aiPlayer.js:75-220 | returns the level's choice and leaves the state unchanged |
| Commit.PlainMoveBoard | ui.js:454-455 | an ordinary move puts the piece on the destination, empties the origin and changes no other square |
| Commit.EnPassantBoard | ui.js:429-455 | en passant also empties the captured pawn's square behind the destination, and changes nothing else |
| Commit.CastlingBoard | ui.js:437-455 | castling moves the king two files and the corner rook to the square the king passed |
| Commit.CommitIsProbe | ui.js:429-455 | the committed board is the board the legality probe tested |
| Ui.MovePieces | ui.js:429-455 | the board becomes the committed board |
| Ui.MakeMove | ui.js:382-455 | an empty origin or a pending promotion changes nothing; otherwise the board, rights, en passant square, clocks, side, history and game-over flag are those of the committed move with its notation |
| Ui.CommitMove | ui.js:412-455 | commits the move and finishes its processing |
| Commit.RightsAfterAsWritten | ui.js:586-607 | the rights after a commit, as written, are a subset of those before |
| Commit.RightsAfterAsWrittenIff | ui.js:586-607 | as written, a side keeps a right iff it had it, its king did not move, it did not move the white rook (letter `R`) off that corner, and no rook was captured on that corner |
| Commit.RightsAfter | ui.js:586-607 | the intended rule, where a rook of either colour clears its corner (the corrected half of the finding): the rights only ever shrink |
| Commit.RightsAfterIff | ui.js:586-607 | under the intended rule, a side keeps a right iff it had it, its king did not move, its own rook did not leave that corner, and no rook was captured on that corner |
| Commit.BlackRookKeepsRightAsWritten | ui.js:588-595 | as written, Black moving its rook off h8 keeps the kingside right that the intended rule clears |
| Commit.AsWrittenDiffersOnlyForBlackRook | ui.js:586-607 | for every piece other than the black rook, the as-written and the intended rules give the same rights |
| Ui.CommitCastlingRights | ui.js:586-607 | the rights become the as-written ones: the king clauses, the rook-leaves clause for the white rook only, and the captured-rook clause |
| Commit.KingClauses | ui.js:586-587 | a king move clears both of its side's rights |
| Commit.RookLeavesClauses | ui.js:588-596 | a rook leaving a corner of the mover's home row clears that corner's right |
| Commit.RookCapturedClauses | ui.js:598-607 | a rook captured on a corner clears that corner's right |
| Commit.EpAfter | ui.js:610-614 | an en passant square is set iff a pawn moved two rows, and it is the square it passed |
| Commit.AfterMoveClocks | ui.js:617-624 | the halfmove clock resets iff a pawn moved or a piece was captured, otherwise it goes up by one; the fullmove number goes up iff Black moved |
| Commit.AfterMove | ui.js:586-627 | the position after the move: the new board, the other side to move, the rights updated as written, and the en passant square |
| Ui.CommitFields | ui.js:586-627 | the state becomes that position, with the as-written rights |
| Commit.FinishIff | ui.js:630-663 | the game ends iff it was already over, or there is mate or stalemate, a clock of 100, a repetition, or insufficient material; the mark is `#` iff mate, and `+` iff check without mate or stalemate |
| Ui.CheckEnd | ui.js:630-663 | sets the game-over flag and computes the mark |
| Commit.FinishedRecordsPosition | ui.js:677-679 | after a move the history keeps its entries up to the old cursor, ends with the new position, and the cursor points at it |
| Commit.Finished | ui.js:580-696 | the position, history, cursor and flag after finishMoveProcessing |
| Ui.FinishMoveProcessing | ui.js:580-696 | the state becomes that |
| Commit.PromotionBoardEffect | ui.js:801-802 | the chosen piece of the mover's colour replaces the pawn on the destination square and the origin is emptied |
| Ui.HandleAIPromotion | ui.js:776-808 | a square without a pawn changes nothing; otherwise the piece is promoted, with notation ending `=` and the letter |
| Ui.CommitPromotion | ui.js:789-808 | commits the promotion and finishes its processing |
| Ui.NavigateToHistoryState | ui.js:1022-1053 | an index outside the history changes nothing; otherwise the state becomes that entry's position, the cursor moves there and the game is not over |
| History.UndoTarget | ui.js:1055-1072 | an undo target lies before the cursor |
| History.RedoTarget | ui.js:1074-1093 | a redo target lies after the cursor and inside the history |
| History.UndoRedoEnabled | ui.js:1016-1019 | for any cursor from -1 (the empty history) to the last entry: undo does nothing iff the computer is thinking or the cursor is below 1; redo does nothing iff it is thinking or the cursor is at the end, as the buttons show |
| History.RedoUndoesUndo | ui.js:1055-1093 | without the computer opponent, redo after undo returns to the same entry |
| History.RedoUndoesDoubleUndo | ui.js:1055-1093 | with the computer opponent, a two-step undo is reversed by a two-step redo |
| Ui.HandleUndo | ui.js:1055-1072 | goes to the undo target, or changes nothing |
| Ui.HandleRedo | ui.js:1074-1093 | goes to the redo target, or changes nothing |

## Left out

- The DOM, rendering, animation, sounds and status message text: these are I/O and do not change the game logic.
- Timing and logging: `performance.now` and `console` have no effect on the result.
- `Math.random`: modelled as the `order` oracle, of which only "is a permutation" is assumed.
- Floating point: scores are exact reals. The source adds doubles such as 3.1 and positional values times 0.1, which round. Two scores equal here may differ in their last bit there, and the reverse. That can change which of two equally scored moves is kept.
- The `try`/`catch` in `calculateBestMove`: no modelled operation throws, so the fallback is unreachable.
- Game.GameState.ParseFen: after a failure the program leaves a half-updated state. The model promises only `Valid()` in that case.
- `isAIThinking`, the AI mode and the human's colour: these are parameters of the undo and redo handlers, not globals.
- The promotion dialog: it waits for a click. The computer's promotion piece is a parameter of `HandleAIPromotion`, and the board passes `Q`.
- `checkAndTriggerAIMove`, `triggerAIMove`, the hint button and the ELO rating flow: they schedule moves through timers.
- `script.js` is not part of this model.
- `isAnyPieceAttackedBy` and `getSlidingAttackSquares` in aiPlayer.js: nothing calls them.
- Level 3's fallback, `calculateBestMove(2)`: modelled inline as a second shuffle and level 2's choice, rather than a recursive call.
- `updateHistoryButtons`: represented by History.UndoRedoEnabled, which states when each button is disabled.
- Fen.ParseIntJs: `parseInt` yields a double; the model reads an exact unbounded integer, so clock fields above 2^53 (which round) and `-0` (negative zero) are not modelled.
- Several loops of the source are split into helper methods, one per loop stage. Each is proved against the same function as the whole loop.

## Findings

| source | as written | input that shows it | evidently intended | confidence | as-written member | corrected member |
|---|---|---|---|---|---|---|
| ui.js:588 | the rook-leaves-corner clause tests `movedPiece === 'R'`, so only a white rook ever clears a right | Black moves its rook h8→h4 with all rights held: Black keeps the kingside right | a rook of either colour leaving its corner clears that corner's right, as `updateCastlingRightsSim` (aiPlayer.js:630) does with `toUpperCase` | high, not executed | Commit.BlackRookKeepsRightAsWritten | Commit.RightsAfterIff |

The committed state follows the code as written: Commit.AfterMove and Ui.CommitCastlingRights use Commit.RightsAfterAsWritten. Commit.RightsAfter is the intended rule. The search simulation follows it (Commit.RightsAfterIsSimulated), and Commit.AsWrittenDiffersOnlyForBlackRook shows that the two rules agree except for a black rook.
