/** The state logic of ui.js on the engine's state: makeMove and
    finishMoveProcessing committing a move, handleAIPromotion, and the
    history navigation of handleUndo and handleRedo. The animations, sounds,
    status messages and the asynchronous hand-over to the AI are not
    modelled; the AI-thinking flag, the AI mode and the human's colour are
    parameters. */
module Ui {
  import opened Pieces
  import opened Boards
  import opened Geometry
  import opened Legality
  import opened History
  import opened Search
  import opened Commit
  import opened Game
  import Notation

  // ---------------------------------------------------------------------
  // finishMoveProcessing.

  /** The castling-rights clauses of finishMoveProcessing. The rook-leaves
      clause runs only when the moved piece is the white rook, so a black
      rook leaving its corner keeps Black's right (Commit.RightsAfter is the
      intended rule). */
  method CommitCastlingRights(g: GameState, playerWhoMoved: Color, movedPiece: Piece, capturedPieceLogical: Cell,
                              from: Square, to: Square)
    requires g.Valid()
    modifies g`rights
    ensures g.Valid() && g.rights == RightsAfterAsWritten(old(g.rights), playerWhoMoved, movedPiece, capturedPieceLogical, from, to)
  {
    var rights := KingClauses(g.rights, movedPiece);
    if movedPiece == Piece(White, Rook) {
      rights := RookLeavesClauses(rights, playerWhoMoved, from);
    }
    rights := RookCapturedClauses(rights, playerWhoMoved, capturedPieceLogical, to);
    g.SetRights(rights);
  }

  /** The game-end test of finishMoveProcessing on the new position, and
      the mark it appends to the notation. */
  method CheckEnd(g: GameState) returns (mark: string)
    requires g.Valid()
    modifies g.board, g`cells, g`turn, g`rights, g`ep, g`gameOver
    ensures g.Valid() && g.State() == old(g.State())
    ensures var o := Finish(g.history, g.moveIndex, g.State(), old(g.gameOver)); g.gameOver == o.gameOver && mark == o.mark
  {
    var endCondition := g.CheckGameEndCondition();
    mark := "";
    if endCondition == Checkmate {
      g.SetGameOver(true);
      mark := "#";
    } else if endCondition == Stalemate {
      g.SetGameOver(true);
    } else {
      var isCheck := g.IsKingInCheck(g.turn);
      if isCheck {
        mark := "+";
      }
      if g.halfmove >= 100 {
        g.SetGameOver(true);
      } else {
        var threefold := g.CheckThreefoldRepetition();
        if threefold {
          g.SetGameOver(true);
        } else {
          var insufficient := g.HasInsufficientMaterial();
          if insufficient {
            g.SetGameOver(true);
          }
        }
      }
    }
  }

  /** The field updates of finishMoveProcessing for the side that moved:
      castling rights, en passant target, clocks and side to move. */
  method CommitFields(g: GameState, playerWhoMoved: Color, movedPiece: Piece, capturedPieceLogical: Cell, from: Square, to: Square)
    requires g.Valid()
    modifies g`turn, g`rights, g`ep, g`halfmove, g`fullmove
    ensures g.Valid() && g.cells == old(g.cells)
    ensures g.State() == AfterMove(old(g.State()).(turn := playerWhoMoved), old(g.cells), movedPiece, capturedPieceLogical, from, to)
  {
    CommitCastlingRights(g, playerWhoMoved, movedPiece, capturedPieceLogical, from, to);
    var ep := if movedPiece.kind == Pawn && AbsDiff(to.row, from.row) == 2
      then Some(Square((from.row + to.row) / 2, from.col)) else None;
    var halfmove := if movedPiece.kind == Pawn || capturedPieceLogical.Some? then 0 else g.halfmove + 1;
    var fullmove := if playerWhoMoved == Black then g.fullmove + 1 else g.fullmove;
    g.SetSearchFields(Opponent(playerWhoMoved), ep, halfmove, fullmove);
  }

  /** finishMoveProcessing(prevStateInfo, movedPiece, capturedPieceLogical,
      ...): called with the board already updated. The rights, en passant
      target, clocks and side to move are updated for the side that moved,
      the game-end test runs on the new position against the history as it
      stands, and the position is pushed with the notation and the move
      number the mover had. */
  method FinishMoveProcessing(g: GameState, playerWhoMoved: Color, prevFullmove: int, movedPiece: Piece,
                              capturedPieceLogical: Cell, from: Square, to: Square, finalMoveNotationBase: string)
    requires g.Valid()
    modifies g.board, g`cells, g`turn, g`rights, g`ep, g`halfmove, g`fullmove, g`history, g`moveIndex, g`gameOver
    ensures g.Valid()
    ensures (g.State(), g.history, g.moveIndex, g.gameOver) ==
      Finished(old(g.State()).(turn := playerWhoMoved), old(g.history), old(g.moveIndex), old(g.gameOver),
               movedPiece, capturedPieceLogical, from, to, finalMoveNotationBase, prevFullmove)
  {
    ghost var history, index, wasOver := g.history, g.moveIndex, g.gameOver;
    CommitFields(g, playerWhoMoved, movedPiece, capturedPieceLogical, from, to);
    ghost var after := g.State();
    var mark := CheckEnd(g);
    ghost var o := Finish(history, index, after, wasOver);
    g.PushHistoryState(MoveInfo(Some(finalMoveNotationBase + mark), Some(prevFullmove), true));
    assert (g.history, g.moveIndex) == PushMove(history, index, after, finalMoveNotationBase, o, prevFullmove);
  }

  // ---------------------------------------------------------------------
  // makeMove.

  /** The logical board update of makeMove: the en passant pawn removed,
      the castling rook moved when there is one, then the piece itself. */
  method MovePieces(g: GameState, piece: Piece, from: Square, to: Square, isCastling: bool, isEnPassantCapture: bool)
    requires g.Valid()
    modifies g.board, g`cells
    ensures g.Valid() && g.cells == MoveBoard(old(g.cells), g.turn, piece, from, to, isCastling, isEnPassantCapture)
  {
    if isEnPassantCapture {
      var capturedPawnRow := CapturedPawnRow(g.turn, to.row);
      g.SetPieceAt(capturedPawnRow, to.col, None);
    }
    if isCastling {
      var rookFromCol := if to.col > from.col then 7 else 0;
      var rookToCol := if to.col > from.col then to.col - 1 else to.col + 1;
      var rookRow := from.row;
      var rookPiece := g.GetPieceAt(rookRow, rookFromCol);
      if rookPiece.Some? {
        g.SetPieceAt(rookRow, rookToCol, rookPiece);
        g.SetPieceAt(rookRow, rookFromCol, None);
      }
    }
    g.SetPieceAt(to.row, to.col, Some(piece));
    g.SetPieceAt(from.row, from.col, None);
  }

  /** makeMove(fromRow, fromCol, toRow, toCol, needsPromotion): nothing
      from an empty square, nor for a promotion (which goes to the
      promotion dialog); otherwise the move is classified as castling or en
      passant, its base notation is taken on the board before the move,
      the board is updated and the move is finished with the logical
      capture. */
  method MakeMove(g: GameState, from: Square, to: Square, needsPromotion: bool)
    requires g.Valid() && OnBoard(from.row, from.col) && OnBoard(to.row, to.col)
    modifies g.board, g`cells, g`turn, g`rights, g`ep, g`halfmove, g`fullmove, g`history, g`moveIndex, g`gameOver
    ensures g.Valid()
    ensures var pos := old(g.State());
      var cell := At(pos.board, from.row, from.col);
      (cell.None? || needsPromotion ==>
        g.State() == pos && g.history == old(g.history) && g.moveIndex == old(g.moveIndex) && g.gameOver == old(g.gameOver)) &&
      (cell.Some? && !needsPromotion ==>
        var piece := cell.value;
        var captured := At(pos.board, to.row, to.col);
        var castling := IsCastlingMove(piece, from, to);
        var enPassant := IsEnPassantCapture(pos, piece, from, to);
        (g.State(), g.history, g.moveIndex, g.gameOver) ==
          Finished(pos.(board := MoveBoard(pos.board, pos.turn, piece, from, to, castling, enPassant)),
                   old(g.history), old(g.moveIndex), old(g.gameOver), piece,
                   LogicalCapture(pos.board, pos.turn, to, enPassant), from, to,
                   Notation.AlgebraicNotation(pos, piece, captured, from, to, enPassant, castling), pos.fullmove))
  {
    var cell := g.GetPieceAt(from.row, from.col);
    if cell.None? {
      return;
    }
    var piece := cell.value;
    var capturedPiece := g.GetPieceAt(to.row, to.col);
    var isCastling := piece.kind == King && AbsDiff(to.col, from.col) == 2;
    var isEnPassantCapture := piece.kind == Pawn && to.col != from.col && capturedPiece.None? && g.ep == Some(to);
    var baseMoveNotation := g.GetAlgebraicNotation(from, to, piece, capturedPiece, isEnPassantCapture, isCastling);
    if needsPromotion {
      return;
    }
    CommitMove(g, piece, capturedPiece, from, to, isCastling, isEnPassantCapture, baseMoveNotation);
  }

  /** The second half of makeMove, once the move is classified and its
      notation taken: the logical capture, the board update and
      finishMoveProcessing. */
  method CommitMove(g: GameState, piece: Piece, capturedPiece: Cell, from: Square, to: Square,
                    isCastling: bool, isEnPassantCapture: bool, baseMoveNotation: string)
    requires g.Valid() && OnBoard(from.row, from.col) && OnBoard(to.row, to.col)
    requires capturedPiece == At(g.cells, to.row, to.col)
    modifies g.board, g`cells, g`turn, g`rights, g`ep, g`halfmove, g`fullmove, g`history, g`moveIndex, g`gameOver
    ensures g.Valid()
    ensures var pos := old(g.State());
      (g.State(), g.history, g.moveIndex, g.gameOver) ==
        Finished(pos.(board := MoveBoard(pos.board, pos.turn, piece, from, to, isCastling, isEnPassantCapture)),
                 old(g.history), old(g.moveIndex), old(g.gameOver), piece,
                 LogicalCapture(pos.board, pos.turn, to, isEnPassantCapture), from, to, baseMoveNotation, pos.fullmove)
  {
    ghost var pos := g.State();
    var prevCurrentPlayer, prevFullmoveNumber := g.turn, g.fullmove;
    var capturedPawnActual: Cell := None;
    if isEnPassantCapture {
      capturedPawnActual := g.GetPieceAt(CapturedPawnRow(g.turn, to.row), to.col);
    }
    var logicalCapture := if capturedPiece.Some? then capturedPiece else if isEnPassantCapture then capturedPawnActual else None;
    assert logicalCapture == LogicalCapture(pos.board, pos.turn, to, isEnPassantCapture);
    MovePieces(g, piece, from, to, isCastling, isEnPassantCapture);
    assert g.State().(turn := prevCurrentPlayer) == pos.(board := MoveBoard(pos.board, pos.turn, piece, from, to, isCastling, isEnPassantCapture));
    FinishMoveProcessing(g, prevCurrentPlayer, prevFullmoveNumber, piece, logicalCapture, from, to, baseMoveNotation);
  }

  // ---------------------------------------------------------------------
  // handleAIPromotion.

  /** handleAIPromotion(fromRow, fromCol, toRow, toCol, chosenPieceType):
      nothing unless a pawn stands on the origin; otherwise the notation
      gets "=" and the chosen letter, the chosen piece in the colour of the
      side to move replaces the pawn on the target, and the move is
      finished with the piece that was on the target. */
  method HandleAIPromotion(g: GameState, from: Square, to: Square, chosen: Kind)
    requires g.Valid() && OnBoard(from.row, from.col) && OnBoard(to.row, to.col)
    modifies g.board, g`cells, g`turn, g`rights, g`ep, g`halfmove, g`fullmove, g`history, g`moveIndex, g`gameOver
    ensures g.Valid()
    ensures var pos := old(g.State());
      (!PromotionAccepted(pos.board, from) ==>
        g.State() == pos && g.history == old(g.history) && g.moveIndex == old(g.moveIndex) && g.gameOver == old(g.gameOver)) &&
      (PromotionAccepted(pos.board, from) ==>
        var pawn := At(pos.board, from.row, from.col).value;
        var captured := At(pos.board, to.row, to.col);
        (g.State(), g.history, g.moveIndex, g.gameOver) ==
          Finished(pos.(board := PromotionBoard(pos.board, pos.turn, chosen, from, to)),
                   old(g.history), old(g.moveIndex), old(g.gameOver), pawn, captured, from, to,
                   Notation.AlgebraicNotation(pos, pawn, captured, from, to, false, false) + "=" + [KindLetter(chosen)],
                   pos.fullmove))
  {
    var cell := g.GetPieceAt(from.row, from.col);
    var capturedPiece := g.GetPieceAt(to.row, to.col);
    if cell.None? || cell.value.kind != Pawn {
      return;
    }
    var baseMoveNotation := g.GetAlgebraicNotation(from, to, cell.value, capturedPiece, false, false);
    var finalMoveNotation := baseMoveNotation + "=" + [KindLetter(chosen)];
    CommitPromotion(g, cell.value, capturedPiece, from, to, chosen, finalMoveNotation);
  }

  /** The second half of handleAIPromotion, once the notation is taken:
      the chosen piece replaces the pawn and the move is finished. */
  method CommitPromotion(g: GameState, pawn: Piece, capturedPiece: Cell, from: Square, to: Square, chosen: Kind,
                         finalMoveNotation: string)
    requires g.Valid()
    modifies g.board, g`cells, g`turn, g`rights, g`ep, g`halfmove, g`fullmove, g`history, g`moveIndex, g`gameOver
    ensures g.Valid()
    ensures var pos := old(g.State());
      (g.State(), g.history, g.moveIndex, g.gameOver) ==
        Finished(pos.(board := PromotionBoard(pos.board, pos.turn, chosen, from, to)),
                 old(g.history), old(g.moveIndex), old(g.gameOver), pawn, capturedPiece, from, to,
                 finalMoveNotation, pos.fullmove)
  {
    ghost var pos := g.State();
    var prevCurrentPlayer, prevFullmoveNumber := g.turn, g.fullmove;
    var promotionPiece := Piece(g.turn, chosen);
    g.SetPieceAt(to.row, to.col, Some(promotionPiece));
    g.SetPieceAt(from.row, from.col, None);
    assert g.State().(turn := prevCurrentPlayer) == pos.(board := PromotionBoard(pos.board, pos.turn, chosen, from, to));
    FinishMoveProcessing(g, prevCurrentPlayer, prevFullmoveNumber, pawn, capturedPiece, from, to, finalMoveNotation);
  }

  // ---------------------------------------------------------------------
  // History navigation.

  /** navigateToHistoryState(targetIndex): nothing for an index outside
      the history; otherwise the index moves there, every field of the
      recorded position is copied back and the game is no longer over. */
  method NavigateToHistoryState(g: GameState, targetIndex: int)
    requires g.Valid()
    modifies g.board, g`cells, g`turn, g`rights, g`ep, g`halfmove, g`fullmove, g`moveIndex, g`gameOver
    ensures g.Valid() && g.history == old(g.history)
    ensures !(0 <= targetIndex < |g.history|) ==>
      g.State() == old(g.State()) && g.moveIndex == old(g.moveIndex) && g.gameOver == old(g.gameOver)
    ensures 0 <= targetIndex < |g.history| ==>
      g.moveIndex == targetIndex && g.State() == g.history[targetIndex].pos && !g.gameOver
  {
    if targetIndex < 0 || targetIndex >= |g.history| {
      return;
    }
    var stateToRestore := g.history[targetIndex].pos;
    g.SetMoveIndex(targetIndex);
    g.LoadBoard(stateToRestore.board);
    g.SetSearchFields(stateToRestore.turn, stateToRestore.ep, stateToRestore.halfmove, stateToRestore.fullmove);
    g.SetRights(stateToRestore.rights);
    g.SetGameOver(false);
  }

  /** handleUndo(): nothing while the AI thinks or at the first state;
      otherwise back one state, or two in AI mode when the state before
      the previous one has the AI to move, never before the first. */
  method HandleUndo(g: GameState, isAIThinking: bool, aiMode: bool, playerColor: Color)
    requires g.Valid()
    modifies g.board, g`cells, g`turn, g`rights, g`ep, g`halfmove, g`fullmove, g`moveIndex, g`gameOver
    ensures g.Valid() && g.history == old(g.history)
    ensures match UndoTarget(old(g.history), old(g.moveIndex), isAIThinking, aiMode, playerColor)
      case None => g.State() == old(g.State()) && g.moveIndex == old(g.moveIndex) && g.gameOver == old(g.gameOver)
      case Some(t) => g.moveIndex == t && g.State() == g.history[t].pos && !g.gameOver
  {
    if isAIThinking || g.moveIndex < 1 {
      return;
    }
    var steps := 1;
    if aiMode && g.moveIndex >= 2 {
      var playerWhoMadePrevMove := g.history[g.moveIndex - 1].pos.turn;
      if playerWhoMadePrevMove != playerColor {
        steps := 2;
      }
    }
    var targetIndex := if g.moveIndex - steps < 0 then 0 else g.moveIndex - steps;
    NavigateToHistoryState(g, targetIndex);
  }

  /** handleRedo(): nothing while the AI thinks or at the last state;
      otherwise forward one state, or two in AI mode when the next state
      has the AI to move and two states lie ahead, never past the last. */
  method HandleRedo(g: GameState, isAIThinking: bool, aiMode: bool, playerColor: Color)
    requires g.Valid()
    modifies g.board, g`cells, g`turn, g`rights, g`ep, g`halfmove, g`fullmove, g`moveIndex, g`gameOver
    ensures g.Valid() && g.history == old(g.history)
    ensures match RedoTarget(old(g.history), old(g.moveIndex), isAIThinking, aiMode, playerColor)
      case None => g.State() == old(g.State()) && g.moveIndex == old(g.moveIndex) && g.gameOver == old(g.gameOver)
      case Some(t) => g.moveIndex == t && g.State() == g.history[t].pos && !g.gameOver
  {
    if isAIThinking || g.moveIndex >= |g.history| - 1 {
      return;
    }
    var steps := 1;
    if aiMode && g.moveIndex < |g.history| - 2 {
      var playerWhoseTurnIsNext := g.history[g.moveIndex + 1].pos.turn;
      if playerWhoseTurnIsNext != playerColor {
        steps := 2;
      }
    }
    steps := if steps < |g.history| - 1 - g.moveIndex then steps else |g.history| - 1 - g.moveIndex;
    var targetIndex := g.moveIndex + steps;
    NavigateToHistoryState(g, targetIndex);
  }
}
