/** Committing a move in ui.js, on position values: the board updates of
    makeMove (en passant pawn, castling rook, the piece itself), the state
    updates of finishMoveProcessing (castling rights, en passant target,
    clocks, side to move), its game-over test and its history push, and the
    board update of handleAIPromotion. */
module Commit {
  import opened Pieces
  import opened Boards
  import opened Attacks
  import opened Geometry
  import opened Legality
  import opened Material
  import opened History
  import opened Search

  // ---------------------------------------------------------------------
  // makeMove: the board.

  /** A king moving two files. */
  predicate IsCastlingMove(piece: Piece, from: Square, to: Square)
  {
    piece.kind == King && AbsDiff(to.col, from.col) == 2
  }

  /** A pawn moving to another file, onto the empty en passant target. */
  predicate IsEnPassantCapture(pos: Position, piece: Piece, from: Square, to: Square)
  {
    piece.kind == Pawn && to.col != from.col && At(pos.board, to.row, to.col).None? && pos.ep == Some(to)
  }

  /** The rook's corner and the square it lands on when castling. */
  function CastleRookFrom(from: Square, to: Square): int { if to.col > from.col then 7 else 0 }
  function CastleRookTo(from: Square, to: Square): int { if to.col > from.col then to.col - 1 else to.col + 1 }

  /** The board after makeMove, in its order of writes: the en passant pawn
      removed on the mover's side of the target, then whatever stands in the
      castling corner moved next to the king, then the piece onto the target
      and its origin emptied. */
  function MoveBoard(b: Board, turn: Color, piece: Piece, from: Square, to: Square, isCastling: bool, isEp: bool): Board
  {
    var b1 := if isEp then SetAt(b, CapturedPawnRow(turn, to.row), to.col, None) else b;
    var corner := CastleRookFrom(from, to);
    var rook := At(b1, from.row, corner);
    var b2 := if isCastling && rook.Some? then SetAt(SetAt(b1, from.row, CastleRookTo(from, to), rook), from.row, corner, None) else b1;
    SetAt(SetAt(b2, to.row, to.col, Some(piece)), from.row, from.col, None)
  }

  /** The capture finishMoveProcessing is told about: the piece on the
      target, or for an en passant capture the pawn it removed. */
  function LogicalCapture(b: Board, turn: Color, to: Square, isEp: bool): Cell
  {
    if At(b, to.row, to.col).Some? then At(b, to.row, to.col)
    else if isEp then At(b, CapturedPawnRow(turn, to.row), to.col)
    else None
  }

  /** An ordinary move puts the piece on the target, empties the origin and
      touches nothing else. */
  lemma PlainMoveBoard(b: Board, turn: Color, piece: Piece, from: Square, to: Square)
    requires OnBoard(from.row, from.col) && OnBoard(to.row, to.col) && from != to
    ensures var b' := MoveBoard(b, turn, piece, from, to, false, false);
      At(b', to.row, to.col) == Some(piece) && At(b', from.row, from.col).None? &&
      forall r, c :: OnBoard(r, c) && Square(r, c) != from && Square(r, c) != to ==> At(b', r, c) == At(b, r, c)
  {
  }

  /** An en passant capture also empties the square of the passed pawn:
      (toRow + 1, toCol) for White and (toRow - 1, toCol) for Black. */
  lemma EnPassantBoard(b: Board, turn: Color, piece: Piece, from: Square, to: Square)
    requires OnBoard(from.row, from.col) && OnBoard(to.row, to.col) && from != to
    requires var cap := Square(CapturedPawnRow(turn, to.row), to.col); cap != from && cap != to
    ensures var b' := MoveBoard(b, turn, piece, from, to, false, true);
      At(b', CapturedPawnRow(turn, to.row), to.col).None? && At(b', to.row, to.col) == Some(piece) && At(b', from.row, from.col).None? &&
      forall r, c :: OnBoard(r, c) && Square(r, c) != from && Square(r, c) != to && Square(r, c) != Square(CapturedPawnRow(turn, to.row), to.col) ==>
        At(b', r, c) == At(b, r, c)
  {
  }

  /** Castling with a piece in the corner moves that piece from column 7 to
      toCol - 1, or from column 0 to toCol + 1. */
  lemma CastlingBoard(b: Board, turn: Color, piece: Piece, from: Square, to: Square)
    requires OnBoard(from.row, from.col) && to.row == from.row && (to.col == from.col + 2 || to.col == from.col - 2) && OnBoard(to.row, to.col)
    requires to.col == from.col + 2 ==> from.col + 3 <= 7
    requires to.col == from.col - 2 ==> from.col - 4 >= 0
    requires At(b, from.row, CastleRookFrom(from, to)).Some?
    ensures var b' := MoveBoard(b, turn, piece, from, to, true, false);
      var rookCol := if to.col > from.col then to.col - 1 else to.col + 1;
      At(b', from.row, rookCol) == At(b, from.row, if to.col > from.col then 7 else 0) &&
      At(b', from.row, if to.col > from.col then 7 else 0).None? &&
      At(b', to.row, to.col) == Some(piece) && At(b', from.row, from.col).None?
  {
  }

  /** For a move the legality filter generated and accepted, the board
      makeMove commits is the board the filter tested. */
  lemma CommitIsProbe(b: Board, turn: Color, r: int, c: int, piece: Piece, t: Target)
    requires OnBoard(r, c) && At(b, r, c) == Some(piece) && piece.color == turn
    requires WellShaped(b, r, c, piece, t) && !Simulate(b, turn, r, c, piece, t).simError
    ensures MoveBoard(b, turn, piece, Square(r, c), Square(t.row, t.col), t.isCastling, t.isEnPassant) ==
      Simulate(b, turn, r, c, piece, t).board
  {
    var m := MoveBoard(b, turn, piece, Square(r, c), Square(t.row, t.col), t.isCastling, t.isEnPassant);
    var s := Simulate(b, turn, r, c, piece, t).board;
    forall r', c' | OnBoard(r', c') ensures At(m, r', c') == At(s, r', c') {
    }
    BoardExt(m, s);
  }

  // ---------------------------------------------------------------------
  // finishMoveProcessing: castling rights.

  /** The rights update as written: the rook clauses run only when the
      moved piece is 'R', the white rook. */
  function RightsAfterAsWritten(rights: Rights, mover: Color, piece: Piece, captured: Cell, from: Square, to: Square): (r: Rights)
    ensures SubRights(r, rights)
  {
    var r1 := KingMoved(rights, piece);
    var r2 := if piece == Piece(White, Rook) then RookLeaves(r1, mover, from) else r1;
    RookCaptured(r2, mover, captured, to)
  }

  /** The rights update as intended, and as the search simulation does
      it: the rook clauses run for a rook of either colour. */
  function RightsAfter(rights: Rights, mover: Color, piece: Piece, captured: Cell, from: Square, to: Square): (r: Rights)
    ensures SubRights(r, rights)
  {
    var r1 := KingMoved(rights, piece);
    var r2 := if piece.kind == Rook then RookLeaves(r1, mover, from) else r1;
    RookCaptured(r2, mover, captured, to)
  }

  /** The right of `side` for the rook in column `col` of its home row is
      lost by this move: its king moved, its rook left that corner, or a
      rook was captured on that corner. */
  predicate Clears(side: Color, col: int, mover: Color, piece: Piece, captured: Cell, from: Square, to: Square)
  {
    piece == Piece(side, King) ||
    (piece.kind == Rook && mover == side && from == Square(HomeRow(side), col)) ||
    (captured.Some? && captured.value.kind == Rook && Opponent(mover) == side && to == Square(HomeRow(side), col))
  }

  /** Each right survives exactly when it was held and the move does not
      clear it. */
  lemma RightsAfterIff(rights: Rights, mover: Color, piece: Piece, captured: Cell, from: Square, to: Square, side: Color)
    ensures var r := RightsAfter(rights, mover, piece, captured, from, to);
      (KingSide(r, side) <==> KingSide(rights, side) && !Clears(side, 7, mover, piece, captured, from, to)) &&
      (QueenSide(r, side) <==> QueenSide(rights, side) && !Clears(side, 0, mover, piece, captured, from, to))
  {
  }

  /** As written, the rook-leaves clause clears a right only for the
      white rook: the moved piece must be 'R'. */
  predicate ClearsAsWritten(side: Color, col: int, mover: Color, piece: Piece, captured: Cell, from: Square, to: Square)
  {
    piece == Piece(side, King) ||
    (piece == Piece(White, Rook) && mover == side && from == Square(HomeRow(side), col)) ||
    (captured.Some? && captured.value.kind == Rook && Opponent(mover) == side && to == Square(HomeRow(side), col))
  }

  /** The update as written: each right survives exactly when it was held
      and the move does not clear it by the as-written clauses. */
  lemma RightsAfterAsWrittenIff(rights: Rights, mover: Color, piece: Piece, captured: Cell, from: Square, to: Square, side: Color)
    ensures var r := RightsAfterAsWritten(rights, mover, piece, captured, from, to);
      (KingSide(r, side) <==> KingSide(rights, side) && !ClearsAsWritten(side, 7, mover, piece, captured, from, to)) &&
      (QueenSide(r, side) <==> QueenSide(rights, side) && !ClearsAsWritten(side, 0, mover, piece, captured, from, to))
  {
  }

  /** When the mover moves its own piece, the update agrees with the one
      the search simulation uses. */
  lemma RightsAfterIsSimulated(rights: Rights, piece: Piece, captured: Cell, from: Square, to: Square)
    ensures RightsAfter(rights, piece.color, piece, captured, from, to) == UpdateRightsSim(rights, piece, captured, from, to)
  {
  }

  /** As written, a black rook leaving h8 keeps Black's kingside right. */
  lemma BlackRookKeepsRightAsWritten()
    ensures Clears(Black, 7, Black, Piece(Black, Rook), None, Square(0, 7), Square(4, 7))
    ensures RightsAfterAsWritten(AllRights, Black, Piece(Black, Rook), None, Square(0, 7), Square(4, 7)).bK
    ensures !RightsAfter(AllRights, Black, Piece(Black, Rook), None, Square(0, 7), Square(4, 7)).bK
  {
  }

  /** The two versions differ only for a black rook. */
  lemma AsWrittenDiffersOnlyForBlackRook(rights: Rights, mover: Color, piece: Piece, captured: Cell, from: Square, to: Square)
    requires piece != Piece(Black, Rook)
    ensures RightsAfterAsWritten(rights, mover, piece, captured, from, to) == RightsAfter(rights, mover, piece, captured, from, to)
  {
  }

  // ---------------------------------------------------------------------
  // finishMoveProcessing: en passant target, clocks, side to move.

  /** The square passed over by a two-row pawn advance, none otherwise. */
  function EpAfter(piece: Piece, from: Square, to: Square): (ep: Option<Square>)
    ensures ep.Some? <==> piece.kind == Pawn && AbsDiff(to.row, from.row) == 2
    ensures ep.Some? ==> ep.value.col == from.col && AbsDiff(ep.value.row, from.row) == 1 && AbsDiff(ep.value.row, to.row) == 1
  {
    if piece.kind == Pawn && AbsDiff(to.row, from.row) == 2 then Some(Square((from.row + to.row) / 2, from.col)) else None
  }

  /** The position finishMoveProcessing leaves, before its game-end test:
      `board` is the board already updated by the caller, `captured` the
      logical capture. */
  function AfterMove(pos: Position, board: Board, piece: Piece, captured: Cell, from: Square, to: Square): (p: Position)
    ensures p.board == board && p.turn == Opponent(pos.turn)
    ensures p.rights == RightsAfterAsWritten(pos.rights, pos.turn, piece, captured, from, to)
    ensures p.ep == EpAfter(piece, from, to)
  {
    Position(board, Opponent(pos.turn), RightsAfterAsWritten(pos.rights, pos.turn, piece, captured, from, to), EpAfter(piece, from, to),
             if piece.kind == Pawn || captured.Some? then 0 else pos.halfmove + 1,
             if pos.turn == Black then pos.fullmove + 1 else pos.fullmove)
  }

  /** The clocks: the halfmove clock restarts on a pawn move or any
      capture and otherwise counts on; the move number goes up after
      Black's move. */
  lemma AfterMoveClocks(pos: Position, board: Board, piece: Piece, captured: Cell, from: Square, to: Square)
    requires pos.halfmove >= 0
    ensures var p := AfterMove(pos, board, piece, captured, from, to);
      (p.halfmove == 0 <==> piece.kind == Pawn || captured.Some?) &&
      (p.halfmove != 0 ==> p.halfmove == pos.halfmove + 1) &&
      (p.fullmove == pos.fullmove + 1 <==> pos.turn == Black) && (pos.turn == White ==> p.fullmove == pos.fullmove)
  {
  }

  // ---------------------------------------------------------------------
  // finishMoveProcessing: the game-end test and the history entry.

  /** Whether the game is over after the move, and the mark appended to
      its notation: "#", "+" or nothing. */
  datatype Outcome = Outcome(gameOver: bool, mark: string)

  /** The end-of-move test on the new position `pos`, with the history as
      it stands before the push: mate and stalemate end the game (mate
      is marked '#'); otherwise check is marked '+', and the fifty-move
      rule, threefold repetition or insufficient material end it. */
  function Finish(history: seq<Entry>, index: int, pos: Position, wasOver: bool): (o: Outcome)
    requires index < |history|
    ensures wasOver ==> o.gameOver
  {
    match GameEndCondition(pos)
    case Checkmate => Outcome(true, "#")
    case Stalemate => Outcome(true, "")
    case NotOver =>
      Outcome(wasOver || pos.halfmove >= 100 || Threefold(history, index, pos) || InsufficientMaterial(pos.board),
              if KingInCheck(pos.board, pos.turn) then "+" else "")
  }

  /** The game ends after a move exactly when it was over already (the
      flag is only ever set), the side to move is mated or stalemated, the
      halfmove clock has reached 100, the position repeats threefold or
      the material is insufficient. The mark is '#' exactly on mate and
      '+' exactly on a check that is not mate. */
  lemma FinishIff(history: seq<Entry>, index: int, pos: Position, wasOver: bool)
    requires index < |history|
    ensures var o := Finish(history, index, pos, wasOver);
      (o.gameOver <==> wasOver || GameEndCondition(pos) != NotOver || pos.halfmove >= 100 || Threefold(history, index, pos) || InsufficientMaterial(pos.board)) &&
      (o.mark == "#" <==> GameEndCondition(pos) == Checkmate) &&
      (o.mark == "+" <==> GameEndCondition(pos) == NotOver && KingInCheck(pos.board, pos.turn)) &&
      (o.mark == "" <==> !KingInCheck(pos.board, pos.turn))
  {
    var end := GameEndCondition(pos);
    assert end == Checkmate ==> KingInCheck(pos.board, pos.turn);
    assert end == Stalemate ==> !KingInCheck(pos.board, pos.turn);
  }

  /** The history entry pushed for the move: the notation and the move
      number the mover had, written after the states up to the index. */
  function PushMove(history: seq<Entry>, index: int, pos: Position, base: string, o: Outcome, prevFullmove: int): (seq<Entry>, int)
    requires -1 <= index < |history|
  {
    Pushed(history, index, pos, MoveInfo(Some(base + o.mark), Some(prevFullmove), true))
  }

  /** Everything finishMoveProcessing leaves: `pos` is the state it is
      called in (the board already updated, `pos.turn` the side that
      moved), and the result is the new position, the history and index
      after the push, and the game-over flag. */
  function Finished(pos: Position, history: seq<Entry>, index: int, wasOver: bool, piece: Piece, captured: Cell,
                    from: Square, to: Square, base: string, prevFullmove: int): (r: (Position, seq<Entry>, int, bool))
    requires -1 <= index < |history|
    ensures r.0 == AfterMove(pos, pos.board, piece, captured, from, to)
    ensures r.3 == Finish(history, index, r.0, wasOver).gameOver
    ensures (r.1, r.2) == PushMove(history, index, r.0, base, Finish(history, index, r.0, wasOver), prevFullmove)
  {
    var p := AfterMove(pos, pos.board, piece, captured, from, to);
    var o := Finish(history, index, p, wasOver);
    var pushed := PushMove(history, index, p, base, o, prevFullmove);
    (p, pushed.0, pushed.1, o.gameOver)
  }

  /** After a move is committed, the new position is the last recorded
      state, right after the states up to the old index, and the index
      points to it. */
  lemma FinishedRecordsPosition(pos: Position, history: seq<Entry>, index: int, wasOver: bool, piece: Piece, captured: Cell,
                                from: Square, to: Square, base: string, prevFullmove: int)
    requires -1 <= index < |history|
    ensures var r := Finished(pos, history, index, wasOver, piece, captured, from, to, base, prevFullmove);
      r.2 == index + 1 && |r.1| == index + 2 && r.1[..index + 1] == history[..index + 1] && r.1[r.2].pos == r.0
  {
    var p := AfterMove(pos, pos.board, piece, captured, from, to);
    var o := Finish(history, index, p, wasOver);
    PushTruncates(history, index, p, MoveInfo(Some(base + o.mark), Some(prevFullmove), true));
  }

  // ---------------------------------------------------------------------
  // handleAIPromotion.

  /** The board after the AI promotes: the chosen piece, in the mover's
      colour, on the target, and the pawn's square emptied. */
  function PromotionBoard(b: Board, turn: Color, chosen: Kind, from: Square, to: Square): Board
  {
    SetAt(SetAt(b, to.row, to.col, Some(Piece(turn, chosen))), from.row, from.col, None)
  }

  /** handleAIPromotion goes ahead only for a pawn on the origin. */
  predicate PromotionAccepted(b: Board, from: Square)
  {
    At(b, from.row, from.col).Some? && At(b, from.row, from.col).value.kind == Pawn
  }

  lemma PromotionBoardEffect(b: Board, turn: Color, chosen: Kind, from: Square, to: Square)
    requires OnBoard(from.row, from.col) && OnBoard(to.row, to.col) && from != to
    ensures var b' := PromotionBoard(b, turn, chosen, from, to);
      At(b', to.row, to.col) == Some(Piece(turn, chosen)) && At(b', from.row, from.col).None? &&
      forall r, c :: OnBoard(r, c) && Square(r, c) != from && Square(r, c) != to ==> At(b', r, c) == At(b, r, c)
  {
  }

  // ---------------------------------------------------------------------
  // The castling-rights clauses, shared by finishMoveProcessing and
  // updateCastlingRightsSim.

  /** The king clauses: a king move clears both rights of its side. */
  method KingClauses(rights: Rights, movedPiece: Piece) returns (r: Rights)
    ensures r == KingMoved(rights, movedPiece)
  {
    r := rights;
    if movedPiece == Piece(White, King) { r := r.(wK := false, wQ := false); }
    if movedPiece == Piece(Black, King) { r := r.(bK := false, bQ := false); }
  }

  /** The clauses for a rook leaving a corner of its home row. */
  method RookLeavesClauses(rights: Rights, playerWhoMoved: Color, from: Square) returns (r: Rights)
    ensures r == RookLeaves(rights, playerWhoMoved, from)
  {
    r := rights;
    if playerWhoMoved == White {
      if from.row == 7 && from.col == 0 { r := r.(wQ := false); }
      if from.row == 7 && from.col == 7 { r := r.(wK := false); }
    } else {
      if from.row == 0 && from.col == 0 { r := r.(bQ := false); }
      if from.row == 0 && from.col == 7 { r := r.(bK := false); }
    }
  }

  /** The clauses for a rook captured on a corner of the opponent's home
      row. */
  method RookCapturedClauses(rights: Rights, playerWhoMoved: Color, capturedPieceLogical: Cell, to: Square) returns (r: Rights)
    ensures r == RookCaptured(rights, playerWhoMoved, capturedPieceLogical, to)
  {
    r := rights;
    if capturedPieceLogical.Some? && capturedPieceLogical.value.kind == Rook {
      var opponent := Opponent(playerWhoMoved);
      if opponent == White {
        if to.row == 7 && to.col == 0 { r := r.(wQ := false); }
        if to.row == 7 && to.col == 7 { r := r.(wK := false); }
      } else {
        if to.row == 0 && to.col == 0 { r := r.(bQ := false); }
        if to.row == 0 && to.col == 7 { r := r.(bK := false); }
      }
    }
  }
}
