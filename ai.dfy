/** aiPlayer.js on the engine's state: getAllLegalMoves, evaluateBoard,
    updateCastlingRightsSim, minimax with its in-place simulation and
    undo, and calculateBestMove. Each works on the shared GameState, like
    the globals of aiPlayer.js, and is proved equal to the functions of
    the Evaluation, Search and Strategy modules. */
module Ai {
  import opened Pieces
  import opened Boards
  import opened Attacks
  import opened Geometry
  import opened Legality
  import opened Evaluation
  import opened Search
  import opened Strategy
  import opened Commit
  import opened Game

  /** getAllLegalMoves(player): the legal moves of every piece of `player`,
      square by square, with `player` put to move while they are generated
      and the side to move restored afterwards. */
  method GetAllLegalMoves(g: GameState, player: Color) returns (allMoves: seq<AiMove>)
    requires g.Valid()
    modifies g.board, g`cells, g`turn, g`rights, g`ep
    ensures g.Valid() && g.State() == old(g.State())
    ensures allMoves == AllLegalMoves(old(g.State()), player)
  {
    ghost var start := g.State();
    ghost var pos := start.(turn := player);
    allMoves := [];
    var originalPlayer := g.turn;
    g.SetTurn(player);
    for r := 0 to 8
      invariant g.Valid() && g.State() == pos
      invariant allMoves == RowsBefore(pos, r)
    {
      allMoves := CollectRow(g, player, r, allMoves);
      RowsBeforeStep(pos, r);
    }
    assert allMoves == AllLegalMoves(start, player);
    g.SetTurn(originalPlayer);
  }

  /** The inner loop of getAllLegalMoves, over the columns of row r. */
  method CollectRow(g: GameState, player: Color, r: int, allMoves: seq<AiMove>) returns (allMoves': seq<AiMove>)
    requires g.Valid() && g.turn == player && 0 <= r < 8
    modifies g.board, g`cells, g`turn, g`rights, g`ep
    ensures g.Valid() && g.State() == old(g.State())
    ensures allMoves' == allMoves + RowMoves(old(g.State()), r, 8)
  {
    ghost var pos := g.State();
    allMoves' := allMoves;
    for c := 0 to 8
      invariant g.Valid() && g.State() == pos
      invariant allMoves' == allMoves + RowMoves(pos, r, c)
    {
      ghost var sofar := allMoves';
      allMoves' := CollectSquare(g, player, r, c, allMoves');
      RowMovesAppend(pos, r, c, allMoves, sofar);
    }
  }

  /** The loop body of getAllLegalMoves: the legal moves of the piece on
      (r, c), when it belongs to `player`, the side to move. */
  method CollectSquare(g: GameState, player: Color, r: int, c: int, allMoves: seq<AiMove>) returns (allMoves': seq<AiMove>)
    requires g.Valid() && g.turn == player && OnBoard(r, c)
    modifies g.board, g`cells, g`turn, g`rights, g`ep
    ensures g.Valid() && g.State() == old(g.State())
    ensures allMoves' == allMoves + PieceMoves(old(g.State()), r, c)
  {
    allMoves' := allMoves;
    var piece := g.GetPieceAt(r, c);
    if piece.Some? && piece.value.color == player {
      var moves := g.GenerateLegalMoves(r, c);
      allMoves' := PushTagged(allMoves, r, c, piece.value, moves);
    }
  }

  /** The forEach of getAllLegalMoves: each move of the piece on (r, c)
      pushed with its origin and the piece. */
  method PushTagged(allMoves: seq<AiMove>, r: int, c: int, piece: Piece, moves: seq<Target>) returns (allMoves': seq<AiMove>)
    ensures allMoves' == allMoves + TagAll(r, c, piece, moves)
  {
    allMoves' := allMoves;
    for j := 0 to |moves|
      invariant allMoves' == allMoves + TagAll(r, c, piece, moves[..j])
    {
      TagAllSnoc(r, c, piece, moves, j);
      var move := moves[j];
      allMoves' := allMoves' + [AiMove(Square(r, c), Square(move.row, move.col), piece,
                                       move.isPromotion, move.isCastling, move.isEnPassant)];
    }
    assert moves[..|moves|] == moves;
  }

  /** evaluateBoard: the four running sums over the board in row-major
      order, then material difference plus a tenth of the positional
      difference. */
  method EvaluateBoard(g: GameState) returns (score: real)
    requires g.Valid()
    ensures score == Evaluate(g.cells)
  {
    var whiteMaterial, blackMaterial, whitePositional, blackPositional := 0.0, 0.0, 0.0, 0.0;
    for r := 0 to 8
      invariant Sums(whiteMaterial, blackMaterial, whitePositional, blackPositional) == SumsUpTo(g.cells, 8 * r)
    {
      for c := 0 to 8
        invariant Sums(whiteMaterial, blackMaterial, whitePositional, blackPositional) == SumsUpTo(g.cells, 8 * r + c)
      {
        SumsStep(g.cells, r, c);
        whiteMaterial, blackMaterial, whitePositional, blackPositional :=
          AddSquare(g, r, c, whiteMaterial, blackMaterial, whitePositional, blackPositional);
      }
    }
    score := (whiteMaterial - blackMaterial) + (whitePositional - blackPositional) * 0.1;
  }

  /** The loop body of evaluateBoard: the piece on (r, c), if any, adds
      its value and its table score to its side's sums. */
  method AddSquare(g: GameState, r: int, c: int, whiteMaterial: real, blackMaterial: real, whitePositional: real, blackPositional: real)
    returns (whiteMaterial': real, blackMaterial': real, whitePositional': real, blackPositional': real)
    requires g.Valid() && OnBoard(r, c)
    ensures Sums(whiteMaterial', blackMaterial', whitePositional', blackPositional') ==
      Plus(Sums(whiteMaterial, blackMaterial, whitePositional, blackPositional), SquareSums(At(g.cells, r, c), r, c))
  {
    whiteMaterial', blackMaterial', whitePositional', blackPositional' := whiteMaterial, blackMaterial, whitePositional, blackPositional;
    var piece := g.GetPieceAt(r, c);
    if piece.Some? {
      var player := piece.value.color;
      var value := PieceValue(piece.value.kind);
      var tableRow := if player == White then r else 7 - r;
      var positionScore := TableScore(piece.value.kind, tableRow, c);
      if player == White {
        whiteMaterial' := whiteMaterial + value;
        whitePositional' := whitePositional + positionScore;
      } else {
        blackMaterial' := blackMaterial + value;
        blackPositional' := blackPositional + positionScore;
      }
    }
  }

  /** updateCastlingRightsSim: writes the rights the search simulation
      keeps after `piece` moves from `from` to `to`, capturing `captured`. */
  method UpdateCastlingRightsSim(g: GameState, piece: Piece, captured: Cell, from: Square, to: Square)
    requires g.Valid()
    modifies g`rights
    ensures g.Valid() && g.rights == UpdateRightsSim(old(g.rights), piece, captured, from, to)
  {
    var rights := KingClauses(g.rights, piece);
    if piece.kind == Rook {
      rights := RookLeavesClauses(rights, piece.color, from);
    }
    rights := RookCapturedClauses(rights, piece.color, captured, to);
    g.SetRights(rights);
  }

  // ---------------------------------------------------------------------
  // minimax.

  /** What minimax keeps to undo one simulated move. */
  datatype Saved = Saved(piece: Piece, captured: Cell, rights: Rights, ep: Option<Square>,
                         halfmove: int, fullmove: int, player: Color, capturedEnPassant: Cell)

  function SavedFor(pos: Position, m: AiMove): Saved
  {
    Saved(m.piece, At(pos.board, m.to.row, m.to.col), pos.rights, pos.ep, pos.halfmove, pos.fullmove,
          pos.turn, EnPassantVictim(pos.board, m))
  }

  /** The simulation of minimax: the piece to the target, the pawn beside
      the origin taken on an en passant move, the rights, en passant target
      and clocks updated, and the opponent of `player` put to move. */
  method SimulateSearchMove(g: GameState, move: AiMove, player: Color) returns (saved: Saved)
    requires g.Valid() && SearchSafe(g.cells, move)
    modifies g.board, g`cells, g`turn, g`rights, g`ep, g`halfmove, g`fullmove
    ensures g.Valid() && g.State() == ChildPosition(old(g.State()), player, move)
    ensures saved == SavedFor(old(g.State()), move)
  {
    ghost var start := g.State();
    var prevCastling, prevEnPassant := g.rights, g.ep;
    var prevHalfmove, prevFullmove, prevCurrentPlayer := g.halfmove, g.fullmove, g.turn;
    var piece, captured, capturedEnPassant := ApplySearchBoard(g, move);
    UpdateCastlingRightsSim(g, piece.value, captured, move.from, move.to);
    var ep := if piece.value.kind == Pawn && AbsDiff(move.to.row, move.from.row) == 2
      then Some(Square((move.from.row + move.to.row) / 2, move.from.col)) else None;
    var halfmove := if piece.value.kind == Pawn || captured.Some? || move.isEnPassant then 0 else g.halfmove + 1;
    var fullmove := if prevCurrentPlayer == Black then g.fullmove + 1 else g.fullmove;
    g.SetSearchFields(Opponent(player), ep, halfmove, fullmove);
    saved := Saved(piece.value, captured, prevCastling, prevEnPassant, prevHalfmove, prevFullmove,
                   prevCurrentPlayer, capturedEnPassant);
  }

  /** The board changes of the minimax simulation: the piece to the
      target, and the pawn beside the origin taken on en passant. The
      origin, target and taken pawn are returned for the undo. */
  method ApplySearchBoard(g: GameState, move: AiMove) returns (piece: Cell, captured: Cell, capturedEnPassant: Cell)
    requires g.Valid() && SearchSafe(g.cells, move)
    modifies g.board, g`cells
    ensures g.Valid() && g.cells == ChildBoard(old(g.cells), move)
    ensures piece == At(old(g.cells), move.from.row, move.from.col) && captured == At(old(g.cells), move.to.row, move.to.col)
    ensures capturedEnPassant == (if move.isEnPassant then At(old(g.cells), move.from.row, move.to.col) else None)
  {
    ghost var b := g.cells;
    piece := g.GetPieceAt(move.from.row, move.from.col);
    captured := g.GetPieceAt(move.to.row, move.to.col);
    capturedEnPassant := None;
    g.SetPieceAt(move.to.row, move.to.col, piece);
    g.SetPieceAt(move.from.row, move.from.col, None);
    if move.isEnPassant {
      capturedEnPassant := g.GetPieceAt(move.from.row, move.to.col);
      if capturedEnPassant.Some? {
        g.SetPieceAt(move.from.row, move.to.col, None);
      }
    }
    assert g.cells == ChildBoard(b, move);
  }

  /** The undo of minimax: the saved fields back, then the board. */
  method UndoSearchMove(g: GameState, move: AiMove, saved: Saved, ghost before: Position)
    requires g.Valid() && SearchSafe(before.board, move) && saved == SavedFor(before, move)
    requires g.cells == ChildBoard(before.board, move)
    modifies g.board, g`cells, g`turn, g`rights, g`ep, g`halfmove, g`fullmove
    ensures g.Valid() && g.State() == before
  {
    g.SetSearchFields(saved.player, saved.ep, saved.halfmove, saved.fullmove);
    g.SetRights(saved.rights);
    g.SetPieceAt(move.from.row, move.from.col, Some(saved.piece));
    g.SetPieceAt(move.to.row, move.to.col, saved.captured);
    if move.isEnPassant && saved.capturedEnPassant.Some? {
      g.SetPieceAt(move.from.row, move.to.col, saved.capturedEnPassant);
    }
    UndoChildRestores(before.board, move);
  }

  /** minimax(depth, alpha, beta, maximizingPlayer): the side of the node
      is White when maximising. A node without legal moves scores mate or
      stalemate, depth 0 scores evaluateBoard, and otherwise every child in
      the node's order is simulated, searched and undone, until
      beta <= alpha. The state is as it was when it returns. */
  method Minimax(g: GameState, depth: nat, alpha: Score, beta: Score, maximizing: bool, path: seq<AiMove>, order: Order)
    returns (result: SearchResult)
    requires g.Valid() && IsShuffle(order)
    modifies g.board, g`cells, g`turn, g`rights, g`ep, g`halfmove, g`fullmove
    ensures g.Valid() && g.State() == old(g.State())
    ensures result == Search.Minimax(old(g.State()), depth, alpha, beta, maximizing, path, order)
    decreases depth, 2
  {
    ghost var start := g.State();
    var playerToEvaluate := if maximizing then White else Black;
    var possibleMoves := GetAllLegalMoves(g, playerToEvaluate);
    var isInCheck := g.IsKingInCheck(playerToEvaluate);
    if |possibleMoves| == 0 {
      if isInCheck {
        return SearchResult(if maximizing then NegInf else PosInf, None);
      } else {
        return SearchResult(Fin(0.0), None);
      }
    }
    if depth == 0 {
      var nodeValue := EvaluateBoard(g);
      return SearchResult(Fin(nodeValue), None);
    }
    var orderedMoves := order(Node(path), possibleMoves);
    if maximizing {
      result := MaxNode(g, depth, alpha, beta, path, order, possibleMoves, orderedMoves);
    } else {
      result := MinNode(g, depth, alpha, beta, path, order, possibleMoves, orderedMoves);
    }
  }

  /** One child of a minimax node: the move simulated for `player`, the
      child searched one level shallower with the window (alpha, beta), and
      the move undone. */
  method SearchChild(g: GameState, depth: nat, alpha: Score, beta: Score, maximizing: bool, path: seq<AiMove>, order: Order,
                     move: AiMove, player: Color) returns (evaluation: Score)
    requires g.Valid() && IsShuffle(order) && depth >= 1 && SearchSafe(g.cells, move)
    modifies g.board, g`cells, g`turn, g`rights, g`ep, g`halfmove, g`fullmove
    ensures g.Valid() && g.State() == old(g.State())
    ensures evaluation == Search.Minimax(ChildPosition(old(g.State()), player, move), depth - 1, alpha, beta, maximizing,
                                         path + [move], order).score
    decreases depth, 0
  {
    ghost var start := g.State();
    var saved := SimulateSearchMove(g, move, player);
    var result := Minimax(g, depth - 1, alpha, beta, maximizing, path + [move], order);
    evaluation := result.score;
    UndoSearchMove(g, move, saved, start);
  }

  /** The maximising loop of minimax over the ordered moves. */
  method MaxNode(g: GameState, depth: nat, alpha: Score, beta: Score, path: seq<AiMove>, order: Order,
                 ghost moves: seq<AiMove>, orderedMoves: seq<AiMove>) returns (result: SearchResult)
    requires g.Valid() && IsShuffle(order) && depth >= 1
    requires moves == AllLegalMoves(g.State(), White) && orderedMoves == order(Node(path), moves)
    modifies g.board, g`cells, g`turn, g`rights, g`ep, g`halfmove, g`fullmove
    ensures g.Valid() && g.State() == old(g.State())
    ensures result == MaxLoop(old(g.State()), depth, alpha, beta, path, order, orderedMoves, 0, NegInf, None)
    decreases depth, 1
  {
    ghost var start := g.State();
    var maxEval := NegInf;
    var bestMoveForNode: Option<AiMove> := None;
    var a := alpha;
    var i := 0;
    while i < |orderedMoves|
      invariant 0 <= i <= |orderedMoves| && g.Valid() && g.State() == start
      invariant MaxLoop(start, depth, a, beta, path, order, orderedMoves, i, maxEval, bestMoveForNode) ==
                MaxLoop(start, depth, alpha, beta, path, order, orderedMoves, 0, NegInf, None)
      decreases |orderedMoves| - i
    {
      var move := orderedMoves[i];
      ShuffleKeeps(order, Node(path), moves, move);
      LegalMoveIsSafe(start, White, move);
      var evaluation := SearchChild(g, depth, a, beta, false, path, order, move, White);
      MaxLoopStep(start, depth, a, beta, path, order, orderedMoves, i, maxEval, bestMoveForNode, evaluation);
      if Lt(maxEval, evaluation) {
        maxEval := evaluation;
        bestMoveForNode := Some(move);
      }
      a := Max(a, evaluation);
      if Le(beta, a) {
        return SearchResult(maxEval, bestMoveForNode);
      }
      i := i + 1;
    }
    return SearchResult(maxEval, bestMoveForNode);
  }

  /** The minimising loop of minimax over the ordered moves. */
  method MinNode(g: GameState, depth: nat, alpha: Score, beta: Score, path: seq<AiMove>, order: Order,
                 ghost moves: seq<AiMove>, orderedMoves: seq<AiMove>) returns (result: SearchResult)
    requires g.Valid() && IsShuffle(order) && depth >= 1
    requires moves == AllLegalMoves(g.State(), Black) && orderedMoves == order(Node(path), moves)
    modifies g.board, g`cells, g`turn, g`rights, g`ep, g`halfmove, g`fullmove
    ensures g.Valid() && g.State() == old(g.State())
    ensures result == MinLoop(old(g.State()), depth, alpha, beta, path, order, orderedMoves, 0, PosInf, None)
    decreases depth, 1
  {
    ghost var start := g.State();
    var minEval := PosInf;
    var bestMoveForNode: Option<AiMove> := None;
    var b := beta;
    var i := 0;
    while i < |orderedMoves|
      invariant 0 <= i <= |orderedMoves| && g.Valid() && g.State() == start
      invariant MinLoop(start, depth, alpha, b, path, order, orderedMoves, i, minEval, bestMoveForNode) ==
                MinLoop(start, depth, alpha, beta, path, order, orderedMoves, 0, PosInf, None)
      decreases |orderedMoves| - i
    {
      var move := orderedMoves[i];
      ShuffleKeeps(order, Node(path), moves, move);
      LegalMoveIsSafe(start, Black, move);
      var evaluation := SearchChild(g, depth, alpha, b, true, path, order, move, Black);
      MinLoopStep(start, depth, alpha, b, path, order, orderedMoves, i, minEval, bestMoveForNode, evaluation);
      if Lt(evaluation, minEval) {
        minEval := evaluation;
        bestMoveForNode := Some(move);
      }
      b := Min(b, evaluation);
      if Le(b, alpha) {
        return SearchResult(minEval, bestMoveForNode);
      }
      i := i + 1;
    }
    return SearchResult(minEval, bestMoveForNode);
  }

  // ---------------------------------------------------------------------
  // calculateBestMove.

  /** The filter callback of level 0: a capture is kept; otherwise the
      piece is slid to the target, the target is tested for attacks by the
      opponent of the side to move, and the origin and target are put
      back. */
  method IsNotHanging(g: GameState, move: AiMove) returns (keep: bool)
    requires g.Valid() && SearchSafe(g.cells, move)
    modifies g.board, g`cells
    ensures g.Valid() && g.cells == old(g.cells)
    ensures keep == NotHanging(old(g.State()), move)
  {
    ghost var b := g.cells;
    var captured := g.GetPieceAt(move.to.row, move.to.col);
    if captured.Some? {
      return true;
    }
    var piece := g.GetPieceAt(move.from.row, move.from.col);
    g.SetPieceAt(move.to.row, move.to.col, piece);
    g.SetPieceAt(move.from.row, move.from.col, None);
    assert g.cells == Slid(b, move);
    var isHanging := false;
    var opponent := Opponent(g.turn);
    var attacked := g.IsSquareAttacked(move.to.row, move.to.col, opponent);
    if attacked {
      isHanging := true;
    }
    g.SetPieceAt(move.from.row, move.from.col, piece);
    g.SetPieceAt(move.to.row, move.to.col, None);
    ProbeRestores(b, move);
    return !isHanging;
  }

  /** shuffledMoves.filter of level 0. */
  method FilterNonLosing(g: GameState, shuffledMoves: seq<AiMove>) returns (nonLosingMoves: seq<AiMove>)
    requires g.Valid() && forall i :: 0 <= i < |shuffledMoves| ==> SearchSafe(g.cells, shuffledMoves[i])
    modifies g.board, g`cells
    ensures g.Valid() && g.cells == old(g.cells)
    ensures nonLosingMoves == NonLosing(old(g.State()), shuffledMoves)
  {
    ghost var start := g.State();
    ghost var answers: seq<bool> := [];
    nonLosingMoves := [];
    for i := 0 to |shuffledMoves|
      invariant g.Valid() && g.State() == start && |answers| == i
      invariant forall j :: 0 <= j < i ==> answers[j] == NotHanging(start, shuffledMoves[j])
      invariant nonLosingMoves == Select(shuffledMoves, answers, i)
    {
      var keep := IsNotHanging(g, shuffledMoves[i]);
      SelectExtend(shuffledMoves, answers, keep, i);
      ghost var answers' := answers + [keep];
      forall j | 0 <= j < i + 1 ensures answers'[j] == NotHanging(start, shuffledMoves[j]) {
        if j < i {
          assert answers'[j] == answers[j];
        }
      }
      answers := answers';
      if keep {
        nonLosingMoves := nonLosingMoves + [shuffledMoves[i]];
      }
    }
    SelectIsNonLosing(start, shuffledMoves, answers, |shuffledMoves|);
  }

  /** shuffledMoves.filter of level 1: a piece on the target, or en
      passant. */
  method FilterCaptures(g: GameState, shuffledMoves: seq<AiMove>) returns (captureMoves: seq<AiMove>)
    requires g.Valid()
    ensures captureMoves == Captures(g.State(), shuffledMoves)
  {
    captureMoves := [];
    for i := 0 to |shuffledMoves|
      invariant captureMoves == CapturesUpTo(g.State(), shuffledMoves, i)
    {
      var move := shuffledMoves[i];
      var target := g.GetPieceAt(move.to.row, move.to.col);
      if target.Some? || move.isEnPassant {
        captureMoves := captureMoves + [move];
      }
    }
  }

  /** The forEach body of level 2: the move simulated (piece slid, the pawn
      behind the target taken on en passant, the en passant target set for
      a double step), evaluateBoard, and everything put back. */
  method OnePlyEvaluation(g: GameState, move: AiMove) returns (score: real)
    requires g.Valid() && SearchSafe(g.cells, move)
    modifies g.board, g`cells, g`turn, g`ep, g`halfmove, g`fullmove
    ensures g.Valid() && g.State() == old(g.State())
    ensures score == OnePlyScore(old(g.State()), move)
  {
    ghost var start := g.State();
    var prevEnPassant := g.ep;
    var piece, captured, capturedEnPassant := ApplyOnePly(g, move);
    var ep := if piece.value.kind == Pawn && AbsDiff(move.to.row, move.from.row) == 2
      then Some(Square((move.from.row + move.to.row) / 2, move.from.col)) else None;
    g.SetSearchFields(g.turn, ep, g.halfmove, g.fullmove);
    score := EvaluateBoard(g);
    assert score == OnePlyScore(start, move);
    g.SetSearchFields(g.turn, prevEnPassant, g.halfmove, g.fullmove);
    assert g.turn == start.turn && g.ep == start.ep && g.halfmove == start.halfmove && g.fullmove == start.fullmove;
    UndoOnePly(g, start, move, piece, captured, capturedEnPassant);
  }

  /** The board changes of the level-2 simulation: the piece slid, and
      the pawn behind the target taken on en passant. The origin, target
      and taken pawn are returned for the undo. */
  method ApplyOnePly(g: GameState, move: AiMove) returns (piece: Cell, captured: Cell, capturedEnPassant: Cell)
    requires g.Valid() && SearchSafe(g.cells, move)
    modifies g.board, g`cells
    ensures g.Valid() && g.cells == OnePlyBoard(old(g.State()), move)
    ensures piece == At(old(g.cells), move.from.row, move.from.col) && captured == At(old(g.cells), move.to.row, move.to.col)
    ensures capturedEnPassant == OnePlyVictim(old(g.State()), move)
  {
    ghost var start := g.State();
    piece := g.GetPieceAt(move.from.row, move.from.col);
    captured := g.GetPieceAt(move.to.row, move.to.col);
    capturedEnPassant := None;
    var capRow := CapturedPawnRow(g.turn, move.to.row);
    g.SetPieceAt(move.to.row, move.to.col, piece);
    g.SetPieceAt(move.from.row, move.from.col, None);
    assert g.cells == Slid(start.board, move);
    if move.isEnPassant {
      capturedEnPassant := g.GetPieceAt(capRow, move.to.col);
      if capturedEnPassant.Some? {
        g.SetPieceAt(capRow, move.to.col, None);
      }
    }
  }

  /** The undo of the level-2 simulation: origin, target, then the pawn
      taken en passant. */
  method UndoOnePly(g: GameState, ghost start: Position, move: AiMove, piece: Cell, captured: Cell, capturedEnPassant: Cell)
    requires g.Valid() && SearchSafe(start.board, move) && g.turn == start.turn && g.cells == OnePlyBoard(start, move)
    requires piece == At(start.board, move.from.row, move.from.col) && captured == At(start.board, move.to.row, move.to.col)
    requires capturedEnPassant == OnePlyVictim(start, move)
    modifies g.board, g`cells
    ensures g.Valid() && g.cells == start.board
  {
    var capRow := CapturedPawnRow(g.turn, move.to.row);
    g.SetPieceAt(move.from.row, move.from.col, piece);
    g.SetPieceAt(move.to.row, move.to.col, captured);
    if move.isEnPassant && capturedEnPassant.Some? {
      g.SetPieceAt(capRow, move.to.col, capturedEnPassant);
    }
    OnePlyRestores(start, move);
  }

  /** What the level-2 scan holds after `i` moves: the infinity of the
      side to move and no move before the first, then the move and score
      of BestOnePly. */
  ghost predicate MediumScan(pos: Position, ms: seq<AiMove>, i: nat, white: bool, bestScore: Score, currentBestMove: Option<AiMove>)
    requires i <= |ms|
  {
    var r := BestOnePly(pos, ms, i);
    (i == 0 ==> currentBestMove.None? && bestScore == (if white then NegInf else PosInf)) &&
    (i > 0 ==> currentBestMove == Some(r.value.0) && bestScore == Fin(r.value.1))
  }

  /** Level 2: the first move with the best one-ply score for the side to
      move, the scan starting from the infinity every score beats, and the
      first shuffled move when none was selected. */
  method MediumMove(g: GameState, shuffledMoves: seq<AiMove>) returns (bestMove: AiMove)
    requires g.Valid() && |shuffledMoves| > 0
    requires forall i :: 0 <= i < |shuffledMoves| ==> SearchSafe(g.cells, shuffledMoves[i])
    modifies g.board, g`cells, g`turn, g`ep, g`halfmove, g`fullmove
    ensures g.Valid() && g.State() == old(g.State())
    ensures bestMove == Level2(old(g.State()), shuffledMoves)
  {
    ghost var start := g.State();
    var white := g.turn == White;
    var bestScore := if white then NegInf else PosInf;
    var currentBestMove: Option<AiMove> := None;
    for i := 0 to |shuffledMoves|
      invariant g.Valid() && g.State() == start
      invariant forall j :: 0 <= j < |shuffledMoves| ==> SearchSafe(start.board, shuffledMoves[j])
      invariant MediumScan(start, shuffledMoves, i, white, bestScore, currentBestMove)
    {
      bestScore, currentBestMove := MediumStep(g, start, shuffledMoves, i, white, bestScore, currentBestMove);
    }
    bestMove := shuffledMoves[0];
    if currentBestMove.Some? {
      bestMove := currentBestMove.value;
    }
  }

  /** One pass of the level 2 loop: evaluate the i-th move and keep it when
      it scores better. */
  method MediumStep(g: GameState, ghost start: Position, shuffledMoves: seq<AiMove>, i: nat, white: bool,
                    bestScore: Score, currentBestMove: Option<AiMove>) returns (bestScore': Score, currentBestMove': Option<AiMove>)
    requires g.Valid() && g.State() == start && i < |shuffledMoves| && white == (start.turn == White)
    requires SearchSafe(start.board, shuffledMoves[i])
    requires MediumScan(start, shuffledMoves, i, white, bestScore, currentBestMove)
    modifies g.board, g`cells, g`turn, g`ep, g`halfmove, g`fullmove
    ensures g.Valid() && g.State() == start
    ensures MediumScan(start, shuffledMoves, i + 1, white, bestScore', currentBestMove')
  {
    var move := shuffledMoves[i];
    var score := OnePlyEvaluation(g, move);
    bestScore', currentBestMove' := KeepBetter(white, bestScore, currentBestMove, score, move);
    BestOnePlyStep(start, shuffledMoves, i);
  }

  /** The comparison of level 2: White keeps a higher score, Black a lower
      one. */
  method KeepBetter(white: bool, bestScore: Score, currentBestMove: Option<AiMove>, score: real, move: AiMove)
    returns (bestScore': Score, currentBestMove': Option<AiMove>)
    ensures var better := if white then Lt(bestScore, Fin(score)) else Lt(Fin(score), bestScore);
      (better ==> bestScore' == Fin(score) && currentBestMove' == Some(move)) &&
      (!better ==> bestScore' == bestScore && currentBestMove' == currentBestMove)
  {
    bestScore', currentBestMove' := bestScore, currentBestMove;
    if white {
      if Lt(bestScore, Fin(score)) {
        bestScore', currentBestMove' := Fin(score), Some(move);
      }
    } else {
      if Lt(Fin(score), bestScore) {
        bestScore', currentBestMove' := Fin(score), Some(move);
      }
    }
  }

  /** calculateBestMove(difficulty): null without a legal move; otherwise
      the choice of the level, from the moves in the order of the first
      shuffle. The fallback of level 3, a call of calculateBestMove(2), is
      written out: the moves generated again, a second shuffle, level 2. */
  method CalculateBestMove(g: GameState, difficulty: int, order: Order) returns (bestMove: Option<AiMove>)
    requires g.Valid() && IsShuffle(order)
    modifies g.board, g`cells, g`turn, g`rights, g`ep, g`halfmove, g`fullmove
    ensures g.Valid() && g.State() == old(g.State())
    ensures bestMove == BestMove(old(g.State()), difficulty, order)
  {
    ghost var start := g.State();
    var availableMoves := GetAllLegalMoves(g, g.turn);
    if |availableMoves| == 0 {
      return None;
    }
    var shuffledMoves := order(Pick, availableMoves);
    ShuffledAreSafe(start, order, Pick);
    bestMove := Some(shuffledMoves[0]);
    if difficulty == 0 {
      var nonLosingMoves := FilterNonLosing(g, shuffledMoves);
      if |nonLosingMoves| > 0 {
        bestMove := Some(nonLosingMoves[0]);
      }
    } else if difficulty == 1 {
      var captureMoves := FilterCaptures(g, shuffledMoves);
      if |captureMoves| > 0 {
        bestMove := Some(captureMoves[0]);
      }
    } else if difficulty == 2 {
      var m := MediumMove(g, shuffledMoves);
      bestMove := Some(m);
    } else if difficulty == 3 {
      var result := Minimax(g, 3, NegInf, PosInf, g.turn == White, [], order);
      if result.move.Some? {
        bestMove := result.move;
      } else {
        var again := GetAllLegalMoves(g, g.turn);
        if |again| > 0 {
          var reshuffled := order(Fallback, again);
          ShuffledAreSafe(start, order, Fallback);
          var m := MediumMove(g, reshuffled);
          bestMove := Some(m);
        }
      }
    }
  }
}
