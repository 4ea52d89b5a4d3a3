/** minimax of aiPlayer.js as functions of a position value: the child
    position its simulation produces (no rook move on castling, no
    promotion), the castling-rights update of that simulation, and the
    alpha-beta search itself. A plain minimax without pruning is the
    reference the search is proved against. */
module Search {
  import opened Pieces
  import opened Boards
  import opened Attacks
  import opened Legality
  import opened Evaluation

  // ---------------------------------------------------------------------
  // Scores: the reals with both infinities.

  datatype Score = NegInf | Fin(v: real) | PosInf

  predicate Le(a: Score, b: Score)
  {
    a.NegInf? || b.PosInf? || (a.Fin? && b.Fin? && a.v <= b.v)
  }

  predicate Lt(a: Score, b: Score) { !Le(b, a) }

  /** Math.max and Math.min. */
  function Max(a: Score, b: Score): (m: Score)
    ensures Le(a, m) && Le(b, m) && (m == a || m == b)
  {
    if Le(a, b) then b else a
  }

  function Min(a: Score, b: Score): (m: Score)
    ensures Le(m, a) && Le(m, b) && (m == a || m == b)
  {
    if Le(a, b) then a else b
  }

  lemma LeTrans(a: Score, b: Score, c: Score)
    requires Le(a, b) && Le(b, c)
    ensures Le(a, c)
  {
  }

  lemma LeAntisym(a: Score, b: Score)
    requires Le(a, b) && Le(b, a)
    ensures a == b
  {
  }

  lemma MaxAssoc(a: Score, b: Score, c: Score)
    ensures Max(Max(a, b), c) == Max(a, Max(b, c))
  {
    if Le(a, b) && Le(b, c) { LeTrans(a, b, c); }
    if !Le(a, b) && !Le(b, c) { assert Le(c, b) && Le(b, a); LeTrans(c, b, a); }
  }

  lemma MinAssoc(a: Score, b: Score, c: Score)
    ensures Min(Min(a, b), c) == Min(a, Min(b, c))
  {
    if Le(a, b) && Le(b, c) { LeTrans(a, b, c); }
    if !Le(a, b) && !Le(b, c) { assert Le(c, b) && Le(b, a); LeTrans(c, b, a); }
  }

  // ---------------------------------------------------------------------
  // One simulated move.

  /** The home row of a side's king and rooks. */
  function HomeRow(p: Color): int { if p == White then 7 else 0 }

  /** The clauses for a rook leaving `from`, by the side that moved: leaving
      a corner of its home row clears that side's right. */
  function RookLeaves(rights: Rights, mover: Color, from: Square): Rights
  {
    if mover == White then
      rights.(wQ := if from == Square(7, 0) then false else rights.wQ, wK := if from == Square(7, 7) then false else rights.wK)
    else
      rights.(bQ := if from == Square(0, 0) then false else rights.bQ, bK := if from == Square(0, 7) then false else rights.bK)
  }

  /** The clauses for a rook of either case captured on `to`: the
      opponent's corner there loses its right. */
  function RookCaptured(rights: Rights, mover: Color, captured: Cell, to: Square): Rights
  {
    if captured.None? || captured.value.kind != Rook then rights
    else if Opponent(mover) == White then
      rights.(wQ := if to == Square(7, 0) then false else rights.wQ, wK := if to == Square(7, 7) then false else rights.wK)
    else
      rights.(bQ := if to == Square(0, 0) then false else rights.bQ, bK := if to == Square(0, 7) then false else rights.bK)
  }

  /** The king clauses: 'K' clears White's rights, 'k' Black's. */
  function KingMoved(rights: Rights, piece: Piece): Rights
  {
    if piece == Piece(White, King) then rights.(wK := false, wQ := false)
    else if piece == Piece(Black, King) then rights.(bK := false, bQ := false)
    else rights
  }

  /** updateCastlingRightsSim: a king move clears both of the mover's
      rights, a rook leaving its own corner clears that side, and a rook
      captured on one of the opponent's corners clears that side of the
      opponent. The rook tests ignore the colour of the rook. */
  function UpdateRightsSim(rights: Rights, piece: Piece, captured: Cell, from: Square, to: Square): (r: Rights)
    ensures SubRights(r, rights)
    ensures piece.kind == King ==> !KingSide(r, piece.color) && !QueenSide(r, piece.color)
    ensures piece.kind != King && piece.kind != Rook && (captured.None? || captured.value.kind != Rook) ==> r == rights
  {
    var r1 := KingMoved(rights, piece);
    var r2 := if piece.kind == Rook then RookLeaves(r1, piece.color, from) else r1;
    RookCaptured(r2, piece.color, captured, to)
  }

  function AbsDiff(a: int, b: int): nat { if a >= b then a - b else b - a }

  /** The board of a search child: the piece to the target, the origin
      emptied, and for an en passant move the pawn beside the origin, on
      the origin's row and the target's column, removed if there is one.
      The castling rook stays where it is and a pawn is not promoted. */
  function ChildBoard(b: Board, m: AiMove): Board
  {
    var b1 := SetAt(SetAt(b, m.to.row, m.to.col, Some(m.piece)), m.from.row, m.from.col, None);
    if m.isEnPassant && At(b1, m.from.row, m.to.col).Some? then SetAt(b1, m.from.row, m.to.col, None) else b1
  }

  /** The state minimax recurses on after `player` plays `m`. */
  function ChildPosition(pos: Position, player: Color, m: AiMove): (child: Position)
    ensures child.turn == Opponent(player) && child.board == ChildBoard(pos.board, m)
    ensures SubRights(child.rights, pos.rights)
    ensures child.ep.Some? <==> m.piece.kind == Pawn && AbsDiff(m.to.row, m.from.row) == 2
    ensures child.halfmove == 0 || child.halfmove == pos.halfmove + 1
    ensures child.fullmove == pos.fullmove + (if pos.turn == Black then 1 else 0)
  {
    var captured := At(pos.board, m.to.row, m.to.col);
    var isPawn := m.piece.kind == Pawn;
    var ep := if isPawn && AbsDiff(m.to.row, m.from.row) == 2 then Some(Square((m.from.row + m.to.row) / 2, m.from.col)) else None;
    Position(ChildBoard(pos.board, m), Opponent(player),
             UpdateRightsSim(pos.rights, m.piece, captured, m.from, m.to), ep,
             if isPawn || captured.Some? || m.isEnPassant then 0 else pos.halfmove + 1,
             if pos.turn == Black then pos.fullmove + 1 else pos.fullmove)
  }

  /** What the simulation of a legal move can rely on: both squares on the
      board and distinct, the moving piece on the origin, and an en passant
      move changing both row and column. */
  predicate SearchSafe(b: Board, m: AiMove)
  {
    OnBoard(m.from.row, m.from.col) && OnBoard(m.to.row, m.to.col) && m.from != m.to &&
    At(b, m.from.row, m.from.col) == Some(m.piece) &&
    (m.isEnPassant ==> m.to.row != m.from.row && m.to.col != m.from.col)
  }

  lemma LegalMoveIsSafe(pos: Position, player: Color, m: AiMove)
    requires m in AllLegalMoves(pos, player)
    ensures SearchSafe(pos.board, m)
  {
    AllLegalMovesIff(pos, player, m);
    var p := pos.(turn := player);
    var t :| t in LegalMoves(p, m.from.row, m.from.col) && m == Tag(m.from.row, m.from.col, m.piece, t);
    LegalMovesShaped(p, m.from.row, m.from.col, t);
  }

  /** The undo of minimax, in its order: the piece back to the origin, the
      target's old contents back, then the en passant pawn if one was
      taken. */
  function UndoChild(b: Board, m: AiMove, captured: Cell, capturedEnPassant: Cell): Board
  {
    var u := SetAt(SetAt(b, m.from.row, m.from.col, Some(m.piece)), m.to.row, m.to.col, captured);
    if m.isEnPassant && capturedEnPassant.Some? then SetAt(u, m.from.row, m.to.col, capturedEnPassant) else u
  }

  /** The cell the en passant capture of the search removes, if any. */
  function EnPassantVictim(b: Board, m: AiMove): Cell
  {
    if m.isEnPassant then At(b, m.from.row, m.to.col) else None
  }

  /** Undoing a simulated child gives the parent's board back. */
  lemma UndoChildRestores(b: Board, m: AiMove)
    requires SearchSafe(b, m)
    ensures UndoChild(ChildBoard(b, m), m, At(b, m.to.row, m.to.col), EnPassantVictim(b, m)) == b
  {
    var u := UndoChild(ChildBoard(b, m), m, At(b, m.to.row, m.to.col), EnPassantVictim(b, m));
    forall r, c | OnBoard(r, c) ensures At(u, r, c) == At(b, r, c) {
    }
    BoardExt(u, b);
  }

  // ---------------------------------------------------------------------
  // The move orders.

  /** Which shuffle a move order comes from: the one calculateBestMove
      makes first, the one of its level-2 fallback, or the one of the
      search node reached by `path` from the root. */
  datatype Draw = Pick | Fallback | Node(path: seq<AiMove>)

  /** The outcome of every `sort(() => Math.random() - 0.5)` call. */
  type Order = (Draw, seq<AiMove>) -> seq<AiMove>

  /** Every shuffle rearranges the moves it is given. */
  ghost predicate IsShuffle(order: Order)
  {
    forall d, ms :: multiset(order(d, ms)) == multiset(ms)
  }

  lemma ShuffleKeeps(order: Order, d: Draw, ms: seq<AiMove>, m: AiMove)
    requires IsShuffle(order)
    ensures m in order(d, ms) <==> m in ms
    ensures |order(d, ms)| == |ms|
  {
    assert multiset(order(d, ms)) == multiset(ms);
    assert m in order(d, ms) <==> m in multiset(order(d, ms));
    assert |multiset(order(d, ms))| == |order(d, ms)|;
  }

  // ---------------------------------------------------------------------
  // The search.

  datatype SearchResult = SearchResult(score: Score, move: Option<AiMove>)

  function NodePlayer(maximizing: bool): Color { if maximizing then White else Black }

  /** The value of a node whose side has no legal move: mate against the
      side to move, or stalemate. */
  function TerminalScore(b: Board, maximizing: bool): Score
  {
    if KingInCheck(b, NodePlayer(maximizing)) then (if maximizing then NegInf else PosInf) else Fin(0.0)
  }

  /** minimax(depth, alpha, beta, maximizingPlayer) on the position `pos`;
      `path` is the line of moves from the root. */
  function Minimax(pos: Position, depth: nat, alpha: Score, beta: Score, maximizing: bool, path: seq<AiMove>, order: Order): SearchResult
    decreases depth, 1
  {
    var moves := AllLegalMoves(pos, NodePlayer(maximizing));
    if |moves| == 0 then SearchResult(TerminalScore(pos.board, maximizing), None)
    else if depth == 0 then SearchResult(Fin(Evaluate(pos.board)), None)
    else if maximizing then MaxLoop(pos, depth, alpha, beta, path, order, order(Node(path), moves), 0, NegInf, None)
    else MinLoop(pos, depth, alpha, beta, path, order, order(Node(path), moves), 0, PosInf, None)
  }

  /** The maximising loop from the `i`-th ordered move on: a strictly
      better child replaces the best move, alpha rises to the child's
      score, and the loop stops once beta <= alpha. */
  function MaxLoop(pos: Position, depth: nat, alpha: Score, beta: Score, path: seq<AiMove>, order: Order,
                   ms: seq<AiMove>, i: nat, best: Score, bestMove: Option<AiMove>): SearchResult
    requires 1 <= depth && i <= |ms|
    decreases depth, 0, |ms| - i
  {
    if i == |ms| then SearchResult(best, bestMove)
    else
      var m := ms[i];
      var e := Minimax(ChildPosition(pos, White, m), depth - 1, alpha, beta, false, path + [m], order).score;
      var best', bestMove' := if Lt(best, e) then e else best, if Lt(best, e) then Some(m) else bestMove;
      var alpha' := Max(alpha, e);
      if Le(beta, alpha') then SearchResult(best', bestMove')
      else MaxLoop(pos, depth, alpha', beta, path, order, ms, i + 1, best', bestMove')
  }

  function MinLoop(pos: Position, depth: nat, alpha: Score, beta: Score, path: seq<AiMove>, order: Order,
                   ms: seq<AiMove>, i: nat, best: Score, bestMove: Option<AiMove>): SearchResult
    requires 1 <= depth && i <= |ms|
    decreases depth, 0, |ms| - i
  {
    if i == |ms| then SearchResult(best, bestMove)
    else
      var m := ms[i];
      var e := Minimax(ChildPosition(pos, Black, m), depth - 1, alpha, beta, true, path + [m], order).score;
      var best', bestMove' := if Lt(e, best) then e else best, if Lt(e, best) then Some(m) else bestMove;
      var beta' := Min(beta, e);
      if Le(beta', alpha) then SearchResult(best', bestMove')
      else MinLoop(pos, depth, alpha, beta', path, order, ms, i + 1, best', bestMove')
  }

  /** One iteration of the maximising loop, given the child's score. */
  lemma MaxLoopStep(pos: Position, depth: nat, alpha: Score, beta: Score, path: seq<AiMove>, order: Order,
                    ms: seq<AiMove>, i: nat, best: Score, bestMove: Option<AiMove>, e: Score)
    requires 1 <= depth && i < |ms|
    requires e == Minimax(ChildPosition(pos, White, ms[i]), depth - 1, alpha, beta, false, path + [ms[i]], order).score
    ensures MaxLoop(pos, depth, alpha, beta, path, order, ms, i, best, bestMove) ==
      (var best', bestMove' := if Lt(best, e) then e else best, if Lt(best, e) then Some(ms[i]) else bestMove;
       if Le(beta, Max(alpha, e)) then SearchResult(best', bestMove')
       else MaxLoop(pos, depth, Max(alpha, e), beta, path, order, ms, i + 1, best', bestMove'))
  {
  }

  /** One iteration of the minimising loop, given the child's score. */
  lemma MinLoopStep(pos: Position, depth: nat, alpha: Score, beta: Score, path: seq<AiMove>, order: Order,
                    ms: seq<AiMove>, i: nat, best: Score, bestMove: Option<AiMove>, e: Score)
    requires 1 <= depth && i < |ms|
    requires e == Minimax(ChildPosition(pos, Black, ms[i]), depth - 1, alpha, beta, true, path + [ms[i]], order).score
    ensures MinLoop(pos, depth, alpha, beta, path, order, ms, i, best, bestMove) ==
      (var best', bestMove' := if Lt(e, best) then e else best, if Lt(e, best) then Some(ms[i]) else bestMove;
       if Le(Min(beta, e), alpha) then SearchResult(best', bestMove')
       else MinLoop(pos, depth, alpha, Min(beta, e), path, order, ms, i + 1, best', bestMove'))
  {
  }

  // ---------------------------------------------------------------------
  // The reference: the same tree without pruning.

  function Value(pos: Position, depth: nat, maximizing: bool, path: seq<AiMove>, order: Order): Score
    decreases depth, 1
  {
    var moves := AllLegalMoves(pos, NodePlayer(maximizing));
    if |moves| == 0 then TerminalScore(pos.board, maximizing)
    else if depth == 0 then Fin(Evaluate(pos.board))
    else if maximizing then MaxOf(pos, depth, path, order, order(Node(path), moves), 0)
    else MinOf(pos, depth, path, order, order(Node(path), moves), 0)
  }

  function MaxOf(pos: Position, depth: nat, path: seq<AiMove>, order: Order, ms: seq<AiMove>, i: nat): Score
    requires 1 <= depth && i <= |ms|
    decreases depth, 0, |ms| - i
  {
    if i == |ms| then NegInf
    else Max(Value(ChildPosition(pos, White, ms[i]), depth - 1, false, path + [ms[i]], order), MaxOf(pos, depth, path, order, ms, i + 1))
  }

  function MinOf(pos: Position, depth: nat, path: seq<AiMove>, order: Order, ms: seq<AiMove>, i: nat): Score
    requires 1 <= depth && i <= |ms|
    decreases depth, 0, |ms| - i
  {
    if i == |ms| then PosInf
    else Min(Value(ChildPosition(pos, Black, ms[i]), depth - 1, true, path + [ms[i]], order), MinOf(pos, depth, path, order, ms, i + 1))
  }

  /** What a fail-soft alpha-beta score `v` says about the true value `m`
      for the window (alpha, beta): an upper bound when it fails low, a
      lower bound when it fails high, and the value itself inside. */
  predicate Bounds(v: Score, m: Score, alpha: Score, beta: Score)
  {
    (Le(v, alpha) ==> Le(m, v)) && (Le(beta, v) ==> Le(v, m)) && (Lt(alpha, v) && Lt(v, beta) ==> v == m)
  }

  /** The pruned search is fail-soft alpha-beta: its score bounds the
      unpruned minimax value as the window says. */
  lemma {:induction false} AlphaBetaBounds(pos: Position, depth: nat, alpha: Score, beta: Score, maximizing: bool, path: seq<AiMove>, order: Order)
    requires Lt(alpha, beta)
    ensures Bounds(Minimax(pos, depth, alpha, beta, maximizing, path, order).score, Value(pos, depth, maximizing, path, order), alpha, beta)
    decreases depth, 1
  {
    var moves := AllLegalMoves(pos, NodePlayer(maximizing));
    if |moves| > 0 && depth > 0 {
      var ms := order(Node(path), moves);
      if maximizing {
        MaxLoopBounds(pos, depth, alpha, beta, path, order, ms, 0, NegInf, None, alpha, NegInf);
      } else {
        MinLoopBounds(pos, depth, alpha, beta, path, order, ms, 0, PosInf, None, beta, PosInf);
      }
    }
  }

  /** The maximising loop keeps: alpha is the larger of the window's alpha
      and the best score so far; `p`, the true maximum over the moves
      already searched, is at most the best score when that is at most
      the window's alpha, and equal to it otherwise. */
  lemma {:induction false} MaxLoopBounds(pos: Position, depth: nat, alpha0: Score, beta: Score, path: seq<AiMove>, order: Order,
                                         ms: seq<AiMove>, i: nat, best: Score, bestMove: Option<AiMove>, alpha: Score, p: Score)
    requires 1 <= depth && i <= |ms|
    requires alpha == Max(alpha0, best) && Lt(alpha, beta)
    requires Le(best, alpha0) ==> Le(p, best)
    requires Lt(alpha0, best) ==> p == best
    ensures Bounds(MaxLoop(pos, depth, alpha, beta, path, order, ms, i, best, bestMove).score,
                   Max(p, MaxOf(pos, depth, path, order, ms, i)), alpha0, beta)
    decreases depth, 0, |ms| - i
  {
    if i < |ms| {
      var m := ms[i];
      var child := ChildPosition(pos, White, m);
      var e := Minimax(child, depth - 1, alpha, beta, false, path + [m], order).score;
      var c := Value(child, depth - 1, false, path + [m], order);
      AlphaBetaBounds(child, depth - 1, alpha, beta, false, path + [m], order);
      var rest := MaxOf(pos, depth, path, order, ms, i + 1);
      MaxAssoc(p, c, rest);
      if Le(beta, Max(alpha, e)) {
        MaxCutStep(alpha0, beta, best, alpha, p, e, c, rest);
      } else {
        var bestMove' := if Lt(best, e) then Some(m) else bestMove;
        MaxGoOnStep(alpha0, beta, best, alpha, p, e, c);
        MaxLoopBounds(pos, depth, alpha0, beta, path, order, ms, i + 1, if Lt(best, e) then e else best, bestMove', Max(alpha, e), Max(p, c));
      }
    }
  }

  /** A maximising step that cuts off: the score returned bounds the
      maximum as the window (alpha0, beta) says. */
  lemma MaxCutStep(alpha0: Score, beta: Score, best: Score, alpha: Score, p: Score, e: Score, c: Score, rest: Score)
    requires alpha == Max(alpha0, best) && Lt(alpha, beta)
    requires Le(best, alpha0) ==> Le(p, best)
    requires Lt(alpha0, best) ==> p == best
    requires Bounds(e, c, alpha, beta) && Le(beta, Max(alpha, e))
    ensures Bounds(if Lt(best, e) then e else best, Max(Max(p, c), rest), alpha0, beta)
  {
    assert Le(beta, e);
    assert Le(c, Max(c, rest));
    MaxAssoc(p, c, rest);
  }

  /** A maximising step that goes on keeps the loop's invariant. */
  lemma MaxGoOnStep(alpha0: Score, beta: Score, best: Score, alpha: Score, p: Score, e: Score, c: Score)
    requires alpha == Max(alpha0, best) && Lt(alpha, beta)
    requires Le(best, alpha0) ==> Le(p, best)
    requires Lt(alpha0, best) ==> p == best
    requires Bounds(e, c, alpha, beta) && !Le(beta, Max(alpha, e))
    ensures var best' := if Lt(best, e) then e else best;
      Max(alpha, e) == Max(alpha0, best') && Lt(Max(alpha, e), beta) &&
      (Le(best', alpha0) ==> Le(Max(p, c), best')) && (Lt(alpha0, best') ==> Max(p, c) == best')
  {
    assert (if Lt(best, e) then e else best) == Max(best, e);
    MaxAssoc(alpha0, best, e);
  }

  lemma {:induction false} MinLoopBounds(pos: Position, depth: nat, alpha: Score, beta0: Score, path: seq<AiMove>, order: Order,
                                         ms: seq<AiMove>, i: nat, best: Score, bestMove: Option<AiMove>, beta: Score, p: Score)
    requires 1 <= depth && i <= |ms|
    requires beta == Min(beta0, best) && Lt(alpha, beta)
    requires Le(beta0, best) ==> Le(best, p)
    requires Lt(best, beta0) ==> p == best
    ensures Bounds(MinLoop(pos, depth, alpha, beta, path, order, ms, i, best, bestMove).score,
                   Min(p, MinOf(pos, depth, path, order, ms, i)), alpha, beta0)
    decreases depth, 0, |ms| - i
  {
    if i < |ms| {
      var m := ms[i];
      var child := ChildPosition(pos, Black, m);
      var e := Minimax(child, depth - 1, alpha, beta, true, path + [m], order).score;
      var c := Value(child, depth - 1, true, path + [m], order);
      AlphaBetaBounds(child, depth - 1, alpha, beta, true, path + [m], order);
      var rest := MinOf(pos, depth, path, order, ms, i + 1);
      MinAssoc(p, c, rest);
      if Le(Min(beta, e), alpha) {
        MinCutStep(alpha, beta0, best, beta, p, e, c, rest);
      } else {
        var bestMove' := if Lt(e, best) then Some(m) else bestMove;
        MinGoOnStep(alpha, beta0, best, beta, p, e, c);
        MinLoopBounds(pos, depth, alpha, beta0, path, order, ms, i + 1, if Lt(e, best) then e else best, bestMove', Min(beta, e), Min(p, c));
      }
    }
  }

  /** A minimising step that cuts off. */
  lemma MinCutStep(alpha: Score, beta0: Score, best: Score, beta: Score, p: Score, e: Score, c: Score, rest: Score)
    requires beta == Min(beta0, best) && Lt(alpha, beta)
    requires Le(beta0, best) ==> Le(best, p)
    requires Lt(best, beta0) ==> p == best
    requires Bounds(e, c, alpha, beta) && Le(Min(beta, e), alpha)
    ensures Bounds(if Lt(e, best) then e else best, Min(Min(p, c), rest), alpha, beta0)
  {
    assert Le(e, alpha);
    assert Le(Min(c, rest), c);
    MinAssoc(p, c, rest);
  }

  /** A minimising step that goes on keeps the loop's invariant. */
  lemma MinGoOnStep(alpha: Score, beta0: Score, best: Score, beta: Score, p: Score, e: Score, c: Score)
    requires beta == Min(beta0, best) && Lt(alpha, beta)
    requires Le(beta0, best) ==> Le(best, p)
    requires Lt(best, beta0) ==> p == best
    requires Bounds(e, c, alpha, beta) && !Le(Min(beta, e), alpha)
    ensures var best' := if Lt(e, best) then e else best;
      Min(beta, e) == Min(beta0, best') && Lt(alpha, Min(beta, e)) &&
      (Le(beta0, best') ==> Le(best', Min(p, c))) && (Lt(best', beta0) ==> Min(p, c) == best')
  {
    assert (if Lt(e, best) then e else best) == Min(best, e);
    MinAssoc(beta0, best, e);
  }

  /** From the full window the pruned search returns the minimax value
      exactly. */
  lemma RootIsExact(pos: Position, depth: nat, maximizing: bool, path: seq<AiMove>, order: Order)
    ensures Minimax(pos, depth, NegInf, PosInf, maximizing, path, order).score == Value(pos, depth, maximizing, path, order)
  {
    AlphaBetaBounds(pos, depth, NegInf, PosInf, maximizing, path, order);
  }

  // ---------------------------------------------------------------------
  // The move the search returns.

  lemma {:induction false} MaxLoopMove(pos: Position, depth: nat, alpha: Score, beta: Score, path: seq<AiMove>, order: Order,
                                       ms: seq<AiMove>, i: nat, best: Score, bestMove: Option<AiMove>)
    requires 1 <= depth && i <= |ms|
    requires bestMove.Some? ==> bestMove.value in ms
    ensures var r := MaxLoop(pos, depth, alpha, beta, path, order, ms, i, best, bestMove); r.move.Some? ==> r.move.value in ms
    decreases |ms| - i
  {
    if i < |ms| {
      var e := Minimax(ChildPosition(pos, White, ms[i]), depth - 1, alpha, beta, false, path + [ms[i]], order).score;
      MaxLoopMove(pos, depth, Max(alpha, e), beta, path, order, ms, i + 1,
                  if Lt(best, e) then e else best, if Lt(best, e) then Some(ms[i]) else bestMove);
    }
  }

  lemma {:induction false} MinLoopMove(pos: Position, depth: nat, alpha: Score, beta: Score, path: seq<AiMove>, order: Order,
                                       ms: seq<AiMove>, i: nat, best: Score, bestMove: Option<AiMove>)
    requires 1 <= depth && i <= |ms|
    requires bestMove.Some? ==> bestMove.value in ms
    ensures var r := MinLoop(pos, depth, alpha, beta, path, order, ms, i, best, bestMove); r.move.Some? ==> r.move.value in ms
    decreases |ms| - i
  {
    if i < |ms| {
      var e := Minimax(ChildPosition(pos, Black, ms[i]), depth - 1, alpha, beta, true, path + [ms[i]], order).score;
      MinLoopMove(pos, depth, alpha, Min(beta, e), path, order, ms, i + 1,
                  if Lt(e, best) then e else best, if Lt(e, best) then Some(ms[i]) else bestMove);
    }
  }

  /** The move minimax returns, if any, is a legal move of the node's
      side; there is none at a terminal node or at depth 0. */
  lemma MinimaxMoveIsLegal(pos: Position, depth: nat, alpha: Score, beta: Score, maximizing: bool, path: seq<AiMove>, order: Order)
    requires IsShuffle(order)
    ensures var r := Minimax(pos, depth, alpha, beta, maximizing, path, order);
      r.move.Some? ==> depth > 0 && IsLegalMoveOf(pos, NodePlayer(maximizing), r.move.value)
  {
    var moves := AllLegalMoves(pos, NodePlayer(maximizing));
    var r := Minimax(pos, depth, alpha, beta, maximizing, path, order);
    if |moves| > 0 && depth > 0 {
      var ms := order(Node(path), moves);
      if maximizing {
        MaxLoopMove(pos, depth, alpha, beta, path, order, ms, 0, NegInf, None);
      } else {
        MinLoopMove(pos, depth, alpha, beta, path, order, ms, 0, PosInf, None);
      }
      if r.move.Some? {
        ShuffleKeeps(order, Node(path), moves, r.move.value);
        AllLegalMovesIff(pos, NodePlayer(maximizing), r.move.value);
      }
    }
  }
}
