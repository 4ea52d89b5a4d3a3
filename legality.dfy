/** The legality filter of generateLegalMoves (simulate the move, ask
    whether the mover's king is attacked, undo), the move list of
    getAllLegalMoves, hasLegalMoves and checkGameEndCondition, on position
    values. */
module Legality {
  import opened Pieces
  import opened Boards
  import opened Attacks
  import opened Geometry

  /** The board after the simulated move, whether the simulation found the
      captured pawn or the rook missing, and the two pieces it saved for
      the undo. */
  datatype Sim = Sim(board: Board, simError: bool, captured: Cell, rookPiece: Cell)

  /** The row of the pawn an en passant capture by `turn` removes. */
  function CapturedPawnRow(turn: Color, toRow: int): int
  {
    if turn == White then toRow + 1 else toRow - 1
  }

  function RookFromCol(c: int, t: Target): int { if t.col > c then 7 else 0 }
  function RookToCol(c: int, t: Target): int { if t.col > c then t.col - 1 else t.col + 1 }

  /** The simulation in generateLegalMoves, writes in the engine's order:
      the piece to the target, the origin emptied, then the en passant
      capture, then the castling rook (any rook found in the corner). */
  function Simulate(b: Board, turn: Color, r: int, c: int, piece: Piece, t: Target): Sim
  {
    var b1 := SetAt(SetAt(b, t.row, t.col, Some(piece)), r, c, None);
    var capRow := CapturedPawnRow(turn, t.row);
    var captured := if t.isEnPassant then At(b1, capRow, t.col) else None;
    var b2 := if t.isEnPassant then SetAt(b1, capRow, t.col, None) else b1;
    var err1 := t.isEnPassant && captured.None?;
    var rookPiece := if t.isCastling then At(b2, r, RookFromCol(c, t)) else None;
    if !t.isCastling then Sim(b2, err1, captured, rookPiece)
    else if rookPiece.Some? && rookPiece.value.kind == Rook then
      Sim(SetAt(SetAt(b2, r, RookToCol(c, t), rookPiece), r, RookFromCol(c, t), None), err1, captured, rookPiece)
    else Sim(b2, true, captured, rookPiece)
  }

  /** The undo in generateLegalMoves, in the engine's order. */
  function Undo(r: int, c: int, piece: Piece, turn: Color, t: Target, originalTarget: Cell, s: Sim): Board
  {
    var u1 := SetAt(SetAt(s.board, r, c, Some(piece)), t.row, t.col, originalTarget);
    var u2 := if t.isEnPassant then SetAt(u1, CapturedPawnRow(turn, t.row), t.col, s.captured) else u1;
    if t.isCastling && s.rookPiece.Some? then
      SetAt(SetAt(u2, r, RookFromCol(c, t), s.rookPiece), r, RookToCol(c, t), None)
    else u2
  }

  /** Undoing the simulation of a well-shaped move of the side to move
      gives back the board exactly. */
  lemma UndoRestores(b: Board, turn: Color, r: int, c: int, piece: Piece, t: Target)
    requires OnBoard(r, c) && At(b, r, c) == Some(piece) && piece.color == turn
    requires WellShaped(b, r, c, piece, t)
    ensures Undo(r, c, piece, turn, t, At(b, t.row, t.col), Simulate(b, turn, r, c, piece, t)) == b
  {
    var s := Simulate(b, turn, r, c, piece, t);
    var u := Undo(r, c, piece, turn, t, At(b, t.row, t.col), s);
    forall r', c' | OnBoard(r', c') ensures At(u, r', c') == At(b, r', c') {
    }
    BoardExt(u, b);
  }

  /** The filter's verdict: the simulation went through and the mover's
      king is not attacked afterwards. */
  predicate Legal(b: Board, turn: Color, r: int, c: int, piece: Piece, t: Target)
  {
    var s := Simulate(b, turn, r, c, piece, t);
    !s.simError && !KingInCheck(s.board, turn)
  }

  /** The legal moves among the first `k` candidates, in order. */
  function FilterLegal(b: Board, turn: Color, r: int, c: int, piece: Piece, ms: seq<Target>, k: nat): seq<Target>
    requires k <= |ms|
  {
    if k == 0 then []
    else FilterLegal(b, turn, r, c, piece, ms, k - 1) + (if Legal(b, turn, r, c, piece, ms[k - 1]) then [ms[k - 1]] else [])
  }

  /** generateLegalMoves(r, c): nothing for an empty square or a piece of
      the side not to move. */
  function LegalMoves(pos: Position, r: int, c: int): seq<Target>
  {
    match At(pos.board, r, c)
    case None => []
    case Some(piece) =>
      if piece.color != pos.turn then []
      else
        var ms := PseudoMoves(pos, r, c, piece);
        FilterLegal(pos.board, pos.turn, r, c, piece, ms, |ms|)
  }

  lemma {:induction false} FilterLegalIff(b: Board, turn: Color, r: int, c: int, piece: Piece, ms: seq<Target>, k: nat, t: Target)
    requires k <= |ms|
    ensures t in FilterLegal(b, turn, r, c, piece, ms, k) <==> t in ms[..k] && Legal(b, turn, r, c, piece, t)
  {
    if k > 0 {
      FilterLegalIff(b, turn, r, c, piece, ms, k - 1, t);
      assert ms[..k] == ms[..k - 1] + [ms[k - 1]];
    }
  }

  /** The candidates among the first `k` whose verdict in `oks` is true. */
  function Kept(ms: seq<Target>, oks: seq<bool>, k: nat): seq<Target>
    requires k <= |ms| && k <= |oks|
  {
    if k == 0 then [] else Kept(ms, oks, k - 1) + (if oks[k - 1] then [ms[k - 1]] else [])
  }

  /** `oks` holds the filter's verdicts on the first candidates. */
  predicate Verdicts(b: Board, turn: Color, r: int, c: int, piece: Piece, ms: seq<Target>, oks: seq<bool>)
  {
    |oks| <= |ms| &&
    forall k {:trigger Legal(b, turn, r, c, piece, ms[k])} :: 0 <= k < |oks| ==> oks[k] == Legal(b, turn, r, c, piece, ms[k])
  }

  /** Verdicts past `k` do not matter to the first `k` candidates. */
  lemma {:induction false} KeptPrefix(ms: seq<Target>, oks: seq<bool>, ok: bool, k: nat)
    requires k <= |ms| && k <= |oks|
    ensures Kept(ms, oks + [ok], k) == Kept(ms, oks, k)
  {
    if k > 0 {
      KeptPrefix(ms, oks, ok, k - 1);
      assert (oks + [ok])[k - 1] == oks[k - 1];
    }
  }

  /** One more verdict, for the next candidate. */
  lemma VerdictsExtend(b: Board, turn: Color, r: int, c: int, piece: Piece, ms: seq<Target>, oks: seq<bool>, ok: bool)
    requires |oks| < |ms| && Verdicts(b, turn, r, c, piece, ms, oks) && ok == Legal(b, turn, r, c, piece, ms[|oks|])
    ensures Verdicts(b, turn, r, c, piece, ms, oks + [ok])
    ensures Kept(ms, oks + [ok], |oks| + 1) == Kept(ms, oks, |oks|) + (if ok then [ms[|oks|]] else [])
  {
    KeptPrefix(ms, oks, ok, |oks|);
    forall k | 0 <= k < |oks| + 1 ensures (oks + [ok])[k] == Legal(b, turn, r, c, piece, ms[k]) {
      if k < |oks| {
        assert oks[k] == Legal(b, turn, r, c, piece, ms[k]);
      }
    }
  }

  /** Keeping the candidates by their verdicts is the filter. */
  lemma {:induction false} KeptIsFilter(b: Board, turn: Color, r: int, c: int, piece: Piece, ms: seq<Target>, oks: seq<bool>, k: nat)
    requires k <= |oks| && Verdicts(b, turn, r, c, piece, ms, oks)
    ensures Kept(ms, oks, k) == FilterLegal(b, turn, r, c, piece, ms, k)
  {
    if k > 0 {
      KeptIsFilter(b, turn, r, c, piece, ms, oks, k - 1);
      assert oks[k - 1] == Legal(b, turn, r, c, piece, ms[k - 1]);
    }
  }

  /** A move is legal for the piece on (r, c) exactly when that piece
      belongs to the side to move, the move is one the piece generates, and
      the simulation leaves the mover's king safe. */
  lemma LegalMovesIff(pos: Position, r: int, c: int, t: Target)
    ensures t in LegalMoves(pos, r, c) <==>
      At(pos.board, r, c).Some? && At(pos.board, r, c).value.color == pos.turn &&
      t in PseudoMoves(pos, r, c, At(pos.board, r, c).value) &&
      Legal(pos.board, pos.turn, r, c, At(pos.board, r, c).value, t)
  {
    if At(pos.board, r, c).Some? && At(pos.board, r, c).value.color == pos.turn {
      var ms := PseudoMoves(pos, r, c, At(pos.board, r, c).value);
      FilterLegalIff(pos.board, pos.turn, r, c, At(pos.board, r, c).value, ms, |ms|, t);
      assert ms[..|ms|] == ms;
    }
  }

  /** Every legal move is well shaped, so undoing its simulation restores
      the board. */
  lemma LegalMovesShaped(pos: Position, r: int, c: int, t: Target)
    requires t in LegalMoves(pos, r, c)
    ensures OnBoard(r, c) && WellShaped(pos.board, r, c, At(pos.board, r, c).value, t)
    ensures Undo(r, c, At(pos.board, r, c).value, pos.turn, t, At(pos.board, t.row, t.col),
                 Simulate(pos.board, pos.turn, r, c, At(pos.board, r, c).value, t)) == pos.board
  {
    LegalMovesIff(pos, r, c, t);
    var piece := At(pos.board, r, c).value;
    PseudoMovesShaped(pos, r, c, piece);
    var ms := PseudoMoves(pos, r, c, piece);
    var i :| 0 <= i < |ms| && ms[i] == t;
    UndoRestores(pos.board, pos.turn, r, c, piece, t);
  }

  // ---------------------------------------------------------------------
  // All moves of one side.

  /** A move as the search and the engine's move picker see it. */
  datatype AiMove = AiMove(from: Square, to: Square, piece: Piece, isPromotion: bool, isCastling: bool, isEnPassant: bool)

  function Tag(r: int, c: int, piece: Piece, t: Target): AiMove
  {
    AiMove(Square(r, c), Square(t.row, t.col), piece, t.isPromotion, t.isCastling, t.isEnPassant)
  }

  function TagAll(r: int, c: int, piece: Piece, ts: seq<Target>): (ms: seq<AiMove>)
    ensures |ms| == |ts|
  {
    if ts == [] then [] else [Tag(r, c, piece, ts[0])] + TagAll(r, c, piece, ts[1..])
  }

  /** The i-th tagged move is the i-th move, tagged. */
  lemma {:induction false} TagAllAt(r: int, c: int, piece: Piece, ts: seq<Target>, i: nat)
    requires i < |ts|
    ensures TagAll(r, c, piece, ts)[i] == Tag(r, c, piece, ts[i])
  {
    if i > 0 {
      TagAllAt(r, c, piece, ts[1..], i - 1);
    }
  }

  /** The moves of the piece on (r, c) when it belongs to the side to
      move, tagged with its origin and the piece. */
  function PieceMoves(pos: Position, r: int, c: int): seq<AiMove>
    requires OnBoard(r, c)
  {
    match At(pos.board, r, c)
    case None => []
    case Some(piece) => if piece.color == pos.turn then TagAll(r, c, piece, LegalMoves(pos, r, c)) else []
  }

  /** The moves of the first `c` squares of row `r`. */
  function RowMoves(pos: Position, r: int, c: int): seq<AiMove>
    requires 0 <= r < 8 && 0 <= c <= 8
  {
    if c == 0 then [] else RowMoves(pos, r, c - 1) + PieceMoves(pos, r, c - 1)
  }

  /** The moves of the first `r` rows, each scanned from left to right. */
  function RowsBefore(pos: Position, r: int): seq<AiMove>
    requires 0 <= r <= 8
  {
    if r == 0 then [] else RowsBefore(pos, r - 1) + RowMoves(pos, r - 1, 8)
  }

  /** One more row. */
  lemma RowsBeforeStep(pos: Position, r: int)
    requires 0 <= r < 8
    ensures RowsBefore(pos, r + 1) == RowsBefore(pos, r) + RowMoves(pos, r, 8)
  {
  }

  /** One more square of a row. */
  lemma RowMovesStep(pos: Position, r: int, c: int)
    requires OnBoard(r, c)
    ensures RowMoves(pos, r, c + 1) == RowMoves(pos, r, c) + PieceMoves(pos, r, c)
  {
  }

  /** The list after one more square of row `r`, accumulated on `acc`. */
  lemma RowMovesAppend(pos: Position, r: int, c: int, acc: seq<AiMove>, sofar: seq<AiMove>)
    requires OnBoard(r, c) && sofar == acc + RowMoves(pos, r, c)
    ensures sofar + PieceMoves(pos, r, c) == acc + RowMoves(pos, r, c + 1)
  {
    RowMovesStep(pos, r, c);
    AppendAssoc(acc, RowMoves(pos, r, c), PieceMoves(pos, r, c));
  }

  /** getAllLegalMoves(player): the legal moves of `player`, square by
      square, as if `player` were to move. */
  function AllLegalMoves(pos: Position, player: Color): seq<AiMove>
  {
    RowsBefore(pos.(turn := player), 8)
  }

  /** The move `m` is one of `player`'s legal moves. */
  predicate IsLegalMoveOf(pos: Position, player: Color, m: AiMove)
  {
    OnBoard(m.from.row, m.from.col) && At(pos.board, m.from.row, m.from.col) == Some(m.piece) && m.piece.color == player &&
    exists t :: t in LegalMoves(pos.(turn := player), m.from.row, m.from.col) && m == Tag(m.from.row, m.from.col, m.piece, t)
  }

  /** Tagging a list one more move at a time. */
  lemma TagAllSnoc(r: int, c: int, piece: Piece, ts: seq<Target>, j: nat)
    requires j < |ts|
    ensures TagAll(r, c, piece, ts[..j + 1]) == TagAll(r, c, piece, ts[..j]) + [Tag(r, c, piece, ts[j])]
  {
    var a, b := TagAll(r, c, piece, ts[..j + 1]), TagAll(r, c, piece, ts[..j]) + [Tag(r, c, piece, ts[j])];
    assert |a| == |b|;
    forall i | 0 <= i < |a| ensures a[i] == b[i] {
      TagAllAt(r, c, piece, ts[..j + 1], i);
      if i < j {
        TagAllAt(r, c, piece, ts[..j], i);
        assert ts[..j + 1][i] == ts[..j][i];
      }
    }
  }

  /** Square (r, c) contributes exactly the legal moves that start on it. */
  lemma PieceMovesIff(pos: Position, r: int, c: int, m: AiMove)
    requires OnBoard(r, c)
    ensures m in PieceMoves(pos, r, c) <==> IsLegalMoveOf(pos, pos.turn, m) && m.from == Square(r, c)
  {
    assert pos.(turn := pos.turn) == pos;
    var pm := PieceMoves(pos, r, c);
    if m in pm {
      var i :| 0 <= i < |pm| && pm[i] == m;
      var piece := At(pos.board, r, c).value;
      TagAllAt(r, c, piece, LegalMoves(pos, r, c), i);
      assert m == Tag(r, c, piece, LegalMoves(pos, r, c)[i]);
    }
    if IsLegalMoveOf(pos, pos.turn, m) && m.from == Square(r, c) {
      var t :| t in LegalMoves(pos, r, c) && m == Tag(r, c, m.piece, t);
      var ls := LegalMoves(pos, r, c);
      var i :| 0 <= i < |ls| && ls[i] == t;
      TagAllAt(r, c, m.piece, ls, i);
      assert pm[i] == m;
    }
  }

  /** The first `c` squares of row `r` contribute exactly the legal moves
      that start on them. */
  lemma {:induction false} RowMovesIff(pos: Position, r: int, c: int, m: AiMove)
    requires 0 <= r < 8 && 0 <= c <= 8
    ensures m in RowMoves(pos, r, c) <==> IsLegalMoveOf(pos, pos.turn, m) && m.from.row == r && m.from.col < c
  {
    if c > 0 {
      RowMovesIff(pos, r, c - 1, m);
      PieceMovesIff(pos, r, c - 1, m);
    }
  }

  /** The first `r` rows contribute exactly the legal moves that start on
      them. */
  lemma {:induction false} RowsBeforeIff(pos: Position, r: int, m: AiMove)
    requires 0 <= r <= 8
    ensures m in RowsBefore(pos, r) <==> IsLegalMoveOf(pos, pos.turn, m) && m.from.row < r
  {
    if r > 0 {
      RowsBeforeIff(pos, r - 1, m);
      RowMovesIff(pos, r - 1, 8, m);
    }
  }

  /** getAllLegalMoves lists exactly the legal moves of the player, each
      tagged with its origin and piece. */
  lemma AllLegalMovesIff(pos: Position, player: Color, m: AiMove)
    ensures m in AllLegalMoves(pos, player) <==> IsLegalMoveOf(pos, player, m)
  {
    RowsBeforeIff(pos.(turn := player), 8, m);
    assert pos.(turn := player).(turn := player) == pos.(turn := player);
  }

  /** hasLegalMoves(player): some piece of `player` has a legal move. */
  predicate HasLegalMoves(pos: Position, player: Color)
  {
    exists r, c :: 0 <= r < 8 && 0 <= c < 8 && IsPlayerPiece(At(pos.board, r, c), player) && |LegalMoves(pos.(turn := player), r, c)| > 0
  }

  /** hasLegalMoves agrees with the move list being non-empty. */
  lemma HasLegalMovesIff(pos: Position, player: Color)
    ensures HasLegalMoves(pos, player) <==> |AllLegalMoves(pos, player)| > 0
  {
    var p := pos.(turn := player);
    if HasLegalMoves(pos, player) {
      var r, c :| 0 <= r < 8 && 0 <= c < 8 && IsPlayerPiece(At(pos.board, r, c), player) && |LegalMoves(p, r, c)| > 0;
      var t := LegalMoves(p, r, c)[0];
      var m := Tag(r, c, At(pos.board, r, c).value, t);
      assert IsLegalMoveOf(pos, player, m);
      AllLegalMovesIff(pos, player, m);
    }
    if |AllLegalMoves(pos, player)| > 0 {
      var m := AllLegalMoves(pos, player)[0];
      AllLegalMovesIff(pos, player, m);
      var t :| t in LegalMoves(p, m.from.row, m.from.col) && m == Tag(m.from.row, m.from.col, m.piece, t);
    }
  }

  datatype GameEnd = Checkmate | Stalemate | NotOver

  /** checkGameEndCondition: the side to move has no legal move — mated if
      in check, otherwise stalemated. */
  function GameEndCondition(pos: Position): GameEnd
  {
    if !HasLegalMoves(pos, pos.turn) then
      if KingInCheck(pos.board, pos.turn) then Checkmate else Stalemate
    else NotOver
  }
}
