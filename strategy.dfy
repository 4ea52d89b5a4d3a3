/** calculateBestMove of aiPlayer.js as a function of the position and of
    the outcome of its shuffles: level 0 avoids putting the moved piece en
    prise, level 1 prefers captures, level 2 looks one ply ahead with
    evaluateBoard, level 3 searches with minimax to depth 3 and falls back
    to level 2; any other level picks the first shuffled move. */
module Strategy {
  import opened Pieces
  import opened Boards
  import opened Attacks
  import opened Legality
  import opened Evaluation
  import opened Search

  /** The level-0 test: a capture, or a move after which (moving only the
      piece) the target square is not attacked by the opponent of the side
      to move. */
  predicate NotHanging(pos: Position, m: AiMove)
  {
    At(pos.board, m.to.row, m.to.col).Some? ||
    !Attacked(Slid(pos.board, m), m.to.row, m.to.col, Opponent(pos.turn))
  }

  /** The board with whatever stands on the origin put on the target and
      the origin emptied, as levels 0 and 2 simulate a move. */
  function Slid(b: Board, m: AiMove): Board
  {
    SetAt(SetAt(b, m.to.row, m.to.col, At(b, m.from.row, m.from.col)), m.from.row, m.from.col, None)
  }

  /** The undo of the level-0 probe (origin back, target emptied) restores
      the board of a non-capturing move. */
  lemma ProbeRestores(b: Board, m: AiMove)
    requires SearchSafe(b, m) && At(b, m.to.row, m.to.col).None?
    ensures SetAt(SetAt(Slid(b, m), m.from.row, m.from.col, At(b, m.from.row, m.from.col)), m.to.row, m.to.col, None) == b
  {
    var u := SetAt(SetAt(Slid(b, m), m.from.row, m.from.col, At(b, m.from.row, m.from.col)), m.to.row, m.to.col, None);
    forall r, c | OnBoard(r, c) ensures At(u, r, c) == At(b, r, c) {
    }
    BoardExt(u, b);
  }

  /** The level-1 test. */
  predicate IsCapture(pos: Position, m: AiMove)
  {
    At(pos.board, m.to.row, m.to.col).Some? || m.isEnPassant
  }

  /** `filter` of level 0 over the first `k` moves, in their order. */
  function NonLosingUpTo(pos: Position, ms: seq<AiMove>, k: nat): seq<AiMove>
    requires k <= |ms|
  {
    if k == 0 then [] else NonLosingUpTo(pos, ms, k - 1) + (if NotHanging(pos, ms[k - 1]) then [ms[k - 1]] else [])
  }

  /** `filter` of level 1 over the first `k` moves, in their order. */
  function CapturesUpTo(pos: Position, ms: seq<AiMove>, k: nat): seq<AiMove>
    requires k <= |ms|
  {
    if k == 0 then [] else CapturesUpTo(pos, ms, k - 1) + (if IsCapture(pos, ms[k - 1]) then [ms[k - 1]] else [])
  }

  /** The first `k` moves picked by precomputed answers `keep`. */
  function Select(ms: seq<AiMove>, keep: seq<bool>, k: nat): seq<AiMove>
    requires k <= |ms| && k <= |keep|
  {
    if k == 0 then [] else Select(ms, keep, k - 1) + (if keep[k - 1] then [ms[k - 1]] else [])
  }

  /** Answers recorded one by one: a later answer does not change the
      selection of the earlier moves. */
  lemma {:induction false} SelectExtend(ms: seq<AiMove>, keep: seq<bool>, b: bool, k: nat)
    requires k <= |ms| && k <= |keep|
    ensures Select(ms, keep + [b], k) == Select(ms, keep, k)
  {
    if k > 0 {
      SelectExtend(ms, keep, b, k - 1);
      assert (keep + [b])[k - 1] == keep[k - 1];
    }
  }

  /** With the level-0 answers recorded, the selection is the filter. */
  lemma {:induction false} SelectIsNonLosing(pos: Position, ms: seq<AiMove>, keep: seq<bool>, k: nat)
    requires k <= |ms| && k <= |keep|
    requires forall j :: 0 <= j < k ==> keep[j] == NotHanging(pos, ms[j])
    ensures Select(ms, keep, k) == NonLosingUpTo(pos, ms, k)
  {
    if k > 0 {
      SelectIsNonLosing(pos, ms, keep, k - 1);
      assert keep[k - 1] == NotHanging(pos, ms[k - 1]);
    }
  }

  lemma {:induction false} NonLosingUpToIff(pos: Position, ms: seq<AiMove>, k: nat, m: AiMove)
    requires k <= |ms|
    ensures m in NonLosingUpTo(pos, ms, k) <==> m in ms[..k] && NotHanging(pos, m)
  {
    if k > 0 {
      var last := ms[k - 1];
      NonLosingUpToIff(pos, ms, k - 1, m);
      assert ms[..k] == ms[..k - 1] + [last];
      if m == last {
        assert m in NonLosingUpTo(pos, ms, k) <==> NotHanging(pos, last);
      } else {
        assert m in NonLosingUpTo(pos, ms, k) <==> m in NonLosingUpTo(pos, ms, k - 1);
      }
    }
  }

  lemma {:induction false} CapturesUpToIff(pos: Position, ms: seq<AiMove>, k: nat, m: AiMove)
    requires k <= |ms|
    ensures m in CapturesUpTo(pos, ms, k) <==> m in ms[..k] && IsCapture(pos, m)
  {
    if k > 0 {
      var last := ms[k - 1];
      CapturesUpToIff(pos, ms, k - 1, m);
      assert ms[..k] == ms[..k - 1] + [last];
      if m == last {
        assert m in CapturesUpTo(pos, ms, k) <==> IsCapture(pos, last);
      } else {
        assert m in CapturesUpTo(pos, ms, k) <==> m in CapturesUpTo(pos, ms, k - 1);
      }
    }
  }

  /** The moves level 0 accepts, and those level 1 prefers, in order. */
  function NonLosing(pos: Position, ms: seq<AiMove>): seq<AiMove>
  {
    NonLosingUpTo(pos, ms, |ms|)
  }

  function Captures(pos: Position, ms: seq<AiMove>): seq<AiMove>
  {
    CapturesUpTo(pos, ms, |ms|)
  }

  lemma NonLosingIff(pos: Position, ms: seq<AiMove>, m: AiMove)
    ensures m in NonLosing(pos, ms) <==> m in ms && NotHanging(pos, m)
  {
    NonLosingUpToIff(pos, ms, |ms|, m);
    assert ms[..|ms|] == ms;
  }

  lemma CapturesIff(pos: Position, ms: seq<AiMove>, m: AiMove)
    ensures m in Captures(pos, ms) <==> m in ms && IsCapture(pos, m)
  {
    CapturesUpToIff(pos, ms, |ms|, m);
    assert ms[..|ms|] == ms;
  }

  /** The board level 2 evaluates after `m`: the piece to the target, the
      origin emptied, and for an en passant move the pawn behind the target
      (as seen from the side to move) removed if there is one. */
  function OnePlyBoard(pos: Position, m: AiMove): Board
  {
    var b1 := Slid(pos.board, m);
    var capRow := CapturedPawnRow(pos.turn, m.to.row);
    if m.isEnPassant && At(b1, capRow, m.to.col).Some? then SetAt(b1, capRow, m.to.col, None) else b1
  }

  /** What the level-2 simulation removes behind the target of an en
      passant move. */
  function OnePlyVictim(pos: Position, m: AiMove): Cell
  {
    if m.isEnPassant then At(Slid(pos.board, m), CapturedPawnRow(pos.turn, m.to.row), m.to.col) else None
  }

  /** The level-2 undo (origin, target, then the removed pawn) gives the
      board back. */
  lemma OnePlyRestores(pos: Position, m: AiMove)
    requires SearchSafe(pos.board, m)
    ensures var capRow := CapturedPawnRow(pos.turn, m.to.row);
      var u := SetAt(SetAt(OnePlyBoard(pos, m), m.from.row, m.from.col, At(pos.board, m.from.row, m.from.col)),
                     m.to.row, m.to.col, At(pos.board, m.to.row, m.to.col));
      (if m.isEnPassant && OnePlyVictim(pos, m).Some? then SetAt(u, capRow, m.to.col, OnePlyVictim(pos, m)) else u) == pos.board
  {
    var b := pos.board;
    var capRow := CapturedPawnRow(pos.turn, m.to.row);
    var u := SetAt(SetAt(OnePlyBoard(pos, m), m.from.row, m.from.col, At(b, m.from.row, m.from.col)),
                   m.to.row, m.to.col, At(b, m.to.row, m.to.col));
    var v := if m.isEnPassant && OnePlyVictim(pos, m).Some? then SetAt(u, capRow, m.to.col, OnePlyVictim(pos, m)) else u;
    forall r, c | OnBoard(r, c) ensures At(v, r, c) == At(b, r, c) {
    }
    BoardExt(v, b);
  }

  function OnePlyScore(pos: Position, m: AiMove): real
  {
    Evaluate(OnePlyBoard(pos, m))
  }

  /** White prefers a higher score, Black a lower one. */
  predicate Better(turn: Color, s: real, than: real)
  {
    if turn == White then s > than else s < than
  }

  /** The level-2 scan of the first `k` moves: the first move with the
      best score so far, starting from the infinity that any score beats. */
  function BestOnePly(pos: Position, ms: seq<AiMove>, k: nat): (r: Option<(AiMove, real)>)
    requires k <= |ms|
    ensures r.Some? ==> r.value.0 in ms[..k] && r.value.1 == OnePlyScore(pos, r.value.0)
    ensures r.None? <==> k == 0
  {
    if k == 0 then None
    else
      var prev := BestOnePly(pos, ms, k - 1);
      var s := OnePlyScore(pos, ms[k - 1]);
      assert ms[..k] == ms[..k - 1] + [ms[k - 1]];
      if prev.None? || Better(pos.turn, s, prev.value.1) then Some((ms[k - 1], s)) else prev
  }

  /** One more move of the level-2 scan. */
  lemma BestOnePlyStep(pos: Position, ms: seq<AiMove>, k: nat)
    requires k < |ms|
    ensures BestOnePly(pos, ms, k + 1) ==
      (var prev := BestOnePly(pos, ms, k); var s := OnePlyScore(pos, ms[k]);
       if prev.None? || Better(pos.turn, s, prev.value.1) then Some((ms[k], s)) else prev)
  {
  }

  /** Level 2 on a shuffled list (never empty here). */
  function Level2(pos: Position, shuffled: seq<AiMove>): AiMove
    requires |shuffled| > 0
  {
    match BestOnePly(pos, shuffled, |shuffled|)
    case Some(best) => best.0
    case None => shuffled[0]
  }

  /** calculateBestMove(difficulty). */
  function BestMove(pos: Position, difficulty: int, order: Order): Option<AiMove>
    requires IsShuffle(order)
  {
    var moves := AllLegalMoves(pos, pos.turn);
    if |moves| == 0 then None
    else
      var shuffled := order(Pick, moves);
      ShuffleKeeps(order, Pick, moves, moves[0]);
      if difficulty == 0 then
        var safe := NonLosing(pos, shuffled);
        Some(if |safe| > 0 then safe[0] else shuffled[0])
      else if difficulty == 1 then
        var caps := Captures(pos, shuffled);
        Some(if |caps| > 0 then caps[0] else shuffled[0])
      else if difficulty == 2 then Some(Level2(pos, shuffled))
      else if difficulty == 3 then
        var r := Minimax(pos, 3, NegInf, PosInf, pos.turn == White, [], order);
        if r.move.Some? then r.move
        else
          var again := order(Fallback, moves);
          ShuffleKeeps(order, Fallback, moves, moves[0]);
          Some(Level2(pos, again))
      else Some(shuffled[0])
  }

  /** Every move of a shuffle of the legal moves of the side to move can
      be simulated and undone on the board. */
  lemma ShuffledAreSafe(pos: Position, order: Order, d: Draw)
    requires IsShuffle(order)
    ensures var sh := order(d, AllLegalMoves(pos, pos.turn));
      |sh| == |AllLegalMoves(pos, pos.turn)| && forall i :: 0 <= i < |sh| ==> SearchSafe(pos.board, sh[i])
  {
    var moves := AllLegalMoves(pos, pos.turn);
    var sh := order(d, moves);
    if |moves| > 0 {
      ShuffleKeeps(order, d, moves, moves[0]);
    } else {
      assert multiset(sh) == multiset(moves);
    }
    forall i | 0 <= i < |sh| ensures SearchSafe(pos.board, sh[i]) {
      ShuffleKeeps(order, d, moves, sh[i]);
      LegalMoveIsSafe(pos, pos.turn, sh[i]);
    }
  }

  // ---------------------------------------------------------------------
  // Properties.

  lemma Level2Legal(pos: Position, order: Order, d: Draw)
    requires IsShuffle(order)
    requires |AllLegalMoves(pos, pos.turn)| > 0
    ensures var sh := order(d, AllLegalMoves(pos, pos.turn)); |sh| > 0 && Level2(pos, sh) in AllLegalMoves(pos, pos.turn)
  {
    var moves := AllLegalMoves(pos, pos.turn);
    ShuffleKeeps(order, d, moves, moves[0]);
    var sh := order(d, moves);
    var x := Level2(pos, sh);
    assert sh[..|sh|] == sh;
    assert x in sh;
    ShuffleKeeps(order, d, moves, x);
  }

  /** calculateBestMove returns null exactly when the side to move has no
      legal move, and otherwise one of its legal moves, at every level. */
  lemma BestMoveIsLegal(pos: Position, difficulty: int, order: Order)
    requires IsShuffle(order)
    ensures BestMove(pos, difficulty, order).None? <==> !HasLegalMoves(pos, pos.turn)
    ensures BestMove(pos, difficulty, order).Some? ==> IsLegalMoveOf(pos, pos.turn, BestMove(pos, difficulty, order).value)
  {
    HasLegalMovesIff(pos, pos.turn);
    var moves := AllLegalMoves(pos, pos.turn);
    var r := BestMove(pos, difficulty, order);
    if |moves| > 0 {
      var sh := order(Pick, moves);
      ShuffleKeeps(order, Pick, moves, moves[0]);
      var m := r.value;
      if difficulty == 0 {
        var safe := NonLosing(pos, sh);
        if |safe| > 0 { NonLosingIff(pos, sh, safe[0]); }
      } else if difficulty == 1 {
        var caps := Captures(pos, sh);
        if |caps| > 0 { CapturesIff(pos, sh, caps[0]); }
      } else if difficulty == 2 {
        Level2Legal(pos, order, Pick);
      } else if difficulty == 3 {
        var s := Minimax(pos, 3, NegInf, PosInf, pos.turn == White, [], order);
        if s.move.Some? {
          MinimaxMoveIsLegal(pos, 3, NegInf, PosInf, pos.turn == White, [], order);
          assert NodePlayer(pos.turn == White) == pos.turn;
          AllLegalMovesIff(pos, pos.turn, m);
        } else {
          Level2Legal(pos, order, Fallback);
        }
      }
      assert m in moves by {
        if difficulty != 2 && difficulty != 3 {
          ShuffleKeeps(order, Pick, moves, m);
        }
      }
      AllLegalMovesIff(pos, pos.turn, m);
    }
  }

  /** Level 0 picks a move that does not leave the moved piece attacked
      whenever there is one. */
  lemma Level0AvoidsHanging(pos: Position, order: Order, m: AiMove)
    requires IsShuffle(order)
    requires m in AllLegalMoves(pos, pos.turn) && NotHanging(pos, m)
    ensures BestMove(pos, 0, order).Some? && NotHanging(pos, BestMove(pos, 0, order).value)
  {
    var moves := AllLegalMoves(pos, pos.turn);
    var sh := order(Pick, moves);
    ShuffleKeeps(order, Pick, moves, m);
    assert sh[..|sh|] == sh;
    NonLosingIff(pos, sh, m);
    var safe := NonLosing(pos, sh);
    NonLosingIff(pos, sh, safe[0]);
  }

  /** Level 1 captures whenever some legal move captures. */
  lemma Level1PrefersCaptures(pos: Position, order: Order, m: AiMove)
    requires IsShuffle(order)
    requires m in AllLegalMoves(pos, pos.turn) && IsCapture(pos, m)
    ensures BestMove(pos, 1, order).Some? && IsCapture(pos, BestMove(pos, 1, order).value)
  {
    var moves := AllLegalMoves(pos, pos.turn);
    var sh := order(Pick, moves);
    ShuffleKeeps(order, Pick, moves, m);
    assert sh[..|sh|] == sh;
    CapturesIff(pos, sh, m);
    var caps := Captures(pos, sh);
    CapturesIff(pos, sh, caps[0]);
  }

  lemma {:induction false} BestOnePlyIsBest(pos: Position, ms: seq<AiMove>, k: nat, m: AiMove)
    requires k <= |ms| && m in ms[..k]
    ensures var r := BestOnePly(pos, ms, k); r.Some? && !Better(pos.turn, OnePlyScore(pos, m), r.value.1)
  {
    assert ms[..k] == ms[..k - 1] + [ms[k - 1]];
    if m in ms[..k - 1] {
      BestOnePlyIsBest(pos, ms, k - 1, m);
    }
  }

  /** Level 2 picks a move whose one-ply score no legal move beats:
      maximal for White, minimal for Black. */
  lemma Level2IsOptimal(pos: Position, order: Order, m: AiMove)
    requires IsShuffle(order)
    requires m in AllLegalMoves(pos, pos.turn)
    ensures BestMove(pos, 2, order).Some?
    ensures !Better(pos.turn, OnePlyScore(pos, m), OnePlyScore(pos, BestMove(pos, 2, order).value))
  {
    var moves := AllLegalMoves(pos, pos.turn);
    var sh := order(Pick, moves);
    ShuffleKeeps(order, Pick, moves, m);
    assert sh[..|sh|] == sh;
    BestOnePlyIsBest(pos, sh, |sh|, m);
  }

  /** Level 3 plays the move of the depth-3 search when there is one; its
      score is then the unpruned minimax value of the position. */
  lemma Level3FollowsSearch(pos: Position, order: Order)
    requires IsShuffle(order)
    requires Minimax(pos, 3, NegInf, PosInf, pos.turn == White, [], order).move.Some?
    ensures BestMove(pos, 3, order) == Minimax(pos, 3, NegInf, PosInf, pos.turn == White, [], order).move
    ensures Minimax(pos, 3, NegInf, PosInf, pos.turn == White, [], order).score == Value(pos, 3, pos.turn == White, [], order)
  {
    MinimaxMoveIsLegal(pos, 3, NegInf, PosInf, pos.turn == White, [], order);
    var m := Minimax(pos, 3, NegInf, PosInf, pos.turn == White, [], order).move.value;
    assert NodePlayer(pos.turn == White) == pos.turn;
    AllLegalMovesIff(pos, pos.turn, m);
    RootIsExact(pos, 3, pos.turn == White, [], order);
  }

  /** Any level other than 0 to 3 (such as the ELO rating 1200 the board
      passes) plays the first shuffled move. */
  lemma OtherLevelsPickFirst(pos: Position, difficulty: int, order: Order)
    requires IsShuffle(order)
    requires difficulty < 0 || difficulty > 3
    requires |AllLegalMoves(pos, pos.turn)| > 0
    ensures BestMove(pos, difficulty, order) == Some(order(Pick, AllLegalMoves(pos, pos.turn))[0])
  {
  }
}
