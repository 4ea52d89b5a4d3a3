/** The rules engine of gameLogic.js as it runs: the game state held in
    mutable fields (the 8×8 board as an array, the side to move, castling
    rights, en passant target, clocks, history), and the engine's functions
    as methods over it, each proved to compute the value the pure modules
    define. */
module Game {
  import opened Pieces
  import opened Boards
  import opened Attacks
  import opened Geometry
  import opened Legality
  import opened Material
  import opened Fen
  import opened Keys
  import opened History
  import Notation

  /** One turn of a sliding loop: the ray from the square `i - 1` steps
      away continues with the square `i` steps away. */
  lemma RayStep(b: Board, r: int, c: int, dr: int, dc: int, player: Color, i: int)
    requires IsDir(dr, dc) && i >= 1
    ensures var pr, pc, nr, nc := Shift(r, dr, i - 1), Shift(c, dc, i - 1), Shift(r, dr, i), Shift(c, dc, i);
      (!OnBoard(nr, nc) ==> RayMoves(b, pr, pc, dr, dc, player) == []) &&
      (OnBoard(nr, nc) ==>
        RayRoom(nr, nc, dr, dc) < RayRoom(pr, pc, dr, dc) &&
        RayMoves(b, pr, pc, dr, dc, player) ==
          match At(b, nr, nc)
          case Some(p) => if p.color != player then [Target(nr, nc, false, false, false)] else []
          case None => [Target(nr, nc, false, false, false)] + RayMoves(b, nr, nc, dr, dc, player))
  {
    assert Shift(r, dr, i - 1) + dr == Shift(r, dr, i) && Shift(c, dc, i - 1) + dc == Shift(c, dc, i);
  }

  /** The engine's global state. `cells` is the board as a value, kept
      equal to the array by Valid. */
  class GameState {
    var board: array2<Cell>
    ghost var cells: Board
    var turn: Color
    var rights: Rights
    var ep: Option<Square>
    var halfmove: int
    var fullmove: int
    var history: seq<Entry>
    var moveIndex: int
    var gameOver: bool

    ghost predicate Valid()
      reads this, board
    {
      board.Length0 == 8 && board.Length1 == 8 &&
      (forall r, c :: 0 <= r < 8 && 0 <= c < 8 ==> board[r, c] == cells[8 * r + c]) &&
      -1 <= moveIndex < |history|
    }

    /** The position on the board. */
    ghost function State(): Position
      reads this
    {
      Position(cells, turn, rights, ep, halfmove, fullmove)
    }

    /** The initial values of the globals: no pieces (the board is filled
        by parseFen), White to move, every castling right, no en passant
        target, clocks 0 and 1, no history. */
    constructor ()
      ensures Valid() && fresh(board)
      ensures State() == Position(EmptyBoard, White, AllRights, None, 0, 1)
      ensures history == [] && moveIndex == -1 && !gameOver
    {
      board := new Cell[8, 8]((_, _) => None);
      cells := EmptyBoard;
      turn := White;
      rights := AllRights;
      ep := None;
      halfmove := 0;
      fullmove := 1;
      history := [];
      moveIndex := -1;
      gameOver := false;
    }

    /** getPieceAt. */
    method GetPieceAt(r: int, c: int) returns (cell: Cell)
      requires Valid()
      ensures cell == At(cells, r, c)
    {
      if r < 0 || r >= 8 || c < 0 || c >= 8 {
        return None;
      }
      cell := board[r, c];
    }

    /** setPieceAt: a write off the board is ignored. */
    method SetPieceAt(r: int, c: int, x: Cell)
      requires Valid()
      modifies board, this`cells
      ensures Valid() && cells == SetAt(old(cells), r, c, x)
    {
      if 0 <= r < 8 && 0 <= c < 8 {
        board[r, c] := x;
        cells := SetAt(cells, r, c, x);
      }
    }

    // -------------------------------------------------------------------
    // The attack oracle.

    /** The first piece along the ray from (r, c) in direction (dr, dc),
        with its distance: the inner loop of isSquareAttacked. */
    method FirstOnRay(r: int, c: int, dr: int, dc: int) returns (found: Option<(Piece, nat)>)
      requires Valid() && IsDir(dr, dc)
      ensures found == FirstFrom(cells, r, c, dr, dc, 0)
    {
      var i := 1;
      while true
        invariant i >= 1
        invariant FirstFrom(cells, r, c, dr, dc, 0) == FirstFrom(cells, Shift(r, dr, i - 1), Shift(c, dc, i - 1), dr, dc, i - 1)
        decreases RayRoom(Shift(r, dr, i - 1), Shift(c, dc, i - 1), dr, dc)
      {
        FirstFromStep(cells, r, c, dr, dc, i);
        var checkR, checkC := Shift(r, dr, i), Shift(c, dc, i);
        if checkR < 0 || checkR >= 8 || checkC < 0 || checkC >= 8 {
          return None;
        }
        var p := GetPieceAt(checkR, checkC);
        if p.Some? {
          return Some((p.value, i));
        }
        i := i + 1;
      }
    }

    /** isSquareAttacked: pawns, then knights, then the eight rays. */
    method IsSquareAttacked(r: int, c: int, attacker: Color) returns (attacked: bool)
      requires Valid()
      ensures attacked == Attacked(cells, r, c, attacker)
    {
      attacked := PawnAttackScan(r, c, attacker);
      if attacked {
        return;
      }
      attacked := KnightAttackScan(r, c, attacker);
      if attacked {
        return;
      }
      attacked := SliderAttackScan(r, c, attacker);
    }

    /** The pawn stage of isSquareAttacked: the two squares diagonally
        behind (r, c) as seen from the attacker. */
    method PawnAttackScan(r: int, c: int, attacker: Color) returns (attacked: bool)
      requires Valid()
      ensures attacked == PawnAttack(cells, r, c, attacker)
    {
      var sourceRow := if attacker == White then r + 1 else r - 1;
      var pawnCols := [c - 1, c + 1];
      for k := 0 to 2
        invariant forall j :: 0 <= j < k ==> !Holds(cells, sourceRow, pawnCols[j], Piece(attacker, Pawn))
      {
        var p := GetPieceAt(sourceRow, pawnCols[k]);
        if p.Some? && p.value.color == attacker && p.value.kind == Pawn {
          return true;
        }
      }
      assert sourceRow == PawnSourceRow(r, attacker) && pawnCols[0] == c - 1 && pawnCols[1] == c + 1;
      return false;
    }

    /** The knight stage of isSquareAttacked: the eight knight jumps. */
    method KnightAttackScan(r: int, c: int, attacker: Color) returns (attacked: bool)
      requires Valid()
      ensures attacked == KnightAttack(cells, r, c, attacker)
    {
      for k := 0 to 8
        invariant forall j :: 0 <= j < k ==> !Holds(cells, r + KnightOffsets[j].0, c + KnightOffsets[j].1, Piece(attacker, Knight))
      {
        var p := GetPieceAt(r + KnightOffsets[k].0, c + KnightOffsets[k].1);
        if p.Some? && p.value.color == attacker && p.value.kind == Knight {
          assert Holds(cells, r + KnightOffsets[k].0, c + KnightOffsets[k].1, Piece(attacker, Knight));
          return true;
        }
      }
      return false;
    }

    /** The sliding stage of isSquareAttacked: the first piece on each of
        the eight rays. */
    method SliderAttackScan(r: int, c: int, attacker: Color) returns (attacked: bool)
      requires Valid()
      ensures attacked == SliderAttack(cells, r, c, attacker)
    {
      for k := 0 to 8
        invariant forall j :: 0 <= j < k ==> !RayAttack(cells, r, c, Directions[j].0, Directions[j].1, attacker)
      {
        var (dr, dc) := Directions[k];
        var found := FirstOnRay(r, c, dr, dc);
        if found.Some? {
          var (p, i) := found.value;
          if p.color == attacker {
            var isDiag := dr != 0 && dc != 0;
            var isOrth := dr == 0 || dc == 0;
            if p.kind == Queen || (p.kind == Bishop && isDiag) || (p.kind == Rook && isOrth) || (p.kind == King && i == 1) {
              assert RayAttack(cells, r, c, Directions[k].0, Directions[k].1, attacker);
              return true;
            }
          }
        }
      }
      return false;
    }

    /** findKing: the first square in row-major order holding the king. */
    method FindKing(player: Color) returns (sq: Option<Square>)
      requires Valid()
      ensures sq == Attacks.FindKing(cells, player)
    {
      var kingPiece := Piece(player, King);
      for r := 0 to 8
        invariant FindKingFrom(cells, player, 0) == FindKingFrom(cells, player, 8 * r)
      {
        for c := 0 to 8
          invariant FindKingFrom(cells, player, 0) == FindKingFrom(cells, player, 8 * r + c)
        {
          var p := GetPieceAt(r, c);
          if p == Some(kingPiece) {
            assert (8 * r + c) / 8 == r && (8 * r + c) % 8 == c;
            return Some(Square(r, c));
          }
        }
      }
      return None;
    }

    /** isKingInCheck: false when the king is missing. */
    method IsKingInCheck(player: Color) returns (inCheck: bool)
      requires Valid()
      ensures inCheck == KingInCheck(cells, player)
    {
      var kingPos := FindKing(player);
      if kingPos.None? {
        return false;
      }
      inCheck := IsSquareAttacked(kingPos.value.row, kingPos.value.col, Opponent(player));
    }

    // -------------------------------------------------------------------
    // Move generation.

    /** addMoveIfValid: the move list with the destination appended when
        the destination is acceptable. */
    method AddMoveIfValid(moves: seq<Target>, fromRow: int, fromCol: int, toRow: int, toCol: int, piece: Piece, o: Options)
      returns (moves': seq<Target>)
      requires Valid()
      ensures moves' == Geometry.AddMoveIfValid(cells, moves, piece, toRow, toCol, o)
    {
      if toRow < 0 || toRow >= 8 || toCol < 0 || toCol >= 8 {
        return moves;
      }
      var targetPiece := GetPieceAt(toRow, toCol);
      var player := piece.color;
      if targetPiece.Some? {
        if targetPiece.value.color == player {
          return moves;
        }
        if !o.canCapture {
          return moves;
        }
      } else {
        if o.mustCapture && !o.isEnPassant {
          return moves;
        }
      }
      moves' := moves + [Target(toRow, toCol, o.isEnPassant, o.isCastling, o.isPromotion)];
    }

    /** The forward steps of getPawnMoves: one square onto an empty
        square, and two from the start row with both squares empty. */
    method GetPawnPushes(r: int, c: int, piece: Piece) returns (moves: seq<Target>)
      requires Valid()
      ensures moves == PawnPushes(cells, r, c, piece)
    {
      moves := [];
      var player := piece.color;
      var direction := if player == White then -1 else 1;
      var startRow := if player == White then 6 else 1;
      var promotionRow := if player == White then 0 else 7;
      var oneStep := r + direction;
      var p1 := GetPieceAt(oneStep, c);
      if 0 <= oneStep < 8 && p1.None? {
        moves := AddMoveIfValid(moves, r, c, oneStep, c, piece, Options(false, false, false, false, oneStep == promotionRow));
        if r == startRow {
          var twoSteps := r + 2 * direction;
          var p2 := GetPieceAt(twoSteps, c);
          if 0 <= twoSteps < 8 && p2.None? && p1.None? {
            moves := AddMoveIfValid(moves, r, c, twoSteps, c, piece, Options(false, false, false, false, false));
          }
        }
      }
    }

    /** One pass of the capture loop of getPawnMoves: a capture of an
        enemy on the diagonal square, and an en passant move when that
        square is the en passant target. */
    method GetPawnCapture(moves: seq<Target>, r: int, c: int, captureCol: int, piece: Piece) returns (moves': seq<Target>)
      requires Valid()
      ensures moves' == PawnCaptureAt(State(), moves, r, captureCol, piece)
    {
      moves' := moves;
      var player := piece.color;
      var oneStep := r + (if player == White then -1 else 1);
      var promotionRow := if player == White then 0 else 7;
      if 0 <= captureCol < 8 {
        var targetPiece := GetPieceAt(oneStep, captureCol);
        var isPromotion := oneStep == promotionRow;
        if targetPiece.Some? && targetPiece.value.color != player {
          moves' := AddMoveIfValid(moves', r, c, oneStep, captureCol, piece, Options(true, true, false, false, isPromotion));
        }
        if ep.Some? && oneStep == ep.value.row && captureCol == ep.value.col {
          moves' := AddMoveIfValid(moves', r, c, oneStep, captureCol, piece, Options(true, true, true, false, false));
        }
      }
    }

    /** getPawnMoves: the pushes, then the captures on the file to the
        left and on the file to the right. */
    method GetPawnMoves(r: int, c: int, piece: Piece) returns (moves: seq<Target>)
      requires Valid()
      ensures moves == PawnMoves(State(), r, c, piece)
    {
      moves := GetPawnPushes(r, c, piece);
      ghost var pushes := moves;
      var captureCols := [c - 1, c + 1];
      for k := 0 to 2
        invariant k == 0 ==> moves == pushes
        invariant k == 1 ==> moves == PawnCaptureAt(State(), pushes, r, c - 1, piece)
        invariant k == 2 ==> moves == PawnMoves(State(), r, c, piece)
      {
        moves := GetPawnCapture(moves, r, c, captureCols[k], piece);
      }
    }

    /** A generator that steps once by each offset of a list (getKnightMoves
        and the first part of getKingMoves). */
    method GetOffsetMoves(r: int, c: int, piece: Piece, offsets: seq<(int, int)>) returns (moves: seq<Target>)
      requires Valid()
      ensures moves == OffsetMoves(cells, r, c, piece, offsets, |offsets|)
    {
      moves := [];
      for k := 0 to |offsets|
        invariant moves == OffsetMoves(cells, r, c, piece, offsets, k)
      {
        var (dr, dc) := offsets[k];
        moves := AddMoveIfValid(moves, r, c, r + dr, c + dc, piece, Plain);
      }
    }

    /** getKnightMoves. */
    method GetKnightMoves(r: int, c: int, piece: Piece) returns (moves: seq<Target>)
      requires Valid()
      ensures moves == KnightMoves(cells, r, c, piece)
    {
      moves := GetOffsetMoves(r, c, piece, KnightOffsets);
    }

    /** The inner loop of getSlidingMoves: the squares along one ray are
        appended up to the first occupied one, which is appended only when
        it holds an enemy. */
    method CollectRay(moves: seq<Target>, r: int, c: int, dr: int, dc: int, piece: Piece) returns (moves': seq<Target>)
      requires Valid() && IsDir(dr, dc)
      ensures moves' == moves + RayMoves(cells, r, c, dr, dc, piece.color)
    {
      moves' := moves;
      var player := piece.color;
      var i := 1;
      while true
        invariant i >= 1
        invariant moves' + RayMoves(cells, Shift(r, dr, i - 1), Shift(c, dc, i - 1), dr, dc, player) ==
                  moves + RayMoves(cells, r, c, dr, dc, player)
        decreases RayRoom(Shift(r, dr, i - 1), Shift(c, dc, i - 1), dr, dc)
      {
        RayStep(cells, r, c, dr, dc, player, i);
        var toRow, toCol := Shift(r, dr, i), Shift(c, dc, i);
        if toRow < 0 || toRow >= 8 || toCol < 0 || toCol >= 8 {
          return;
        }
        ghost var before, rest := moves', RayMoves(cells, toRow, toCol, dr, dc, player);
        var blocked;
        moves', blocked := RaySquare(moves', r, c, toRow, toCol, piece);
        if blocked {
          return;
        }
        AppendAssoc(before, [Target(toRow, toCol, false, false, false)], rest);
        i := i + 1;
      }
    }

    /** One square of a ray on the board: an empty square is appended and
        the ray goes on; an occupied one stops it, and is appended only when
        it holds an enemy. */
    method RaySquare(moves: seq<Target>, r: int, c: int, toRow: int, toCol: int, piece: Piece) returns (moves': seq<Target>, blocked: bool)
      requires Valid() && OnBoard(toRow, toCol)
      ensures blocked == At(cells, toRow, toCol).Some?
      ensures blocked ==> moves' == moves + (if At(cells, toRow, toCol).value.color != piece.color
                                             then [Target(toRow, toCol, false, false, false)] else [])
      ensures !blocked ==> moves' == moves + [Target(toRow, toCol, false, false, false)]
    {
      var targetPiece := GetPieceAt(toRow, toCol);
      blocked := targetPiece.Some?;
      moves' := moves;
      if blocked && targetPiece.value.color == piece.color {
        return;
      }
      moves' := AddMoveIfValid(moves, r, c, toRow, toCol, piece, Plain);
    }

    /** getSlidingMoves: the rays of each direction in turn. */
    method GetSlidingMoves(r: int, c: int, piece: Piece, directions: seq<(int, int)>) returns (moves: seq<Target>)
      requires Valid() && forall k :: 0 <= k < |directions| ==> IsDir(directions[k].0, directions[k].1)
      ensures moves == SlidingMoves(cells, r, c, piece.color, directions, |directions|)
    {
      moves := [];
      for k := 0 to |directions|
        invariant moves == SlidingMoves(cells, r, c, piece.color, directions, k)
      {
        var (dr, dc) := directions[k];
        moves := CollectRay(moves, r, c, dr, dc, piece);
      }
    }

    /** getBishopMoves. */
    method GetBishopMoves(r: int, c: int, piece: Piece) returns (moves: seq<Target>)
      requires Valid()
      ensures moves == BishopMoves(cells, r, c, piece)
    {
      moves := GetSlidingMoves(r, c, piece, BishopDirections);
    }

    /** getRookMoves. */
    method GetRookMoves(r: int, c: int, piece: Piece) returns (moves: seq<Target>)
      requires Valid()
      ensures moves == RookMoves(cells, r, c, piece)
    {
      moves := GetSlidingMoves(r, c, piece, RookDirections);
    }

    /** getQueenMoves: the bishop moves, then the rook moves. */
    method GetQueenMoves(r: int, c: int, piece: Piece) returns (moves: seq<Target>)
      requires Valid()
      ensures moves == QueenMoves(cells, r, c, piece)
    {
      var bishopMoves := GetBishopMoves(r, c, piece);
      var rookMoves := GetRookMoves(r, c, piece);
      moves := bishopMoves + rookMoves;
    }

    /** The kingside branch of getKingMoves. */
    method TryKingside(moves: seq<Target>, r: int, c: int, piece: Piece) returns (moves': seq<Target>)
      requires Valid()
      ensures moves' == CastleKingside(State(), r, c, piece, moves)
    {
      moves' := moves;
      var player := piece.color;
      var opp := Opponent(player);
      if KingSide(rights, player) {
        var e1 := GetPieceAt(r, c + 1);
        var e2 := GetPieceAt(r, c + 2);
        var rook := GetPieceAt(r, c + 3);
        if e1.None? && e2.None? && rook.Some? && rook == Some(Piece(player, Rook)) {
          var a1 := IsSquareAttacked(r, c + 1, opp);
          var a2 := IsSquareAttacked(r, c + 2, opp);
          if !a1 && !a2 {
            moves' := AddMoveIfValid(moves', r, c, r, c + 2, piece, Castle);
          }
        }
      }
    }

    /** The queenside branch of getKingMoves. */
    method TryQueenside(moves: seq<Target>, r: int, c: int, piece: Piece) returns (moves': seq<Target>)
      requires Valid()
      ensures moves' == CastleQueenside(State(), r, c, piece, moves)
    {
      moves' := moves;
      var player := piece.color;
      var opp := Opponent(player);
      if QueenSide(rights, player) {
        var e1 := GetPieceAt(r, c - 1);
        var e2 := GetPieceAt(r, c - 2);
        var e3 := GetPieceAt(r, c - 3);
        var rook := GetPieceAt(r, c - 4);
        if e1.None? && e2.None? && e3.None? && rook.Some? && rook == Some(Piece(player, Rook)) {
          var a1 := IsSquareAttacked(r, c - 1, opp);
          var a2 := IsSquareAttacked(r, c - 2, opp);
          if !a1 && !a2 {
            moves' := AddMoveIfValid(moves', r, c, r, c - 2, piece, Castle);
          }
        }
      }
    }

    /** getKingMoves: the eight steps, then castling when a right is held
        and the king is not attacked. */
    method GetKingMoves(r: int, c: int, piece: Piece) returns (moves: seq<Target>)
      requires Valid()
      ensures moves == KingMoves(State(), r, c, piece)
    {
      moves := GetOffsetMoves(r, c, piece, Directions);
      var player := piece.color;
      if KingSide(rights, player) || QueenSide(rights, player) {
        var inCheck := IsSquareAttacked(r, c, Opponent(player));
        if !inCheck {
          moves := TryKingside(moves, r, c, piece);
          moves := TryQueenside(moves, r, c, piece);
        }
      }
    }

    /** The generator switch of generateLegalMoves. */
    method GetPseudoMoves(r: int, c: int, piece: Piece) returns (moves: seq<Target>)
      requires Valid()
      ensures moves == PseudoMoves(State(), r, c, piece)
    {
      match piece.kind
      case Pawn => moves := GetPawnMoves(r, c, piece);
      case Knight => moves := GetKnightMoves(r, c, piece);
      case Bishop => moves := GetBishopMoves(r, c, piece);
      case Rook => moves := GetRookMoves(r, c, piece);
      case Queen => moves := GetQueenMoves(r, c, piece);
      case King => moves := GetKingMoves(r, c, piece);
    }

    // -------------------------------------------------------------------
    // The legality filter.

    /** The simulation in generateLegalMoves: the piece to the target,
        the origin emptied, the en passant pawn removed, the castling rook
        moved; what it finds missing is reported, and what it removed is
        returned for the undo. */
    method SimulateMove(row: int, col: int, piece: Piece, t: Target)
      returns (simError: bool, capturedEnPassantPawn: Cell, originalRookPiece: Cell)
      requires Valid()
      modifies board, this`cells
      ensures Valid()
      ensures var sim := Simulate(old(cells), turn, row, col, piece, t);
        cells == sim.board && simError == sim.simError &&
        capturedEnPassantPawn == sim.captured && originalRookPiece == sim.rookPiece
    {
      capturedEnPassantPawn, originalRookPiece := None, None;
      simError := false;
      SetPieceAt(t.row, t.col, Some(piece));
      SetPieceAt(row, col, None);
      if t.isEnPassant {
        var capturedPawnRow := if turn == White then t.row + 1 else t.row - 1;
        capturedEnPassantPawn := GetPieceAt(capturedPawnRow, t.col);
        if capturedEnPassantPawn.None? {
          simError := true;
        }
        SetPieceAt(capturedPawnRow, t.col, None);
      }
      if t.isCastling {
        var rookFromCol := if t.col > col then 7 else 0;
        var rookToCol := if t.col > col then t.col - 1 else t.col + 1;
        originalRookPiece := GetPieceAt(row, rookFromCol);
        if originalRookPiece.Some? && originalRookPiece.value.kind == Rook {
          SetPieceAt(row, rookToCol, originalRookPiece);
          SetPieceAt(row, rookFromCol, None);
        } else {
          simError := true;
        }
      }
    }

    /** The undo in generateLegalMoves: the piece and the target piece put
        back, the en passant pawn put back, the rook (any piece found in the
        corner) returned to its corner. */
    method UndoMove(row: int, col: int, piece: Piece, t: Target, originalPieceAtTarget: Cell,
                    capturedEnPassantPawn: Cell, originalRookPiece: Cell, ghost sim: Sim)
      requires Valid() && cells == sim.board
      requires capturedEnPassantPawn == sim.captured && originalRookPiece == sim.rookPiece
      modifies board, this`cells
      ensures Valid() && cells == Undo(row, col, piece, turn, t, originalPieceAtTarget, sim)
    {
      SetPieceAt(row, col, Some(piece));
      SetPieceAt(t.row, t.col, originalPieceAtTarget);
      if t.isEnPassant {
        var capturedPawnRow := if turn == White then t.row + 1 else t.row - 1;
        SetPieceAt(capturedPawnRow, t.col, capturedEnPassantPawn);
      }
      if t.isCastling && originalRookPiece.Some? {
        var rookFromCol := if t.col > col then 7 else 0;
        var rookToCol := if t.col > col then t.col - 1 else t.col + 1;
        SetPieceAt(row, rookFromCol, originalRookPiece);
        SetPieceAt(row, rookToCol, None);
      }
    }

    /** One candidate of the filter: simulate, test the mover's king
        (a failed simulation counts as check), undo, and restore the
        castling rights and en passant target. */
    method TryMove(row: int, col: int, piece: Piece, t: Target) returns (legal: bool)
      requires Valid() && OnBoard(row, col) && At(cells, row, col) == Some(piece) && piece.color == turn
      requires WellShaped(cells, row, col, piece, t)
      modifies board, this`cells, this`rights, this`ep
      ensures Valid() && cells == old(cells) && rights == old(rights) && ep == old(ep)
      ensures legal == Legal(old(cells), turn, row, col, piece, t)
    {
      ghost var b := cells;
      ghost var sim := Simulate(b, turn, row, col, piece, t);
      var originalPieceAtTarget := GetPieceAt(t.row, t.col);
      var originalCastling := rights;
      var originalEnPassant := ep;
      var simError, capturedEnPassantPawn, originalRookPiece := SimulateMove(row, col, piece, t);
      var kingInCheck := true;
      if !simError {
        kingInCheck := IsKingInCheck(turn);
      }
      UndoMove(row, col, piece, t, originalPieceAtTarget, capturedEnPassantPawn, originalRookPiece, sim);
      rights := originalCastling;
      ep := originalEnPassant;
      UndoRestores(b, turn, row, col, piece, t);
      legal := !kingInCheck;
    }

    /** generateLegalMoves: the pseudo-legal moves of the piece on
        (row, col) that pass the filter, nothing for an empty square or a
        piece of the side not to move; the board, the castling rights and
        the en passant target are as they were. */
    method GenerateLegalMoves(row: int, col: int) returns (legal: seq<Target>)
      requires Valid()
      modifies board, this`cells, this`rights, this`ep
      ensures Valid() && cells == old(cells) && rights == old(rights) && ep == old(ep)
      ensures legal == LegalMoves(old(State()), row, col)
    {
      var piece := GetPieceAt(row, col);
      if piece.None? || piece.value.color != turn {
        return [];
      }
      var potentialMoves := GetPseudoMoves(row, col, piece.value);
      PseudoMovesShaped(State(), row, col, piece.value);
      legal := FilterByTrying(row, col, piece.value, potentialMoves);
    }

    /** The filtering loop of generateLegalMoves: each candidate is tried
        in turn and kept when it is legal. */
    method FilterByTrying(row: int, col: int, piece: Piece, potentialMoves: seq<Target>) returns (legal: seq<Target>)
      requires Valid() && OnBoard(row, col) && At(cells, row, col) == Some(piece) && piece.color == turn
      requires AllWellShaped(cells, row, col, piece, potentialMoves)
      modifies board, this`cells, this`rights, this`ep
      ensures Valid() && cells == old(cells) && rights == old(rights) && ep == old(ep)
      ensures legal == FilterLegal(old(cells), turn, row, col, piece, potentialMoves, |potentialMoves|)
    {
      ghost var b := cells;
      ghost var oks: seq<bool> := [];
      legal := [];
      for i := 0 to |potentialMoves|
        invariant Valid() && cells == b && rights == old(rights) && ep == old(ep)
        invariant |oks| == i && legal == Kept(potentialMoves, oks, i)
        invariant Verdicts(b, turn, row, col, piece, potentialMoves, oks)
      {
        legal, oks := KeepIfLegal(row, col, piece, potentialMoves, i, legal, oks);
      }
      KeptIsFilter(b, turn, row, col, piece, potentialMoves, oks, |potentialMoves|);
    }

    /** One candidate of generateLegalMoves: tried, and kept when it is
        legal; `oks` records the verdicts so far. */
    method KeepIfLegal(row: int, col: int, piece: Piece, ms: seq<Target>, i: nat, legal: seq<Target>, ghost oks: seq<bool>)
      returns (legal': seq<Target>, ghost oks': seq<bool>)
      requires Valid() && OnBoard(row, col) && At(cells, row, col) == Some(piece) && piece.color == turn
      requires i < |ms| && WellShaped(cells, row, col, piece, ms[i])
      requires |oks| == i && legal == Kept(ms, oks, i) && Verdicts(cells, turn, row, col, piece, ms, oks)
      modifies board, this`cells, this`rights, this`ep
      ensures Valid() && cells == old(cells) && rights == old(rights) && ep == old(ep)
      ensures |oks'| == i + 1 && legal' == Kept(ms, oks', i + 1) && Verdicts(cells, turn, row, col, piece, ms, oks')
    {
      var ok := TryMove(row, col, piece, ms[i]);
      legal' := if ok then legal + [ms[i]] else legal;
      oks' := oks + [ok];
      VerdictsExtend(cells, turn, row, col, piece, ms, oks, ok);
    }

    // -------------------------------------------------------------------
    // Game end.

    /** hasLegalMoves(player): with `player` put to move, the squares are
        searched until one of the player's pieces has a legal move; the
        side to move is restored. */
    method HasLegalMoves(player: Color) returns (foundMove: bool)
      requires Valid()
      modifies board, this`cells, this`turn, this`rights, this`ep
      ensures Valid() && State() == old(State())
      ensures foundMove == Legality.HasLegalMoves(old(State()), player)
    {
      ghost var start := State();
      ghost var pos := start.(turn := player);
      var originalPlayer := turn;
      turn := player;
      foundMove := false;
      var r := 0;
      while r < 8
        invariant 0 <= r <= 8 && Valid() && State() == pos
        invariant foundMove ==> Legality.HasLegalMoves(start, player)
        invariant !foundMove ==> forall r', c' :: 0 <= r' < r && 0 <= c' < 8 ==>
          !(IsPlayerPiece(At(pos.board, r', c'), player) && |LegalMoves(pos, r', c')| > 0)
      {
        var c := 0;
        while c < 8
          invariant 0 <= c <= 8 && Valid() && State() == pos
          invariant foundMove ==> Legality.HasLegalMoves(start, player)
          invariant !foundMove ==> forall r', c' :: ((0 <= r' < r && 0 <= c' < 8) || (r' == r && 0 <= c' < c)) ==>
            !(IsPlayerPiece(At(pos.board, r', c'), player) && |LegalMoves(pos, r', c')| > 0)
        {
          var piece := GetPieceAt(r, c);
          if piece.Some? && piece.value.color == player {
            var moves := GenerateLegalMoves(r, c);
            if |moves| > 0 {
              foundMove := true;
              break;
            }
          }
          c := c + 1;
        }
        if foundMove {
          break;
        }
        r := r + 1;
      }
      turn := originalPlayer;
    }

    /** checkGameEndCondition: checkmate or stalemate when the side to
        move has no legal move, according to whether its king is attacked. */
    method CheckGameEndCondition() returns (end: GameEnd)
      requires Valid()
      modifies board, this`cells, this`turn, this`rights, this`ep
      ensures Valid() && State() == old(State())
      ensures end == GameEndCondition(old(State()))
    {
      var any := HasLegalMoves(turn);
      if !any {
        var inCheck := IsKingInCheck(turn);
        if inCheck {
          return Checkmate;
        } else {
          return Stalemate;
        }
      }
      return NotOver;
    }

    /** hasInsufficientMaterial: the tally of the board in row-major order,
        then the tests on it. */
    method HasInsufficientMaterial() returns (insufficient: bool)
      requires Valid()
      ensures insufficient == InsufficientMaterial(cells)
    {
      var piecesW: seq<Kind>, piecesB: seq<Kind> := [], [];
      var lightW, lightB, darkW, darkB := 0, 0, 0, 0;
      var pieceCount := 0;
      for r := 0 to 8
        invariant Tally(piecesW, piecesB, lightW, lightB, darkW, darkB, pieceCount) == TallyUpTo(cells, 8 * r)
      {
        for c := 0 to 8
          invariant Tally(piecesW, piecesB, lightW, lightB, darkW, darkB, pieceCount) == TallyUpTo(cells, 8 * r + c)
        {
          assert (8 * r + c) / 8 == r && (8 * r + c) % 8 == c;
          var piece := GetPieceAt(r, c);
          if piece.Some? {
            pieceCount := pieceCount + 1;
            var kind := piece.value.kind;
            if piece.value.color == White {
              piecesW := piecesW + [kind];
            } else {
              piecesB := piecesB + [kind];
            }
            if kind == Bishop {
              var squareColor := (r + c) % 2;
              if squareColor == 0 {
                if piece.value.color == White { darkW := darkW + 1; } else { darkB := darkB + 1; }
              } else {
                if piece.value.color == White { lightW := lightW + 1; } else { lightB := lightB + 1; }
              }
            }
          }
        }
      }
      if pieceCount <= 2 {
        return true;
      }
      if CheckSide(piecesW, lightW, darkW) && CheckSide(piecesB, lightB, darkB) {
        return true;
      }
      if pieceCount == 4 && |piecesW| == 2 && |piecesB| == 2 &&
         King in piecesW && Bishop in piecesW && King in piecesB && Bishop in piecesB {
        var wBishLight := lightW > 0;
        var bBishLight := lightB > 0;
        if wBishLight == bBishLight {
          return true;
        }
      }
      return false;
    }

    // -------------------------------------------------------------------
    // History.

    /** `board.map(row => [...row])`: the board copied out as a value. */
    method CopyBoard() returns (b: Board)
      requires Valid()
      ensures b == cells
    {
      var copy: seq<Cell> := [];
      for r := 0 to 8
        invariant copy == cells[..8 * r]
      {
        for c := 0 to 8
          invariant copy == cells[..8 * r + c]
        {
          assert cells[..8 * r + c + 1] == cells[..8 * r + c] + [cells[8 * r + c]];
          copy := copy + [board[r, c]];
        }
      }
      assert copy == cells;
      b := copy;
    }

    /** `board = state.board.map(row => [...row])`: a recorded board
        written back square by square. */
    method LoadBoard(b: Board)
      requires Valid()
      modifies board, this`cells
      ensures Valid() && cells == b
    {
      for r := 0 to 8
        invariant Valid() && forall i :: 0 <= i < 8 * r ==> cells[i] == b[i]
      {
        for c := 0 to 8
          invariant Valid() && forall i :: 0 <= i < 8 * r + c ==> cells[i] == b[i]
        {
          SetPieceAt(r, c, b[8 * r + c]);
        }
      }
    }

    /** currentPlayer = side. */
    method SetTurn(side: Color)
      requires Valid()
      modifies this`turn
      ensures Valid() && turn == side
    {
      turn := side;
    }

    /** isGameOver = value. */
    method SetGameOver(value: bool)
      requires Valid()
      modifies this`gameOver
      ensures Valid() && gameOver == value
    {
      gameOver := value;
    }

    /** currentMoveIndex = index, for an index into the history. */
    method SetMoveIndex(index: int)
      requires Valid() && 0 <= index < |history|
      modifies this`moveIndex
      ensures Valid() && moveIndex == index
    {
      moveIndex := index;
    }

    /** checkThreefoldRepetition: never before index 8; otherwise whether
        at least three of the states up to the index have the key of the
        position on the board. */
    method CheckThreefoldRepetition() returns (threefold: bool)
      requires Valid()
      ensures threefold == Threefold(history, moveIndex, State())
    {
      if moveIndex < 8 {
        return false;
      }
      var b := CopyBoard();
      var currentPositionString := BoardPositionString(Position(b, turn, rights, ep, halfmove, fullmove));
      assert currentPositionString == PositionKey(State());
      var repetitionCount := 0;
      for i := 0 to moveIndex + 1
        invariant repetitionCount == Count(history, i, State())
      {
        var pastPositionString := BoardPositionString(history[i].pos);
        KeyIffSame(history[i].pos, State());
        if pastPositionString == currentPositionString {
          repetitionCount := repetitionCount + 1;
        }
      }
      threefold := repetitionCount >= 3;
    }

    /** pushHistoryState(moveInfo): a copy of the position is appended,
        after dropping the states past the index unless truncation is
        switched off, and the index moves on to it. */
    method PushHistoryState(info: MoveInfo)
      requires Valid()
      modifies this`history, this`moveIndex
      ensures Valid()
      ensures (history, moveIndex) == Pushed(old(history), old(moveIndex), State(), info)
    {
      var boardCopy := CopyBoard();
      var state := Entry(Position(boardCopy, turn, rights, ep, halfmove, fullmove),
                         OrNullString(info.notation), OrNullNumber(info.moveNumber));
      if info.truncate && moveIndex < |history| - 1 {
        history := history[..moveIndex + 1];
      }
      history := history + [state];
      moveIndex := moveIndex + 1;
    }

    // -------------------------------------------------------------------
    // FEN import.

    /** The loop of parseFen over the characters of rank `r`: the squares
        are written left to right; the result says whether the rank is
        accepted, and the other ranks are not touched. */
    method ParseRankInto(r: int, rank: string) returns (ok: bool)
      requires Valid() && 0 <= r < 8
      modifies board, this`cells
      ensures Valid()
      ensures forall r', c' :: r' != r ==> At(cells, r', c') == At(old(cells), r', c')
      ensures ok == ParseRank(rank).Some?
      ensures ok ==> forall c :: 0 <= c < 8 ==> At(cells, r, c) == ParseRank(rank).value[c]
    {
      ghost var filled: seq<Cell> := [];
      var col := 0;
      var i := 0;
      while i < |rank|
        invariant 0 <= i <= |rank| && Valid()
        invariant ScanFrom(Filling([]), rank[..i]) == Filling(filled)
        invariant col == |filled| <= 8
        invariant forall c :: 0 <= c < col ==> At(cells, r, c) == filled[c]
        invariant forall r', c' :: r' != r ==> At(cells, r', c') == At(old(cells), r', c')
      {
        if col >= 8 {
          ScanRest(rank, i, filled);
          break;
        }
        ScanStep(rank, i);
        var ch := rank[i];
        if !IsDigit(ch) && !IsJsSpace(ch) {
          var piece := PieceOfChar(ch);
          if piece.Some? {
            SetPieceAt(r, col, piece);
            filled := filled + [piece];
            col := col + 1;
          } else {
            ScanRejects(rank, i);
            return false;
          }
        } else {
          ParseIntOneChar(ch);
          var emptySquares := ParseIntJs([ch]);
          if emptySquares.Some? && (emptySquares.value < 1 || emptySquares.value > 8) {
            ScanRejects(rank, i);
            return false;
          }
          var n := if emptySquares.Some? then emptySquares.value else 0;
          var fits := FillEmpty(r, col, n);
          if !fits {
            ScanRejects(rank, i);
            return false;
          }
          filled := filled + Nones(n);
          col := col + n;
        }
        i := i + 1;
      }
      if i == |rank| {
        assert rank[..i] == rank;
      }
      if col != 8 {
        return false;
      }
      return true;
    }

    /** The empty-squares loop of parseFen's rank scan: `n` squares of
        rank `r` from column `col` on are cleared, failing at the edge of
        the board when the run is too long. */
    method FillEmpty(r: int, col: int, n: nat) returns (ok: bool)
      requires Valid() && 0 <= r < 8 && 0 <= col <= 8
      modifies board, this`cells
      ensures Valid() && ok == (col + n <= 8)
      ensures forall c :: 0 <= c < col ==> At(cells, r, c) == At(old(cells), r, c)
      ensures ok ==> forall c :: col <= c < col + n ==> At(cells, r, c) == None
      ensures forall r', c' :: r' != r ==> At(cells, r', c') == At(old(cells), r', c')
    {
      for k := 0 to n
        invariant Valid() && col + k <= 8
        invariant forall c :: 0 <= c < col ==> At(cells, r, c) == At(old(cells), r, c)
        invariant forall c :: col <= c < col + k ==> At(cells, r, c) == None
        invariant forall r', c' :: r' != r ==> At(cells, r', c') == At(old(cells), r', c')
      {
        if col + k >= 8 {
          return false;
        }
        SetPieceAt(r, col + k, None);
      }
      return true;
    }

    /** The rank loop of parseFen: the eight ranks written top to bottom,
        stopping at the first rejected one. */
    method ParseBoard(rows: seq<string>) returns (ok: bool)
      requires Valid() && |rows| == 8
      modifies board, this`cells
      ensures Valid()
      ensures ok == ParseRanks(rows).Some?
      ensures ok ==> cells == ParseRanks(rows).value
    {
      for r := 0 to 8
        invariant Valid()
        invariant ParseRanks(rows[..r]) == Some(cells[..8 * r])
      {
        ghost var before := cells;
        var rankOk := ParseRankInto(r, rows[r]);
        assert rows[..r + 1][..r] == rows[..r] && rows[..r + 1][r] == rows[r];
        if !rankOk {
          ParseRanksPrefix(rows, r + 1);
          return false;
        }
        ghost var row := ParseRank(rows[r]).value;
        forall j | 0 <= j < 8 * (r + 1)
          ensures cells[j] == (before[..8 * r] + row)[j]
        {
          assert At(cells, j / 8, j % 8) == cells[j];
          if j < 8 * r {
            assert At(before, j / 8, j % 8) == before[j];
          }
        }
        assert cells[..8 * (r + 1)] == before[..8 * r] + row;
      }
      assert rows[..8] == rows && cells[..64] == cells;
      return true;
    }

    /** The castling field of parseFen: the rights start cleared, and each
        of K, Q, k, q anywhere in the field grants its right. */
    method ParseCastling(castlingFen: string)
      requires Valid()
      modifies this`rights
      ensures Valid()
      ensures rights == FenRights(castlingFen)
    {
      rights := NoRights;
      if castlingFen != "-" {
        for i := 0 to |castlingFen|
          invariant rights == Rights('K' in castlingFen[..i], 'Q' in castlingFen[..i], 'k' in castlingFen[..i], 'q' in castlingFen[..i])
        {
          assert castlingFen[..i + 1] == castlingFen[..i] + [castlingFen[i]];
          var ch := castlingFen[i];
          if ch == 'K' {
            rights := rights.(wK := true);
          } else if ch == 'Q' {
            rights := rights.(wQ := true);
          } else if ch == 'k' {
            rights := rights.(bK := true);
          } else if ch == 'q' {
            rights := rights.(bQ := true);
          }
        }
        assert castlingFen[..|castlingFen|] == castlingFen;
      }
    }

    /** The en passant field of parseFen: a two-character square on the
        board is kept only on row 2 with White to move or row 5 with Black;
        anything else but "-" clears the target. */
    method ParseEnPassant(enPassantFen: string, player: string)
      requires Valid()
      modifies this`ep
      ensures Valid()
      ensures enPassantFen == "-" ==> ep == old(ep)
      ensures enPassantFen != "-" && player == "w" ==> ep == FenEp(enPassantFen, White)
      ensures enPassantFen != "-" && player == "b" ==> ep == FenEp(enPassantFen, Black)
    {
      if enPassantFen != "-" {
        if |enPassantFen| == 2 {
          var file := enPassantFen[0] as int - 'a' as int;
          var rank := 8 - (enPassantFen[1] as int - '0' as int);
          if 0 <= file < 8 && 0 <= rank < 8 {
            if (player == "w" && rank == 2) || (player == "b" && rank == 5) {
              ep := Some(Square(rank, file));
            } else {
              ep := None;
            }
          } else {
            ep := None;
          }
        } else {
          ep := None;
        }
      }
    }

    /** One square of checkAmbiguity's scan, with the piece's owner to
        move: not the origin, the same piece, and a legal move to the target. */
    method IsRival(ghost start: Position, piece: Piece, from: Square, to: Square, r: int, c: int) returns (found: bool)
      requires Valid() && State() == start.(turn := piece.color)
      modifies board, this`cells, this`rights, this`ep
      ensures Valid() && State() == old(State())
      ensures found == Notation.Rival(start, piece, from, to, r, c)
    {
      found := false;
      if !(r == from.row && c == from.col) {
        var otherPiece := GetPieceAt(r, c);
        if otherPiece == Some(piece) {
          var otherLegalMoves := GenerateLegalMoves(r, c);
          found := Notation.Reaches(otherLegalMoves, to);
        }
      }
    }

    /** checkAmbiguity(from, to, piece): every other square holding the
        same piece is asked, with its owner put to move, whether one of its
        legal moves lands on the target; the four flags record where the
        rivals stand. The side to move is restored afterwards. */
    method CheckAmbiguity(piece: Piece, from: Square, to: Square) returns (a: Notation.Ambiguity)
      requires Valid()
      modifies board, this`cells, this`turn, this`rights, this`ep
      ensures Valid() && State() == old(State())
      ensures a == Notation.CheckAmbiguity(old(State()), piece, from, to)
    {
      ghost var start := State();
      ghost var pos := start.(turn := piece.color);
      ghost var table := Notation.RivalTable(start, piece, from, to);
      var fileAmbig, rankAmbig, needsFile, needsRank := false, false, false, false;
      var originalCurrentPlayer := turn;
      turn := piece.color;
      for r := 0 to 8
        invariant Valid() && State() == pos
        invariant Notation.Ambiguity(fileAmbig, rankAmbig, needsFile, needsRank) == Notation.Scanned(table, from, 8 * r)
      {
        for c := 0 to 8
          invariant Valid() && State() == pos
          invariant Notation.Ambiguity(fileAmbig, rankAmbig, needsFile, needsRank) == Notation.Scanned(table, from, 8 * r + c)
        {
          var found := IsRival(start, piece, from, to, r, c);
          Notation.TableAt(start, piece, from, to, r, c);
          if found {
            if c != from.col { fileAmbig := true; }
            if r != from.row { rankAmbig := true; }
            if r == from.row { needsFile := true; }
            if c == from.col { needsRank := true; }
          }
          assert (8 * r + c) / 8 == r && (8 * r + c) % 8 == c;
        }
      }
      turn := originalCurrentPlayer;
      a := Notation.Ambiguity(fileAmbig, rankAmbig, needsFile, needsRank);
      Notation.ScannedIsFlags(table, from, 64);
    }

    /** getAlgebraicNotation: the base notation of a move, before the check,
        mate and promotion marks are added. */
    method GetAlgebraicNotation(from: Square, to: Square, piece: Piece, captured: Cell, isEnPassant: bool, isCastling: bool)
      returns (notation: string)
      requires Valid() && OnBoard(from.row, from.col) && OnBoard(to.row, to.col)
      modifies board, this`cells, this`turn, this`rights, this`ep
      ensures Valid() && State() == old(State())
      ensures notation == Notation.AlgebraicNotation(old(State()), piece, captured, from, to, isEnPassant, isCastling)
    {
      var destFile := Notation.FileChar(to.col);
      var destRank := Notation.RankString(to.row);
      var fromFile := Notation.FileChar(from.col);
      if isCastling {
        return if to.col > from.col then "O-O" else "O-O-O";
      }
      notation := "";
      var isCapture := captured.Some? || isEnPassant;
      if piece.kind == Pawn {
        if isCapture {
          notation := [fromFile, 'x'];
        }
        notation := notation + ([destFile] + destRank);
      } else {
        notation := [KindLetter(piece.kind)];
        var ambiguity := CheckAmbiguity(piece, from, to);
        var hint := Disambiguation(ambiguity, from);
        notation := notation + hint;
        if isCapture {
          notation := notation + "x";
        }
        notation := notation + ([destFile] + destRank);
        Notation.PieceNotation(old(State()), piece, captured, from, to, isEnPassant, ambiguity);
      }
    }

    /** The last three fields parseFen stores. */
    method SetSideAndClocks(side: Color, h: int, f: int)
      requires Valid()
      modifies this`turn, this`halfmove, this`fullmove
      ensures Valid() && turn == side && halfmove == h && fullmove == f
    {
      turn, halfmove, fullmove := side, h, f;
    }

    /** The side to move, en passant target and clocks a search
        simulation writes and restores. */
    method SetSearchFields(side: Color, target: Option<Square>, h: int, f: int)
      requires Valid()
      modifies this`turn, this`ep, this`halfmove, this`fullmove
      ensures Valid() && turn == side && ep == target && halfmove == h && fullmove == f
    {
      turn, ep, halfmove, fullmove := side, target, h, f;
    }

    /** castlingRights = prevCastling. */
    method SetRights(saved: Rights)
      requires Valid()
      modifies this`rights
      ensures Valid() && rights == saved
    {
      rights := saved;
    }

    /** parseFen(fen): false when the text does not have six fields, eight
        ranks, acceptable ranks and a side to move of w or b; otherwise the
        position it describes is on the board and the game is not over.
        Nothing is promised about the state after a failure, which the
        engine leaves half written. */
    method ParseFen(fen: string) returns (ok: bool)
      requires Valid()
      modifies board, this`cells, this`turn, this`rights, this`ep, this`halfmove, this`fullmove, this`gameOver
      ensures Valid()
      ensures ok == FenPosition(fen).Some?
      ensures ok ==> State() == FenPosition(fen).value && !gameOver
    {
      var parts := Split(fen, ' ');
      if |parts| != 6 {
        return false;
      }
      ok := ParseFields(parts);
    }

    /** parseFen once the six fields are split off. */
    method ParseFields(parts: seq<string>) returns (ok: bool)
      requires Valid() && |parts| == 6
      modifies board, this`cells, this`turn, this`rights, this`ep, this`halfmove, this`fullmove, this`gameOver
      ensures Valid()
      ensures ok == FenFields(parts).Some?
      ensures ok ==> State() == FenFields(parts).value && !gameOver
    {
      var boardFen := parts[0];
      var player := parts[1];
      var castlingFen := parts[2];
      var enPassantFen := parts[3];
      var halfmoveClock := ParseIntJs(parts[4]);
      var fullmoveNumber := ParseIntJs(parts[5]);

      rights := NoRights;
      ep := None;
      gameOver := false;

      var rows := Split(boardFen, '/');
      if |rows| != 8 {
        return false;
      }
      var boardOk := ParseBoard(rows);
      if !boardOk {
        return false;
      }
      ok := ParseAfterBoard(parts, halfmoveClock, fullmoveNumber);
    }

    /** parseFen after the placement is on the board: castling, en passant,
        the side to move and the clocks. */
    method ParseAfterBoard(parts: seq<string>, halfmoveClock: Option<int>, fullmoveNumber: Option<int>) returns (ok: bool)
      requires Valid() && |parts| == 6 && !gameOver && ep.None?
      requires halfmoveClock == ParseIntJs(parts[4]) && fullmoveNumber == ParseIntJs(parts[5])
      modifies this`turn, this`rights, this`ep, this`halfmove, this`fullmove
      ensures Valid() && cells == old(cells)
      ensures ok == FenAfterBoard(parts, cells).Some?
      ensures ok ==> State() == FenAfterBoard(parts, cells).value
    {
      var player := parts[1];
      ParseCastling(parts[2]);
      ParseEnPassant(parts[3], player);
      if player != "w" && player != "b" {
        return false;
      }
      SetSideAndClocks(if player == "w" then White else Black,
        if halfmoveClock.None? || halfmoveClock.value < 0 then 0 else halfmoveClock.value,
        if fullmoveNumber.None? || fullmoveNumber.value < 1 then 1 else fullmoveNumber.value);
      assert FenTurn(player) == Some(turn) && ep == FenEp(parts[3], turn);
      return true;
    }
  }

  /** The part of getAlgebraicNotation that chooses, from the flags of
      checkAmbiguity, what to write of the origin square. */
  method Disambiguation(ambiguity: Notation.Ambiguity, from: Square) returns (hint: string)
    requires OnBoard(from.row, from.col)
    ensures hint == Notation.HintString(Notation.HintOf(ambiguity), from)
  {
    var fromFile := Notation.FileChar(from.col);
    var fromRank := Notation.RankString(from.row);
    hint := "";
    if ambiguity.needsFile && ambiguity.needsRank {
      hint := [fromFile] + fromRank;
    } else if ambiguity.needsFile {
      hint := [fromFile];
    } else if ambiguity.needsRank {
      hint := fromRank;
    } else if ambiguity.fileAmbig {
      hint := [fromFile];
    } else if ambiguity.rankAmbig {
      hint := fromRank;
    }
  }

  /** The rank loop of getBoardPositionString: a piece is written as its
      letter, preceded by the count of the empty squares before it. */
  method RowCode(row: seq<Cell>) returns (rowStr: string)
    ensures rowStr == RankCode(row, 0)
  {
    var emptyCount := 0;
    rowStr := "";
    for j := 0 to |row|
      invariant rowStr + RankCode(row[j..], emptyCount) == RankCode(row, 0)
    {
      RankCodeStep(row, j, emptyCount);
      var piece := row[j];
      if piece.Some? {
        ghost var before := rowStr;
        if emptyCount > 0 {
          rowStr := rowStr + NatString(emptyCount);
        }
        rowStr := rowStr + [Letter(piece.value)];
        AppendAssoc(before, EmptyRun(emptyCount), [Letter(piece.value)]);
        AppendAssoc(before + EmptyRun(emptyCount), [Letter(piece.value)], RankCode(row[j + 1..], 0));
        AppendAssoc(before, EmptyRun(emptyCount) + [Letter(piece.value)], RankCode(row[j + 1..], 0));
        emptyCount := 0;
      } else {
        emptyCount := emptyCount + 1;
      }
    }
    assert row[|row|..] == [];
    if emptyCount > 0 {
      rowStr := rowStr + NatString(emptyCount);
    }
  }

  /** getBoardPositionString(state): the FEN placement of the state's
      board, then its side to move, castling field and en passant field. */
  method BoardPositionString(state: Position) returns (key: string)
    ensures key == PositionKey(state)
  {
    var codes: seq<string> := [];
    for r := 0 to 8
      invariant codes == RankCodes(state.board, r)
    {
      var rowStr := RowCode(Row(state.board, r));
      codes := codes + [rowStr];
    }
    key := Join(codes, '/');
    key := key + " " + TurnString(state.turn);
    key := key + " " + CastlingString(state.rights);
    key := key + " " + EpString(state.ep);
  }
}
