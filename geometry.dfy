/** Pseudo-legal move generation of gameLogic.js (addMoveIfValid and the
    per-piece generators) as functions of a position value. A generated
    move is its destination and three flags. */
module Geometry {
  import opened Pieces
  import opened Boards
  import opened Attacks

  datatype Target = Target(row: int, col: int, isEnPassant: bool, isCastling: bool, isPromotion: bool)

  /** The options object of addMoveIfValid. */
  datatype Options = Options(canCapture: bool, mustCapture: bool, isEnPassant: bool, isCastling: bool, isPromotion: bool)

  /** The defaults: may capture, need not, no flags. */
  const Plain := Options(true, false, false, false, false)

  function TargetOf(toRow: int, toCol: int, o: Options): Target
  {
    Target(toRow, toCol, o.isEnPassant, o.isCastling, o.isPromotion)
  }

  /** Whether addMoveIfValid accepts a destination: on the board, not an
      own piece, an occupied square only when capturing is allowed, an
      empty one only when capturing is not required (or en passant). */
  predicate Accepts(b: Board, player: Color, toRow: int, toCol: int, o: Options)
  {
    OnBoard(toRow, toCol) && !IsPlayerPiece(At(b, toRow, toCol), player) &&
    (At(b, toRow, toCol).Some? ==> o.canCapture) &&
    (At(b, toRow, toCol).None? ==> !o.mustCapture || o.isEnPassant)
  }

  /** addMoveIfValid: appends the destination when accepted. */
  function AddMoveIfValid(b: Board, moves: seq<Target>, piece: Piece, toRow: int, toCol: int, o: Options): (r: seq<Target>)
    ensures r == moves || (r == moves + [TargetOf(toRow, toCol, o)] && OnBoard(toRow, toCol) && !IsPlayerPiece(At(b, toRow, toCol), piece.color))
  {
    if Accepts(b, piece.color, toRow, toCol, o) then moves + [TargetOf(toRow, toCol, o)] else moves
  }

  // ---------------------------------------------------------------------
  // Pawns.

  function StartRow(p: Color): int { if p == White then 6 else 1 }
  function PromotionRow(p: Color): int { if p == White then 0 else 7 }

  /** The forward steps of getPawnMoves (one square, then two from the
      start row). */
  function PawnPushes(b: Board, r: int, c: int, piece: Piece): seq<Target>
  {
    var oneStep := r + Forward(piece.color);
    if 0 <= oneStep < 8 && At(b, oneStep, c).None? then
      var m1 := AddMoveIfValid(b, [], piece, oneStep, c, Options(false, false, false, false, oneStep == PromotionRow(piece.color)));
      var twoSteps := r + 2 * Forward(piece.color);
      if r == StartRow(piece.color) && 0 <= twoSteps < 8 && At(b, twoSteps, c).None? && At(b, oneStep, c).None? then
        AddMoveIfValid(b, m1, piece, twoSteps, c, Options(false, false, false, false, false))
      else m1
    else []
  }

  /** One pass of the capture loop of getPawnMoves, for one column. */
  function PawnCaptureAt(pos: Position, moves: seq<Target>, r: int, captureCol: int, piece: Piece): seq<Target>
  {
    var oneStep := r + Forward(piece.color);
    if 0 <= captureCol < 8 then
      var target := At(pos.board, oneStep, captureCol);
      var m1 :=
        if target.Some? && !IsPlayerPiece(target, piece.color) then
          AddMoveIfValid(pos.board, moves, piece, oneStep, captureCol, Options(true, true, false, false, oneStep == PromotionRow(piece.color)))
        else moves;
      if pos.ep.Some? && oneStep == pos.ep.value.row && captureCol == pos.ep.value.col then
        AddMoveIfValid(pos.board, m1, piece, oneStep, captureCol, Options(true, true, true, false, false))
      else m1
    else moves
  }

  /** getPawnMoves. */
  function PawnMoves(pos: Position, r: int, c: int, piece: Piece): seq<Target>
  {
    PawnCaptureAt(pos, PawnCaptureAt(pos, PawnPushes(pos.board, r, c, piece), r, c - 1, piece), r, c + 1, piece)
  }

  // ---------------------------------------------------------------------
  // Knights and king steps: one candidate per offset.

  /** The moves of the first `k` offsets. */
  function OffsetMoves(b: Board, r: int, c: int, piece: Piece, offsets: seq<(int, int)>, k: nat): seq<Target>
    requires k <= |offsets|
  {
    if k == 0 then []
    else AddMoveIfValid(b, OffsetMoves(b, r, c, piece, offsets, k - 1), piece, r + offsets[k - 1].0, c + offsets[k - 1].1, Plain)
  }

  /** getKnightMoves. */
  function KnightMoves(b: Board, r: int, c: int, piece: Piece): seq<Target>
  {
    OffsetMoves(b, r, c, piece, KnightOffsets, 8)
  }

  /** Every move from `OffsetMoves` is a plain step by one of the offsets
      onto a square that is empty or holds an enemy, and every such step is
      generated. */
  lemma {:induction false} OffsetMovesIff(b: Board, r: int, c: int, piece: Piece, offsets: seq<(int, int)>, k: nat, t: Target)
    requires k <= |offsets|
    ensures t in OffsetMoves(b, r, c, piece, offsets, k) <==>
      exists i :: 0 <= i < k && t == Target(r + offsets[i].0, c + offsets[i].1, false, false, false) &&
        OnBoard(t.row, t.col) && !IsPlayerPiece(At(b, t.row, t.col), piece.color)
  {
    if k > 0 {
      OffsetMovesIff(b, r, c, piece, offsets, k - 1, t);
      var t' := Target(r + offsets[k - 1].0, c + offsets[k - 1].1, false, false, false);
      if t == t' && OnBoard(t.row, t.col) && !IsPlayerPiece(At(b, t.row, t.col), piece.color) {
        assert t in OffsetMoves(b, r, c, piece, offsets, k);
      }
    }
  }

  // ---------------------------------------------------------------------
  // Sliding pieces.

  const BishopDirections: seq<(int, int)> := [(-1, -1), (-1, 1), (1, -1), (1, 1)]
  const RookDirections: seq<(int, int)> := [(-1, 0), (1, 0), (0, -1), (0, 1)]

  /** The moves along one ray from (r, c) onwards: every empty square, then
      the first occupied one if it holds an enemy. */
  function RayMoves(b: Board, r: int, c: int, dr: int, dc: int, player: Color): seq<Target>
    decreases RayRoom(r, c, dr, dc)
  {
    if !IsDir(dr, dc) || !OnBoard(r + dr, c + dc) then []
    else match At(b, r + dr, c + dc)
      case Some(p) => if p.color != player then [Target(r + dr, c + dc, false, false, false)] else []
      case None => [Target(r + dr, c + dc, false, false, false)] + RayMoves(b, r + dr, c + dc, dr, dc, player)
  }

  /** The moves along the first `k` directions. */
  function SlidingMoves(b: Board, r: int, c: int, player: Color, dirs: seq<(int, int)>, k: nat): seq<Target>
    requires k <= |dirs|
  {
    if k == 0 then []
    else SlidingMoves(b, r, c, player, dirs, k - 1) + RayMoves(b, r, c, dirs[k - 1].0, dirs[k - 1].1, player)
  }

  function BishopMoves(b: Board, r: int, c: int, piece: Piece): seq<Target>
  {
    SlidingMoves(b, r, c, piece.color, BishopDirections, 4)
  }

  function RookMoves(b: Board, r: int, c: int, piece: Piece): seq<Target>
  {
    SlidingMoves(b, r, c, piece.color, RookDirections, 4)
  }

  /** getQueenMoves: the bishop moves, then the rook moves. */
  function QueenMoves(b: Board, r: int, c: int, piece: Piece): seq<Target>
  {
    BishopMoves(b, r, c, piece) + RookMoves(b, r, c, piece)
  }

  /** The square `n` steps along the ray is open to the slider: every
      square before it is empty and it holds no own piece. */
  predicate RaySquare(b: Board, r: int, c: int, dr: int, dc: int, player: Color, n: int, t: Target)
  {
    n >= 1 && t == Target(Shift(r, dr, n), Shift(c, dc, n), false, false, false) &&
    OnBoard(t.row, t.col) && ClearFor(b, r, c, dr, dc, n) && !IsPlayerPiece(At(b, t.row, t.col), player)
  }

  lemma {:induction false} RayMovesSound(b: Board, r: int, c: int, dr: int, dc: int, player: Color, t: Target)
    requires t in RayMoves(b, r, c, dr, dc, player)
    ensures exists n :: RaySquare(b, r, c, dr, dc, player, n, t)
    decreases RayRoom(r, c, dr, dc)
  {
    var nr, nc := r + dr, c + dc;
    assert nr == Shift(r, dr, 1) && nc == Shift(c, dc, 1);
    if t == Target(nr, nc, false, false, false) {
      assert RaySquare(b, r, c, dr, dc, player, 1, t);
    } else {
      assert IsDir(dr, dc) && OnBoard(nr, nc) && At(b, nr, nc).None?;
      RayMovesCons(b, r, c, dr, dc, player);
      var rest := RayMoves(b, nr, nc, dr, dc, player);
      assert t in [Target(nr, nc, false, false, false)] + rest;
      assert t in rest;
      RayMovesSound(b, nr, nc, dr, dc, player, t);
      var n :| RaySquare(b, nr, nc, dr, dc, player, n, t);
      RaySquareCons(b, r, c, dr, dc, player, n, t);
    }
  }

  /** An open square beyond an empty first step is open from the origin,
      one step further. */
  lemma RaySquareCons(b: Board, r: int, c: int, dr: int, dc: int, player: Color, n: int, t: Target)
    requires IsDir(dr, dc) && OnBoard(r + dr, c + dc) && At(b, r + dr, c + dc).None?
    requires RaySquare(b, r + dr, c + dc, dr, dc, player, n, t)
    ensures RaySquare(b, r, c, dr, dc, player, n + 1, t)
  {
    assert r + dr == Shift(r, dr, 1) && c + dc == Shift(c, dc, 1);
    ShiftStep(r, dr, n);
    ShiftStep(c, dc, n);
    ClearForCons(b, r, c, dr, dc, n);
  }

  /** An open square more than one step away lies beyond an empty first
      step, and is open from there. */
  lemma RaySquareTail(b: Board, r: int, c: int, dr: int, dc: int, player: Color, n: int, t: Target)
    requires IsDir(dr, dc) && RaySquare(b, r, c, dr, dc, player, n, t) && n > 1
    ensures OnBoard(r + dr, c + dc) && At(b, r + dr, c + dc).None?
    ensures RaySquare(b, r + dr, c + dc, dr, dc, player, n - 1, t)
  {
    var nr, nc := r + dr, c + dc;
    assert nr == Shift(r, dr, 1) && nc == Shift(c, dc, 1);
    assert OnBoard(nr, nc) && At(b, nr, nc).None?;
    ShiftStep(r, dr, n - 1);
    ShiftStep(c, dc, n - 1);
    ClearForTail(b, r, c, dr, dc, n);
  }

  lemma {:induction false} RayMovesComplete(b: Board, r: int, c: int, dr: int, dc: int, player: Color, n: int, t: Target)
    requires IsDir(dr, dc) && RaySquare(b, r, c, dr, dc, player, n, t)
    ensures t in RayMoves(b, r, c, dr, dc, player)
    decreases RayRoom(r, c, dr, dc)
  {
    var nr, nc := r + dr, c + dc;
    if n > 1 {
      RaySquareTail(b, r, c, dr, dc, player, n, t);
      RayMovesComplete(b, nr, nc, dr, dc, player, n - 1, t);
      RayMovesCons(b, r, c, dr, dc, player);
    } else {
      assert nr == Shift(r, dr, 1) && nc == Shift(c, dc, 1);
    }
  }

  /** Past an empty first square the ray goes on from there. */
  lemma RayMovesCons(b: Board, r: int, c: int, dr: int, dc: int, player: Color)
    requires IsDir(dr, dc) && OnBoard(r + dr, c + dc) && At(b, r + dr, c + dc).None?
    ensures RayMoves(b, r, c, dr, dc, player) ==
      [Target(r + dr, c + dc, false, false, false)] + RayMoves(b, r + dr, c + dc, dr, dc, player)
  {
  }

  /** A ray yields exactly the squares with every square before them empty
      that are empty or hold an enemy: sliding stops at the first occupied
      square and takes it only for a capture. */
  lemma RayMovesIff(b: Board, r: int, c: int, dr: int, dc: int, player: Color, t: Target)
    requires IsDir(dr, dc)
    ensures t in RayMoves(b, r, c, dr, dc, player) <==> exists n :: RaySquare(b, r, c, dr, dc, player, n, t)
  {
    if t in RayMoves(b, r, c, dr, dc, player) {
      RayMovesSound(b, r, c, dr, dc, player, t);
    }
    if exists n :: RaySquare(b, r, c, dr, dc, player, n, t) {
      var n :| RaySquare(b, r, c, dr, dc, player, n, t);
      RayMovesComplete(b, r, c, dr, dc, player, n, t);
    }
  }

  // ---------------------------------------------------------------------
  // The king: the eight steps, then castling.

  const Castle := Options(true, false, false, true, false)

  /** The kingside test of getKingMoves: the right is held, the two
      squares to the rook are empty, the mover's rook stands at c + 3, and
      neither square the king crosses is attacked. */
  function CastleKingside(pos: Position, r: int, c: int, piece: Piece, moves: seq<Target>): seq<Target>
  {
    var b := pos.board;
    var player := piece.color;
    var opp := Opponent(player);
    if KingSide(pos.rights, player) && At(b, r, c + 1).None? && At(b, r, c + 2).None? &&
       At(b, r, c + 3) == Some(Piece(player, Rook)) && !Attacked(b, r, c + 1, opp) && !Attacked(b, r, c + 2, opp)
    then AddMoveIfValid(b, moves, piece, r, c + 2, Castle)
    else moves
  }

  /** The queenside test: the three squares to the rook are empty, the
      rook stands at c - 4, and c - 1 and c - 2 are not attacked (c - 3 is
      not asked about). */
  function CastleQueenside(pos: Position, r: int, c: int, piece: Piece, moves: seq<Target>): seq<Target>
  {
    var b := pos.board;
    var player := piece.color;
    var opp := Opponent(player);
    if QueenSide(pos.rights, player) && At(b, r, c - 1).None? && At(b, r, c - 2).None? && At(b, r, c - 3).None? &&
       At(b, r, c - 4) == Some(Piece(player, Rook)) && !Attacked(b, r, c - 1, opp) && !Attacked(b, r, c - 2, opp)
    then AddMoveIfValid(b, moves, piece, r, c - 2, Castle)
    else moves
  }

  /** The castling part of getKingMoves: neither side is tried when no
      right is held or the king is attacked. */
  function CastlingMoves(pos: Position, r: int, c: int, piece: Piece, moves: seq<Target>): seq<Target>
  {
    var player := piece.color;
    if (KingSide(pos.rights, player) || QueenSide(pos.rights, player)) && !Attacked(pos.board, r, c, Opponent(player)) then
      CastleQueenside(pos, r, c, piece, CastleKingside(pos, r, c, piece, moves))
    else moves
  }

  /** getKingMoves. */
  function KingMoves(pos: Position, r: int, c: int, piece: Piece): seq<Target>
  {
    CastlingMoves(pos, r, c, piece, OffsetMoves(pos.board, r, c, piece, Directions, 8))
  }

  /** The generator switch of generateLegalMoves. */
  function PseudoMoves(pos: Position, r: int, c: int, piece: Piece): seq<Target>
  {
    match piece.kind
    case Pawn => PawnMoves(pos, r, c, piece)
    case Knight => KnightMoves(pos.board, r, c, piece)
    case Bishop => BishopMoves(pos.board, r, c, piece)
    case Rook => RookMoves(pos.board, r, c, piece)
    case Queen => QueenMoves(pos.board, r, c, piece)
    case King => KingMoves(pos, r, c, piece)
  }

  // ---------------------------------------------------------------------
  // The shape of a generated move.

  /** What every generated move from (r, c) satisfies: it lands on the
      board, on a square not holding an own piece, other than (r, c); an en
      passant move is a pawn's diagonal step forward; a castling move is
      the king sliding two files along its row with its rook's corner on the
      board and the square it passes empty. */
  predicate WellShaped(b: Board, r: int, c: int, piece: Piece, t: Target)
  {
    OnBoard(t.row, t.col) && (t.row, t.col) != (r, c) &&
    !IsPlayerPiece(At(b, t.row, t.col), piece.color) &&
    (t.isEnPassant ==>
      piece.kind == Pawn && !t.isCastling && t.row == r + Forward(piece.color) && (t.col == c - 1 || t.col == c + 1)) &&
    (t.isCastling ==>
      piece.kind == King && !t.isEnPassant && t.row == r && OnBoard(r, c) &&
      ((t.col == c + 2 && c + 3 <= 7 && At(b, r, c + 1).None?) ||
       (t.col == c - 2 && c - 4 >= 0 && At(b, r, c - 1).None?)))
  }

  predicate AllWellShaped(b: Board, r: int, c: int, piece: Piece, ms: seq<Target>)
  {
    forall i :: 0 <= i < |ms| ==> WellShaped(b, r, c, piece, ms[i])
  }

  lemma {:induction false} OffsetMovesShaped(b: Board, r: int, c: int, piece: Piece, offsets: seq<(int, int)>, k: nat)
    requires k <= |offsets|
    requires forall i :: 0 <= i < |offsets| ==> offsets[i] != (0, 0)
    ensures AllWellShaped(b, r, c, piece, OffsetMoves(b, r, c, piece, offsets, k))
  {
    if k > 0 {
      OffsetMovesShaped(b, r, c, piece, offsets, k - 1);
      assert offsets[k - 1] != (0, 0);
    }
  }

  lemma {:induction false} RayMovesShaped(b: Board, r: int, c: int, dr: int, dc: int, piece: Piece)
    requires IsDir(dr, dc)
    ensures AllWellShaped(b, r, c, piece, RayMoves(b, r, c, dr, dc, piece.color))
  {
    var ms := RayMoves(b, r, c, dr, dc, piece.color);
    forall i | 0 <= i < |ms| ensures WellShaped(b, r, c, piece, ms[i]) {
      RayMovesSound(b, r, c, dr, dc, piece.color, ms[i]);
      var n :| RaySquare(b, r, c, dr, dc, piece.color, n, ms[i]);
    }
  }

  lemma {:induction false} SlidingMovesShaped(b: Board, r: int, c: int, piece: Piece, dirs: seq<(int, int)>, k: nat)
    requires k <= |dirs|
    requires forall i :: 0 <= i < |dirs| ==> IsDir(dirs[i].0, dirs[i].1)
    ensures AllWellShaped(b, r, c, piece, SlidingMoves(b, r, c, piece.color, dirs, k))
  {
    if k > 0 {
      SlidingMovesShaped(b, r, c, piece, dirs, k - 1);
      RayMovesShaped(b, r, c, dirs[k - 1].0, dirs[k - 1].1, piece);
    }
  }

  lemma AddShaped(b: Board, r: int, c: int, piece: Piece, moves: seq<Target>, toRow: int, toCol: int, o: Options)
    requires AllWellShaped(b, r, c, piece, moves)
    requires Accepts(b, piece.color, toRow, toCol, o) ==> WellShaped(b, r, c, piece, TargetOf(toRow, toCol, o))
    ensures AllWellShaped(b, r, c, piece, AddMoveIfValid(b, moves, piece, toRow, toCol, o))
  {
    var ms := AddMoveIfValid(b, moves, piece, toRow, toCol, o);
    if ms != moves {
      forall i | 0 <= i < |ms| ensures WellShaped(b, r, c, piece, ms[i]) {
        if i < |moves| {
          assert ms[i] == moves[i];
        }
      }
    }
  }

  lemma PawnCaptureAtShaped(pos: Position, moves: seq<Target>, r: int, c: int, captureCol: int, piece: Piece)
    requires piece.kind == Pawn && (captureCol == c - 1 || captureCol == c + 1)
    requires AllWellShaped(pos.board, r, c, piece, moves)
    ensures AllWellShaped(pos.board, r, c, piece, PawnCaptureAt(pos, moves, r, captureCol, piece))
  {
    var oneStep := r + Forward(piece.color);
    if 0 <= captureCol < 8 {
      var target := At(pos.board, oneStep, captureCol);
      var m1 := moves;
      if target.Some? && !IsPlayerPiece(target, piece.color) {
        AddShaped(pos.board, r, c, piece, moves, oneStep, captureCol, Options(true, true, false, false, oneStep == PromotionRow(piece.color)));
        m1 := AddMoveIfValid(pos.board, moves, piece, oneStep, captureCol, Options(true, true, false, false, oneStep == PromotionRow(piece.color)));
      }
      AddShaped(pos.board, r, c, piece, m1, oneStep, captureCol, Options(true, true, true, false, false));
    }
  }

  lemma PawnMovesShaped(pos: Position, r: int, c: int, piece: Piece)
    requires piece.kind == Pawn
    ensures AllWellShaped(pos.board, r, c, piece, PawnMoves(pos, r, c, piece))
  {
    var b := pos.board;
    var oneStep := r + Forward(piece.color);
    var twoSteps := r + 2 * Forward(piece.color);
    AddShaped(b, r, c, piece, [], oneStep, c, Options(false, false, false, false, oneStep == PromotionRow(piece.color)));
    var m1 := AddMoveIfValid(b, [], piece, oneStep, c, Options(false, false, false, false, oneStep == PromotionRow(piece.color)));
    AddShaped(b, r, c, piece, m1, twoSteps, c, Options(false, false, false, false, false));
    var pushes := PawnPushes(b, r, c, piece);
    assert AllWellShaped(b, r, c, piece, pushes);
    PawnCaptureAtShaped(pos, pushes, r, c, c - 1, piece);
    PawnCaptureAtShaped(pos, PawnCaptureAt(pos, pushes, r, c - 1, piece), r, c, c + 1, piece);
  }

  lemma CastlingMovesShaped(pos: Position, r: int, c: int, piece: Piece, moves: seq<Target>)
    requires piece.kind == King && OnBoard(r, c) && AllWellShaped(pos.board, r, c, piece, moves)
    ensures AllWellShaped(pos.board, r, c, piece, CastlingMoves(pos, r, c, piece, moves))
  {
    var b := pos.board;
    var player := piece.color;
    if KingSide(pos.rights, player) && At(b, r, c + 1).None? && At(b, r, c + 3) == Some(Piece(player, Rook)) {
      AddShaped(b, r, c, piece, moves, r, c + 2, Castle);
    }
    var m1 := CastleKingside(pos, r, c, piece, moves);
    if QueenSide(pos.rights, player) && At(b, r, c - 1).None? && At(b, r, c - 4) == Some(Piece(player, Rook)) {
      AddShaped(b, r, c, piece, m1, r, c - 2, Castle);
    }
  }

  /** Every pseudo-legal move is well shaped. */
  lemma PseudoMovesShaped(pos: Position, r: int, c: int, piece: Piece)
    requires OnBoard(r, c)
    ensures AllWellShaped(pos.board, r, c, piece, PseudoMoves(pos, r, c, piece))
  {
    match piece.kind
    case Pawn => PawnMovesShaped(pos, r, c, piece);
    case Knight => OffsetMovesShaped(pos.board, r, c, piece, KnightOffsets, 8);
    case Bishop => SlidingMovesShaped(pos.board, r, c, piece, BishopDirections, 4);
    case Rook => SlidingMovesShaped(pos.board, r, c, piece, RookDirections, 4);
    case Queen =>
      SlidingMovesShaped(pos.board, r, c, piece, BishopDirections, 4);
      SlidingMovesShaped(pos.board, r, c, piece, RookDirections, 4);
    case King =>
      OffsetMovesShaped(pos.board, r, c, piece, Directions, 8);
      CastlingMovesShaped(pos, r, c, piece, OffsetMoves(pos.board, r, c, piece, Directions, 8));
  }

  // ---------------------------------------------------------------------
  // What the pawn and king generators produce.

  /** A pawn's forward moves: one step onto an empty square, flagged as a
      promotion on the last rank, and from the start row a second step
      when both squares ahead are empty. */
  lemma PawnPushesIff(b: Board, r: int, c: int, piece: Piece, t: Target)
    ensures t in PawnPushes(b, r, c, piece) <==>
      var one := r + Forward(piece.color);
      var two := r + 2 * Forward(piece.color);
      OnBoard(one, c) && At(b, one, c).None? &&
      (t == Target(one, c, false, false, one == PromotionRow(piece.color)) ||
       (r == StartRow(piece.color) && OnBoard(two, c) && At(b, two, c).None? && t == Target(two, c, false, false, false)))
  {
    var one := r + Forward(piece.color);
    var two := r + 2 * Forward(piece.color);
    if OnBoard(one, c) && At(b, one, c).None? {
      var o1 := Options(false, false, false, false, one == PromotionRow(piece.color));
      assert Accepts(b, piece.color, one, c, o1);
      var m1 := AddMoveIfValid(b, [], piece, one, c, o1);
      assert m1 == [Target(one, c, false, false, one == PromotionRow(piece.color))];
      if r == StartRow(piece.color) && OnBoard(two, c) && At(b, two, c).None? {
        assert Accepts(b, piece.color, two, c, Options(false, false, false, false, false));
        assert PawnPushes(b, r, c, piece) == m1 + [Target(two, c, false, false, false)];
      } else {
        assert PawnPushes(b, r, c, piece) == m1;
      }
    } else if 0 <= one < 8 && At(b, one, c).None? {
      assert !OnBoard(one, c);
      assert PawnPushes(b, r, c, piece) == [];
    }
  }

  /** A capture destination for a pawn on row `r`, in column `cc`: an enemy
      piece on the forward diagonal (flagged as promotion on the last
      row), or the en passant target there when it holds no own piece. */
  predicate PawnCaptureTarget(pos: Position, r: int, cc: int, piece: Piece, t: Target)
  {
    var one := r + Forward(piece.color);
    var cell := At(pos.board, one, cc);
    (cell.Some? && !IsPlayerPiece(cell, piece.color) && t == Target(one, cc, false, false, one == PromotionRow(piece.color))) ||
    (OnBoard(one, cc) && pos.ep == Some(Square(one, cc)) && !IsPlayerPiece(cell, piece.color) && t == Target(one, cc, true, false, false))
  }

  /** One pass of the capture loop adds exactly the capture destinations of
      its column to the moves it is given. */
  lemma PawnCaptureAtIff(pos: Position, moves: seq<Target>, r: int, cc: int, piece: Piece, t: Target)
    ensures t in PawnCaptureAt(pos, moves, r, cc, piece) <==> t in moves || PawnCaptureTarget(pos, r, cc, piece, t)
  {
    var one := r + Forward(piece.color);
    var cell := At(pos.board, one, cc);
    if 0 <= cc < 8 {
      var o1 := Options(true, true, false, false, one == PromotionRow(piece.color));
      var m1 := if cell.Some? && !IsPlayerPiece(cell, piece.color) then AddMoveIfValid(pos.board, moves, piece, one, cc, o1) else moves;
      if cell.Some? && !IsPlayerPiece(cell, piece.color) {
        assert Accepts(pos.board, piece.color, one, cc, o1);
        assert m1 == moves + [Target(one, cc, false, false, one == PromotionRow(piece.color))];
      }
      assert t in m1 <==> t in moves || (cell.Some? && !IsPlayerPiece(cell, piece.color) && t == Target(one, cc, false, false, one == PromotionRow(piece.color)));
      var o2 := Options(true, true, true, false, false);
      if pos.ep.Some? && one == pos.ep.value.row && cc == pos.ep.value.col {
        if Accepts(pos.board, piece.color, one, cc, o2) {
          assert PawnCaptureAt(pos, moves, r, cc, piece) == m1 + [Target(one, cc, true, false, false)];
        } else {
          assert PawnCaptureAt(pos, moves, r, cc, piece) == m1;
        }
      } else {
        assert PawnCaptureAt(pos, moves, r, cc, piece) == m1;
      }
    }
  }

  /** getPawnMoves yields exactly the forward steps and the capture
      destinations of the two neighbouring columns. */
  lemma PawnMovesIff(pos: Position, r: int, c: int, piece: Piece, t: Target)
    ensures t in PawnMoves(pos, r, c, piece) <==>
      t in PawnPushes(pos.board, r, c, piece) || PawnCaptureTarget(pos, r, c - 1, piece, t) || PawnCaptureTarget(pos, r, c + 1, piece, t)
  {
    PawnCaptureAtIff(pos, PawnPushes(pos.board, r, c, piece), r, c - 1, piece, t);
    PawnCaptureAtIff(pos, PawnCaptureAt(pos, PawnPushes(pos.board, r, c, piece), r, c - 1, piece), r, c + 1, piece, t);
  }

  /** No king step of the offset loop is flagged as castling. */
  lemma OffsetMovesNotCastling(b: Board, r: int, c: int, piece: Piece, t: Target)
    requires t in OffsetMoves(b, r, c, piece, Directions, 8)
    ensures !t.isCastling
  {
    OffsetMovesIff(b, r, c, piece, Directions, 8, t);
  }

  /** getKingMoves offers kingside castling exactly when the right is held,
      the king is not attacked, the two squares beside it are empty and
      unattacked, and the mover's rook stands on the third square. */
  lemma KingsideCastleIff(pos: Position, r: int, c: int, piece: Piece)
    ensures Target(r, c + 2, false, true, false) in KingMoves(pos, r, c, piece) <==>
      var b := pos.board;
      var opp := Opponent(piece.color);
      OnBoard(r, c + 2) && KingSide(pos.rights, piece.color) && !Attacked(b, r, c, opp) &&
      At(b, r, c + 1).None? && At(b, r, c + 2).None? && At(b, r, c + 3) == Some(Piece(piece.color, Rook)) &&
      !Attacked(b, r, c + 1, opp) && !Attacked(b, r, c + 2, opp)
  {
    var t := Target(r, c + 2, false, true, false);
    var m0 := OffsetMoves(pos.board, r, c, piece, Directions, 8);
    if t in m0 {
      OffsetMovesNotCastling(pos.board, r, c, piece, t);
    }
    var m1 := CastleKingside(pos, r, c, piece, m0);
    assert t in CastleQueenside(pos, r, c, piece, m1) <==> t in m1;
  }

  /** Queenside castling: the right is held, the king is not attacked, the
      three squares towards the rook are empty, the two the king crosses
      are unattacked, and the mover's rook stands on the fourth square. */
  lemma QueensideCastleIff(pos: Position, r: int, c: int, piece: Piece)
    ensures Target(r, c - 2, false, true, false) in KingMoves(pos, r, c, piece) <==>
      var b := pos.board;
      var opp := Opponent(piece.color);
      OnBoard(r, c - 2) && QueenSide(pos.rights, piece.color) && !Attacked(b, r, c, opp) &&
      At(b, r, c - 1).None? && At(b, r, c - 2).None? && At(b, r, c - 3).None? &&
      At(b, r, c - 4) == Some(Piece(piece.color, Rook)) &&
      !Attacked(b, r, c - 1, opp) && !Attacked(b, r, c - 2, opp)
  {
    var t := Target(r, c - 2, false, true, false);
    var m0 := OffsetMoves(pos.board, r, c, piece, Directions, 8);
    if t in m0 {
      OffsetMovesNotCastling(pos.board, r, c, piece, t);
    }
    var m1 := CastleKingside(pos, r, c, piece, m0);
    assert t in m1 <==> t in m0;
  }
}
