/** The attack oracle of gameLogic.js (isSquareAttacked, findKing,
    isKingInCheck) as functions of a board value. */
module Attacks {
  import opened Pieces
  import opened Boards

  const KnightOffsets: seq<(int, int)> :=
    [(-2, -1), (-2, 1), (-1, -2), (-1, 2), (1, -2), (1, 2), (2, -1), (2, 1)]

  /** The eight directions, in the order the engine scans them; the king's
      step offsets are the same list. */
  const Directions: seq<(int, int)> :=
    [(-1, -1), (-1, 0), (-1, 1), (0, -1), (0, 1), (1, -1), (1, 0), (1, 1)]

  predicate IsDir(dr: int, dc: int)
  {
    -1 <= dr <= 1 && -1 <= dc <= 1 && (dr != 0 || dc != 0)
  }

  predicate IsDiagonal(dr: int, dc: int) { dr != 0 && dc != 0 }
  predicate IsOrthogonal(dr: int, dc: int) { dr == 0 || dc == 0 }

  /** `x + n * d` for a direction component `d` in {-1, 0, 1}. */
  function Shift(x: int, d: int, n: int): int
  {
    if d > 0 then x + n else if d < 0 then x - n else x
  }

  /** How many more steps a ray can take before it leaves the board; a
      square off the board counts as farther away than any on it. */
  function RayRoom(r: int, c: int, dr: int, dc: int): nat
  {
    if !OnBoard(r, c) then 15
    else
      (if dr > 0 then 7 - r else if dr < 0 then r else 0) +
      (if dc > 0 then 7 - c else if dc < 0 then c else 0)
  }

  predicate Holds(b: Board, r: int, c: int, p: Piece)
  {
    At(b, r, c) == Some(p)
  }

  /** The first piece met stepping from (r, c) in direction (dr, dc), with
      its distance; `dist` is the distance of (r, c) itself. */
  function FirstFrom(b: Board, r: int, c: int, dr: int, dc: int, dist: nat): Option<(Piece, nat)>
    decreases RayRoom(r, c, dr, dc)
  {
    if !IsDir(dr, dc) || !OnBoard(r + dr, c + dc) then None
    else match At(b, r + dr, c + dc)
      case Some(p) => Some((p, dist + 1))
      case None => FirstFrom(b, r + dr, c + dc, dr, dc, dist + 1)
  }

  /** One more step of the ray scan from the origin (r, c). */
  lemma FirstFromStep(b: Board, r: int, c: int, dr: int, dc: int, i: nat)
    requires IsDir(dr, dc) && i >= 1
    ensures var pr, pc, nr, nc := Shift(r, dr, i - 1), Shift(c, dc, i - 1), Shift(r, dr, i), Shift(c, dc, i);
      (!OnBoard(nr, nc) ==> FirstFrom(b, pr, pc, dr, dc, i - 1) == None) &&
      (OnBoard(nr, nc) && At(b, nr, nc).Some? ==> FirstFrom(b, pr, pc, dr, dc, i - 1) == Some((At(b, nr, nc).value, i))) &&
      (OnBoard(nr, nc) && At(b, nr, nc).None? ==>
        FirstFrom(b, pr, pc, dr, dc, i - 1) == FirstFrom(b, nr, nc, dr, dc, i) && RayRoom(nr, nc, dr, dc) < RayRoom(pr, pc, dr, dc))
  {
    assert Shift(r, dr, i - 1) + dr == Shift(r, dr, i) && Shift(c, dc, i - 1) + dc == Shift(c, dc, i);
  }

  /** The piece met first along one ray attacks the square. */
  predicate RayAttack(b: Board, r: int, c: int, dr: int, dc: int, attacker: Color)
  {
    match FirstFrom(b, r, c, dr, dc, 0)
    case None => false
    case Some((p, d)) =>
      p.color == attacker &&
      (p.kind == Queen || (p.kind == Bishop && IsDiagonal(dr, dc)) ||
       (p.kind == Rook && IsOrthogonal(dr, dc)) || (p.kind == King && d == 1))
  }

  /** The row from which a pawn of `attacker` attacks row `r`. */
  function PawnSourceRow(r: int, attacker: Color): int
  {
    if attacker == White then r + 1 else r - 1
  }

  predicate PawnAttack(b: Board, r: int, c: int, attacker: Color)
  {
    Holds(b, PawnSourceRow(r, attacker), c - 1, Piece(attacker, Pawn)) ||
    Holds(b, PawnSourceRow(r, attacker), c + 1, Piece(attacker, Pawn))
  }

  predicate KnightAttack(b: Board, r: int, c: int, attacker: Color)
  {
    exists k :: 0 <= k < 8 && Holds(b, r + KnightOffsets[k].0, c + KnightOffsets[k].1, Piece(attacker, Knight))
  }

  predicate SliderAttack(b: Board, r: int, c: int, attacker: Color)
  {
    exists k :: 0 <= k < 8 && RayAttack(b, r, c, Directions[k].0, Directions[k].1, attacker)
  }

  /** isSquareAttacked(r, c, attacker). */
  predicate Attacked(b: Board, r: int, c: int, attacker: Color)
  {
    PawnAttack(b, r, c, attacker) || KnightAttack(b, r, c, attacker) || SliderAttack(b, r, c, attacker)
  }

  // ---------------------------------------------------------------------
  // Line of sight: what FirstFrom finds, stated without the recursion.

  /** The square `n` steps from (r, c) is on the board and empty, for every
      `n` in [1, k). */
  predicate ClearFor(b: Board, r: int, c: int, dr: int, dc: int, k: nat)
  {
    forall j :: 1 <= j < k ==> OnBoard(Shift(r, dr, j), Shift(c, dc, j)) && At(b, Shift(r, dr, j), Shift(c, dc, j)).None?
  }

  /** One step along a direction, then `j` more, is `j + 1` steps. */
  lemma ShiftStep(x: int, d: int, j: int)
    ensures Shift(Shift(x, d, 1), d, j) == Shift(x, d, j + 1)
  {
  }

  /** An empty first step followed by a clear stretch is a clear stretch
      one longer. */
  lemma ClearForCons(b: Board, r: int, c: int, dr: int, dc: int, k: nat)
    requires OnBoard(Shift(r, dr, 1), Shift(c, dc, 1)) && At(b, Shift(r, dr, 1), Shift(c, dc, 1)).None?
    requires ClearFor(b, Shift(r, dr, 1), Shift(c, dc, 1), dr, dc, k)
    ensures ClearFor(b, r, c, dr, dc, k + 1)
  {
    forall j | 1 <= j < k + 1
      ensures OnBoard(Shift(r, dr, j), Shift(c, dc, j)) && At(b, Shift(r, dr, j), Shift(c, dc, j)).None?
    {
      if j > 1 {
        ShiftStep(r, dr, j - 1);
        ShiftStep(c, dc, j - 1);
      }
    }
  }

  /** A clear stretch, less its first step, is clear from that step. */
  lemma ClearForTail(b: Board, r: int, c: int, dr: int, dc: int, k: nat)
    requires ClearFor(b, r, c, dr, dc, k) && k >= 1
    ensures ClearFor(b, Shift(r, dr, 1), Shift(c, dc, 1), dr, dc, k - 1)
  {
    forall j | 1 <= j < k - 1
      ensures OnBoard(Shift(Shift(r, dr, 1), dr, j), Shift(Shift(c, dc, 1), dc, j)) &&
        At(b, Shift(Shift(r, dr, 1), dr, j), Shift(Shift(c, dc, 1), dc, j)).None?
    {
      ShiftStep(r, dr, j);
      ShiftStep(c, dc, j);
    }
  }

  /** What FirstFrom reports is on the board, with nothing in between. */
  lemma {:induction false} FirstFromFound(b: Board, r: int, c: int, dr: int, dc: int, dist: nat, p: Piece, n: nat)
    requires FirstFrom(b, r, c, dr, dc, dist) == Some((p, n))
    ensures n > dist && Holds(b, Shift(r, dr, n - dist), Shift(c, dc, n - dist), p)
    ensures ClearFor(b, r, c, dr, dc, n - dist)
    decreases RayRoom(r, c, dr, dc)
  {
    var nr, nc := r + dr, c + dc;
    assert nr == Shift(r, dr, 1) && nc == Shift(c, dc, 1);
    if At(b, nr, nc).None? {
      FirstFromFound(b, nr, nc, dr, dc, dist + 1, p, n);
      var k := n - (dist + 1);
      ShiftStep(r, dr, k);
      ShiftStep(c, dc, k);
      ClearForCons(b, r, c, dr, dc, k);
    }
  }

  /** A piece on the ray with only empty squares before it is what
      FirstFrom reports. */
  lemma {:induction false} FirstFromSees(b: Board, r: int, c: int, dr: int, dc: int, dist: nat, p: Piece, k: nat)
    requires IsDir(dr, dc) && k >= 1
    requires Holds(b, Shift(r, dr, k), Shift(c, dc, k), p) && ClearFor(b, r, c, dr, dc, k)
    ensures FirstFrom(b, r, c, dr, dc, dist) == Some((p, dist + k))
    decreases RayRoom(r, c, dr, dc)
  {
    var nr, nc := r + dr, c + dc;
    assert nr == Shift(r, dr, 1) && nc == Shift(c, dc, 1);
    if k > 1 {
      assert OnBoard(nr, nc) && At(b, nr, nc).None?;
      ShiftStep(r, dr, k - 1);
      ShiftStep(c, dc, k - 1);
      ClearForTail(b, r, c, dr, dc, k);
      FirstFromSees(b, nr, nc, dr, dc, dist + 1, p, k - 1);
    }
  }

  /** Line of sight: FirstFrom finds `p` at distance `n` exactly when `p`
      stands `n` steps away with every square before it on the board and
      empty. */
  lemma FirstFromSight(b: Board, r: int, c: int, dr: int, dc: int, p: Piece, n: nat)
    requires IsDir(dr, dc)
    ensures FirstFrom(b, r, c, dr, dc, 0) == Some((p, n)) <==>
      (n >= 1 && Holds(b, Shift(r, dr, n), Shift(c, dc, n), p) && ClearFor(b, r, c, dr, dc, n))
  {
    if FirstFrom(b, r, c, dr, dc, 0) == Some((p, n)) {
      FirstFromFound(b, r, c, dr, dc, 0, p, n);
    }
    if n >= 1 && Holds(b, Shift(r, dr, n), Shift(c, dc, n), p) && ClearFor(b, r, c, dr, dc, n) {
      FirstFromSees(b, r, c, dr, dc, 0, p, n);
    }
  }

  /** The piece on the square next to (r, c) in a direction is the first
      piece on that ray, at distance 1. */
  lemma AdjacentIsFirst(b: Board, r: int, c: int, dr: int, dc: int, p: Piece)
    requires IsDir(dr, dc)
    ensures Holds(b, r + dr, c + dc, p) <==> FirstFrom(b, r, c, dr, dc, 0) == Some((p, 1))
  {
    FirstFromSight(b, r, c, dr, dc, p, 1);
    assert Shift(r, dr, 1) == r + dr && Shift(c, dc, 1) == c + dc;
  }

  predicate OrthogonalSlider(b: Board, r: int, c: int, attacker: Color)
  {
    exists k :: 0 <= k < 8 && IsOrthogonal(Directions[k].0, Directions[k].1) &&
      match FirstFrom(b, r, c, Directions[k].0, Directions[k].1, 0)
      case None => false
      case Some((p, _)) => p.color == attacker && (p.kind == Rook || p.kind == Queen)
  }

  predicate DiagonalSlider(b: Board, r: int, c: int, attacker: Color)
  {
    exists k :: 0 <= k < 8 && IsDiagonal(Directions[k].0, Directions[k].1) &&
      match FirstFrom(b, r, c, Directions[k].0, Directions[k].1, 0)
      case None => false
      case Some((p, _)) => p.color == attacker && (p.kind == Bishop || p.kind == Queen)
  }

  predicate AdjacentKing(b: Board, r: int, c: int, attacker: Color)
  {
    exists k :: 0 <= k < 8 && Holds(b, r + Directions[k].0, c + Directions[k].1, Piece(attacker, King))
  }

  /** isSquareAttacked is true exactly when a pawn, a knight, a rook or
      queen on an open file/rank line, a bishop or queen on an open diagonal,
      or an adjacent king of the attacker reaches the square. */
  lemma AttackedIff(b: Board, r: int, c: int, attacker: Color)
    ensures Attacked(b, r, c, attacker) <==>
      PawnAttack(b, r, c, attacker) || KnightAttack(b, r, c, attacker) ||
      OrthogonalSlider(b, r, c, attacker) || DiagonalSlider(b, r, c, attacker) || AdjacentKing(b, r, c, attacker)
  {
    forall k | 0 <= k < 8
      ensures RayAttack(b, r, c, Directions[k].0, Directions[k].1, attacker) <==>
        ((IsOrthogonal(Directions[k].0, Directions[k].1) &&
          match FirstFrom(b, r, c, Directions[k].0, Directions[k].1, 0)
          case None => false
          case Some((p, _)) => p.color == attacker && (p.kind == Rook || p.kind == Queen)) ||
         (IsDiagonal(Directions[k].0, Directions[k].1) &&
          match FirstFrom(b, r, c, Directions[k].0, Directions[k].1, 0)
          case None => false
          case Some((p, _)) => p.color == attacker && (p.kind == Bishop || p.kind == Queen)) ||
         Holds(b, r + Directions[k].0, c + Directions[k].1, Piece(attacker, King)))
    {
      var (dr, dc) := Directions[k];
      assert IsDir(dr, dc);
      AdjacentIsFirst(b, r, c, dr, dc, Piece(attacker, King));
    }
    if SliderAttack(b, r, c, attacker) {
      var k :| 0 <= k < 8 && RayAttack(b, r, c, Directions[k].0, Directions[k].1, attacker);
    }
    if OrthogonalSlider(b, r, c, attacker) {
      var k :| 0 <= k < 8 && IsOrthogonal(Directions[k].0, Directions[k].1) &&
      match FirstFrom(b, r, c, Directions[k].0, Directions[k].1, 0)
      case None => false
      case Some((p, _)) => p.color == attacker && (p.kind == Rook || p.kind == Queen);
      assert RayAttack(b, r, c, Directions[k].0, Directions[k].1, attacker);
    }
    if DiagonalSlider(b, r, c, attacker) {
      var k :| 0 <= k < 8 && IsDiagonal(Directions[k].0, Directions[k].1) &&
      match FirstFrom(b, r, c, Directions[k].0, Directions[k].1, 0)
      case None => false
      case Some((p, _)) => p.color == attacker && (p.kind == Bishop || p.kind == Queen);
      assert RayAttack(b, r, c, Directions[k].0, Directions[k].1, attacker);
    }
    if AdjacentKing(b, r, c, attacker) {
      var k :| 0 <= k < 8 && Holds(b, r + Directions[k].0, c + Directions[k].1, Piece(attacker, King));
      assert RayAttack(b, r, c, Directions[k].0, Directions[k].1, attacker);
    }
  }

  // ---------------------------------------------------------------------
  // findKing and isKingInCheck.

  /** The first square, in row-major order from index `k`, holding the king
      of `player`. */
  function FindKingFrom(b: Board, player: Color, k: nat): (sq: Option<Square>)
    requires k <= 64
    ensures sq.Some? ==> OnBoard(sq.value.row, sq.value.col) && Holds(b, sq.value.row, sq.value.col, Piece(player, King))
    decreases 64 - k
  {
    if k == 64 then None
    else if b[k] == Some(Piece(player, King)) then Some(Square(k / 8, k % 8))
    else FindKingFrom(b, player, k + 1)
  }

  /** findKing. */
  function FindKing(b: Board, player: Color): Option<Square>
  {
    FindKingFrom(b, player, 0)
  }

  /** isKingInCheck: false when the king is missing. */
  predicate KingInCheck(b: Board, player: Color)
  {
    match FindKing(b, player)
    case None => false
    case Some(sq) => Attacked(b, sq.row, sq.col, Opponent(player))
  }

  /** FindKing finds nothing only when no square holds that king, and
      otherwise finds the first such square in row-major order. */
  lemma {:induction false} FindKingFromSpec(b: Board, player: Color, k: nat)
    requires k <= 64
    ensures FindKingFrom(b, player, k).None? <==> forall j :: k <= j < 64 ==> b[j] != Some(Piece(player, King))
    ensures FindKingFrom(b, player, k).Some? ==>
      var sq := FindKingFrom(b, player, k).value;
      k <= 8 * sq.row + sq.col && forall j :: k <= j < 8 * sq.row + sq.col ==> b[j] != Some(Piece(player, King))
    decreases 64 - k
  {
    if k < 64 && b[k] != Some(Piece(player, King)) {
      FindKingFromSpec(b, player, k + 1);
    }
  }

  /** With no king of `player` on the board, that side is never in check. */
  lemma MissingKingNotInCheck(b: Board, player: Color)
    requires forall r, c :: OnBoard(r, c) ==> !Holds(b, r, c, Piece(player, King))
    ensures !KingInCheck(b, player)
  {
    FindKingFromSpec(b, player, 0);
    forall j | 0 <= j < 64 ensures b[j] != Some(Piece(player, King)) {
      assert !Holds(b, j / 8, j % 8, Piece(player, King));
    }
  }
}
