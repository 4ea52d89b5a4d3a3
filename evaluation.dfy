/** evaluateBoard of aiPlayer.js: material plus a tenth of the
    piece-square bonus, from White's point of view. Scores are exact
    reals here. */
module Evaluation {
  import opened Pieces
  import opened Boards

  /** pieceValues. */
  function PieceValue(k: Kind): real
  {
    match k
    case Pawn => 1.0
    case Knight => 3.0
    case Bishop => 3.1
    case Rook => 5.0
    case Queen => 9.0
    case King => 0.0
  }

  const PawnTable: seq<seq<real>> := [
    [0.0, 0.0, 0.0, 0.0, 0.0, 0.0, 0.0, 0.0],
    [0.8, 0.8, 0.8, 0.8, 0.8, 0.8, 0.8, 0.8],
    [0.3, 0.3, 0.4, 0.5, 0.5, 0.4, 0.3, 0.3],
    [0.1, 0.1, 0.2, 0.4, 0.4, 0.2, 0.1, 0.1],
    [0.0, 0.0, 0.1, 0.3, 0.3, 0.1, 0.0, 0.0],
    [0.0, 0.0, 0.0, 0.0, 0.0, 0.0, 0.0, 0.0],
    [0.0, 0.0, 0.0, -0.2, -0.2, 0.0, 0.0, 0.0],
    [0.0, 0.0, 0.0, 0.0, 0.0, 0.0, 0.0, 0.0]]

  const KnightTable: seq<seq<real>> := [
    [-0.5, -0.4, -0.3, -0.3, -0.3, -0.3, -0.4, -0.5],
    [-0.4, -0.2, 0.0, 0.1, 0.1, 0.0, -0.2, -0.4],
    [-0.3, 0.0, 0.2, 0.3, 0.3, 0.2, 0.0, -0.3],
    [-0.3, 0.1, 0.3, 0.4, 0.4, 0.3, 0.1, -0.3],
    [-0.3, 0.0, 0.3, 0.4, 0.4, 0.3, 0.0, -0.3],
    [-0.3, 0.1, 0.2, 0.3, 0.3, 0.2, 0.1, -0.3],
    [-0.4, -0.2, 0.0, 0.1, 0.1, 0.0, -0.2, -0.4],
    [-0.5, -0.4, -0.3, -0.3, -0.3, -0.3, -0.4, -0.5]]

  const BishopTable: seq<seq<real>> := [
    [-0.2, -0.1, -0.1, -0.1, -0.1, -0.1, -0.1, -0.2],
    [-0.1, 0.0, 0.0, 0.0, 0.0, 0.0, 0.0, -0.1],
    [-0.1, 0.0, 0.1, 0.1, 0.1, 0.1, 0.0, -0.1],
    [-0.1, 0.1, 0.1, 0.2, 0.2, 0.1, 0.1, -0.1],
    [-0.1, 0.0, 0.1, 0.2, 0.2, 0.1, 0.0, -0.1],
    [-0.1, 0.1, 0.0, 0.1, 0.1, 0.0, 0.1, -0.1],
    [-0.1, 0.0, 0.0, 0.0, 0.0, 0.0, 0.0, -0.1],
    [-0.2, -0.1, -0.1, -0.1, -0.1, -0.1, -0.1, -0.2]]

  const RookTable: seq<seq<real>> := [
    [0.0, 0.0, 0.0, 0.0, 0.0, 0.0, 0.0, 0.0],
    [0.1, 0.2, 0.2, 0.2, 0.2, 0.2, 0.2, 0.1],
    [-0.1, 0.0, 0.0, 0.0, 0.0, 0.0, 0.0, -0.1],
    [-0.1, 0.0, 0.0, 0.0, 0.0, 0.0, 0.0, -0.1],
    [-0.1, 0.0, 0.0, 0.0, 0.0, 0.0, 0.0, -0.1],
    [-0.1, 0.0, 0.0, 0.0, 0.0, 0.0, 0.0, -0.1],
    [-0.1, 0.0, 0.0, 0.0, 0.0, 0.0, 0.0, -0.1],
    [0.0, 0.0, 0.0, 0.1, 0.1, 0.0, 0.0, 0.0]]

  const KingTable: seq<seq<real>> := [
    [-0.3, -0.4, -0.4, -0.5, -0.5, -0.4, -0.4, -0.3],
    [-0.3, -0.4, -0.4, -0.5, -0.5, -0.4, -0.4, -0.3],
    [-0.3, -0.4, -0.4, -0.5, -0.5, -0.4, -0.4, -0.3],
    [-0.3, -0.4, -0.4, -0.5, -0.5, -0.4, -0.4, -0.3],
    [-0.2, -0.3, -0.3, -0.4, -0.4, -0.3, -0.3, -0.2],
    [-0.1, -0.2, -0.2, -0.2, -0.2, -0.2, -0.2, -0.1],
    [0.2, 0.2, 0.0, 0.0, 0.0, 0.0, 0.2, 0.2],
    [0.2, 0.3, 0.1, 0.0, 0.0, 0.1, 0.3, 0.2]]

  /** The table entry for a kind on a table square; the queen takes the
      mean of the bishop and rook tables. */
  function TableScore(k: Kind, tr: int, tc: int): real
    requires 0 <= tr < 8 && 0 <= tc < 8
  {
    match k
    case Pawn => PawnTable[tr][tc]
    case Knight => KnightTable[tr][tc]
    case Bishop => BishopTable[tr][tc]
    case Rook => RookTable[tr][tc]
    case Queen => (BishopTable[tr][tc] + RookTable[tr][tc]) / 2.0
    case King => KingTable[tr][tc]
  }

  /** Black reads the tables upside down. */
  function TableRow(p: Color, r: int): int { if p == White then r else 7 - r }

  function PositionScore(p: Piece, r: int, c: int): real
    requires OnBoard(r, c)
  {
    TableScore(p.kind, TableRow(p.color, r), c)
  }

  /** The four running sums of evaluateBoard. */
  datatype Sums = Sums(whiteMaterial: real, blackMaterial: real, whitePositional: real, blackPositional: real)

  const Zero := Sums(0.0, 0.0, 0.0, 0.0)

  function Plus(a: Sums, b: Sums): Sums
  {
    Sums(a.whiteMaterial + b.whiteMaterial, a.blackMaterial + b.blackMaterial,
         a.whitePositional + b.whitePositional, a.blackPositional + b.blackPositional)
  }

  /** What the square (r, c) adds to the sums. */
  function SquareSums(cell: Cell, r: int, c: int): Sums
    requires OnBoard(r, c)
  {
    match cell
    case None => Zero
    case Some(p) =>
      if p.color == White then Sums(PieceValue(p.kind), 0.0, PositionScore(p, r, c), 0.0)
      else Sums(0.0, PieceValue(p.kind), 0.0, PositionScore(p, r, c))
  }

  /** The sums over the first `k` squares in row-major order. */
  function SumsUpTo(b: Board, k: nat): Sums
    requires k <= 64
  {
    if k == 0 then Zero else Plus(SumsUpTo(b, k - 1), SquareSums(b[k - 1], (k - 1) / 8, (k - 1) % 8))
  }

  /** One more square of the row-major scan. */
  lemma SumsStep(b: Board, r: int, c: int)
    requires OnBoard(r, c) && |b| == 64
    ensures SumsUpTo(b, 8 * r + c + 1) == Plus(SumsUpTo(b, 8 * r + c), SquareSums(At(b, r, c), r, c))
  {
    assert (8 * r + c) / 8 == r && (8 * r + c) % 8 == c;
  }

  function Score(s: Sums): real
  {
    (s.whiteMaterial - s.blackMaterial) + (s.whitePositional - s.blackPositional) * 0.1
  }

  /** evaluateBoard. */
  function Evaluate(b: Board): real
  {
    Score(SumsUpTo(b, 64))
  }

  // ---------------------------------------------------------------------
  // Colour symmetry.

  function Swap(cell: Cell): Cell
  {
    match cell
    case None => None
    case Some(p) => Some(Piece(Opponent(p.color), p.kind))
  }

  /** The board turned round: rows reversed and colours exchanged. */
  function Mirror(b: Board): (m: Board)
    ensures forall r, c :: OnBoard(r, c) ==> At(m, r, c) == Swap(At(b, 7 - r, c))
  {
    seq(64, i requires 0 <= i < 64 => Swap(b[8 * (7 - i / 8) + i % 8]))
  }

  function SwapSides(s: Sums): Sums
  {
    Sums(s.blackMaterial, s.whiteMaterial, s.blackPositional, s.whitePositional)
  }

  /** The sums of row `r`, columns before `c`. */
  function RowSums(b: Board, r: int, c: nat): Sums
    requires 0 <= r < 8 && c <= 8
  {
    if c == 0 then Zero else Plus(RowSums(b, r, c - 1), SquareSums(b[8 * r + c - 1], r, c - 1))
  }

  lemma {:induction false} SumsByRows(b: Board, r: nat, c: nat)
    requires r < 8 && c <= 8
    ensures SumsUpTo(b, 8 * r + c) == Plus(SumsUpTo(b, 8 * r), RowSums(b, r, c))
  {
    if c > 0 {
      SumsByRows(b, r, c - 1);
      assert (8 * r + c - 1) / 8 == r && (8 * r + c - 1) % 8 == c - 1;
      PlusAssoc(SumsUpTo(b, 8 * r), RowSums(b, r, c - 1), SquareSums(b[8 * r + c - 1], r, c - 1));
    }
  }

  lemma PlusAssoc(a: Sums, b: Sums, c: Sums)
    ensures Plus(Plus(a, b), c) == Plus(a, Plus(b, c))
  {
  }

  lemma {:induction false} MirrorRow(b: Board, r: nat, c: nat)
    requires r < 8 && c <= 8
    ensures RowSums(Mirror(b), r, c) == SwapSides(RowSums(b, 7 - r, c))
  {
    if c > 0 {
      MirrorRow(b, r, c - 1);
      assert Mirror(b)[8 * r + c - 1] == At(Mirror(b), r, c - 1);
      assert b[8 * (7 - r) + c - 1] == At(b, 7 - r, c - 1);
      SquareMirror(At(b, 7 - r, c - 1), r, c - 1);
      SwapPlus(RowSums(b, 7 - r, c - 1), SquareSums(At(b, 7 - r, c - 1), 7 - r, c - 1));
    }
  }

  /** A swapped piece on the mirrored square adds the swapped sums. */
  lemma SquareMirror(cell: Cell, r: int, c: int)
    requires OnBoard(r, c)
    ensures SquareSums(Swap(cell), r, c) == SwapSides(SquareSums(cell, 7 - r, c))
  {
    if cell.Some? {
      var p := cell.value;
      assert TableRow(Opponent(p.color), r) == TableRow(p.color, 7 - r);
      assert PositionScore(Piece(Opponent(p.color), p.kind), r, c) == PositionScore(p, 7 - r, c);
    }
  }

  lemma SwapPlus(a: Sums, b: Sums)
    ensures SwapSides(Plus(a, b)) == Plus(SwapSides(a), SwapSides(b))
  {
  }

  function Rows(b: Board): seq<Sums>
  {
    seq(8, r requires 0 <= r < 8 => RowSums(b, r, 8))
  }

  lemma TotalFromRows(b: Board)
    ensures var rs := Rows(b);
      SumsUpTo(b, 64) ==
      Plus(Plus(Plus(Plus(Plus(Plus(Plus(rs[0], rs[1]), rs[2]), rs[3]), rs[4]), rs[5]), rs[6]), rs[7])
  {
    forall r: nat | r < 8 ensures SumsUpTo(b, 8 * r + 8) == Plus(SumsUpTo(b, 8 * r), RowSums(b, r, 8)) {
      SumsByRows(b, r, 8);
    }
    assert SumsUpTo(b, 0) == Zero;
  }

  /** Turning the board round negates the evaluation: the tables are read
      from each side's own end. */
  lemma MirrorNegates(b: Board)
    ensures Evaluate(Mirror(b)) == -Evaluate(b)
  {
    TotalFromRows(b);
    TotalFromRows(Mirror(b));
    forall r: nat | r < 8 ensures Rows(Mirror(b))[r] == SwapSides(Rows(b)[7 - r]) {
      MirrorRow(b, r, 8);
    }
  }

  /** A position that is its own mirror image (such as the initial one)
      evaluates to zero. */
  lemma SymmetricIsLevel(b: Board)
    requires Mirror(b) == b
    ensures Evaluate(b) == 0.0
  {
    MirrorNegates(b);
  }
}
