/** The position as a value: the 8×8 board (row 0 is rank 8, column 0 is
    file a), the side to move, castling rights, en passant target and the two
    clocks. The board value is the row-major sequence of its 64 cells. */
module Boards {
  import opened Pieces

  type Board = b: seq<Cell> | |b| == 64 witness seq(64, _ => None)

  const EmptyBoard: Board := seq(64, _ => None)

  predicate OnBoard(r: int, c: int)
  {
    0 <= r < 8 && 0 <= c < 8
  }

  /** getPieceAt: nothing off the board. */
  function At(b: Board, r: int, c: int): (cell: Cell)
    ensures !OnBoard(r, c) ==> cell.None?
  {
    if OnBoard(r, c) then b[8 * r + c] else None
  }

  /** setPieceAt: a write off the board is ignored. */
  function SetAt(b: Board, r: int, c: int, x: Cell): (b': Board)
    ensures forall r', c' :: At(b', r', c') == if OnBoard(r, c) && r' == r && c' == c then x else At(b, r', c')
  {
    if OnBoard(r, c) then b[8 * r + c := x] else b
  }

  /** Appending is associative. */
  lemma AppendAssoc<T>(a: seq<T>, b: seq<T>, c: seq<T>)
    ensures (a + b) + c == a + (b + c)
  {
  }

  /** Two boards that agree on every square are equal. */
  lemma BoardExt(b1: Board, b2: Board)
    requires forall r, c :: OnBoard(r, c) ==> At(b1, r, c) == At(b2, r, c)
    ensures b1 == b2
  {
    forall i | 0 <= i < 64 ensures b1[i] == b2[i] {
      assert At(b1, i / 8, i % 8) == At(b2, i / 8, i % 8);
    }
  }

  datatype Square = Square(row: int, col: int)

  /** castlingRights: { w: {K, Q}, b: {K, Q} }. */
  datatype Rights = Rights(wK: bool, wQ: bool, bK: bool, bQ: bool)

  const NoRights := Rights(false, false, false, false)
  const AllRights := Rights(true, true, true, true)

  function KingSide(r: Rights, p: Color): bool
  {
    if p == White then r.wK else r.bK
  }

  function QueenSide(r: Rights, p: Color): bool
  {
    if p == White then r.wQ else r.bQ
  }

  /** `r1` holds no right that `r2` does not hold. */
  predicate SubRights(r1: Rights, r2: Rights)
  {
    (r1.wK ==> r2.wK) && (r1.wQ ==> r2.wQ) && (r1.bK ==> r2.bK) && (r1.bQ ==> r2.bQ)
  }

  datatype Position = Position(
    board: Board,
    turn: Color,
    rights: Rights,
    ep: Option<Square>,
    halfmove: int,
    fullmove: int)

  /** The square a pawn of colour `p` moves towards: one row up for White. */
  function Forward(p: Color): int
  {
    if p == White then -1 else 1
  }
}
