/** Pieces, the two sides, and the one-letter code the rules engine keeps on
    its board: upper case for White, lower case for Black (P N B R Q K). */
module Pieces {

  datatype Option<T> = None | Some(value: T)

  datatype Color = White | Black
  datatype Kind = Pawn | Knight | Bishop | Rook | Queen | King
  datatype Piece = Piece(color: Color, kind: Kind)

  /** One square of the board: a piece or nothing. */
  type Cell = Option<Piece>

  /** getOpponent. */
  function Opponent(c: Color): (o: Color)
    ensures o != c
  {
    if c == White then Black else White
  }

  /** isPlayerPiece: an empty square belongs to nobody. */
  predicate IsPlayerPiece(cell: Cell, player: Color)
  {
    cell.Some? && cell.value.color == player
  }

  /** getPlayerForPiece: the owner of a piece, nothing for an empty square. */
  function PlayerForPiece(cell: Cell): (o: Option<Color>)
    ensures o.Some? <==> cell.Some?
    ensures forall p :: IsPlayerPiece(cell, p) <==> o == Some(p)
  {
    match cell
    case None => None
    case Some(p) => Some(p.color)
  }

  /** The upper-case letter of a kind. */
  function KindLetter(k: Kind): char
  {
    match k
    case Pawn => 'P'
    case Knight => 'N'
    case Bishop => 'B'
    case Rook => 'R'
    case Queen => 'Q'
    case King => 'K'
  }

  /** The board letter of a piece. */
  function Letter(p: Piece): char
  {
    var u := KindLetter(p.kind);
    if p.color == White then u else (u as int + 32) as char
  }

  /** The piece a FEN letter stands for (the keys of PIECES). */
  function PieceOfChar(ch: char): Option<Piece>
  {
    match ch
    case 'P' => Some(Piece(White, Pawn))
    case 'N' => Some(Piece(White, Knight))
    case 'B' => Some(Piece(White, Bishop))
    case 'R' => Some(Piece(White, Rook))
    case 'Q' => Some(Piece(White, Queen))
    case 'K' => Some(Piece(White, King))
    case 'p' => Some(Piece(Black, Pawn))
    case 'n' => Some(Piece(Black, Knight))
    case 'b' => Some(Piece(Black, Bishop))
    case 'r' => Some(Piece(Black, Rook))
    case 'q' => Some(Piece(Black, Queen))
    case 'k' => Some(Piece(Black, King))
    case _ => None
  }

  /** Letters and pieces are in one-to-one correspondence. */
  lemma LetterRoundTrip(p: Piece, ch: char)
    ensures PieceOfChar(Letter(p)) == Some(p)
    ensures PieceOfChar(ch) == Some(p) ==> Letter(p) == ch
  {
  }

  /** No piece letter is a decimal digit, a separator or a space. */
  lemma LetterIsNotSpecial(p: Piece)
    ensures !('0' <= Letter(p) <= '9')
    ensures Letter(p) != '/' && Letter(p) != ' '
  {
  }
}
