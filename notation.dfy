/** getAlgebraicNotation and checkAmbiguity of gameLogic.js: the base
    notation of a move before the check, mate and promotion marks, with the
    origin file or rank added when another piece of the same kind and
    colour could also reach the target. */
module Notation {
  import opened Pieces
  import opened Boards
  import opened Geometry
  import opened Legality
  import opened Fen

  /** The file letter of a column on the board. */
  function FileChar(c: int): char
    requires 0 <= c < 8
  {
    ('a' as int + c) as char
  }

  /** The rank number of a row on the board. */
  function RankString(r: int): string
    requires 0 <= r < 8
  {
    NatString(8 - r)
  }

  /** The destination square, "e4". */
  function SquareName(sq: Square): string
    requires OnBoard(sq.row, sq.col)
  {
    [FileChar(sq.col)] + RankString(sq.row)
  }

  // ---------------------------------------------------------------------
  // checkAmbiguity.

  /** Some generated move of `ms` lands on `to`. */
  predicate Reaches(ms: seq<Target>, to: Square)
  {
    exists i :: 0 <= i < |ms| && ms[i].row == to.row && ms[i].col == to.col
  }

  /** The square (r, c) holds another piece equal to `piece` that has a
      legal move to `to`, its owner being put to move. */
  predicate Rival(pos: Position, piece: Piece, from: Square, to: Square, r: int, c: int)
  {
    Square(r, c) != from && At(pos.board, r, c) == Some(piece) && Reaches(LegalMoves(pos.(turn := piece.color), r, c), to)
  }

  /** Which relation to the origin a rival square is asked about. */
  datatype Relation = OtherFile | OtherRank | SameRank | SameFile

  predicate Related(rel: Relation, from: Square, r: int, c: int)
  {
    match rel
    case OtherFile => c != from.col
    case OtherRank => r != from.row
    case SameRank => r == from.row
    case SameFile => c == from.col
  }

  /** The answer of every square, in row-major order. */
  function RivalTable(pos: Position, piece: Piece, from: Square, to: Square): (t: seq<bool>)
    ensures |t| == 64
  {
    seq(64, k requires 0 <= k < 64 => Rival(pos, piece, from, to, k / 8, k % 8))
  }

  /** The table says the square (r, c) holds a rival. */
  lemma TableAt(pos: Position, piece: Piece, from: Square, to: Square, r: int, c: int)
    requires OnBoard(r, c)
    ensures RivalTable(pos, piece, from, to)[8 * r + c] == Rival(pos, piece, from, to, r, c)
  {
    assert (8 * r + c) / 8 == r && (8 * r + c) % 8 == c;
  }

  /** Some square among the first `k` (row-major) that the table marks
      stands in the relation `rel` to the origin. */
  predicate AnyRival(t: seq<bool>, from: Square, rel: Relation, k: int)
  {
    exists r, c :: 0 <= r < 8 && 0 <= c < 8 && 8 * r + c < k && 8 * r + c < |t| && t[8 * r + c] && Related(rel, from, r, c)
  }

  /** The four flags of checkAmbiguity. */
  datatype Ambiguity = Ambiguity(fileAmbig: bool, rankAmbig: bool, needsFile: bool, needsRank: bool)

  function Flags(t: seq<bool>, from: Square, k: int): Ambiguity
  {
    Ambiguity(AnyRival(t, from, OtherFile, k), AnyRival(t, from, OtherRank, k),
              AnyRival(t, from, SameRank, k), AnyRival(t, from, SameFile, k))
  }

  function CheckAmbiguity(pos: Position, piece: Piece, from: Square, to: Square): Ambiguity
  {
    Flags(RivalTable(pos, piece, from, to), from, 64)
  }

  /** The flags after the square (r, c) whose answer is `found`. */
  function Flagged(a: Ambiguity, found: bool, from: Square, r: int, c: int): Ambiguity
  {
    if !found then a
    else Ambiguity(a.fileAmbig || c != from.col, a.rankAmbig || r != from.row,
                   a.needsFile || r == from.row, a.needsRank || c == from.col)
  }

  /** The flags after the first `k` answers of the row-major scan. */
  function Scanned(t: seq<bool>, from: Square, k: nat): Ambiguity
    requires k <= |t|
  {
    if k == 0 then Ambiguity(false, false, false, false)
    else Flagged(Scanned(t, from, k - 1), t[k - 1], from, (k - 1) / 8, (k - 1) % 8)
  }

  /** One more square of the scan: the flag after square (r, c) is the flag
      before it, or that square's answer. */
  lemma AnyRivalStep(t: seq<bool>, from: Square, rel: Relation, r: int, c: int)
    requires OnBoard(r, c) && 8 * r + c < |t|
    ensures AnyRival(t, from, rel, 8 * r + c + 1) == (AnyRival(t, from, rel, 8 * r + c) || (t[8 * r + c] && Related(rel, from, r, c)))
  {
    if AnyRival(t, from, rel, 8 * r + c + 1) && !AnyRival(t, from, rel, 8 * r + c) {
      var r', c' :| 0 <= r' < 8 && 0 <= c' < 8 && 8 * r' + c' < 8 * r + c + 1 && 8 * r' + c' < |t| && t[8 * r' + c'] && Related(rel, from, r', c');
      assert 8 * r' + c' == 8 * r + c;
      assert r' == r && c' == c;
    }
  }

  /** The scan sets each flag exactly when some marked square so far
      stands in its relation to the origin. */
  lemma {:induction false} ScannedIsFlags(t: seq<bool>, from: Square, k: nat)
    requires k <= |t| <= 64
    ensures Scanned(t, from, k) == Flags(t, from, k)
  {
    if k > 0 {
      var r, c := (k - 1) / 8, (k - 1) % 8;
      assert 8 * r + c == k - 1;
      ScannedIsFlags(t, from, k - 1);
      AnyRivalStep(t, from, OtherFile, r, c);
      AnyRivalStep(t, from, OtherRank, r, c);
      AnyRivalStep(t, from, SameRank, r, c);
      AnyRivalStep(t, from, SameFile, r, c);
    }
  }

  // ---------------------------------------------------------------------
  // getAlgebraicNotation.

  /** What is written between the piece letter and the destination. */
  datatype Hint = NoHint | FileHint | RankHint | BothHint

  /** The choice getAlgebraicNotation makes from the flags. */
  function HintOf(a: Ambiguity): Hint
  {
    if a.needsFile && a.needsRank then BothHint
    else if a.needsFile then FileHint
    else if a.needsRank then RankHint
    else if a.fileAmbig then FileHint
    else if a.rankAmbig then RankHint
    else NoHint
  }

  function HintString(h: Hint, from: Square): string
    requires OnBoard(from.row, from.col)
  {
    match h
    case NoHint => ""
    case FileHint => [FileChar(from.col)]
    case RankHint => RankString(from.row)
    case BothHint => [FileChar(from.col)] + RankString(from.row)
  }

  /** A reader who sees the hint for `from` could take the piece on `sq`
      for the one that moved. */
  predicate Fits(h: Hint, from: Square, sq: Square)
  {
    match h
    case NoHint => true
    case FileHint => sq.col == from.col
    case RankHint => sq.row == from.row
    case BothHint => sq == from
  }

  /** getAlgebraicNotation: "O-O" or "O-O-O" for castling; for a pawn the
      origin file and 'x' on a capture, then the destination; for any other
      piece its letter, the hint, 'x' on a capture, then the destination. */
  function AlgebraicNotation(pos: Position, piece: Piece, captured: Cell, from: Square, to: Square, isEp: bool, isCastling: bool): string
    requires OnBoard(from.row, from.col) && OnBoard(to.row, to.col)
  {
    if isCastling then (if to.col > from.col then "O-O" else "O-O-O")
    else
      var capture := captured.Some? || isEp;
      if piece.kind == Pawn then
        (if capture then [FileChar(from.col), 'x'] else "") + SquareName(to)
      else
        [KindLetter(piece.kind)] + HintString(HintOf(CheckAmbiguity(pos, piece, from, to)), from) +
        (if capture then "x" else "") + SquareName(to)
  }

  /** The notation of a piece other than a pawn, given the flags. */
  lemma PieceNotation(pos: Position, piece: Piece, captured: Cell, from: Square, to: Square, isEp: bool, a: Ambiguity)
    requires OnBoard(from.row, from.col) && OnBoard(to.row, to.col) && piece.kind != Pawn
    requires a == CheckAmbiguity(pos, piece, from, to)
    ensures AlgebraicNotation(pos, piece, captured, from, to, isEp, false) ==
      [KindLetter(piece.kind)] + HintString(HintOf(a), from) + (if captured.Some? || isEp then "x" else "") +
      ([FileChar(to.col)] + RankString(to.row))
  {
  }

  // ---------------------------------------------------------------------
  // What the notation promises.

  /** The hint is empty exactly when no other such piece reaches the
      target. */
  lemma NoHintIffNoRival(pos: Position, piece: Piece, from: Square, to: Square)
    ensures HintOf(CheckAmbiguity(pos, piece, from, to)) == NoHint <==>
      forall r, c :: OnBoard(r, c) ==> !Rival(pos, piece, from, to, r, c)
  {
    var t := RivalTable(pos, piece, from, to);
    var a := CheckAmbiguity(pos, piece, from, to);
    if HintOf(a) != NoHint {
      var rel := if a.fileAmbig then OtherFile else if a.rankAmbig then OtherRank else if a.needsFile then SameRank else SameFile;
      var r, c :| 0 <= r < 8 && 0 <= c < 8 && 8 * r + c < 64 && 8 * r + c < |t| && t[8 * r + c] && Related(rel, from, r, c);
      TableAt(pos, piece, from, to, r, c);
    } else {
      forall r, c | OnBoard(r, c) ensures !Rival(pos, piece, from, to, r, c) {
        TableAt(pos, piece, from, to, r, c);
        assert !(8 * r + c < 64 && 8 * r + c < |t| && t[8 * r + c] && Related(OtherFile, from, r, c));
        assert !(8 * r + c < 64 && 8 * r + c < |t| && t[8 * r + c] && Related(OtherRank, from, r, c));
      }
    }
  }

  /** The hint tells the moving piece apart: no rival fits it. */
  lemma HintIsUnambiguous(pos: Position, piece: Piece, from: Square, to: Square, r: int, c: int)
    requires OnBoard(r, c) && Rival(pos, piece, from, to, r, c)
    ensures !Fits(HintOf(CheckAmbiguity(pos, piece, from, to)), from, Square(r, c))
  {
    var t := RivalTable(pos, piece, from, to);
    var a := CheckAmbiguity(pos, piece, from, to);
    TableAt(pos, piece, from, to, r, c);
    if r == from.row {
      assert 8 * r + c < 64 && 8 * r + c < |t| && t[8 * r + c] && Related(SameRank, from, r, c);
    } else {
      assert 8 * r + c < 64 && 8 * r + c < |t| && t[8 * r + c] && Related(OtherRank, from, r, c);
    }
    if c == from.col {
      assert 8 * r + c < 64 && 8 * r + c < |t| && t[8 * r + c] && Related(SameFile, from, r, c);
    } else {
      assert 8 * r + c < 64 && 8 * r + c < |t| && t[8 * r + c] && Related(OtherFile, from, r, c);
    }
    FlagsSeparate(a, from, Square(r, c));
  }

  /** The flags a rival on `sq` sets are enough for the hint to exclude it. */
  lemma FlagsSeparate(a: Ambiguity, from: Square, sq: Square)
    requires sq != from
    requires sq.row == from.row ==> a.needsFile
    requires sq.col == from.col ==> a.needsRank
    requires sq.row != from.row ==> a.rankAmbig
    requires sq.col != from.col ==> a.fileAmbig
    ensures !Fits(HintOf(a), from, sq)
  {
  }

  /** Every notation but castling ends with the destination square. */
  lemma NotationEndsWithDestination(pos: Position, piece: Piece, captured: Cell, from: Square, to: Square, isEp: bool)
    requires OnBoard(from.row, from.col) && OnBoard(to.row, to.col)
    ensures var n := AlgebraicNotation(pos, piece, captured, from, to, isEp, false);
      |n| >= |SquareName(to)| && n[|n| - |SquareName(to)|..] == SquareName(to)
  {
  }

  /** A rank number on the board is one digit, '1' to '8'. */
  lemma RankStringDigit(r: int)
    requires 0 <= r < 8
    ensures RankString(r) == [('0' as int + 8 - r) as char] && '1' <= RankString(r)[0] <= '8'
  {
  }

  /** No file letter or rank digit is 'x': the destination and the hint
      never contain one. */
  lemma NoCaptureMarkIn(h: Hint, from: Square, to: Square)
    requires OnBoard(from.row, from.col) && OnBoard(to.row, to.col)
    ensures 'x' !in SquareName(to) && 'x' !in HintString(h, from)
    ensures |SquareName(to)| == 2 && |HintString(h, from)| <= 2
  {
    RankStringDigit(to.row);
    RankStringDigit(from.row);
  }

  /** The notation split into its lead (a pawn's file and 'x' on a
      capture; another piece's letter and hint), its capture mark and its
      destination, with the facts each part contributes. */
  lemma NotationParts(pos: Position, piece: Piece, captured: Cell, from: Square, to: Square, isEp: bool)
      returns (lead: string, mark: string)
    requires OnBoard(from.row, from.col) && OnBoard(to.row, to.col)
    ensures AlgebraicNotation(pos, piece, captured, from, to, isEp, false) == lead + mark + SquareName(to)
    ensures |SquareName(to)| == 2 && 'x' !in SquareName(to) && 'a' <= SquareName(to)[0] <= 'h'
    ensures 'x' !in lead && (mark == "x" <==> captured.Some? || isEp) && (mark == "" <==> captured.None? && !isEp)
    ensures piece.kind == Pawn ==> lead == [] || (|lead| == 1 && 'a' <= lead[0] <= 'h')
    ensures piece.kind != Pawn ==> 1 <= |lead| <= 3 && lead[0] == KindLetter(piece.kind)
  {
    var capture := captured.Some? || isEp;
    var a := CheckAmbiguity(pos, piece, from, to);
    NoCaptureMarkIn(HintOf(a), from, to);
    if piece.kind == Pawn {
      lead, mark := if capture then [FileChar(from.col)] else [], if capture then "x" else "";
      assert (if capture then [FileChar(from.col), 'x'] else "") == lead + mark;
    } else {
      lead, mark := [KindLetter(piece.kind)] + HintString(HintOf(a), from), if capture then "x" else "";
      PieceNotation(pos, piece, captured, from, to, isEp, a);
    }
  }

  /** A notation other than castling contains 'x' exactly when the move
      captures, en passant included. */
  lemma NotationMarksCapture(pos: Position, piece: Piece, captured: Cell, from: Square, to: Square, isEp: bool)
    requires OnBoard(from.row, from.col) && OnBoard(to.row, to.col)
    ensures 'x' in AlgebraicNotation(pos, piece, captured, from, to, isEp, false) <==> captured.Some? || isEp
  {
    var lead, mark := NotationParts(pos, piece, captured, from, to, isEp);
    if mark == "x" { assert (lead + mark + SquareName(to))[|lead|] == 'x'; }
  }

  /** A notation other than castling starts with an upper-case letter
      exactly when a piece other than a pawn moved, and that letter is the
      piece's; a pawn's starts with a file letter. */
  lemma NotationLeadsWithPiece(pos: Position, piece: Piece, captured: Cell, from: Square, to: Square, isEp: bool)
    requires OnBoard(from.row, from.col) && OnBoard(to.row, to.col)
    ensures var n := AlgebraicNotation(pos, piece, captured, from, to, isEp, false);
      |n| >= 2 && ('A' <= n[0] <= 'Z' <==> piece.kind != Pawn) &&
      (piece.kind != Pawn ==> n[0] == KindLetter(piece.kind)) &&
      (piece.kind == Pawn ==> 'a' <= n[0] <= 'h')
  {
    var lead, mark := NotationParts(pos, piece, captured, from, to, isEp);
    var n := lead + mark + SquareName(to);
    if lead != [] { assert n[0] == lead[0]; } else { assert mark == [] && n == SquareName(to); }
  }

  /** A pawn's notation has two characters, or four on a capture; any
      other piece's has three to six. */
  lemma NotationLength(pos: Position, piece: Piece, captured: Cell, from: Square, to: Square, isEp: bool)
    requires OnBoard(from.row, from.col) && OnBoard(to.row, to.col)
    ensures var n := AlgebraicNotation(pos, piece, captured, from, to, isEp, false);
      (piece.kind == Pawn ==> (|n| == 2 || |n| == 4) && (|n| == 4 <==> captured.Some? || isEp)) &&
      (piece.kind != Pawn ==> 3 <= |n| <= 6 && (|n| == 3 ==> captured.None? && !isEp))
  {
    var lead, mark := NotationParts(pos, piece, captured, from, to, isEp);
  }
}
