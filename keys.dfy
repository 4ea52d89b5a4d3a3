/** getBoardPositionString of gameLogic.js, the key by which positions are
    compared for threefold repetition: the placement field of FEN, the side
    to move, the castling field and the en passant field. The key read back
    by parseFen gives the position back, so equal keys mean equal
    positions up to the clocks. */
module Keys {
  import opened Pieces
  import opened Boards
  import opened Fen

  /** Row `r` of the board, file a first. */
  function Row(b: Board, r: int): (row: seq<Cell>)
    requires 0 <= r < 8
    ensures |row| == 8
  {
    b[8 * r .. 8 * r + 8]
  }

  /** The digit for a run of empty squares, nothing for no run. */
  function EmptyRun(e: nat): string
  {
    if e > 0 then NatString(e) else ""
  }

  /** The FEN of the rest of a rank, `empties` empty squares pending. */
  function RankCode(cells: seq<Cell>, empties: nat): string
  {
    if cells == [] then EmptyRun(empties)
    else match cells[0]
      case None => RankCode(cells[1..], empties + 1)
      case Some(p) => EmptyRun(empties) + [Letter(p)] + RankCode(cells[1..], 0)
  }

  /** The code of a rank from square `j` on: an empty square adds to the
      pending run, a piece writes the run and its letter. */
  lemma RankCodeStep(row: seq<Cell>, j: nat, empties: nat)
    requires j < |row|
    ensures row[j].None? ==> RankCode(row[j..], empties) == RankCode(row[j + 1..], empties + 1)
    ensures row[j].Some? ==> RankCode(row[j..], empties) == EmptyRun(empties) + [Letter(row[j].value)] + RankCode(row[j + 1..], 0)
  {
    assert row[j..][1..] == row[j + 1..];
  }

  /** The codes of the first `k` rows. */
  function RankCodes(b: Board, k: nat): (codes: seq<string>)
    requires k <= 8
    ensures |codes| == k
  {
    if k == 0 then [] else RankCodes(b, k - 1) + [RankCode(Row(b, k - 1), 0)]
  }

  function Placement(b: Board): string
  {
    Join(RankCodes(b, 8), '/')
  }

  function TurnString(c: Color): string
  {
    if c == White then "w" else "b"
  }

  /** getCastlingString: K, Q, k, q for the rights held, "-" for none. */
  function CastlingString(r: Rights): string
  {
    var s := CastlingLetters(r);
    if s == "" then "-" else s
  }

  /** getEnPassantString: file letter and rank number, "-" for no square or
      one off the board. */
  function EpString(ep: Option<Square>): string
  {
    match ep
    case None => "-"
    case Some(sq) =>
      var rank := 8 - sq.row;
      if sq.col < 0 || sq.col >= 8 || rank < 1 || rank > 8 then "-"
      else [('a' as int + sq.col) as char] + NatString(rank)
  }

  /** getBoardPositionString. */
  function PositionKey(p: Position): string
  {
    Placement(p.board) + " " + TurnString(p.turn) + " " + CastlingString(p.rights) + " " + EpString(p.ep)
  }

  /** The en passant square as parseFen would keep it: on the board and on
      the rank that matches the side to move. */
  function EpNormal(ep: Option<Square>, turn: Color): Option<Square>
  {
    if ep.Some? && OnBoard(ep.value.row, ep.value.col) && ep.value.row == (if turn == White then 2 else 5) then ep else None
  }

  // ---------------------------------------------------------------------
  // Reading a key back.

  lemma {:induction false} LetterScans(cs: seq<Cell>, p: Piece)
    requires |cs| < 8
    ensures Step(Filling(cs), Letter(p)) == Filling(cs + [Some(p)])
  {
    LetterRoundTrip(p, Letter(p));
    LetterIsNotSpecial(p);
  }

  lemma {:induction false} EmptyRunScans(cs: seq<Cell>, e: nat)
    requires |cs| + e <= 8
    ensures ScanFrom(Filling(cs), EmptyRun(e)) == Filling(cs + Nones(e))
  {
    if e == 0 {
      assert cs + Nones(0) == cs;
    } else {
      assert EmptyRun(e) == [('0' as int + e) as char];
    }
  }

  /** Scanning the code of the rest of a rank adds its squares. */
  lemma {:induction false} RankCodeScans(cs: seq<Cell>, cells: seq<Cell>, e: nat)
    requires |cs| + e + |cells| <= 8
    ensures ScanFrom(Filling(cs), RankCode(cells, e)) == Filling(cs + Nones(e) + cells)
    decreases cells
  {
    if cells == [] {
      EmptyRunScans(cs, e);
      assert cs + Nones(e) + cells == cs + Nones(e);
    } else {
      match cells[0]
      case None =>
        RankCodeScans(cs, cells[1..], e + 1);
        assert Nones(e + 1) == Nones(e) + [None];
        assert cs + Nones(e + 1) + cells[1..] == cs + Nones(e) + cells;
      case Some(p) =>
        var run := EmptyRun(e);
        ScanAppend(Filling(cs), run + [Letter(p)], RankCode(cells[1..], 0));
        ScanAppend(Filling(cs), run, [Letter(p)]);
        EmptyRunScans(cs, e);
        LetterScans(cs + Nones(e), p);
        RankCodeScans(cs + Nones(e) + [Some(p)], cells[1..], 0);
        assert cs + Nones(e) + [Some(p)] + Nones(0) + cells[1..] == cs + Nones(e) + cells;
    }
  }

  lemma {:induction false} RankCodeParses(row: seq<Cell>)
    requires |row| == 8
    ensures ParseRank(RankCode(row, 0)) == Some(row)
  {
    RankCodeScans([], row, 0);
    assert [] + Nones(0) + row == row;
  }

  /** A rank code holds only digits and piece letters. */
  lemma {:induction false} RankCodeChars(cells: seq<Cell>, e: nat)
    ensures '/' !in RankCode(cells, e) && ' ' !in RankCode(cells, e)
    decreases cells
  {
    if cells == [] {
    } else {
      RankCodeChars(cells[1..], if cells[0].None? then e + 1 else 0);
      if cells[0].Some? {
        LetterIsNotSpecial(cells[0].value);
      }
    }
  }

  lemma {:induction false} RankCodesParse(b: Board, k: nat)
    requires k <= 8
    ensures ParseRanks(RankCodes(b, k)) == Some(b[..8 * k])
  {
    if k > 0 {
      RankCodesParse(b, k - 1);
      RankCodeParses(Row(b, k - 1));
      ParseRanksSnoc(RankCodes(b, k - 1), RankCode(Row(b, k - 1), 0), b[..8 * (k - 1)], Row(b, k - 1));
      RowsPrefix(b, k);
    }
  }

  /** The first `k` rows are the first `k - 1` followed by row `k - 1`. */
  lemma RowsPrefix(b: Board, k: nat)
    requires 1 <= k <= 8
    ensures b[..8 * (k - 1)] + Row(b, k - 1) == b[..8 * k]
  {
    var m := 8 * (k - 1);
    assert m + 8 == 8 * k;
    assert b[..m + 8] == b[..m] + b[m .. m + 8];
  }

  lemma {:induction false} PlacementParses(b: Board)
    ensures Split(Placement(b), '/') == RankCodes(b, 8)
    ensures ParseRanks(Split(Placement(b), '/')) == Some(b[..])
    ensures ' ' !in Placement(b)
  {
    var codes := RankCodes(b, 8);
    forall i | 0 <= i < 8 ensures '/' !in codes[i] && ' ' !in codes[i] {
      RankCodeChars(Row(b, i), 0);
      assert codes[i] == RankCode(Row(b, i), 0) by {
        RankCodesElement(b, 8, i);
      }
    }
    SplitJoin(codes, '/');
    RankCodesParse(b, 8);
    assert b[..64] == b;
    JoinNoChar(codes, '/', ' ');
  }

  lemma {:induction false} RankCodesElement(b: Board, k: nat, i: nat)
    requires i < k <= 8
    ensures RankCodes(b, k)[i] == RankCode(Row(b, i), 0)
  {
    if i < k - 1 {
      RankCodesElement(b, k - 1, i);
    }
  }

  lemma {:induction false} JoinNoChar(parts: seq<string>, d: char, x: char)
    requires |parts| >= 1 && x != d && forall i :: 0 <= i < |parts| ==> x !in parts[i]
    ensures x !in Join(parts, d)
  {
    if |parts| > 1 {
      JoinNoChar(parts[1..], d, x);
    }
  }

  lemma {:induction false} FieldsJoin(a: string, b: string, c: string, d: string, e: string, f: string)
    ensures Join([a, b, c, d, e, f], ' ') == a + " " + b + " " + c + " " + d + " " + e + " " + f
  {
    var ps := [a, b, c, d, e, f];
    assert ps[1..][1..][1..][1..][1..] == [f];
    assert Join([e, f], ' ') == e + " " + f;
    assert ps[1..][1..][1..] == [d, e, f];
    assert Join([d, e, f], ' ') == d + " " + e + " " + f;
    assert ps[1..][1..] == [c, d, e, f];
    assert Join([c, d, e, f], ' ') == c + " " + d + " " + e + " " + f;
    assert ps[1..] == [b, c, d, e, f];
    assert Join([b, c, d, e, f], ' ') == b + " " + c + " " + d + " " + e + " " + f;
  }

  lemma {:induction false} EpStringParses(ep: Option<Square>, turn: Color)
    ensures ' ' !in EpString(ep)
    ensures FenEp(EpString(ep), turn) == EpNormal(ep, turn)
  {
    if ep.Some? {
      var rank := 8 - ep.value.row;
      if !(ep.value.col < 0 || ep.value.col >= 8 || rank < 1 || rank > 8) {
        assert NatString(rank) == [('0' as int + rank) as char];
      }
    }
  }

  /** The letters of the castling field before "-" stands in for none. */
  function CastlingLetters(r: Rights): string
  {
    (if r.wK then "K" else "") + (if r.wQ then "Q" else "") + (if r.bK then "k" else "") + (if r.bQ then "q" else "")
  }

  lemma LettersIn(a: string, b: string, c: string, d: string, ch: char)
    ensures ch in a + b + c + d <==> ch in a || ch in b || ch in c || ch in d
  {
  }

  lemma {:induction false} CastlingStringParses(r: Rights)
    ensures ' ' !in CastlingString(r)
    ensures FenRights(CastlingString(r)) == r
  {
    var k1, q1, k2, q2 := (if r.wK then "K" else ""), (if r.wQ then "Q" else ""), (if r.bK then "k" else ""), (if r.bQ then "q" else "");
    var s := k1 + q1 + k2 + q2;
    assert s == CastlingLetters(r);
    assert ('K' in s <==> r.wK) && ('Q' in s <==> r.wQ) && ('k' in s <==> r.bK) && ('q' in s <==> r.bQ) && ' ' !in s by {
      LettersIn(k1, q1, k2, q2, 'K');
      LettersIn(k1, q1, k2, q2, 'Q');
      LettersIn(k1, q1, k2, q2, 'k');
      LettersIn(k1, q1, k2, q2, 'q');
      LettersIn(k1, q1, k2, q2, ' ');
    }
    if s != "" {
      assert s[0] in s;
      assert s != "-";
    }
  }

  /** The key, followed by two clock fields, is a FEN text that parseFen
      reads back as the same position, with the given clocks and the en
      passant square as parseFen keeps it. */
  lemma {:induction false} KeyRoundTrip(p: Position, h: nat, f: nat)
    requires f >= 1
    ensures FenPosition(PositionKey(p) + " " + NatString(h) + " " + NatString(f)) ==
      Some(Position(p.board, p.turn, p.rights, EpNormal(p.ep, p.turn), h, f))
  {
    var fields := KeyFields(p, h, f);
    KeySplits(p, h, f);
    FieldsParse(p, h, f);
  }

  /** The six fields of the key followed by the two clocks. */
  function KeyFields(p: Position, h: nat, f: nat): (fields: seq<string>)
    ensures |fields| == 6
  {
    [Placement(p.board), TurnString(p.turn), CastlingString(p.rights), EpString(p.ep), NatString(h), NatString(f)]
  }

  /** The text splits at its spaces into those fields. */
  lemma KeySplits(p: Position, h: nat, f: nat)
    ensures Split(PositionKey(p) + " " + NatString(h) + " " + NatString(f), ' ') == KeyFields(p, h, f)
  {
    var fields := KeyFields(p, h, f);
    FieldsJoin(fields[0], fields[1], fields[2], fields[3], fields[4], fields[5]);
    PlacementParses(p.board);
    CastlingStringParses(p.rights);
    EpStringParses(p.ep, p.turn);
    forall i | 0 <= i < 6 ensures ' ' !in fields[i] {
    }
    SplitJoin(fields, ' ');
  }

  /** parseFen reads the fields back. */
  lemma FieldsParse(p: Position, h: nat, f: nat)
    requires f >= 1
    ensures FenFields(KeyFields(p, h, f)) == Some(Position(p.board, p.turn, p.rights, EpNormal(p.ep, p.turn), h, f))
  {
    var fields := KeyFields(p, h, f);
    PlacementParses(p.board);
    assert p.board[..] == p.board;
    var rows := Split(fields[0], '/');
    assert |rows| == 8 && ParseRanks(rows) == Some(p.board[..]);
    assert FenTurn(fields[1]) == Some(p.turn);
    CastlingStringParses(p.rights);
    EpStringParses(p.ep, p.turn);
    ParseNatString(h);
    ParseNatString(f);
    assert FenAfterBoard(fields, p.board) == Some(Position(p.board, p.turn, p.rights, EpNormal(p.ep, p.turn), h, f));
  }

  /** Equal keys mean equal boards, sides to move and castling rights, and
      the same en passant square as far as parseFen would keep it. */
  lemma {:induction false} KeyDeterminesPosition(p1: Position, p2: Position)
    requires PositionKey(p1) == PositionKey(p2)
    ensures p1.board == p2.board && p1.turn == p2.turn && p1.rights == p2.rights
    ensures EpNormal(p1.ep, p1.turn) == EpNormal(p2.ep, p2.turn)
  {
    KeyRoundTrip(p1, 0, 1);
    KeyRoundTrip(p2, 0, 1);
  }
}
