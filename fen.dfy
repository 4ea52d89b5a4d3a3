/** parseFen of gameLogic.js as a function from the FEN text to a
    position, with the JavaScript string primitives it relies on
    (String.prototype.split, parseInt, isNaN of a one-character string)
    written out. */
module Fen {
  import opened Pieces
  import opened Boards

  // ---------------------------------------------------------------------
  // split and join on one separator character.

  /** `s.split(d)`: the pieces between separators, an empty piece where
      two separators meet or at either end; never an empty list. */
  function Split(s: string, d: char): (parts: seq<string>)
    ensures |parts| >= 1
  {
    if s == [] then [""]
    else
      var rest := Split(s[1..], d);
      if s[0] == d then [""] + rest else [[s[0]] + rest[0]] + rest[1..]
  }

  /** `parts.join(d)`. */
  function Join(parts: seq<string>, d: char): string
    requires |parts| >= 1
  {
    if |parts| == 1 then parts[0] else parts[0] + [d] + Join(parts[1..], d)
  }

  lemma {:induction false} SplitWord(w: string, s: string, d: char)
    requires d !in w
    ensures Split(w + s, d) == [w + Split(s, d)[0]] + Split(s, d)[1..]
  {
    if w != [] {
      assert (w + s)[0] == w[0] && (w + s)[1..] == w[1..] + s;
      SplitWord(w[1..], s, d);
      var rest := Split(w[1..] + s, d);
      assert rest[0] == w[1..] + Split(s, d)[0] && rest[1..] == Split(s, d)[1..];
      assert Split(w + s, d) == [[w[0]] + rest[0]] + rest[1..];
      assert [w[0]] + (w[1..] + Split(s, d)[0]) == w + Split(s, d)[0];
    } else {
      assert w + s == s && w + Split(s, d)[0] == Split(s, d)[0];
      assert [Split(s, d)[0]] + Split(s, d)[1..] == Split(s, d);
    }
  }

  /** Splitting a join of separator-free pieces gives the pieces back. */
  lemma {:induction false} SplitJoin(parts: seq<string>, d: char)
    requires |parts| >= 1 && forall i :: 0 <= i < |parts| ==> d !in parts[i]
    ensures Split(Join(parts, d), d) == parts
  {
    if |parts| == 1 {
      SplitWord(parts[0], [], d);
      assert parts[0] + [] == parts[0];
    } else {
      SplitJoin(parts[1..], d);
      var tail := [d] + Join(parts[1..], d);
      assert parts[0] + [d] + Join(parts[1..], d) == parts[0] + tail;
      SplitWord(parts[0], tail, d);
      assert tail[1..] == Join(parts[1..], d);
      assert Split(tail, d) == [""] + parts[1..];
      assert parts[0] + "" == parts[0];
    }
  }

  /** Joining the pieces of a split gives the text back. */
  lemma {:induction false} JoinSplit(s: string, d: char)
    ensures Join(Split(s, d), d) == s
  {
    if s != [] {
      JoinSplit(s[1..], d);
      var rest := Split(s[1..], d);
      if s[0] != d {
        var parts := [[s[0]] + rest[0]] + rest[1..];
        if |rest| > 1 {
          assert parts[1..] == rest[1..];
          assert Join(rest, d) == rest[0] + [d] + Join(rest[1..], d);
        }
      }
    }
  }

  // ---------------------------------------------------------------------
  // parseInt(s, 10) and the white space it skips.

  /** The characters JavaScript trims as white space. */
  predicate IsJsSpace(ch: char)
  {
    ('\U{0009}' <= ch <= '\U{000D}') || ch == '\U{0020}' || ch == '\U{00A0}' || ch == '\U{1680}' ||
    ('\U{2000}' <= ch <= '\U{200A}') || ch == '\U{2028}' || ch == '\U{2029}' || ch == '\U{202F}' ||
    ch == '\U{205F}' || ch == '\U{3000}' || ch == '\U{FEFF}'
  }

  predicate IsDigit(ch: char) { '0' <= ch <= '9' }

  function DigitValue(ch: char): nat
    requires IsDigit(ch)
  {
    ch as int - '0' as int
  }

  function SkipSpace(s: string): string
  {
    if s != [] && IsJsSpace(s[0]) then SkipSpace(s[1..]) else s
  }

  /** The length of the run of decimal digits at the start of `s`. */
  function DigitRun(s: string): (n: nat)
    ensures n <= |s| && forall i :: 0 <= i < n ==> IsDigit(s[i])
  {
    if s != [] && IsDigit(s[0]) then 1 + DigitRun(s[1..]) else 0
  }

  /** The number a string of decimal digits denotes. */
  function DigitsValue(s: string): nat
    requires forall i :: 0 <= i < |s| ==> IsDigit(s[i])
  {
    if s == [] then 0 else 10 * DigitsValue(s[..|s| - 1]) + DigitValue(s[|s| - 1])
  }

  /** parseInt(s, 10): white space, an optional sign, then the longest run
      of digits; NaN (None) when there is no digit. */
  function ParseIntJs(s: string): Option<int>
  {
    var t := SkipSpace(s);
    var neg := t != [] && t[0] == '-';
    var u := if t != [] && (t[0] == '-' || t[0] == '+') then t[1..] else t;
    var n := DigitRun(u);
    if n == 0 then None else Some(if neg then 0 - DigitsValue(u[..n]) else DigitsValue(u[..n]))
  }

  /** The decimal numeral of a natural number (what JavaScript's number to
      string conversion prints for it). */
  function NatString(n: nat): (s: string)
    ensures |s| >= 1 && forall i :: 0 <= i < |s| ==> IsDigit(s[i])
  {
    if n < 10 then [('0' as int + n) as char] else NatString(n / 10) + [('0' as int + n % 10) as char]
  }

  lemma {:induction false} NatStringValue(n: nat)
    ensures DigitsValue(NatString(n)) == n
  {
    var s := NatString(n);
    if n >= 10 {
      NatStringValue(n / 10);
      assert s[..|s| - 1] == NatString(n / 10);
    }
  }

  lemma {:induction false} DigitRunAll(s: string)
    requires forall i :: 0 <= i < |s| ==> IsDigit(s[i])
    ensures DigitRun(s) == |s|
  {
    if s != [] {
      DigitRunAll(s[1..]);
    }
  }

  /** parseInt reads back what NatString prints. */
  lemma ParseNatString(n: nat)
    ensures ParseIntJs(NatString(n)) == Some(n)
  {
    var s := NatString(n);
    assert !IsJsSpace(s[0]) && s[0] != '-' && s[0] != '+';
    DigitRunAll(s);
    assert s[..|s|] == s;
    NatStringValue(n);
  }

  // ---------------------------------------------------------------------
  // One rank of the placement field.

  /** The state of the scan of one rank: the squares filled so far, or a
      rejected rank. */
  datatype RankScan = Filling(cells: seq<Cell>) | Bad

  function Nones(n: nat): (cs: seq<Cell>)
    ensures |cs| == n && forall i :: 0 <= i < n ==> cs[i].None?
  {
    seq(n, _ => None)
  }

  /** One character of the rank loop: nothing more is read once eight
      squares are filled; a digit 1-8 adds that many empty squares (and
      may not overrun the rank); a white-space character is passed over
      (isNaN is false for it, and parseInt gives NaN, so the filling loop
      runs no times); a piece letter fills one square; anything else
      rejects the rank. */
  function Step(st: RankScan, ch: char): RankScan
  {
    match st
    case Bad => Bad
    case Filling(cs) =>
      if |cs| >= 8 then st
      else if IsDigit(ch) then
        var n := DigitValue(ch);
        if n < 1 || n > 8 || |cs| + n > 8 then Bad else Filling(cs + Nones(n))
      else if IsJsSpace(ch) then st
      else match PieceOfChar(ch)
        case Some(p) => Filling(cs + [Some(p)])
        case None => Bad
  }

  function ScanFrom(st: RankScan, s: string): RankScan
    decreases s
  {
    if s == [] then st else ScanFrom(Step(st, s[0]), s[1..])
  }

  /** A rank is accepted when the scan fills exactly eight squares. */
  function ParseRank(s: string): (r: Option<seq<Cell>>)
    ensures r.Some? ==> |r.value| == 8
  {
    match ScanFrom(Filling([]), s)
    case Filling(cs) => if |cs| == 8 then Some(cs) else None
    case Bad => None
  }

  lemma {:induction false} ScanAppend(st: RankScan, a: string, b: string)
    ensures ScanFrom(st, a + b) == ScanFrom(ScanFrom(st, a), b)
    decreases a
  {
    if a != [] {
      assert a + b != [] && (a + b)[0] == a[0] && (a + b)[1..] == a[1..] + b;
      ScanAppend(Step(st, a[0]), a[1..], b);
    } else {
      assert a + b == b;
    }
  }

  /** Once eight squares are filled the rest of the rank text is ignored. */
  lemma {:induction false} ScanFull(cs: seq<Cell>, s: string)
    requires |cs| >= 8
    ensures ScanFrom(Filling(cs), s) == Filling(cs)
  {
    if s != [] {
      ScanFull(cs, s[1..]);
    }
  }

  /** A rejected rank stays rejected whatever follows. */
  lemma {:induction false} ScanBad(s: string)
    ensures ScanFrom(Bad, s) == Bad
  {
    if s != [] {
      ScanBad(s[1..]);
    }
  }

  /** The scan of one more character of the rank text. */
  lemma ScanStep(rank: string, i: nat)
    requires i < |rank|
    ensures ScanFrom(Filling([]), rank[..i + 1]) == Step(ScanFrom(Filling([]), rank[..i]), rank[i])
  {
    assert rank[..i + 1] == rank[..i] + [rank[i]];
    ScanAppend(Filling([]), rank[..i], [rank[i]]);
  }

  /** A rank whose scan is rejected after `i + 1` characters is rejected. */
  lemma ScanRejects(rank: string, i: nat)
    requires i < |rank| && ScanFrom(Filling([]), rank[..i + 1]) == Bad
    ensures ParseRank(rank) == None
  {
    ScanBad(rank[i + 1..]);
    ScanAppend(Filling([]), rank[..i + 1], rank[i + 1..]);
    assert rank[..i + 1] + rank[i + 1..] == rank;
  }

  /** A rank whose first `i` characters fill eight squares reads as them. */
  lemma ScanRest(rank: string, i: nat, cs: seq<Cell>)
    requires i <= |rank| && |cs| >= 8 && ScanFrom(Filling([]), rank[..i]) == Filling(cs)
    ensures ScanFrom(Filling([]), rank) == Filling(cs)
  {
    ScanFull(cs, rank[i..]);
    ScanAppend(Filling([]), rank[..i], rank[i..]);
    assert rank[..i] + rank[i..] == rank;
  }

  /** parseInt of one character: its value for a digit, NaN for white
      space. */
  lemma ParseIntOneChar(ch: char)
    ensures IsDigit(ch) ==> ParseIntJs([ch]) == Some(DigitValue(ch))
    ensures IsJsSpace(ch) ==> ParseIntJs([ch]) == None
  {
    if IsDigit(ch) {
      assert !IsJsSpace(ch) && ch != '-' && ch != '+';
      assert SkipSpace([ch]) == [ch];
      assert DigitRun([ch]) == 1;
      assert [ch][..1] == [ch] && [ch][..0] == [];
      assert DigitsValue([ch]) == 10 * DigitsValue([]) + DigitValue(ch);
    } else if IsJsSpace(ch) {
      assert SkipSpace([ch]) == SkipSpace([]);
    }
  }

  /** The placement field: all eight ranks, top rank first, concatenated;
      None as soon as one rank is rejected. */
  function ParseRanks(rows: seq<string>): (r: Option<seq<Cell>>)
    ensures r.Some? ==> |r.value| == 8 * |rows|
  {
    if rows == [] then Some([])
    else match ParseRanks(rows[..|rows| - 1])
      case None => None
      case Some(cs) =>
        match ParseRank(rows[|rows| - 1])
        case None => None
        case Some(row) => Some(cs + row)
  }

  /** One more accepted rank extends the parsed placement by its row. */
  lemma ParseRanksSnoc(rows: seq<string>, x: string, cs: seq<Cell>, row: seq<Cell>)
    requires ParseRanks(rows) == Some(cs) && ParseRank(x) == Some(row)
    ensures ParseRanks(rows + [x]) == Some(cs + row)
  {
    assert (rows + [x])[..|rows|] == rows;
  }

  /** Once a rank among the first `k` is rejected, the whole field is. */
  lemma {:induction false} ParseRanksPrefix(rows: seq<string>, k: nat)
    requires k <= |rows| && ParseRanks(rows[..k]).None?
    ensures ParseRanks(rows).None?
    decreases |rows| - k
  {
    if k < |rows| {
      assert rows[..k + 1][..k] == rows[..k];
      ParseRanksPrefix(rows, k + 1);
    } else {
      assert rows[..k] == rows;
    }
  }

  /** The placement is read exactly when every rank is accepted. */
  lemma {:induction false} ParseRanksIff(rows: seq<string>)
    ensures ParseRanks(rows).Some? <==> forall i :: 0 <= i < |rows| ==> ParseRank(rows[i]).Some?
    decreases |rows|
  {
    if rows != [] {
      var init := rows[..|rows| - 1];
      ParseRanksIff(init);
      forall i | 0 <= i < |init|
        ensures init[i] == rows[i]
      {
      }
    }
  }

  /** The castling field: each of K, Q, k, q grants its right wherever it
      appears; other characters are ignored. */
  function FenRights(s: string): Rights
  {
    if s == "-" then NoRights else Rights('K' in s, 'Q' in s, 'k' in s, 'q' in s)
  }

  /** The en passant field: a two-character square on the board, kept only
      on the sixth rank with White to move or the third with Black. */
  function FenEp(s: string, turn: Color): (ep: Option<Square>)
    ensures ep.Some? ==> OnBoard(ep.value.row, ep.value.col) && ep.value.row == (if turn == White then 2 else 5)
  {
    if s == "-" || |s| != 2 then None
    else
      var file := s[0] as int - 'a' as int;
      var rank := 8 - (s[1] as int - '0' as int);
      if 0 <= file < 8 && 0 <= rank < 8 && ((turn == White && rank == 2) || (turn == Black && rank == 5))
      then Some(Square(rank, file))
      else None
  }

  function FenTurn(s: string): Option<Color>
  {
    if s == "w" then Some(White) else if s == "b" then Some(Black) else None
  }

  /** The clocks: NaN or a negative halfmove clock reads as 0, NaN or a
      fullmove number below 1 reads as 1. */
  function FenHalfmove(s: string): (h: int)
    ensures h >= 0
  {
    match ParseIntJs(s)
    case None => 0
    case Some(n) => if n < 0 then 0 else n
  }

  function FenFullmove(s: string): (f: int)
    ensures f >= 1
  {
    match ParseIntJs(s)
    case None => 1
    case Some(n) => if n < 1 then 1 else n
  }

  /** parseFen: the position a FEN text describes, or None where the
      engine reports failure (not six space-separated fields, not eight
      ranks, a rejected rank, a side to move other than w or b). */
  function FenPosition(fen: string): (p: Option<Position>)
    ensures p.Some? ==> p.value.halfmove >= 0 && p.value.fullmove >= 1
    ensures p.Some? ==> p.value.ep.Some? ==> OnBoard(p.value.ep.value.row, p.value.ep.value.col)
  {
    var parts := Split(fen, ' ');
    if |parts| != 6 then None else FenFields(parts)
  }

  /** The six fields once they have been counted. */
  function FenFields(parts: seq<string>): Option<Position>
    requires |parts| == 6
  {
    var rows := Split(parts[0], '/');
    if |rows| != 8 then None
    else match ParseRanks(rows)
      case None => None
      case Some(cells) => FenAfterBoard(parts, cells)
  }

  /** The fields after the placement, once the ranks have been read. */
  function FenAfterBoard(parts: seq<string>, cells: seq<Cell>): Option<Position>
    requires |parts| == 6 && |cells| == 64
  {
    match FenTurn(parts[1])
    case None => None
    case Some(turn) =>
      Some(Position(cells, turn, FenRights(parts[2]), FenEp(parts[3], turn),
                    FenHalfmove(parts[4]), FenFullmove(parts[5])))
  }

  /** parseFen succeeds exactly when the text has six space-separated
      fields, the first has eight '/'-separated ranks each of which is
      accepted, and the second is w or b; the castling, en passant and
      clock fields never cause a failure. */
  lemma FenAccepted(fen: string)
    ensures FenPosition(fen).Some? <==>
      var parts := Split(fen, ' ');
      |parts| == 6 && |Split(parts[0], '/')| == 8 &&
      (forall i :: 0 <= i < 8 ==> ParseRank(Split(parts[0], '/')[i]).Some?) &&
      (parts[1] == "w" || parts[1] == "b")
  {
    var parts := Split(fen, ' ');
    if |parts| == 6 {
      ParseRanksIff(Split(parts[0], '/'));
    }
  }

  /** Square (i, j) of a read placement is column j of the i-th rank. */
  lemma {:induction false} ParseRanksAt(rows: seq<string>, i: int, j: int)
    requires ParseRanks(rows).Some? && 0 <= i < |rows| && 0 <= j < 8
    ensures ParseRank(rows[i]).Some? && ParseRanks(rows).value[8 * i + j] == ParseRank(rows[i]).value[j]
    decreases |rows|
  {
    var init := rows[..|rows| - 1];
    assert ParseRanks(init).Some? && ParseRank(rows[|rows| - 1]).Some?;
    var cs, row := ParseRanks(init).value, ParseRank(rows[|rows| - 1]).value;
    assert ParseRanks(rows).value == cs + row;
    if i < |rows| - 1 {
      ParseRanksAt(init, i, j);
      assert init[i] == rows[i];
    }
  }

  /** The board of an accepted text holds, on row r and column c, the
      cell in column c of the r-th '/'-separated rank: the ranks are read
      top first, each from left to right. */
  lemma FenBoardRead(fen: string, r: int, c: int)
    requires FenPosition(fen).Some? && OnBoard(r, c)
    ensures |Split(fen, ' ')| == 6 && |Split(Split(fen, ' ')[0], '/')| == 8
    ensures var rank := Split(Split(fen, ' ')[0], '/')[r];
      ParseRank(rank).Some? && At(FenPosition(fen).value.board, r, c) == ParseRank(rank).value[c]
  {
    var parts := Split(fen, ' ');
    ParseRanksAt(Split(parts[0], '/'), r, c);
  }
}
