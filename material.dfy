/** hasInsufficientMaterial of gameLogic.js: a tally of the board in
    row-major order, then the per-side test. */
module Material {
  import opened Pieces
  import opened Boards

  /** The tally the engine builds: each side's piece kinds in board order,
      its bishops split by square colour ((r + c) even counts as dark), and
      the number of pieces. */
  datatype Tally = Tally(white: seq<Kind>, black: seq<Kind>, lightW: nat, lightB: nat, darkW: nat, darkB: nat, count: nat)

  const NoTally := Tally([], [], 0, 0, 0, 0, 0)

  /** The tally after adding the piece on square `k` (row-major). */
  function AddSquare(t: Tally, b: Board, k: nat): Tally
    requires k < 64
  {
    match b[k]
    case None => t
    case Some(p) =>
      var dark := (k / 8 + k % 8) % 2 == 0;
      var isB := p.kind == Bishop;
      if p.color == White then
        t.(white := t.white + [p.kind], count := t.count + 1,
           darkW := if isB && dark then t.darkW + 1 else t.darkW,
           lightW := if isB && !dark then t.lightW + 1 else t.lightW)
      else
        t.(black := t.black + [p.kind], count := t.count + 1,
           darkB := if isB && dark then t.darkB + 1 else t.darkB,
           lightB := if isB && !dark then t.lightB + 1 else t.lightB)
  }

  /** The tally of the first `k` squares. */
  function TallyUpTo(b: Board, k: nat): Tally
    requires k <= 64
  {
    if k == 0 then NoTally else AddSquare(TallyUpTo(b, k - 1), b, k - 1)
  }

  function KindsOf(t: Tally, player: Color): seq<Kind> { if player == White then t.white else t.black }
  function LightOf(t: Tally, player: Color): nat { if player == White then t.lightW else t.lightB }
  function DarkOf(t: Tally, player: Color): nat { if player == White then t.darkW else t.darkB }

  function CountKind(ks: seq<Kind>, k: Kind): nat
  {
    if ks == [] then 0 else (if ks[0] == k then 1 else 0) + CountKind(ks[1..], k)
  }

  lemma CountKindAppend(ks: seq<Kind>, x: Kind, k: Kind)
    ensures CountKind(ks + [x], k) == CountKind(ks, k) + (if x == k then 1 else 0)
  {
    if ks != [] {
      assert (ks + [x])[1..] == ks[1..] + [x];
      CountKindAppend(ks[1..], x, k);
    }
  }

  lemma CountKindBound(ks: seq<Kind>, k: Kind)
    ensures CountKind(ks, k) <= |ks|
  {
  }

  lemma CountKindTwo(ks: seq<Kind>, k: Kind)
    requires |ks| == 2
    ensures CountKind(ks, k) == (if ks[0] == k then 1 else 0) + (if ks[1] == k then 1 else 0)
  {
    var rest := ks[1..];
    assert rest == [ks[1]] && rest[1..] == [];
    assert CountKind(rest, k) == (if ks[1] == k then 1 else 0) + CountKind(rest[1..], k);
  }

  /** checkSide: a lone king, king and knight, or king and bishops none of
      which stand on squares of both colours. */
  predicate CheckSide(kinds: seq<Kind>, light: nat, dark: nat)
  {
    if |kinds| == 0 then true
    else if |kinds| == 1 && kinds[0] == King then true
    else if |kinds| == 2 && Knight in kinds && King in kinds then true
    else if |kinds| >= 2 && King in kinds && forall i :: 0 <= i < |kinds| ==> kinds[i] == King || kinds[i] == Bishop then
      !(light > 0 && dark > 0)
    else false
  }

  /** hasInsufficientMaterial. */
  predicate InsufficientMaterial(b: Board)
  {
    var t := TallyUpTo(b, 64);
    if t.count <= 2 then true
    else if CheckSide(t.white, t.lightW, t.darkW) && CheckSide(t.black, t.lightB, t.darkB) then true
    else if t.count == 4 && |t.white| == 2 && |t.black| == 2 &&
            King in t.white && Bishop in t.white && King in t.black && Bishop in t.black then
      (t.lightW > 0) == (t.lightB > 0)
    else false
  }

  /** What the tally of the first `k` squares holds: a side's list has a
      kind exactly when such a piece stands on one of those squares, the
      bishops are split between the two square colours, and the count is
      the total of both lists. */
  lemma {:induction false} TallyFacts(b: Board, k: nat)
    requires k <= 64
    ensures var t := TallyUpTo(b, k);
      t.count == |t.white| + |t.black| &&
      (forall player: Color, kind: Kind :: kind in KindsOf(t, player) <==> exists i :: 0 <= i < k && b[i] == Some(Piece(player, kind))) &&
      (forall player: Color :: LightOf(t, player) + DarkOf(t, player) == CountKind(KindsOf(t, player), Bishop))
  {
    if k > 0 {
      TallyFacts(b, k - 1);
      var t0 := TallyUpTo(b, k - 1);
      var t := TallyUpTo(b, k);
      forall player: Color, kind: Kind
        ensures kind in KindsOf(t, player) <==> exists i :: 0 <= i < k && b[i] == Some(Piece(player, kind))
      {
        if kind in KindsOf(t, player) && kind !in KindsOf(t0, player) {
          assert b[k - 1] == Some(Piece(player, kind));
        }
        if exists i :: 0 <= i < k && b[i] == Some(Piece(player, kind)) {
          var i :| 0 <= i < k && b[i] == Some(Piece(player, kind));
          if i == k - 1 {
            assert KindsOf(t, player) == KindsOf(t0, player) + [kind];
          }
        }
      }
      forall player: Color
        ensures LightOf(t, player) + DarkOf(t, player) == CountKind(KindsOf(t, player), Bishop)
      {
        if b[k - 1].Some? && b[k - 1].value.color == player {
          var p := b[k - 1].value;
          assert KindsOf(t, player) == KindsOf(t0, player) + [p.kind];
          assert LightOf(t, player) + DarkOf(t, player) == LightOf(t0, player) + DarkOf(t0, player) + (if p.kind == Bishop then 1 else 0);
          CountKindAppend(KindsOf(t0, player), p.kind, Bishop);
        } else {
          assert KindsOf(t, player) == KindsOf(t0, player);
          assert LightOf(t, player) == LightOf(t0, player) && DarkOf(t, player) == DarkOf(t0, player);
        }
      }
    }
  }

  /** A pawn, rook or queen on a board with more than two pieces is always
      enough material. */
  lemma HeavyPieceSuffices(b: Board, r: int, c: int, player: Color, kind: Kind)
    requires OnBoard(r, c) && At(b, r, c) == Some(Piece(player, kind))
    requires kind == Pawn || kind == Rook || kind == Queen
    requires TallyUpTo(b, 64).count > 2
    ensures !InsufficientMaterial(b)
  {
    TallyFacts(b, 64);
    var t := TallyUpTo(b, 64);
    assert kind in KindsOf(t, player) by {
      assert b[8 * r + c] == Some(Piece(player, kind));
    }
    var ks := KindsOf(t, player);
    var i :| 0 <= i < |ks| && ks[i] == kind;
    assert !CheckSide(ks, LightOf(t, player), DarkOf(t, player));
  }

  /** King and one bishop against king and one bishop always counts as a
      draw, whatever the bishops' square colours: both sides pass the
      per-side test, so the later same-colour comparison is never reached. */
  lemma KingBishopEachIsDraw(b: Board)
    requires var t := TallyUpTo(b, 64);
      t.count == 4 && |t.white| == 2 && |t.black| == 2 &&
      King in t.white && Bishop in t.white && King in t.black && Bishop in t.black
    ensures InsufficientMaterial(b)
    ensures var t := TallyUpTo(b, 64);
      CheckSide(t.white, t.lightW, t.darkW) && CheckSide(t.black, t.lightB, t.darkB)
  {
    TallyFacts(b, 64);
    var t := TallyUpTo(b, 64);
    forall player: Color ensures CheckSide(KindsOf(t, player), LightOf(t, player), DarkOf(t, player)) {
      var ks := KindsOf(t, player);
      assert ks == [King, Bishop] || ks == [Bishop, King];
      CountKindTwo(ks, Bishop);
    }
    assert CheckSide(KindsOf(t, White), LightOf(t, White), DarkOf(t, White));
    assert CheckSide(KindsOf(t, Black), LightOf(t, Black), DarkOf(t, Black));
  }

  /** A side with bishops on squares of both colours fails the per-side
      test, so (with more than two pieces on the board) the material is
      sufficient. */
  lemma BishopsOnBothColoursSuffice(b: Board, player: Color)
    requires var t := TallyUpTo(b, 64); t.count > 2 && LightOf(t, player) > 0 && DarkOf(t, player) > 0
    ensures !InsufficientMaterial(b)
  {
    TallyFacts(b, 64);
    var t := TallyUpTo(b, 64);
    var ks := KindsOf(t, player);
    CountKindBound(ks, Bishop);
    if |ks| == 2 {
      CountKindTwo(ks, Bishop);
    }
    assert !CheckSide(ks, LightOf(t, player), DarkOf(t, player));
  }
}
