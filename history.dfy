/** The game history of gameLogic.js and ui.js: the list of recorded
    states with the index of the one on the board, pushHistoryState, the
    threefold-repetition test over the recorded keys, and the index
    arithmetic of handleUndo and handleRedo. */
module History {
  import opened Pieces
  import opened Boards
  import opened Keys

  /** One recorded state: the position, and the notation and move number
      of the move that led to it (null when absent). The status message
      is not modelled. */
  datatype Entry = Entry(pos: Position, notation: Option<string>, moveNumber: Option<int>)

  /** The moveInfo argument of pushHistoryState; `truncate` is false only
      when the caller passes `truncate: false`. */
  datatype MoveInfo = MoveInfo(notation: Option<string>, moveNumber: Option<int>, truncate: bool)

  const NoInfo := MoveInfo(None, None, true)

  /** `x || null` on a string and on a number. */
  function OrNullString(s: Option<string>): Option<string> { if s == Some("") then None else s }
  function OrNullNumber(n: Option<int>): Option<int> { if n == Some(0) then None else n }

  /** The history and index after pushHistoryState(info) with the
      position `pos` on the board: the states after the index are dropped
      unless truncation is switched off, the copy is appended and the
      index moves on by one. */
  function Pushed(history: seq<Entry>, index: int, pos: Position, info: MoveInfo): (r: (seq<Entry>, int))
    requires -1 <= index < |history|
    ensures |r.0| >= 1 && r.1 == index + 1 && -1 <= r.1 < |r.0|
    ensures r.0[|r.0| - 1] == Entry(pos, OrNullString(info.notation), OrNullNumber(info.moveNumber))
  {
    var kept := if info.truncate && index < |history| - 1 then history[..index + 1] else history;
    (kept + [Entry(pos, OrNullString(info.notation), OrNullNumber(info.moveNumber))], index + 1)
  }

  /** A truncating push keeps the states up to the index, puts the new
      one right after them, and leaves the index on it. */
  lemma PushTruncates(history: seq<Entry>, index: int, pos: Position, info: MoveInfo)
    requires -1 <= index < |history| && info.truncate
    ensures var r := Pushed(history, index, pos, info);
      |r.0| == index + 2 && r.1 == |r.0| - 1 && r.0[..index + 1] == history[..index + 1]
  {
  }

  /** A push without truncation keeps every recorded state. */
  lemma PushKeepsAll(history: seq<Entry>, index: int, pos: Position, info: MoveInfo)
    requires -1 <= index < |history| && (!info.truncate || index == |history| - 1)
    ensures Pushed(history, index, pos, info).0[..|history|] == history
  {
    var r := Pushed(history, index, pos, info);
    assert r.0 == history + [r.0[|r.0| - 1]];
  }

  // ---------------------------------------------------------------------
  // Threefold repetition.

  /** How many of the first `k` recorded states have the key of `pos`
      (KeyIffSame: SameKey is equality of keys). */
  function Count(history: seq<Entry>, k: nat, pos: Position): nat
    requires k <= |history|
  {
    if k == 0 then 0 else Count(history, k - 1, pos) + (if SameKey(history[k - 1].pos, pos) then 1 else 0)
  }

  /** checkThreefoldRepetition for the position `pos`: never before index
      8, then at least three of the states 0..index have its key. */
  predicate Threefold(history: seq<Entry>, index: int, pos: Position)
    requires index < |history|
  {
    index >= 8 && Count(history, index + 1, pos) >= 3
  }

  lemma {:induction false} CountAtLeast(history: seq<Entry>, k: nat, pos: Position, i: nat, j: nat, l: nat)
    requires i < j < l < k <= |history|
    requires SameKey(history[i].pos, pos) && SameKey(history[j].pos, pos) && SameKey(history[l].pos, pos)
    ensures Count(history, k, pos) >= 3
  {
    if l < k - 1 {
      CountAtLeast(history, k - 1, pos, i, j, l);
    } else {
      CountAtLeastTwo(history, k - 1, pos, i, j);
    }
  }

  lemma {:induction false} CountAtLeastTwo(history: seq<Entry>, k: nat, pos: Position, i: nat, j: nat)
    requires i < j < k <= |history| && SameKey(history[i].pos, pos) && SameKey(history[j].pos, pos)
    ensures Count(history, k, pos) >= 2
  {
    if j < k - 1 {
      CountAtLeastTwo(history, k - 1, pos, i, j);
    } else {
      CountAtLeastOne(history, k - 1, pos, i);
    }
  }

  lemma {:induction false} CountAtLeastOne(history: seq<Entry>, k: nat, pos: Position, i: nat)
    requires i < k <= |history| && SameKey(history[i].pos, pos)
    ensures Count(history, k, pos) >= 1
  {
    if i < k - 1 {
      CountAtLeastOne(history, k - 1, pos, i);
    }
  }

  lemma {:induction false} CountWitnessOne(history: seq<Entry>, k: nat, pos: Position) returns (i: nat)
    requires k <= |history| && Count(history, k, pos) >= 1
    ensures i < k && SameKey(history[i].pos, pos)
  {
    if SameKey(history[k - 1].pos, pos) {
      i := k - 1;
    } else {
      i := CountWitnessOne(history, k - 1, pos);
    }
  }

  lemma {:induction false} CountWitnessTwo(history: seq<Entry>, k: nat, pos: Position) returns (i: nat, j: nat)
    requires k <= |history| && Count(history, k, pos) >= 2
    ensures i < j < k && SameKey(history[i].pos, pos) && SameKey(history[j].pos, pos)
  {
    if SameKey(history[k - 1].pos, pos) {
      i := CountWitnessOne(history, k - 1, pos);
      j := k - 1;
    } else {
      i, j := CountWitnessTwo(history, k - 1, pos);
    }
  }

  /** A threefold repetition means three recorded states up to the index
      with the same board, side to move and castling rights as `pos`, and
      the same en passant field of the key. */
  lemma ThreefoldRepeats(history: seq<Entry>, index: int, pos: Position) returns (i: nat, j: nat, l: nat)
    requires index < |history| && Threefold(history, index, pos)
    ensures index >= 8 && i < j < l <= index
    ensures SameKey(history[i].pos, pos) && SameKey(history[j].pos, pos) && SameKey(history[l].pos, pos)
  {
    i, j, l := CountWitnessThree(history, index + 1, pos);
  }

  /** Three of the first `k` states have the key whenever the count says
      so. */
  lemma {:induction false} CountWitnessThree(history: seq<Entry>, k: nat, pos: Position) returns (i: nat, j: nat, l: nat)
    requires k <= |history| && Count(history, k, pos) >= 3
    ensures i < j < l < k && SameKey(history[i].pos, pos) && SameKey(history[j].pos, pos) && SameKey(history[l].pos, pos)
  {
    if SameKey(history[k - 1].pos, pos) {
      i, j := CountWitnessTwo(history, k - 1, pos);
      l := k - 1;
    } else {
      i, j, l := CountWitnessThree(history, k - 1, pos);
    }
  }

  /** Conversely, from index 8 on, three such states make a threefold
      repetition. */
  lemma RepeatsThreefold(history: seq<Entry>, index: int, pos: Position, i: nat, j: nat, l: nat)
    requires 8 <= index < |history| && i < j < l <= index
    requires SameKey(history[i].pos, pos) && SameKey(history[j].pos, pos) && SameKey(history[l].pos, pos)
    ensures Threefold(history, index, pos)
  {
    CountAtLeast(history, index + 1, pos, i, j, l);
  }

  /** What equal keys mean. */
  predicate SameKey(p: Position, q: Position)
  {
    p.board == q.board && p.turn == q.turn && p.rights == q.rights && EpString(p.ep) == EpString(q.ep)
  }

  lemma KeyIffSame(p: Position, q: Position)
    ensures SameKey(p, q) <==> PositionKey(p) == PositionKey(q)
  {
    if PositionKey(p) == PositionKey(q) {
      KeyDeterminesPosition(p, q);
      KeyFieldsEqual(p, q);
    }
  }

  /** Equal keys have equal en passant fields. */
  lemma KeyFieldsEqual(p: Position, q: Position)
    requires PositionKey(p) == PositionKey(q) && p.board == q.board && p.turn == q.turn && p.rights == q.rights
    ensures EpString(p.ep) == EpString(q.ep)
  {
    var prefix := Placement(p.board) + " " + TurnString(p.turn) + " " + CastlingString(p.rights) + " ";
    assert PositionKey(p) == prefix + EpString(p.ep);
    assert PositionKey(q) == prefix + EpString(q.ep);
    assert EpString(p.ep) == PositionKey(p)[|prefix|..];
  }

  // ---------------------------------------------------------------------
  // Undo and redo.

  /** The index handleUndo navigates to, None when it does nothing: with
      at least one earlier state, one step back, or two in AI mode when
      the state before the previous one was the AI's to move. */
  function UndoTarget(history: seq<Entry>, index: int, thinking: bool, aiMode: bool, human: Color): (t: Option<int>)
    requires index < |history|
    ensures t.Some? ==> 0 <= t.value < index
  {
    if thinking || index < 1 then None
    else
      var steps := if aiMode && index >= 2 && history[index - 1].pos.turn != human then 2 else 1;
      Some(if index - steps < 0 then 0 else index - steps)
  }

  /** The index handleRedo navigates to, None when it does nothing: one
      step forward, or two in AI mode when the next state is the AI's to
      move and there are two states ahead. */
  function RedoTarget(history: seq<Entry>, index: int, thinking: bool, aiMode: bool, human: Color): (t: Option<int>)
    requires -1 <= index < |history|
    ensures t.Some? ==> index < t.value < |history|
  {
    if thinking || index >= |history| - 1 then None
    else
      var steps := if aiMode && index < |history| - 2 && history[index + 1].pos.turn != human then 2 else 1;
      var clamped := if steps < |history| - 1 - index then steps else |history| - 1 - index;
      Some(index + clamped)
  }

  /** Undo does nothing exactly when the AI is thinking or the index is
      at the first state; redo, when it is at the last. */
  lemma UndoRedoEnabled(history: seq<Entry>, index: int, thinking: bool, aiMode: bool, human: Color)
    requires -1 <= index < |history|
    ensures UndoTarget(history, index, thinking, aiMode, human).None? <==> thinking || index < 1
    ensures RedoTarget(history, index, thinking, aiMode, human).None? <==> thinking || index == |history| - 1
  {
  }

  /** Outside AI mode, redo takes back an undo. */
  lemma RedoUndoesUndo(history: seq<Entry>, index: int, human: Color)
    requires 1 <= index < |history|
    ensures UndoTarget(history, index, false, false, human) == Some(index - 1)
    ensures RedoTarget(history, index - 1, false, false, human) == Some(index)
  {
  }

  /** In AI mode, a two-step undo is taken back by a two-step redo. */
  lemma RedoUndoesDoubleUndo(history: seq<Entry>, index: int, human: Color)
    requires 2 <= index < |history| && history[index - 1].pos.turn != human
    ensures UndoTarget(history, index, false, true, human) == Some(index - 2)
    ensures RedoTarget(history, index - 2, false, true, human) == Some(index)
  {
  }
}
