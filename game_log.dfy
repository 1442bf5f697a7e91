/**
 * The move list of the host's user interface: one line per move,
 * "n. move" for White and "n. ... move" for Black, where the move number
 * n starts at 1 and goes up after each Black move.
 *
 * The number is formatted with `%d`; the model assumes a default locale
 * that writes ASCII digits.
 */
module GameLog {
  import opened JavaLang
  import opened ChessPiece
  import opened ChessMove

  const DOT_SPACE: JString := [0x2E, 0x20]
  const DOT_ELLIPSIS: JString := [0x2E, 0x20, 0x2E, 0x2E, 0x2E, 0x20]

  /**
   * `formatMove`: the first letter of the type's name, dropped when the
   * name is "PAWN", then "x" for a capture, then the target square. With
   * `SanLetter` a knight is written "N" instead.
   */
  function FormatMove(m: Move, rule: LetterRule): (s: JString)
    ensures |ChessPosition.ToChessNotation(m.to)| <= |s| <= |ChessPosition.ToChessNotation(m.to)| + 2
    ensures m.piece.kind == PAWN && m.captured == null ==> s == ChessPosition.ToChessNotation(m.to)
  {
    var name := TypeName(m.piece.kind);
    var piece := if name == Lit("PAWN") then []
                 else if rule == SanLetter && m.piece.kind == KNIGHT then [LETTER_N]
                 else name[..1];
    var capture := if m.captured != null then [LETTER_X] else [];
    piece + capture + ChessPosition.ToChessNotation(m.to)
  }

  /** The log writes a move exactly as the move's own notation does. */
  lemma FormatMoveIsNotation(m: Move, rule: LetterRule)
    ensures FormatMove(m, rule) == ToNotationWith(m, rule)
  {
    var t := m.piece.kind;
    assert TypeName(t) == Lit("PAWN") <==> t == PAWN by {
      if t != PAWN {
        assert TypeName(t)[..2] != Lit("PAWN")[..2] || |TypeName(t)| != 4;
      }
    }
  }

  /** One line of the log: the move number, then ". " for White or ". ... " for Black, then the move. */
  function Entry(m: Move, n: i32, rule: LetterRule): JString {
    Decimal(n) + (if m.piece.color == WHITE then DOT_SPACE else DOT_ELLIPSIS) + FormatMove(m, rule)
  }

  /** The number of Black moves in a sequence. */
  function BlackMoves(ms: seq<Move>): nat
    decreases |ms|
  {
    if |ms| == 0 then 0
    else BlackMoves(ms[..|ms| - 1]) + (if ms[|ms| - 1].piece.color == BLACK then 1 else 0)
  }

  /** The move number shown after `ms` have been logged: one more than the Black moves, as an `int`. */
  function NumberAfter(ms: seq<Move>): i32 {
    Wrap32(1 + BlackMoves(ms))
  }

  /** The lines the log holds after the moves `ms`, oldest first. */
  function Lines(ms: seq<Move>, rule: LetterRule): (ls: seq<JString>)
    ensures |ls| == |ms|
    decreases |ms|
  {
    if |ms| == 0 then []
    else
      var before := ms[..|ms| - 1];
      Lines(before, rule) + [Entry(ms[|ms| - 1], NumberAfter(before), rule)]
  }

  /** Logging one more move adds its line and advances the number after a Black move. */
  lemma LogOneMore(ms: seq<Move>, m: Move, rule: LetterRule)
    ensures Lines(ms + [m], rule) == Lines(ms, rule) + [Entry(m, NumberAfter(ms), rule)]
    ensures NumberAfter(ms + [m])
            == if m.piece.color == BLACK then Wrap32(NumberAfter(ms) + 1) else NumberAfter(ms)
  {
    assert (ms + [m])[..|ms|] == ms;
    WrapSucc(1 + BlackMoves(ms));
  }

  /** Colours alternate, White first, as in a game played from the start. */
  predicate Alternating(ms: seq<Move>) {
    forall k :: 0 <= k < |ms| ==> ms[k].piece.color == (if k % 2 == 0 then WHITE else BLACK)
  }

  /** Line `k` is move `k` with the number shown after the moves before it. */
  lemma {:induction false} LineAt(ms: seq<Move>, rule: LetterRule, k: nat)
    requires k < |ms|
    ensures Lines(ms, rule)[k] == Entry(ms[k], NumberAfter(ms[..k]), rule)
    decreases |ms|
  {
    var before := ms[..|ms| - 1];
    var last := Entry(ms[|ms| - 1], NumberAfter(before), rule);
    assert Lines(ms, rule) == Lines(before, rule) + [last];
    if k < |before| {
      LineAt(before, rule, k);
      assert before[..k] == ms[..k] && before[k] == ms[k];
      assert Lines(ms, rule)[k] == Lines(before, rule)[k];
    } else {
      assert ms[..k] == before;
      assert Lines(ms, rule)[k] == last;
    }
  }

  /** In a game played from the start, `k` moves hold `k / 2` Black moves. */
  lemma {:induction false} AlternatingBlackMoves(ms: seq<Move>)
    requires Alternating(ms)
    ensures BlackMoves(ms) == |ms| / 2
    decreases |ms|
  {
    if |ms| > 0 {
      var before := ms[..|ms| - 1];
      assert forall k :: 0 <= k < |before| ==> before[k] == ms[k];
      AlternatingBlackMoves(before);
    }
  }

  /** In a game played from the start, move `k` (from 0) carries the number k / 2 + 1. */
  lemma AlternatingNumbers(ms: seq<Move>, rule: LetterRule, k: nat)
    requires Alternating(ms) && k < |ms| <= 0x8000_0000
    ensures Lines(ms, rule)[k] == Entry(ms[k], (k / 2 + 1) as i32, rule)
  {
    LineAt(ms, rule, k);
    var before := ms[..k];
    assert forall j :: 0 <= j < |before| ==> before[j] == ms[j];
    AlternatingBlackMoves(before);
    assert NumberAfter(before) == (k / 2 + 1) as i32;
  }

  class GameLogView {
    /** How the piece letter is chosen; `TypeInitial` is the code as written. */
    const rule: LetterRule
    var lines: seq<JString>
    var moveNumber: i32
    /** The moves logged since the last clear. */
    ghost var played: seq<Move>

    ghost predicate Valid()
      reads this
    {
      lines == Lines(played, rule) && moveNumber == NumberAfter(played)
    }

    /** A new log: no lines, move number 1. */
    constructor (rule: LetterRule)
      ensures Valid() && this.rule == rule && played == []
      ensures lines == [] && moveNumber == 1
    {
      this.rule := rule;
      lines := [];
      moveNumber := 1;
      played := [];
    }

    /**
     * `addMove`: exactly one line is added; a White move shows the
     * current number, a Black move shows it and then increments it.
     */
    method AddMove(m: Move)
      requires Valid()
      modifies this
      ensures Valid() && played == old(played) + [m]
      ensures lines == old(lines) + [Entry(m, old(moveNumber), rule)]
      ensures m.piece.color == WHITE ==> moveNumber == old(moveNumber)
      ensures m.piece.color == BLACK ==> moveNumber == Wrap32(old(moveNumber) + 1)
    {
      LogOneMore(played, m, rule);
      var number, formatted := Decimal(moveNumber), FormatMove(m, rule);
      var text: JString;
      if m.piece.color == WHITE {
        text := number + DOT_SPACE + formatted;
      } else {
        text := number + DOT_ELLIPSIS + formatted;
        moveNumber := Wrap32(moveNumber + 1);
      }
      assert text == Entry(m, old(moveNumber), rule);
      lines := lines + [text];
      played := played + [m];
      assert lines == Lines(played, rule) && moveNumber == NumberAfter(played);
    }

    /** `clear`: no lines, move number 1. */
    method Clear()
      modifies this
      ensures Valid() && played == [] && lines == [] && moveNumber == 1
    {
      lines := [];
      moveNumber := 1;
      played := [];
    }
  }
}
