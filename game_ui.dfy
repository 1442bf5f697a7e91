/**
 * How the host application reads a move the engine plays, such as
 * "e2e4" or "e7e8q": two squares in long algebraic notation and an
 * optional promotion letter.
 *
 * Two Java library functions are only partly fixed here. Their ASCII
 * behaviour is written out; for other characters the caller supplies
 * the library's answer:
 * - `Character.getNumericValue`, as `otherValue`;
 * - `Character.toLowerCase`, as `otherLower`.
 */
module GameUi {
  import opened Wrappers
  import opened JavaLang
  import opened ChessPosition
  import opened ChessPiece

  /**
   * `Character.getNumericValue` on ASCII: a digit is its value, a Latin
   * letter of either case counts from 10 ('a' is 10, 'z' is 35), and
   * anything else is -1.
   */
  function NumericValue(c: jchar, otherValue: jchar -> i32): (v: i32)
    ensures ZERO <= c <= ZERO + 9 ==> v == c - ZERO
    ensures c < 0x80 ==> -1 <= v <= 35
  {
    if c >= 0x80 then otherValue(c)
    else if ZERO <= c <= ZERO + 9 then c - ZERO
    else if 0x61 <= c <= 0x7A then c - 0x61 + 10
    else if 0x41 <= c <= 0x5A then c - 0x41 + 10
    else -1
  }

  /** `Character.toLowerCase(char)`, written out for ASCII. */
  function LowerChar(c: jchar, otherLower: jchar -> jchar): jchar {
    if c >= 0x80 then otherLower(c) else AsciiLower(c)
  }

  /**
   * `parsePosition`: null unless exactly two characters; the column is
   * the first character's distance from 'a', the row is 8 minus the
   * numeric value of the second, and the position is kept only if it is
   * on the board.
   */
  function ParsePosition(notation: Option<JString>, otherValue: jchar -> i32): (r: Option<Position>)
    ensures r.Some? ==> IsValid(r.value)
    ensures notation.None? || |notation.value| != 2 ==> r.None?
  {
    if notation.None? || |notation.value| != 2 then None
    else
      var s := notation.value;
      var col := s[0] - LOWER_A;
      var rank := NumericValue(s[1], otherValue);
      var p := Position(Wrap32(8 - rank), col);
      if IsValid(p) then Some(p) else None
  }

  /** Reading a square's own notation gives the square back. */
  lemma ParseRoundTrip(p: Position, otherValue: jchar -> i32)
    requires IsValid(p)
    ensures ParsePosition(Some(ToChessNotation(p)), otherValue) == Some(p)
  {
    ValidNotation(p);
  }

  /**
   * On ASCII text exactly the 64 lower-case notations "a1".."h8" are
   * accepted, each as the square it names.
   */
  lemma ParseAscii(s: JString, otherValue: jchar -> i32)
    requires IsAscii(s)
    ensures ParsePosition(Some(s), otherValue).Some?
            <==> |s| == 2 && LOWER_A <= s[0] <= LOWER_A + 7 && ZERO + 1 <= s[1] <= ZERO + 8
    ensures ParsePosition(Some(s), otherValue).Some? ==> ToChessNotation(ParsePosition(Some(s), otherValue).value) == s
  {
    var r := ParsePosition(Some(s), otherValue);
    if |s| == 2 {
      var v := NumericValue(s[1], otherValue);
      if r.Some? {
        assert 1 <= v <= 8;
        ValidNotation(r.value);
        assert ToChessNotation(r.value) == [s[0], s[1]] == s;
      }
    }
  }

  /** An upper-case file is refused: "E2" is not a square. */
  lemma UpperCaseFileRejected(s: JString, otherValue: jchar -> i32)
    requires |s| == 2 && 0x41 <= s[0] <= 0x5A
    ensures ParsePosition(Some(s), otherValue).None?
  {
  }

  /**
   * The rank character is read by its numeric value, so any character the
   * library gives a value of 1..8, such as ARABIC-INDIC DIGIT THREE, is a
   * rank.
   */
  lemma OtherDigitsAccepted(otherValue: jchar -> i32)
    requires otherValue(0x0663) == 3
    ensures ParsePosition(Some([LOWER_A, 0x0663]), otherValue) == Some(Position(5, 0))
  {
  }

  /** `parsePromotion`: q, r, b and n, in either case, name a promotion piece; nothing else does. */
  function ParsePromotion(symbol: jchar, otherLower: jchar -> jchar): (t: Option<PieceType>)
    ensures t.Some? ==> t.value in {QUEEN, ROOK, BISHOP, KNIGHT}
  {
    var c := LowerChar(symbol, otherLower);
    if c == 0x71 then Some(QUEEN)
    else if c == 0x72 then Some(ROOK)
    else if c == 0x62 then Some(BISHOP)
    else if c == 0x6E then Some(KNIGHT)
    else None
  }

  /** The ASCII letters that name each promotion piece. */
  lemma PromotionLetters(symbol: jchar, otherLower: jchar -> jchar)
    requires symbol < 0x80
    ensures ParsePromotion(symbol, otherLower) == Some(QUEEN) <==> symbol == 0x71 || symbol == 0x51
    ensures ParsePromotion(symbol, otherLower) == Some(ROOK) <==> symbol == 0x72 || symbol == 0x52
    ensures ParsePromotion(symbol, otherLower) == Some(BISHOP) <==> symbol == 0x62 || symbol == 0x42
    ensures ParsePromotion(symbol, otherLower) == Some(KNIGHT) <==> symbol == 0x6E || symbol == 0x4E
  {
  }

  /** The parts of an engine move: two squares and the promotion piece, if any. */
  datatype EngineMove = EngineMove(from: Position, to: Position, promotion: Option<PieceType>)

  /**
   * The reading in `applyEngineMove`: null or fewer than four characters
   * is refused; characters 0-1 are the origin, 2-3 the target, and a
   * fifth character, when present, the promotion piece. Either square
   * failing to parse refuses the move; an unreadable promotion letter
   * only drops the promotion.
   */
  function ParseEngineMove(text: Option<JString>, otherValue: jchar -> i32, otherLower: jchar -> jchar)
    : (r: Option<EngineMove>)
    ensures text.None? || |text.value| < 4 ==> r.None?
    ensures r.Some? ==> IsValid(r.value.from) && IsValid(r.value.to)
    ensures r.Some? && |text.value| == 4 ==> r.value.promotion.None?
  {
    if text.None? || |text.value| < 4 then None
    else
      var s := text.value;
      var from := ParsePosition(Some(s[0..2]), otherValue);
      var to := ParsePosition(Some(s[2..4]), otherValue);
      var promotion := if |s| > 4 then ParsePromotion(s[4], otherLower) else None;
      if from.None? || to.None? then None
      else Some(EngineMove(from.value, to.value, promotion))
  }

  /** The move text of two squares, with an optional promotion letter, reads back as those squares. */
  lemma EngineMoveRoundTrip(from: Position, to: Position, tail: JString,
                            otherValue: jchar -> i32, otherLower: jchar -> jchar)
    requires IsValid(from) && IsValid(to)
    ensures var s := ToChessNotation(from) + ToChessNotation(to) + tail;
      ParseEngineMove(Some(s), otherValue, otherLower)
        == Some(EngineMove(from, to, if |tail| > 0 then ParsePromotion(tail[0], otherLower) else None))
  {
    var s := ToChessNotation(from) + ToChessNotation(to) + tail;
    ValidNotation(from);
    ValidNotation(to);
    assert s[0..2] == ToChessNotation(from);
    assert s[2..4] == ToChessNotation(to);
    ParseRoundTrip(from, otherValue);
    ParseRoundTrip(to, otherValue);
    if |tail| > 0 {
      assert s[4] == tail[0];
    }
  }
}
