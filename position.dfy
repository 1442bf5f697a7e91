/**
 * A square of the host's board: `row` 0 is rank 8 and `col` 0 is file a.
 * Both are Java `int`s, so any pair can be built; only 0..7 is a square.
 */
module ChessPosition {
  import opened JavaLang

  datatype Position = Position(row: i32, col: i32)

  /**
   * `isValid`: both coordinates lie in 0..7. On such a position neither the
   * file character nor the rank wraps.
   */
  predicate IsValid(p: Position): (v: bool)
    ensures v <==> 0 <= p.row < 8 && 0 <= p.col < 8
    ensures v ==> FileChar(p.col) == LOWER_A + p.col && RankOf(p.row) == 8 - p.row
  {
    0 <= p.row < 8 && 0 <= p.col < 8
  }

  const LOWER_A: jchar := 0x61

  /** `(char) ('a' + col)`: the `int` sum cut to its low 16 bits. */
  function FileChar(col: i32): jchar {
    (LOWER_A + col) % 0x1_0000
  }

  /** `8 - row` in 32-bit arithmetic. */
  function RankOf(row: i32): i32 {
    Wrap32(8 - row)
  }

  /**
   * `toChessNotation` (and `toString`, which returns it): the file
   * character followed by the rank in decimal.
   */
  function ToChessNotation(p: Position): (s: JString)
    ensures |s| >= 2 && s[0] == FileChar(p.col) && s[1..] == Decimal(RankOf(p.row))
  {
    [FileChar(p.col)] + Decimal(RankOf(p.row))
  }

  /** A square is written with two characters: a file in a..h and a rank in 1..8. */
  lemma ValidNotation(p: Position)
    requires IsValid(p)
    ensures var s := ToChessNotation(p);
      |s| == 2 && s[0] == LOWER_A + p.col && s[1] == ZERO + 8 - p.row
      && LOWER_A <= s[0] <= LOWER_A + 7 && ZERO + 1 <= s[1] <= ZERO + 8
  {
    assert Decimal(RankOf(p.row)) == [ZERO + 8 - p.row];
  }

  /** Distinct squares are written differently. */
  lemma NotationInjective(p: Position, q: Position)
    requires IsValid(p) && IsValid(q) && ToChessNotation(p) == ToChessNotation(q)
    ensures p == q
  {
    ValidNotation(p);
    ValidNotation(q);
  }

  /** Off the board the notation can grow: row -2 is rank 10, written with three characters. */
  lemma BeyondTheBoard()
    ensures ToChessNotation(Position(-2, 0)) == [LOWER_A, ZERO + 1, ZERO]
  {
    assert Digits(10) == Digits(1) + [ZERO];
  }
}
