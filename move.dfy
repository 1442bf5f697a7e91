/**
 * A move of the host application: where from, where to, the piece that
 * moved and the piece it took, if any, with its short notation and its
 * console text.
 */
module ChessMove {
  import opened JavaLang
  import opened ChessPosition
  import opened ChessPiece

  datatype Move = Move(from: Position, to: Position, piece: Piece, captured: Piece?)

  /**
   * How a piece's letter is chosen. `TypeInitial` is what the code does:
   * the first letter of the type's name, which writes a knight as "K"
   * like the king. `SanLetter` is the letter of standard algebraic
   * notation, "N" for the knight.
   */
  datatype LetterRule = TypeInitial | SanLetter

  const LETTER_X: jchar := 0x78
  const LETTER_N: jchar := 0x4E

  /** The piece prefix: empty for a pawn, one upper-case letter for any other piece. */
  function PieceLetter(t: PieceType, rule: LetterRule): (s: JString)
    ensures t == PAWN <==> s == []
    ensures t != PAWN ==> |s| == 1 && 0x41 <= s[0] <= 0x5A
    ensures t != PAWN && rule == TypeInitial ==> s == TypeName(t)[..1]
  {
    if t == PAWN then []
    else if rule == SanLetter && t == KNIGHT then [LETTER_N]
    else TypeName(t)[..1]
  }

  /** "x" when a piece was taken, empty otherwise. */
  function CaptureMark(m: Move): JString {
    if m.captured != null then [LETTER_X] else []
  }

  /** `toNotation`: the piece prefix, "x" for a capture, then the target square. */
  function ToNotationWith(m: Move, rule: LetterRule): JString {
    PieceLetter(m.piece.kind, rule) + CaptureMark(m) + ToChessNotation(m.to)
  }

  /** `toNotation` as the code writes it. */
  function ToNotation(m: Move): (s: JString)
    ensures |s| >= |ToChessNotation(m.to)| && s[|s| - |ToChessNotation(m.to)|..] == ToChessNotation(m.to)
    ensures (m.piece.kind == PAWN && m.captured == null) <==> s == ToChessNotation(m.to)
  {
    NotationEndsWithTarget(m, TypeInitial);
    ToNotationWith(m, TypeInitial)
  }

  /** The notation ends with the target square, after a prefix of at most two characters. */
  lemma NotationEndsWithTarget(m: Move, rule: LetterRule)
    ensures var s := ToNotationWith(m, rule); var t := ToChessNotation(m.to);
      |t| <= |s| <= |t| + 2 && s[|s| - |t|..] == t
      && s[..|s| - |t|] == PieceLetter(m.piece.kind, rule) + CaptureMark(m)
  {
    var s := ToNotationWith(m, rule);
    var pre := PieceLetter(m.piece.kind, rule) + CaptureMark(m);
    assert s == pre + ToChessNotation(m.to);
  }

  /** For a move onto the board, the notation holds an "x" exactly when a piece was taken. */
  lemma CaptureMarked(m: Move, rule: LetterRule)
    requires IsValid(m.to)
    ensures LETTER_X in ToNotationWith(m, rule) <==> m.captured != null
  {
    var s := ToNotationWith(m, rule);
    var l, c, t := PieceLetter(m.piece.kind, rule), CaptureMark(m), ToChessNotation(m.to);
    ValidNotation(m.to);
    assert s == l + c + t;
    if m.captured != null {
      assert s[|l|] == LETTER_X;
    } else {
      assert s == l + t;
      forall k | 0 <= k < |s|
        ensures s[k] != LETTER_X
      {
        if k < |l| {
          assert s[k] == l[k];
        } else {
          assert s[k] == t[k - |l|];
        }
      }
    }
  }

  /** As written, a knight move and a king move to the same square are noted alike. */
  lemma KnightWrittenAsKing(from: Position, to: Position, knight: Piece, king: Piece)
    requires knight.kind == KNIGHT && king.kind == KING
    ensures ToNotation(Move(from, to, knight, null)) == ToNotation(Move(from, to, king, null))
    ensures PieceLetter(KNIGHT, TypeInitial) == PieceLetter(KING, TypeInitial) == Lit("K")
  {
    assert TypeName(KNIGHT)[..1] == Lit("K") == TypeName(KING)[..1];
  }

  /**
   * With standard letters the notation of a move onto the board tells the
   * moving piece's type, whether it took something, and the target square.
   */
  lemma SanNotationDetermines(m1: Move, m2: Move)
    requires IsValid(m1.to) && IsValid(m2.to)
    requires ToNotationWith(m1, SanLetter) == ToNotationWith(m2, SanLetter)
    ensures m1.piece.kind == m2.piece.kind && m1.to == m2.to
    ensures m1.captured == null <==> m2.captured == null
  {
    var s := ToNotationWith(m1, SanLetter);
    var t1, t2 := ToChessNotation(m1.to), ToChessNotation(m2.to);
    ValidNotation(m1.to);
    ValidNotation(m2.to);
    NotationEndsWithTarget(m1, SanLetter);
    NotationEndsWithTarget(m2, SanLetter);
    assert t1 == s[|s| - 2..] == t2;
    NotationInjective(m1.to, m2.to);
    var p1 := PieceLetter(m1.piece.kind, SanLetter) + CaptureMark(m1);
    var p2 := PieceLetter(m2.piece.kind, SanLetter) + CaptureMark(m2);
    assert p1 == s[..|s| - 2] == p2;
    PrefixDetermines(m1, m2);
  }

  /** The prefix before the target square tells the piece type and whether something was taken. */
  lemma PrefixDetermines(m1: Move, m2: Move)
    requires PieceLetter(m1.piece.kind, SanLetter) + CaptureMark(m1)
          == PieceLetter(m2.piece.kind, SanLetter) + CaptureMark(m2)
    ensures m1.piece.kind == m2.piece.kind
    ensures m1.captured == null <==> m2.captured == null
  {
    var l1, c1 := PieceLetter(m1.piece.kind, SanLetter), CaptureMark(m1);
    var l2, c2 := PieceLetter(m2.piece.kind, SanLetter), CaptureMark(m2);
    var p := l1 + c1;
    if |p| == 1 {
      if |l1| == 1 {
        assert p[0] == l1[0] != LETTER_X;
      } else {
        assert p[0] == c1[0] == LETTER_X;
      }
      if |l2| == 1 {
        assert p[0] == l2[0] != LETTER_X;
      } else {
        assert p[0] == c2[0] == LETTER_X;
      }
    }
    if |l1| == 1 && |l2| == 1 {
      assert l1 == p[..1] == l2;
      SanLettersDistinct(m1.piece.kind, m2.piece.kind);
    }
  }

  /** Standard letters tell every type apart. */
  lemma SanLettersDistinct(t1: PieceType, t2: PieceType)
    ensures PieceLetter(t1, SanLetter) == PieceLetter(t2, SanLetter) <==> t1 == t2
  {
  }

  /** The separator between the two squares of a quiet move, as its bytes stand in the source file. */
  const ARROW: JString := [0x20, 0xE2, 0x2020, 0x2019, 0x20]
  /** The separator of a capture, " x ". */
  const CROSS: JString := [0x20, LETTER_X, 0x20]

  /** `toString`: both squares, joined by " x " for a capture and by the arrow otherwise. */
  function MoveString(m: Move): (s: JString)
    ensures ToChessNotation(m.from) <= s
    ensures |s| >= |ToChessNotation(m.to)| && s[|s| - |ToChessNotation(m.to)|..] == ToChessNotation(m.to)
  {
    ToChessNotation(m.from) + (if m.captured != null then CROSS else ARROW) + ToChessNotation(m.to)
  }

  /**
   * For a move between two squares the text starts with the origin, ends
   * with the target, and is seven characters long exactly for a capture
   * (nine for a quiet move).
   */
  lemma MoveStringShape(m: Move)
    requires IsValid(m.from) && IsValid(m.to)
    ensures var s := MoveString(m);
      s[..2] == ToChessNotation(m.from) && s[|s| - 2..] == ToChessNotation(m.to)
      && (|s| == 7 <==> m.captured != null)
      && (m.captured == null ==> |s| == 9)
  {
    ValidNotation(m.from);
    ValidNotation(m.to);
    var s := MoveString(m);
    var mid := if m.captured != null then CROSS else ARROW;
    assert s == ToChessNotation(m.from) + mid + ToChessNotation(m.to);
  }
}
