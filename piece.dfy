/**
 * A chess piece of the host application: its type and colour never
 * change; only the "has moved" flag does.
 */
module ChessPiece {
  import opened JavaLang

  datatype PieceType = KING | QUEEN | ROOK | BISHOP | KNIGHT | PAWN
  datatype PieceColor = WHITE | BLACK

  /** The enum constant's `name()`. */
  function TypeName(t: PieceType): (s: JString)
    ensures |s| >= 4
  {
    match t
    case KING => Lit("KING")
    case QUEEN => Lit("QUEEN")
    case ROOK => Lit("ROOK")
    case BISHOP => Lit("BISHOP")
    case KNIGHT => Lit("KNIGHT")
    case PAWN => Lit("PAWN")
  }

  /** The enum constant's `toString()`, which is its name. */
  function ColorName(c: PieceColor): (s: JString)
    ensures |s| == 5
  {
    match c
    case WHITE => Lit("WHITE")
    case BLACK => Lit("BLACK")
  }

  /** The first of the twelve chess symbols, U+2654 WHITE CHESS KING. */
  const WHITE_KING_SYMBOL: jchar := 0x2654

  /** The position of a type in the Unicode chess symbol block. */
  function SymbolIndex(t: PieceType): nat {
    match t
    case KING => 0
    case QUEEN => 1
    case ROOK => 2
    case BISHOP => 3
    case KNIGHT => 4
    case PAWN => 5
  }

  /**
   * `getSymbol`: the Unicode chess symbol, U+2654..U+2659 (king, queen,
   * rook, bishop, knight, pawn) for white and U+265A..U+265F for black.
   */
  function SymbolOf(t: PieceType, c: PieceColor): (s: JString)
    ensures |s| == 1 && WHITE_KING_SYMBOL <= s[0] < WHITE_KING_SYMBOL + 12
    ensures c == WHITE <==> s[0] < WHITE_KING_SYMBOL + 6
  {
    [WHITE_KING_SYMBOL + SymbolIndex(t) + (if c == WHITE then 0 else 6)]
  }

  /** Each of the twelve pieces has its own symbol. */
  lemma SymbolsDistinct(t1: PieceType, c1: PieceColor, t2: PieceType, c2: PieceColor)
    ensures SymbolOf(t1, c1) == SymbolOf(t2, c2) <==> t1 == t2 && c1 == c2
  {
    if SymbolOf(t1, c1) == SymbolOf(t2, c2) {
      assert SymbolOf(t1, c1)[0] == SymbolOf(t2, c2)[0];
    }
  }

  /** `toString`: the colour, a space, the type. */
  function PieceString(t: PieceType, c: PieceColor): JString {
    ColorName(c) + [0x20] + TypeName(t)
  }

  /** The string splits back into its colour and its type, so different pieces print differently. */
  lemma PieceStringParts(t: PieceType, c: PieceColor, t2: PieceType, c2: PieceColor)
    ensures var s := PieceString(t, c);
      s[..5] == ColorName(c) && s[5] == 0x20 && s[6..] == TypeName(t)
    ensures PieceString(t, c) == PieceString(t2, c2) <==> t == t2 && c == c2
  {
    var s, s2 := PieceString(t, c), PieceString(t2, c2);
    assert s[..5] == ColorName(c) && s[6..] == TypeName(t);
    assert s2[..5] == ColorName(c2) && s2[6..] == TypeName(t2);
    if s == s2 {
      assert ColorName(c) == ColorName(c2) && TypeName(t) == TypeName(t2);
    }
  }

  class Piece {
    const kind: PieceType
    const color: PieceColor
    var moved: bool

    /** A new piece has not moved. */
    constructor (kind: PieceType, color: PieceColor)
      ensures this.kind == kind && this.color == color && !moved
    {
      this.kind := kind;
      this.color := color;
      moved := false;
    }

    /** `hasMoved`. */
    function HasMoved(): bool
      reads this
    {
      moved
    }

    /** `setMoved`: the flag takes the given value; type and colour are constants. */
    method SetMoved(m: bool)
      modifies this
      ensures moved == m
    {
      moved := m;
    }

    /** `getSymbol`. */
    function Symbol(): JString {
      SymbolOf(kind, color)
    }

    /** `toString`. */
    function ToString(): JString {
      PieceString(kind, color)
    }
  }
}
