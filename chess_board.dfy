/**
 * The host's game state: a board kept by the chess library, the history
 * of moves made, and the pieces each side has lost. The chess rules are
 * the library's: the legal moves of the current position and the board a
 * move leads to are given by the caller. What is modelled is the mapping
 * between the application's squares and the library's, and the
 * bookkeeping around a move.
 */
module ChessBoardModel {
  import opened Wrappers
  import opened ChessPosition
  import opened ChessPiece
  import opened ChessMove

  /** What the library holds on a square. */
  datatype Cell = Cell(kind: PieceType, color: PieceColor)

  /**
   * The library's board: the contents of each square, indexed in the
   * library's square order (a1 = 0, b1 = 1, ..., h8 = 63), and the side to
   * move.
   */
  datatype Board = Board(cells: seq<Option<Cell>>, whiteToMove: bool)

  predicate WellFormed(b: Board) {
    |b.cells| == 64
  }

  /** A move the library lists as legal: two squares and the piece a pawn promotes to, if any. */
  datatype LegalMove = LegalMove(from: nat, to: nat, promotion: Option<Cell>)

  // ---------------------------------------------------------------------
  // Squares
  // ---------------------------------------------------------------------

  /** `positionToSquare`: file `col` on the library's rank `7 - row`. */
  function PositionToSquare(p: Position): (sq: nat)
    requires IsValid(p)
    ensures sq < 64 && sq / 8 == 7 - p.row && sq % 8 == p.col
  {
    (7 - p.row) * 8 + p.col
  }

  /** `squareToPosition`: the inverse reading of a square's index. */
  function SquareToPosition(sq: nat): (p: Position)
    requires sq < 64
    ensures IsValid(p) && p.row == 7 - sq / 8 && p.col == sq % 8
  {
    Position(7 - sq / 8, sq % 8)
  }

  /** Square to position and back is the identity on every square. */
  lemma SquareRoundTrip(sq: nat)
    requires sq < 64
    ensures PositionToSquare(SquareToPosition(sq)) == sq
  {
  }

  /** Position to square and back is the identity on every valid position. */
  lemma PositionRoundTrip(p: Position)
    requires IsValid(p)
    ensures SquareToPosition(PositionToSquare(p)) == p
  {
  }

  /** White's back rank is the library's first: row 7 maps to squares 0..7, row 0 to 56..63. */
  lemma RowsAreReversed(p: Position)
    requires IsValid(p)
    ensures p.row == 7 <==> PositionToSquare(p) < 8
    ensures p.row == 0 <==> PositionToSquare(p) >= 56
  {
  }

  /** The library's contents of a valid position. */
  function CellAt(b: Board, p: Position): Option<Cell>
    requires WellFormed(b) && IsValid(p)
  {
    b.cells[PositionToSquare(p)]
  }

  /** `getCurrentTurn`. */
  function Turn(b: Board): PieceColor {
    if b.whiteToMove then WHITE else BLACK
  }

  /** The library piece a promotion to `t` stands for, in the mover's colour. */
  function PromotionCell(t: PieceType, c: PieceColor): Cell {
    Cell(t, c)
  }

  /** Some listed move goes from `from` to `to`. */
  predicate Listed(legal: seq<LegalMove>, from: nat, to: nat) {
    exists i :: 0 <= i < |legal| && legal[i].from == from && legal[i].to == to
  }

  /**
   * `isValidMove`: both positions are on the board, the piece on `from`
   * belongs to the side to move, and the library lists a move between the
   * two squares.
   */
  predicate ValidMove(b: Board, legal: seq<LegalMove>, from: Position, to: Position)
    requires WellFormed(b)
  {
    IsValid(from) && IsValid(to)
    && CellAt(b, from).Some? && CellAt(b, from).value.color == Turn(b)
    && Listed(legal, PositionToSquare(from), PositionToSquare(to))
  }

  /**
   * Whether a listed move is the one `makeMove` takes: the squares match
   * and, when a promotion is asked for, the move promotes to that piece.
   */
  predicate Matches(m: LegalMove, from: nat, to: nat, want: Option<Cell>) {
    m.from == from && m.to == to && (want.None? || m.promotion == want)
  }

  /** The first listed move from index `i` on that matches, or -1. */
  function FirstMatchFrom(legal: seq<LegalMove>, from: nat, to: nat, want: Option<Cell>, i: nat): (k: int)
    requires i <= |legal|
    ensures k == -1 || i <= k < |legal|
    ensures k >= 0 ==>
      Matches(legal[k], from, to, want) && forall j :: i <= j < k ==> !Matches(legal[j], from, to, want)
    ensures k == -1 <==> forall j :: i <= j < |legal| ==> !Matches(legal[j], from, to, want)
    decreases |legal| - i
  {
    if i == |legal| then -1
    else if Matches(legal[i], from, to, want) then i
    else FirstMatchFrom(legal, from, to, want, i + 1)
  }

  /** Without a promotion piece the first move between the two squares is taken, whatever it promotes to. */
  lemma AnyPromotionWithoutRequest(legal: seq<LegalMove>, from: nat, to: nat)
    ensures FirstMatchFrom(legal, from, to, None, 0) >= 0 <==> Listed(legal, from, to)
  {
    if Listed(legal, from, to) {
      var i :| 0 <= i < |legal| && legal[i].from == from && legal[i].to == to;
      assert Matches(legal[i], from, to, None);
    }
  }

  /** Asking for a promotion finds only a move that promotes to exactly that piece. */
  lemma RequestedPromotionOnly(legal: seq<LegalMove>, from: nat, to: nat, c: Cell)
    ensures var k := FirstMatchFrom(legal, from, to, Some(c), 0);
      k >= 0 ==> legal[k].promotion == Some(c) && legal[k].from == from && legal[k].to == to
    ensures (forall i :: 0 <= i < |legal| ==> legal[i].promotion.None?)
            ==> FirstMatchFrom(legal, from, to, Some(c), 0) == -1
  {
  }

  /**
   * `isPromotion`: the piece on `from` is a pawn, and it is white going
   * to row 0 or black going to row 7. Only `from` is checked for being on
   * the board.
   */
  predicate IsPromotion(b: Board, from: Position, to: Position): (p: bool)
    requires WellFormed(b)
    ensures p ==> IsValid(from) && CellAt(b, from).Some? && CellAt(b, from).value.kind == PAWN
    ensures p ==> to.row == (if CellAt(b, from).value.color == WHITE then 0 else 7)
  {
    IsValid(from) && CellAt(b, from).Some? && CellAt(b, from).value.kind == PAWN
    && ((CellAt(b, from).value.color == WHITE && to.row == 0)
        || (CellAt(b, from).value.color == BLACK && to.row == 7))
  }

  /** A promotion is a pawn's move onto the far rank of its own colour, and nothing else is. */
  lemma PromotionIsFarRank(b: Board, from: Position, to: Position)
    requires WellFormed(b) && IsValid(from)
    ensures IsPromotion(b, from, to)
            <==> (CellAt(b, from) == Some(Cell(PAWN, WHITE)) && to.row == 0)
                 || (CellAt(b, from) == Some(Cell(PAWN, BLACK)) && to.row == 7)
  {
  }

  // ---------------------------------------------------------------------
  // The starting position
  // ---------------------------------------------------------------------

  /** The back rank from file a to file h. */
  function BackRank(i: nat): PieceType
    requires i < 8
  {
    [ROOK, KNIGHT, BISHOP, QUEEN, KING, BISHOP, KNIGHT, ROOK][i]
  }

  /** The starting position of the standard game, white to move. */
  function Initial(): (b: Board)
    ensures WellFormed(b) && b.whiteToMove
  {
    Board(seq(64, sq requires 0 <= sq < 64 =>
      if sq < 8 then Some(Cell(BackRank(sq), WHITE))
      else if sq < 16 then Some(Cell(PAWN, WHITE))
      else if sq < 48 then None
      else if sq < 56 then Some(Cell(PAWN, BLACK))
      else Some(Cell(BackRank(sq - 56), BLACK))), true)
  }

  /** In the starting position rows 0 and 1 are black, rows 6 and 7 white, the rest empty. */
  lemma InitialLayout(p: Position)
    requires IsValid(p)
    ensures var c := CellAt(Initial(), p);
      (p.row == 0 ==> c == Some(Cell(BackRank(p.col), BLACK)))
      && (p.row == 1 ==> c == Some(Cell(PAWN, BLACK)))
      && (2 <= p.row <= 5 ==> c.None?)
      && (p.row == 6 ==> c == Some(Cell(PAWN, WHITE)))
      && (p.row == 7 ==> c == Some(Cell(BackRank(p.col), WHITE)))
  {
  }

  // ---------------------------------------------------------------------
  // The game
  // ---------------------------------------------------------------------

  class ChessBoard {
    var board: Board
    var history: seq<Move>
    var capturedWhite: seq<Piece>
    var capturedBlack: seq<Piece>

    ghost predicate Valid()
      reads this
    {
      WellFormed(board)
    }

    /** A new game: the library's board starts in the standard position; no history, nothing captured. */
    constructor ()
      ensures Valid() && board == Initial()
      ensures history == [] && capturedWhite == [] && capturedBlack == []
    {
      board := Initial();
      history := [];
      capturedWhite := [];
      capturedBlack := [];
    }

    /**
     * `getPiece`: null off the board and on an empty square, otherwise a
     * new piece of the square's type and colour, not yet moved.
     */
    method GetPiece(pos: Position) returns (p: Piece?)
      requires Valid()
      ensures p == null <==> !IsValid(pos) || CellAt(board, pos).None?
      ensures p != null ==> fresh(p) && !p.moved && IsValid(pos)
                            && CellAt(board, pos) == Some(Cell(p.kind, p.color))
    {
      if !IsValid(pos) {
        return null;
      }
      var sq := PositionToSquare(pos);
      var c := board.cells[sq];
      if c.None? {
        return null;
      }
      p := new Piece(c.value.kind, c.value.color);
    }

    /** `getCurrentTurn`. */
    function CurrentTurn(): (c: PieceColor)
      reads this
      ensures c == WHITE <==> board.whiteToMove
    {
      Turn(board)
    }

    /** `isValidMove`, scanning the library's list of legal moves. */
    method IsValidMove(from: Position, to: Position, legal: seq<LegalMove>) returns (ok: bool)
      requires Valid()
      ensures ok == ValidMove(board, legal, from, to)
    {
      if !IsValid(from) || !IsValid(to) {
        return false;
      }
      var piece := GetPiece(from);
      if piece == null || piece.color != CurrentTurn() {
        return false;
      }
      var fromSq, toSq := PositionToSquare(from), PositionToSquare(to);
      var i := 0;
      while i < |legal|
        invariant i <= |legal|
        invariant forall j :: 0 <= j < i ==> !(legal[j].from == fromSq && legal[j].to == toSq)
      {
        if legal[i].from == fromSq && legal[i].to == toSq {
          return true;
        }
        i := i + 1;
      }
      return false;
    }

    /**
     * `makeMove`: when the move is valid and the library lists a matching
     * move (one promoting to `promotion` in the mover's colour, if that is
     * given), the piece on the target square, if any, joins its colour's
     * captured list, the library's board becomes `after`, and the move is
     * added to the history; otherwise nothing changes.
     */
    method MakeMove(from: Position, to: Position, promotion: Option<PieceType>,
                    legal: seq<LegalMove>, after: Board) returns (ok: bool)
      requires Valid() && WellFormed(after)
      modifies this
      ensures Valid()
      ensures ok <==> ValidMove(old(board), legal, from, to)
                      && FirstMatchFrom(legal, PositionToSquare(from), PositionToSquare(to),
                                        Want(old(board), from, promotion), 0) >= 0
      ensures !ok ==> board == old(board) && history == old(history)
                      && capturedWhite == old(capturedWhite) && capturedBlack == old(capturedBlack)
      ensures ok ==> board == after && |history| == |old(history)| + 1
                     && history[..|old(history)|] == old(history)
                     && RecordsMove(old(board), history[|old(history)|], from, to)
                     && CapturesRecorded(old(board), to, history[|old(history)|].captured,
                                         old(capturedWhite), old(capturedBlack), capturedWhite, capturedBlack)
    {
      var valid := IsValidMove(from, to, legal);
      if !valid {
        return false;
      }
      var fromSq, toSq := PositionToSquare(from), PositionToSquare(to);
      var moving := GetPiece(from);
      var captured := GetPiece(to);
      var want: Option<Cell> := if promotion.Some? then Some(PromotionCell(promotion.value, moving.color)) else None;
      assert want == Want(board, from, promotion);
      var found := -1;
      var i := 0;
      while i < |legal|
        invariant i <= |legal|
        invariant FirstMatchFrom(legal, fromSq, toSq, want, 0) == FirstMatchFrom(legal, fromSq, toSq, want, i)
      {
        if legal[i].from == fromSq && legal[i].to == toSq {
          if promotion.Some? {
            if legal[i].promotion == want {
              found := i;
              break;
            }
          } else {
            found := i;
            break;
          }
        }
        i := i + 1;
      }
      if found < 0 {
        return false;
      }
      if captured != null {
        if captured.color == WHITE {
          capturedWhite := capturedWhite + [captured];
        } else {
          capturedBlack := capturedBlack + [captured];
        }
      }
      ghost var before := board;
      board := after;
      history := history + [Move(from, to, moving, captured)];
      assert RecordsMove(before, history[|history| - 1], from, to);
      return true;
    }

    /** `reset`: the standard starting position, no history, nothing captured. */
    method Reset()
      modifies this
      ensures Valid() && board == Initial()
      ensures history == [] && capturedWhite == [] && capturedBlack == []
    {
      board := Initial();
      history := [];
      capturedWhite := [];
      capturedBlack := [];
    }

    /** `getCapturedPieces`: white's losses for WHITE, black's for any other colour. */
    function CapturedPieces(color: PieceColor): (s: seq<Piece>)
      reads this
      ensures color == WHITE ==> s == capturedWhite
      ensures color == BLACK ==> s == capturedBlack
    {
      if color == WHITE then capturedWhite else capturedBlack
    }
  }

  /** The promotion piece `makeMove` looks for: the requested type in the colour of the piece on `from`. */
  function Want(b: Board, from: Position, promotion: Option<PieceType>): Option<Cell>
    requires WellFormed(b)
  {
    if promotion.None? || !IsValid(from) || CellAt(b, from).None? then None
    else Some(PromotionCell(promotion.value, CellAt(b, from).value.color))
  }

  /**
   * A history entry for a move made on board `b`: the two positions, the
   * piece from `from` (a new, unmoved piece) and the piece found on `to`,
   * or null for an empty target.
   */
  ghost predicate RecordsMove(b: Board, m: Move, from: Position, to: Position)
    requires WellFormed(b)
    reads m.piece, m.captured
  {
    IsValid(from) && IsValid(to)
    && m.from == from && m.to == to
    && Some(Cell(m.piece.kind, m.piece.color)) == CellAt(b, from) && !m.piece.moved
    && (m.captured == null <==> CellAt(b, to).None?)
    && (m.captured != null ==> Some(Cell(m.captured.kind, m.captured.color)) == CellAt(b, to))
  }

  /** The captured piece, if any, is appended to the list of its colour and the other list is unchanged. */
  ghost predicate CapturesRecorded(b: Board, to: Position, captured: Piece?,
                                   white0: seq<Piece>, black0: seq<Piece>, white: seq<Piece>, black: seq<Piece>)
    requires WellFormed(b)
    reads captured
  {
    if captured == null then white == white0 && black == black0
    else if captured.color == WHITE then white == white0 + [captured] && black == black0
    else white == white0 && black == black0 + [captured]
  }
}
