/**
 * The 64-bit occupancy mask of the board: bit `row * 8 + col` is set when
 * the square in that row and column holds a piece.
 *
 * The `uint64_t` is held as its eight bytes, least significant first, so
 * byte `r` holds bits `8r` to `8r + 7`: the squares of row `r`, column `c`
 * being bit `c` of the byte. The bitwise operators of C act on every byte of
 * the word on its own, so `^`, `&` and `~` on the word are those operators
 * applied byte by byte.
 */
module BoardMask {
  import opened BoardState

  const CHESS_BOARD_SIZE: nat := 8
  const SQUARES: nat := 64

  /** A `uint64_t` board mask, as its eight row bytes. */
  type Mask = m: seq<bv8> | |m| == CHESS_BOARD_SIZE witness [0, 0, 0, 0, 0, 0, 0, 0]

  /** The mask with no square set. */
  const EMPTY: Mask := [0, 0, 0, 0, 0, 0, 0, 0]

  /** Bit `i` of the 64-bit word: column `i % 8` of row `i / 8`. */
  predicate BitAt(mask: Mask, i: nat)
    requires i < SQUARES
  {
    Bit(mask[i / CHESS_BOARD_SIZE], i % CHESS_BOARD_SIZE)
  }

  /** `a ^ b` on the word. */
  function Xor(a: Mask, b: Mask): Mask {
    seq(CHESS_BOARD_SIZE, r requires 0 <= r < CHESS_BOARD_SIZE => a[r] ^ b[r])
  }

  /** `a & b` on the word. */
  function And(a: Mask, b: Mask): Mask {
    seq(CHESS_BOARD_SIZE, r requires 0 <= r < CHESS_BOARD_SIZE => a[r] & b[r])
  }

  // ---------------------------------------------------------------------
  // One-bit facts about row bytes
  // ---------------------------------------------------------------------

  /** Every written-out column mask has exactly one bit set. */
  lemma BitMaskOneBit(c: nat)
    requires c < 8
    ensures BitMask(c) != 0 && BitMask(c) & (BitMask(c) - 1) == 0
  {
  }

  /** Two different column masks share no bit. */
  lemma BitMaskDisjoint(c: nat, d: nat)
    requires c < 8 && d < 8 && c != d
    ensures BitMask(c) & BitMask(d) == 0
  {
  }

  /** Testing one bit of an or. */
  lemma OrMask(p: bv8, q: bv8, m: bv8)
    requires m != 0 && m & (m - 1) == 0
    ensures ((p | q) & m != 0) <==> (p & m != 0 || q & m != 0)
  {
  }

  /** Testing one bit of an and. */
  lemma AndMask(p: bv8, q: bv8, m: bv8)
    requires m != 0 && m & (m - 1) == 0
    ensures ((p & q) & m != 0) <==> (p & m != 0 && q & m != 0)
  {
  }

  /** Testing one bit of a complement. */
  lemma NotMask(p: bv8, m: bv8)
    requires m != 0 && m & (m - 1) == 0
    ensures (!p & m != 0) <==> p & m == 0
  {
  }

  /** Column `d` of `v | (1 << c)` is set exactly when it was, or `d` is `c`. */
  lemma OrBit(v: bv8, c: nat, d: nat)
    requires c < 8 && d < 8
    ensures Bit(v | BitMask(c), d) <==> Bit(v, d) || c == d
  {
    BitMaskOneBit(d);
    OrMask(v, BitMask(c), BitMask(d));
    if c != d {
      BitMaskDisjoint(c, d);
    }
  }

  /** Column `d` of `v & ~(1 << c)` is set exactly when it was and `d` is not `c`. */
  lemma AndNotBit(v: bv8, c: nat, d: nat)
    requires c < 8 && d < 8
    ensures Bit(v & !BitMask(c), d) <==> Bit(v, d) && c != d
  {
    BitMaskOneBit(d);
    AndMask(v, !BitMask(c), BitMask(d));
    NotMask(BitMask(c), BitMask(d));
    if c != d {
      BitMaskDisjoint(c, d);
    }
  }

  /** A bit of an and of two masks is set where both are. */
  lemma AndBit(a: Mask, b: Mask, i: nat)
    requires i < SQUARES
    ensures BitAt(And(a, b), i) <==> BitAt(a, i) && BitAt(b, i)
  {
    BitMaskOneBit(i % CHESS_BOARD_SIZE);
    AndMask(a[i / CHESS_BOARD_SIZE], b[i / CHESS_BOARD_SIZE], BitMask(i % CHESS_BOARD_SIZE));
  }

  /** A bit of an exclusive or of two masks is set where they differ. */
  lemma XorBit(a: Mask, b: Mask, i: nat)
    requires i < SQUARES
    ensures BitAt(Xor(a, b), i) <==> BitAt(a, i) != BitAt(b, i)
  {
    XorTest(a[i / CHESS_BOARD_SIZE], b[i / CHESS_BOARD_SIZE], i % CHESS_BOARD_SIZE);
  }

  /** Two masks with the same 64 bits are the same mask. */
  lemma MasksDetermine(a: Mask, b: Mask)
    requires forall i :: 0 <= i < SQUARES ==> BitAt(a, i) == BitAt(b, i)
    ensures a == b
  {
    forall r | 0 <= r < CHESS_BOARD_SIZE
      ensures a[r] == b[r]
    {
      forall c | 0 <= c < 8
        ensures Bit(a[r], c) == Bit(b[r], c)
      {
        assert BitAt(a, r * CHESS_BOARD_SIZE + c) == BitAt(b, r * CHESS_BOARD_SIZE + c);
      }
      BitsDetermine(a[r], b[r]);
    }
  }

  // ---------------------------------------------------------------------
  // Squares
  // ---------------------------------------------------------------------

  /** `is_square_occupied`: false off the board, otherwise the square's bit. */
  predicate IsSquareOccupied(mask: Mask, row: u8, col: u8): (b: bool)
    ensures b ==> row < CHESS_BOARD_SIZE && col < CHESS_BOARD_SIZE && mask[row] != 0
  {
    if row >= CHESS_BOARD_SIZE || col >= CHESS_BOARD_SIZE then false
    else Bit(mask[row], col)
  }

  /** Reading a square of the board is reading bit `row * 8 + col` of the word; nothing off the board is occupied. */
  lemma IsSquareOccupiedBit(mask: Mask, row: u8, col: u8)
    ensures row >= CHESS_BOARD_SIZE || col >= CHESS_BOARD_SIZE ==> !IsSquareOccupied(mask, row, col)
    ensures row < CHESS_BOARD_SIZE && col < CHESS_BOARD_SIZE ==>
      row * CHESS_BOARD_SIZE + col < SQUARES
      && (IsSquareOccupied(mask, row, col) <==> BitAt(mask, row * CHESS_BOARD_SIZE + col))
  {
    if row < CHESS_BOARD_SIZE && col < CHESS_BOARD_SIZE {
      var i := row * CHESS_BOARD_SIZE + col;
      assert i / CHESS_BOARD_SIZE == row && i % CHESS_BOARD_SIZE == col;
    }
  }

  /**
   * `set_square`, on the value its pointer refers to: the square's bit is
   * or-ed in or masked out; off the board the mask is returned as it was.
   */
  function SetSquare(mask: Mask, row: u8, col: u8, occupied: bool): (r: Mask)
    ensures row >= CHESS_BOARD_SIZE || col >= CHESS_BOARD_SIZE ==> r == mask
    ensures forall k :: 0 <= k < CHESS_BOARD_SIZE && k != row as int ==> r[k] == mask[k]
  {
    if row >= CHESS_BOARD_SIZE || col >= CHESS_BOARD_SIZE then mask
    else if occupied then mask[row := mask[row] | BitMask(col)]
    else mask[row := mask[row] & !BitMask(col)]
  }

  /** Or-ing in column `col` sets it and keeps every other column. */
  lemma OrBitAll(v: bv8, col: nat)
    requires col < 8
    ensures forall c :: 0 <= c < 8 ==> (Bit(v | BitMask(col), c) <==> Bit(v, c) || c == col)
  {
    forall c | 0 <= c < 8
      ensures Bit(v | BitMask(col), c) <==> Bit(v, c) || c == col
    {
      OrBit(v, col, c);
    }
  }

  /** Masking out column `col` clears it and keeps every other column. */
  lemma AndNotBitAll(v: bv8, col: nat)
    requires col < 8
    ensures forall c :: 0 <= c < 8 ==> (Bit(v & !BitMask(col), c) <==> Bit(v, c) && c != col)
  {
    forall c | 0 <= c < 8
      ensures Bit(v & !BitMask(col), c) <==> Bit(v, c) && c != col
    {
      AndNotBit(v, col, c);
    }
  }

  /**
   * After `set_square` on a square of the board, reading that square gives
   * `occupied` and every other square reads as before; off the board the
   * mask does not change.
   */
  lemma SetSquareSpec(mask: Mask, row: u8, col: u8, occupied: bool)
    ensures row >= CHESS_BOARD_SIZE || col >= CHESS_BOARD_SIZE ==> SetSquare(mask, row, col, occupied) == mask
    ensures row < CHESS_BOARD_SIZE && col < CHESS_BOARD_SIZE ==>
      IsSquareOccupied(SetSquare(mask, row, col, occupied), row, col) == occupied
    ensures forall r: u8, c: u8 :: (r, c) != (row, col) ==>
      IsSquareOccupied(SetSquare(mask, row, col, occupied), r, c) == IsSquareOccupied(mask, r, c)
  {
    if row < CHESS_BOARD_SIZE && col < CHESS_BOARD_SIZE {
      if occupied {
        OrBitAll(mask[row], col);
      } else {
        AndNotBitAll(mask[row], col);
      }
    }
  }

  /** Setting a square to what it already reads leaves the mask as it was. */
  lemma SetSquareUnchanged(mask: Mask, row: u8, col: u8)
    ensures SetSquare(mask, row, col, IsSquareOccupied(mask, row, col)) == mask
  {
    var occupied := IsSquareOccupied(mask, row, col);
    var m := SetSquare(mask, row, col, occupied);
    SetSquareSpec(mask, row, col, occupied);
    if row < CHESS_BOARD_SIZE && col < CHESS_BOARD_SIZE {
      forall c | 0 <= c < 8
        ensures Bit(m[row], c) == Bit(mask[row], c)
      {
        var c8: u8 := c;
        assert IsSquareOccupied(m, row, c8) == IsSquareOccupied(mask, row, c8);
      }
      BitsDetermine(m[row], mask[row]);
    }
  }

  /** A `uint64_t` mask that a pointer refers to. */
  class MaskCell {
    var mask: Mask

    constructor (m: Mask)
      ensures mask == m
    {
      mask := m;
    }
  }

  /**
   * `set_square` through its pointer: a null pointer or a square off the
   * board changes nothing, otherwise the word becomes `SetSquare` of itself.
   */
  method SetSquareAt(cell: MaskCell?, row: u8, col: u8, occupied: bool)
    modifies cell
    ensures cell != null ==> cell.mask == SetSquare(old(cell.mask), row, col, occupied)
  {
    if row >= CHESS_BOARD_SIZE || col >= CHESS_BOARD_SIZE || cell == null {
      return;
    }
    if occupied {
      cell.mask := cell.mask[row := cell.mask[row] | BitMask(col)];
    } else {
      cell.mask := cell.mask[row := cell.mask[row] & !BitMask(col)];
    }
  }

  // ---------------------------------------------------------------------
  // Counting and finding set bits
  // ---------------------------------------------------------------------

  /** The number of set bits among the indices below `n`. */
  function CountBelow64(mask: Mask, n: nat): nat
    requires n <= SQUARES
  {
    if n == 0 then 0 else CountBelow64(mask, n - 1) + (if BitAt(mask, n - 1) then 1 else 0)
  }

  /** `__builtin_popcountll`: the number of set bits of the word. */
  function PopCount(mask: Mask): nat {
    CountBelow64(mask, SQUARES)
  }

  /** The largest set index below `n`, or -1: the last one a scan upwards from 0 meets. */
  function LastSet(mask: Mask, n: nat): (i: int)
    requires n <= SQUARES
    ensures -1 <= i < n
  {
    if n == 0 then -1 else if BitAt(mask, n - 1) then n - 1 else LastSet(mask, n - 1)
  }

  /** With no set bit below `n` the count is 0, and conversely. */
  lemma {:induction false} CountZero(mask: Mask, n: nat)
    requires n <= SQUARES
    ensures CountBelow64(mask, n) == 0 <==> forall j :: 0 <= j < n ==> !BitAt(mask, j)
  {
    if n > 0 {
      CountZero(mask, n - 1);
    }
  }

  /**
   * The last set index below `n` is set, and nothing between it and `n`
   * is; it is -1 exactly when nothing below `n` is set.
   */
  lemma {:induction false} LastSetSpec(mask: Mask, n: nat)
    requires n <= SQUARES
    ensures var i := LastSet(mask, n);
      (i >= 0 ==> BitAt(mask, i))
      && (forall j :: i < j < n ==> !BitAt(mask, j))
      && (i < 0 <==> CountBelow64(mask, n) == 0)
  {
    if n > 0 {
      LastSetSpec(mask, n - 1);
      CountZero(mask, n - 1);
    }
  }

  /**
   * A mask with exactly one set bit below `n` has it at `LastSet`, and no
   * other index below `n` is set.
   */
  lemma {:induction false} CountOne(mask: Mask, n: nat)
    requires n <= SQUARES && CountBelow64(mask, n) == 1
    ensures var i := LastSet(mask, n);
      0 <= i < n && BitAt(mask, i) && forall j :: 0 <= j < n && j != i ==> !BitAt(mask, j)
  {
    if BitAt(mask, n - 1) {
      CountZero(mask, n - 1);
    } else {
      CountOne(mask, n - 1);
    }
  }

  /** Conversely, a mask whose only set bit below `n` is `i` counts 1 there. */
  lemma {:induction false} OnlyBitCountsOne(mask: Mask, n: nat, i: nat)
    requires i < n <= SQUARES && BitAt(mask, i)
    requires forall j :: 0 <= j < n && j != i ==> !BitAt(mask, j)
    ensures CountBelow64(mask, n) == 1
  {
    if n - 1 == i {
      CountZero(mask, n - 1);
    } else {
      OnlyBitCountsOne(mask, n - 1, i);
    }
  }
}
