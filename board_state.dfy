/**
 * Debouncing of the raw sensor frames of the board and detection of a
 * single move between two stable frames.
 *
 * A frame is eight row bytes; bit `c` of row `r` is the square in row `r`,
 * column `c`. Each row is adopted into the stable picture only after it has
 * been seen unchanged often enough. The previous raw frame the counters are
 * compared against is one array shared by every debouncer (a function-static
 * in the firmware); here it is the explicit `last` argument of `Update`.
 */
module BoardState {
  import opened Wrappers

  const ROWS: nat := 8
  /** The threshold `board_state_init` uses when it is given 0. */
  const DEFAULT_THRESHOLD: nat := 3
  /** `accum_same` is a `uint8_t` counter that stops at its largest value. */
  const ACCUM_MAX: nat := 255

  type u8 = x: int | 0 <= x < 0x100

  /** `1u << c`, the mask of column `c`, written out. */
  function BitMask(c: nat): bv8
    requires c < 8
  {
    if c == 0 then 0x01 else if c == 1 then 0x02 else if c == 2 then 0x04 else if c == 3 then 0x08
    else if c == 4 then 0x10 else if c == 5 then 0x20 else if c == 6 then 0x40 else 0x80
  }

  /** The written-out masks are the shifts. */
  lemma BitMaskIsShift(c: nat)
    requires c < 8
    ensures BitMask(c) == 1 << c
  {
  }

  /** Bit `c` of a row byte: the square in column `c` is occupied. */
  predicate Bit(v: bv8, c: nat)
    requires c < 8
  {
    v & BitMask(c) != 0
  }

  /** 1 when bit `c` of `v` is set, else 0. */
  function BitValue(v: bv8, c: nat): nat
    requires c < 8
  {
    if Bit(v, c) then 1 else 0
  }

  /** The number of set bits of `v` in the `n` lowest columns. */
  function CountBelow(v: bv8, n: nat): nat
    requires n <= 8
  {
    if n == 0 then 0 else CountBelow(v, n - 1) + BitValue(v, n - 1)
  }

  /** The number of occupied squares in a row byte. */
  function BitCount(v: bv8): nat {
    CountBelow(v, 8)
  }

  /**
   * `popcnt8`: the bit count by summing bit pairs, then nibbles. The two
   * statements that reassign the `uint8_t` truncate modulo 256, which is
   * `bv8` arithmetic; the final sum is masked to its low nibble, which the
   * truncation does not affect.
   */
  function Popcnt8(v: bv8): (n: int)
    ensures 0 <= n < 16
  {
    var pairs := v - ((v >> 1) & 0x55);
    var nibbles := (pairs & 0x33) + ((pairs >> 2) & 0x33);
    ((nibbles + (nibbles >> 4)) & 0x0F) as int
  }

  /**
   * The two stages of `popcnt8`: each two-bit field of `pairs` counts its
   * two bits of `v`, and the two nibbles of `nibbles` count four bits each.
   */
  lemma Popcnt8SumsBits(v: bv8)
    ensures Popcnt8(v) == BitValue(v, 0) + BitValue(v, 1) + BitValue(v, 2) + BitValue(v, 3)
                          + BitValue(v, 4) + BitValue(v, 5) + BitValue(v, 6) + BitValue(v, 7)
  {
    var pairs := v - ((v >> 1) & 0x55);
    var nibbles := (pairs & 0x33) + ((pairs >> 2) & 0x33);
    assert (pairs & 3) as int == BitValue(v, 0) + BitValue(v, 1);
    assert ((pairs >> 2) & 3) as int == BitValue(v, 2) + BitValue(v, 3);
    assert ((pairs >> 4) & 3) as int == BitValue(v, 4) + BitValue(v, 5);
    assert ((pairs >> 6) & 3) as int == BitValue(v, 6) + BitValue(v, 7);
    assert (nibbles & 0x0F) as int == (pairs & 3) as int + ((pairs >> 2) & 3) as int;
    assert (nibbles >> 4) as int == ((pairs >> 4) & 3) as int + ((pairs >> 6) & 3) as int;
  }

  /** `popcnt8` counts the set bits of every byte. */
  lemma Popcnt8Counts(v: bv8)
    ensures Popcnt8(v) == BitCount(v)
  {
    Popcnt8SumsBits(v);
    assert CountBelow(v, 1) == BitValue(v, 0);
    assert CountBelow(v, 2) == CountBelow(v, 1) + BitValue(v, 1);
    assert CountBelow(v, 3) == CountBelow(v, 2) + BitValue(v, 2);
    assert CountBelow(v, 4) == CountBelow(v, 3) + BitValue(v, 3);
    assert CountBelow(v, 5) == CountBelow(v, 4) + BitValue(v, 4);
    assert CountBelow(v, 6) == CountBelow(v, 5) + BitValue(v, 5);
    assert CountBelow(v, 7) == CountBelow(v, 6) + BitValue(v, 6);
  }

  // ---------------------------------------------------------------------
  // Debouncing
  // ---------------------------------------------------------------------

  /** The state one row's debouncing keeps: the stable byte, the counter and the shared last frame's byte. */
  datatype Row = Row(stable: bv8, accum: u8, last: bv8)

  /** One row of `board_state_update`, given that row of the new frame. */
  function RowStep(row: Row, frame: bv8, threshold: u8): (next: Row)
    ensures next.last == frame
    ensures next.stable == row.stable || (next.stable == frame && next.accum >= threshold)
    ensures frame != row.last ==> next.accum == 0
  {
    var accum: u8 := if frame == row.last then (if row.accum < ACCUM_MAX then row.accum + 1 else row.accum) else 0;
    var stable := if accum >= threshold && row.stable != frame then frame else row.stable;
    Row(stable, accum, frame)
  }

  /**
   * The counter counts how many frames in a row repeated the previous one,
   * stopping at 255; the stable byte only ever becomes the current frame's
   * byte, and only once the counter has reached the threshold.
   */
  lemma RowStepFacts(row: Row, frame: bv8, threshold: u8)
    ensures var next := RowStep(row, frame, threshold);
      next.last == frame
      && (frame != row.last ==> next.accum == 0)
      && (frame == row.last ==> next.accum == (if row.accum < ACCUM_MAX then row.accum + 1 else ACCUM_MAX))
      && (next.stable == row.stable || (next.stable == frame && next.accum >= threshold))
      && (next.accum >= threshold ==> next.stable == frame)
  {
  }

  /** A byte seen for the first time never reaches the stable picture, whatever the counter held. */
  lemma GlitchIgnored(row: Row, frame: bv8, threshold: u8)
    requires threshold >= 1 && frame != row.last
    ensures RowStep(row, frame, threshold).stable == row.stable
  {
  }

  /** The row after `k` more frames that all carry the byte `v`. */
  function RowRun(row: Row, v: bv8, k: nat, threshold: u8): Row
    decreases k
  {
    if k == 0 then row else RowStep(RowRun(row, v, k - 1, threshold), v, threshold)
  }

  /** After `k >= 1` identical frames the counter has counted at least `k - 1` repeats (up to 255). */
  lemma {:induction false} RowRunCounts(row: Row, v: bv8, k: nat, threshold: u8)
    requires k >= 1
    ensures RowRun(row, v, k, threshold).last == v
    ensures RowRun(row, v, k, threshold).accum >= (if k - 1 < ACCUM_MAX then k - 1 else ACCUM_MAX)
    decreases k
  {
    if k > 1 {
      RowRunCounts(row, v, k - 1, threshold);
    }
  }

  /**
   * The debounce settles: a row that shows the same byte on `threshold + 1`
   * consecutive frames (or more) has that byte as its stable value, from any
   * starting state.
   */
  lemma RowRunSettles(row: Row, v: bv8, k: nat, threshold: u8)
    requires k >= threshold + 1
    ensures RowRun(row, v, k, threshold).stable == v
  {
    RowRunCounts(row, v, k, threshold);
  }

  /**
   * The threshold counts repeats, not frames: from a fresh row whose last
   * byte differs from `v`, `threshold` frames of `v` are not enough unless
   * the stable byte already was `v`.
   */
  lemma {:induction false} RowRunNeedsThresholdPlusOne(row: Row, v: bv8, k: nat, threshold: u8)
    requires row.last != v && 1 <= k <= threshold
    ensures RowRun(row, v, k, threshold).stable == row.stable
    ensures RowRun(row, v, k, threshold).accum == k - 1
    decreases k
  {
    if k > 1 {
      RowRunNeedsThresholdPlusOne(row, v, k - 1, threshold);
    }
  }

  /**
   * Because the last frame is shared, two debouncers that are fed their
   * frames alternately, each always the same byte but the two different,
   * reset each other's counters: neither ever adopts its byte.
   */
  lemma SharedLastInterferes(a: Row, b: Row, va: bv8, vb: bv8, threshold: u8)
    requires va != vb && threshold >= 1 && a.last == b.last && b.last == vb
    ensures var a1 := RowStep(a, va, threshold);
      var b1 := RowStep(b.(last := a1.last), vb, threshold);
      a1.stable == a.stable && b1.stable == b.stable && a1.accum == 0 && b1.accum == 0 && b1.last == vb
  {
  }

  /** `board_state_t`: the stable rows, the repeat counters and the threshold. */
  class Debouncer {
    var stable: array<bv8>
    var accumSame: array<u8>
    var threshold: u8

    ghost predicate Valid()
      reads this
    {
      stable.Length == ROWS && accumSame.Length == ROWS && stable as object != accumSame as object
    }

    /** Row `r` of the debouncer, together with row `r` of the shared last frame. */
    function RowOf(r: nat, last: array<bv8>): Row
      reads this, stable, accumSame, last
      requires Valid() && last.Length == ROWS && r < ROWS
    {
      Row(stable[r], accumSame[r], last[r])
    }

    constructor ()
      ensures Valid() && fresh(stable) && fresh(accumSame)
    {
      stable := new bv8[ROWS](_ => 0);
      accumSame := new u8[ROWS](_ => 0);
      threshold := DEFAULT_THRESHOLD;
    }

    /** `board_state_init`: everything zeroed, and a threshold of 0 replaced by 3. */
    method Init(t: u8)
      requires Valid()
      modifies this, stable, accumSame
      ensures Valid() && stable == old(stable) && accumSame == old(accumSame)
      ensures forall r :: 0 <= r < ROWS ==> stable[r] == 0 && accumSame[r] == 0
      ensures threshold == (if t == 0 then DEFAULT_THRESHOLD else t)
      ensures threshold >= 1
    {
      forall r | 0 <= r < ROWS {
        stable[r] := 0;
      }
      forall r | 0 <= r < ROWS {
        accumSame[r] := 0;
      }
      threshold := if t != 0 then t else DEFAULT_THRESHOLD;
    }

    /**
     * One iteration of `board_state_update`'s loop: row `r` takes its
     * debounce step; the result tells whether its stable byte changed.
     */
    method UpdateRow(frame: bv8, last: array<bv8>, r: nat) returns (rowChanged: bool)
      requires Valid() && last.Length == ROWS && last != stable && last as object != accumSame as object && r < ROWS
      modifies stable, accumSame, last
      ensures Valid()
      ensures RowOf(r, last) == RowStep(old(RowOf(r, last)), frame, threshold)
      ensures rowChanged <==> stable[r] != old(stable[r])
      ensures forall k :: 0 <= k < ROWS && k != r ==>
        stable[k] == old(stable[k]) && accumSame[k] == old(accumSame[k]) && last[k] == old(last[k])
    {
      rowChanged := false;
      if frame == last[r] {
        if accumSame[r] < ACCUM_MAX {
          accumSame[r] := accumSame[r] + 1;
        }
      } else {
        accumSame[r] := 0;
        last[r] := frame;
      }
      if accumSame[r] >= threshold && stable[r] != frame {
        stable[r] := frame;
        rowChanged := true;
      }
    }

    /**
     * `board_state_update`: every row takes one debounce step against the
     * shared last frame, and the result tells whether some stable row
     * changed.
     */
    method Update(frame: seq<bv8>, last: array<bv8>) returns (changed: bool)
      requires Valid() && |frame| == ROWS && last.Length == ROWS && last != stable && last as object != accumSame as object
      modifies stable, accumSame, last
      ensures Valid()
      ensures forall r :: 0 <= r < ROWS ==>
        RowOf(r, last) == RowStep(Row(old(stable[r]), old(accumSame[r]), old(last[r])), frame[r], threshold)
      ensures changed <==> exists r :: 0 <= r < ROWS && stable[r] != old(stable[r])
    {
      changed := false;
      var r := 0;
      while r < ROWS
        invariant 0 <= r <= ROWS
        invariant forall k :: 0 <= k < r ==>
          RowOf(k, last) == RowStep(Row(old(stable[k]), old(accumSame[k]), old(last[k])), frame[k], threshold)
        invariant forall k :: r <= k < ROWS ==>
          stable[k] == old(stable[k]) && accumSame[k] == old(accumSame[k]) && last[k] == old(last[k])
        invariant changed <==> exists k :: 0 <= k < r && stable[k] != old(stable[k])
      {
        var rowChanged := UpdateRow(frame[r], last, r);
        changed := changed || rowChanged;
        r := r + 1;
      }
    }

    /** `board_state_copy`: the output holds exactly the stable rows. */
    method Copy(out: array<bv8>)
      requires Valid() && out.Length == ROWS
      modifies out
      ensures out[..] == old(stable[..])
    {
      forall r | 0 <= r < ROWS {
        out[r] := stable[r];
      }
    }
  }
  // ---------------------------------------------------------------------
  // Move detection
  // ---------------------------------------------------------------------

  /** `square_t`: row `y` and column `x`. */
  datatype Square = Square(y: int, x: int)
  /** `move_t`. */
  datatype Move = Move(from: Square, to: Square)

  /** The total number of occupied squares in the first `n` rows. */
  function Total(s: seq<bv8>, n: nat): nat
    requires n <= |s|
  {
    if n == 0 then 0 else Total(s, n - 1) + BitCount(s[n - 1])
  }

  /** Square `(r, c)` is occupied in `a` and empty in `b`. */
  predicate RemovedAt(a: seq<bv8>, b: seq<bv8>, r: nat, c: nat)
    requires |a| == ROWS && |b| == ROWS && r < ROWS && c < 8
  {
    Bit(a[r], c) && !Bit(b[r], c)
  }

  /** Row `r`, column `c` comes before the scan position `(row, col)`: the rows are scanned in order, each column by column. */
  predicate Before(r: nat, c: nat, row: nat, col: nat) {
    r < row || (r == row && c < col)
  }

  /**
   * The last square occupied in `a` and empty in `b` that a scan over rows,
   * then columns, meets before it reaches row `row`, column `col`.
   */
  function LastRemoved(a: seq<bv8>, b: seq<bv8>, row: nat, col: nat): Option<Square>
    requires |a| == ROWS && |b| == ROWS && row <= ROWS && col <= 8 && (row == ROWS ==> col == 0)
    decreases row, col
  {
    if col > 0 then
      (if RemovedAt(a, b, row, col - 1) then Some(Square(row, col - 1)) else LastRemoved(a, b, row, col - 1))
    else if row > 0 then LastRemoved(a, b, row - 1, 8)
    else None
  }

  /**
   * What `board_state_detect_move` reports: nothing when the numbers of
   * occupied squares differ; otherwise the last vacated and the last newly
   * occupied square, if both exist.
   */
  function Detected(prev: seq<bv8>, curr: seq<bv8>): (mv: Option<Move>)
    requires |prev| == ROWS && |curr| == ROWS
    ensures mv.Some? ==> Total(prev, ROWS) == Total(curr, ROWS)
    ensures mv.Some? ==> var f, t := mv.value.from, mv.value.to;
      0 <= f.y < ROWS && 0 <= f.x < 8 && RemovedAt(prev, curr, f.y, f.x)
      && 0 <= t.y < ROWS && 0 <= t.x < 8 && RemovedAt(curr, prev, t.y, t.x)
  {
    if Total(prev, ROWS) != Total(curr, ROWS) then None
    else
      LastRemovedSpec(prev, curr, ROWS, 0);
      LastRemovedSpec(curr, prev, ROWS, 0);
      var f := LastRemoved(prev, curr, ROWS, 0);
      var t := LastRemoved(curr, prev, ROWS, 0);
      if f.Some? && t.Some? then Some(Move(f.value, t.value)) else None
  }

  /**
   * The scan finds a vacated square exactly when one exists before the scan
   * position; the square it finds is vacated, and no square between it and
   * the scan position is.
   */
  lemma {:induction false} LastRemovedSpec(a: seq<bv8>, b: seq<bv8>, row: nat, col: nat)
    requires |a| == ROWS && |b| == ROWS && row <= ROWS && col <= 8 && (row == ROWS ==> col == 0)
    ensures var s := LastRemoved(a, b, row, col);
      (s.Some? <==> exists r, c :: 0 <= r < ROWS && 0 <= c < 8 && Before(r, c, row, col) && RemovedAt(a, b, r, c))
      && (s.Some? ==> 0 <= s.value.y < ROWS && 0 <= s.value.x < 8 && Before(s.value.y, s.value.x, row, col)
                      && RemovedAt(a, b, s.value.y, s.value.x)
                      && (forall r, c ::
                            0 <= r < ROWS && 0 <= c < 8 && Before(r, c, row, col) && Before(s.value.y, s.value.x, r, c)
                            ==> !RemovedAt(a, b, r, c)))
    decreases row, col
  {
    if col > 0 {
      LastRemovedSpec(a, b, row, col - 1);
    } else if row > 0 {
      LastRemovedSpec(a, b, row - 1, 8);
    }
  }

  /** Two bytes with the same bits are equal. */
  lemma BitsDetermine(v: bv8, w: bv8)
    requires forall c :: 0 <= c < 8 ==> Bit(v, c) == Bit(w, c)
    ensures v == w
  {
    assert Bit(v, 0) == Bit(w, 0) && Bit(v, 1) == Bit(w, 1) && Bit(v, 2) == Bit(w, 2) && Bit(v, 3) == Bit(w, 3);
    assert Bit(v, 4) == Bit(w, 4) && Bit(v, 5) == Bit(w, 5) && Bit(v, 6) == Bit(w, 6) && Bit(v, 7) == Bit(w, 7);
  }

  /** If every bit of `v` is set in `w`, `w` has at least as many bits, and more if some bit differs. */
  lemma {:induction false} CountBelowGrows(v: bv8, w: bv8, n: nat)
    requires n <= 8
    requires forall c :: 0 <= c < n && Bit(v, c) ==> Bit(w, c)
    ensures CountBelow(v, n) <= CountBelow(w, n)
    ensures (exists c :: 0 <= c < n && Bit(v, c) != Bit(w, c)) ==> CountBelow(v, n) < CountBelow(w, n)
  {
    if n > 0 {
      CountBelowGrows(v, w, n - 1);
    }
  }

  /**
   * If no square is vacated in the first `n` rows, those rows of `b` hold at
   * least as many pieces as those of `a`, and more if some row differs.
   */
  lemma {:induction false} TotalGrows(a: seq<bv8>, b: seq<bv8>, n: nat)
    requires |a| == ROWS && |b| == ROWS && n <= ROWS
    requires forall r, c :: 0 <= r < n && 0 <= c < 8 ==> !RemovedAt(a, b, r, c)
    ensures Total(a, n) <= Total(b, n)
    ensures (exists r :: 0 <= r < n && a[r] != b[r]) ==> Total(a, n) < Total(b, n)
  {
    if n > 0 {
      TotalGrows(a, b, n - 1);
      var r := n - 1;
      forall c | 0 <= c < 8 && Bit(a[r], c)
        ensures Bit(b[r], c)
      {
        assert !RemovedAt(a, b, r, c);
      }
      CountBelowGrows(a[r], b[r], 8);
      if a[r] != b[r] && forall c :: 0 <= c < 8 ==> Bit(a[r], c) == Bit(b[r], c) {
        BitsDetermine(a[r], b[r]);
      }
    }
  }

  /** With equal totals and different frames, some square was vacated. */
  lemma SomeRemoved(a: seq<bv8>, b: seq<bv8>)
    requires |a| == ROWS && |b| == ROWS && Total(a, ROWS) == Total(b, ROWS) && a != b
    ensures exists r, c :: 0 <= r < ROWS && 0 <= c < 8 && RemovedAt(a, b, r, c)
  {
    if forall r, c :: 0 <= r < ROWS && 0 <= c < 8 ==> !RemovedAt(a, b, r, c) {
      assert exists r :: 0 <= r < ROWS && a[r] != b[r];
      TotalGrows(a, b, ROWS);
      assert false;
    }
  }

  /**
   * `board_state_detect_move` reports a move exactly when the two frames
   * hold the same number of pieces and differ.
   */
  lemma DetectedIff(prev: seq<bv8>, curr: seq<bv8>)
    requires |prev| == ROWS && |curr| == ROWS
    ensures Detected(prev, curr).Some? <==> Total(prev, ROWS) == Total(curr, ROWS) && prev != curr
  {
    LastRemovedSpec(prev, curr, ROWS, 0);
    LastRemovedSpec(curr, prev, ROWS, 0);
    if Total(prev, ROWS) == Total(curr, ROWS) && prev != curr {
      SomeRemoved(prev, curr);
      SomeRemoved(curr, prev);
    }
  }

  /**
   * The reported move starts on a square that was occupied and is now
   * empty, ends on one that was empty and is now occupied, and each is the
   * last such square in row-then-column order.
   */
  lemma DetectedSquares(prev: seq<bv8>, curr: seq<bv8>)
    requires |prev| == ROWS && |curr| == ROWS && Detected(prev, curr).Some?
    ensures var m := Detected(prev, curr).value;
      0 <= m.from.y < ROWS && 0 <= m.from.x < 8 && 0 <= m.to.y < ROWS && 0 <= m.to.x < 8
      && Bit(prev[m.from.y], m.from.x) && !Bit(curr[m.from.y], m.from.x)
      && !Bit(prev[m.to.y], m.to.x) && Bit(curr[m.to.y], m.to.x)
      && (forall r, c :: 0 <= r < ROWS && 0 <= c < 8 && Before(m.from.y, m.from.x, r, c) ==> !RemovedAt(prev, curr, r, c))
      && (forall r, c :: 0 <= r < ROWS && 0 <= c < 8 && Before(m.to.y, m.to.x, r, c) ==> !RemovedAt(curr, prev, r, c))
  {
    LastRemovedSpec(prev, curr, ROWS, 0);
    LastRemovedSpec(curr, prev, ROWS, 0);
  }

  /** A bit of an exclusive or, picked out with a one-bit mask, is set where the two bytes differ. */
  lemma XorMask(p: bv8, q: bv8, m: bv8)
    requires m != 0 && m & (m - 1) == 0
    ensures ((p ^ q) & m != 0) <==> ((p & m != 0) != (q & m != 0))
  {
  }

  /** A bit of the exclusive or of two row bytes is set where the two differ. */
  lemma XorTest(p: bv8, q: bv8, c: nat)
    requires c < 8
    ensures Bit(p ^ q, c) <==> Bit(p, c) != Bit(q, c)
  {
    assert BitMask(c) != 0 && BitMask(c) & (BitMask(c) - 1) == 0;
    XorMask(p, q, BitMask(c));
  }

  /** A row pair whose exclusive or is zero. */
  lemma XorZero(p: bv8, q: bv8)
    requires p ^ q == 0
    ensures p == q
  {
  }

  /** The `move_t` that `out` points to. */
  class MoveSlot {
    var move: Move
    constructor (m: Move)
      ensures move == m
    {
      move := m;
    }
  }

  /** The square a pair of row and column counters holds: none while the row is still -1. */
  function Found(r: int, c: int): Option<Square> {
    if r < 0 then None else Some(Square(r, c))
  }

  /** A row in which nothing changed adds no vacated square to the scan. */
  lemma {:induction false} LastRemovedSameRow(a: seq<bv8>, b: seq<bv8>, r: nat, c: nat)
    requires |a| == ROWS && |b| == ROWS && r < ROWS && c <= 8 && a[r] == b[r]
    ensures LastRemoved(a, b, r, c) == LastRemoved(a, b, r, 0)
    decreases c
  {
    if c > 0 {
      LastRemovedSameRow(a, b, r, c - 1);
    }
  }

  /** The end of a row's scan is the start of the next one's. */
  lemma NextRow(a: seq<bv8>, b: seq<bv8>, r: nat)
    requires |a| == ROWS && |b| == ROWS && r < ROWS
    ensures LastRemoved(a, b, r + 1, 0) == LastRemoved(a, b, r, 8)
  {
  }

  /** The number of occupied squares of a frame, summed row by row with `popcnt8`. */
  method CountOn(frame: seq<bv8>, r: nat, on: int) returns (next: int)
    requires |frame| == ROWS && r < ROWS && on == Total(frame, r)
    ensures next == Total(frame, r + 1)
  {
    Popcnt8Counts(frame[r]);
    next := on + Popcnt8(frame[r]);
  }

  /**
   * One column of `detect_move`'s scan of row `r`: a bit that differs
   * between the frames records the square as the last vacated or the last
   * newly occupied one.
   */
  method ScanColumn(prev: seq<bv8>, curr: seq<bv8>, r: nat, c: nat, diff: bv8,
                    fromR: int, fromC: int, toR: int, toC: int)
    returns (fromR': int, fromC': int, toR': int, toC': int)
    requires |prev| == ROWS && |curr| == ROWS && r < ROWS && c < 8 && diff == prev[r] ^ curr[r]
    requires Found(fromR, fromC) == LastRemoved(prev, curr, r, c)
    requires Found(toR, toC) == LastRemoved(curr, prev, r, c)
    ensures Found(fromR', fromC') == LastRemoved(prev, curr, r, c + 1)
    ensures Found(toR', toC') == LastRemoved(curr, prev, r, c + 1)
  {
    XorTest(prev[r], curr[r], c);
    fromR', fromC', toR', toC' := fromR, fromC, toR, toC;
    if diff & BitMask(c) != 0 {
      var was := prev[r] & BitMask(c) != 0;
      var now := curr[r] & BitMask(c) != 0;
      if was && !now {
        fromR', fromC' := r, c;
      }
      if !was && now {
        toR', toC' := r, c;
      }
    }
  }

  /**
   * `board_state_detect_move`: counts the pieces of both frames with
   * `popcnt8`, gives up when they differ, and otherwise scans rows and
   * columns for the last vacated and the last newly occupied square. `out`
   * is written only when both exist.
   */
  method DetectMove(prev: seq<bv8>, curr: seq<bv8>, out: MoveSlot) returns (found: bool)
    requires |prev| == ROWS && |curr| == ROWS
    modifies out
    ensures found <==> Detected(prev, curr).Some?
    ensures found ==> out.move == Detected(prev, curr).value
    ensures !found ==> out.move == old(out.move)
  {
    var prevOn, currOn := 0, 0;
    var r := 0;
    while r < ROWS
      invariant 0 <= r <= ROWS
      invariant prevOn == Total(prev, r) && currOn == Total(curr, r)
      invariant out.move == old(out.move)
    {
      prevOn := CountOn(prev, r, prevOn);
      currOn := CountOn(curr, r, currOn);
      r := r + 1;
    }
    if prevOn != currOn {
      return false;
    }
    var fromR, fromC, toR, toC := -1, -1, -1, -1;
    r := 0;
    while r < ROWS
      invariant 0 <= r <= ROWS
      invariant Found(fromR, fromC) == LastRemoved(prev, curr, r, 0)
      invariant Found(toR, toC) == LastRemoved(curr, prev, r, 0)
      invariant out.move == old(out.move)
    {
      var diff := prev[r] ^ curr[r];
      if diff == 0 {
        XorZero(prev[r], curr[r]);
        LastRemovedSameRow(prev, curr, r, 8);
        LastRemovedSameRow(curr, prev, r, 8);
      } else {
        var c := 0;
        while c < 8
          invariant 0 <= c <= 8
          invariant Found(fromR, fromC) == LastRemoved(prev, curr, r, c)
          invariant Found(toR, toC) == LastRemoved(curr, prev, r, c)
          invariant out.move == old(out.move)
        {
          fromR, fromC, toR, toC := ScanColumn(prev, curr, r, c, diff, fromR, fromC, toR, toC);
          c := c + 1;
        }
      }
      NextRow(prev, curr, r);
      NextRow(curr, prev, r);
      r := r + 1;
    }
    if fromR >= 0 && toR >= 0 {
      out.move := Move(Square(fromR, fromC), Square(toR, toC));
      return true;
    }
    return false;
  }
}
