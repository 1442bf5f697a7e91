/**
 * The board manager: it keeps the current and the previous occupancy mask
 * of the board, and on every change of the scanned mask works out whether
 * one piece went from one square to another.
 *
 * The scan of the reed-switch matrix is an input: its return code and the
 * mask it produced. The uptime clock is the `now` argument; the move
 * timestamp and the update time are read at the same instant. The two
 * callbacks are recorded as registered or not, and what they are handed is
 * appended to `moveLog` and `stateLog`.
 */
module BoardManager {
  import opened Wrappers
  import opened BoardState
  import opened BoardMask

  type u32 = x: int | 0 <= x < 0x1_0000_0000

  const U32_MODULUS: int := 0x1_0000_0000

  /** `board_position_t`. */
  datatype Position = Position(row: u8, col: u8)

  /** `board_move_t`. */
  datatype BoardMove = BoardMove(from: Position, to: Position, timestamp: u32)

  /** `chess_board_state_t`. */
  datatype Snapshot = Snapshot(occupied: Mask, previous: Mask, lastUpdateTime: u32, moveCount: u32)

  /** The branch of `detect_and_report_move` a change falls into. */
  datatype ChangeKind = SingleMove | Castling | Capture | Complex | NoChange

  // ---------------------------------------------------------------------
  // The mask difference
  // ---------------------------------------------------------------------

  /** `changed = old ^ new`. */
  function Changed(o: Mask, n: Mask): Mask { Xor(o, n) }

  /** `removed = old & changed`. */
  function Removed(o: Mask, n: Mask): Mask { And(o, Changed(o, n)) }

  /** `added = new & changed`. */
  function Added(o: Mask, n: Mask): Mask { And(n, Changed(o, n)) }

  /**
   * A square is removed when it was occupied and is now empty, added when
   * it was empty and is now occupied, and changed when it is one of the two.
   */
  lemma DiffBits(o: Mask, n: Mask, i: nat)
    requires i < SQUARES
    ensures BitAt(Removed(o, n), i) <==> BitAt(o, i) && !BitAt(n, i)
    ensures BitAt(Added(o, n), i) <==> !BitAt(o, i) && BitAt(n, i)
    ensures BitAt(Changed(o, n), i) <==> BitAt(Removed(o, n), i) || BitAt(Added(o, n), i)
  {
    XorBit(o, n, i);
    AndBit(o, Changed(o, n), i);
    AndBit(n, Changed(o, n), i);
  }

  /** Which branch `detect_and_report_move` takes, by the numbers of removed and added squares. */
  function Classify(o: Mask, n: Mask): (k: ChangeKind)
    ensures k == NoChange ==> o == n
    ensures k == Complex ==> o != n
  {
    ChangedEmptyIff(o, n);
    var removedCount := PopCount(Removed(o, n));
    var addedCount := PopCount(Added(o, n));
    if removedCount == 1 && addedCount == 1 then SingleMove
    else if removedCount == 2 && addedCount == 2 then Castling
    else if removedCount == 2 && addedCount == 1 then Capture
    else if Changed(o, n) != EMPTY then Complex
    else NoChange
  }

  /** The square of bit index `i`: row `i / 8`, column `i % 8`. */
  function SquareOf(i: int): Position
    requires 0 <= i < SQUARES
  {
    Position(i / CHESS_BOARD_SIZE, i % CHESS_BOARD_SIZE)
  }

  /** The square of bit `i` reads occupied exactly when bit `i` is set. */
  lemma SquareOfBit(mask: Mask, i: nat)
    requires i < SQUARES
    ensures var p := SquareOf(i);
      p.row < CHESS_BOARD_SIZE && p.col < CHESS_BOARD_SIZE
      && p.row * CHESS_BOARD_SIZE + p.col == i
      && (IsSquareOccupied(mask, p.row, p.col) <==> BitAt(mask, i))
  {
  }

  /** A move between two bit indices: `from` was vacated, `to` was filled, and no other bit changed. */
  predicate OneMoveBetween(o: Mask, n: Mask, f: nat, t: nat)
    requires f < SQUARES && t < SQUARES
  {
    BitAt(o, f) && !BitAt(n, f) && !BitAt(o, t) && BitAt(n, t)
    && forall j :: 0 <= j < SQUARES && j != f && j != t ==> BitAt(o, j) == BitAt(n, j)
  }

  /**
   * What `detect_and_report_move` hands the move callback: the last removed
   * and the last added bit index that the scan from bit 0 to bit 63 meets,
   * each split into its row and column, when exactly one square was
   * removed and one added.
   */
  function ReportedMove(o: Mask, n: Mask, now: u32): (mv: Option<BoardMove>)
    ensures mv.Some? ==> Classify(o, n) == SingleMove && mv.value.timestamp == now
    ensures mv.Some? ==> var p, q := mv.value.from, mv.value.to;
      IsSquareOccupied(o, p.row, p.col) && !IsSquareOccupied(n, p.row, p.col)
      && !IsSquareOccupied(o, q.row, q.col) && IsSquareOccupied(n, q.row, q.col)
  {
    if Classify(o, n) != SingleMove then None
    else
      var f := LastSet(Removed(o, n), SQUARES);
      var t := LastSet(Added(o, n), SQUARES);
      if 0 <= f && 0 <= t then
        LastSetSpec(Removed(o, n), SQUARES);
        LastSetSpec(Added(o, n), SQUARES);
        DiffBits(o, n, f);
        DiffBits(o, n, t);
        SquareOfBit(o, f);
        SquareOfBit(n, f);
        SquareOfBit(o, t);
        SquareOfBit(n, t);
        Some(BoardMove(SquareOf(f), SquareOf(t), now))
      else None
  }

  /** The removed and added masks of a single move each have exactly one bit. */
  lemma OneMoveCounts(o: Mask, n: Mask, f: nat, t: nat)
    requires f < SQUARES && t < SQUARES && OneMoveBetween(o, n, f, t)
    ensures PopCount(Removed(o, n)) == 1 && PopCount(Added(o, n)) == 1
    ensures LastSet(Removed(o, n), SQUARES) == f && LastSet(Added(o, n), SQUARES) == t
  {
    forall j | 0 <= j < SQUARES
      ensures BitAt(Removed(o, n), j) <==> j == f
      ensures BitAt(Added(o, n), j) <==> j == t
    {
      DiffBits(o, n, j);
    }
    OnlyBitCountsOne(Removed(o, n), SQUARES, f);
    OnlyBitCountsOne(Added(o, n), SQUARES, t);
    CountOne(Removed(o, n), SQUARES);
    CountOne(Added(o, n), SQUARES);
  }

  /**
   * A move is reported exactly when the masks differ in one vacated and one
   * newly occupied square and nowhere else; it goes from the vacated to the
   * occupied square and carries the time of the update.
   */
  lemma ReportedMoveIff(o: Mask, n: Mask, now: u32)
    ensures ReportedMove(o, n, now).Some? <==> exists f, t :: 0 <= f < SQUARES && 0 <= t < SQUARES && OneMoveBetween(o, n, f, t)
    ensures ReportedMove(o, n, now).Some? <==> Classify(o, n) == SingleMove
    ensures forall f, t :: 0 <= f < SQUARES && 0 <= t < SQUARES && OneMoveBetween(o, n, f, t) ==>
      ReportedMove(o, n, now) == Some(BoardMove(SquareOf(f), SquareOf(t), now))
  {
    forall f, t | 0 <= f < SQUARES && 0 <= t < SQUARES && OneMoveBetween(o, n, f, t)
      ensures ReportedMove(o, n, now) == Some(BoardMove(SquareOf(f), SquareOf(t), now))
    {
      OneMoveCounts(o, n, f, t);
    }
    if Classify(o, n) == SingleMove {
      var f := LastSet(Removed(o, n), SQUARES);
      var t := LastSet(Added(o, n), SQUARES);
      CountOne(Removed(o, n), SQUARES);
      CountOne(Added(o, n), SQUARES);
      DiffBits(o, n, f);
      DiffBits(o, n, t);
      forall j | 0 <= j < SQUARES && j != f && j != t
        ensures BitAt(o, j) == BitAt(n, j)
      {
        DiffBits(o, n, j);
      }
      assert OneMoveBetween(o, n, f, t);
    }
  }

  /** The masks differ somewhere exactly when they are not equal. */
  lemma ChangedEmptyIff(o: Mask, n: Mask)
    ensures Changed(o, n) == EMPTY <==> o == n
  {
    if o == n {
      forall j | 0 <= j < SQUARES
        ensures !BitAt(Changed(o, n), j)
      {
        XorBit(o, n, j);
      }
      MasksDetermine(Changed(o, n), EMPTY);
    } else if Changed(o, n) == EMPTY {
      forall j | 0 <= j < SQUARES
        ensures BitAt(o, j) == BitAt(n, j)
      {
        XorBit(o, n, j);
        assert !BitAt(EMPTY, j);
      }
      MasksDetermine(o, n);
    }
  }

  /** Nothing was removed or added exactly when the masks are equal. */
  lemma NoChangeIff(o: Mask, n: Mask)
    ensures Classify(o, n) == NoChange <==> o == n
  {
    if o == n {
      forall j | 0 <= j < SQUARES
        ensures !BitAt(Removed(o, n), j) && !BitAt(Added(o, n), j) && !BitAt(Changed(o, n), j)
      {
        DiffBits(o, n, j);
      }
      CountZero(Removed(o, n), SQUARES);
      CountZero(Added(o, n), SQUARES);
      MasksDetermine(Changed(o, n), EMPTY);
    } else if Changed(o, n) == EMPTY {
      forall j | 0 <= j < SQUARES
        ensures BitAt(o, j) == BitAt(n, j)
      {
        XorBit(o, n, j);
        assert !BitAt(EMPTY, j);
      }
      MasksDetermine(o, n);
    }
  }

  // ---------------------------------------------------------------------
  // The bit scan
  // ---------------------------------------------------------------------

  /**
   * The loop over bits 0 to 63 of `detect_and_report_move`: every set bit
   * of `removed` overwrites `from` and every set bit of `added` overwrites
   * `to`, so each ends as the last set bit. It runs only when both masks
   * have a set bit; the fields of `move` are not initialised before it.
   */
  method ScanMove(removed: Mask, added: Mask) returns (from: Position, to: Position)
    requires PopCount(removed) >= 1 && PopCount(added) >= 1
    ensures 0 <= LastSet(removed, SQUARES) && from == SquareOf(LastSet(removed, SQUARES))
    ensures 0 <= LastSet(added, SQUARES) && to == SquareOf(LastSet(added, SQUARES))
  {
    from, to := Position(0, 0), Position(0, 0);
    var i := 0;
    while i < SQUARES
      invariant 0 <= i <= SQUARES
      invariant LastSet(removed, i) >= 0 ==> from == SquareOf(LastSet(removed, i))
      invariant LastSet(added, i) >= 0 ==> to == SquareOf(LastSet(added, i))
    {
      LastSetSpec(removed, i);
      LastSetSpec(added, i);
      if Bit(removed[i / CHESS_BOARD_SIZE], i % CHESS_BOARD_SIZE) {
        from := Position(i / CHESS_BOARD_SIZE, i % CHESS_BOARD_SIZE);
      }
      if Bit(added[i / CHESS_BOARD_SIZE], i % CHESS_BOARD_SIZE) {
        to := Position(i / CHESS_BOARD_SIZE, i % CHESS_BOARD_SIZE);
      }
      i := i + 1;
    }
    LastSetSpec(removed, SQUARES);
    LastSetSpec(added, SQUARES);
  }

  // ---------------------------------------------------------------------
  // The manager's state
  // ---------------------------------------------------------------------

  /** The board state after one successful scan that produced `scanned` at time `now`. */
  function NextState(s: Snapshot, scanned: Mask, now: u32): (t: Snapshot)
    ensures t.moveCount == s.moveCount || t.moveCount == (s.moveCount + 1) % U32_MODULUS
    ensures t.occupied == scanned && (t.lastUpdateTime == now || t == s)
  {
    if scanned == s.occupied then s
    else
      var count := if Classify(s.occupied, scanned) == SingleMove then (s.moveCount + 1) % U32_MODULUS else s.moveCount;
      Snapshot(scanned, s.occupied, now, count)
  }

  /**
   * An update that changes the mask moves the old mask into `previous`,
   * stores the new one and its time, and counts one move exactly when a
   * single move is seen (modulo 2^32); an update that finds the same mask
   * leaves everything as it was.
   */
  lemma NextStateSpec(s: Snapshot, scanned: Mask, now: u32)
    ensures var t := NextState(s, scanned, now);
      (scanned == s.occupied ==> t == s)
      && (scanned != s.occupied ==>
            t.occupied == scanned && t.previous == s.occupied && t.previous != t.occupied
            && t.lastUpdateTime == now
            && (t.moveCount == (s.moveCount + 1) % U32_MODULUS <==> ReportedMove(s.occupied, scanned, now).Some?)
            && (t.moveCount != s.moveCount <==> ReportedMove(s.occupied, scanned, now).Some?))
  {
    if scanned != s.occupied {
      ReportedMoveIff(s.occupied, scanned, now);
    }
  }

  /** Scanning the same board again changes nothing, whenever it happens. */
  lemma NextStateIdempotent(s: Snapshot, scanned: Mask, now: u32, later: u32)
    ensures NextState(NextState(s, scanned, now), scanned, later) == NextState(s, scanned, now)
  {
  }

  /** The state of the board manager, with its two callbacks and what they were handed. */
  class Manager {
    var occupied: Mask
    var previous: Mask
    var lastUpdateTime: u32
    var moveCount: u32
    var moveCallback: bool
    var stateCallback: bool
    /** Every move handed to the move callback, oldest first. */
    var moveLog: seq<BoardMove>
    /** Every state handed to the state callback, oldest first. */
    var stateLog: seq<Snapshot>

    /** `chess_board_state_t` as `board_manager_get_state` exposes it. */
    function State(): Snapshot
      reads this
    {
      Snapshot(occupied, previous, lastUpdateTime, moveCount)
    }

    /** The zero-initialised static state, no callbacks registered. */
    constructor ()
      ensures State() == Snapshot(EMPTY, EMPTY, 0, 0)
      ensures !moveCallback && !stateCallback && moveLog == [] && stateLog == []
    {
      occupied, previous := EMPTY, EMPTY;
      lastUpdateTime, moveCount := 0, 0;
      moveCallback, stateCallback := false, false;
      moveLog, stateLog := [], [];
    }

    /**
     * `board_manager_init`: the state is cleared; a driver or scan error is
     * returned as it is (a failed scan writes no mask); otherwise the scanned
     * mask becomes both the current and the previous mask.
     */
    method Init(driverRet: int, scanRet: int, scanned: Mask, now: u32) returns (ret: int)
      modifies this
      ensures driverRet < 0 ==> ret == driverRet && State() == Snapshot(EMPTY, EMPTY, 0, 0)
      ensures driverRet >= 0 && scanRet < 0 ==> ret == scanRet && State() == Snapshot(EMPTY, EMPTY, 0, 0)
      ensures driverRet >= 0 && scanRet >= 0 ==> ret == 0 && State() == Snapshot(scanned, scanned, now, 0)
      ensures moveCallback == old(moveCallback) && stateCallback == old(stateCallback)
      ensures moveLog == old(moveLog) && stateLog == old(stateLog)
    {
      occupied, previous := EMPTY, EMPTY;
      lastUpdateTime, moveCount := 0, 0;
      if driverRet < 0 {
        return driverRet;
      }
      if scanRet < 0 {
        return scanRet;
      }
      occupied := scanned;
      previous := occupied;
      lastUpdateTime := now;
      return 0;
    }

    /**
     * `detect_and_report_move`: on a single move the move goes to the move
     * callback, if one is registered, and the move counter goes up by one,
     * wrapping at 2^32; every other pattern of change is only logged.
     */
    method DetectAndReport(o: Mask, n: Mask, now: u32)
      modifies this
      ensures var m := ReportedMove(o, n, now);
        moveLog == old(moveLog) + (if m.Some? && moveCallback then [m.value] else [])
        && moveCount == (if m.Some? then (old(moveCount) + 1) % U32_MODULUS else old(moveCount))
      ensures occupied == old(occupied) && previous == old(previous) && lastUpdateTime == old(lastUpdateTime)
      ensures moveCallback == old(moveCallback) && stateCallback == old(stateCallback) && stateLog == old(stateLog)
    {
      var removed := Removed(o, n);
      var added := Added(o, n);
      var removedCount := PopCount(removed);
      var addedCount := PopCount(added);
      ReportedMoveIff(o, n, now);
      if removedCount == 1 && addedCount == 1 {
        var from, to := ScanMove(removed, added);
        var move := BoardMove(from, to, now);
        if moveCallback {
          moveLog := moveLog + [move];
        }
        moveCount := (moveCount + 1) % U32_MODULUS;
      }
    }

    /**
     * `board_manager_update`: a scan error is returned with nothing changed;
     * a scan that finds the mask unchanged does nothing; a changed mask is
     * diffed against the current one, becomes the current mask, and the new
     * state goes to the state callback, if one is registered.
     */
    method Update(scanRet: int, scanned: Mask, now: u32) returns (ret: int)
      modifies this
      ensures scanRet < 0 ==> ret == scanRet && State() == old(State())
      ensures scanRet < 0 || scanned == old(occupied) ==> moveLog == old(moveLog) && stateLog == old(stateLog)
      ensures scanRet >= 0 ==> ret == 0 && State() == NextState(old(State()), scanned, now)
      ensures scanRet >= 0 && scanned != old(occupied) ==>
        var m := ReportedMove(old(occupied), scanned, now);
        moveLog == old(moveLog) + (if m.Some? && moveCallback then [m.value] else [])
        && stateLog == old(stateLog) + (if stateCallback then [State()] else [])
      ensures moveCallback == old(moveCallback) && stateCallback == old(stateCallback)
    {
      if scanRet < 0 {
        return scanRet;
      }
      if scanned != occupied {
        ReportedMoveIff(occupied, scanned, now);
        DetectAndReport(occupied, scanned, now);
        previous := occupied;
        occupied := scanned;
        lastUpdateTime := now;
        assert State() == NextState(old(State()), scanned, now);
        if stateCallback {
          stateLog := stateLog + [State()];
        }
      }
      return 0;
    }

    /** `board_manager_get_state`. */
    function GetState(): (s: Snapshot)
      reads this
      ensures s.occupied == occupied && s.previous == previous
      ensures s.lastUpdateTime == lastUpdateTime && s.moveCount == moveCount
    {
      State()
    }

    /** `board_manager_register_move_callback`: a null callback unregisters it. */
    method RegisterMoveCallback(present: bool)
      modifies this
      ensures moveCallback == present && stateCallback == old(stateCallback)
      ensures State() == old(State()) && moveLog == old(moveLog) && stateLog == old(stateLog)
    {
      moveCallback := present;
    }

    /** `board_manager_register_state_callback`: a null callback unregisters it. */
    method RegisterStateCallback(present: bool)
      modifies this
      ensures stateCallback == present && moveCallback == old(moveCallback)
      ensures State() == old(State()) && moveLog == old(moveLog) && stateLog == old(stateLog)
    {
      stateCallback := present;
    }
  }
}
