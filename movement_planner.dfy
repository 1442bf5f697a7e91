/**
 * The movement planner: chess squares parsed from text and mapped to
 * absolute step coordinates, and each chess action decomposed into an
 * ordered script of pickup, place and graveyard primitives that is sent to
 * the gantry one command at a time and abandoned at the first motion
 * command the gantry refuses.
 *
 * The gantry calls the planner makes (`robot_controller_start_xy_move`,
 * `start_z_move`, the gripper calls, the two wait loops and the fixed
 * delays) are recorded, in call order, in the log of a `Gantry`; what a
 * motion start returns is an input of the model, a function of the position
 * the command takes in that log.
 */
module MovementPlanner {
  import opened Wrappers

  type u8 = x: int | 0 <= x < 256

  /** `robot_config.h`: the geometry of the board and the gantry. */
  const STEPS_PER_MM: int := 20
  const SQUARE_SIZE_MM: int := 70
  const STEPS_PER_SQUARE: int := STEPS_PER_MM * SQUARE_SIZE_MM
  const BOARD_ORIGIN_X: int := 0
  const BOARD_ORIGIN_Y: int := 0
  const Z_TRAVEL: int := 0
  const Z_PICK: int := 2000
  const Z_PLACE: int := 1900
  const GRAVEYARD_X: int := -500
  const GRAVEYARD_Y: int := 0
  const SPEED_TRAVEL_US: nat := 800
  const SPEED_Z_US: nat := 1200
  const GRIPPER_OPEN_DELAY_MS: nat := 200
  const GRIPPER_CLOSE_DELAY_MS: nat := 300

  /** `planner_result_t`. */
  const PLANNER_OK: int := 0
  const PLANNER_ERR_BUSY: int := -1
  const PLANNER_ERR_INVALID: int := -2
  const PLANNER_ERR_MOTOR: int := -3

  /** `chess_square_t`: file 0 is a, rank 0 is rank 1. */
  datatype Square = Square(file: u8, rank: u8)

  // ---------------------------------------------------------------------
  // Parsing squares
  // ---------------------------------------------------------------------

  predicate IsUpperFile(c: char) { 'A' <= c <= 'H' }
  predicate IsLowerFile(c: char) { 'a' <= c <= 'h' }
  predicate IsRank(c: char) { '1' <= c <= '8' }

  /** The file letter as `parse_square` compares it: upper-case a–h folded to lower case. */
  function FoldFile(c: char): (d: char)
    ensures IsUpperFile(c) ==> IsLowerFile(d) && d as int - 'a' as int == c as int - 'A' as int
    ensures !IsUpperFile(c) ==> d == c
  {
    if IsUpperFile(c) then (c as int - 'A' as int + 'a' as int) as char else c
  }

  /**
   * `movement_planner_parse_square`: `None` stands for the return value -1
   * (and `out` left alone), `Some(sq)` for 0 with `sq` written to `out`.
   * A C string is the sequence of its characters before the terminator.
   */
  function ParseSquare(str: Option<string>): (r: Option<Square>)
    ensures r.Some? ==> r.value.file < 8 && r.value.rank < 8
  {
    if str.None? then None
    else
      var s := str.value;
      if |s| < 2 || s[0] == '\0' || s[1] == '\0' then None
      else
        var fileCh := FoldFile(s[0]);
        if fileCh < 'a' || fileCh > 'h' then None
        else if s[1] < '1' || s[1] > '8' then None
        else Some(Square(fileCh as int - 'a' as int, s[1] as int - '1' as int))
  }

  /** The two-character name of a square on the board: its file letter, then its rank digit. */
  function SquareName(sq: Square): (s: string)
    requires sq.file < 8 && sq.rank < 8
    ensures |s| == 2 && IsLowerFile(s[0]) && IsRank(s[1])
  {
    [('a' as int + sq.file) as char, ('1' as int + sq.rank) as char]
  }

  /**
   * A string is accepted exactly when it has a file letter in a–h or A–H
   * followed by a rank digit in 1–8; the square then counts from a and
   * from 1, and whatever follows the two characters is ignored.
   */
  lemma ParseSquareAccepts(s: string)
    ensures ParseSquare(Some(s)).Some? <==>
      |s| >= 2 && (IsLowerFile(s[0]) || IsUpperFile(s[0])) && IsRank(s[1])
    ensures ParseSquare(Some(s)).Some? ==>
      var sq := ParseSquare(Some(s)).value;
      sq.file == FoldFile(s[0]) as int - 'a' as int && sq.rank == s[1] as int - '1' as int
      && ParseSquare(Some(s[..2])) == ParseSquare(Some(s))
  {
  }

  /** `None`, the empty string, one character, and out-of-range characters are refused. */
  lemma ParseSquareRejects(s: string)
    ensures ParseSquare(None) == None
    ensures |s| < 2 ==> ParseSquare(Some(s)) == None
    ensures ParseSquare(Some("i9")) == None && ParseSquare(Some("a0")) == None && ParseSquare(Some("a9")) == None
    ensures |s| >= 2 && !IsRank(s[1]) ==> ParseSquare(Some(s)) == None
  {
  }

  /** Naming a square and parsing the name, with anything after it, gives the square back. */
  lemma ParseSquareName(sq: Square, rest: string)
    requires sq.file < 8 && sq.rank < 8
    ensures ParseSquare(Some(SquareName(sq) + rest)) == Some(sq)
  {
    var s := SquareName(sq) + rest;
    assert s[0] == SquareName(sq)[0] && s[1] == SquareName(sq)[1];
  }

  /** Parsing and renaming a square reproduces its first two characters with the file in lower case. */
  lemma NameOfParsedSquare(s: string)
    requires ParseSquare(Some(s)).Some?
    ensures SquareName(ParseSquare(Some(s)).value) == [FoldFile(s[0]), s[1]]
  {
    var sq := ParseSquare(Some(s)).value;
    assert SquareName(sq)[0] == FoldFile(s[0]);
    assert SquareName(sq)[1] == s[1];
  }

  // ---------------------------------------------------------------------
  // Coordinates
  // ---------------------------------------------------------------------

  /** `file_to_x`: the X step coordinate of the centre of a file. */
  function FileToX(file: u8): (x: int)
    ensures x >= BOARD_ORIGIN_X
    ensures file > 0 ==> x == FileToX(file - 1) + STEPS_PER_SQUARE
  {
    BOARD_ORIGIN_X + file * STEPS_PER_SQUARE
  }

  /** `rank_to_y`: the Y step coordinate of the centre of a rank. */
  function RankToY(rank: u8): (y: int)
    ensures y >= BOARD_ORIGIN_Y
    ensures rank > 0 ==> y == RankToY(rank - 1) + STEPS_PER_SQUARE
  {
    BOARD_ORIGIN_Y + rank * STEPS_PER_SQUARE
  }

  /**
   * Neighbouring files and ranks lie one square (1400 steps) apart, the
   * coordinates grow strictly with the file and the rank, the board fits
   * within a signed 32-bit coordinate, and the graveyard lies off the board
   * to the left of file a.
   */
  lemma CoordinatesIncrease(a: u8, b: u8)
    ensures a < b ==> FileToX(a) < FileToX(b) && RankToY(a) < RankToY(b)
    ensures b == a + 1 ==> FileToX(b) - FileToX(a) == 1400 && RankToY(b) - RankToY(a) == 1400
    ensures 0 <= FileToX(a) < 0x8000_0000 && 0 <= RankToY(a) < 0x8000_0000
    ensures GRAVEYARD_X < FileToX(a)
  {
  }

  // ---------------------------------------------------------------------
  // Command scripts
  // ---------------------------------------------------------------------

  /** A call the planner makes on the gantry. */
  datatype Command =
    | StartXy(x: int, y: int, speedUs: nat)   // `robot_controller_start_xy_move`
    | StartZ(z: int, speedUs: nat)            // `robot_controller_start_z_move`
    | WaitXy                                  // `wait_xy`: poll until X and Y are idle
    | WaitZ                                   // `wait_z`: poll until Z is idle
    | GripperOpen                             // `robot_controller_gripper_open`, result ignored
    | GripperClose                            // `robot_controller_gripper_close`, result ignored
    | Delay(ms: nat)                          // `k_msleep`

  /** The commands whose negative return value makes the planner give up. */
  predicate IsStart(c: Command) {
    c.StartXy? || c.StartZ?
  }

  /** A script of calls, first call first. */
  datatype Script = Done | Then(cmd: Command, rest: Script)

  /** The calls of a script, in order. */
  function Calls(s: Script): seq<Command> {
    match s
    case Done => []
    case Then(c, r) => [c] + Calls(r)
  }

  /** One script followed by another. */
  function Concat(a: Script, b: Script): (s: Script)
    ensures Calls(s) == Calls(a) + Calls(b)
  {
    match a
    case Done => b
    case Then(c, r) => Then(c, Concat(r, b))
  }

  /**
   * The log after script `s` has been run on a gantry whose log was `log`,
   * where `reply(j)` is what the call at position `j` of the log returns:
   * the script is issued up to and including its first refused motion start.
   */
  function Run(log: seq<Command>, s: Script, reply: nat -> int): seq<Command>
    decreases s
  {
    match s
    case Done => log
    case Then(c, r) =>
      if IsStart(c) && reply(|log|) < 0 then log + [c] else Run(log + [c], r, reply)
  }

  /** True when no motion start of `s`, run after `log`, is refused. */
  predicate Completes(log: seq<Command>, s: Script, reply: nat -> int)
    decreases s
  {
    match s
    case Done => true
    case Then(c, r) => (!IsStart(c) || reply(|log|) >= 0) && Completes(log + [c], r, reply)
  }

  /**
   * A run extends the log by a prefix of the script's calls, all of them
   * when no start is refused.
   */
  lemma {:induction false} RunIsPrefix(log: seq<Command>, s: Script, reply: nat -> int)
    ensures var r := Run(log, s, reply);
      log <= r && r[|log|..] <= Calls(s)
      && (Completes(log, s, reply) ==> r == log + Calls(s))
    decreases s
  {
    match s
    case Done =>
      assert log + [] == log;
    case Then(c, rest) =>
      var r := Run(log, s, reply);
      if IsStart(c) && reply(|log|) < 0 {
        assert r[|log|..] == [c];
      } else {
        var next := log + [c];
        RunIsPrefix(next, rest, reply);
        assert r[|log|..] == [c] + r[|next|..];
        assert next + Calls(rest) == log + Calls(s);
      }
  }

  /**
   * A run that does not complete ends with the refused start, and every
   * start it issued before that was accepted: no refusal is ignored.
   */
  lemma {:induction false} RunStopsAtRefusal(log: seq<Command>, s: Script, reply: nat -> int)
    ensures var r := Run(log, s, reply);
      |log| <= |r| && r[..|log|] == log
      && (!Completes(log, s, reply) ==> |r| > |log| && IsStart(r[|r| - 1]) && reply(|r| - 1) < 0)
      && (forall k :: |log| <= k < |r| - 1 && IsStart(r[k]) ==> reply(k) >= 0)
    decreases s
  {
    match s
    case Done =>
    case Then(c, rest) =>
      var r := Run(log, s, reply);
      if !(IsStart(c) && reply(|log|) < 0) {
        var next := log + [c];
        RunStopsAtRefusal(next, rest, reply);
        assert r[|log|] == next[|log|] == c;
      }
  }

  /**
   * Running two scripts one after the other, the second only when the first
   * completed, gives what running them as one script gives.
   */
  lemma {:induction false} RunConcat(log: seq<Command>, a: Script, b: Script, reply: nat -> int)
    ensures Run(log, Concat(a, b), reply) ==
      if Completes(log, a, reply) then Run(log + Calls(a), b, reply) else Run(log, a, reply)
    ensures Completes(log, Concat(a, b), reply) <==>
      Completes(log, a, reply) && Completes(log + Calls(a), b, reply)
    decreases a
  {
    match a
    case Done =>
      assert log + [] == log;
    case Then(c, rest) =>
      RunConcat(log + [c], rest, b, reply);
      assert log + [c] + Calls(rest) == log + Calls(a);
  }

  /** The calls of `do_pickup` at the given square. */
  function PickupScript(sq: Square): Script {
    Then(StartXy(FileToX(sq.file), RankToY(sq.rank), SPEED_TRAVEL_US), Then(WaitXy,
    Then(StartZ(Z_PICK, SPEED_Z_US), Then(GripperOpen, Then(WaitZ, Then(Delay(GRIPPER_OPEN_DELAY_MS),
    Then(GripperClose, Then(Delay(GRIPPER_CLOSE_DELAY_MS),
    Then(StartZ(Z_TRAVEL, SPEED_Z_US), Then(WaitZ, Done))))))))))
  }

  /** The calls of `do_place` and `do_place_at_graveyard`, at absolute coordinates. */
  function PlaceAtScript(x: int, y: int): Script {
    Then(StartXy(x, y, SPEED_TRAVEL_US), Then(WaitXy,
    Then(StartZ(Z_PLACE, SPEED_Z_US), Then(WaitZ, Then(GripperOpen, Then(Delay(GRIPPER_OPEN_DELAY_MS),
    Then(StartZ(Z_TRAVEL, SPEED_Z_US), Then(WaitZ, Done))))))))
  }

  function PlaceScript(sq: Square): Script {
    PlaceAtScript(FileToX(sq.file), RankToY(sq.rank))
  }

  function GraveyardScript(): Script {
    PlaceAtScript(GRAVEYARD_X, GRAVEYARD_Y)
  }

  /**
   * The calls of a pickup and a place, flattened: the XY transit first, one
   * descent (to the pick height with the gripper opening, or to the lower
   * place height with the gripper closed), the gripper closed or opened
   * there, and the rise back to travel height last.
   */
  lemma PrimitiveCalls(sq: Square, x: int, y: int)
    ensures Calls(PickupScript(sq)) ==
      [StartXy(FileToX(sq.file), RankToY(sq.rank), SPEED_TRAVEL_US), WaitXy,
       StartZ(Z_PICK, SPEED_Z_US), GripperOpen, WaitZ, Delay(GRIPPER_OPEN_DELAY_MS),
       GripperClose, Delay(GRIPPER_CLOSE_DELAY_MS), StartZ(Z_TRAVEL, SPEED_Z_US), WaitZ]
    ensures Calls(PlaceAtScript(x, y)) ==
      [StartXy(x, y, SPEED_TRAVEL_US), WaitXy, StartZ(Z_PLACE, SPEED_Z_US), WaitZ,
       GripperOpen, Delay(GRIPPER_OPEN_DELAY_MS), StartZ(Z_TRAVEL, SPEED_Z_US), WaitZ]
    ensures Z_TRAVEL < Z_PLACE < Z_PICK
  {
    var p := PickupScript(sq);
    assert Calls(p.rest.rest.rest.rest.rest) ==
      [Delay(GRIPPER_OPEN_DELAY_MS), GripperClose, Delay(GRIPPER_CLOSE_DELAY_MS), StartZ(Z_TRAVEL, SPEED_Z_US), WaitZ];
    var q := PlaceAtScript(x, y);
    assert Calls(q.rest.rest.rest.rest) == [GripperOpen, Delay(GRIPPER_OPEN_DELAY_MS), StartZ(Z_TRAVEL, SPEED_Z_US), WaitZ];
  }

  /** `planner_action_t`; `kind` is the raw `planner_action_type_t` value. */
  datatype Action = Action(kind: int, from: Square, to: Square, captured: Square, from2: Square, to2: Square)

  /**
   * The primitives `movement_planner_execute` runs for an action, in order,
   * as one script, or `None` for a type it does not know.
   */
  function ActionScript(a: Action): (r: Option<Script>)
    ensures r.Some? <==> 0 <= a.kind <= 4
  {
    match a.kind
    case 0 => Some(Concat(PickupScript(a.from), PlaceScript(a.to)))
    case 1 => Some(Concat(PickupScript(a.to), Concat(GraveyardScript(), Concat(PickupScript(a.from), PlaceScript(a.to)))))
    case 2 => Some(Concat(PickupScript(a.captured), Concat(GraveyardScript(), Concat(PickupScript(a.from), PlaceScript(a.to)))))
    case 3 => Some(Concat(PickupScript(a.from), Concat(PlaceScript(a.to), Concat(PickupScript(a.from2), PlaceScript(a.to2)))))
    case 4 => Some(Concat(PickupScript(a.from), GraveyardScript()))
    case _ => None
  }

  /**
   * After the first script of a sequence has been run, leaving `after`:
   * either it was refused and the sequence stops there, or it completed,
   * issuing all its calls, and the sequence goes on with the rest.
   */
  lemma RunThen(log: seq<Command>, a: Script, b: Script, reply: nat -> int, after: seq<Command>)
    requires after == Run(log, a, reply)
    ensures !Completes(log, a, reply) ==>
      Run(log, Concat(a, b), reply) == after && !Completes(log, Concat(a, b), reply)
    ensures Completes(log, a, reply) ==>
      after == log + Calls(a) && Run(log, Concat(a, b), reply) == Run(after, b, reply)
      && (Completes(log, Concat(a, b), reply) <==> Completes(after, b, reply))
  {
    RunConcat(log, a, b, reply);
    RunIsPrefix(log, a, reply);
  }

  /**
   * The primitives of each action type, flattened: MOVE picks up at `from`
   * and places at `to`; CAPTURE first carries the piece on `to` to the
   * graveyard; EN_PASSANT does the same with the pawn on `captured`; CASTLE
   * moves the rook from `from` to `to` and then the king from `from2` to
   * `to2`; REMOVE carries the piece on `from` to
   * the graveyard. An action that completes leaves exactly those calls in
   * the log.
   */
  lemma ActionCalls(a: Action, log: seq<Command>, reply: nat -> int)
    requires 0 <= a.kind <= 4
    ensures a.kind == 0 ==>
      Calls(ActionScript(a).value) == Calls(PickupScript(a.from)) + Calls(PlaceScript(a.to))
    ensures a.kind == 1 ==>
      Calls(ActionScript(a).value) ==
      Calls(PickupScript(a.to)) + Calls(GraveyardScript()) + Calls(PickupScript(a.from)) + Calls(PlaceScript(a.to))
    ensures a.kind == 2 ==>
      Calls(ActionScript(a).value) ==
      Calls(PickupScript(a.captured)) + Calls(GraveyardScript()) + Calls(PickupScript(a.from)) + Calls(PlaceScript(a.to))
    ensures a.kind == 3 ==>
      Calls(ActionScript(a).value) ==
      Calls(PickupScript(a.from)) + Calls(PlaceScript(a.to)) + Calls(PickupScript(a.from2)) + Calls(PlaceScript(a.to2))
    ensures a.kind == 4 ==>
      Calls(ActionScript(a).value) == Calls(PickupScript(a.from)) + Calls(GraveyardScript())
    ensures Completes(log, ActionScript(a).value, reply) ==>
      Run(log, ActionScript(a).value, reply) == log + Calls(ActionScript(a).value)
  {
    var s := ActionScript(a).value;
    if a.kind == 1 || a.kind == 2 || a.kind == 3 {
      var first := if a.kind == 1 then a.to else if a.kind == 2 then a.captured else a.from;
      var second, third := if a.kind == 3 then PlaceScript(a.to) else GraveyardScript(),
                           if a.kind == 3 then PickupScript(a.from2) else PickupScript(a.from);
      var fourth := if a.kind == 3 then PlaceScript(a.to2) else PlaceScript(a.to);
      assert s == Concat(PickupScript(first), Concat(second, Concat(third, fourth)));
      SeqAssoc4(Calls(PickupScript(first)), Calls(second), Calls(third), Calls(fourth));
    }
    RunIsPrefix(log, s, reply);
  }

  /** Regrouping four call lists joined one after the other. */
  lemma SeqAssoc4<T>(p: seq<T>, q: seq<T>, r: seq<T>, t: seq<T>)
    ensures p + (q + (r + t)) == p + q + r + t
  {
  }

  /**
   * The gantry as the planner sees it. `log` is every call made on it so
   * far; `reply(j)` is what the call at position `j` of the log returns
   * (only motion starts return a value the planner looks at).
   */
  class Gantry {
    var log: seq<Command>
    const reply: nat -> int

    constructor (reply: nat -> int)
      ensures log == [] && this.reply == reply
    {
      log := [];
      this.reply := reply;
    }

    /** `robot_controller_start_xy_move`. */
    method StartXyMove(x: int, y: int, speedUs: nat) returns (ret: int)
      modifies this
      ensures log == old(log) + [StartXy(x, y, speedUs)] && ret == reply(|old(log)|)
    {
      ret := reply(|log|);
      log := log + [StartXy(x, y, speedUs)];
    }

    /** `robot_controller_start_z_move`. */
    method StartZMove(z: int, speedUs: nat) returns (ret: int)
      modifies this
      ensures log == old(log) + [StartZ(z, speedUs)] && ret == reply(|old(log)|)
    {
      ret := reply(|log|);
      log := log + [StartZ(z, speedUs)];
    }

    /** Issues a call whose result is not looked at. */
    method Issue(c: Command)
      requires !IsStart(c)
      modifies this
      ensures log == old(log) + [c]
    {
      log := log + [c];
    }

    /** `do_pickup`: the pickup calls at `sq`, abandoned at the first refused start. */
    method DoPickup(sq: Square) returns (ret: int)
      modifies this
      ensures log == Run(old(log), PickupScript(sq), reply)
      ensures ret < 0 <==> !Completes(old(log), PickupScript(sq), reply)
      ensures ret >= 0 ==> ret == 0
    {
      ret := StartXyMove(FileToX(sq.file), RankToY(sq.rank), SPEED_TRAVEL_US);
      if ret < 0 {
        return;
      }
      Issue(WaitXy);
      ret := StartZMove(Z_PICK, SPEED_Z_US);
      if ret < 0 {
        return;
      }
      Issue(GripperOpen);
      Issue(WaitZ);
      Issue(Delay(GRIPPER_OPEN_DELAY_MS));
      Issue(GripperClose);
      Issue(Delay(GRIPPER_CLOSE_DELAY_MS));
      ret := StartZMove(Z_TRAVEL, SPEED_Z_US);
      if ret < 0 {
        return;
      }
      Issue(WaitZ);
      return 0;
    }

    /** `do_place` (at a square) and `do_place_at_graveyard` (at the graveyard): the place calls. */
    method DoPlaceAt(x: int, y: int) returns (ret: int)
      modifies this
      ensures log == Run(old(log), PlaceAtScript(x, y), reply)
      ensures ret < 0 <==> !Completes(old(log), PlaceAtScript(x, y), reply)
      ensures ret >= 0 ==> ret == 0
    {
      ret := StartXyMove(x, y, SPEED_TRAVEL_US);
      if ret < 0 {
        return;
      }
      Issue(WaitXy);
      ret := StartZMove(Z_PLACE, SPEED_Z_US);
      if ret < 0 {
        return;
      }
      Issue(WaitZ);
      Issue(GripperOpen);
      Issue(Delay(GRIPPER_OPEN_DELAY_MS));
      ret := StartZMove(Z_TRAVEL, SPEED_Z_US);
      if ret < 0 {
        return;
      }
      Issue(WaitZ);
      return 0;
    }

    /**
     * `movement_planner_execute`: `None` is a null action. A null action or
     * an unknown type is refused with no call made; otherwise the action's
     * primitives are run in order, and the first one that fails ends the
     * action with `PLANNER_ERR_MOTOR`.
     */
    method Execute(action: Option<Action>) returns (r: int)
      modifies this
      ensures action.None? || ActionScript(action.value).None? ==>
        r == PLANNER_ERR_INVALID && log == old(log)
      ensures action.Some? && ActionScript(action.value).Some? ==>
        var s := ActionScript(action.value).value;
        log == Run(old(log), s, reply)
        && r == (if Completes(old(log), s, reply) then PLANNER_OK else PLANNER_ERR_MOTOR)
    {
      if action.None? {
        return PLANNER_ERR_INVALID;
      }
      var a := action.value;
      ghost var log0 := log;
      var ret: int;
      match a.kind {
        case 0 =>
          ret := DoPickup(a.from);
          RunThen(log0, PickupScript(a.from), PlaceScript(a.to), reply, log);
          if ret < 0 {
            return PLANNER_ERR_MOTOR;
          }
          ret := DoPlace(a.to);
          if ret < 0 {
            return PLANNER_ERR_MOTOR;
          }
        case 1 =>
          ret := DoPickup(a.to);
          RunThen(log0, PickupScript(a.to), Concat(GraveyardScript(), Concat(PickupScript(a.from), PlaceScript(a.to))), reply, log);
          if ret < 0 {
            return PLANNER_ERR_MOTOR;
          }
          ghost var log1 := log;
          ret := DoPlaceAtGraveyard();
          RunThen(log1, GraveyardScript(), Concat(PickupScript(a.from), PlaceScript(a.to)), reply, log);
          if ret < 0 {
            return PLANNER_ERR_MOTOR;
          }
          ghost var log2 := log;
          ret := DoPickup(a.from);
          RunThen(log2, PickupScript(a.from), PlaceScript(a.to), reply, log);
          if ret < 0 {
            return PLANNER_ERR_MOTOR;
          }
          ret := DoPlace(a.to);
          if ret < 0 {
            return PLANNER_ERR_MOTOR;
          }
        case 2 =>
          ret := DoPickup(a.captured);
          RunThen(log0, PickupScript(a.captured), Concat(GraveyardScript(), Concat(PickupScript(a.from), PlaceScript(a.to))), reply, log);
          if ret < 0 {
            return PLANNER_ERR_MOTOR;
          }
          ghost var log1 := log;
          ret := DoPlaceAtGraveyard();
          RunThen(log1, GraveyardScript(), Concat(PickupScript(a.from), PlaceScript(a.to)), reply, log);
          if ret < 0 {
            return PLANNER_ERR_MOTOR;
          }
          ghost var log2 := log;
          ret := DoPickup(a.from);
          RunThen(log2, PickupScript(a.from), PlaceScript(a.to), reply, log);
          if ret < 0 {
            return PLANNER_ERR_MOTOR;
          }
          ret := DoPlace(a.to);
          if ret < 0 {
            return PLANNER_ERR_MOTOR;
          }
        case 3 =>
          ret := DoPickup(a.from);
          RunThen(log0, PickupScript(a.from), Concat(PlaceScript(a.to), Concat(PickupScript(a.from2), PlaceScript(a.to2))), reply, log);
          if ret < 0 {
            return PLANNER_ERR_MOTOR;
          }
          ghost var log1 := log;
          ret := DoPlace(a.to);
          RunThen(log1, PlaceScript(a.to), Concat(PickupScript(a.from2), PlaceScript(a.to2)), reply, log);
          if ret < 0 {
            return PLANNER_ERR_MOTOR;
          }
          ghost var log2 := log;
          ret := DoPickup(a.from2);
          RunThen(log2, PickupScript(a.from2), PlaceScript(a.to2), reply, log);
          if ret < 0 {
            return PLANNER_ERR_MOTOR;
          }
          ret := DoPlace(a.to2);
          if ret < 0 {
            return PLANNER_ERR_MOTOR;
          }
        case 4 =>
          ret := DoPickup(a.from);
          RunThen(log0, PickupScript(a.from), GraveyardScript(), reply, log);
          if ret < 0 {
            return PLANNER_ERR_MOTOR;
          }
          ret := DoPlaceAtGraveyard();
          if ret < 0 {
            return PLANNER_ERR_MOTOR;
          }
        case _ =>
          return PLANNER_ERR_INVALID;
      }
      return PLANNER_OK;
    }

    /** `do_place`. */
    method DoPlace(sq: Square) returns (ret: int)
      modifies this
      ensures log == Run(old(log), PlaceScript(sq), reply)
      ensures ret < 0 <==> !Completes(old(log), PlaceScript(sq), reply)
      ensures ret >= 0 ==> ret == 0
    {
      ret := DoPlaceAt(FileToX(sq.file), RankToY(sq.rank));
    }

    /** `do_place_at_graveyard`. */
    method DoPlaceAtGraveyard() returns (ret: int)
      modifies this
      ensures log == Run(old(log), GraveyardScript(), reply)
      ensures ret < 0 <==> !Completes(old(log), GraveyardScript(), reply)
      ensures ret >= 0 ==> ret == 0
    {
      ret := DoPlaceAt(GRAVEYARD_X, GRAVEYARD_Y);
    }
  }
}
