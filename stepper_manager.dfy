/**
 * The stepper registry: a fixed table of motor slots indexed by stepper id,
 * filled by `Register` once the registry is initialised, and the loops that
 * tick, enable, stop and poll every registered motor. The two Y motors of
 * the gantry are ticked together.
 */
module StepperManager {
  import opened Errno
  import opened StepperMotor

  const MAX_STEPPER_MOTORS: nat := 8

  /*
   * Stepper ids, in the order the firmware's diagnostics list the axes.
   * The id enumeration the registry is compiled against names only X, Y, Z
   * and the gripper, yet the Y-pair logic uses separate Y1 and Y2 ids.
   */
  const X_AXIS: nat := 0
  const Y1_AXIS: nat := 1
  const Y2_AXIS: nat := 2
  const Z_AXIS: nat := 3
  const GRIPPER: nat := 4
  const STEPPER_ID_MAX: nat := 5

  /** One update call issued by `UpdateAll`: a single motor, or the Y pair together. */
  datatype Dispatch = Single(id: nat) | Pair(first: nat, second: nat)

  predicate Covers(d: Dispatch, id: nat) {
    match d
    case Single(k) => k == id
    case Pair(a, b) => a == id || b == id
  }

  /** How many dispatches in `s` update slot `id`. */
  function CoverCount(s: seq<Dispatch>, id: nat): nat {
    if s == [] then 0 else (if Covers(s[0], id) then 1 else 0) + CoverCount(s[1..], id)
  }

  /** The update calls the slot loop makes at slot `i`. */
  function StepDispatch(present: seq<bool>, i: nat, pairDone: bool): seq<Dispatch>
    requires |present| == MAX_STEPPER_MOTORS && i < MAX_STEPPER_MOTORS
  {
    if !present[i] then []
    else if !pairDone && i == Y1_AXIS && present[Y2_AXIS] then [Pair(Y1_AXIS, Y2_AXIS)]
    else if pairDone && i == Y2_AXIS then []
    else [Single(i)]
  }

  /** Whether the Y pair has been ticked once the slot loop is past slot `i`. */
  function StepPairDone(present: seq<bool>, i: nat, pairDone: bool): bool
    requires |present| == MAX_STEPPER_MOTORS && i < MAX_STEPPER_MOTORS
  {
    pairDone || (present[i] && i == Y1_AXIS && present[Y2_AXIS])
  }

  /**
   * The update calls the slot loop issues from slot `i` on, given which
   * slots hold a motor and whether the Y pair has already been ticked.
   */
  function ScheduleFrom(present: seq<bool>, i: nat, pairDone: bool): seq<Dispatch>
    requires |present| == MAX_STEPPER_MOTORS && i <= MAX_STEPPER_MOTORS
    decreases MAX_STEPPER_MOTORS - i
  {
    if i == MAX_STEPPER_MOTORS then []
    else StepDispatch(present, i, pairDone) + ScheduleFrom(present, i + 1, StepPairDone(present, i, pairDone))
  }

  function Schedule(present: seq<bool>): seq<Dispatch>
    requires |present| == MAX_STEPPER_MOTORS
  {
    ScheduleFrom(present, 0, false)
  }

  lemma {:induction false} CoverCountAppend(a: seq<Dispatch>, b: seq<Dispatch>, id: nat)
    ensures CoverCount(a + b, id) == CoverCount(a, id) + CoverCount(b, id)
  {
    if a == [] {
      assert a + b == b;
    } else {
      assert (a + b)[1..] == a[1..] + b;
      CoverCountAppend(a[1..], b, id);
    }
  }

  lemma {:induction false} ScheduleFromCovers(present: seq<bool>, i: nat, pairDone: bool, id: nat)
    requires |present| == MAX_STEPPER_MOTORS && i <= MAX_STEPPER_MOTORS && id < MAX_STEPPER_MOTORS
    requires pairDone ==> i > Y1_AXIS
    ensures CoverCount(ScheduleFrom(present, i, pairDone), id)
      == if id >= i && present[id] && !(pairDone && id == Y2_AXIS) then 1 else 0
    ensures Pair(Y1_AXIS, Y2_AXIS) in ScheduleFrom(present, i, pairDone)
      <==> !pairDone && i <= Y1_AXIS && present[Y1_AXIS] && present[Y2_AXIS]
    decreases MAX_STEPPER_MOTORS - i
  {
    if i < MAX_STEPPER_MOTORS {
      var step := StepDispatch(present, i, pairDone);
      var rest := ScheduleFrom(present, i + 1, StepPairDone(present, i, pairDone));
      ScheduleFromCovers(present, i + 1, StepPairDone(present, i, pairDone), id);
      CoverCountAppend(step, rest, id);
      StepDispatchCovers(present, i, pairDone, id);
    }
  }

  lemma StepDispatchCovers(present: seq<bool>, i: nat, pairDone: bool, id: nat)
    requires |present| == MAX_STEPPER_MOTORS && i < MAX_STEPPER_MOTORS
    ensures CoverCount(StepDispatch(present, i, pairDone), id)
      == if present[i] && !(pairDone && i == Y2_AXIS)
              && (id == i || (id == Y2_AXIS && !pairDone && i == Y1_AXIS && present[Y2_AXIS])) then 1 else 0
  {
    var step := StepDispatch(present, i, pairDone);
    if step != [] {
      assert step[1..] == [];
    }
  }

  /**
   * `update_all` ticks every registered motor exactly once; when both Y
   * motors are registered they are ticked together by one pair update and
   * never on their own, and no slot without a motor is touched.
   */
  lemma ScheduleCoversEachMotorOnce(present: seq<bool>, id: nat)
    requires |present| == MAX_STEPPER_MOTORS && id < MAX_STEPPER_MOTORS
    ensures CoverCount(Schedule(present), id) == if present[id] then 1 else 0
    ensures Pair(Y1_AXIS, Y2_AXIS) in Schedule(present) <==> present[Y1_AXIS] && present[Y2_AXIS]
    ensures present[Y1_AXIS] && present[Y2_AXIS] ==> Single(Y1_AXIS) !in Schedule(present) && Single(Y2_AXIS) !in Schedule(present)
  {
    ScheduleFromCovers(present, 0, false, id);
    ScheduleFromCovers(present, 0, false, Y1_AXIS);
    ScheduleFromCovers(present, 0, false, Y2_AXIS);
    if present[Y1_AXIS] && present[Y2_AXIS] {
      var s := Schedule(present);
      if Single(Y1_AXIS) in s {
        var k :| 0 <= k < |s| && s[k] == Single(Y1_AXIS);
        var p :| 0 <= p < |s| && s[p] == Pair(Y1_AXIS, Y2_AXIS);
        TwoCoveringEntries(s, k, p, Y1_AXIS);
      }
      if Single(Y2_AXIS) in s {
        var k :| 0 <= k < |s| && s[k] == Single(Y2_AXIS);
        var p :| 0 <= p < |s| && s[p] == Pair(Y1_AXIS, Y2_AXIS);
        TwoCoveringEntries(s, k, p, Y2_AXIS);
      }
    }
  }

  lemma {:induction false} TwoCoveringEntries(s: seq<Dispatch>, k: nat, p: nat, id: nat)
    requires k < |s| && p < |s| && k != p && Covers(s[k], id) && Covers(s[p], id)
    ensures CoverCount(s, id) >= 2
  {
    if k == 0 || p == 0 {
      OneCoveringEntry(s[1..], if k == 0 then p - 1 else k - 1, id);
    } else {
      TwoCoveringEntries(s[1..], k - 1, p - 1, id);
    }
  }

  lemma {:induction false} OneCoveringEntry(s: seq<Dispatch>, k: nat, id: nat)
    requires k < |s| && Covers(s[k], id)
    ensures CoverCount(s, id) >= 1
  {
    if k > 0 {
      OneCoveringEntry(s[1..], k - 1, id);
    }
  }

  /** Which of the slots `ss` hold a motor. */
  function Occupied(ss: seq<Motor?>): (p: seq<bool>)
    ensures |p| == |ss|
  {
    seq(|ss|, j requires 0 <= j < |ss| => ss[j] != null)
  }

  /**
   * The first slot, counting from `i`, that holds a motor whose enable pin
   * write fails (`MAX_STEPPER_MOTORS` when there is none).
   */
  function FirstEnableFailure(ss: seq<Motor?>, pinResults: seq<int>, i: nat): (k: nat)
    requires |ss| == MAX_STEPPER_MOTORS && |pinResults| == MAX_STEPPER_MOTORS && i <= MAX_STEPPER_MOTORS
    ensures i <= k <= MAX_STEPPER_MOTORS
    decreases MAX_STEPPER_MOTORS - i
  {
    if i == MAX_STEPPER_MOTORS then i
    else if ss[i] != null && pinResults[i] < 0 then i
    else FirstEnableFailure(ss, pinResults, i + 1)
  }

  /** The slot `FirstEnableFailure` finds fails, and no registered slot before it does. */
  lemma {:induction false} FirstEnableFailureIsFirst(ss: seq<Motor?>, pinResults: seq<int>, i: nat)
    requires |ss| == MAX_STEPPER_MOTORS && |pinResults| == MAX_STEPPER_MOTORS && i <= MAX_STEPPER_MOTORS
    ensures var k := FirstEnableFailure(ss, pinResults, i);
      (k < MAX_STEPPER_MOTORS ==> ss[k] != null && pinResults[k] < 0)
      && forall j :: i <= j < k ==> ss[j] == null || pinResults[j] >= 0
    decreases MAX_STEPPER_MOTORS - i
  {
    if i < MAX_STEPPER_MOTORS && !(ss[i] != null && pinResults[i] < 0) {
      FirstEnableFailureIsFirst(ss, pinResults, i + 1);
    }
  }

  /** After the calls `issued` of the first `i` slots and the call `step` of slot `i`, the rest of the schedule is what the later slots issue. */
  lemma ScheduleStep(present: seq<bool>, i: nat, pairDone: bool, issued: seq<Dispatch>, step: seq<Dispatch>, done: bool, full: seq<Dispatch>)
    requires |present| == MAX_STEPPER_MOTORS && i < MAX_STEPPER_MOTORS
    requires issued + ScheduleFrom(present, i, pairDone) == full
    requires step == StepDispatch(present, i, pairDone) && done == StepPairDone(present, i, pairDone)
    requires pairDone ==> i > Y1_AXIS
    ensures (issued + step) + ScheduleFrom(present, i + 1, done) == full
    ensures done ==> i + 1 > Y1_AXIS
  {
    var rest := ScheduleFrom(present, i + 1, done);
    ScheduleFromUnfold(present, i, pairDone);
    assert (issued + step) + rest == issued + (step + rest);
  }

  /** The schedule from slot `i` is slot `i`'s call followed by the schedule from the next slot. */
  lemma ScheduleFromUnfold(present: seq<bool>, i: nat, pairDone: bool)
    requires |present| == MAX_STEPPER_MOTORS && i < MAX_STEPPER_MOTORS
    ensures ScheduleFrom(present, i, pairDone)
      == StepDispatch(present, i, pairDone) + ScheduleFrom(present, i + 1, StepPairDone(present, i, pairDone))
  {
  }

  /** No motor is registered in two slots. */
  ghost predicate DistinctMotors(ss: seq<Motor?>) {
    forall a, b :: 0 <= a < |ss| && 0 <= b < |ss| && a != b && ss[a] != null ==> ss[a] != ss[b]
  }

  /** Every slot is covered by the whole schedule exactly when it holds a motor, and then once. */
  lemma ScheduleCoversAll(present: seq<bool>)
    requires |present| == MAX_STEPPER_MOTORS
    ensures forall j :: 0 <= j < MAX_STEPPER_MOTORS ==> CoverCount(Schedule(present), j) == if present[j] then 1 else 0
  {
    forall j | 0 <= j < MAX_STEPPER_MOTORS
      ensures CoverCount(Schedule(present), j) == if present[j] then 1 else 0
    {
      ScheduleCoversEachMotorOnce(present, j);
    }
  }

  /**
   * In the middle of the schedule, the calls made so far and the call of
   * the current slot never both cover a slot.
   */
  lemma StepCovers(present: seq<bool>, i: nat, pairDone: bool, issued: seq<Dispatch>, step: seq<Dispatch>, full: seq<Dispatch>)
    requires |present| == MAX_STEPPER_MOTORS && i < MAX_STEPPER_MOTORS
    requires full == Schedule(present)
    requires (issued + step) + ScheduleFrom(present, i + 1, StepPairDone(present, i, pairDone)) == full
    ensures forall j :: 0 <= j < MAX_STEPPER_MOTORS ==>
      CoverCount(issued + step, j) == CoverCount(issued, j) + CoverCount(step, j)
      && CoverCount(issued, j) + CoverCount(step, j) <= 1
  {
    var rest := ScheduleFrom(present, i + 1, StepPairDone(present, i, pairDone));
    ScheduleCoversAll(present);
    forall j | 0 <= j < MAX_STEPPER_MOTORS
      ensures CoverCount(issued + step, j) == CoverCount(issued, j) + CoverCount(step, j)
      ensures CoverCount(issued, j) + CoverCount(step, j) <= 1
    {
      CoverCountAppend(issued, step, j);
      CoverCountAppend(issued + step, rest, j);
    }
  }

  /** The fields of the motor in each slot (those of a new motor for an empty slot). */
  function Snapshots(ss: seq<Motor?>): (fs: seq<Fields>)
    reads set j | 0 <= j < |ss| && ss[j] != null :: ss[j]
    ensures |fs| == |ss|
    ensures forall j :: 0 <= j < |ss| ==> fs[j] == if ss[j] != null then ss[j].Snapshot() else Created
  {
    seq(|ss|, j reads set j | 0 <= j < |ss| && ss[j] != null :: ss[j] requires 0 <= j < |ss| =>
      if ss[j] != null then ss[j].Snapshot() else Created)
  }

  /** The fields `before` after each slot covered by one of the calls `issued` was ticked once at `nowMs`. */
  function TickedBy(before: seq<Fields>, issued: seq<Dispatch>, nowMs: nat): (fs: seq<Fields>)
    ensures |fs| == |before|
  {
    seq(|before|, j requires 0 <= j < |before| =>
      if CoverCount(issued, j) > 0 then UpdateStep(before[j], nowMs).after else before[j])
  }

  /** Ticking by `issued` and then by `step`, which cover no slot twice, is ticking by both at once. */
  lemma TickedByAppend(before: seq<Fields>, issued: seq<Dispatch>, step: seq<Dispatch>, nowMs: nat)
    requires |before| == MAX_STEPPER_MOTORS
    requires forall j :: 0 <= j < MAX_STEPPER_MOTORS ==>
      CoverCount(issued + step, j) == CoverCount(issued, j) + CoverCount(step, j)
      && CoverCount(issued, j) + CoverCount(step, j) <= 1
    ensures TickedBy(TickedBy(before, issued, nowMs), step, nowMs) == TickedBy(before, issued + step, nowMs)
  {
  }

  class Registry {
    var slots: array<Motor?>
    var initialized: bool

    ghost predicate Valid()
      reads this, slots
    {
      slots.Length == MAX_STEPPER_MOTORS
      && (!initialized ==> forall j :: 0 <= j < MAX_STEPPER_MOTORS ==> slots[j] == null)
    }

    /** The registry as it is before `stepper_manager_init`: not initialised, every slot empty. */
    constructor ()
      ensures Valid() && fresh(slots) && !initialized
    {
      slots := new Motor?[MAX_STEPPER_MOTORS](_ => null);
      initialized := false;
    }

    /** `stepper_manager_init`: clears the table on the first call only. */
    method Init() returns (ret: int)
      requires Valid()
      modifies this, slots
      ensures Valid() && initialized && ret == 0 && slots == old(slots)
      ensures old(initialized) ==> slots[..] == old(slots[..])
      ensures forall j :: 0 <= j < MAX_STEPPER_MOTORS ==> slots[j] == (if old(initialized) then old(slots[j]) else null)
    {
      if initialized {
        return 0;
      }
      var j := 0;
      while j < MAX_STEPPER_MOTORS
        invariant 0 <= j <= MAX_STEPPER_MOTORS
        invariant slots == old(slots) && slots.Length == MAX_STEPPER_MOTORS
        invariant forall k :: 0 <= k < j ==> slots[k] == null
      {
        slots[j] := null;
        j := j + 1;
      }
      initialized := true;
      return 0;
    }

    /** `stepper_manager_get_motor`. */
    function GetMotor(id: nat): (m: Motor?)
      reads this, slots
      requires Valid()
      ensures !initialized || id >= MAX_STEPPER_MOTORS ==> m == null
      ensures initialized && id < MAX_STEPPER_MOTORS ==> m == slots[id]
    {
      if !initialized || id >= MAX_STEPPER_MOTORS then null else slots[id]
    }

    /**
     * `stepper_manager_register_motor`: refuses with -EINVAL before init,
     * for an id outside the table or for a missing motor; otherwise only
     * slot `id` changes, and looking it up gives the motor back.
     */
    method Register(id: nat, m: Motor?) returns (ret: int)
      requires Valid()
      modifies slots
      ensures Valid()
      ensures ret == 0 || ret == -EINVAL
      ensures ret == -EINVAL <==> !initialized || id >= MAX_STEPPER_MOTORS || m == null
      ensures ret == -EINVAL ==> slots[..] == old(slots[..])
      ensures ret == 0 ==> slots[..] == old(slots[..])[id := m] && GetMotor(id) == m
      ensures forall k :: k != id ==> GetMotor(k) == old(GetMotor(k))
    {
      if !initialized || id >= MAX_STEPPER_MOTORS || m == null {
        return -EINVAL;
      }
      slots[id] := m;
      return 0;
    }

    /**
     * `stepper_manager_update_all` at uptime `nowMs`; `issued` lists the
     * update calls in the order they were made.
     */
    method UpdateAll(nowMs: nat) returns (issued: seq<Dispatch>)
      requires Valid()
      modifies slots[..]
      ensures !initialized ==> issued == []
      ensures initialized ==> issued == Schedule(Occupied(slots[..]))
      ensures initialized && DistinctMotors(slots[..]) ==>
        forall j :: 0 <= j < MAX_STEPPER_MOTORS && slots[j] != null ==>
          slots[j].Snapshot() == UpdateStep(old(slots[j].Snapshot()), nowMs).after
    {
      issued := [];
      if !initialized {
        return;
      }
      issued := TickSlots(nowMs);
      ScheduleCoversAll(Occupied(slots[..]));
    }

    /** The slot loop of `update_all`: the calls of the schedule, each motor's fields ticked by them. */
    method TickSlots(nowMs: nat) returns (issued: seq<Dispatch>)
      requires Valid()
      modifies slots[..]
      ensures issued == Schedule(Occupied(slots[..]))
      ensures DistinctMotors(slots[..]) ==> Snapshots(slots[..]) == TickedBy(old(Snapshots(slots[..])), issued, nowMs)
    {
      issued := [];
      ghost var present := Occupied(slots[..]);
      ghost var full := Schedule(present);
      ghost var before := Snapshots(slots[..]);
      var pairDone := false;
      var i := 0;
      while i < MAX_STEPPER_MOTORS
        invariant 0 <= i <= MAX_STEPPER_MOTORS
        invariant present == Occupied(slots[..])
        invariant pairDone ==> i > Y1_AXIS
        invariant issued + ScheduleFrom(present, i, pairDone) == full
        invariant DistinctMotors(slots[..]) ==> Snapshots(slots[..]) == TickedBy(before, issued, nowMs)
      {
        issued, pairDone := UpdateTurn(i, pairDone, nowMs, present, full, before, issued);
        i := i + 1;
      }
    }

    /** One turn of the slot loop of `update_all`, with the bookkeeping that the loop keeps. */
    method UpdateTurn(i: nat, pairDone: bool, nowMs: nat, ghost present: seq<bool>, ghost full: seq<Dispatch>,
                      ghost before: seq<Fields>, issued: seq<Dispatch>)
      returns (issued': seq<Dispatch>, pairDone': bool)
      requires Valid() && i < MAX_STEPPER_MOTORS && (pairDone ==> i > Y1_AXIS)
      requires present == Occupied(slots[..]) && full == Schedule(present)
      requires issued + ScheduleFrom(present, i, pairDone) == full
      requires |before| == MAX_STEPPER_MOTORS
      requires DistinctMotors(slots[..]) ==> Snapshots(slots[..]) == TickedBy(before, issued, nowMs)
      modifies slots[..]
      ensures present == Occupied(slots[..])
      ensures pairDone' ==> i + 1 > Y1_AXIS
      ensures issued' + ScheduleFrom(present, i + 1, pairDone') == full
      ensures DistinctMotors(slots[..]) ==> Snapshots(slots[..]) == TickedBy(before, issued', nowMs)
    {
      var step, done := TickSlot(i, pairDone, nowMs);
      ScheduleStep(present, i, pairDone, issued, step, done, full);
      StepCovers(present, i, pairDone, issued, step, full);
      TickedByAppend(before, issued, step, nowMs);
      issued', pairDone' := issued + step, done;
    }

    /** `UpdateSlot`, with its effect on the motors stated for the whole table at once. */
    method TickSlot(i: nat, pairDone: bool, nowMs: nat) returns (step: seq<Dispatch>, done: bool)
      requires Valid() && i < MAX_STEPPER_MOTORS && (pairDone ==> i > Y1_AXIS)
      modifies slots[..]
      ensures step == StepDispatch(Occupied(slots[..]), i, pairDone)
      ensures done == StepPairDone(Occupied(slots[..]), i, pairDone)
      ensures DistinctMotors(slots[..]) ==> Snapshots(slots[..]) == TickedBy(old(Snapshots(slots[..])), step, nowMs)
    {
      step, done := UpdateSlot(i, pairDone, nowMs);
      ghost var s0 := old(Snapshots(slots[..]));
      if DistinctMotors(slots[..]) {
        assert forall j | 0 <= j < MAX_STEPPER_MOTORS :: Snapshots(slots[..])[j] == TickedBy(s0, step, nowMs)[j];
      }
    }

    /**
     * One turn of the slot loop of `update_all`: ticks the motor in slot
     * `i`, or the Y pair when `i` is the first Y slot and both Y motors are
     * registered, or nothing; `step` is the update call made.
     */
    method UpdateSlot(i: nat, pairDone: bool, nowMs: nat) returns (step: seq<Dispatch>, done: bool)
      requires Valid() && i < MAX_STEPPER_MOTORS && (pairDone ==> i > Y1_AXIS)
      modifies slots[..]
      ensures step == StepDispatch(Occupied(slots[..]), i, pairDone)
      ensures done == StepPairDone(Occupied(slots[..]), i, pairDone)
      ensures forall j :: 0 <= j < MAX_STEPPER_MOTORS && slots[j] == null ==> CoverCount(step, j) == 0
      ensures DistinctMotors(slots[..]) ==>
        forall j :: 0 <= j < MAX_STEPPER_MOTORS && slots[j] != null ==>
          slots[j].Snapshot() == if CoverCount(step, j) > 0 then UpdateStep(old(slots[j].Snapshot()), nowMs).after else old(slots[j].Snapshot())
    {
      step := [];
      done := pairDone;
      if slots[i] != null {
        if !pairDone && i == Y1_AXIS && slots[Y2_AXIS] != null {
          var _, _ := UpdatePair(slots[Y1_AXIS], slots[Y2_AXIS], nowMs);
          step := [Pair(Y1_AXIS, Y2_AXIS)];
          done := true;
        } else if pairDone && i == Y2_AXIS {
          // already ticked together with Y1
        } else {
          var _ := slots[i].Update(nowMs);
          step := [Single(i)];
        }
      }
    }

    /**
     * `stepper_manager_enable_all`, where `pinResults[j]` is what writing the
     * enable pin of the motor in slot `j` returns: the slots are enabled in
     * order up to the first failure, whose code is returned.
     */
    method EnableAll(enable: bool, pinResults: seq<int>) returns (ret: int)
      requires Valid() && |pinResults| == MAX_STEPPER_MOTORS
      modifies slots[..]
      ensures !initialized ==> ret == -EINVAL
      ensures initialized ==>
        var k := FirstEnableFailure(slots[..], pinResults, 0);
        ret == (if k < MAX_STEPPER_MOTORS then pinResults[k] else 0)
        && (forall j :: 0 <= j < k && slots[j] != null ==> slots[j].Snapshot() == Enabled(old(slots[j].Snapshot()), enable))
        && (forall j :: k <= j < MAX_STEPPER_MOTORS && slots[j] != null ==>
              slots[j].Snapshot() == old(slots[j].Snapshot()) || slots[j].Snapshot() == Enabled(old(slots[j].Snapshot()), enable))
    {
      if !initialized {
        return -EINVAL;
      }
      var i := 0;
      ghost var ss := slots[..];
      ghost var k := FirstEnableFailure(ss, pinResults, 0);
      while i < MAX_STEPPER_MOTORS
        invariant 0 <= i <= k
        invariant FirstEnableFailure(ss, pinResults, i) == k
        invariant forall j :: 0 <= j < MAX_STEPPER_MOTORS && slots[j] != null ==>
          slots[j].Snapshot() == Enabled(old(slots[j].Snapshot()), enable)
          || (j >= i && slots[j].Snapshot() == old(slots[j].Snapshot()))
      {
        if slots[i] != null {
          EnableProperties(old(slots[i].Snapshot()), enable);
          ret := EnableSlot(i, enable, pinResults[i]);
          if ret < 0 {
            return ret;
          }
        }
        i := i + 1;
      }
      return 0;
    }

    /** Enables the motor in slot `i`, where writing its pin returns `pinResult`; other slots may hold the same motor. */
    method EnableSlot(i: nat, enable: bool, pinResult: int) returns (ret: int)
      requires Valid() && i < MAX_STEPPER_MOTORS && slots[i] != null
      modifies slots[i]
      ensures ret == (if pinResult < 0 then pinResult else 0)
      ensures forall j :: 0 <= j < MAX_STEPPER_MOTORS && slots[j] != null ==>
        slots[j].Snapshot() == if ret == 0 && slots[j] == slots[i] then Enabled(old(slots[j].Snapshot()), enable) else old(slots[j].Snapshot())
    {
      ret := slots[i].Enable(enable, pinResult);
    }

    /** `stepper_manager_stop_all`: every registered motor is halted where it stands. */
    method StopAll() returns (ret: int)
      requires Valid()
      modifies slots[..]
      ensures !initialized ==> ret == -EINVAL
      ensures initialized ==> ret == 0
      ensures initialized ==> forall j :: 0 <= j < MAX_STEPPER_MOTORS && slots[j] != null ==>
        slots[j].Snapshot() == Halted(old(slots[j].Snapshot()))
    {
      if !initialized {
        return -EINVAL;
      }
      var i := 0;
      while i < MAX_STEPPER_MOTORS
        invariant 0 <= i <= MAX_STEPPER_MOTORS
        invariant forall j :: 0 <= j < MAX_STEPPER_MOTORS && slots[j] != null ==>
          slots[j].Snapshot() == Halted(old(slots[j].Snapshot()))
          || (j >= i && slots[j].Snapshot() == old(slots[j].Snapshot()))
      {
        if slots[i] != null {
          ret := slots[i].Stop();
        }
        i := i + 1;
      }
      return 0;
    }

    /** `stepper_manager_all_idle`: no registered motor is moving; true before init. */
    method AllIdle() returns (idle: bool)
      requires Valid()
      ensures idle <==> !initialized || forall j :: 0 <= j < MAX_STEPPER_MOTORS ==> !IsMoving(slots[j])
    {
      if !initialized {
        return true;
      }
      var i := 0;
      while i < MAX_STEPPER_MOTORS
        invariant 0 <= i <= MAX_STEPPER_MOTORS
        invariant forall j :: 0 <= j < i ==> !IsMoving(slots[j])
      {
        if slots[i] != null && IsMoving(slots[i]) {
          return false;
        }
        i := i + 1;
      }
      return true;
    }
  }
}
