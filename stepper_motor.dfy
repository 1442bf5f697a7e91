/**
 * The tick-driven stepper motor driver: a motor tracks its position, its
 * target, its state, the direction it turns, whether its driver is enabled
 * and the earliest time of its next step. Every call of `Update` either
 * leaves the motor alone, finishes the move, or emits exactly one pulse.
 *
 * Time enters as a parameter: `nowMs` is the value `k_uptime_get()` would
 * return (milliseconds of uptime); the driver works in microseconds.
 * GPIO writes whose result the driver checks enter as their return code.
 */
module StepperMotor {
  import opened Errno

  datatype State = Idle | Moving | Error
  datatype Direction = CW | CCW

  const DEFAULT_STEP_DELAY_US: nat := 1000

  /** The fields of a `stepper_motor_t` that the driver updates. */
  datatype Fields = Fields(
    position: int,
    target: int,
    stepDelayUs: nat,
    nextStepTime: nat,
    state: State,
    direction: Direction,
    enabled: bool,
    hasCallback: bool)

  /** The fields of a freshly created motor. */
  const Created: Fields := Fields(0, 0, DEFAULT_STEP_DELAY_US, 0, Idle, CW, false, false)

  /** A motor that has been halted where it stands. */
  function Halted(f: Fields): Fields {
    f.(target := f.position, state := Idle)
  }

  /** A motor after its enable pin was written successfully: disabling a moving motor makes it idle. */
  function Enabled(f: Fields, enable: bool): Fields {
    f.(enabled := enable, state := if !enable && f.state == Moving then Idle else f.state)
  }

  /**
   * A motor retargeted by `steps` (non-zero) relative to where it stands,
   * at `delayUs` per step, with its first step due at uptime `nowMs`.
   */
  function Retargeted(f: Fields, steps: int, delayUs: nat, nowMs: nat): Fields {
    f.(target := f.position + steps,
       stepDelayUs := delayUs,
       state := Moving,
       nextStepTime := nowMs * 1000,
       direction := if steps > 0 then CW else CCW)
  }

  /** The outcome of one `Update`: the new fields, and whether the completion callback ran. */
  datatype Tick = Tick(after: Fields, completed: bool)

  /** True when an update at `nowMs` emits a step pulse. */
  predicate Pulses(f: Fields, nowMs: nat) {
    f.state == Moving && f.position != f.target && nowMs * 1000 >= f.nextStepTime
  }

  /** One `stepper_motor_update` at uptime `nowMs`. */
  function UpdateStep(f: Fields, nowMs: nat): (t: Tick)
    ensures t.after.target == f.target && t.after.direction == f.direction && t.after.stepDelayUs == f.stepDelayUs
    ensures t.after.enabled == f.enabled && t.after.hasCallback == f.hasCallback
    ensures t.after.position - f.position in {-1, 0, 1}
    ensures t.completed ==> f.hasCallback && f.position == f.target && t.after.state == Idle
  {
    if f.state != Moving then Tick(f, false)
    else if f.position == f.target then Tick(f.(state := Idle), f.hasCallback)
    else if nowMs * 1000 < f.nextStepTime then Tick(f, false)
    else
      Tick(f.(position := if f.direction == CW then f.position + 1 else f.position - 1,
              nextStepTime := nowMs * 1000 + f.stepDelayUs),
           false)
  }

  /**
   * The invariant of a moving motor: it turns towards its target, so CW
   * means the target is not below the position and CCW that it is not above.
   */
  predicate Heading(f: Fields) {
    f.state == Moving ==>
      (f.direction == CW ==> f.position <= f.target) && (f.direction == CCW ==> f.position >= f.target)
  }

  /** The number of steps still to go. */
  function Remaining(f: Fields): nat {
    if f.target >= f.position then f.target - f.position else f.position - f.target
  }

  /** The fields after one update per clock reading in `clock`. */
  function Run(f: Fields, clock: seq<nat>): Fields
    decreases |clock|
  {
    if clock == [] then f else Run(UpdateStep(f, clock[0]).after, clock[1..])
  }

  /** The number of step pulses emitted over `clock`. */
  function PulseCount(f: Fields, clock: seq<nat>): nat
    decreases |clock|
  {
    if clock == [] then 0
    else (if Pulses(f, clock[0]) then 1 else 0) + PulseCount(UpdateStep(f, clock[0]).after, clock[1..])
  }

  lemma UpdateIgnoredUnlessMoving(f: Fields, nowMs: nat)
    requires f.state != Moving
    ensures UpdateStep(f, nowMs) == Tick(f, false)
  {
  }

  lemma UpdateAtTarget(f: Fields, nowMs: nat)
    requires f.state == Moving && f.position == f.target
    ensures UpdateStep(f, nowMs).after == f.(state := Idle)
    ensures UpdateStep(f, nowMs).completed == f.hasCallback
  {
  }

  /** An update either does nothing to the position or pulses once, by one step in the motor's direction. */
  lemma UpdateMovesOneStep(f: Fields, nowMs: nat)
    ensures var g := UpdateStep(f, nowMs).after;
      if Pulses(f, nowMs) then
        g.position == (if f.direction == CW then f.position + 1 else f.position - 1)
        && g.nextStepTime == nowMs * 1000 + f.stepDelayUs
        && g.state == Moving
      else g.position == f.position && g.nextStepTime == f.nextStepTime
    ensures UpdateStep(f, nowMs).after.target == f.target
    ensures Pulses(f, nowMs) ==> !UpdateStep(f, nowMs).completed
  {
  }

  /** A single update keeps the heading invariant, and a pulse brings the motor one step nearer. */
  lemma UpdateKeepsHeading(f: Fields, nowMs: nat)
    requires Heading(f)
    ensures Heading(UpdateStep(f, nowMs).after)
    ensures Remaining(UpdateStep(f, nowMs).after) + (if Pulses(f, nowMs) then 1 else 0) == Remaining(f)
  {
  }

  /**
   * Over any sequence of clock readings a motor that keeps the heading
   * invariant emits exactly as many pulses as the steps it covers: it never
   * passes its target, so a move of `steps` ends after |steps| pulses.
   */
  lemma {:induction false} RunCountsSteps(f: Fields, clock: seq<nat>)
    requires Heading(f)
    ensures Heading(Run(f, clock))
    ensures Run(f, clock).target == f.target
    ensures Remaining(Run(f, clock)) + PulseCount(f, clock) == Remaining(f)
    decreases |clock|
  {
    if clock != [] {
      UpdateKeepsHeading(f, clock[0]);
      UpdateMovesOneStep(f, clock[0]);
      RunCountsSteps(UpdateStep(f, clock[0]).after, clock[1..]);
    }
  }

  /**
   * Moving `set_position` past the target of a clockwise move breaks the
   * heading invariant for good: the motor stays MOVING and never comes back
   * below the position it was given, so it never reaches its target.
   */
  lemma {:induction false} PositionPastTargetNeverArrives(f: Fields, clock: seq<nat>)
    requires f.state == Moving && f.direction == CW && f.position > f.target
    ensures !Heading(f)
    ensures Run(f, clock).state == Moving
    ensures Run(f, clock).position >= f.position
    decreases |clock|
  {
    if clock != [] {
      var g := UpdateStep(f, clock[0]).after;
      assert g.state == Moving && g.direction == CW && g.position >= f.position;
      PositionPastTargetNeverArrives(g, clock[1..]);
    }
  }

  /** A stepper motor: the driver's `stepper_motor_t`, without its GPIO handles. */
  class Motor {
    var position: int
    var target: int
    var stepDelayUs: nat
    var nextStepTime: nat
    var state: State
    var direction: Direction
    var enabled: bool
    var hasCallback: bool

    function Snapshot(): Fields
      reads this
    {
      Fields(position, target, stepDelayUs, nextStepTime, state, direction, enabled, hasCallback)
    }

    /** `stepper_motor_create`: at the origin, idle, turning CW, disabled, no callback. */
    constructor ()
      ensures Snapshot() == Created
    {
      position := 0;
      target := 0;
      stepDelayUs := DEFAULT_STEP_DELAY_US;
      nextStepTime := 0;
      state := Idle;
      direction := CW;
      enabled := false;
      hasCallback := false;
    }

    /**
     * `stepper_motor_enable`: `pinResult` is what writing the enable pin
     * returned. A failed write is returned and changes nothing; otherwise
     * the flag is recorded and disabling a moving motor makes it idle.
     */
    method Enable(enable: bool, pinResult: int) returns (ret: int)
      modifies this
      ensures pinResult < 0 ==> ret == pinResult && Snapshot() == old(Snapshot())
      ensures pinResult >= 0 ==> ret == 0 && Snapshot() == Enabled(old(Snapshot()), enable)
      ensures ret < 0 <==> pinResult < 0
    {
      if pinResult < 0 {
        return pinResult;
      }
      enabled := enable;
      if !enable && state == Moving {
        state := Idle;
      }
      return 0;
    }

    /**
     * `stepper_motor_move_steps`: a disabled motor refuses with -EACCES,
     * zero steps is accepted without effect, and otherwise the motor is
     * retargeted relative to where it stands, whatever it was doing before.
     */
    method MoveSteps(steps: int, delayUs: nat, nowMs: nat) returns (ret: int)
      modifies this
      ensures !old(enabled) ==> ret == -EACCES && Snapshot() == old(Snapshot())
      ensures old(enabled) && steps == 0 ==> ret == 0 && Snapshot() == old(Snapshot())
      ensures old(enabled) && steps != 0 ==>
        ret == 0 && Snapshot() == Retargeted(old(Snapshot()), steps, delayUs, nowMs)
    {
      if !enabled {
        return -EACCES;
      }
      if steps == 0 {
        return 0;
      }
      target := position + steps;
      stepDelayUs := delayUs;
      state := Moving;
      nextStepTime := nowMs * 1000;
      direction := if steps > 0 then CW else CCW;
      return 0;
    }

    /** `stepper_motor_stop`: halts the motor where it stands. */
    method Stop() returns (ret: int)
      modifies this
      ensures ret == 0 && Snapshot() == Halted(old(Snapshot()))
    {
      target := position;
      state := Idle;
      return 0;
    }

    /**
     * `stepper_motor_emergency_stop`, whose body is not part of this model:
     * the motor stops moving where it stands.
     */
    method EmergencyStop()
      modifies this
      ensures state != Moving && position == old(position)
      ensures enabled == old(enabled) && hasCallback == old(hasCallback)
    {
      target := position;
      state := Idle;
    }

    /** `stepper_motor_set_position`: re-labels the current position, nothing else. */
    method SetPosition(p: int) returns (ret: int)
      modifies this
      ensures ret == 0 && Snapshot() == old(Snapshot()).(position := p)
    {
      position := p;
      return 0;
    }

    /** `stepper_motor_register_callback`. */
    method RegisterCallback(present: bool)
      modifies this
      ensures Snapshot() == old(Snapshot()).(hasCallback := present)
    {
      hasCallback := present;
    }

    /**
     * `stepper_motor_update` at uptime `nowMs`; `completed` tells whether
     * the completion callback was invoked.
     */
    method Update(nowMs: nat) returns (completed: bool)
      modifies this
      ensures Tick(Snapshot(), completed) == UpdateStep(old(Snapshot()), nowMs)
    {
      completed := false;
      if state != Moving {
        return;
      }
      if position == target {
        state := Idle;
        completed := hasCallback;
        return;
      }
      var now := nowMs * 1000;
      if now < nextStepTime {
        return;
      }
      if direction == CW {
        position := position + 1;
      } else {
        position := position - 1;
      }
      nextStepTime := now + stepDelayUs;
    }
  }

  /** `stepper_motor_is_moving`: false for a missing motor. */
  function IsMoving(m: Motor?): bool
    reads m
  {
    m != null && m.state == Moving
  }

  /** `stepper_motor_get_position`: 0 for a missing motor. */
  function GetPosition(m: Motor?): int
    reads m
  {
    if m == null then 0 else m.position
  }

  /** `stepper_motor_get_state`: ERROR for a missing motor. */
  function GetState(m: Motor?): State
    reads m
  {
    if m == null then Error else m.state
  }

  /** The queries on a motor agree with its state, and a missing motor reads as not moving, at 0, in ERROR. */
  lemma Queries(m: Motor?)
    ensures IsMoving(m) <==> GetState(m) == Moving
    ensures m == null ==> !IsMoving(m) && GetPosition(m) == 0 && GetState(m) == Error
    ensures m != null ==> GetPosition(m) == m.position
  {
  }

  /**
   * Disabling a motor leaves it not moving, and neither moves nor retargets
   * it; writing the same enable level twice is the same as writing it once
   * (which is why a motor registered in two slots ends up the same after
   * `enable_all`).
   */
  lemma EnableProperties(f: Fields, enable: bool)
    ensures Enabled(Enabled(f, enable), enable) == Enabled(f, enable)
    ensures !enable ==> Enabled(f, enable).state != Moving && !Enabled(f, enable).enabled
    ensures Enabled(f, enable).position == f.position && Enabled(f, enable).target == f.target
  {
  }

  /** The invariant the enable flag keeps: a motor whose driver is disabled is not moving. */
  predicate DisabledIdle(f: Fields) {
    !f.enabled ==> f.state != Moving
  }

  /**
   * A created motor keeps `DisabledIdle`, and so does every operation on
   * it: enabling or disabling, a move (which the driver only starts on an
   * enabled motor), a stop, an update, re-labelling the position and
   * registering a callback.
   */
  lemma DisabledIdlePreserved(f: Fields, enable: bool, steps: int, delayUs: nat, nowMs: nat, p: int, present: bool)
    requires DisabledIdle(f)
    ensures DisabledIdle(Created)
    ensures DisabledIdle(Enabled(f, enable))
    ensures f.enabled ==> DisabledIdle(Retargeted(f, steps, delayUs, nowMs))
    ensures DisabledIdle(Halted(f)) && DisabledIdle(UpdateStep(f, nowMs).after)
    ensures DisabledIdle(f.(position := p)) && DisabledIdle(f.(hasCallback := present))
  {
  }

  /** A disabled motor that keeps `DisabledIdle` never steps: updates leave it as it is and emit no pulse. */
  lemma {:induction false} DisabledNeverSteps(f: Fields, clock: seq<nat>)
    requires !f.enabled && DisabledIdle(f)
    ensures Run(f, clock) == f && PulseCount(f, clock) == 0
    decreases |clock|
  {
    if clock != [] {
      UpdateIgnoredUnlessMoving(f, clock[0]);
      DisabledNeverSteps(f, clock[1..]);
    }
  }

  /**
   * A retargeted motor is moving towards a target `|steps|` steps away, in
   * the direction of the sign of `steps`, from where it stood.
   */
  lemma RetargetedHeads(f: Fields, steps: int, delayUs: nat, nowMs: nat)
    requires steps != 0
    ensures var g := Retargeted(f, steps, delayUs, nowMs);
      g.state == Moving && g.position == f.position && g.target == f.position + steps
      && Heading(g) && Remaining(g) == (if steps > 0 then steps else -steps)
      && g.enabled == f.enabled && g.hasCallback == f.hasCallback
  {
  }

  /** Halting is idempotent. */
  lemma HaltIdempotent(f: Fields)
    ensures Halted(Halted(f)) == Halted(f)
    ensures Heading(Halted(f)) && Remaining(Halted(f)) == 0
  {
  }

  /**
   * `stepper_motor_update_pair`, whose body is not part of this model: each
   * motor of the pair is updated once at the same clock reading.
   */
  method UpdatePair(a: Motor, b: Motor, nowMs: nat) returns (completedA: bool, completedB: bool)
    modifies a, b
    ensures a != b ==> Tick(a.Snapshot(), completedA) == UpdateStep(old(a.Snapshot()), nowMs)
    ensures a != b ==> Tick(b.Snapshot(), completedB) == UpdateStep(old(b.Snapshot()), nowMs)
  {
    completedA := a.Update(nowMs);
    completedB := b.Update(nowMs);
  }
}
