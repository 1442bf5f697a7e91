/**
 * The robot controller: the X, Y, Z and gripper motors of the gantry, moved
 * to absolute coordinates one axis at a time, counter-zeroed by `Home`, and
 * the gripper opened and closed by a fixed number of steps.
 *
 * The controller holds the motors it created itself; `stepper_manager_all_idle`
 * is asked through the registry the motors were registered with. The uptime
 * `k_uptime_get()` returns inside each motor command is the parameter `nowMs`.
 */
module RobotController {
  import opened Errno
  import opened StepperMotor
  import StepperManager

  /** `STEPPER_SLOW_SPEED_US`: the step delay of the gripper. */
  const STEPPER_SLOW_SPEED_US: nat := 2000
  /** Steps the gripper turns to open (negative) or close (positive). */
  const GRIPPER_STEPS: int := 200

  /** `robot_position_t`. */
  datatype RobotPosition = RobotPosition(x: int, y: int, z: int)

  /** `stepper_motor_move_steps` refuses to move a motor `steps` away: it is disabled and the steps are not 0. */
  predicate Refuses(f: Fields, steps: int) {
    !f.enabled && steps != 0
  }

  /** A motor after `stepper_motor_move_steps(steps)` has been called on it at `nowMs`. */
  function Commanded(f: Fields, steps: int, delayUs: nat, nowMs: nat): Fields {
    if !f.enabled || steps == 0 then f else Retargeted(f, steps, delayUs, nowMs)
  }

  /**
   * An axis commanded towards the absolute coordinate `goal`: a motor
   * already there is left alone (even one moving elsewhere), one that is
   * enabled is now moving to `goal`, one that is disabled is left alone.
   */
  lemma CommandedAxis(f: Fields, goal: int, delayUs: nat, nowMs: nat)
    ensures goal == f.position ==> Commanded(f, goal - f.position, delayUs, nowMs) == f
    ensures goal != f.position && f.enabled ==>
      var g := Commanded(f, goal - f.position, delayUs, nowMs);
      g.state == Moving && g.target == goal && g.position == f.position && Heading(g)
      && Remaining(g) == (if goal >= f.position then goal - f.position else f.position - goal)
    ensures Refuses(f, goal - f.position) ==> Commanded(f, goal - f.position, delayUs, nowMs) == f
  {
    if goal != f.position && f.enabled {
      RetargetedHeads(f, goal - f.position, delayUs, nowMs);
    }
  }

  /**
   * What `move_to` returns, given the three motors before the call: the
   * code of the first axis, in X, Y, Z order, whose non-zero delta a
   * disabled motor refuses, else 0.
   */
  function MoveToResult(fx: Fields, fy: Fields, fz: Fields, x: int, y: int, z: int): int {
    if Refuses(fx, x - fx.position) then -EACCES
    else if Refuses(fy, y - fy.position) then -EACCES
    else if Refuses(fz, z - fz.position) then -EACCES
    else 0
  }

  /**
   * `move_to` succeeds exactly when no axis is refused, and then every axis
   * that was not already at its coordinate is moving to it.
   */
  lemma MoveToSucceeds(fx: Fields, fy: Fields, fz: Fields, x: int, y: int, z: int)
    ensures MoveToResult(fx, fy, fz, x, y, z) == 0 <==>
      !Refuses(fx, x - fx.position) && !Refuses(fy, y - fy.position) && !Refuses(fz, z - fz.position)
    ensures MoveToResult(fx, fy, fz, x, y, z) == 0 ==>
      (x != fx.position ==> Commanded(fx, x - fx.position, 0, 0).target == x)
      && (y != fy.position ==> Commanded(fy, y - fy.position, 0, 0).target == y)
      && (z != fz.position ==> Commanded(fz, z - fz.position, 0, 0).target == z)
  {
    CommandedAxis(fx, x, 0, 0);
    CommandedAxis(fy, y, 0, 0);
    CommandedAxis(fz, z, 0, 0);
  }

  class Controller {
    var motorX: Motor?
    var motorY: Motor?
    var motorZ: Motor?
    var motorGripper: Motor?

    /** The motors the controller created are distinct objects. */
    ghost predicate Valid()
      reads this
    {
      (motorX != null && motorY != null ==> motorX != motorY)
      && (motorX != null && motorZ != null ==> motorX != motorZ)
      && (motorY != null && motorZ != null ==> motorY != motorZ)
      && (motorGripper != null ==>
            motorGripper != motorX && motorGripper != motorY && motorGripper != motorZ)
    }

    /** The controller before `robot_controller_init` created any motor. */
    constructor ()
      ensures Valid() && motorX == null && motorY == null && motorZ == null && motorGripper == null
    {
      motorX, motorY, motorZ, motorGripper := null, null, null, null;
    }

    /** The controller once `robot_controller_init` has created the four motors. */
    constructor WithMotors(x: Motor, y: Motor, z: Motor, gripper: Motor)
      requires x != y && x != z && y != z && gripper != x && gripper != y && gripper != z
      ensures Valid() && motorX == x && motorY == y && motorZ == z && motorGripper == gripper
    {
      motorX, motorY, motorZ, motorGripper := x, y, z, gripper;
    }

    /**
     * `robot_controller_move_to`: -EINVAL when an axis motor is missing;
     * otherwise each axis whose delta from its current position is non-zero
     * is commanded, in X, Y, Z order, and the first refusal is returned at
     * once, leaving the later axes untouched.
     */
    method MoveTo(x: int, y: int, z: int, speedUs: nat, nowMs: nat) returns (ret: int)
      requires Valid()
      modifies motorX, motorY, motorZ
      ensures motorX == null || motorY == null || motorZ == null ==> ret == -EINVAL
      ensures motorX != null && motorY != null && motorZ != null ==>
        var fx, fy, fz := old(motorX.Snapshot()), old(motorY.Snapshot()), old(motorZ.Snapshot());
        ret == MoveToResult(fx, fy, fz, x, y, z)
        && motorX.Snapshot() == Commanded(fx, x - fx.position, speedUs, nowMs)
        && motorY.Snapshot() == (if Refuses(fx, x - fx.position) then fy else Commanded(fy, y - fy.position, speedUs, nowMs))
        && motorZ.Snapshot() ==
             (if Refuses(fx, x - fx.position) || Refuses(fy, y - fy.position) then fz
              else Commanded(fz, z - fz.position, speedUs, nowMs))
      ensures motorX == null || motorY == null || motorZ == null ==>
        (motorX != null ==> motorX.Snapshot() == old(motorX.Snapshot()))
        && (motorY != null ==> motorY.Snapshot() == old(motorY.Snapshot()))
        && (motorZ != null ==> motorZ.Snapshot() == old(motorZ.Snapshot()))
    {
      if motorX == null || motorY == null || motorZ == null {
        return -EINVAL;
      }
      var stepsX := x - GetPosition(motorX);
      var stepsY := y - GetPosition(motorY);
      var stepsZ := z - GetPosition(motorZ);
      if stepsX != 0 {
        ret := motorX.MoveSteps(stepsX, speedUs, nowMs);
        if ret < 0 {
          return ret;
        }
      }
      if stepsY != 0 {
        ret := motorY.MoveSteps(stepsY, speedUs, nowMs);
        if ret < 0 {
          return ret;
        }
      }
      if stepsZ != 0 {
        ret := motorZ.MoveSteps(stepsZ, speedUs, nowMs);
        if ret < 0 {
          return ret;
        }
      }
      return 0;
    }

    /**
     * `robot_controller_home`: -EINVAL when an axis motor is missing;
     * otherwise the X, Y and Z position counters are set to 0 without any
     * motion, and the gripper is not touched.
     */
    method Home() returns (ret: int)
      requires Valid()
      modifies motorX, motorY, motorZ
      ensures motorX == null || motorY == null || motorZ == null ==> ret == -EINVAL
      ensures motorX != null && motorY != null && motorZ != null ==>
        ret == 0
        && motorX.Snapshot() == old(motorX.Snapshot()).(position := 0)
        && motorY.Snapshot() == old(motorY.Snapshot()).(position := 0)
        && motorZ.Snapshot() == old(motorZ.Snapshot()).(position := 0)
        && Position() == RobotPosition(0, 0, 0)
      ensures motorX == null || motorY == null || motorZ == null ==>
        (motorX != null ==> motorX.Snapshot() == old(motorX.Snapshot()))
        && (motorY != null ==> motorY.Snapshot() == old(motorY.Snapshot()))
        && (motorZ != null ==> motorZ.Snapshot() == old(motorZ.Snapshot()))
    {
      if motorX == null || motorY == null || motorZ == null {
        return -EINVAL;
      }
      var _ := motorX.SetPosition(0);
      var _ := motorY.SetPosition(0);
      var _ := motorZ.SetPosition(0);
      return 0;
    }

    /** `robot_controller_gripper_open`: the gripper turns 200 steps back at the slow speed. */
    method GripperOpen(nowMs: nat) returns (ret: int)
      modifies motorGripper
      ensures motorGripper == null ==> ret == -EINVAL
      ensures motorGripper != null ==>
        ret == (if old(motorGripper.enabled) then 0 else -EACCES)
        && motorGripper.Snapshot() == Commanded(old(motorGripper.Snapshot()), -GRIPPER_STEPS, STEPPER_SLOW_SPEED_US, nowMs)
    {
      if motorGripper == null {
        return -EINVAL;
      }
      ret := motorGripper.MoveSteps(-GRIPPER_STEPS, STEPPER_SLOW_SPEED_US, nowMs);
    }

    /** `robot_controller_gripper_close`: the gripper turns 200 steps forward at the slow speed. */
    method GripperClose(nowMs: nat) returns (ret: int)
      modifies motorGripper
      ensures motorGripper == null ==> ret == -EINVAL
      ensures motorGripper != null ==>
        ret == (if old(motorGripper.enabled) then 0 else -EACCES)
        && motorGripper.Snapshot() == Commanded(old(motorGripper.Snapshot()), GRIPPER_STEPS, STEPPER_SLOW_SPEED_US, nowMs)
    {
      if motorGripper == null {
        return -EINVAL;
      }
      ret := motorGripper.MoveSteps(GRIPPER_STEPS, STEPPER_SLOW_SPEED_US, nowMs);
    }

    /** `robot_controller_get_position`: each coordinate is its motor's position, 0 for a missing motor. */
    function Position(): (p: RobotPosition)
      reads this, motorX, motorY, motorZ
      ensures motorX == null ==> p.x == 0
      ensures motorY == null ==> p.y == 0
      ensures motorZ == null ==> p.z == 0
    {
      RobotPosition(GetPosition(motorX), GetPosition(motorY), GetPosition(motorZ))
    }
  }

  /** `robot_controller_is_busy`: some registered motor is moving. */
  method IsBusy(registry: StepperManager.Registry) returns (busy: bool)
    requires registry.Valid()
    ensures busy <==> registry.initialized && exists j :: 0 <= j < StepperManager.MAX_STEPPER_MOTORS && IsMoving(registry.slots[j])
  {
    var idle := registry.AllIdle();
    busy := !idle;
  }

  /**
   * Steps count from the position, not from the target: closing the gripper
   * right after opening it, before any pulse, aims 200 steps beyond where
   * it stood rather than back at it.
   */
  lemma GripperOpenThenClose(f: Fields, nowOpen: nat, nowClose: nat)
    requires f.enabled
    ensures var afterOpen := Commanded(f, -GRIPPER_STEPS, STEPPER_SLOW_SPEED_US, nowOpen);
      afterOpen.target == f.position - GRIPPER_STEPS
      && Commanded(afterOpen, GRIPPER_STEPS, STEPPER_SLOW_SPEED_US, nowClose).target == f.position + GRIPPER_STEPS
  {
  }
}
