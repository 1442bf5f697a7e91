# Chess robot core, modelled in Dafny

This project models the core of a chess-playing robot and proves properties
of that model. The robot has two parts.

The **firmware** is written in C for Zephyr. It covers:

- a tick-driven stepper motor driver, and the registry of motors that
  updates the two Y motors as a pair;
- the limit-switch table and its debouncing interrupt handler, which
  emergency-stops the attached motors;
- the robot controller, which turns absolute coordinates into relative
  stepper moves, and the gripper;
- the movement planner: square parsing, square coordinates, and the
  pickup/place/graveyard command scripts for each kind of chess action;
- the servo driver and the servo registry;
- the reed-switch board: a debounced 8×8 occupancy bitmap, detection of a
  single move, and the 64-bit mask bookkeeping of the board manager;
- the mDNS name codec (RFC 1035 names with compression pointers) and the
  layout of the query packet;
- the MQTT subscription table, publish dispatch and the connection guard;
- the stepper-name map used by the diagnostics commands.

The **host** is written in Java. It covers:

- square, piece and move notation;
- the board's square-index conversions and its history and capture
  bookkeeping, with the chess rules as an oracle;
- the parsing of engine moves;
- the numbered game log;
- two state machines driven by settings: the embedded MQTT broker,
  including its authenticator and property map, and the chess engine
  controller.

Every source file of the core has its own module, named after the file.

- Mutable C structs and Java objects are classes. Their methods carry
  `modifies` clauses.
  - Each class has a `Snapshot()` or `State()` function, which reads its
    fields into a datatype value.
  - Each method is proved against a specification function of that value:
    `Retargeted`, `UpdateStep`, `ScanStates`, `Schedule`, `NextState`,
    `Decode`, and so on.
  - Lemmas then state what the source promises about those functions.
- Expression-style code becomes functions and lemmas.
- Uptime readings, GPIO return codes, pin levels, and the replies of
  libraries whose code is not part of the model are all parameters.

## Model

| member | source | states |
|---|---|---|
| StepperMotor.Motor.constructor | src/drivers/peripherals/stepper_motor.c:45-53 | a new motor is at position 0 with target 0, a delay of 1000 µs per step and next step time 0; it is idle, turns CW, is disabled and has no callback |
| StepperMotor.Motor.Enable | src/drivers/peripherals/stepper_motor.c:105-126 | a failed pin write returns its error and changes nothing; on success `enabled` is recorded, and disabling a moving motor makes it idle; the result is negative exactly when the pin write failed |
| StepperMotor.Motor.MoveSteps | src/drivers/peripherals/stepper_motor.c:128-151 | a disabled motor gives -EACCES and is unchanged; 0 steps returns 0 and changes nothing; otherwise the target becomes position + steps, the state Moving, the direction CW exactly when steps > 0, and the first step is due now; there is no busy check, so a moving motor is retargeted |
| StepperMotor.Motor.Stop | src/drivers/peripherals/stepper_motor.c:154-164 | the target becomes the current position and the state Idle; nothing else changes |
| StepperMotor.Motor.EmergencyStop | src/drivers/peripherals/limit_switch.c:172-176 | the function the handler calls, whose body is not part of this model: it leaves the motor stopped where it stands, enabled as before and with its callback kept |
| StepperMotor.Motor.SetPosition | src/drivers/peripherals/stepper_motor.c:176-184 | only the position changes; target, direction and state are untouched, even in mid-move |
| StepperMotor.Motor.RegisterCallback | src/drivers/peripherals/stepper_motor.c:191-196 | only the presence of the callback changes |
| StepperMotor.Motor.Update | src/drivers/peripherals/stepper_motor.c:198-228 | the new fields and whether the callback ran are exactly one `UpdateStep` of the old fields at this uptime |
| StepperMotor.UpdateStep | src/drivers/peripherals/stepper_motor.c:198-228 | an update keeps target, direction, delay, enable flag and callback, moves the position by at most one, and runs the callback only for a moving motor at its target, which goes idle |
| StepperMotor.UpdateIgnoredUnlessMoving | src/drivers/peripherals/stepper_motor.c:200-202 | an update of a motor that is not moving changes nothing and runs no callback |
| StepperMotor.UpdateAtTarget | src/drivers/peripherals/stepper_motor.c:204-210 | a moving motor at its target goes idle without a step, and the callback runs exactly when one is registered |
| StepperMotor.UpdateMovesOneStep | src/drivers/peripherals/stepper_motor.c:212-227 | when the step is due, the position moves by exactly one in the motor's direction and the next step is due one delay after now; otherwise position and timing stay; the target never changes, and a pulse never runs the callback |
| StepperMotor.UpdateKeepsHeading | src/drivers/peripherals/stepper_motor.c:217-227 | an update keeps a motor heading towards its target, and each pulse brings it exactly one step nearer |
| StepperMotor.RunCountsSteps | src/drivers/peripherals/stepper_motor.c:143-228 | over any sequence of updates, a motor that heads towards its target keeps doing so, keeps its target, and the remaining distance falls by exactly the number of pulses, so a move of n steps arrives after n pulses |
| StepperMotor.PositionPastTargetNeverArrives | src/drivers/peripherals/stepper_motor.c:176-225 | after `set_position` puts a CW motor past its target, no sequence of updates ever stops it, and its position never falls back |
| StepperMotor.Queries | src/drivers/peripherals/stepper_motor.c:166-189 | `is_moving` holds exactly when the state is Moving; a null motor is not moving, reports position 0 and state ERROR |
| StepperMotor.EnableProperties | src/drivers/peripherals/stepper_motor.c:119-123 | a repeated enable with the same flag changes nothing more; disabling leaves the motor not moving; position and target are untouched |
| StepperMotor.DisabledIdlePreserved | src/drivers/peripherals/stepper_motor.c:105-228 | "disabled implies not moving" holds for a created motor and is kept by enable, by a move (started only on an enabled motor), by stop, update, set-position and callback registration |
| StepperMotor.DisabledNeverSteps | src/drivers/peripherals/stepper_motor.c:198-202 | a disabled motor that is not moving is left unchanged by any run of updates and emits no pulse |
| StepperMotor.RetargetedHeads | src/drivers/peripherals/stepper_motor.c:143-148 | after a non-zero move the motor heads towards a target exactly the given number of steps away, with enable flag and callback kept |
| StepperMotor.HaltIdempotent | src/drivers/peripherals/stepper_motor.c:160-161 | stopping twice is stopping once, and a stopped motor has no distance left to go |
| StepperMotor.UpdatePair | src/domain/services/stepper_manager.c:76-80 | the pair update, whose body is not part of this model: two distinct motors each take exactly one update at the same uptime |
| StepperManager.Registry.constructor | src/domain/services/stepper_manager.c:9-10 | the registry starts uninitialised |
| StepperManager.Registry.Init | src/domain/services/stepper_manager.c:12-23 | the first call clears all eight slots; a later call returns 0 and keeps every registration |
| StepperManager.Registry.GetMotor | src/domain/services/stepper_manager.c:48-55 | null before init and for an id outside the table; otherwise the motor in slot `id` (null for an empty slot) |
| StepperManager.Registry.Register | src/domain/services/stepper_manager.c:25-46 | -EINVAL exactly when the registry is uninitialised, the id is 8 or more, or the motor is null, and then the table is unchanged; on success only slot `id` changes and `get_motor(id)` returns the motor |
| StepperManager.Registry.UpdateAll | src/domain/services/stepper_manager.c:57-88 | before init nothing is updated; after init the updates issued are exactly `Schedule` of the occupied slots, each registered motor's fields become `UpdateStep` of its old fields (the Y pair included), and motors in no slot are left alone |
| StepperManager.ScheduleCoversEachMotorOnce | src/domain/services/stepper_manager.c:59-87 | every registered motor is updated exactly once and no other motor is; with both Y motors registered they are updated together by one pair update, and neither gets a single update |
| StepperManager.FirstEnableFailureIsFirst | src/domain/services/stepper_manager.c:96-107 | the slot where `enable_all` stops is occupied and its pin write failed, and every earlier occupied slot succeeded |
| StepperManager.Registry.EnableAll | src/domain/services/stepper_manager.c:90-108 | before init it gives -EINVAL; after init it returns the error of the first failing motor, or 0; every motor before that slot has been enabled or disabled |
| StepperManager.Registry.StopAll | src/domain/services/stepper_manager.c:110-128 | before init it gives -EINVAL; after init every registered motor is idle with its target at its position |
| StepperManager.Registry.AllIdle | src/domain/services/stepper_manager.c:130-143 | true exactly when the registry is uninitialised or no slot holds a moving motor |
| LimitSwitch.Elapsed | src/drivers/peripherals/limit_switch.c:157 | the debounce subtraction wraps like `uint32_t` arithmetic |
| LimitSwitch.Switch.Zeroed | src/drivers/peripherals/limit_switch.c:193 | a zeroed switch is uninitialised, has no motors and no callback, and is not triggered |
| LimitSwitch.Switch.Configured | src/drivers/peripherals/limit_switch.c:71-141 | a configured switch has its port, pin and polarity, has interrupts enabled and is initialised, with last trigger time 0 |
| LimitSwitch.SwitchTable.constructor | src/drivers/peripherals/limit_switch.c:187-246 | the table holds the X, Y and Z switches in that order |
| LimitSwitch.SwitchTable.Get | src/drivers/peripherals/limit_switch.c:248-259 | null exactly when the id is out of range or that switch is uninitialised; otherwise the switch itself |
| LimitSwitch.IsTriggered | src/drivers/peripherals/limit_switch.c:261-269 | true exactly when the switch is non-null, initialised and its pin level means pressed for its polarity |
| LimitSwitch.AttachMotor | src/drivers/peripherals/limit_switch.c:271-285 | null arguments give -EINVAL; with two motors attached it gives -ENOMEM and changes nothing; otherwise the motor is appended and nothing else changes |
| LimitSwitch.RegisterCallback | src/drivers/peripherals/limit_switch.c:293-304 | a null switch gives -EINVAL; otherwise only the callback changes |
| LimitSwitch.InterruptMode | src/drivers/peripherals/limit_switch.c:314-316 | disabling asks for no interrupt; enabling asks for the edge to the active level, which is the rising edge exactly for an active-high switch |
| LimitSwitch.EnableInterrupt | src/drivers/peripherals/limit_switch.c:306-324 | a null or uninitialised switch gives -EINVAL and is unchanged; otherwise the GPIO call's result is returned and `interrupt_enabled` is updated only when that call succeeded |
| LimitSwitch.WasTriggered | src/drivers/peripherals/limit_switch.c:326-332 | the sticky flag, false for null |
| LimitSwitch.ClearTriggered | src/drivers/peripherals/limit_switch.c:334-339 | only the sticky flag is reset |
| LimitSwitch.Switch.Trip | src/drivers/peripherals/limit_switch.c:165-176 | an accepted edge records the trigger time and the sticky flag, and every attached motor is emergency-stopped in place |
| LimitSwitch.SwitchTable.Isr | src/drivers/peripherals/limit_switch.c:143-185 | the handler leaves the table as `ScanStates` after the whole scan, fires exactly the switches `FiredUpTo` lists, calls back exactly those with a callback, and emergency-stops the motors of exactly those switches, in scan order (`StoppedBy`); every attached motor keeps its position, each stopped one is no longer moving, and the others are untouched (`StopsApplied`) |
| LimitSwitch.StopIndexIsFirst | src/drivers/peripherals/limit_switch.c:146-159 | the scan ends at the first watched switch still inside its debounce window, and no watched switch before it is bouncing |
| LimitSwitch.FiresExactly | src/drivers/peripherals/limit_switch.c:149-181 | a switch fires exactly when it is initialised and enabled, matches the port and pin, is outside its debounce window, reads active, and no earlier watched switch ended the scan; a firing switch gets the trigger time and the flag, any other switch is unchanged |
| LimitSwitch.BounceEndsScan | src/drivers/peripherals/limit_switch.c:157-159 | once a watched switch bounces, no switch from there on fires or changes |
| LimitSwitch.EarlyEdgeIgnored | src/drivers/peripherals/limit_switch.c:157-159 | because the last trigger time starts at 0, an edge in the first 50 ms of uptime never fires a switch |
| LimitSwitch.FiredUpToExactly | src/drivers/peripherals/limit_switch.c:146-181 | the fired list holds exactly the switches that fire, in strictly increasing order |
| LimitSwitch.StoppedByExactly | src/drivers/peripherals/limit_switch.c:172-176 | a motor is emergency-stopped exactly when it is attached to some fired switch |
| RobotController.Controller.constructor | src/domain/services/robot_controller.c:11-14 | no motor is bound yet |
| RobotController.Controller.WithMotors | src/domain/services/robot_controller.c:21-112 | the controller holds the four distinct motors for X, Y, Z and the gripper |
| RobotController.Controller.MoveTo | src/domain/services/robot_controller.c:114-153 | a missing X, Y or Z motor gives -EINVAL with no motion; otherwise each axis is commanded by requested minus current position, in X, Y, Z order; the first refusal is returned, later axes are not sent, and earlier axes stay commanded |
| RobotController.CommandedAxis | src/domain/services/robot_controller.c:122-149 | a zero delta leaves an axis untouched; a non-zero delta on an enabled motor makes it move towards exactly the requested coordinate; a refused command changes nothing |
| RobotController.MoveToSucceeds | src/domain/services/robot_controller.c:130-152 | `move_to` returns 0 exactly when no axis refuses, and then every commanded axis targets its requested absolute coordinate |
| RobotController.Controller.Home | src/domain/services/robot_controller.c:155-167 | with X, Y and Z bound, their positions become 0 without motion and the reported position is the origin; the gripper is untouched; when an axis motor is missing it gives -EINVAL and every bound motor keeps its state |
| RobotController.Controller.GripperOpen | src/domain/services/robot_controller.c:169-176 | a missing gripper gives -EINVAL; otherwise it is moved 200 steps back at the slow speed of 2000 µs per step |
| RobotController.Controller.GripperClose | src/domain/services/robot_controller.c:178-185 | a missing gripper gives -EINVAL; otherwise it is moved 200 steps forward at the slow speed |
| RobotController.GripperOpenThenClose | src/domain/services/robot_controller.c:169-185 | opening targets 200 steps below the gripper's position and closing 200 above it, because both are relative to where the gripper stands |
| RobotController.IsBusy | src/domain/services/robot_controller.c:187-190 | busy exactly when the registry is initialised and some registered motor is moving, that is, `!all_idle` |
| RobotController.Controller.Position | src/domain/services/robot_controller.c:192-207 | each missing motor reports 0 |
| MovementPlanner.FoldFile | src/domain/services/movement_planner.c:361-363 | an upper-case file letter folds onto the lower-case letter of the same file; every other character is kept |
| MovementPlanner.ParseSquare | src/domain/services/movement_planner.c:347-379 | an accepted square has file and rank below 8 |
| MovementPlanner.ParseSquareAccepts | src/domain/services/movement_planner.c:358-378 | a string is accepted exactly when it has at least two characters, the first a file letter in either case and the second a rank digit 1 to 8; the file is the letter minus 'a' after folding, the rank the digit minus '1', and trailing characters are ignored |
| MovementPlanner.ParseSquareRejects | src/domain/services/movement_planner.c:349-374 | null, empty and one-character strings are rejected, and so are out-of-range characters such as "i9", "a0" and "a9" |
| MovementPlanner.SquareName | src/domain/services/movement_planner.c:362-377 | the name of a square is a lower-case file letter followed by a rank digit |
| MovementPlanner.ParseSquareName | src/domain/services/movement_planner.c:347-379 | parsing the name of any square, followed by anything, gives that square back |
| MovementPlanner.NameOfParsedSquare | src/domain/services/movement_planner.c:362-377 | the name of a parsed square is its first two characters with the file lower-cased |
| MovementPlanner.FileToX | src/domain/services/movement_planner.c:11-14 | a file lies at or right of the board origin, one square (1400 steps) right of the file before it |
| MovementPlanner.RankToY | src/domain/services/movement_planner.c:19-22 | a rank lies at or above the board origin, one square (1400 steps) above the rank before it |
| MovementPlanner.CoordinatesIncrease | src/domain/services/movement_planner.c:11-22 | neighbouring files and ranks lie exactly 1400 steps apart, coordinates grow strictly with file and rank, fit a signed 32-bit value, and the graveyard lies left of file a |
| MovementPlanner.Concat | src/domain/services/movement_planner.c:224-336 | the calls of two scripts in sequence are the first's calls followed by the second's |
| MovementPlanner.RunIsPrefix | src/domain/services/movement_planner.c:60-102 | running a script only appends to the log, what it appends is a prefix of the script's calls, and a script that completes appends all of them |
| MovementPlanner.RunStopsAtRefusal | src/domain/services/movement_planner.c:69-98 | a script that does not complete stops right after a refused motion start, and every motion start before it was accepted |
| MovementPlanner.RunConcat | src/domain/services/movement_planner.c:229-235 | a sequence of scripts runs the second only when the first completes, and completes exactly when both do |
| MovementPlanner.RunThen | src/domain/services/movement_planner.c:229-235 | after the first primitive of an action: if it failed nothing further is issued, otherwise the rest runs from the log it left |
| MovementPlanner.PrimitiveCalls | src/domain/services/movement_planner.c:60-199 | a pickup moves XY, waits, starts the descent to the pick height together with opening the gripper, waits, pauses 200 ms, closes, pauses 300 ms, and rises to travel height; a place moves XY, descends to the place height, opens, pauses and rises; the place height lies between travel and pick height |
| MovementPlanner.ActionScript | src/domain/services/movement_planner.c:224-340 | an action has a script exactly when its type is one of the five known types |
| MovementPlanner.ActionCalls | src/domain/services/movement_planner.c:224-336 | MOVE is pickup(from) then place(to); CAPTURE is pickup(to), graveyard, pickup(from), place(to); EN_PASSANT is pickup(captured), graveyard, pickup(from), place(to); CASTLE is pickup(from), place(to), pickup(from2), place(to2); REMOVE is pickup(from), graveyard; a completed action logs exactly these calls |
| MovementPlanner.Gantry.constructor | src/domain/services/movement_planner.c:69-98 | the robot controller the planner drives starts with no calls made, and answers each motion start with a given reply |
| MovementPlanner.Gantry.StartXyMove | src/domain/services/movement_planner.c:69 | the XY motion start, whose body is not part of this model: it is logged and returns its scripted reply |
| MovementPlanner.Gantry.StartZMove | src/domain/services/movement_planner.c:77 | the Z motion start, whose body is not part of this model: it is logged and returns its scripted reply |
| MovementPlanner.Gantry.Issue | src/domain/services/movement_planner.c:24-42 | a wait, a gripper command or a delay is logged and its result is not looked at |
| MovementPlanner.Gantry.DoPickup | src/domain/services/movement_planner.c:60-102 | the calls made are the pickup script up to its first refused motion start; the error is returned exactly when that happens, and 0 otherwise |
| MovementPlanner.Gantry.DoPlaceAt | src/domain/services/movement_planner.c:114-152 | the calls made are the place script at the given coordinates up to its first refused motion start; the error is returned exactly when that happens |
| MovementPlanner.Gantry.DoPlace | src/domain/services/movement_planner.c:114-152 | placing on a square runs the place script at that square's coordinates, with the same error rule |
| MovementPlanner.Gantry.DoPlaceAtGraveyard | src/domain/services/movement_planner.c:161-199 | placing in the graveyard runs the place script at (-500, 0), with the same error rule |
| MovementPlanner.Gantry.Execute | src/domain/services/movement_planner.c:213-345 | a null action or an unknown type gives PLANNER_ERR_INVALID with no call made; otherwise the calls made are the action's script up to its first refused motion start, and the result is PLANNER_OK when it completes and PLANNER_ERR_MOTOR when it does not |
| ServoMotor.AngleToPulse | src/drivers/peripherals/servo_motor.c:123-128 | the pulse for an angle always lies between 500 and 2500 µs |
| ServoMotor.ClampPulse | src/drivers/peripherals/servo_motor.c:139-144 | the pulse is clamped into 500 to 2500 µs: kept when inside, the nearest bound when outside |
| ServoMotor.PulseToAngle | src/drivers/peripherals/servo_motor.c:145-148 | the angle stored for a pulse never exceeds 180 |
| ServoMotor.AngleToPulseRange | src/drivers/peripherals/servo_motor.c:123-130 | 0° gives 500 µs and 180° gives 2500 µs, every angle of 180 or more gives 2500 µs, the pulse grows with the angle, and the bounds map back to 0° and 180° |
| ServoMotor.AngleRoundTrip | src/drivers/peripherals/servo_motor.c:127-148 | converting an angle to a pulse and back gives the clamped angle or one less, because of integer rounding |
| ServoMotor.Servo.constructor | src/drivers/peripherals/servo_motor.c:85-87 | a new servo is at 90° with a pulse of 1500 µs and is disabled |
| ServoMotor.Servo.SetPulseWidth | src/drivers/peripherals/servo_motor.c:133-151 | the stored pulse is the clamped pulse and the stored angle is derived from it; the enable flag is kept |
| ServoMotor.Servo.SetAngle | src/drivers/peripherals/servo_motor.c:117-131 | the stored pulse is the pulse for the clamped angle, and the stored angle is the angle read back from that pulse; the enable flag is kept |
| ServoMotor.Servo.Enable | src/drivers/peripherals/servo_motor.c:161-177 | the flag becomes the requested value, the pin is cleared only on a transition from enabled to disabled, and angle and pulse are kept |
| ServoMotor.GetAngle | src/drivers/peripherals/servo_motor.c:153-159 | the stored angle, 0 for a null servo |
| ServoMotor.IsEnabled | src/drivers/peripherals/servo_motor.c:179-185 | true exactly when the servo is non-null and enabled |
| ServoMotor.GetAngleAfterSetAngle | src/drivers/peripherals/servo_motor.c:117-159 | after `set_angle(a)`, `get_angle` returns the clamped angle or one less |
| ServoManager.Registry.constructor | src/domain/services/servo_manager.c:7-8 | the registry starts uninitialised |
| ServoManager.Registry.Init | src/domain/services/servo_manager.c:10-23 | the first call clears all eight slots; a later call returns 0 and keeps every registration |
| ServoManager.Registry.GetServo | src/domain/services/servo_manager.c:41-48 | null before init and for an id outside the table; otherwise the servo in slot `id` (null for an empty slot) |
| ServoManager.Registry.Register | src/domain/services/servo_manager.c:25-39 | -EINVAL exactly when the registry is uninitialised, the id is 8 or more, or the servo is null, and then the table is unchanged; on success only slot `id` changes and `get` returns the servo |
| ServoManager.Registry.EnableAll | src/domain/services/servo_manager.c:50-69 | before init it gives -EINVAL; after init every registered servo has the requested enable flag, with angle and pulse kept |
| ServoManager.Registry.SetAllAngle | src/domain/services/servo_manager.c:71-88 | before init it gives -EINVAL; after init every registered servo has the pulse and angle of `set_angle(a)`, with its enable flag kept |
| BoardState.Popcnt8 | src/subsys/sensors/board_state.c:33-37 | the SWAR bit count of a byte stays below 16 |
| BoardState.Popcnt8SumsBits | src/subsys/sensors/board_state.c:33-37 | the SWAR steps add up the eight bits of the byte |
| BoardState.Popcnt8Counts | src/subsys/sensors/board_state.c:33-37 | `popcnt8(v)` is the number of set bits of v, for every byte |
| BoardState.RowStep | src/subsys/sensors/board_state.c:13-24 | the frame becomes the last frame, a differing frame resets the count, and the stable byte either stays or becomes the frame once the count has reached the threshold |
| BoardState.RowStepFacts | src/subsys/sensors/board_state.c:13-24 | after a frame the shared last row is the frame; the same-count resets to 0 when the row differs from the last frame and otherwise goes up by one, saturating at 255; the stable row is kept, or adopts the frame only once the count has reached the threshold |
| BoardState.GlitchIgnored | src/subsys/sensors/board_state.c:14-24 | a frame that differs from the last one never changes the stable row |
| BoardState.RowRunCounts | src/subsys/sensors/board_state.c:13-19 | after k equal frames the same-count is at least k - 1, saturating at 255 |
| BoardState.RowRunSettles | src/subsys/sensors/board_state.c:13-24 | a row shown threshold + 1 times in a row becomes stable |
| BoardState.RowRunNeedsThresholdPlusOne | src/subsys/sensors/board_state.c:13-24 | a new row shown at most threshold times in a row does not become stable yet, and its count is one less than the number of frames |
| BoardState.SharedLastInterferes | src/subsys/sensors/board_state.c:10 | because the last frame is one static array for all instances, two boards fed different rows reset each other's counts, and neither adopts its row |
| BoardState.Debouncer.constructor | src/subsys/sensors/board_state.c:4-7 | a new debouncer owns its stable and count rows |
| BoardState.Debouncer.Init | src/subsys/sensors/board_state.c:4-7 | every stable row and count is zero, and a threshold of 0 is replaced by 3, so the threshold is at least 1 |
| BoardState.Debouncer.UpdateRow | src/subsys/sensors/board_state.c:13-24 | row r takes exactly one `RowStep`, no other row changes, and the row is reported changed exactly when its stable byte changed |
| BoardState.Debouncer.Update | src/subsys/sensors/board_state.c:9-27 | every row takes one `RowStep` with its frame byte, and the result is true exactly when some stable row changed |
| BoardState.Debouncer.Copy | src/subsys/sensors/board_state.c:29-31 | the output is exactly the stable rows |
| BoardState.LastRemovedSpec | src/subsys/sensors/board_state.c:46-57 | the square the scan keeps is removed, and no removed square comes after it in row-then-column order; there is one exactly when some square was removed |
| BoardState.Detected | src/subsys/sensors/board_state.c:39-64 | a detected move has equal numbers of set bits in both frames, goes from a square set before and clear now, to a square clear before and set now, both on the board |
| BoardState.DetectedIff | src/subsys/sensors/board_state.c:39-64 | a move is detected exactly when the two frames have the same number of set bits and differ |
| BoardState.DetectedSquares | src/subsys/sensors/board_state.c:46-62 | the detected `from` square is set before and clear after, `to` the reverse, and each is the last such square the row-then-column scan meets |
| BoardState.MoveSlot.constructor | include/core/events.h:19-27 | the output slot holds the given move |
| BoardState.DetectMove | src/subsys/sensors/board_state.c:39-64 | the result is true exactly when `Detected` finds a move, which is then written out; otherwise the output is untouched |
| BoardMask.IsSquareOccupied | include/board_state.h:36-43 | a square reads occupied only when it is on the board and its row of the mask has a bit set |
| BoardMask.IsSquareOccupiedBit | include/board_state.h:36-43 | off the board nothing is occupied; on the board a square reads bit `row * 8 + col` of the word |
| BoardMask.SetSquare | include/board_state.h:45-59 | off the board the mask is returned unchanged, and every row other than the square's own is kept |
| BoardMask.SetSquareSpec | include/board_state.h:45-59 | after `set_square` on a square of the board that square reads the given value, and every other square reads as before; off the board the mask does not change |
| BoardMask.SetSquareUnchanged | include/board_state.h:45-59 | setting a square to what it already reads leaves the mask as it was |
| BoardMask.MaskCell.constructor | include/board_state.h:45 | the mask a pointer refers to holds the given word |
| BoardMask.SetSquareAt | include/board_state.h:45-59 | a null pointer or a square off the board changes nothing; otherwise the word becomes `SetSquare` of itself |
| BoardMask.LastSet | src/domain/services/board_manager.c:65-76 | the index the bit scan keeps is -1 or one of the scanned indices |
| BoardMask.LastSetSpec | src/domain/services/board_manager.c:65-76 | the index kept is set, no higher scanned index is set, and it is -1 exactly when no bit is set |
| BoardMask.CountOne | src/domain/services/board_manager.c:61-76 | when exactly one bit is set the scan finds it and no other bit is set |
| BoardMask.XorBit | src/domain/services/board_manager.c:54 | a bit of `a ^ b` is set exactly when the bits of a and b differ |
| BoardMask.AndBit | src/domain/services/board_manager.c:55-56 | a bit of `a & b` is set exactly when both bits are set |
| BoardManager.DiffBits | src/domain/services/board_manager.c:54-56 | a square is removed exactly when it was occupied and is now empty, added in the reverse case, and changed when it is either |
| BoardManager.SquareOfBit | src/domain/services/board_manager.c:66-73 | bit index i splits into row i / 8 and column i % 8, a square of the board whose reading is bit i |
| BoardManager.OneMoveCounts | src/domain/services/board_manager.c:61-76 | when one square was vacated and one filled and nothing else changed, one bit is removed and one added, and the scans find exactly those two squares |
| BoardManager.Classify | src/domain/services/board_manager.c:52-92 | only equal masks are a no-change, and a change in the final branch means the masks differ |
| BoardManager.ReportedMove | src/domain/services/board_manager.c:61-83 | a reported move comes only from the single-move branch, carries the update time, leaves a square that was occupied and is now empty, and reaches one that was empty and is now occupied |
| BoardManager.ReportedMoveIff | src/domain/services/board_manager.c:61-92 | a move is reported exactly when one square was vacated, one filled and nothing else changed, which is the single-move branch; it goes from the vacated square to the filled one |
| BoardManager.NoChangeIff | src/domain/services/board_manager.c:61-92 | a change falls in no branch exactly when the masks are equal |
| BoardManager.ScanMove | src/domain/services/board_manager.c:65-74 | the bit scans return the squares of the last removed and the last added bit |
| BoardManager.NextState | src/domain/services/board_manager.c:105-119 | the scanned mask becomes the current one; the move count stays or goes up by one modulo 2^32; the update time is stamped unless nothing changed |
| BoardManager.NextStateSpec | src/domain/services/board_manager.c:95-122 | an unchanged scan changes nothing; a changed scan makes the old mask the previous one and the scan the current one, stamps the update time, and adds one to the move count, wrapping at 2^32, exactly when a move is reported |
| BoardManager.NextStateIdempotent | src/domain/services/board_manager.c:100-106 | scanning the same mask again changes nothing more |
| BoardManager.Manager.constructor | src/domain/services/board_manager.c:9-11 | the state starts zeroed, with no callbacks and nothing reported |
| BoardManager.Manager.Init | src/domain/services/board_manager.c:27-50 | a failing driver init or first scan is returned with the state left zeroed; otherwise current and previous mask are the first scan, stamped now, with move count 0 |
| BoardManager.Manager.DetectAndReport | src/domain/services/board_manager.c:52-93 | a reported move is handed to the move callback when one is registered and counts one more move; any other change pattern only logs; the masks are untouched |
| BoardManager.Manager.Update | src/domain/services/board_manager.c:95-122 | a scan failure is returned with no change and no callback; otherwise the state becomes `NextState` of the old one; a changed mask reports its move, if any, and hands the new state to the state callback once |
| BoardManager.Manager.GetState | src/domain/services/board_manager.c:124-127 | the state returned is exactly the manager's fields |
| BoardManager.Manager.RegisterMoveCallback | src/domain/services/board_manager.c:129-132 | only the move callback changes |
| BoardManager.Manager.RegisterStateCallback | src/domain/services/board_manager.c:134-137 | only the state callback changes |
| Mdns.LabelLen | src/network/mdns_client.c:37-39 | the label starting at a position ends within the name |
| Mdns.Encoded | src/network/mdns_client.c:37-50 | the wire form of a name is two bytes longer than the name, and byte by byte is the first label's length, then the name with each dot replaced by the length of the label after it, then 0 (section 3.1 of RFC 1035) |
| Mdns.LabelBytes | src/network/mdns_client.c:37-39 | a label holds no dot and ends at a dot or at the end of the name |
| Mdns.WriteLabel | src/network/mdns_client.c:43-45 | the length byte goes first, the label's bytes after it, and nothing else in the buffer changes |
| Mdns.EncodeQname | src/network/mdns_client.c:28-51 | it returns strlen(name) + 2 when that fits the buffer and no label is longer than 63 octets (section 2.3.4 of RFC 1035), and 0 otherwise; on success the buffer holds exactly `Encoded(name)`; nothing outside the given buffer area is written |
| Mdns.EncodedLabel | src/network/mdns_client.c:37-48 | each label of an encoded name sits in the wire form behind its length byte |
| Mdns.AppendLabel | src/network/mdns_client.c:88-96 | writing one label appends exactly `AfterLabel` to the output text: the dot when there is text and room, then as much of the label as leaves room for the NUL; nothing past it changes |
| Mdns.CopyBytes | src/network/mdns_client.c:93-95 | the copied bytes land at the given position, and nothing before or after them changes |
| Mdns.DecodeStep | src/network/mdns_client.c:61-98 | one pass of the loop is exactly one `StepAt`: malformed input gives -EINVAL with the output untouched; a zero byte finishes, writing the NUL only when there is room; otherwise the cursor and output text advance as `StepAt` says |
| Mdns.DecodeName | src/network/mdns_client.c:53-100 | the result and the final offset are those of `DecodeWith`: -EINVAL with the offset unchanged for a malformed name, otherwise 0 and the offset after the name; the output then holds the decoded text, followed by a NUL exactly when it was terminated, and nothing after that changes |
| Mdns.DecodeWith | src/network/mdns_client.c:53-100 | an offset past the message is malformed, and decoded text never exceeds the output length and is terminated exactly when it leaves a byte free |
| Mdns.FuelMonotone | src/network/mdns_client.c:61-98 | once the decoder has finished or failed with some number of passes, more passes give the same outcome |
| Mdns.TextWithinRoom | src/network/mdns_client.c:88-96 | the decoded text never exceeds the output length, and it is terminated exactly when it leaves a byte free |
| Mdns.JumpedNext | src/network/mdns_client.c:64-81 | after a pointer was taken, the offset reported is the one just past that first pointer |
| Mdns.PointerFirstNext | src/network/mdns_client.c:64-83 | a name that starts with a compression pointer (section 4.1.4 of RFC 1035) reports the offset two bytes on |
| Mdns.DecodeRejects | src/network/mdns_client.c:61-99 | -EINVAL for an offset past the end, a length byte between 64 and 191, a label running past the message, a pointer missing its second byte, or a pointer at or beyond the message length |
| Mdns.SelfPointerEndless | src/network/mdns_client.c:70-83 | a pointer to its own position keeps the decoder looping however many passes it is given |
| Mdns.CyclicPointerNeverEnds | src/network/mdns_client.c:61-84 | the two-byte message `C0 00` never finishes decoding: pointer jumps have no bound |
| Mdns.BackwardPointersEnd | src/network/mdns_client.c:61-84 | corrected: when every pointer must lead before the run of labels it ends, decoding finishes or fails within a pass bound fixed by the message length |
| Mdns.DecodeChecked | src/network/mdns_client.c:61-84 | corrected: the decoder that accepts only pointers leading backwards never loops forever |
| Mdns.BackwardAgrees | src/network/mdns_client.c:61-98 | corrected: whenever the corrected decoder yields a name, the firmware's loop yields the same name and offset |
| Mdns.CyclicPointerRejected | src/network/mdns_client.c:70-83 | corrected: the two-byte message `C0 00` is rejected as malformed instead of looping |
| Mdns.RoundTrip | src/network/mdns_client.c:28-100 | decoding the wire form of a name with non-empty labels of at most 63 octets, with room for the name and its NUL, gives the name back, terminated, with the offset advanced by strlen(name) + 2 |
| Mdns.DotTakesLastByte | src/network/mdns_client.c:88-96 | as written: the name "ab.c" decoded into 3 bytes gives "ab." with no room left for the terminator |
| Mdns.KeepTerminatorTerminated | src/network/mdns_client.c:88-96 | corrected: when the dot is written only if a byte stays free for the NUL, every decoded name is terminated |
| Mdns.Header | src/network/mdns_client.c:104-107 | the DNS header takes 12 bytes |
| Mdns.BuildQuery | src/network/mdns_client.c:134-163 | -EINVAL exactly when the name does not fit or has a label over 63 octets; otherwise the length returned is that of the query bytes, which the buffer holds, and the rest of the buffer is zero |
| Mdns.BuildPtrQuery | src/network/mdns_client.c:102-132 | the PTR query for "_mqtt._tcp.local" is 12 + 18 + 4 bytes long and holds the query bytes of that name with type 12 |
| Mdns.ServiceLabels | src/network/mdns_client.c:110 | the service name has labels of 1 to 63 octets and its query fits the buffer |
| Mdns.QueryLayout | src/network/mdns_client.c:137-154 | a query is the 12-byte header with qdcount 1, the encoded name, the type big-endian and class 0x8001 (unicast-response bit, section 5.4 of RFC 6762), and the name decodes back from offset 12 |
| MqttClient.StoredTopic | src/mqtt/mqtt_client.c:349-350 | the stored topic is a prefix of the requested one: the whole topic when it has at most 63 characters, otherwise its first 63 |
| MqttClient.PayloadLen | src/mqtt/mqtt_client.c:54-56 | the payload read is the incoming length, cut to 256 bytes |
| MqttClient.FirstFreeFrom | src/mqtt/mqtt_client.c:337-342 | the slot chosen is the lowest inactive one, or -1 exactly when every slot is active |
| MqttClient.ReceiversSorted | src/mqtt/mqtt_client.c:64-72 | every slot dispatched to is active, has a callback and stores exactly the incoming topic, and the slots come in increasing order |
| MqttClient.ReceiversComplete | src/mqtt/mqtt_client.c:64-72 | every active slot with a callback and exactly the incoming topic is dispatched to |
| MqttClient.DeliveriesFollowReceivers | src/mqtt/mqtt_client.c:64-72 | the dispatch calls are those slots' callbacks, one each and in slot order, with the topic and payload |
| MqttClient.DeliveriesAreReceivers | src/mqtt/mqtt_client.c:64-72 | the dispatch calls go, in slot order, to exactly the matching slots, once each |
| MqttClient.DeliveredIff | src/mqtt/mqtt_client.c:64-72 | some callback runs exactly when some active slot with a callback stores exactly the incoming topic |
| MqttClient.SubscribedReceives | src/mqtt/mqtt_client.c:349-351 | a successful subscription with a callback receives, through the dispatch loop at lines 64-72, every message published on its stored topic |
| MqttClient.Client.constructor | src/mqtt/mqtt_client.c:30-31 | every slot starts free and the client disconnected, with nothing dispatched or published |
| MqttClient.Client.IsConnected | src/mqtt/mqtt_client.c:379-382 | the connection flag that CONNACK and DISCONNECT events set |
| MqttClient.Client.OnConnack | src/mqtt/mqtt_client.c:36-43 | a CONNACK with result 0 marks the client connected; a refused CONNACK leaves the flag as it was; nothing else changes |
| MqttClient.Client.OnDisconnect | src/mqtt/mqtt_client.c:45-48 | a DISCONNECT marks the client disconnected and changes nothing else |
| MqttClient.Client.Subscribe | src/mqtt/mqtt_client.c:333-377 | with all 16 slots active it gives -ENOMEM and the table is unchanged; otherwise the lowest free slot receives the truncated topic and callback and is active, unless the client is connected and the broker refuses, in which case the slot is deactivated again and the error returned |
| MqttClient.Client.OnPublish | src/mqtt/mqtt_client.c:50-81 | when the read returns a byte count, exactly that many payload bytes (at most 256) are dispatched to exactly `Deliveries` of the table; a read error dispatches nothing; a QoS 1 message is acknowledged exactly when the read succeeded |
| MqttClient.Client.Publish | src/mqtt/mqtt_client.c:313-331 | while disconnected it gives -ENOTCONN and sends nothing; while connected it sends the message and returns the library's result |
| Diagnostics.IdToName | src/app/diagnostics.c:20-30 | a valid id gives one of the names x, y1, y2, z, gripper, and exactly the other ids give "unknown" |
| Diagnostics.NameToId | src/app/diagnostics.c:32-40 | the result is a valid id or `STEPPER_ID_MAX` |
| Diagnostics.NameToIdCases | src/app/diagnostics.c:34-39 | x/X select X, y/Y/y1/Y1 select Y1, y2/Y2 select Y2, z/Z select Z, gripper/GRIPPER select the gripper, and exactly every other name gives `STEPPER_ID_MAX` |
| Diagnostics.MixedCaseRejected | src/app/diagnostics.c:38-39 | the comparison is case-sensitive: "Gripper" is invalid while "Y1" is accepted |
| Diagnostics.NameRoundTrip | src/app/diagnostics.c:20-38 | each canonical name comes back from the round trip through its id, and "y" comes back as "y1" |
| Diagnostics.IdRoundTrip | src/app/diagnostics.c:20-38 | every valid id comes back from the round trip through its name |
| Diagnostics.NormalisedName | src/app/diagnostics.c:20-40 | any accepted name comes back as the canonical name of the same motor |
| ChessPosition.IsValid | host/src/main/java/org/example/model/Position.java:4-6 | both coordinates lie in 0..7; on such a position the file character and the rank are computed without wrapping |
| ChessPosition.ToChessNotation | host/src/main/java/org/example/model/Position.java:8-17 | the notation, which `toString` also returns, starts with the character 'a' + col and continues with the decimal digits of 8 - row, computed in 32-bit arithmetic |
| ChessPosition.ValidNotation | host/src/main/java/org/example/model/Position.java:4-12 | a valid position's notation is two characters, a file letter a to h and a rank digit 1 to 8 |
| ChessPosition.NotationInjective | host/src/main/java/org/example/model/Position.java:8-12 | distinct valid positions have distinct notations |
| ChessPosition.BeyondTheBoard | host/src/main/java/org/example/model/Position.java:8-12 | the notation is not limited to the board: row -2 in column 0 is written "a10" |
| ChessPiece.TypeName | host/src/main/java/org/example/model/Move.java:5-6 | the implicit enum `name()` of a piece type, whose first character the move's prefix takes, has at least four characters |
| ChessPiece.ColorName | host/src/main/java/org/example/model/Piece.java:41-44 | the enum name of a colour has five characters |
| ChessPiece.SymbolOf | host/src/main/java/org/example/model/Piece.java:30-39 | the symbol is one character of the Unicode chess block, a white symbol exactly for a white piece |
| ChessPiece.SymbolsDistinct | host/src/main/java/org/example/model/Piece.java:30-39 | each of the twelve (type, colour) pairs has its own symbol |
| ChessPiece.PieceStringParts | host/src/main/java/org/example/model/Piece.java:41-44 | `toString` is the colour, a space and the type, and determines both |
| ChessPiece.Piece.constructor | host/src/main/java/org/example/model/Piece.java:8-12 | a new piece has its type and colour and has not moved |
| ChessPiece.Piece.SetMoved | host/src/main/java/org/example/model/Piece.java:26-28 | only the moved flag changes |
| ChessMove.PieceLetter | host/src/main/java/org/example/model/Move.java:5-6 | the prefix is empty exactly for a pawn, and otherwise one capital letter: the first letter of the type's name as written |
| ChessMove.ToNotation | host/src/main/java/org/example/model/Move.java:4-9 | the notation ends with the target square, and it is the target square alone exactly for a pawn move that takes nothing |
| ChessMove.NotationEndsWithTarget | host/src/main/java/org/example/model/Move.java:4-9 | the notation is the piece prefix, then "x" for a capture, then the target square's notation |
| ChessMove.CaptureMarked | host/src/main/java/org/example/model/Move.java:7-8 | for a target on the board, the notation contains "x" exactly when a piece was taken |
| ChessMove.KnightWrittenAsKing | host/src/main/java/org/example/model/Move.java:5-6 | as written: a knight's move and a king's move to the same square get the same notation, both with the letter "K" |
| ChessMove.SanNotationDetermines | host/src/main/java/org/example/model/Move.java:4-9 | corrected: with the knight written "N", the notation of a move determines the moving piece's type, the target square and whether it was a capture |
| ChessMove.SanLettersDistinct | host/src/main/java/org/example/model/Move.java:5-6 | corrected: the six piece types get six different prefixes |
| ChessMove.PrefixDetermines | host/src/main/java/org/example/model/Move.java:5-8 | corrected: the prefix determines the piece type and whether it was a capture |
| ChessMove.MoveString | host/src/main/java/org/example/model/Move.java:11-17 | the text starts with the origin square and ends with the target square |
| ChessMove.MoveStringShape | host/src/main/java/org/example/model/Move.java:11-17 | `toString` starts with the origin and ends with the target; it is " x " between them for a capture and the arrow otherwise, so it has 7 characters exactly for a capture |
| ChessBoardModel.PositionToSquare | host/src/main/java/org/example/model/ChessBoard.java:198-205 | a board position maps to a library square below 64 whose rank index is 7 - row and whose file is the column |
| ChessBoardModel.SquareToPosition | host/src/main/java/org/example/model/ChessBoard.java:207-214 | a square maps to a valid position with row 7 - ordinal / 8 and column ordinal % 8 |
| ChessBoardModel.SquareRoundTrip | host/src/main/java/org/example/model/ChessBoard.java:198-214 | converting a square to a position and back gives the square |
| ChessBoardModel.PositionRoundTrip | host/src/main/java/org/example/model/ChessBoard.java:198-214 | converting a valid position to a square and back gives the position |
| ChessBoardModel.RowsAreReversed | host/src/main/java/org/example/model/ChessBoard.java:199-202 | row 7 is exactly the first eight squares (rank 1) and row 0 exactly the last eight (rank 8) |
| ChessBoardModel.FirstMatchFrom | host/src/main/java/org/example/model/ChessBoard.java:79-94 | the move chosen is the first legal move from the origin to the target that matches the requested promotion; none is chosen exactly when no such move exists |
| ChessBoardModel.AnyPromotionWithoutRequest | host/src/main/java/org/example/model/ChessBoard.java:89-91 | without a requested promotion, a move is found exactly when the origin-target pair is listed |
| ChessBoardModel.RequestedPromotionOnly | host/src/main/java/org/example/model/ChessBoard.java:82-88 | with a requested promotion, the move found promotes to that piece; when no legal move promotes, none is found |
| ChessBoardModel.IsPromotion | host/src/main/java/org/example/model/ChessBoard.java:180-195 | a promotion moves a pawn from a square of the board onto row 0 when it is White and row 7 when it is Black |
| ChessBoardModel.PromotionIsFarRank | host/src/main/java/org/example/model/ChessBoard.java:180-195 | a move is a promotion exactly when a white pawn goes to row 0 or a black pawn to row 7 |
| ChessBoardModel.Initial | host/src/main/java/org/example/model/ChessBoard.java:134-140 | the starting position is a well-formed board with White to move |
| ChessBoardModel.InitialLayout | host/src/main/java/org/example/model/ChessBoard.java:136 | in the starting position row 0 holds Black's back rank, row 1 Black's pawns, rows 2 to 5 nothing, row 6 White's pawns and row 7 White's back rank |
| ChessBoardModel.ChessBoard.constructor | host/src/main/java/org/example/model/ChessBoard.java:21-27 | a new board is the starting position, with no history and no captures |
| ChessBoardModel.ChessBoard.GetPiece | host/src/main/java/org/example/model/ChessBoard.java:29-40 | null exactly for an invalid position or an empty square; otherwise a new, unmoved piece of the type and colour on that square |
| ChessBoardModel.ChessBoard.CurrentTurn | host/src/main/java/org/example/model/ChessBoard.java:119-122 | White exactly when White is to move |
| ChessBoardModel.ChessBoard.IsValidMove | host/src/main/java/org/example/model/ChessBoard.java:42-61 | true exactly when both positions are valid, the origin holds a piece of the side to move and the pair is among the legal moves |
| ChessBoardModel.ChessBoard.MakeMove | host/src/main/java/org/example/model/ChessBoard.java:63-117 | succeeds exactly when the move is valid and a legal move with the requested promotion exists; a failure changes nothing; a success installs the library's resulting board, appends one history entry recording the origin, target, moving piece and captured piece, and adds the captured piece to its colour's list |
| ChessBoardModel.ChessBoard.Reset | host/src/main/java/org/example/model/ChessBoard.java:134-140 | the board is back at the starting position and history and captures are empty |
| ChessBoardModel.ChessBoard.CapturedPieces | host/src/main/java/org/example/model/ChessBoard.java:128-132 | the list of pieces of the given colour that were captured |
| GameUi.NumericValue | host/src/main/java/org/example/ui/ChessGameUI.java:678 | `Character.getNumericValue` gives an ASCII digit its value and any other ASCII character a value from -1 to 35 |
| GameUi.ParsePosition | host/src/main/java/org/example/ui/ChessGameUI.java:672-682 | a parsed position is on the board; a null string or one whose length is not 2 gives null |
| GameUi.ParseRoundTrip | host/src/main/java/org/example/ui/ChessGameUI.java:672-682 | parsing the notation of any board position gives that position |
| GameUi.ParseAscii | host/src/main/java/org/example/ui/ChessGameUI.java:672-682 | on ASCII text, parsing succeeds exactly for a lower-case file a to h followed by a digit 1 to 8, and the result's notation is the text |
| GameUi.UpperCaseFileRejected | host/src/main/java/org/example/ui/ChessGameUI.java:677-681 | an upper-case file letter is rejected |
| GameUi.OtherDigitsAccepted | host/src/main/java/org/example/ui/ChessGameUI.java:678 | a non-ASCII digit whose numeric value is 3 is accepted as rank 3 |
| GameUi.ParsePromotion | host/src/main/java/org/example/ui/ChessGameUI.java:684-692 | a parsed promotion piece is a queen, rook, bishop or knight |
| GameUi.PromotionLetters | host/src/main/java/org/example/ui/ChessGameUI.java:684-692 | on ASCII, q, r, b and n in either case select queen, rook, bishop and knight, and exactly those letters do |
| GameUi.ParseEngineMove | host/src/main/java/org/example/ui/ChessGameUI.java:645-656 | a null move or one shorter than 4 characters is rejected; a parsed move has both squares on the board, and a 4-character move has no promotion |
| GameUi.EngineMoveRoundTrip | host/src/main/java/org/example/ui/ChessGameUI.java:646-656 | the engine text for two board squares followed by any tail parses back to those squares, with the promotion given by the tail's first character |
| GameLog.FormatMove | host/src/main/java/org/example/ui/view/GameLogView.java:42-50 | the text is the target square with at most two characters before it, and a pawn move that takes nothing is the target square alone |
| GameLog.FormatMoveIsNotation | host/src/main/java/org/example/ui/view/GameLogView.java:42-50 | the log writes a move exactly as the move's own notation does |
| GameLog.Lines | host/src/main/java/org/example/ui/view/GameLogView.java:28-40 | the log has one line per move logged |
| GameLog.LogOneMore | host/src/main/java/org/example/ui/view/GameLogView.java:28-40 | logging one more move appends one line with the current move number, and the number goes up by one (in 32-bit arithmetic) exactly after a Black move |
| GameLog.LineAt | host/src/main/java/org/example/ui/view/GameLogView.java:28-40 | line k is the k-th move written with the number reached after the moves before it |
| GameLog.AlternatingBlackMoves | host/src/main/java/org/example/ui/view/GameLogView.java:31-36 | when the moves alternate starting with White, half of them, rounded down, are Black's |
| GameLog.AlternatingNumbers | host/src/main/java/org/example/ui/view/GameLogView.java:28-40 | when the moves alternate starting with White, line k carries the number k / 2 + 1 |
| GameLog.GameLogView.constructor | host/src/main/java/org/example/ui/view/GameLogView.java:16-22 | a new log is empty with move number 1 |
| GameLog.GameLogView.AddMove | host/src/main/java/org/example/ui/view/GameLogView.java:28-40 | one line is appended, "n. move" for White and "n. ... move" for Black; the number stays after a White move and goes up by one after a Black move |
| GameLog.GameLogView.Clear | host/src/main/java/org/example/ui/view/GameLogView.java:52-55 | the log is empty again with move number 1 |
| MqttBroker.ForwardSlashes | host/src/main/java/org/example/mqtt/MqttBrokerService.java:137 | the data path has the same length, with every backslash replaced by a slash and every other character kept |
| MqttBroker.BuildProperties | host/src/main/java/org/example/mqtt/MqttBrokerService.java:128-149 | the properties are built exactly when the host is not null |
| MqttBroker.PropertyNamesDistinct | host/src/main/java/org/example/mqtt/MqttBrokerService.java:130-144 | the nine property names are distinct |
| MqttBroker.PropertiesContent | host/src/main/java/org/example/mqtt/MqttBrokerService.java:128-149 | the port, host, anonymous flag, its negation as the client-auth flag, the data path with slashes only, persistence on and the websocket flag are set; with websockets also the websocket port and the path "/mqtt" |
| MqttBroker.PropertiesKeys | host/src/main/java/org/example/mqtt/MqttBrokerService.java:141-147 | the websocket port and path are set exactly when websockets are enabled, so there are 9 properties or 7 |
| MqttBroker.BuildAuthenticator | host/src/main/java/org/example/mqtt/MqttBrokerService.java:151-156 | no authenticator exactly when the username is null or blank |
| MqttBroker.Authenticate | host/src/main/java/org/example/mqtt/MqttBrokerService.java:157-166 | a client is let in only when it names the expected user and a password is expected; with no expected password nobody is |
| MqttBroker.AuthenticateIff | host/src/main/java/org/example/mqtt/MqttBrokerService.java:157-166 | a client is accepted exactly when it names the expected user and its password, decoded as UTF-8 or empty when absent, equals the expected one; a null expected password rejects everyone; an empty one accepts the user without a password |
| MqttBroker.Stop | host/src/main/java/org/example/mqtt/MqttBrokerService.java:112-126 | after stopping, the service is consistent and not running |
| MqttBroker.Start | host/src/main/java/org/example/mqtt/MqttBrokerService.java:94-110 | the error is the first failing step (no host, the directory, a missing user name, the server); a failure leaves the service stopped and cleared; a success leaves it running with the settings' address; calls into the library are only appended |
| MqttBroker.Apply | host/src/main/java/org/example/mqtt/MqttBrokerService.java:52-79 | null or disabled settings leave the broker stopped, a failed start leaves it stopped, a running broker after a status runs with exactly the given settings, and calls into the library are only appended |
| MqttBroker.ApplyConsistent | host/src/main/java/org/example/mqtt/MqttBrokerService.java:52-79 | applying any settings keeps the service consistent: either stopped with every field cleared, or running with a server, cached settings that enable the broker and name a host, and the runtime information of those settings |
| MqttBroker.ApplyOutcome | host/src/main/java/org/example/mqtt/MqttBrokerService.java:63-110 | enabled settings that differ from the running ones either start the broker, reporting STARTED or RESTARTED with its address, or fail with the reason and leave it stopped |
| MqttBroker.ApplyIdempotent | host/src/main/java/org/example/mqtt/MqttBrokerService.java:66-69 | applying the same settings again after a success reports NO_CHANGE and changes nothing |
| MqttBroker.DisableStops | host/src/main/java/org/example/mqtt/MqttBrokerService.java:54-61 | null or disabled settings stop a running broker (STOPPED) and otherwise report NO_CHANGE, with one server stop exactly when it was running |
| MqttBroker.StopIdempotent | host/src/main/java/org/example/mqtt/MqttBrokerService.java:112-126 | stopping twice is stopping once |
| MqttBroker.RestartOrder | host/src/main/java/org/example/mqtt/MqttBrokerService.java:71-76 | a restart stops the old server before starting the new one |
| MqttBroker.MqttBrokerService.constructor | host/src/main/java/org/example/mqtt/MqttBrokerService.java:47-50 | a new service has no server and is not running |
| MqttBroker.MqttBrokerService.StopInternal | host/src/main/java/org/example/mqtt/MqttBrokerService.java:112-126 | the new state is the stopped state |
| MqttBroker.MqttBrokerService.StartInternal | host/src/main/java/org/example/mqtt/MqttBrokerService.java:94-110 | the new state and the error are those of `Start` |
| MqttBroker.MqttBrokerService.ApplySettings | host/src/main/java/org/example/mqtt/MqttBrokerService.java:52-79 | the new state and the status are those of `Apply`, whose properties are the lemmas above |
| MqttBroker.MqttBrokerService.Shutdown | host/src/main/java/org/example/mqtt/MqttBrokerService.java:89-92 | the broker is stopped |
| EngineControl.ChessEngine.constructor | host/src/main/java/org/example/engine/ChessEngine.java:19-21 | a new engine has its executable path, not initialised and not shut down |
| EngineControl.ChessEngine.Initialize | host/src/main/java/org/example/engine/ChessEngine.java:23-45 | the result is whether the handshake succeeded, and the engine is initialised from then on exactly when it succeeded now or before |
| EngineControl.ChessEngine.Shutdown | host/src/main/java/org/example/engine/ChessEngine.java:123-141 | the engine is shut down; the initialised flag is left as it was |
| EngineControl.EngineOptions | host/src/main/java/org/example/engine/EngineController.java:79-81 | three options are set: skill level, threads and hash size |
| EngineControl.SentOptions | host/src/main/java/org/example/engine/EngineController.java:78-85 | the options sent are a prefix of the three, all of them when none throws |
| EngineControl.LowerRoot | host/src/main/java/org/example/engine/EngineController.java:102 | on ASCII text, lower-casing in the root locale keeps the length and lower-cases each letter |
| EngineControl.SideOf | host/src/main/java/org/example/engine/EngineController.java:102-106 | "white" names White and "black" names Black; on ASCII text only a five-character value names a side |
| EngineControl.SideOfAscii | host/src/main/java/org/example/engine/EngineController.java:102-106 | on ASCII text, the engine plays White exactly for "white" and Black exactly for "black", in any mixture of cases |
| EngineControl.DefaultPlaysNoSide | host/src/main/java/org/example/engine/EngineController.java:102-106 | the default value "Disabled" selects no side |
| EngineControl.CapitalisedNamesSide | host/src/main/java/org/example/engine/EngineController.java:102-106 | "White" selects White |
| EngineControl.KelvinSignNamesBlack | host/src/main/java/org/example/engine/EngineController.java:102-106 | since the Kelvin sign lower-cases to k, "blac" followed by it selects Black |
| EngineControl.EngineController.constructor | host/src/main/java/org/example/engine/EngineController.java:25-32 | a new controller has no engine, no settings, no errors and no options sent |
| EngineControl.EngineController.EngineSide | host/src/main/java/org/example/engine/EngineController.java:92-107 | no side without settings or without a value |
| EngineControl.EngineController.IsReady | host/src/main/java/org/example/engine/EngineController.java:88-90 | true exactly when there is an engine and it is initialised |
| EngineControl.EngineController.PlaysAsOpponent | host/src/main/java/org/example/engine/EngineController.java:109-111 | true exactly when a side is chosen and the engine is ready |
| EngineControl.EngineController.AnalyzePosition | host/src/main/java/org/example/engine/EngineController.java:113-137 | rejected with "Stockfish engine is disabled" exactly when the engine is not ready; otherwise the position is submitted with the configured thinking time |
| EngineControl.EngineController.NotifyError | host/src/main/java/org/example/engine/EngineController.java:154-158 | the message reaches the error handler exactly when there is one; nothing else changes |
| EngineControl.EngineController.DisableEngine | host/src/main/java/org/example/engine/EngineController.java:139-146 | an installed engine is shut down and dropped and the current path cleared; settings, errors and options are unchanged |
| EngineControl.EngineController.Shutdown | host/src/main/java/org/example/engine/EngineController.java:148-152 | the engine is disabled as by `disableEngine` |
| EngineControl.EngineController.ConfigureEngineOptions | host/src/main/java/org/example/engine/EngineController.java:71-86 | without a ready engine nothing happens; with one the options up to the failing call are sent, and a failing call adds one error carrying its message |
| EngineControl.EngineController.ApplySettings | host/src/main/java/org/example/engine/EngineController.java:34-69 | the settings are stored; disabled settings drop the engine; a missing or blank path drops it and reports the path error; the same path on an initialised engine only reconfigures it; otherwise the old engine is shut down and a new one started, which on success becomes the engine and is configured, and on failure leaves none and reports the failure with the path |

## Left out

- Hardware bring-up is abstracted: `stepper_motor_init`, `init_switch_from_dt`, the GPIO configuration in `limit_switch_init`, the creation of the motors in `robot_controller_init` and `servo_motor_init`. Their effect on the GPIO is not modelled. The results of GPIO writes and pin reads are parameters.
- Time is a parameter. This covers `k_uptime_get`, `k_busy_wait` and the waits in the planner's loops; a wait becomes one "poll until idle" command.
- LimitSwitch.SwitchTable.Isr: takes one `now` for the whole edge. The source reads the uptime again for each switch it examines, but they are moments apart.
- StepperMotor.Motor.Enable, MoveSteps, Stop and SetPosition: a method's receiver is never null, so the -EINVAL return for a null motor in `stepper_motor_enable`, `move_steps`, `stop` and `set_position` (stepper_motor.c:109, 130, 156, 178) is not modelled. The null cases of the queries are modelled (`IsMoving`, `GetPosition`, `GetState`).
- ServoMotor.Servo.SetAngle, SetPulseWidth and Enable: for the same reason the -EINVAL returns for a null servo in `servo_motor_set_angle`, `set_pulse_width` and `enable` (servo_motor.c:119, 135, 163) are not modelled. The null cases of `GetAngle` and `IsEnabled` are modelled.
- StepperMotor: positions, targets and step counts are unbounded integers. The `int32_t` overflow of a position that runs past the range of 32 bits is not modelled.
- Several callees have no body anywhere in the repository, so they are modelled by minimal contracts:
  - `stepper_motor_update_pair` updates both motors at the same instant;
  - `stepper_motor_emergency_stop` halts the motor where it stands;
  - `stepper_motor_move_steps_sync`;
  - the planner's `robot_controller_start_xy_move`, `start_z_move`, `is_xy_moving` and `is_z_moving`. They are a port whose replies are an input function from the call's index to its return code.
- `limit_switch_safety_poll`, called from `stepper_manager_update_all`, has no body. The header declares a differently named function. The call is left out.
- The homing state machine (`robot_controller_home_all`, `home_axis`, `get_homing_state`, `is_homing`) and the servo calls declared beside it have no body and are not modelled.
- StepperManager: the enum at include/stepper_manager.h:8-14 has a single Y id, yet the registry code uses `STEPPER_ID_Y1_AXIS` and `STEPPER_ID_Y2_AXIS`. The model uses X 0, Y1 1, Y2 2, Z 3, GRIPPER 4 and MAX 5, the order of the diagnostics name map.
- StepperManager.Registry.UpdateAll: each motor's new fields are stated only when no motor is registered in two slots. The source allows that case, and then ticks the motor twice.
- StepperManager.Registry.EnableAll: for the motors from the first failing slot on, it states only that each keeps its state or is enabled. The reason is aliasing: the same motor may be registered in an earlier slot too.
- ServoManager: the error return inside the loops of `servo_manager_enable_all` and `servo_manager_set_all_angle` cannot fire, because a registered servo is never null and the servo calls fail only for null. Both loops are modelled without it. `servo_create` returning NULL (memory exhaustion) is not modelled.
- The servo PWM thread, which drives the output pin from the stored pulse width, is concurrency and is left out.
- `mdns_browse_mqtt`, the socket calls and `sendto` are I/O and are left out. The query builders fill a buffer; sending it is not modelled.
- Mdns.DecodeName: it takes a ghost pass bound and requires that decoding does not loop forever. The source has no bound, and a cyclic pointer makes it spin (`CyclicPointerNeverEnds`). The corrected decoder `DecodeChecked` always ends; `DecodeName` still follows the firmware.
- Mdns.EncodeQname: on a 0 return it does not describe the label bytes already written inside the buffer. It states only that nothing outside the buffer changes.
- MQTT: the library is a set of parameters. This covers the connect/reconnect thread, `subscribe_to_topics` after CONNACK, the library's send results and reading the payload. MqttClient.Client.OnPublish requires that the read returns no more bytes than it was asked for.
- ChessBoardModel: the chess rules are an oracle. The legal moves of the current position and the board after a move are inputs, taken from chesslib. Its pass-through queries are not modelled: `getLegalMovesFrom`, `isInCheck`, `isCheckmate`, `isStalemate`, `isDraw` and `getFen`.
- ChessBoardModel.ChessBoard.MakeMove: an en-passant capture is recorded as a quiet move, as in the source. `getPiece(to)` is empty for it. The history getter's copy is the history field itself.
- ChessBoardModel.Initial: the starting position is built directly. Parsing the FEN text in `reset` is the library's.
- EngineControl: the Stockfish process is not modelled. Whether `initialize` succeeds, how many `setOption` calls go through and the exception message are parameters. A controller whose new engine failed to start does not shut that engine down, as in the source. The `analyzePosition` worker and its future are concurrency and become a submitted/rejected value.
- Java text: UTF-8 decoding, `Character.getNumericValue` and `toLowerCase` are parameters for input outside ASCII. On ASCII they are defined in full.
- MqttBroker: the Moquette server is not modelled. A start records a library call, and whether it succeeds is a parameter, as is whether the data directory can be created. `MqttSettings.copy` is the identity on the settings value.
- The test file `MqttBrokerServiceTest.java` calls a two-argument `buildProperties` and properties that the service does not have. The model follows the service.
- The arrow in `Move.toString` is modelled as the three characters the source file holds there. These are the UTF-8 bytes of a right arrow read as Windows-1252, so a quiet move's string has 9 characters.
- The legacy floating-point motion code (src/hal/stepper.c, src/subsys/motion/planner.c) is not modelled. Neither are cJSON handling, the user interface, settings persistence, the MQTT client in Java and the Python tools.
- BoardManager: the `board_driver` scan is a parameter. It gives the new mask or an error.
- BoardManager.Manager.Update: takes one `now` for both clock reads. The source reads `k_uptime_get_32()` for the move's timestamp (board_manager.c:63) and again for `last_update_time` (board_manager.c:111), moments apart.

## Findings

| source | as written | input that shows it | evidently intended | confidence | as-written member | corrected member |
|---|---|---|---|---|---|---|
| src/network/mdns_client.c:88-96 | the '.' between labels is written whenever one output byte is left, so it can take the byte meant for the NUL | the message 2 'a' 'b' 1 'c' 0 decoded into 3 bytes gives "ab." with no terminator | write the dot only when a byte stays free for the NUL, so the name is always terminated | not executed | Mdns.DotTakesLastByte | Mdns.KeepTerminatorTerminated |
| host/src/main/java/org/example/model/Move.java:5-6 | the prefix is the first letter of the type's name, so KNIGHT and KING both give "K"; GameLogView.java:42-50 does the same | a knight move to f3 and a king move to f3 are both written "Kf3" | "N" for a knight, as standard algebraic notation writes it | not executed | ChessMove.KnightWrittenAsKing | ChessMove.SanNotationDetermines |
| src/network/mdns_client.c:61-84 | compression pointers are followed with no limit and no check of direction, so a pointer into the name being read loops forever | the two-byte message C0 00, a pointer at offset 0 to offset 0 | accept only pointers that lead before the current run of labels, since section 4.1.4 of RFC 1035 has a pointer refer to a prior occurrence; decoding then always ends | not executed | Mdns.CyclicPointerNeverEnds | Mdns.DecodeChecked |
