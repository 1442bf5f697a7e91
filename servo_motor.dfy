/**
 * The hobby servo driver: the commanded angle is turned into a pulse width
 * between 500 and 2500 microseconds and back, with clamping and integer
 * division, and the servo can be switched on and off.
 *
 * The pulse train itself is produced by a separate PWM thread and is not
 * part of this model.
 */
module ServoMotor {
  const MIN_ANGLE: nat := 0
  const MAX_ANGLE: nat := 180
  const MIN_PULSE_US: nat := 500
  const MAX_PULSE_US: nat := 2500

  type u16 = x: int | 0 <= x < 0x1_0000
  type u32 = x: int | 0 <= x < 0x1_0000_0000

  function Min(a: int, b: int): int { if a <= b then a else b }

  /** The pulse width `servo_motor_set_angle` commands for an angle: the angle clamped to 180 and scaled. */
  function AngleToPulse(angle: u16): (p: u32)
    ensures MIN_PULSE_US <= p <= MAX_PULSE_US
  {
    var a := Min(angle, MAX_ANGLE);
    MIN_PULSE_US + ((MAX_PULSE_US - MIN_PULSE_US) * a) / MAX_ANGLE
  }

  /** A pulse width clamped into the servo's range. */
  function ClampPulse(pulse: u32): (p: u32)
    ensures MIN_PULSE_US <= p <= MAX_PULSE_US
    ensures MIN_PULSE_US <= pulse <= MAX_PULSE_US ==> p == pulse
    ensures pulse < MIN_PULSE_US ==> p == MIN_PULSE_US
    ensures pulse > MAX_PULSE_US ==> p == MAX_PULSE_US
  {
    if pulse < MIN_PULSE_US then MIN_PULSE_US
    else if pulse > MAX_PULSE_US then MAX_PULSE_US
    else pulse
  }

  /** The angle `servo_motor_set_pulse_width` records for a pulse width: clamped, then scaled back. */
  function PulseToAngle(pulse: u32): (a: u16)
    ensures a <= MAX_ANGLE
  {
    var p := ClampPulse(pulse);
    ((p - MIN_PULSE_US) * MAX_ANGLE) / (MAX_PULSE_US - MIN_PULSE_US)
  }

  /**
   * The ends of the range map onto each other, angles beyond 180 act as
   * 180, and a larger angle never gives a shorter pulse.
   */
  lemma AngleToPulseRange(a: u16, b: u16)
    ensures AngleToPulse(0) == MIN_PULSE_US && AngleToPulse(MAX_ANGLE) == MAX_PULSE_US
    ensures a >= MAX_ANGLE ==> AngleToPulse(a) == MAX_PULSE_US
    ensures a <= b ==> AngleToPulse(a) <= AngleToPulse(b)
    ensures PulseToAngle(MIN_PULSE_US) == 0 && PulseToAngle(MAX_PULSE_US) == MAX_ANGLE
  {
    var x, y := Min(a, MAX_ANGLE), Min(b, MAX_ANGLE);
    if x <= y {
      var qx, qy := (2000 * x) / 180, (2000 * y) / 180;
      assert 180 * qx <= 2000 * x <= 2000 * y < 180 * qy + 180;
    }
  }

  /**
   * Setting an angle and reading it back gives the angle clamped to 180,
   * or one less: the two integer divisions each round down.
   */
  lemma AngleRoundTrip(angle: u16)
    ensures var a := Min(angle, MAX_ANGLE); var back := PulseToAngle(AngleToPulse(angle));
      back == a || back == a - 1
  {
    var a := Min(angle, MAX_ANGLE);
    var q := (2000 * a) / 180;
    assert 180 * q <= 2000 * a < 180 * q + 180;
    var back := (q * 180) / 2000;
    assert 2000 * back <= q * 180 < 2000 * back + 2000;
    assert AngleToPulse(angle) == 500 + q;
    assert PulseToAngle(AngleToPulse(angle)) == back;
  }

  /** A `servo_motor_t`: the recorded angle and pulse width, and whether it is on. */
  class Servo {
    var angle: u16
    var pulseUs: u32
    var enabled: bool

    /** The angle is always the one the pulse width stands for, and the pulse is in range. */
    ghost predicate Valid()
      reads this
    {
      MIN_PULSE_US <= pulseUs <= MAX_PULSE_US && angle == PulseToAngle(pulseUs)
    }

    /** `servo_motor_create`: centred at 90 degrees (1500 microseconds), switched off. */
    constructor ()
      ensures Valid() && angle == 90 && pulseUs == (MIN_PULSE_US + MAX_PULSE_US) / 2 && !enabled
    {
      angle := 90;
      pulseUs := (MIN_PULSE_US + MAX_PULSE_US) / 2;
      enabled := false;
    }

    /** `servo_motor_set_pulse_width`: the pulse is clamped into range and the angle follows it. */
    method SetPulseWidth(pulse: u32) returns (ret: int)
      modifies this
      ensures Valid() && ret == 0
      ensures pulseUs == ClampPulse(pulse) && angle == PulseToAngle(pulse) && enabled == old(enabled)
    {
      var p := pulse;
      if p < MIN_PULSE_US {
        p := MIN_PULSE_US;
      }
      if p > MAX_PULSE_US {
        p := MAX_PULSE_US;
      }
      pulseUs := p;
      angle := ((p - MIN_PULSE_US) * MAX_ANGLE) / (MAX_PULSE_US - MIN_PULSE_US);
      return 0;
    }

    /**
     * `servo_motor_set_angle`: the pulse width for the clamped angle is
     * commanded, and the recorded angle is the clamped angle or one less.
     */
    method SetAngle(a: u16) returns (ret: int)
      modifies this
      ensures Valid() && ret == 0
      ensures pulseUs == AngleToPulse(a) && angle == PulseToAngle(AngleToPulse(a)) && enabled == old(enabled)
    {
      var clamped := a;
      if clamped > MAX_ANGLE {
        clamped := MAX_ANGLE;
      }
      var pulse := MIN_PULSE_US + ((MAX_PULSE_US - MIN_PULSE_US) * clamped) / MAX_ANGLE;
      ret := SetPulseWidth(pulse);
    }

    /**
     * `servo_motor_enable`: records the new state; `pinCleared` tells
     * whether the servo was switched off now, which drives its pin low.
     */
    method Enable(enable: bool) returns (ret: int, pinCleared: bool)
      modifies this
      ensures ret == 0 && enabled == enable && pinCleared == (old(enabled) && !enable)
      ensures angle == old(angle) && pulseUs == old(pulseUs)
    {
      pinCleared := false;
      if enable && !enabled {
        enabled := true;
      } else if !enable && enabled {
        enabled := false;
        pinCleared := true;
      }
      ret := 0;
    }
  }

  /** `servo_motor_get_angle`: 0 for a missing servo. */
  function GetAngle(s: Servo?): (a: u16)
    reads s
    ensures s == null ==> a == 0
    ensures s != null ==> a == s.angle
  {
    if s == null then 0 else s.angle
  }

  /** `servo_motor_is_enabled`: false for a missing servo. */
  function IsEnabled(s: Servo?): (b: bool)
    reads s
    ensures b <==> s != null && s.enabled
  {
    s != null && s.enabled
  }

  /** Reading back a servo whose angle was set gives about the angle asked for. */
  lemma GetAngleAfterSetAngle(s: Servo, a: u16)
    requires s.pulseUs == AngleToPulse(a) && s.angle == PulseToAngle(AngleToPulse(a))
    ensures GetAngle(s) == Min(a, MAX_ANGLE) || GetAngle(s) == Min(a, MAX_ANGLE) - 1
  {
    AngleRoundTrip(a);
  }
}
