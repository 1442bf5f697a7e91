/**
 * The servo registry: a table of eight slots, cleared on the first
 * initialisation, and operations applied to every registered servo in slot
 * order.
 */
module ServoManager {
  import opened Errno
  import opened ServoMotor

  const MAX_SERVO_MOTORS: nat := 8

  class Registry {
    var slots: array<Servo?>
    var initialized: bool

    ghost predicate Valid()
      reads this, slots
    {
      slots.Length == MAX_SERVO_MOTORS
      && (!initialized ==> forall j :: 0 <= j < MAX_SERVO_MOTORS ==> slots[j] == null)
    }

    /** The registry as it is before `servo_manager_init`: not initialised, every slot empty. */
    constructor ()
      ensures Valid() && fresh(slots) && !initialized
    {
      slots := new Servo?[MAX_SERVO_MOTORS](_ => null);
      initialized := false;
    }

    /** `servo_manager_init`: clears the table on the first call only. */
    method Init() returns (ret: int)
      requires Valid()
      modifies this, slots
      ensures Valid() && initialized && ret == 0 && slots == old(slots)
      ensures forall j :: 0 <= j < MAX_SERVO_MOTORS ==> slots[j] == (if old(initialized) then old(slots[j]) else null)
    {
      if initialized {
        return 0;
      }
      var j := 0;
      while j < MAX_SERVO_MOTORS
        invariant 0 <= j <= MAX_SERVO_MOTORS
        invariant slots == old(slots) && slots.Length == MAX_SERVO_MOTORS
        invariant forall k :: 0 <= k < j ==> slots[k] == null
      {
        slots[j] := null;
        j := j + 1;
      }
      initialized := true;
      return 0;
    }

    /** `servo_manager_get_servo`. */
    function GetServo(id: nat): (s: Servo?)
      reads this, slots
      requires Valid()
      ensures !initialized || id >= MAX_SERVO_MOTORS ==> s == null
      ensures initialized && id < MAX_SERVO_MOTORS ==> s == slots[id]
    {
      if !initialized || id >= MAX_SERVO_MOTORS then null else slots[id]
    }

    /**
     * `servo_manager_register_servo`: refuses with -EINVAL before init, for
     * an id outside the table or for a missing servo; otherwise only slot
     * `id` changes, and looking it up gives the servo back.
     */
    method Register(id: nat, s: Servo?) returns (ret: int)
      requires Valid()
      modifies slots
      ensures Valid()
      ensures ret == 0 || ret == -EINVAL
      ensures ret == -EINVAL <==> !initialized || id >= MAX_SERVO_MOTORS || s == null
      ensures ret == -EINVAL ==> slots[..] == old(slots[..])
      ensures ret == 0 ==> slots[..] == old(slots[..])[id := s] && GetServo(id) == s
      ensures forall k :: k != id ==> GetServo(k) == old(GetServo(k))
    {
      if !initialized || id >= MAX_SERVO_MOTORS || s == null {
        return -EINVAL;
      }
      slots[id] := s;
      return 0;
    }

    /**
     * `servo_manager_enable_all`: -EINVAL before init (when no slot can
     * hold a servo yet); otherwise every
     * registered servo is switched on or off, in slot order, and since
     * switching a servo cannot fail, the call returns 0.
     */
    method EnableAll(enable: bool) returns (ret: int)
      requires Valid()
      modifies slots[..]
      ensures !initialized ==> ret == -EINVAL
      ensures initialized ==> ret == 0
      ensures initialized ==> forall j :: 0 <= j < MAX_SERVO_MOTORS && slots[j] != null ==>
        slots[j].angle == old(slots[j].angle) && slots[j].pulseUs == old(slots[j].pulseUs)
        && slots[j].enabled == enable
    {
      if !initialized {
        return -EINVAL;
      }
      var i := 0;
      while i < MAX_SERVO_MOTORS
        invariant 0 <= i <= MAX_SERVO_MOTORS
        invariant forall j :: 0 <= j < MAX_SERVO_MOTORS && slots[j] != null ==>
          slots[j].angle == old(slots[j].angle) && slots[j].pulseUs == old(slots[j].pulseUs)
          && (slots[j].enabled == enable || (j >= i && slots[j].enabled == old(slots[j].enabled)))
      {
        if slots[i] != null {
          var _, _ := slots[i].Enable(enable);
        }
        i := i + 1;
      }
      return 0;
    }

    /**
     * `servo_manager_set_all_angle`: -EINVAL before init (when no slot can
     * hold a servo yet); otherwise every
     * registered servo is set to the angle, in slot order, and since setting
     * an angle cannot fail, the call returns 0.
     */
    method SetAllAngle(a: u16) returns (ret: int)
      requires Valid()
      modifies slots[..]
      ensures !initialized ==> ret == -EINVAL
      ensures initialized ==> ret == 0
      ensures initialized ==> forall j :: 0 <= j < MAX_SERVO_MOTORS && slots[j] != null ==>
        slots[j].enabled == old(slots[j].enabled)
        && slots[j].pulseUs == AngleToPulse(a) && slots[j].angle == PulseToAngle(AngleToPulse(a))
    {
      if !initialized {
        return -EINVAL;
      }
      var i := 0;
      while i < MAX_SERVO_MOTORS
        invariant 0 <= i <= MAX_SERVO_MOTORS
        invariant forall j :: 0 <= j < MAX_SERVO_MOTORS && slots[j] != null ==>
          slots[j].enabled == old(slots[j].enabled)
          && ((slots[j].pulseUs == AngleToPulse(a) && slots[j].angle == PulseToAngle(AngleToPulse(a)))
              || (j >= i && slots[j].pulseUs == old(slots[j].pulseUs) && slots[j].angle == old(slots[j].angle)))
      {
        if slots[i] != null {
          var _ := slots[i].SetAngle(a);
        }
        i := i + 1;
      }
      return 0;
    }
  }
}
