/**
 * The limit-switch table: up to three switches (X, Y, Z), each with at most
 * two attached motors, a sticky "triggered" flag, and an interrupt handler
 * that debounces by time and emergency-stops the attached motors.
 *
 * GPIO reads and writes are inputs: the pin level of each switch and the
 * return code of each interrupt configuration are parameters, and so is the
 * 32-bit uptime the handler reads.
 */
module LimitSwitch {
  import opened Errno
  import opened StepperMotor

  const MAX_ATTACHED_MOTORS: nat := 2
  const DEBOUNCE_TIME_MS: nat := 50

  /** A `uint32_t` value. */
  type u32 = x: int | 0 <= x < 0x1_0000_0000

  /** `now - last` computed in `uint32_t`, which wraps modulo 2^32. */
  function Elapsed(now: u32, last: u32): (d: u32)
    ensures d == (now - last) % 0x1_0000_0000
  {
    if now >= last then now - last else now + 0x1_0000_0000 - last
  }
  const LIMIT_SWITCH_MAX: nat := 3

  /** The interrupt configuration `enable_interrupt` asks the GPIO driver for. */
  datatype InterruptFlags = EdgeToActive | EdgeToInactive | InterruptDisable

  /** The fields of one switch. */
  datatype SwitchState = SwitchState(
    inPort: nat, inPin: nat, activeHigh: bool,
    motors: seq<Motor>, hasCallback: bool,
    triggered: bool, lastTriggerTime: u32, interruptEnabled: bool, initialized: bool)

  /** A switch as the zeroed table leaves it. */
  const Zero: SwitchState := SwitchState(0, 0, false, [], false, false, 0, false, false)

  /**
   * One interrupt: the GPIO port it came from, the pins set in its mask, the
   * 32-bit uptime the handler reads, and `levels[j]`, what reading the pin
   * of switch `j` returns.
   */
  datatype Edge = Edge(port: nat, pins: set<nat>, now: u32, levels: seq<int>)

  /** The handler looks at this switch for the edge `e`. */
  predicate Watches(s: SwitchState, e: Edge) {
    s.initialized && s.interruptEnabled && s.inPort == e.port && s.inPin in e.pins
  }

  /** An edge at uptime `now` falls inside the debounce window; the subtraction wraps like `uint32_t`. */
  predicate Bounces(s: SwitchState, now: u32) {
    Elapsed(now, s.lastTriggerTime) < DEBOUNCE_TIME_MS
  }

  /** The pin level `level` (what `gpio_pin_get` returned) means the switch is pressed. */
  predicate Active(activeHigh: bool, level: int) {
    if activeHigh then level > 0 else level == 0
  }

  /** A switch after an accepted edge at uptime `now`. */
  function Fired(s: SwitchState, now: u32): SwitchState {
    s.(lastTriggerTime := now, triggered := true)
  }

  /**
   * Where the handler's scan stops: the first switch from `i` on that is
   * watched for `e` while inside its debounce window (the handler returns
   * there), or `|ss|` when it runs through the whole table.
   */
  function StopIndex(ss: seq<SwitchState>, e: Edge, i: nat): (k: nat)
    requires i <= |ss|
    ensures i <= k <= |ss|
    decreases |ss| - i
  {
    if i == |ss| then i
    else if Watches(ss[i], e) && Bounces(ss[i], e.now) then i
    else StopIndex(ss, e, i + 1)
  }

  /** Switch `j` accepts the edge: the scan reaches it, watches it, and its pin reads active. */
  predicate Fires(ss: seq<SwitchState>, e: Edge, j: nat)
    requires j < |ss| && |e.levels| == |ss|
  {
    j < StopIndex(ss, e, 0) && Watches(ss[j], e) && Active(ss[j].activeHigh, e.levels[j])
  }

  /** The table once the scan has got past the first `upto` switches. */
  function ScanStates(ss: seq<SwitchState>, e: Edge, upto: nat): (r: seq<SwitchState>)
    requires upto <= |ss| && |e.levels| == |ss|
    ensures |r| == |ss|
  {
    seq(|ss|, j requires 0 <= j < |ss| => if j < upto && Fires(ss, e, j) then Fired(ss[j], e.now) else ss[j])
  }

  /** The switches among the first `upto` that fire, in scan order. */
  function FiredUpTo(ss: seq<SwitchState>, e: Edge, upto: nat): seq<nat>
    requires upto <= |ss| && |e.levels| == |ss|
  {
    if upto == 0 then []
    else FiredUpTo(ss, e, upto - 1) + (if Fires(ss, e, upto - 1) then [upto - 1] else [])
  }

  /** The fired switches, in order, that have a callback registered. */
  function WithCallback(fired: seq<nat>, ss: seq<SwitchState>): seq<nat>
  {
    if fired == [] then []
    else
      var last := fired[|fired| - 1];
      WithCallback(fired[..|fired| - 1], ss) + (if last < |ss| && ss[last].hasCallback then [last] else [])
  }

  /** The motors attached to the switches in `fired`, in order: the emergency stops the handler issues. */
  function StoppedBy(fired: seq<nat>, ss: seq<SwitchState>): seq<Motor>
  {
    if fired == [] then []
    else
      var last := fired[|fired| - 1];
      StoppedBy(fired[..|fired| - 1], ss) + (if last < |ss| then ss[last].motors else [])
  }

  /** A motor is emergency-stopped exactly when it is attached to a switch in `fired`. */
  lemma {:induction false} StoppedByExactly(fired: seq<nat>, ss: seq<SwitchState>, m: Motor)
    ensures m in StoppedBy(fired, ss) <==> exists j :: j in fired && j < |ss| && m in ss[j].motors
  {
    if fired != [] {
      var prefix, last := fired[..|fired| - 1], fired[|fired| - 1];
      StoppedByExactly(prefix, ss, m);
      assert fired == prefix + [last];
      if m in StoppedBy(fired, ss) && m !in StoppedBy(prefix, ss) {
        assert last in fired && last < |ss| && m in ss[last].motors;
      }
    }
  }

  /** No switch before the stop index is watched inside its window; the one at it is. */
  lemma {:induction false} StopIndexIsFirst(ss: seq<SwitchState>, e: Edge, i: nat)
    requires i <= |ss|
    ensures var k := StopIndex(ss, e, i);
      (forall j :: i <= j < k ==> !(Watches(ss[j], e) && Bounces(ss[j], e.now)))
      && (k < |ss| ==> Watches(ss[k], e) && Bounces(ss[k], e.now))
    decreases |ss| - i
  {
    if i < |ss| && !(Watches(ss[i], e) && Bounces(ss[i], e.now)) {
      StopIndexIsFirst(ss, e, i + 1);
    }
  }

  /**
   * A switch fires exactly when it is watched for the edge, outside its
   * debounce window, reads active, and no earlier watched switch was inside
   * its own window; firing sets its flag and trigger time and nothing else.
   */
  lemma FiresExactly(ss: seq<SwitchState>, e: Edge, j: nat)
    requires j < |ss| && |e.levels| == |ss|
    ensures Fires(ss, e, j) <==>
      Watches(ss[j], e) && !Bounces(ss[j], e.now) && Active(ss[j].activeHigh, e.levels[j])
      && forall i :: 0 <= i < j ==> !(Watches(ss[i], e) && Bounces(ss[i], e.now))
    ensures var r := ScanStates(ss, e, |ss|)[j];
      if Fires(ss, e, j) then r.triggered && r.lastTriggerTime == e.now && r == ss[j].(triggered := true, lastTriggerTime := e.now)
      else r == ss[j]
  {
    StopIndexIsFirst(ss, e, 0);
  }

  /**
   * A watched switch inside its debounce window ends the scan: neither it
   * nor any switch after it fires, even one whose own window has passed.
   */
  lemma BounceEndsScan(ss: seq<SwitchState>, e: Edge, k: nat, j: nat)
    requires k <= j < |ss| && |e.levels| == |ss|
    requires Watches(ss[k], e) && Bounces(ss[k], e.now)
    ensures !Fires(ss, e, j) && ScanStates(ss, e, |ss|)[j] == ss[j]
  {
    StopIndexIsFirst(ss, e, 0);
  }

  /**
   * The last trigger time of a switch starts at 0, so an edge during the
   * first 50 ms of uptime is inside the window and never fires that switch.
   */
  lemma EarlyEdgeIgnored(ss: seq<SwitchState>, e: Edge, j: nat)
    requires j < |ss| && |e.levels| == |ss|
    requires ss[j].lastTriggerTime == 0 && e.now < DEBOUNCE_TIME_MS
    ensures !Fires(ss, e, j)
  {
    StopIndexIsFirst(ss, e, 0);
  }

  /** `FiredUpTo` lists, in increasing order, exactly the switches below `upto` that fire. */
  lemma {:induction false} FiredUpToExactly(ss: seq<SwitchState>, e: Edge, upto: nat)
    requires upto <= |ss| && |e.levels| == |ss|
    ensures forall j: nat :: j in FiredUpTo(ss, e, upto) <==> j < upto && Fires(ss, e, j)
    ensures forall a, b :: 0 <= a < b < |FiredUpTo(ss, e, upto)| ==> FiredUpTo(ss, e, upto)[a] < FiredUpTo(ss, e, upto)[b]
  {
    if upto > 0 {
      var prev := FiredUpTo(ss, e, upto - 1);
      FiredUpToExactly(ss, e, upto - 1);
      assert FiredUpTo(ss, e, upto) == prev + (if Fires(ss, e, upto - 1) then [upto - 1] else []);
      forall a, b | 0 <= a < b < |FiredUpTo(ss, e, upto)|
        ensures FiredUpTo(ss, e, upto)[a] < FiredUpTo(ss, e, upto)[b]
      {
        if b == |prev| {
          assert prev[a] in prev;
        }
      }
    }
  }

  /**
   * One step of the scan: given the table `before` the scan has produced
   * over the first `i` switches, and the handler's outcome at switch `i`
   * (`stop`, `fire`, the table `after`), the bookkeeping advances to `i + 1`
   * or the scan is complete.
   */
  lemma ScanAdvance(ss: seq<SwitchState>, e: Edge, i: nat, before: seq<SwitchState>, stop: bool, fire: bool, after: seq<SwitchState>,
                    fired: seq<nat>, callbacks: seq<nat>, stopped: seq<Motor>)
    requires i < |ss| == |e.levels| == |before| && i <= StopIndex(ss, e, 0)
    requires before == ScanStates(ss, e, i)
    requires fired == FiredUpTo(ss, e, i)
    requires callbacks == WithCallback(fired, ss) && stopped == StoppedBy(fired, ss)
    requires var s := before[i];
      stop == (Watches(s, e) && Bounces(s, e.now))
      && fire == (Watches(s, e) && !Bounces(s, e.now) && Active(s.activeHigh, e.levels[i]))
      && after == if fire then before[i := Fired(s, e.now)] else before
    ensures stop ==> after == ScanStates(ss, e, |ss|) && fired == FiredUpTo(ss, e, |ss|)
    ensures !stop ==> i + 1 <= StopIndex(ss, e, 0) && after == ScanStates(ss, e, i + 1)
    ensures !stop && fire ==>
      fired + [i] == FiredUpTo(ss, e, i + 1)
      && (if after[i].hasCallback then callbacks + [i] else callbacks) == WithCallback(fired + [i], ss)
      && stopped + after[i].motors == StoppedBy(fired + [i], ss)
    ensures !stop && !fire ==> fired == FiredUpTo(ss, e, i + 1)
  {
    assert before[i] == ss[i];
    if stop {
      StopIndexIsFirst(ss, e, 0);
      ScanPastStop(ss, e, i);
    } else {
      ScanContinues(ss, e, i, fire);
      if fire {
        FireRecorded(fired, callbacks, stopped, ss, i);
      }
    }
  }

  /** A switch the scan reaches and that does not end it fires exactly when it accepts the edge. */
  lemma ScanContinues(ss: seq<SwitchState>, e: Edge, i: nat, fire: bool)
    requires i < |ss| == |e.levels| && i <= StopIndex(ss, e, 0)
    requires !(Watches(ss[i], e) && Bounces(ss[i], e.now))
    requires fire == (Watches(ss[i], e) && Active(ss[i].activeHigh, e.levels[i]))
    ensures i + 1 <= StopIndex(ss, e, 0) && fire == Fires(ss, e, i)
    ensures ScanStates(ss, e, i + 1) == if fire then ScanStates(ss, e, i)[i := Fired(ss[i], e.now)] else ScanStates(ss, e, i)
    ensures FiredUpTo(ss, e, i + 1) == FiredUpTo(ss, e, i) + (if fire then [i] else [])
  {
    StopIndexIsFirst(ss, e, 0);
  }

  /** Appending a fired switch `i` to `fired` appends its callback and its motors. */
  lemma FireRecorded(fired: seq<nat>, callbacks: seq<nat>, stopped: seq<Motor>, ss: seq<SwitchState>, i: nat)
    requires i < |ss| && callbacks == WithCallback(fired, ss) && stopped == StoppedBy(fired, ss)
    ensures (if ss[i].hasCallback then callbacks + [i] else callbacks) == WithCallback(fired + [i], ss)
    ensures stopped + ss[i].motors == StoppedBy(fired + [i], ss)
  {
    var next := fired + [i];
    assert next[..|fired|] == fired && next[|fired|] == i;
  }

  /** Past the stop index the scan changes nothing more. */
  lemma ScanPastStop(ss: seq<SwitchState>, e: Edge, upto: nat)
    requires upto <= |ss| && |e.levels| == |ss| && StopIndex(ss, e, 0) <= upto
    ensures ScanStates(ss, e, upto) == ScanStates(ss, e, |ss|)
    ensures FiredUpTo(ss, e, upto) == FiredUpTo(ss, e, |ss|)
    decreases |ss| - upto
  {
    if upto < |ss| {
      ScanPastStop(ss, e, upto + 1);
      assert FiredUpTo(ss, e, upto + 1) == FiredUpTo(ss, e, upto) + [];
    }
  }

  /** `limit_switch_is_triggered`: reads the pin; false for a missing or uninitialised switch. */
  function IsTriggered(sw: Switch?, level: int): (pressed: bool)
    reads sw
    ensures pressed <==> sw != null && sw.initialized && Active(sw.activeHigh, level)
  {
    if sw == null || !sw.initialized then false
    else Active(sw.activeHigh, level)
  }

  /** `limit_switch_was_triggered`: the sticky flag; false for a missing switch. */
  function WasTriggered(sw: Switch?): (flag: bool)
    reads sw
    ensures flag <==> sw != null && sw.State().triggered
  {
    sw != null && sw.triggered
  }

  /** The GPIO interrupt mode `enable_interrupt` requests. */
  function InterruptMode(enable: bool, activeHigh: bool): (f: InterruptFlags)
    ensures f == InterruptDisable <==> !enable
    ensures enable ==> (f == EdgeToActive <==> activeHigh)
  {
    if !enable then InterruptDisable
    else if activeHigh then EdgeToActive
    else EdgeToInactive
  }

  /**
   * `limit_switch_attach_motor`: -EINVAL for a missing switch or motor,
   * -ENOMEM once two motors are attached, otherwise the motor is appended.
   */
  method AttachMotor(sw: Switch?, motor: Motor?) returns (ret: int)
    requires sw != null ==> sw.Valid()
    modifies sw
    ensures sw != null ==> sw.Valid()
    ensures sw == null || motor == null ==> ret == -EINVAL
    ensures sw != null && motor == null ==> sw.State() == old(sw.State())
    ensures sw != null && motor != null && old(|sw.motors|) >= MAX_ATTACHED_MOTORS ==>
      ret == -ENOMEM && sw.State() == old(sw.State())
    ensures sw != null && motor != null && old(|sw.motors|) < MAX_ATTACHED_MOTORS ==>
      ret == 0 && sw.State() == old(sw.State()).(motors := old(sw.motors) + [motor])
  {
    if sw == null || motor == null {
      return -EINVAL;
    }
    if |sw.motors| >= MAX_ATTACHED_MOTORS {
      return -ENOMEM;
    }
    sw.motors := sw.motors + [motor];
    return 0;
  }

  /** `limit_switch_register_callback`: installs (or, with no callback, removes) the callback. */
  method RegisterCallback(sw: Switch?, present: bool) returns (ret: int)
    modifies sw
    ensures sw == null ==> ret == -EINVAL
    ensures sw != null ==> ret == 0 && sw.State() == old(sw.State()).(hasCallback := present)
  {
    if sw == null {
      return -EINVAL;
    }
    sw.hasCallback := present;
    return 0;
  }

  /**
   * `limit_switch_enable_interrupt`, where `gpio` gives what configuring the
   * pin's interrupt in a given mode returns: -EINVAL for a missing or
   * uninitialised switch; otherwise the driver's code, and the switch's
   * interrupt flag follows `enable` only when that code is 0.
   */
  method EnableInterrupt(sw: Switch?, enable: bool, gpio: InterruptFlags -> int) returns (ret: int)
    modifies sw
    ensures sw == null || !old(sw.initialized) ==> ret == -EINVAL
    ensures sw != null && !old(sw.initialized) ==> sw.State() == old(sw.State())
    ensures sw != null && old(sw.initialized) ==>
      ret == gpio(InterruptMode(enable, sw.activeHigh))
      && sw.State() == if ret == 0 then old(sw.State()).(interruptEnabled := enable) else old(sw.State())
  {
    if sw == null || !sw.initialized {
      return -EINVAL;
    }
    var flags := InterruptMode(enable, sw.activeHigh);
    ret := gpio(flags);
    if ret == 0 {
      sw.interruptEnabled := enable;
    }
  }

  /** `limit_switch_clear_triggered`: only the sticky flag is reset. */
  method ClearTriggered(sw: Switch?)
    modifies sw
    ensures sw != null ==> sw.State() == old(sw.State()).(triggered := false)
  {
    if sw != null {
      sw.triggered := false;
    }
  }

  /**
   * The motors of `before`, whose fields were those it maps them to, after
   * the emergency stops `stopped`: each keeps its position, a stopped one is
   * not moving, and one never stopped is untouched.
   */
  ghost predicate StopsApplied(before: map<Motor, Fields>, stopped: seq<Motor>)
    reads before.Keys
  {
    forall m :: m in before ==>
      m.position == before[m].position
      && (m in stopped ==> m.state != Moving)
      && (m !in stopped ==> m.Snapshot() == before[m])
  }

  /** The motors attached to the switches of the table `ss`, switch by switch. */
  function AttachedTo(ss: seq<SwitchState>): seq<Motor>
    requires |ss| == LIMIT_SWITCH_MAX
  {
    ss[0].motors + ss[1].motors + ss[2].motors
  }

  /** The fields of each of the motors `ms`. */
  function FieldsOf(ms: seq<Motor>): map<Motor, Fields>
    reads ms
  {
    map m | m in ms :: m.Snapshot()
  }

  class Switch {
    const inPort: nat
    const inPin: nat
    const activeHigh: bool
    /** The attached motors (`motors[0 .. motor_count)` of the firmware). */
    var motors: seq<Motor>
    var hasCallback: bool
    var triggered: bool
    var lastTriggerTime: u32
    var interruptEnabled: bool
    var initialized: bool

    function State(): SwitchState
      reads this
    {
      SwitchState(inPort, inPin, activeHigh, motors, hasCallback, triggered, lastTriggerTime, interruptEnabled, initialized)
    }

    ghost predicate Valid()
      reads this
    {
      inPin < 32 && |motors| <= MAX_ATTACHED_MOTORS
    }

    /** A slot of the zeroed table whose switch was never brought up. */
    constructor Zeroed()
      ensures Valid() && State() == Zero
    {
      inPort, inPin, activeHigh := 0, 0, false;
      motors, hasCallback := [], false;
      triggered, lastTriggerTime, interruptEnabled, initialized := false, 0, false, false;
    }

    /** A switch whose GPIO bring-up succeeded: interrupts on, last trigger time 0. */
    constructor Configured(port: nat, pin: nat, high: bool)
      requires pin < 32
      ensures Valid() && State() == SwitchState(port, pin, high, [], false, false, 0, true, true)
    {
      inPort, inPin, activeHigh := port, pin, high;
      motors, hasCallback := [], false;
      triggered, lastTriggerTime, interruptEnabled, initialized := false, 0, true, true;
    }

    /**
     * The handler's action on an accepted edge at `now`: record the time,
     * set the flag, emergency-stop each attached motor in order. `stopped`
     * lists the motors emergency-stopped, in call order.
     */
    method Trip(now: u32, ghost before: map<Motor, Fields>, ghost earlier: seq<Motor>) returns (stopped: seq<Motor>)
      requires StopsApplied(before, earlier)
      modifies this, motors
      ensures State() == Fired(old(State()), now)
      ensures stopped == motors
      ensures forall m :: m in motors ==> m.state != Moving && m.position == old(m.position)
      ensures StopsApplied(before, earlier + stopped)
    {
      lastTriggerTime := now;
      triggered := true;
      stopped := [];
      var k := 0;
      while k < |motors|
        invariant 0 <= k <= |motors|
        invariant State() == Fired(old(State()), now)
        invariant stopped == motors[..k]
        invariant forall m :: m in motors ==> m.position == old(m.position)
        invariant forall m :: m in motors[..k] ==> m.state != Moving
      {
        assert motors[..k + 1] == motors[..k] + [motors[k]];
        motors[k].EmergencyStop();
        stopped := stopped + [motors[k]];
        k := k + 1;
      }
      forall m | m in before
        ensures m.position == before[m].position
        ensures m in earlier + stopped ==> m.state != Moving
        ensures m !in earlier + stopped ==> m.Snapshot() == before[m]
      {
        if m !in motors {
          assert m.Snapshot() == old(m.Snapshot());
        }
      }
    }
  }

  class SwitchTable {
    /** The switches for the X, Y and Z axes, in id order. */
    const switches: seq<Switch>

    ghost predicate Valid()
      reads this, switches
    {
      |switches| == LIMIT_SWITCH_MAX
      && switches[0] != switches[1] && switches[0] != switches[2] && switches[1] != switches[2]
      && forall j :: 0 <= j < LIMIT_SWITCH_MAX ==> switches[j].Valid()
    }

    /** The fields of the three switches. */
    function States(): seq<SwitchState>
      reads this, switches
      requires |switches| == LIMIT_SWITCH_MAX
    {
      [switches[0].State(), switches[1].State(), switches[2].State()]
    }

    constructor (x: Switch, y: Switch, z: Switch)
      requires x != y && x != z && y != z && x.Valid() && y.Valid() && z.Valid()
      ensures Valid() && switches == [x, y, z]
    {
      switches := [x, y, z];
    }

    /** `limit_switch_get`: missing for an id past the table or a switch that was never brought up. */
    function Get(id: nat): (sw: Switch?)
      reads this, switches
      requires Valid()
      ensures sw == null <==> id >= LIMIT_SWITCH_MAX || !States()[id].initialized
      ensures sw != null ==> sw == switches[id]
    {
      if id >= LIMIT_SWITCH_MAX then null
      else if !switches[id].initialized then null
      else switches[id]
    }

    /**
     * `limit_switch_isr` for the edge `e`. `fired` lists the switches that
     * accepted the edge, `callbacks` those whose callback was then invoked,
     * and `stopped` the motors emergency-stopped, all in call order.
     */
    method Isr(e: Edge) returns (fired: seq<nat>, callbacks: seq<nat>, stopped: seq<Motor>)
      requires Valid() && |e.levels| == LIMIT_SWITCH_MAX
      modifies switches, switches[0].motors, switches[1].motors, switches[2].motors
      ensures Valid()
      ensures States() == ScanStates(old(States()), e, LIMIT_SWITCH_MAX)
      ensures fired == FiredUpTo(old(States()), e, LIMIT_SWITCH_MAX)
      ensures callbacks == WithCallback(fired, old(States()))
      ensures stopped == StoppedBy(fired, old(States()))
      ensures StopsApplied(old(FieldsOf(AttachedTo(States()))), stopped)
    {
      ghost var start := States();
      ghost var before := FieldsOf(AttachedTo(start));
      fired, callbacks, stopped := [], [], [];
      var i: nat := 0;
      while i < LIMIT_SWITCH_MAX
        invariant i <= StopIndex(start, e, 0)
        invariant Valid()
        invariant forall j :: 0 <= j < LIMIT_SWITCH_MAX ==> switches[j].motors == old(switches[j].motors)
        invariant States() == ScanStates(start, e, i)
        invariant fired == FiredUpTo(start, e, i)
        invariant callbacks == WithCallback(fired, start)
        invariant stopped == StoppedBy(fired, start)
        invariant StopsApplied(before, stopped)
      {
        var stop;
        stop, fired, callbacks, stopped := Step(start, e, i, fired, callbacks, stopped, before);
        if stop {
          break;
        }
        i := i + 1;
      }
    }

    /**
     * One pass of the handler's loop body over switch `i`: the scan
     * bookkeeping of `Isr` advances to `i + 1`, or the scan is complete when
     * the handler returns early.
     */
    method Step(ghost start: seq<SwitchState>, e: Edge, i: nat, fired: seq<nat>, callbacks: seq<nat>, stopped: seq<Motor>,
                ghost before: map<Motor, Fields>)
      returns (stop: bool, fired': seq<nat>, callbacks': seq<nat>, stopped': seq<Motor>)
      requires Valid() && |start| == |e.levels| == LIMIT_SWITCH_MAX && i < LIMIT_SWITCH_MAX
      requires i <= StopIndex(start, e, 0) && States() == ScanStates(start, e, i)
      requires fired == FiredUpTo(start, e, i)
      requires callbacks == WithCallback(fired, start) && stopped == StoppedBy(fired, start)
      requires StopsApplied(before, stopped)
      modifies switches[i], switches[i].motors
      ensures Valid() && switches[i].motors == old(switches[i].motors)
      ensures stop ==> States() == ScanStates(start, e, LIMIT_SWITCH_MAX) && fired' == FiredUpTo(start, e, LIMIT_SWITCH_MAX)
      ensures !stop ==> i + 1 <= StopIndex(start, e, 0) && States() == ScanStates(start, e, i + 1)
      ensures !stop ==> fired' == FiredUpTo(start, e, i + 1)
      ensures callbacks' == WithCallback(fired', start) && stopped' == StoppedBy(fired', start)
      ensures StopsApplied(before, stopped')
    {
      ghost var table := States();
      var fire, callback, motors;
      stop, fire, callback, motors := Visit(i, e, before, stopped);
      ghost var after := States();
      ScanAdvance(start, e, i, table, stop, fire, after, fired, callbacks, stopped);
      fired', callbacks', stopped' := fired, callbacks, stopped;
      if !stop && fire {
        fired' := fired + [i];
        stopped' := stopped + motors;
        if callback {
          callbacks' := callbacks + [i];
        }
      }
    }

    /**
     * The handler's look at switch `i` for the edge `e`: `stop` when the
     * edge falls inside its debounce window (the handler returns), `fire`
     * when it accepts the edge.
     */
    method Visit(i: nat, e: Edge, ghost before: map<Motor, Fields>, ghost earlier: seq<Motor>)
      returns (stop: bool, fire: bool, callback: bool, stopped: seq<Motor>)
      requires Valid() && i < LIMIT_SWITCH_MAX == |e.levels|
      requires StopsApplied(before, earlier)
      modifies switches[i], switches[i].motors
      ensures Valid() && switches[i].motors == old(switches[i].motors)
      ensures var s := old(States())[i];
        stop == (Watches(s, e) && Bounces(s, e.now))
        && fire == (Watches(s, e) && !Bounces(s, e.now) && Active(s.activeHigh, e.levels[i]))
        && States() == if fire then old(States())[i := Fired(s, e.now)] else old(States())
      ensures stopped == if fire then States()[i].motors else []
      ensures callback == (fire && States()[i].hasCallback)
      ensures forall m :: m in switches[i].motors ==>
        m.position == old(m.position) && (if fire then m.state != Moving else m.Snapshot() == old(m.Snapshot()))
      ensures StopsApplied(before, earlier + stopped)
    {
      var sw := switches[i];
      stop, fire, callback, stopped := false, false, false, [];
      assert earlier + stopped == earlier;
      if !sw.initialized || !sw.interruptEnabled {
        return;
      }
      if sw.inPort == e.port && sw.inPin in e.pins {
        if Elapsed(e.now, sw.lastTriggerTime) < DEBOUNCE_TIME_MS {
          stop := true;
          return;
        }
        if Active(sw.activeHigh, e.levels[i]) {
          stopped := sw.Trip(e.now, before, earlier);
          fire := true;
          callback := sw.hasCallback;
        }
      }
    }
  }
}
