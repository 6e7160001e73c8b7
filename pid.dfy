// A PID controller bound to three cells of the shared memory (input,
// output, setpoint), with anti-windup limits on the integral sum and the
// output, a minimum sample period, and bump-less switching to automatic mode.

module PidController {
  import opened Base
  import opened SharedMemory

  const PID_MANUAL: u8 := 0
  const PID_AUTOMATIC: u8 := 1
  const PID_DIRECTION_DIRECT: u8 := 0
  const PID_DIRECTION_REVERSE: u8 := 1
  /** init raises a shorter sample time to this many milliseconds. */
  const MIN_SAMPLE_TIME: u32 := 100

  /** The fields of a PID object. `bound` stands for "the memory pointer is
    * set": the memory pointer is null until init, and every memory access of the
    * controller goes to the one shared Memory, passed to the operations. */
  datatype PidState = PidState(
    bound: bool,
    mapId: u8,
    kp: u32, ki: u32, kd: u32,
    outMin: u32, outMax: u32,
    inputAddress: u16, outputAddress: u16, setpointAddress: u16,
    iSum: u32, lastInput: u32,
    direction: u8,
    inAuto: bool,
    lastTime: u32,
    sampleTime: u32,
    initialized: bool)
  {
    /** The limits never cross (setOutputLimits refuses min >= max), and a
      * controller only runs or is initialized once it has a memory. */
    predicate Valid()
    {
      !DecLess(outMax, outMin) && (inAuto ==> bound) && (initialized ==> bound)
    }

    /** getMode. */
    function Mode(): (r: u8)
      ensures r == PID_AUTOMATIC <==> inAuto
      ensures r == PID_MANUAL <==> !inAuto
    {
      if inAuto then PID_AUTOMATIC else PID_MANUAL
    }

    /** setTunings: negative gains are refused; ki and kd are scaled by the
      * sample period; a reverse-acting controller gets all three negated. */
    function SetTunings(newKp: u32, newKi: u32, newKd: u32, dec: DecArith): (r: PidState)
      ensures r == this.(kp := r.kp, ki := r.ki, kd := r.kd)
      ensures r.Valid() == Valid()
    {
      if DecLess(newKp, 0) || DecLess(newKi, 0) || DecLess(newKd, 0) then this
      else
        var scaled := this.(kp := newKp, ki := dec.ratioMul(newKi, sampleTime), kd := dec.ratioDiv(newKd, sampleTime));
        if direction == PID_DIRECTION_REVERSE then
          scaled.(kp := Neg(scaled.kp, dec), ki := Neg(scaled.ki, dec), kd := Neg(scaled.kd, dec))
        else scaled
    }

    /** setControllerDirection: a running controller that changes direction
      * negates its gains. */
    function SetControllerDirection(newDirection: u8, dec: DecArith): (r: PidState)
      ensures r == this.(kp := r.kp, ki := r.ki, kd := r.kd, direction := newDirection)
      ensures r.Valid() == Valid()
    {
      var q := if inAuto && newDirection != direction then
          this.(kp := Neg(kp, dec), ki := Neg(ki, dec), kd := Neg(kd, dec))
        else this;
      q.(direction := newDirection)
    }

    /** setOutputLimits: ignored unless min < max; a running controller clamps
      * the output cell and the integral sum into the new limits. */
    function SetOutputLimits(mem: MemState, min: u32, max: u32): (r: PidResult<()>)
      requires Valid() && mem.Valid()
      ensures r.pid.Valid() && r.mem.Valid()
      ensures r.pid == this.(outMin := r.pid.outMin, outMax := r.pid.outMax, iSum := r.pid.iSum)
      ensures !inAuto ==> r.mem == mem && r.out.Ok? && r.pid.iSum == iSum
    {
      if !DecLess(min, max) then PidResult(this, mem, Ok(()))
      else
        var p1 := this.(outMin := min, outMax := max);
        if !inAuto then PidResult(p1, mem, Ok(()))
        else
          match mem.Load(outputAddress, W32)
          case Err(f) => PidResult(p1, mem, Err(f))
          case Ok(out) =>
            var stored :=
              if DecLess(max, out) then mem.Store(outputAddress, W32, max)
              else if DecLess(out, min) then mem.Store(outputAddress, W32, min)
              else Ok(mem);
            match stored
            case Err(f) => PidResult(p1, mem, Err(f))
            case Ok(mem1) => PidResult(p1.(iSum := Clamp(iSum, min, max)), mem1, Ok(()))
    }

    /** init: refused on an initialized controller; otherwise binds the
      * addresses, starts in manual mode, applies limits, sample period (at
      * least 100 ms), direction and tunings, dates the last sample one sample
      * period before `now` (the clock in microseconds, divided by 1000), and
      * remembers the mapping of the input cell, if any. */
    function Init(mem: MemState, input: u16, output: u16, setpoint: u16,
                  newKp: u32, newKi: u32, newKd: u32, newSampleTime: u32, newDirection: u8,
                  lower: u32, upper: u32, now: u32, dec: DecArith): (r: (PidState, bool))
      requires Valid() && mem.Valid()
      ensures r.0.Valid()
    {
      if initialized then (this, false)
      else
        var p1 := this.(bound := true, inputAddress := input, outputAddress := output,
                        setpointAddress := setpoint, inAuto := false);
        var p2 := p1.SetOutputLimits(mem, lower, upper).pid;
        var p3 := p2.(sampleTime := if newSampleTime < MIN_SAMPLE_TIME then MIN_SAMPLE_TIME else newSampleTime);
        var p4 := p3.SetControllerDirection(newDirection, dec).SetTunings(newKp, newKi, newKd, dec);
        (p4.(lastTime := Sub32(now / 1000, p4.sampleTime), initialized := true,
             mapId := mem.MapForAddress(input)), true)
    }

    /** clear: the controller must be initialized again before it computes. */
    function Clear(): (r: PidState)
      ensures Valid() ==> r.Valid()
    {
      this.(initialized := false)
    }

    /** initialize, run on a mode change: the integral sum restarts from the
      * current output (clamped) and the last input from the current input. */
    function Initialize(mem: MemState): (r: PidResult<()>)
      requires Valid() && bound && mem.Valid()
      ensures r.pid.Valid() && r.mem == mem
    {
      match mem.Load(outputAddress, W32)
      case Err(f) => PidResult(this, mem, Err(f))
      case Ok(out) =>
        match mem.Load(inputAddress, W32)
        case Err(f) => PidResult(this.(iSum := out), mem, Err(f))
        case Ok(input) => PidResult(this.(iSum := Clamp(out, outMin, outMax), lastInput := input), mem, Ok(()))
    }

    /** setMode: any change of mode runs initialize first (which needs the
      * memory pointer); then the controller is automatic exactly when `mode`
      * is PID_AUTOMATIC. */
    function SetMode(mem: MemState, mode: u8): (r: PidResult<()>)
      requires Valid() && mem.Valid()
      ensures r.pid.Valid() && r.mem == mem
      ensures (mode == PID_AUTOMATIC) == inAuto ==> r == PidResult(this, mem, Ok(()))
      ensures r.out.Ok? ==> r.pid.inAuto == (mode == PID_AUTOMATIC)
    {
      var newAuto := mode == PID_AUTOMATIC;
      if newAuto == inAuto then PidResult(this, mem, Ok(()))
      else if !bound then PidResult(this, mem, Err(Undefined))
      else
        var r := Initialize(mem);
        if r.out.Err? then r else r.(pid := r.pid.(inAuto := newAuto))
    }

    /** compute: one control step, taken only when the controller is
      * initialized and automatic, its input mapping reports no error and a
      * full sample period has passed since the last one. `now` is the clock
      * in microseconds. */
    function Compute(mem: MemState, now: u32, dec: DecArith): (r: PidResult<bool>)
      requires Valid() && mem.Valid()
      ensures r.pid.Valid() && r.mem.Valid()
      ensures r.out == Ok(false) ==> r.pid == this && r.mem == mem
      ensures r.out == Ok(true) ==>
        (mem.Load(inputAddress, W32).Ok?
         && r.pid == this.(iSum := r.pid.iSum, lastInput := r.pid.lastInput, lastTime := now)
         && r.pid.lastInput == mem.Load(inputAddress, W32).value)
    {
      if !initialized || !inAuto then PidResult(this, mem, Ok(false))
      else
        var check: Result<u8> :=
          if mapId == NO_MAP_ID then Ok(0)
          else match mem.CheckMap(mapId, false)
            case Ok((status, _)) => Ok(status)
            case Err(f) => Err(f);
        if check.Err? then PidResult(this, mem, Err(check.fault))
        else if check.value > 1 then PidResult(this, mem, Ok(false))
        else if Sub32(now, lastTime) / 1000 < sampleTime then PidResult(this, mem, Ok(false))
        else Sample(mem, now, dec)
    }

    /** The control law compute applies once a sample is due: the integral
      * sum and the output are each clamped into [outMin, outMax]; the
      * output goes to the output cell. */
    function Sample(mem: MemState, now: u32, dec: DecArith): (r: PidResult<bool>)
      requires Valid() && mem.Valid()
      ensures r.pid.Valid() && r.mem.Valid()
      ensures r.out.Ok? ==>
        (r.out.value && mem.Load(inputAddress, W32).Ok?
         && r.pid == this.(iSum := r.pid.iSum, lastInput := r.pid.lastInput, lastTime := now)
         && r.pid.lastInput == mem.Load(inputAddress, W32).value)
    {
      match mem.Load(inputAddress, W32)
      case Err(f) => PidResult(this, mem, Err(f))
      case Ok(input) =>
        match mem.Load(setpointAddress, W32)
        case Err(f) => PidResult(this, mem, Err(f))
        case Ok(setpoint) =>
          var error := dec.sub(setpoint, input);
          var newISum := Clamp(dec.add(iSum, dec.mul(ki, error)), outMin, outMax);
          var dInput := dec.sub(input, lastInput);
          var out := Clamp(dec.sub(dec.add(dec.mul(kp, error), newISum), dec.mul(kd, dInput)), outMin, outMax);
          var p1 := this.(iSum := newISum);
          match mem.Store(outputAddress, W32, out)
          case Err(f) => PidResult(p1, mem, Err(f))
          case Ok(mem1) => PidResult(p1.(lastInput := input, lastTime := now), mem1, Ok(true))
    }
  }

  /** The state the constructor leaves: everything zero, no memory, no mapping. */
  const NewPid := PidState(false, NO_MAP_ID, 0, 0, 0, 0, 0, 0, 0, 0, 0, 0, 0, false, 0, 0, false)

  /** A PID operation's new controller state, new memory and answer. On a
    * memory fault the controller may already have changed. */
  datatype PidResult<T> = PidResult(pid: PidState, mem: MemState, out: Result<T>)

  /** `0 - x` on rational_t. */
  function Neg(x: u32, dec: DecArith): u32
  {
    dec.sub(0, x)
  }

  // ---- properties ---------------------------------------------------------------

  /** Anti-windup: after a control step both the integral sum and the value
    * written to the output cell lie within [outMin, outMax], and nothing but
    * the four output bytes of memory changed. The controller remembers the
    * input it read and the time of the step, and nothing else of it but the
    * integral sum changes. */
  lemma ComputeStaysWithinLimits(p: PidState, mem: MemState, now: u32, dec: DecArith)
    requires p.Valid() && mem.Valid()
    requires p.Compute(mem, now, dec).out == Ok(true)
    ensures var r := p.Compute(mem, now, dec);
      !DecLess(r.pid.iSum, p.outMin) && !DecLess(p.outMax, r.pid.iSum)
      && r.mem.Load(p.outputAddress, W32).Ok?
      && var out := r.mem.Load(p.outputAddress, W32).value;
      out < Limit(W32) && !DecLess(out, p.outMin) && !DecLess(p.outMax, out)
      && r.mem.maps == mem.maps
      && (forall i :: 0 <= i < MEMORY_SIZE && !(p.outputAddress <= i < p.outputAddress + 4) ==> r.mem.bytes[i] == mem.bytes[i])
      && r.pid == p.(iSum := r.pid.iSum, lastInput := mem.Load(p.inputAddress, W32).value, lastTime := now)
  {
    var r := p.Compute(mem, now, dec);
    var input := mem.Load(p.inputAddress, W32).value;
    var setpoint := mem.Load(p.setpointAddress, W32).value;
    var error := dec.sub(setpoint, input);
    var iSum := Clamp(dec.add(p.iSum, dec.mul(p.ki, error)), p.outMin, p.outMax);
    var dInput := dec.sub(input, p.lastInput);
    var out := Clamp(dec.sub(dec.add(dec.mul(p.kp, error), iSum), dec.mul(p.kd, dInput)), p.outMin, p.outMax);
    assert r.mem == mem.Store(p.outputAddress, W32, out).value;
    StoreThenLoad(mem, p.outputAddress, W32, out);
    StoreFrame(mem, p.outputAddress, W32, out);
  }

  /** compute changes nothing and answers false when the controller is not
    * initialized, is manual, or its input mapping reports an error. */
  lemma ComputeIdle(p: PidState, mem: MemState, now: u32, dec: DecArith)
    requires p.Valid() && mem.Valid()
    requires !p.initialized || !p.inAuto
      || (p.mapId < MAP_SIZE && Active(mem.maps[p.mapId]) && mem.maps[p.mapId].status > MAP_STATUS_DONE)
    ensures p.Compute(mem, now, dec) == PidResult(p, mem, Ok(false))
  {
  }

  /** compute waits for a full sample period: a controller sampled less than
    * `sampleTime` milliseconds ago computes nothing. */
  lemma ComputeWaitsForSamplePeriod(p: PidState, mem: MemState, now: u32, dec: DecArith)
    requires p.Valid() && mem.Valid() && p.initialized && p.inAuto
    requires p.mapId == NO_MAP_ID || (p.mapId < MAP_SIZE && !Active(mem.maps[p.mapId]))
    ensures Sub32(now, p.lastTime) < 1000 * p.sampleTime <==> p.Compute(mem, now, dec) == PidResult(p, mem, Ok(false))
  {
    var r := p.Compute(mem, now, dec);
    if Sub32(now, p.lastTime) >= 1000 * p.sampleTime {
      assert Sub32(now, p.lastTime) / 1000 >= p.sampleTime;
      assert r.out != Ok(false);
    }
  }

  /** Bump-less transfer: switching a manual controller to automatic seeds
    * the integral sum with the current output (clamped into the limits) and
    * the last input with the current input, and touches no memory. */
  lemma SwitchToAutoIsBumpless(p: PidState, mem: MemState)
    requires p.Valid() && mem.Valid() && p.bound && !p.inAuto
    requires mem.Load(p.outputAddress, W32).Ok? && mem.Load(p.inputAddress, W32).Ok?
    ensures var r := p.SetMode(mem, PID_AUTOMATIC);
      r.out.Ok? && r.mem == mem && r.pid.inAuto
      && r.pid.iSum == Clamp(mem.Load(p.outputAddress, W32).value, p.outMin, p.outMax)
      && r.pid.lastInput == mem.Load(p.inputAddress, W32).value
      && r.pid == p.(inAuto := true, iSum := r.pid.iSum, lastInput := r.pid.lastInput)
  {
  }

  /** Switching an automatic controller to manual also runs initialize: the
    * integral sum is re-seeded from the current output (clamped) and the
    * last input from the current input, and no memory is touched. */
  lemma SwitchToManualReinitializes(p: PidState, mem: MemState)
    requires p.Valid() && mem.Valid() && p.inAuto
    requires mem.Load(p.outputAddress, W32).Ok? && mem.Load(p.inputAddress, W32).Ok?
    ensures var r := p.SetMode(mem, PID_MANUAL);
      r.out.Ok? && r.mem == mem && !r.pid.inAuto
      && r.pid.iSum == Clamp(mem.Load(p.outputAddress, W32).value, p.outMin, p.outMax)
      && r.pid.lastInput == mem.Load(p.inputAddress, W32).value
      && r.pid == p.(inAuto := false, iSum := r.pid.iSum, lastInput := r.pid.lastInput)
  {
  }

  /** init works once: on an initialized controller it changes nothing;
    * otherwise it leaves the controller initialized, manual, bound to the
    * given cells, with a sample period of at least 100 ms and the limits
    * taken exactly when lower < upper. */
  lemma InitOnce(p: PidState, mem: MemState, input: u16, output: u16, setpoint: u16,
                 kp: u32, ki: u32, kd: u32, sampleTime: u32, direction: u8,
                 lower: u32, upper: u32, now: u32, dec: DecArith)
    requires p.Valid() && mem.Valid()
    ensures var (q, ok) := p.Init(mem, input, output, setpoint, kp, ki, kd, sampleTime, direction, lower, upper, now, dec);
      ok == !p.initialized
      && (!ok ==> q == p)
      && (ok ==>
        q.initialized && q.bound && !q.inAuto && q.direction == direction
        && q.inputAddress == input && q.outputAddress == output && q.setpointAddress == setpoint
        && q.sampleTime >= MIN_SAMPLE_TIME && (sampleTime >= MIN_SAMPLE_TIME ==> q.sampleTime == sampleTime)
        && ((q.outMin, q.outMax) == if DecLess(lower, upper) then (lower, upper) else (p.outMin, p.outMax))
        && q.mapId == mem.MapForAddress(input)
        && q.iSum == p.iSum && q.lastInput == p.lastInput)
  {
  }

  /** Negative gains are refused and leave the controller as it was.
    * Otherwise kp is taken as given, ki is multiplied and kd divided by the
    * sample period, and a reverse-acting controller holds all three
    * negated. */
  lemma TuningsSign(p: PidState, kp: u32, ki: u32, kd: u32, dec: DecArith)
    ensures DecLess(kp, 0) || DecLess(ki, 0) || DecLess(kd, 0) ==> p.SetTunings(kp, ki, kd, dec) == p
    ensures !(DecLess(kp, 0) || DecLess(ki, 0) || DecLess(kd, 0)) ==>
      var q := p.SetTunings(kp, ki, kd, dec);
      var ki1, kd1 := dec.ratioMul(ki, p.sampleTime), dec.ratioDiv(kd, p.sampleTime);
      (p.direction == PID_DIRECTION_REVERSE ==>
         q.kp == Neg(kp, dec) && q.ki == Neg(ki1, dec) && q.kd == Neg(kd1, dec))
      && (p.direction != PID_DIRECTION_REVERSE ==> q.kp == kp && q.ki == ki1 && q.kd == kd1)
  {
  }

  /** Changing direction negates the gains only on a running controller. */
  lemma DirectionChangeNegatesWhenRunning(p: PidState, direction: u8, dec: DecArith)
    ensures var q := p.SetControllerDirection(direction, dec);
      q.direction == direction
      && (p.inAuto && direction != p.direction ==> q.kp == Neg(p.kp, dec) && q.ki == Neg(p.ki, dec) && q.kd == Neg(p.kd, dec))
      && (!p.inAuto || direction == p.direction ==> q == p.(direction := direction))
  {
  }

  /** New limits on a running controller pull the output cell and the
    * integral sum inside them. */
  lemma LimitsClampOutput(p: PidState, mem: MemState, min: u32, max: u32)
    requires p.Valid() && mem.Valid() && p.inAuto && DecLess(min, max)
    requires mem.Load(p.outputAddress, W32).Ok?
    ensures var r := p.SetOutputLimits(mem, min, max);
      r.out.Ok? && r.pid.outMin == min && r.pid.outMax == max
      && !DecLess(r.pid.iSum, min) && !DecLess(max, r.pid.iSum)
      && r.mem.Load(p.outputAddress, W32).Ok?
      && var out := r.mem.Load(p.outputAddress, W32).value;
      !DecLess(out, min) && !DecLess(max, out)
  {
    var v := mem.Load(p.outputAddress, W32).value;
    if DecLess(max, v) {
      StoreThenLoad(mem, p.outputAddress, W32, max);
    } else if DecLess(v, min) {
      StoreThenLoad(mem, p.outputAddress, W32, min);
    }
  }

  // ---- the PID object ------------------------------------------------------------

  class PID {
    var bound: bool
    var mapId: u8
    var kp: u32
    var ki: u32
    var kd: u32
    var outMin: u32
    var outMax: u32
    var inputAddress: u16
    var outputAddress: u16
    var setpointAddress: u16
    var iSum: u32
    var lastInput: u32
    var direction: u8
    var inAuto: bool
    var lastTime: u32
    var sampleTime: u32
    var initialized: bool

    function State(): PidState
      reads this
    {
      PidState(bound, mapId, kp, ki, kd, outMin, outMax, inputAddress, outputAddress,
               setpointAddress, iSum, lastInput, direction, inAuto, lastTime, sampleTime, initialized)
    }

    ghost predicate Valid()
      reads this
    {
      State().Valid()
    }

    constructor ()
      ensures State() == NewPid
    {
      bound, mapId := false, NO_MAP_ID;
      kp, ki, kd := 0, 0, 0;
      outMin, outMax := 0, 0;
      inputAddress, outputAddress, setpointAddress := 0, 0, 0;
      iSum, lastInput := 0, 0;
      direction, inAuto := 0, false;
      lastTime, sampleTime := 0, 0;
      initialized := false;
    }

    method Init(mem: Memory, input: u16, output: u16, setpoint: u16,
                kp0: u32, ki0: u32, kd0: u32, sampleTime0: u32, direction0: u8,
                lower: u32, upper: u32, now: u32, dec: DecArith) returns (ok: bool)
      requires Valid() && mem.Valid()
      modifies this
      ensures (State(), ok) == old(State()).Init(mem.Abs(), input, output, setpoint,
                                    kp0, ki0, kd0, sampleTime0, direction0, lower, upper, now, dec)
    {
      if initialized {
        return false;
      }
      Bind(input, output, setpoint);
      // setOutputLimits on a controller in manual mode only records the limits
      RecordLimits(lower, upper);
      sampleTime := if sampleTime0 < MIN_SAMPLE_TIME then MIN_SAMPLE_TIME else sampleTime0;
      SetControllerDirection(direction0, dec);
      SetTunings(kp0, ki0, kd0, dec);
      var id := mem.GetMapForAddress(input);
      Stamp(Sub32(now / 1000, sampleTime), id);
      return true;
    }

    /** The end of init: the last sample is dated, the controller is
      * initialized and watches the mapping of its input. */
    method Stamp(t: u32, id: u8)
      modifies this
      ensures State() == old(State()).(lastTime := t, initialized := true, mapId := id)
    {
      lastTime, initialized, mapId := t, true, id;
    }

    /** The first step of init: the addresses are bound, the controller is
      * manual. */
    method Bind(input: u16, output: u16, setpoint: u16)
      modifies this
      ensures State() == old(State()).(bound := true, inputAddress := input, outputAddress := output,
                                       setpointAddress := setpoint, inAuto := false)
    {
      bound, inputAddress, outputAddress, setpointAddress, inAuto := true, input, output, setpoint, false;
    }

    /** The part of setOutputLimits that touches no memory: limits that do
      * not cross are recorded. */
    method RecordLimits(min: u32, max: u32)
      modifies this
      ensures State() == old(State()).(outMin := if DecLess(min, max) then min else old(outMin),
                                       outMax := if DecLess(min, max) then max else old(outMax))
    {
      if DecLess(min, max) {
        outMin, outMax := min, max;
      }
    }

    method Clear()
      modifies this
      ensures State() == old(State()).Clear()
    {
      initialized := false;
    }

    method Compute(mem: Memory, now: u32, dec: DecArith) returns (r: Result<bool>)
      requires Valid() && mem.Valid()
      modifies this, mem.data, mem.maps
      ensures PidResult(State(), mem.Abs(), r) == old(State()).Compute(old(mem.Abs()), now, dec)
    {
      if !initialized || !inAuto {
        return Ok(false);
      }
      if mapId != NO_MAP_ID {
        var status :- mem.CheckMap(mapId, false);
        if status > 1 {
          return Ok(false);
        }
      }
      if Sub32(now, lastTime) / 1000 < sampleTime {
        return Ok(false);
      }
      r := Sample(mem, now, dec);
    }

    method Sample(mem: Memory, now: u32, dec: DecArith) returns (r: Result<bool>)
      requires Valid() && mem.Valid()
      modifies this, mem.data
      ensures PidResult(State(), mem.Abs(), r) == old(State()).Sample(old(mem.Abs()), now, dec)
    {
      var input :- mem.Load(inputAddress, W32);
      var setpoint :- mem.Load(setpointAddress, W32);
      var error := dec.sub(setpoint, input);
      iSum := Clamp(dec.add(iSum, dec.mul(ki, error)), outMin, outMax);
      var dInput := dec.sub(input, lastInput);
      var out := Clamp(dec.sub(dec.add(dec.mul(kp, error), iSum), dec.mul(kd, dInput)), outMin, outMax);
      var _ :- mem.Store(outputAddress, W32, out);
      Remember(input, now);
      return Ok(true);
    }

    /** The end of a control step: the input and the time of this sample are
      * kept for the next one. */
    method Remember(input: u32, now: u32)
      modifies this
      ensures State() == old(State()).(lastInput := input, lastTime := now)
    {
      lastInput, lastTime := input, now;
    }

    method SetTunings(kp0: u32, ki0: u32, kd0: u32, dec: DecArith)
      modifies this
      ensures State() == old(State()).SetTunings(kp0, ki0, kd0, dec)
    {
      if DecLess(kp0, 0) || DecLess(ki0, 0) || DecLess(kd0, 0) {
        return;
      }
      var p, i, d := kp0, dec.ratioMul(ki0, sampleTime), dec.ratioDiv(kd0, sampleTime);
      if direction == PID_DIRECTION_REVERSE {
        p, i, d := Neg(p, dec), Neg(i, dec), Neg(d, dec);
      }
      SetGains(p, i, d);
    }

    method SetControllerDirection(direction0: u8, dec: DecArith)
      modifies this
      ensures State() == old(State()).SetControllerDirection(direction0, dec)
    {
      if inAuto && direction0 != direction {
        SetGains(Neg(kp, dec), Neg(ki, dec), Neg(kd, dec));
      }
      direction := direction0;
    }

    /** Replaces the three gains. */
    method SetGains(p: u32, i: u32, d: u32)
      modifies this
      ensures State() == old(State()).(kp := p, ki := i, kd := d)
    {
      kp, ki, kd := p, i, d;
    }

    method SetOutputLimits(mem: Memory, min: u32, max: u32) returns (r: Result<()>)
      requires Valid() && mem.Valid()
      modifies this, mem.data
      ensures PidResult(State(), mem.Abs(), r) == old(State()).SetOutputLimits(old(mem.Abs()), min, max)
    {
      if !DecLess(min, max) {
        return Ok(());
      }
      RecordLimits(min, max);
      if inAuto {
        var out :- mem.Load(outputAddress, W32);
        if DecLess(outMax, out) {
          var _ := mem.Store(outputAddress, W32, outMax);
        } else if DecLess(out, outMin) {
          var _ := mem.Store(outputAddress, W32, outMin);
        }
        iSum := Clamp(iSum, outMin, outMax);
      }
      return Ok(());
    }

    method SetMode(mem: Memory, mode: u8) returns (r: Result<()>)
      requires Valid() && mem.Valid()
      modifies this
      ensures PidResult(State(), mem.Abs(), r) == old(State()).SetMode(mem.Abs(), mode)
    {
      var newAuto := mode == PID_AUTOMATIC;
      if newAuto != inAuto {
        if !bound {
          return Err(Undefined);
        }
        var _ :- Initialize(mem);
      }
      inAuto := newAuto;
      return Ok(());
    }

    method Initialize(mem: Memory) returns (r: Result<()>)
      requires Valid() && bound && mem.Valid()
      modifies this
      ensures PidResult(State(), mem.Abs(), r) == old(State()).Initialize(mem.Abs())
    {
      iSum :- mem.Load(outputAddress, W32);
      lastInput :- mem.Load(inputAddress, W32);
      iSum := Clamp(iSum, outMin, outMax);
      return Ok(());
    }

    function GetMode(): u8
      reads this
    {
      State().Mode()
    }

    function IsInitialized(): bool
      reads this
    {
      initialized
    }
  }
}
