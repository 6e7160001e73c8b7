// The VM object: its registers, the shared Memory, its address stack and
// the bank of PIDs, with executeStep, its handlers and its operand decoders
// as methods, each proved to do what the corresponding function of
// VmSemantics says.

module VirtualMachine {
  import opened Base
  import opened SharedMemory
  import opened AddressStack
  import opened PidController
  import opened VmSemantics

  class VM {
    const memory: Memory
    const stack: Stack
    const pids: array<PID>
    /** The controllers the VM drives: pids[0], pids[1] and pids[2]. */
    ghost const controllers: set<PID>
    var flags: u8
    var programcounter: u16
    var statuscode: u32

    ghost predicate Valid()
      reads this, memory, stack, pids, controllers
    {
      memory.Valid() && stack.Valid() && pids.Length == PID_COUNT
      && controllers == {pids[0], pids[1], pids[2]}
      && pids[0] != pids[1] && pids[0] != pids[2] && pids[1] != pids[2]
      && pids[0].Valid() && pids[1].Valid() && pids[2].Valid()
    }

    /** The memory and the registers. */
    function Core(): Cpu
      reads this, memory, memory.data, memory.maps
    {
      Cpu(memory.Abs(), programcounter, flags, statuscode)
    }

    function PidStates(): Bank
      requires pids.Length == PID_COUNT
      reads pids, pids[0], pids[1], pids[2]
    {
      Bank(pids[0].State(), pids[1].State(), pids[2].State())
    }

    /** The whole machine. */
    function Abs(): (m: Machine)
      requires Valid()
      reads this, memory, memory.data, memory.maps, stack, stack.cells, pids, controllers
      ensures m.Valid()
    {
      Machine(Core(), stack.Abs(), PidStates())
    }

    /** The constructor: the VM works on the given memory and PIDs, with a
      * stack of its own; flags, counter and status code start at 0. */
    constructor (memory: Memory, pids: array<PID>)
      requires memory.Valid() && pids.Length == PID_COUNT
      requires pids[0] != pids[1] && pids[0] != pids[2] && pids[1] != pids[2]
      requires pids[0].Valid() && pids[1].Valid() && pids[2].Valid()
      ensures Valid() && fresh(stack) && fresh(stack.cells)
      ensures this.memory == memory && this.pids == pids
      ensures flags == 0 && programcounter == 0 && statuscode == 0
      ensures stack.Abs().Contents() == []
    {
      this.memory := memory;
      this.pids := pids;
      this.controllers := {pids[0], pids[1], pids[2]};
      this.stack := new Stack();
      flags, programcounter, statuscode := 0, 0, 0;
    }

    // ---- operand decoders ------------------------------------------------------

    /** get_optype and get_number. */
    method GetByte() returns (r: Result<u8>)
      requires memory.Valid()
      modifies this
      ensures Lift(r, Core()) == FetchByte(old(Core()))
    {
      programcounter := Add16(programcounter, 1);
      var v :- memory.Load(programcounter, W8);
      return Ok(v);
    }

    /** get_address. */
    method GetAddress() returns (r: Result<u16>)
      requires memory.Valid()
      modifies this
      ensures Lift(r, Core()) == VmSemantics.GetAddress(old(Core()))
    {
      programcounter := Add16(programcounter, 1);
      var v :- memory.Load(programcounter, W16);
      programcounter := Add16(programcounter, 1);
      return Ok(v);
    }

    /** get_operandaddress. */
    method GetOperandAddress(optype: u8) returns (r: Result<u16>)
      requires memory.Valid()
      modifies this
      ensures Lift(r, Core()) == VmSemantics.GetOperandAddress(old(Core()), optype)
    {
      if IsLiteral(optype) {
        programcounter := Add16(programcounter, 1);
        var address := programcounter;
        match TypeOf(optype) {
          case Some(t) =>
            programcounter := Add16(programcounter, Size(WidthOf(t)) - 1);
          case None =>
            statuscode := Or32(statuscode, ERROR_UNSUPPORTED_OPERAND);
        }
        return Ok(address);
      }
      r := GetAddress();
    }

    /** Type byte, destination address and operand of a two-operand
      * instruction or of LOAD. */
    method DecodeOperands() returns (r: Result<Operands>)
      requires memory.Valid()
      modifies this
      ensures Lift(r, Core()) == VmSemantics.DecodeOperands(old(Core()))
    {
      var optype :- GetByte();
      var address :- GetAddress();
      var operand :- GetOperandAddress(optype);
      return Ok(Operands(optype, address, operand));
    }

    /** A typed store into the shared memory. */
    method Write(a: u16, w: Width, v: nat) returns (r: Result<()>)
      requires memory.Valid() && v < Limit(w)
      modifies memory.data
      ensures Core() == old(Core()).Write(a, w, v).state
      ensures r.Ok? == old(Core()).Write(a, w, v).Next?
      ensures r.Err? ==> r.fault == old(Core()).Write(a, w, v).fault
    {
      r := memory.Store(a, w, v);
    }

    /** `statuscode |= code`. */
    method Report(code: u32)
      modifies this
      ensures Core() == old(Core()).Report(code)
    {
      statuscode := Or32(statuscode, code);
    }

    // ---- handlers on memory and registers ----------------------------------------

    /** handleADD, handleSUB, handleMUL, handleDIV, handleMOD, handleAND,
      * handleOR, handleXOR, handleLSHIFT and handleRSHIFT. */
    method HandleBinary(op: BinaryOp, dec: DecArith) returns (r: Result<bool>)
      requires memory.Valid()
      modifies this, memory.data
      ensures Lift(r, Core()) == Binary(old(Core()), op, dec)
    {
      var o :- DecodeOperands();
      match TypeOf(o.optype) {
        case None =>
          Report(ERROR_UNSUPPORTED_OPERAND);
          return Ok(false);
        case Some(t) =>
          if t == Dec && op.Bits? {
            Report(ERROR_UNSUPPORTED_OPERAND);
            return Ok(false);
          }
          var w := WidthOf(t);
          var x :- memory.Load(o.address, w);
          var y :- memory.Load(o.operand, w);
          match Calculate(op, t, x, y, dec) {
            case Value(v) =>
              var _ := Write(o.address, w, v);
              return Ok(true);
            case DivideByZero =>
              flags := Or8(flags, FLAG_DIVIDEZERO);
              Report(ERROR_DIVIDEZERO);
              return Ok(false);
            case UndefinedResult =>
              return Err(Undefined);
          }
      }
    }

    /** handleNOT: the destination becomes its own complement in its width. */
    method HandleNot() returns (r: Result<bool>)
      requires memory.Valid()
      modifies this, memory.data
      ensures Lift(r, Core()) == Not(old(Core()))
    {
      var optype :- GetByte();
      var address :- GetAddress();
      match TypeOf(optype) {
        case None =>
          Report(ERROR_UNSUPPORTED_OPERAND);
          return Ok(false);
        case Some(t) =>
          if t == Dec {
            Report(ERROR_UNSUPPORTED_OPERAND);
            return Ok(false);
          }
          var w := WidthOf(t);
          var x :- memory.Load(address, w);
          var _ := Write(address, w, Complement(w, x));
          return Ok(true);
      }
    }

    /** handleLOAD. */
    method HandleLoad() returns (r: Result<bool>)
      requires memory.Valid()
      modifies this, memory.data
      ensures Lift(r, Core()) == Load(old(Core()))
    {
      var o :- DecodeOperands();
      match TypeOf(o.optype) {
        case None =>
          Report(ERROR_UNSUPPORTED_OPERAND);
          return Ok(false);
        case Some(t) =>
          var w := WidthOf(t);
          var x :- memory.Load(o.operand, w);
          var _ :- Write(o.address, w, x);
          return Ok(true);
      }
    }

    /** handleMULTILOAD, with its loop over the operands. */
    method HandleMultiLoad() returns (r: Result<bool>)
      requires memory.Valid()
      modifies this, memory.data
      ensures Lift(r, Core()) == MultiLoad(old(Core()))
    {
      var optype :- GetByte();
      var address :- GetAddress();
      var count :- GetByte();
      match TypeOf(optype) {
        case None =>
          Report(ERROR_UNSUPPORTED_OPERAND);
          return Ok(false);
        case Some(t) =>
          var w := WidthOf(t);
          ghost var start := Core();
          var i := 0;
          while i < count
            invariant i <= count
            invariant LoadEach(Core(), optype, w, address, count as nat, i) ==
                      LoadEach(start, optype, w, address, count as nat, 0)
          {
            var operand :- GetOperandAddress(optype);
            var x :- memory.Load(operand, w);
            var _ :- Write(Add16(address, i * Size(w)), w, x);
            i := i + 1;
          }
          return Ok(true);
      }
    }

    /** handleCOPY. */
    method HandleCopy() returns (r: Result<bool>)
      requires memory.Valid()
      modifies this, memory.data
      ensures Lift(r, Core()) == Copy(old(Core()))
    {
      var src :- GetAddress();
      var len :- GetByte();
      var dest :- GetAddress();
      var _ :- memory.Copy(src, len, dest);
      return Ok(true);
    }

    /** handleJUMP as written: the target is the one byte at the operand
    * address. */
    method HandleJump() returns (r: Result<bool>)
      requires memory.Valid()
      modifies this
      ensures Lift(r, Core()) == JumpAsWritten(old(Core()))
    {
      var optype :- GetByte();
      var operand :- GetOperandAddress(Or8(optype, TYPE_UINT16));
      var target :- memory.Load(operand, W8);
      programcounter := target;
      return Ok(true);
    }

    /** The operand decoding of handleCOMPARE. */
    method DecodeCompare() returns (r: Result<CompareOperands>)
      requires memory.Valid()
      modifies this
      ensures Lift(r, Core()) == VmSemantics.DecodeCompare(old(Core()))
    {
      var optype :- GetByte();
      var address :- GetAddress();
      var operand :- GetOperandAddress(optype);
      var smaller := GetOperandAddress(TargetType(optype));
      var equal := GetOperandAddress(TargetType(optype));
      var greater := GetOperandAddress(TargetType(optype));
      return Ok(CompareOperands(optype, address, operand, smaller.value, equal.value, greater.value));
    }

    /** handleCOMPARE. */
    method HandleCompare() returns (r: Result<bool>)
      requires memory.Valid()
      modifies this
      ensures Lift(r, Core()) == CompareJump(old(Core()))
    {
      var o :- DecodeCompare();
      match TypeOf(o.optype) {
        case None =>
          Report(ERROR_UNSUPPORTED_OPERAND);
          return Ok(false);
        case Some(t) =>
          var x :- memory.Load(o.address, WidthOf(t));
          var y :- memory.Load(o.operand, WidthOf(t));
          var target := match Compare(t, x, y)
            case Less => o.smaller
            case Equal => o.equal
            case Greater => o.greater;
          var pc :- memory.Load(target, W16);
          programcounter := pc;
          return Ok(true);
      }
    }

    /** handleTIME, with the clock reading `now`. */
    method HandleTime(now: u32) returns (r: Result<bool>)
      requires memory.Valid()
      modifies this, memory.data
      ensures Lift(r, Core()) == Time(old(Core()), now)
    {
      var address :- GetAddress();
      var _ :- Write(address, W32, now);
      return Ok(true);
    }

    /** handleCOMPARETIME, with the clock reading `now`. */
    method HandleCompareTime(now: u32) returns (r: Result<bool>)
      requires memory.Valid()
      modifies this
      ensures Lift(r, Core()) == CompareTime(old(Core()), now)
    {
      var address :- GetAddress();
      var timeout := GetOperandAddress(Or8(TYPE_UINT32, LITERAL));
      var jump1 :- GetAddress();
      var jump2 :- GetAddress();
      var stamp :- memory.Load(address, W32);
      var period :- memory.Load(timeout.value, W32);
      programcounter := if TimedOut(now, stamp, period) then jump1 else jump2;
      return Ok(true);
    }

    /** The scan to the NUL that ends a string inside an instruction. */
    method ScanNul() returns (r: Result<()>)
      requires memory.Valid()
      modifies this
      ensures Lift(r, Core()) == VmSemantics.ScanNul(old(Core()))
    {
      var b :- GetByte();
      while b != 0
        invariant Core() == old(Core()).(pc := programcounter)
        invariant VmSemantics.ScanNul(old(Core())) ==
                  if b == 0 then Next((), Core()) else VmSemantics.ScanNul(Core())
        decreases ScanRoom(programcounter)
      {
        ghost var before := programcounter;
        b :- GetByte();
        ScanRoomShrinks(before);
      }
      return Ok(());
    }

    /** A URL or resource operand of handleURLMAP. */
    method StringOperand(literal: bool) returns (r: Result<u16>)
      requires memory.Valid()
      modifies this
      ensures Lift(r, Core()) == VmSemantics.StringOperand(old(Core()), literal)
    {
      if literal {
        var start := GetOperandAddress(Or8(LITERAL, TYPE_UINT8));
        var _ :- ScanNul();
        return Ok(start.value);
      }
      r := GetOperandAddress(ADDRESS);
    }

    /** The operand decoding of handleURLMAP. */
    method DecodeUrlMap() returns (r: Result<MapOperands>)
      requires memory.Valid()
      modifies this
      ensures Lift(r, Core()) == VmSemantics.DecodeUrlMap(old(Core()))
    {
      var optype :- GetByte();
      var options :- GetByte();
      var valueAddress :- GetAddress();
      var port :- GetAddress();
      var url :- StringOperand(And8(options, MAP_OPTION_URL_MASK) == MAP_OPTION_URL_LITERAL);
      var resource :- StringOperand(And8(options, MAP_OPTION_RESOURCE_MASK) == MAP_OPTION_RESOURCE_LITERAL);
      return Ok(MapOperands(optype, options, valueAddress, port, url, resource));
    }

    /** handleURLMAP. */
    method HandleUrlMap() returns (r: Result<bool>)
      requires memory.Valid()
      modifies this, memory.maps
      ensures Lift(r, Core()) == VmSemantics.UrlMap(old(Core()))
    {
      var o :- DecodeUrlMap();
      var _ := memory.Map(HighNibble(o.optype), o.optype, o.options, o.valueAddress, o.port, o.url, o.resource);
      return Ok(true);
    }

    /** handleURLMAPCHECK. */
    method HandleUrlMapCheck() returns (r: Result<bool>)
      requires memory.Valid()
      modifies this, memory.data, memory.maps
      ensures Lift(r, Core()) == UrlMapCheck(old(Core()))
    {
      var optype :- GetByte();
      var address :- GetAddress();
      var status := memory.CheckMap(HighNibble(optype), true);
      var _ :- Write(address, W8, status.value);
      return Ok(true);
    }

    /** handleURLMAPDELETE. */
    method HandleUrlMapDelete() returns (r: Result<bool>)
      requires memory.Valid()
      modifies this, memory.maps
      ensures Lift(r, Core()) == UrlMapDelete(old(Core()))
    {
      var optype :- GetByte();
      var _ := memory.Unmap(HighNibble(optype));
      return Ok(true);
    }

    /** handleHALT. */
    method HandleHalt() returns (r: bool)
      modifies this
      ensures r && Core() == Halt(old(Core()))
    {
      flags := Or8(flags, FLAG_HALTED);
      return true;
    }

    // ---- handlers on the whole machine -------------------------------------------

    /** handleCALL. */
    method HandleCall() returns (r: Result<bool>)
      requires Valid()
      modifies this, stack, stack.cells
      ensures Valid()
      ensures Lift(r, Abs()) == Call(old(Abs()))
    {
      var address :- GetAddress();
      programcounter := Add16(programcounter, 1);
      var _ :- stack.Push(programcounter);
      programcounter := address;
      return Ok(true);
    }

    /** handleRETURN. */
    method HandleReturn() returns (r: Result<bool>)
      requires Valid()
      modifies this, stack
      ensures Valid()
      ensures Lift(r, Abs()) == Return(old(Abs()))
    {
      var address :- stack.Pop();
      programcounter := address;
      return Ok(true);
    }

    /** The id check shared by the PID handlers. */
    method PidId() returns (r: Result<Option<nat>>)
      requires Valid()
      modifies this
      ensures Valid()
      ensures Lift(r, Abs()) == VmSemantics.PidId(old(Abs()))
    {
      var optype :- GetByte();
      var id := HighNibble(optype);
      if id >= PID_COUNT {
        Report(ERROR_ID_UNAVAILABLE);
        return Ok(None);
      }
      return Ok(Some(id as nat));
    }

    /** The operand decoding of handlePIDINIT, with the loads of the literal
      * arguments. */
    method DecodePidInit() returns (r: Result<PidArgs>)
      requires memory.Valid()
      modifies this
      ensures Lift(r, Core()) == VmSemantics.DecodePidInit(old(Core()))
    {
      var o :- DecodePidOperands();
      r := LoadPidArgs(o);
    }

    /** The operand decoding of handlePIDINIT: three addresses, then seven
      * literals whose addresses are kept for the loads. */
    method DecodePidOperands() returns (r: Result<PidOperands>)
      requires memory.Valid()
      modifies this
      ensures Lift(r, Core()) == PidOperandsOf(old(Core()))
    {
      var input :- GetAddress();
      var output :- GetAddress();
      var setpoint :- GetAddress();
      var decType := Or8(LITERAL, TYPE_DEC);
      var kp := GetOperandAddress(decType);
      var ki := GetOperandAddress(decType);
      var kd := GetOperandAddress(decType);
      var st := GetOperandAddress(Or8(LITERAL, TYPE_UINT32));
      var lo := GetOperandAddress(decType);
      var hi := GetOperandAddress(decType);
      var dir := GetOperandAddress(Or8(LITERAL, TYPE_UINT8));
      return Ok(PidOperands(input, output, setpoint, kp.value, ki.value, kd.value, st.value,
                            lo.value, hi.value, dir.value));
    }

    /** The loads of the literal arguments of handlePIDINIT. */
    method LoadPidArgs(o: PidOperands) returns (r: Result<PidArgs>)
      requires memory.Valid()
      ensures Lift(r, Core()) == ReadPidArgs(Core(), o)
    {
      var kpv :- memory.Load(o.kp, W32);
      var kiv :- memory.Load(o.ki, W32);
      var kdv :- memory.Load(o.kd, W32);
      var stv :- memory.Load(o.sampleTime, W32);
      var dirv :- memory.Load(o.direction, W8);
      var lov :- memory.Load(o.lower, W32);
      var hiv :- memory.Load(o.upper, W32);
      return Ok(PidArgs(o.input, o.output, o.setpoint, kpv, kiv, kdv, stv, lov, hiv, dirv));
    }

    /** init of controller `i`; the others keep their state. */
    method InitPid(i: nat, a: PidArgs, env: Env) returns (ok: bool)
      requires Valid() && i < PID_COUNT
      modifies pids[i]
      ensures Valid()
      ensures var (pid, answer) := old(PidStates()).Get(i).Init(memory.Abs(), a.input, a.output, a.setpoint,
                                     a.kp, a.ki, a.kd, a.sampleTime, a.direction,
                                     a.lower, a.upper, env.now, env.dec);
              ok == answer && PidStates() == old(PidStates()).Set(i, pid)
    {
      ghost var p0, p1, p2 := pids[0].State(), pids[1].State(), pids[2].State();
      ok := pids[i].Init(memory, a.input, a.output, a.setpoint, a.kp, a.ki, a.kd,
                         a.sampleTime, a.direction, a.lower, a.upper, env.now, env.dec);
      ghost var q := pids[i].State();
      assert i == 0 ==> PidStates() == Bank(q, p1, p2);
      assert i == 1 ==> PidStates() == Bank(p0, q, p2);
      assert i == 2 ==> PidStates() == Bank(p0, p1, q);
    }

    /** init of controller `i` with decoded arguments; a refused init
      * reports PID_INIT. */
    method StartPid(i: nat, a: PidArgs, env: Env) returns (ok: bool)
      requires Valid() && i < PID_COUNT
      modifies this, pids[i]
      ensures Valid()
      ensures Lift(Ok(ok), Abs()) == PidStart(old(Abs()), i, a, env)
    {
      ok := InitPid(i, a, env);
      if !ok {
        Report(ERROR_PID_INIT);
      }
    }

    /** handlePIDINIT once the id is known to be available. */
    method HandlePidInitAt(i: nat, env: Env) returns (r: Result<bool>)
      requires Valid() && i < PID_COUNT
      modifies this, pids[i]
      ensures Valid()
      ensures Lift(r, Abs()) == PidInitAt(old(Abs()), i, env)
    {
      var a :- DecodePidInit();
      var ok := StartPid(i, a, env);
      return Ok(ok);
    }

    /** clear of controller `i`; the others keep their state. */
    method ClearPid(i: nat)
      requires Valid() && i < PID_COUNT
      modifies pids[i]
      ensures Valid()
      ensures PidStates() == old(PidStates()).Set(i, old(PidStates()).Get(i).Clear())
    {
      ghost var p0, p1, p2 := pids[0].State(), pids[1].State(), pids[2].State();
      pids[i].Clear();
      assert i == 0 ==> PidStates() == Bank(p0.Clear(), p1, p2);
      assert i == 1 ==> PidStates() == Bank(p0, p1.Clear(), p2);
      assert i == 2 ==> PidStates() == Bank(p0, p1, p2.Clear());
    }

    /** setMode of controller `i`; the others keep their state. */
    method SetPidMode(i: nat, mode: u8) returns (r: Result<()>)
      requires Valid() && i < PID_COUNT
      modifies pids[i]
      ensures Valid()
      ensures var res := old(PidStates()).Get(i).SetMode(memory.Abs(), mode);
              r.Ok? == res.out.Ok? && (r.Err? ==> r.fault == res.out.fault)
              && PidStates() == old(PidStates()).Set(i, res.pid)
    {
      ghost var p0, p1, p2 := pids[0].State(), pids[1].State(), pids[2].State();
      r := pids[i].SetMode(memory, mode);
      ghost var q := pids[i].State();
      assert i == 0 ==> PidStates() == Bank(q, p1, p2);
      assert i == 1 ==> PidStates() == Bank(p0, q, p2);
      assert i == 2 ==> PidStates() == Bank(p0, p1, q);
    }

    /** handlePIDINIT, with the clock reading and the rational arithmetic
      * of `env`. */
    method HandlePidInit(env: Env) returns (r: Result<bool>)
      requires Valid()
      modifies this, controllers
      ensures Valid()
      ensures Lift(r, Abs()) == PidInit(old(Abs()), env)
    {
      var id :- PidId();
      match id {
        case None =>
          return Ok(false);
        case Some(i) =>
          r := HandlePidInitAt(i, env);
      }
    }

    /** handlePIDCLEAR. */
    method HandlePidClear() returns (r: Result<bool>)
      requires Valid()
      modifies this, controllers
      ensures Valid()
      ensures Lift(r, Abs()) == PidClear(old(Abs()))
    {
      var id :- PidId();
      match id {
        case None =>
          return Ok(false);
        case Some(i) =>
          ClearPid(i);
          return Ok(true);
      }
    }

    /** handlePIDSTOP (`mode` PID_MANUAL) and handlePIDRUN (`mode`
      * PID_AUTOMATIC). */
    method HandlePidSetMode(mode: u8) returns (r: Result<bool>)
      requires Valid()
      modifies this, controllers
      ensures Valid()
      ensures Lift(r, Abs()) == PidSetMode(old(Abs()), mode)
    {
      var id :- PidId();
      match id {
        case None =>
          return Ok(false);
        case Some(i) =>
          var _ :- SetPidMode(i, mode);
          return Ok(true);
      }
    }

    /** The loop of handleRESET over the controllers. */
    method ClearControllers()
      requires Valid()
      modifies controllers
      ensures Valid()
      ensures PidStates() == old(PidStates()).Clear()
    {
      var i := 0;
      while i < PID_COUNT
        invariant i <= PID_COUNT
        invariant forall j :: 0 <= j < i ==> pids[j].State() == old(pids[j].State()).Clear()
        invariant forall j :: i <= j < PID_COUNT ==> pids[j].State() == old(pids[j].State())
      {
        pids[i].Clear();
        i := i + 1;
      }
    }

    /** handleRESET. */
    method HandleReset() returns (r: bool)
      requires Valid()
      modifies this, memory.data, memory.maps, stack, stack.cells, controllers
      ensures Valid()
      ensures !r && Abs() == Reset(old(Abs()))
    {
      Report(ERROR_RESET);
      memory.Clear();
      stack.Clear();
      ClearControllers();
      return false;
    }

    // ---- executeStep -----------------------------------------------------------------

    /** The default case of the switch. */
    method Unsupported() returns (r: Result<bool>)
      requires Valid()
      modifies this
      ensures Valid()
      ensures Lift(r, Abs()) == VmSemantics.Unsupported(old(Abs()))
    {
      Report(ERROR_UNSUPPORTED_OPERATION);
      return Ok(false);
    }

    /** The switch of executeStep for opcodes below 0x20. */
    method DispatchCalc(op: u8, env: Env) returns (r: Result<bool>)
      requires Valid() && op < 0x20
      modifies this, memory.data
      ensures Valid()
      ensures Lift(r, Abs()) == VmSemantics.DispatchCalc(old(Abs()), op, env)
    {
      if op == OP_HALT {
        var ok := HandleHalt();
        return Ok(ok);
      } else if op == OP_ADD {
        r := HandleBinary(Arith(Add), env.dec);
      } else if op == OP_SUB {
        r := HandleBinary(Arith(Sub), env.dec);
      } else if op == OP_MUL {
        r := HandleBinary(Arith(Mul), env.dec);
      } else if op == OP_DIV {
        r := HandleBinary(Arith(Div), env.dec);
      } else if op == OP_MOD {
        r := HandleBinary(Arith(Mod), env.dec);
      } else if op == OP_AND {
        r := HandleBinary(Bits(And), env.dec);
      } else if op == OP_OR {
        r := HandleBinary(Bits(Or), env.dec);
      } else if op == OP_NOT {
        r := HandleNot();
      } else if op == OP_XOR {
        r := HandleBinary(Bits(Xor), env.dec);
      } else if op == OP_LSHIFT {
        r := HandleBinary(Bits(LShift), env.dec);
      } else if op == OP_RSHIFT {
        r := HandleBinary(Bits(RShift), env.dec);
      } else {
        r := Unsupported();
      }
    }

    /** The switch of executeStep for opcodes 0x20 to 0x5F; handlePUSH and
      * handlePOP only fail. */
    method DispatchFlow(op: u8) returns (r: Result<bool>)
      requires Valid() && 0x20 <= op < 0x60
      modifies this, memory.data, stack, stack.cells
      ensures Valid()
      ensures Lift(r, Abs()) == VmSemantics.DispatchFlow(old(Abs()), op)
    {
      if op == OP_LOAD {
        r := HandleLoad();
      } else if op == OP_MULTILOAD {
        r := HandleMultiLoad();
      } else if op == OP_PUSH || op == OP_POP {
        return Ok(false);
      } else if op == OP_COPY {
        r := HandleCopy();
      } else if op == OP_JUMP {
        r := HandleJump();
      } else if op == OP_COMPARE {
        r := HandleCompare();
      } else if op == OP_CALL {
        r := HandleCall();
      } else if op == OP_RETURN {
        r := HandleReturn();
      } else {
        r := Unsupported();
      }
    }

    /** The switch of executeStep for opcodes 0x60 and above. */
    method DispatchIo(op: u8, env: Env) returns (r: Result<bool>)
      requires Valid() && 0x60 <= op
      modifies this, memory.data, memory.maps, stack, stack.cells, controllers
      ensures Valid()
      ensures Lift(r, Abs()) == VmSemantics.DispatchIo(old(Abs()), op, env)
    {
      if op == OP_TIME {
        r := HandleTime(env.now);
      } else if op == OP_COMPARETIME {
        r := HandleCompareTime(env.now);
      } else if op == OP_URLMAP {
        r := HandleUrlMap();
      } else if op == OP_URLMAPCHECK {
        r := HandleUrlMapCheck();
      } else if op == OP_URLMAPDELETE {
        r := HandleUrlMapDelete();
      } else if op == OP_PIDINIT {
        r := HandlePidInit(env);
      } else if op == OP_PIDCLEAR {
        r := HandlePidClear();
      } else if op == OP_PIDSTOP {
        r := HandlePidSetMode(PID_MANUAL);
      } else if op == OP_PIDRUN {
        r := HandlePidSetMode(PID_AUTOMATIC);
      } else if op == OP_RESET {
        var ok := HandleReset();
        return Ok(ok);
      } else {
        r := Unsupported();
      }
    }

    /** The switch of executeStep. */
    method Dispatch(op: u8, env: Env) returns (r: Result<bool>)
      requires Valid()
      modifies this, memory.data, memory.maps, stack, stack.cells, controllers
      ensures Valid()
      ensures Lift(r, Abs()) == VmSemantics.Dispatch(old(Abs()), op, env)
    {
      if op < 0x20 {
        r := DispatchCalc(op, env);
      } else if op < 0x60 {
        r := DispatchFlow(op);
      } else {
        r := DispatchIo(op, env);
      }
    }

    /** halted(). */
    predicate Halted()
      reads this
    {
      And8(flags, FLAG_HALTED) != 0
    }

    /** errorFlag(). */
    predicate ErrorFlag()
      reads this
    {
      And8(flags, FLAG_ERROR) != 0
    }

    /** executeStep: one instruction, with the clock reading and the
      * rational arithmetic of `env`. */
    method ExecuteStep(env: Env) returns (outcome: Outcome)
      requires Valid()
      modifies this, memory.data, memory.maps, stack, stack.cells, controllers
      ensures Valid()
      ensures (Abs(), outcome) == Step(old(Abs()), env)
    {
      if Halted() {
        return Idle;
      }
      var fetched := memory.Load(programcounter, W8);
      if fetched.Err? {
        Report(ERROR_MEMORY_EXCEPTION);
        flags := Or8(flags, Or8(FLAG_ERROR, FLAG_HALTED));
        return Ran;
      }
      var op: u8 := fetched.value;
      ghost var m := old(Abs());
      assert m.cpu.Read(m.cpu.pc, W8) == Next(op, m.cpu);
      statuscode := Seed(programcounter, op);
      ghost var seeded := Abs();
      assert seeded == m.(cpu := m.cpu.(status := Seed(m.cpu.pc, op)));
      var r := Dispatch(op, env);
      assert Lift(r, Abs()) == VmSemantics.Dispatch(seeded, op, env);
      outcome := Conclude(op, r);
    }

    /** The end of executeStep: see VmSemantics.Conclude. */
    method Conclude(op: u8, r: Result<bool>) returns (outcome: Outcome)
      requires Valid()
      modifies this
      ensures Valid()
      ensures (Abs(), outcome) == VmSemantics.Conclude(op, Lift(r, old(Abs())))
    {
      var executionError: bool;
      match r {
        case Ok(ok) =>
          if Advances(op) {
            programcounter := Add16(programcounter, 1);
          }
          executionError := !ok;
        case Err(RangeError) =>
          Report(ERROR_MEMORY_EXCEPTION);
          executionError := true;
        case Err(Undefined) =>
          return UndefinedBehaviour;
        case Err(f) =>
          return Escaped(f);
      }
      if executionError {
        flags := Or8(flags, Or8(FLAG_ERROR, FLAG_HALTED));
      }
      return Ran;
    }

    /** VM::clear. */
    method Clear()
      modifies this
      ensures Core() == ClearCpu(old(Core()))
    {
      flags := 0;
      programcounter := 0;
      statuscode := 0;
    }

    /** One more program byte written over the old memory image. */
    static lemma Overwrite(program: seq<u8>, image: seq<u8>, i: nat)
      requires i < |program| && i < |image|
      ensures (program[..i] + image[i..])[i := program[i]] == program[..i + 1] + image[i + 1..]
    {
    }

    /** The loop of setProgram: byte `i` of the program is stored at
      * address `i`, until a store past the end of memory fails. */
    method StoreProgram(program: seq<u8>) returns (r: Result<()>)
      requires memory.Valid() && |program| < 0x1_0000
      modifies memory.data
      ensures r.Ok? <==> |program| <= MEMORY_SIZE
      ensures r.Err? ==> r.fault == RangeError
      ensures memory.data[..] == if r.Ok? then program + old(memory.data[..])[|program|..]
                                 else program[..MEMORY_SIZE]
    {
      var i := 0;
      while i < |program|
        invariant i <= |program| && i <= MEMORY_SIZE
        invariant memory.data[..] == program[..i] + old(memory.data[..])[i..]
      {
        ghost var before := memory.Abs();
        var stored := memory.Store(i as u16, W8, program[i] as nat);
        if stored.Err? {
          assert program[..i] == program[..MEMORY_SIZE];
          return Err(stored.fault);
        }
        StoreByte(before, i as u16, program[i]);
        Overwrite(program, old(memory.data[..]), i);
        i := i + 1;
      }
      assert program[..i] == program;
      return Ok(());
    }

    /** setProgram, then VM::clear. */
    method SetProgram(program: seq<u8>) returns (r: Result<()>)
      requires Valid() && |program| < 0x1_0000
      modifies this, memory.data
      ensures Valid()
      ensures Lift(r, Abs()) == LoadProgram(old(Abs()), program)
    {
      var _ :- StoreProgram(program);
      Clear();
      return Ok(());
    }
  }
}
