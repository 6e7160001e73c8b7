// Properties of one executeStep and of the instruction handlers, stated on
// the value model of the VM (VmSemantics) and proved from its definitions.

module VmProperties {
  import opened Base
  import opened SharedMemory
  import opened AddressStack
  import opened VmSemantics

  // ---- the shape of a step ------------------------------------------------------

  /** The byte under the counter is the opcode executeStep dispatches on. */
  lemma FetchOpcode(m: Machine)
    requires m.Valid() && m.cpu.pc < MEMORY_SIZE
    ensures m.cpu.Read(m.cpu.pc, W8) == Next(m.cpu.mem.bytes[m.cpu.pc], m.cpu)
  {
    assert m.cpu.mem.bytes[m.cpu.pc..m.cpu.pc + 1] == [m.cpu.mem.bytes[m.cpu.pc]];
  }

  /** The opcode under the counter. */
  function Opcode(m: Machine): u8
    requires m.Valid() && m.cpu.pc < MEMORY_SIZE
  {
    m.cpu.mem.bytes[m.cpu.pc]
  }

  /** The machine as the handler of the instruction at the counter sees it:
    * the status code seeded with the counter and the opcode. */
  function Seeded(m: Machine): (r: Machine)
    requires m.Valid() && m.cpu.pc < MEMORY_SIZE
    ensures r.Valid()
  {
    m.(cpu := m.cpu.(status := Seed(m.cpu.pc, Opcode(m))))
  }

  /** A step of a running machine is the handler of the opcode under the
    * counter, run on the seeded machine, and then the end of executeStep. */
  lemma StepDispatches(m: Machine, env: Env)
    requires m.Valid() && !m.cpu.Halted() && m.cpu.pc < MEMORY_SIZE
    ensures Step(m, env) == Conclude(Opcode(m), Dispatch(Seeded(m), Opcode(m), env))
  {
    FetchOpcode(m);
  }

  /** A handler that answers `false` on a non-jumping opcode: the counter
    * moves past the instruction and the machine halts with the error
    * flag. */
  lemma FailingStep(m: Machine, env: Env, c: Cpu)
    requires m.Valid() && !m.cpu.Halted() && m.cpu.pc < MEMORY_SIZE && Advances(Opcode(m))
    requires c.Valid() && Dispatch(Seeded(m), Opcode(m), env) == Next(false, Seeded(m).(cpu := c))
    ensures Step(m, env) == (m.(cpu := c.Advance(1).HaltWithError()), Ran)
  {
    StepDispatches(m, env);
  }

  /** A handler that answers `true` on a non-jumping opcode: the counter
    * moves past the instruction and nothing else changes after the
    * handler. */
  lemma SucceedingStep(m: Machine, env: Env, m1: Machine)
    requires m.Valid() && !m.cpu.Halted() && m.cpu.pc < MEMORY_SIZE && Advances(Opcode(m))
    requires m1.Valid() && Dispatch(Seeded(m), Opcode(m), env) == Next(true, m1)
    ensures Step(m, env) == (m1.(cpu := m1.cpu.Advance(1)), Ran)
  {
    StepDispatches(m, env);
  }

  /** executeStep runs a two-operand opcode's handler on the memory and the
    * registers. */
  lemma CalcDispatch(m: Machine, op: u8, env: Env, b: BinaryOp)
    requires m.Valid() && BinaryOf(op) == Some(b)
    ensures Dispatch(m, op, env) == OnCpu(m, Binary(m.cpu, b, env.dec))
  {
    assert op < 0x20 && op != OP_HALT && op != OP_NOT;
    assert Dispatch(m, op, env) == DispatchCalc(m, op, env);
  }

  /** executeStep on a halted machine does nothing at all. */
  lemma HaltedStepIsIdle(m: Machine, env: Env)
    requires m.Valid() && m.cpu.Halted()
    ensures Step(m, env) == (m, Idle)
  {
  }

  /** A counter beyond the end of memory: the opcode fetch raises range_error,
    * which reports MEMORY_EXCEPTION and halts with the error flag; nothing
    * else changes. */
  lemma FetchFaultStep(m: Machine, env: Env)
    requires m.Valid() && !m.cpu.Halted() && m.cpu.pc >= MEMORY_SIZE
    ensures var (m1, outcome) := Step(m, env);
      outcome == Ran && m1.cpu.Halted() && m1.cpu.flags == Or8(m.cpu.flags, Or8(FLAG_ERROR, FLAG_HALTED))
      && m1.cpu.status == Or32(m.cpu.status, ERROR_MEMORY_EXCEPTION)
      && m1 == m.(cpu := m1.cpu) && m1.cpu.mem == m.cpu.mem && m1.cpu.pc == m.cpu.pc
  {
    HaltWithErrorHalts(m.cpu.Report(ERROR_MEMORY_EXCEPTION));
  }

  /** Setting the halted flag halts. */
  lemma HaltHalts(c: Cpu)
    ensures Halt(c).Halted()
  {
    var f := c.flags as bv8;
    assert (f | 1) & 1 == 1;
  }

  /** Setting the error and halted flags halts. */
  lemma HaltWithErrorHalts(c: Cpu)
    ensures c.HaltWithError().Halted()
  {
    var f := c.flags as bv8;
    assert (f | 3) & 1 == 1;
  }

  /** An opcode executeStep does not know reports UNSUPPORTED_OPERATION
    * over the seeded status and halts with the error flag; the counter stays
    * on the opcode and memory, stack and controllers are untouched. */
  lemma UnknownOpcodeStep(m: Machine, env: Env)
    requires m.Valid() && !m.cpu.Halted() && m.cpu.pc < MEMORY_SIZE && !Known(Opcode(m))
    ensures var (m1, outcome) := Step(m, env);
      outcome == Ran && m1.cpu.Halted()
      && m1.cpu.status == Or32(Seed(m.cpu.pc, Opcode(m)), ERROR_UNSUPPORTED_OPERATION)
      && m1 == m.(cpu := m1.cpu) && m1.cpu.mem == m.cpu.mem && m1.cpu.pc == m.cpu.pc
  {
    StepDispatches(m, env);
    var op := Opcode(m);
    assert Dispatch(Seeded(m), op, env) == Unsupported(Seeded(m));
    HaltWithErrorHalts(Seeded(m).cpu.Report(ERROR_UNSUPPORTED_OPERATION));
  }

  /** HALT sets only the halted flag: the counter stays on the HALT byte, the
    * status code keeps its seed, and the next step does nothing. */
  lemma HaltStep(m: Machine, env: Env)
    requires m.Valid() && !m.cpu.Halted() && m.cpu.pc < MEMORY_SIZE && Opcode(m) == OP_HALT
    ensures var (m1, outcome) := Step(m, env);
      outcome == Ran && m1 == m.(cpu := m1.cpu)
      && m1.cpu == m.cpu.(flags := Or8(m.cpu.flags, FLAG_HALTED), status := Seed(m.cpu.pc, OP_HALT))
      && Step(m1, env) == (m1, Idle)
  {
    StepDispatches(m, env);
    var m1 := Step(m, env).0;
    assert m1 == Seeded(m).(cpu := Halt(Seeded(m).cpu));
    HaltHalts(Seeded(m).cpu);
    HaltedStepIsIdle(m1, env);
  }

  /** RESET reports RESET over the seeded status, clears memory, the stack
    * and every controller, keeps the counter, and halts with the error
    * flag. */
  lemma ResetStep(m: Machine, env: Env)
    requires m.Valid() && !m.cpu.Halted() && m.cpu.pc < MEMORY_SIZE && Opcode(m) == OP_RESET
    ensures var (m1, outcome) := Step(m, env);
      outcome == Ran && m1.cpu.Halted()
      && m1.cpu.mem == Cleared() && m1.stack == ClearedStack() && m1.pids == m.pids.Clear()
      && m1.cpu.pc == m.cpu.pc
      && m1.cpu.status == Or32(Seed(m.cpu.pc, OP_RESET), ERROR_RESET)
      && m1.cpu.flags == Or8(m.cpu.flags, Or8(FLAG_ERROR, FLAG_HALTED))
  {
    StepDispatches(m, env);
    HaltWithErrorHalts(Reset(Seeded(m)).cpu);
  }

  // ---- operand decoding ------------------------------------------------------------

  /** The little-endian 16-bit value whose first byte is at `a`. */
  function Word(mem: MemState, a: nat): nat
    requires mem.Valid() && a + 1 < MEMORY_SIZE
  {
    mem.bytes[a] as nat + 0x100 * mem.bytes[a + 1] as nat
  }

  /** Moving the counter without passing 0xFFFF is plain addition. */
  lemma NoWrap(a: u16, k: nat)
    requires a + k < 0x1_0000
    ensures Add16(a, k) == a + k
  {
  }

  /** get_optype / get_number inside memory: the byte after the counter. */
  lemma FetchByteAt(c: Cpu)
    requires c.Valid() && c.pc + 1 < MEMORY_SIZE
    ensures FetchByte(c) == Next(c.mem.bytes[c.pc + 1], c.(pc := c.pc + 1))
  {
    NoWrap(c.pc, 1);
  }

  /** get_address inside memory: the 16-bit value after the counter, which
    * ends on its second byte. */
  lemma GetAddressAt(c: Cpu)
    requires c.Valid() && c.pc + 3 <= MEMORY_SIZE
    ensures GetAddress(c) == Next(Word(c.mem, c.pc + 1), c.(pc := c.pc + 2))
  {
    NoWrap(c.pc, 1);
    NoWrap(c.pc + 1, 1);
  }

  /** get_operandaddress inside memory: a literal's address is the byte after
    * the counter, which ends on the literal's last byte; any other operand
    * is an address. */
  lemma OperandAt(c: Cpu, optype: u8)
    requires c.Valid() && c.pc + 5 <= MEMORY_SIZE
    ensures var r := GetOperandAddress(c, optype);
      if IsLiteral(optype) then
        r.value == c.pc + 1 && r.state.pc == c.pc + LiteralSize(optype)
        && r.state == c.(pc := r.state.pc, status := r.state.status)
        && (TypeOf(optype).Some? ==> r.state.status == c.status)
      else
        r == Next(Word(c.mem, c.pc + 1), c.(pc := c.pc + 2))
  {
    NoWrap(c.pc, 1);
    if IsLiteral(optype) {
      NoWrap(c.pc + 1, LiteralSize(optype) - 1);
    } else {
      GetAddressAt(c);
    }
  }

  /** The operands of a two-operand instruction at `pc`: the type byte at
    * pc+1, the destination address at pc+2; a literal operand lies at pc+4
    * and the counter ends on its last byte, an address operand is read at
    * pc+4 and the counter ends on pc+5. Only the counter moves, unless a
    * literal names no type. */
  lemma DecodeOperandsLayout(c: Cpu)
    requires c.Valid() && c.pc + 8 <= MEMORY_SIZE
    ensures var optype := c.mem.bytes[c.pc + 1];
      var r := DecodeOperands(c);
      r.Next? && r.value.optype == optype && r.value.address == Word(c.mem, c.pc + 2)
      && (IsLiteral(optype) ==>
            r.value.operand == c.pc + 4 && r.state.pc == c.pc + 3 + LiteralSize(optype))
      && (!IsLiteral(optype) ==>
            r.value.operand == Word(c.mem, c.pc + 4) && r.state.pc == c.pc + 5)
      && r.state == c.(pc := r.state.pc, status := r.state.status)
      && (TypeOf(optype).Some? ==> r.state.status == c.status)
  {
    var optype := c.mem.bytes[c.pc + 1];
    FetchByteAt(c);
    var c1 := c.(pc := c.pc + 1);
    GetAddressAt(c1);
    var c2 := c.(pc := c.pc + 3);
    OperandAt(c2, optype);
    var h := GetOperandAddress(c2, optype);
    assert DecodeOperands(c) == Next(Operands(optype, Word(c.mem, c.pc + 2), h.value), h.state);
  }

  /** Unfolds a two-operand instruction whose operands decode to a known
    * type and whose loads succeed down to the calculation's outcome. */
  lemma BinaryUnfolds(c: Cpu, op: BinaryOp, dec: DecArith, o: Operands, c1: Cpu, t: OperandType, x: nat, y: nat)
    requires c.Valid() && DecodeOperands(c) == Next(o, c1)
    requires TypeOf(o.optype) == Some(t) && !(t == Dec && op.Bits?)
    requires c1.Read(o.address, WidthOf(t)) == Next(x, c1)
    requires c1.Read(o.operand, WidthOf(t)) == Next(y, c1)
    ensures x < Limit(WidthOf(t)) && y < Limit(WidthOf(t))
    ensures Binary(c, op, dec) == match Calculate(op, t, x, y, dec)
      case Value(v) => c1.Write(o.address, WidthOf(t), v).Answer(true)
      case DivideByZero =>
        Next(false, c1.(flags := Or8(c1.flags, FLAG_DIVIDEZERO)).Report(ERROR_DIVIDEZERO))
      case UndefinedResult => Stop(Undefined, c1)
  {
  }

  /** A two-operand instruction whose operands decode to a known type and
    * whose loads succeed: a computed value lands in the destination exactly
    * when the destination lies in memory, and then the destination reads it
    * back while no other byte, no mapping, no flag, the status and the
    * counter left by decoding stay as they were; a destination past the end
    * stops with a range error and changes nothing; a zero divisor sets
    * DIVIDEZERO and reports code 0x02 without writing; a result C++ leaves
    * undefined stops the machine. */
  lemma BinaryComputes(c: Cpu, op: BinaryOp, dec: DecArith, o: Operands, c1: Cpu, t: OperandType, x: nat, y: nat)
    requires c.Valid() && DecodeOperands(c) == Next(o, c1)
    requires TypeOf(o.optype) == Some(t) && !(t == Dec && op.Bits?)
    requires c1.Read(o.address, WidthOf(t)) == Next(x, c1)
    requires c1.Read(o.operand, WidthOf(t)) == Next(y, c1)
    ensures var r := Binary(c, op, dec);
      var w := WidthOf(t);
      match Calculate(op, t, x, y, dec)
      case Value(v) =>
        (r.Next? <==> o.address + Size(w) <= MEMORY_SIZE)
        && (r.Stop? ==> r == Stop(RangeError, c1))
        && (r.Next? ==>
              r.value && r.state == c1.(mem := r.state.mem)
              && r.state.mem.Load(o.address, w) == Ok(v)
              && r.state.mem.maps == c.mem.maps
              && forall i :: 0 <= i < MEMORY_SIZE && !(o.address <= i < o.address + Size(w))
                   ==> r.state.mem.bytes[i] == c.mem.bytes[i])
      case DivideByZero =>
        r.Next? && !r.value && r.state.mem == c.mem && r.state.pc == c1.pc
        && r.state.flags == Or8(c.flags, FLAG_DIVIDEZERO)
        && r.state.status == Or32(c1.status, ERROR_DIVIDEZERO)
      case UndefinedResult => r == Stop(Undefined, c1)
  {
    BinaryUnfolds(c, op, dec, o, c1, t, x, y);
    var w := WidthOf(t);
    match Calculate(op, t, x, y, dec)
    case Value(v) =>
      if o.address + Size(w) <= MEMORY_SIZE {
        AccessWithinMemory(c1.mem, o.address, w, v);
        StoreThenLoad(c1.mem, o.address, w, v);
        StoreFrame(c1.mem, o.address, w, v);
      }
    case DivideByZero =>
    case UndefinedResult =>
  }

  /** handleADD on a 32-bit destination `x` with a literal operand `y`: the
    * counter moves to the literal's last byte and the sum modulo 2^32 goes
    * to the destination. */
  lemma AddLiteral(c: Cpu, dec: DecArith, x: nat, y: nat)
    requires c.Valid() && c.pc + 8 <= MEMORY_SIZE
    requires c.mem.bytes[c.pc + 1] == Or8(TYPE_UINT32, LITERAL)
    requires c.mem.Load(Word(c.mem, c.pc + 2), W32) == Ok(x) && c.mem.Load(c.pc + 4, W32) == Ok(y)
    ensures (x + y) % 0x1_0000_0000 < Limit(W32)
    ensures Binary(c, Arith(Add), dec)
            == c.(pc := c.pc + 7).Write(Word(c.mem, c.pc + 2), W32, (x + y) % 0x1_0000_0000).Answer(true)
  {
    var optype := Or8(TYPE_UINT32, LITERAL);
    assert optype == 1 && IsLiteral(optype) && TypeOf(optype) == Some(UInt32);
    DecodeOperandsLayout(c);
    var a := Word(c.mem, c.pc + 2);
    var c1 := c.(pc := c.pc + 7);
    assert DecodeOperands(c) == Next(Operands(optype, a, c.pc + 4), c1);
    assert c1.Read(a, W32) == Next(x, c1);
    assert c1.Read(c.pc + 4, W32) == Next(y, c1);
    Sum32(x, y, dec);
    BinaryUnfolds(c, Arith(Add), dec, Operands(optype, a, c.pc + 4), c1, UInt32, x, y);
  }

  /** Integer ADD on 32-bit operands is addition modulo 2^32. */
  lemma Sum32(x: nat, y: nat, dec: DecArith)
    requires x < Limit(W32) && y < Limit(W32)
    ensures Calculate(Arith(Add), UInt32, x, y, dec) == Value((x + y) % 0x1_0000_0000)
  {
    assert Limit(W32) == 0x1_0000_0000 by {
      assert Pow256(4) == 0x100 * Pow256(3) && Pow256(3) == 0x100 * Pow256(2);
    }
  }

  /** ADD on a 32-bit destination holding `x` with a literal operand `y`:
    * the destination becomes the sum modulo 2^32 and the counter ends after
    * the 8 bytes of the instruction (pc 8 for an instruction at 0). */
  lemma AddLiteralStep(m: Machine, env: Env, x: nat, y: nat)
    requires m.Valid() && !m.cpu.Halted() && m.cpu.pc + 8 <= MEMORY_SIZE
    requires Opcode(m) == OP_ADD && m.cpu.mem.bytes[m.cpu.pc + 1] == Or8(TYPE_UINT32, LITERAL)
    requires m.cpu.mem.Load(Word(m.cpu.mem, m.cpu.pc + 2), W32) == Ok(x)
    requires m.cpu.mem.Load(m.cpu.pc + 4, W32) == Ok(y)
    ensures var (m1, outcome) := Step(m, env);
      outcome == Ran && m1 == m.(cpu := m1.cpu)
      && m1.cpu.pc == m.cpu.pc + 8 && m1.cpu.status == Seed(m.cpu.pc, OP_ADD)
      && m1.cpu.flags == m.cpu.flags
      && Ok(m1.cpu.mem) == m.cpu.mem.Store(Word(m.cpu.mem, m.cpu.pc + 2), W32, (x + y) % 0x1_0000_0000)
  {
    StepDispatches(m, env);
    var c := Seeded(m).cpu;
    assert c.mem == m.cpu.mem && c.pc == m.cpu.pc;
    AddLiteral(c, env.dec, x, y);
    NoWrap(m.cpu.pc + 7, 1);
  }

  /** Decoding keeps the status code unless a literal names no type. */
  lemma DecodeKeepsStatus(c: Cpu)
    requires c.Valid() && DecodeOperands(c).Next?
    requires TypeOf(DecodeOperands(c).value.optype).Some?
    ensures DecodeOperands(c).state.status == c.status
  {
  }

  /** DIV by zero: the destination keeps its value, the DIVIDEZERO flag and
    * code are set, the counter still moves past the instruction, and the
    * machine halts with the error flag. */
  lemma DivideByZeroStep(m: Machine, env: Env, o: Operands, c1: Cpu, t: OperandType, x: nat)
    requires m.Valid() && !m.cpu.Halted() && m.cpu.pc < MEMORY_SIZE && Opcode(m) == OP_DIV
    requires DecodeOperands(Seeded(m).cpu) == Next(o, c1) && TypeOf(o.optype) == Some(t)
    requires c1.Read(o.address, WidthOf(t)) == Next(x, c1) && c1.Read(o.operand, WidthOf(t)) == Next(0, c1)
    ensures var (m1, outcome) := Step(m, env);
      outcome == Ran && m1 == m.(cpu := m1.cpu) && m1.cpu.Halted()
      && m1.cpu.mem == m.cpu.mem && m1.cpu.pc == Add16(c1.pc, 1)
      && m1.cpu.flags == Or8(Or8(m.cpu.flags, FLAG_DIVIDEZERO), Or8(FLAG_ERROR, FLAG_HALTED))
      && m1.cpu.status == Or32(Seed(m.cpu.pc, OP_DIV), ERROR_DIVIDEZERO)
  {
    var c := Seeded(m).cpu;
    DecodeKeepsStatus(c);
    DivideByZero(c, env.dec, o, c1, t, x);
    var c2 := c1.(flags := Or8(c1.flags, FLAG_DIVIDEZERO)).Report(ERROR_DIVIDEZERO);
    CalcDispatch(Seeded(m), OP_DIV, env, Arith(Div));
    FailingStep(m, env, c2);
    HaltWithErrorHalts(c2.Advance(1));
  }

  /** handleDIV with a zero divisor. */
  lemma DivideByZero(c: Cpu, dec: DecArith, o: Operands, c1: Cpu, t: OperandType, x: nat)
    requires c.Valid() && DecodeOperands(c) == Next(o, c1) && TypeOf(o.optype) == Some(t)
    requires c1.Read(o.address, WidthOf(t)) == Next(x, c1) && c1.Read(o.operand, WidthOf(t)) == Next(0, c1)
    ensures Binary(c, Arith(Div), dec)
            == Next(false, c1.(flags := Or8(c1.flags, FLAG_DIVIDEZERO)).Report(ERROR_DIVIDEZERO))
  {
    BinaryUnfolds(c, Arith(Div), dec, o, c1, t, x, 0);
  }

  /** The bitwise instructions. */
  predicate IsBitwise(op: u8)
  {
    op in {OP_AND, OP_OR, OP_XOR, OP_LSHIFT, OP_RSHIFT}
  }

  /** The operation a bitwise opcode names. */
  function BitOf(op: u8): BitOp
  {
    if op == OP_AND then And else if op == OP_OR then Or
    else if op == OP_XOR then Xor else if op == OP_LSHIFT then LShift else RShift
  }

  /** AND, OR, XOR, LSHIFT and RSHIFT on a DEC operand, or on type bits no
    * type has, report UNSUPPORTED_OPERAND without touching memory, move past
    * the operands, and halt with the error flag. */
  lemma UnsupportedBitwiseStep(m: Machine, env: Env, o: Operands, c1: Cpu)
    requires m.Valid() && !m.cpu.Halted() && m.cpu.pc < MEMORY_SIZE && IsBitwise(Opcode(m))
    requires DecodeOperands(Seeded(m).cpu) == Next(o, c1)
    requires TypeOf(o.optype) == None || TypeOf(o.optype) == Some(Dec)
    ensures var (m1, outcome) := Step(m, env);
      outcome == Ran && m1 == m.(cpu := m1.cpu) && m1.cpu.Halted()
      && m1.cpu.mem == m.cpu.mem && m1.cpu.pc == Add16(c1.pc, 1)
      && m1.cpu.status == Or32(c1.status, ERROR_UNSUPPORTED_OPERAND)
      && m1.cpu.flags == Or8(m.cpu.flags, Or8(FLAG_ERROR, FLAG_HALTED))
  {
    var op := Opcode(m);
    var c2 := c1.Report(ERROR_UNSUPPORTED_OPERAND);
    assert Binary(Seeded(m).cpu, Bits(BitOf(op)), env.dec) == Next(false, c2);
    assert BinaryOf(op) == Some(Bits(BitOf(op)));
    CalcDispatch(Seeded(m), op, env, Bits(BitOf(op)));
    FailingStep(m, env, c2);
    HaltWithErrorHalts(c2.Advance(1));
  }

  // ---- subroutines ------------------------------------------------------------------

  /** CALL pushes the address just after its 3-byte encoding and jumps to
    * its operand; a RETURN then comes back to that address and leaves the
    * stack as it was before the CALL. */
  lemma CallThenReturn(m: Machine)
    requires m.Valid() && m.cpu.pc + 3 <= MEMORY_SIZE && !m.stack.IsFull()
    ensures var call := Call(m);
      call.Next? && call.value && call.state.cpu.pc == Word(m.cpu.mem, m.cpu.pc + 1)
      && call.state.stack.Contents() == m.stack.Contents() + [m.cpu.pc + 3]
      && var ret := Return(call.state);
         ret.Next? && ret.state.cpu.pc == m.cpu.pc + 3
         && ret.state.stack.Contents() == m.stack.Contents()
  {
    GetAddressAt(m.cpu);
    NoWrap(m.cpu.pc + 2, 1);
    PushAppends(m.stack, m.cpu.pc + 3);
    PushThenPop(m.stack, m.cpu.pc + 3);
  }

  /** CALL on a full stack: overflow_error is not a range_error, so it leaves
    * executeStep without setting the error or halted flags. */
  lemma CallOverflowEscapes(m: Machine, env: Env)
    requires m.Valid() && !m.cpu.Halted() && m.cpu.pc + 3 <= MEMORY_SIZE
    requires Opcode(m) == OP_CALL && m.stack.IsFull()
    ensures var (m1, outcome) := Step(m, env);
      outcome == Escaped(StackOverflow) && m1.stack == m.stack && m1.pids == m.pids
      && m1.cpu.flags == m.cpu.flags && !m1.cpu.Halted()
  {
    StepDispatches(m, env);
    GetAddressAt(Seeded(m).cpu);
  }

  /** RETURN on an empty stack: underflow_error leaves executeStep without
    * setting the error or halted flags. */
  lemma ReturnUnderflowEscapes(m: Machine, env: Env)
    requires m.Valid() && !m.cpu.Halted() && m.cpu.pc < MEMORY_SIZE
    requires Opcode(m) == OP_RETURN && m.stack.IsEmpty()
    ensures Step(m, env) == (Seeded(m), Escaped(StackUnderflow))
  {
    var m1 := Seeded(m);
    assert Dispatch(m1, OP_RETURN, env) == Stop(StackUnderflow, m1) by {
      assert Dispatch(m1, OP_RETURN, env) == DispatchFlow(m1, OP_RETURN);
    }
    StepDispatches(m, env);
  }

  /** PUSH and POP are not implemented: their handlers answer false, so the
    * step moves past the opcode and halts with the error flag, touching
    * neither memory nor the stack. */
  lemma PushPopFail(m: Machine, env: Env)
    requires m.Valid() && !m.cpu.Halted() && m.cpu.pc < MEMORY_SIZE
    requires Opcode(m) == OP_PUSH || Opcode(m) == OP_POP
    ensures var (m1, outcome) := Step(m, env);
      outcome == Ran && m1.cpu.Halted() && m1.stack == m.stack && m1.pids == m.pids
      && m1.cpu.mem == m.cpu.mem && m1.cpu.pc == Add16(m.cpu.pc, 1)
      && m1.cpu.status == Seed(m.cpu.pc, Opcode(m))
      && m1.cpu.flags == Or8(m.cpu.flags, Or8(FLAG_ERROR, FLAG_HALTED))
  {
    var m1 := Seeded(m);
    assert Dispatch(m1, Opcode(m), env) == Next(false, m1) by {
      assert Dispatch(m1, Opcode(m), env) == DispatchFlow(m1, Opcode(m));
    }
    FailingStep(m, env, m1.cpu);
    HaltWithErrorHalts(m1.cpu.Advance(1));
  }

  // ---- jumps ---------------------------------------------------------------------------

  /** JUMP as written loads its target with an 8-bit load, so it can only reach the
    * first 256 bytes. */
  lemma JumpTargetIsOneByte(c: Cpu)
    requires c.Valid() && JumpAsWritten(c).Next?
    ensures JumpAsWritten(c).state.pc < 0x100
  {
  }

  /** A 16-bit read inside memory is the little-endian word there. */
  lemma ReadWordAt(c: Cpu, a: u16)
    requires c.Valid() && a + 2 <= MEMORY_SIZE
    ensures c.Read(a, W16) == Next(Word(c.mem, a), c)
  {
    var bs := c.mem.bytes[a..a + 2];
    assert bs[1..][1..] == [];
    assert DecodeLE(bs[1..]) == bs[1];
  }

  /** A one-byte read inside memory is the byte there. */
  lemma ReadByteAt(c: Cpu, a: u16)
    requires c.Valid() && a < MEMORY_SIZE
    ensures c.Read(a, W8) == Next(c.mem.bytes[a] as nat, c)
  {
    assert c.mem.bytes[a..a + 1] == [c.mem.bytes[a]];
  }

  /** JUMP with a literal target: the literal is the two bytes after the type
    * byte, and the counter becomes that 16-bit value; as written, only its
    * low byte. */
  lemma JumpLiteral(c: Cpu)
    requires c.Valid() && c.pc + 6 <= MEMORY_SIZE && c.mem.bytes[c.pc + 1] == LITERAL
    ensures Jump(c) == Next(true, c.(pc := Word(c.mem, c.pc + 2)))
    ensures JumpAsWritten(c) == Next(true, c.(pc := c.mem.bytes[c.pc + 2]))
  {
    FetchByteAt(c);
    var c1 := c.(pc := c.pc + 1);
    var optype := Or8(LITERAL, TYPE_UINT16);
    assert IsLiteral(optype) && TypeOf(optype) == Some(UInt16);
    OperandAt(c1, optype);
    ReadWordAt(c1, c.pc + 2);
    ReadByteAt(c1, c.pc + 2);
  }

  /** The instruction JUMP LITERAL 0x0100 lands on 0x0100, but as written it
    * lands on 0x0000. */
  lemma JumpAsWrittenDropsHighByte(c: Cpu)
    requires c.Valid() && c.pc + 6 <= MEMORY_SIZE
    requires c.mem.bytes[c.pc + 1..c.pc + 4] == [LITERAL, 0x00, 0x01]
    ensures Jump(c).state.pc == 0x100
    ensures JumpAsWritten(c).state.pc == 0
  {
    assert c.mem.bytes[c.pc + 1] == LITERAL;
    assert c.mem.bytes[c.pc + 2] == 0 && c.mem.bytes[c.pc + 3] == 1;
    JumpLiteral(c);
  }
}
